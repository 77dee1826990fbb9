/** What every step of the approval protocol keeps: the part that does not depend on what tools declare. */
module ProtocolInvariant {
  import opened Results
  import opened Json
  import opened ApprovalGate
  import opened Declarations
  import opened Protocol
  import W = WriteConditions

  // ---- the invariant of one call ----

  /** What never changes about a call after it arrived. */
  predicate SameCall(a: Call, b: Call)
  {
    a.tool == b.tool && a.args == b.args && a.route == b.route && a.docs == b.docs && a.pairs == b.pairs && a.gated == b.gated
  }

  /** Where a call stands: how many of its units have been described and granted. */
  predicate Shape(call: Call)
  {
    var n := |call.pairs|;
    && call.gated == (n > 0)
    && |call.grants| <= |call.shownAt| <= n
    && (!call.route.Batch? ==> n <= 1)
    && (call.route.Batch? ==> |call.docs| == n && call.view.NoTarget?)
    && (n > 0 ==> call.route.Batch? == call.tool.ResourceCreate? && call.route.Selecting? == call.tool.ResourceDeleteCollection?)
    && (call.route.Selecting? && n > 0 && !call.phase.Looking? && !call.phase.Finished? ==> call.view.Collection?)
    && (call.route.Selecting? ==> !call.view.OneObject?)
    && match call.phase
       case Looking => n > 0 && call.shownAt == [] && call.route.Selecting?
       case Asking(u) => u < n && |call.shownAt| == |call.grants| == u
       case Described(u) => u < n && |call.shownAt| == u + 1 && |call.grants| == u
       case Ready(u) => u < n == |call.grants|
       case Rereading(u) => u < n == |call.grants|
       case Running(u) => call.gated ==> u < n == |call.grants|
       case Finished => true
  }

  /** The log holds what the call says it has behind it, in order. */
  predicate Recorded(log: seq<Entry>, c: nat, call: Call)
  {
    && |call.grants| <= |call.shownAt| <= |call.pairs|
    && (forall j | 0 <= j < |call.shownAt| :: call.shownAt[j] < |log| && log[call.shownAt[j]] == Shown(c, j, call.pairs[j], call.view))
    && (forall j | 0 <= j < |call.grants| ::
          && call.shownAt[j] < call.grants[j].at < |log|
          && log[call.grants[j].at] == GrantedTo(c, j, call.grants[j].decision))
    && (call.gated && (call.phase.Running? || call.phase.Rereading?) && call.phase.unit < |call.grants| ==>
          var u := call.phase.unit;
          && call.spentAt < |log| && log[call.spentAt] == SpentBy(c, u, call.grants[u].decision)
          && (forall j | 0 <= j < |call.grants| :: call.grants[j].at < call.spentAt)
          && (call.phase.Running? && !call.view.NoTarget? ==>
                && call.spentAt < call.confirmedAt < |log|
                && log[call.confirmedAt].Confirmed? && log[call.confirmedAt].call == c && log[call.confirmedAt].unit == u
                && SameView(call.view, log[call.confirmedAt].view)))
  }

  predicate CallOK(log: seq<Entry>, c: nat, call: Call)
  {
    Shape(call) && Recorded(log, c, call)
  }

  // ---- the invariant of one log entry ----

  /** The chain of entries that justifies a handler run: shown, granted, spent and, where there is a target, confirmed. */
  predicate Justified(log: seq<Entry>, k: nat, c: nat, call: Call, u: nat, e: Evidence)
  {
    && k <= |log| && u < |call.pairs|
    && e.shownAt < e.grantedAt < e.spentAt < k
    && log[e.shownAt].Shown? && log[e.shownAt].call == c && log[e.shownAt].unit == u && log[e.shownAt].pair == call.pairs[u]
    && log[e.grantedAt] == GrantedTo(c, u, e.decision)
    && log[e.spentAt] == SpentBy(c, u, e.decision)
    && (!log[e.shownAt].view.NoTarget? ==>
          && e.spentAt < e.confirmedAt < k
          && log[e.confirmedAt].Confirmed? && log[e.confirmedAt].call == c && log[e.confirmedAt].unit == u
          && SameView(log[e.shownAt].view, log[e.confirmedAt].view))
  }

  /** Unit u has been granted in the first k entries. */
  predicate WasGranted(log: seq<Entry>, k: nat, c: nat, u: nat)
  {
    exists i :: 0 <= i < k && i < |log| && log[i].GrantedTo? && log[i].call == c && log[i].unit == u
  }

  /** A handler run, or a request it sends, as far as the call's evidence goes. */
  predicate RunOK(log: seq<Entry>, k: nat, call: Call, c: nat, u: nat, evidence: Option<Evidence>)
  {
    && (call.gated ==> evidence.Some? && Justified(log, k, c, call, u, evidence.value))
    && (!call.gated ==> evidence.None?)
    && (forall j: nat | j < |call.pairs| :: WasGranted(log, k, c, j))
  }

  predicate EntryOK(log: seq<Entry>, k: nat, calls: seq<Call>)
    requires k < |log|
  {
    log[k].Invoked? || log[k].Reached? ==>
      log[k].call < |calls| && RunOK(log, k, calls[log[k].call], log[k].call, log[k].unit, log[k].evidence)
  }

  // ---- decisions and handler runs happen once ----

  /** The call has already run, or will never run, this unit. */
  predicate Passed(phase: Phase, u: nat)
  {
    match phase
    case Running(v) => u <= v
    case Ready(v) => u < v
    case Rereading(v) => u < v
    case Finished => true
    case _ => false
  }

  predicate SpentOnce(s: State)
  {
    && (forall i | 0 <= i < |s.log| && s.log[i].SpentBy? :: s.log[i].decision in s.decisions && s.decisions[s.log[i].decision].used)
    && (forall i, j | 0 <= i < j < |s.log| && s.log[i].SpentBy? && s.log[j].SpentBy? :: s.log[i].decision != s.log[j].decision)
  }

  predicate InvokedOnce(s: State)
  {
    && (forall i | 0 <= i < |s.log| && s.log[i].Invoked? :: s.log[i].call < |s.calls| && Passed(s.calls[s.log[i].call].phase, s.log[i].unit))
    && (forall i, j | 0 <= i < j < |s.log| && s.log[i].Invoked? && s.log[j].Invoked? ::
          s.log[i].call != s.log[j].call || s.log[i].unit != s.log[j].unit)
  }

  // ---- what was shown stays on record ----

  /** This document is the one its version names, at this place. */
  predicate OnRecord(history: map<string, (Coord, Json)>, at: Coord, doc: Json)
  {
    W.Stored(doc) && W.VersionOf(doc) in history && history[W.VersionOf(doc)] == (at, doc)
  }

  /** A document read as a call's target is on record at the place the call addresses. */
  predicate ViewOnRecord(s: State, c: nat, view: View)
  {
    view.OneObject? ==>
      c < |s.calls| && TargetCoord(s.calls[c].args).Some? && OnRecord(s.history, TargetCoord(s.calls[c].args).value, view.doc)
  }

  /** What a gate read, or a request took effect over, was on record then and is now. */
  predicate OnRecordEntry(s: State, e: Entry)
  {
    match e
    case Shown(c, _, _, view) => ViewOnRecord(s, c, view)
    case Confirmed(c, _, view) => ViewOnRecord(s, c, view)
    case Reached(_, _, r, _, i) => i.over.Some? ==> (r.Update? || r.Patch? || r.Delete?) && OnRecord(s.history, r.at, i.over.value)
    case _ => true
  }

  predicate LogOnRecord(s: State)
  {
    forall i | 0 <= i < |s.log| :: OnRecordEntry(s, s.log[i])
  }

  predicate CallsOK(s: State)
  {
    forall c: nat | c < |s.calls| :: CallOK(s.log, c, s.calls[c])
  }

  predicate EntriesOK(s: State)
  {
    forall k: nat | k < |s.log| :: EntryOK(s.log, k, s.calls)
  }

  predicate Sound(s: State)
  {
    CallsOK(s) && EntriesOK(s) && SpentOnce(s) && InvokedOnce(s) && HistoryHolds(s) && LogOnRecord(s)
  }

  // ---- what every change of state leaves alone ----

  ghost predicate PhaseFollows(a: Phase, b: Phase)
  {
    forall u: nat | Passed(a, u) :: Passed(b, u)
  }

  predicate HistoryGrows(s: State, t: State)
  {
    forall v | v in s.history :: v in t.history && t.history[v] == s.history[v]
  }

  /** The log grows, no call changes its identity, and none but call c moves. */
  ghost predicate Moves(s: State, t: State, c: nat)
  {
    && s.log <= t.log && c < |s.calls| == |t.calls|
    && (forall d: nat | d < |s.calls| && d != c :: t.calls[d] == s.calls[d])
    && SameCall(s.calls[c], t.calls[c]) && PhaseFollows(s.calls[c].phase, t.calls[c].phase)
    && t.history == s.history && t.cluster == s.cluster
  }

  lemma CallKept(log: seq<Entry>, more: seq<Entry>, c: nat, call: Call)
    requires CallOK(log, c, call) && log <= more
    ensures CallOK(more, c, call)
  {
  }

  lemma EntryKept(log: seq<Entry>, more: seq<Entry>, k: nat, calls: seq<Call>, later: seq<Call>)
    requires log <= more && k < |log| && EntryOK(log, k, calls)
    requires |calls| <= |later| && forall d: nat | d < |calls| :: SameCall(calls[d], later[d])
    ensures EntryOK(more, k, later)
  {
    if log[k].Invoked? || log[k].Reached? {
      RunKept(log, more, k, calls[log[k].call], later[log[k].call], log[k].call, log[k].unit, log[k].evidence);
    }
  }

  lemma RunKept(log: seq<Entry>, more: seq<Entry>, k: nat, a: Call, b: Call, c: nat, u: nat, evidence: Option<Evidence>)
    requires RunOK(log, k, a, c, u, evidence) && log <= more && k <= |log| && SameCall(a, b)
    ensures RunOK(more, k, b, c, u, evidence)
  {
    forall j: nat | j < |b.pairs|
      ensures WasGranted(more, k, c, j)
    {
      assert WasGranted(log, k, c, j);
    }
  }

  lemma RecordKept(s: State, t: State, e: Entry)
    requires OnRecordEntry(s, e) && HistoryGrows(s, t)
    requires |s.calls| <= |t.calls| && forall d: nat | d < |s.calls| :: t.calls[d].args == s.calls[d].args
    ensures OnRecordEntry(t, e)
  {
  }

  predicate QuietRuns(s: State, t: State)
  {
    s.log <= t.log && forall k | |s.log| <= k < |t.log| :: !t.log[k].Invoked?
  }

  lemma RunsKept(s: State, t: State, c: nat)
    requires Moves(s, t, c) && InvokedOnce(s) && QuietRuns(s, t)
    ensures InvokedOnce(t)
  {
  }

  predicate QuietSpending(s: State, t: State)
  {
    && s.log <= t.log && (forall k | |s.log| <= k < |t.log| :: !t.log[k].SpentBy?)
    && (forall d | d in s.decisions :: d in t.decisions && t.decisions[d].used == s.decisions[d].used)
  }

  lemma SpendingKept(s: State, t: State)
    requires SpentOnce(s) && QuietSpending(s, t)
    ensures SpentOnce(t)
  {
  }

  lemma CallsKept(s: State, t: State, c: nat)
    requires CallsOK(s) && Moves(s, t, c) && CallOK(t.log, c, t.calls[c])
    ensures CallsOK(t)
  {
    forall d: nat | d < |t.calls|
      ensures CallOK(t.log, d, t.calls[d])
    {
      if d != c { CallKept(s.log, t.log, d, s.calls[d]); }
    }
  }

  lemma EntriesKept(s: State, t: State)
    requires EntriesOK(s) && s.log <= t.log && |s.calls| <= |t.calls| && forall d: nat | d < |s.calls| :: SameCall(s.calls[d], t.calls[d])
    requires forall k: nat | |s.log| <= k < |t.log| :: EntryOK(t.log, k, t.calls)
    ensures EntriesOK(t)
  {
    forall k: nat | k < |t.log|
      ensures EntryOK(t.log, k, t.calls)
    {
      if k < |s.log| { EntryKept(s.log, t.log, k, s.calls, t.calls); }
    }
  }

  lemma LogKept(s: State, t: State)
    requires LogOnRecord(s) && s.log <= t.log && HistoryGrows(s, t)
    requires |s.calls| <= |t.calls| && forall d: nat | d < |s.calls| :: t.calls[d].args == s.calls[d].args
    requires forall k: nat | |s.log| <= k < |t.log| :: OnRecordEntry(t, t.log[k])
    ensures LogOnRecord(t)
  {
    forall k: nat | k < |t.log|
      ensures OnRecordEntry(t, t.log[k])
    {
      if k < |s.log| { RecordKept(s, t, s.log[k]); }
    }
  }

  // ---- the changes a step is made of ----

  /** One call moves on, and not into a handler. */
  lemma MoveKeeps(s: State, c: nat, call: Call)
    requires Sound(s) && c < |s.calls| && CallOK(s.log, c, call)
    requires SameCall(s.calls[c], call) && PhaseFollows(s.calls[c].phase, call.phase)
    ensures Sound(At(s, c, call))
  {
    var t := At(s, c, call);
    CallsKept(s, t, c);
    EntriesKept(s, t);
    LogKept(s, t);
    RunsKept(s, t, c);
    SpendingKept(s, t);
  }

  /** One call moves on and one entry says so, an entry that starts no handler and sends no request. */
  lemma StepKeeps(s: State, decisions: map<nat, DecisionInfo>, c: nat, call: Call, e: Entry)
    requires Sound(s) && c < |s.calls| && CallOK(s.log + [e], c, call)
    requires SameCall(s.calls[c], call) && PhaseFollows(s.calls[c].phase, call.phase)
    requires !e.Invoked? && !e.Reached? && OnRecordEntry(s, e)
    requires SpentOnce(Logged(At(s.(decisions := decisions), c, call), e))
    ensures Sound(Logged(At(s.(decisions := decisions), c, call), e))
  {
    var t := Logged(At(s.(decisions := decisions), c, call), e);
    RecordKept(s, t, e);
    CallsKept(s, t, c);
    EntriesKept(s, t);
    LogKept(s, t);
    RunsKept(s, t, c);
  }

  lemma FinishKeeps(s: State, c: nat)
    requires Sound(s) && c < |s.calls|
    ensures Sound(At(s, c, s.calls[c].(phase := Finished)))
  {
    assert CallOK(s.log, c, s.calls[c]);
    MoveKeeps(s, c, s.calls[c].(phase := Finished));
  }

  /** One more entry that is in order by itself. */
  lemma EntryAdded(s: State, e: Entry)
    requires Sound(s) && EntryOK(s.log + [e], |s.log|, s.calls) && OnRecordEntry(s, e)
    requires !e.SpentBy? && InvokedOnce(Logged(s, e))
    ensures Sound(Logged(s, e))
  {
    var t := Logged(s, e);
    SpendingKept(s, t);
    RecordKept(s, t, e);
    EntriesKept(s, t);
    LogKept(s, t);
    forall d: nat | d < |t.calls|
      ensures CallOK(t.log, d, t.calls[d])
    {
      CallKept(s.log, t.log, d, s.calls[d]);
    }
  }

  /** The cluster changes and the record of versions grows. */
  lemma WorldKeeps(s: State, t: State)
    requires Sound(s) && t.calls == s.calls && t.log == s.log && t.decisions == s.decisions
    requires HistoryHolds(t) && HistoryGrows(s, t)
    ensures Sound(t)
  {
    LogKept(s, t);
  }

  /** A new version goes on record; nothing on record is overwritten. */
  lemma PutKeeps(s: State, at: Coord, doc: Json)
    requires HistoryHolds(s) && W.Stored(doc) && W.VersionOf(doc) !in s.history
    ensures HistoryHolds(Put(s, at, doc)) && HistoryGrows(s, Put(s, at, doc))
  {
  }

  lemma DropKeeps(s: State, gone: set<Coord>)
    requires HistoryHolds(s)
    ensures HistoryHolds(s.(cluster := s.cluster - gone))
  {
  }

  /** A call joins. */
  lemma JoinKeeps(s: State, call: Call)
    requires Sound(s) && CallOK(s.log, |s.calls|, call)
    ensures Sound(s.(calls := s.calls + [call])) && (forall u: nat :: NotRunYet(s, |s.calls|, u))
  {
    var t := s.(calls := s.calls + [call]);
    EntriesKept(s, t);
    LogKept(s, t);
  }

  /** The call once unit u has been described. */
  function Describing(log: seq<Entry>, call: Call, view: View): Call
    requires call.phase.Asking?
  {
    call.(view := view, shownAt := call.shownAt + [|log|], phase := Described(call.phase.unit))
  }

  lemma DescribedCall(log: seq<Entry>, c: nat, call: Call, view: View)
    requires CallOK(log, c, call) && call.phase.Asking? && (call.route.Plain? || view == call.view)
    ensures call.phase.unit < |call.pairs|
    ensures CallOK(log + [Shown(c, call.phase.unit, call.pairs[call.phase.unit], view)], c, Describing(log, call, view))
  {
  }

  lemma DescribingKeeps(s: State, c: nat, view: View)
    requires Sound(s) && c < |s.calls| && s.calls[c].phase.Asking? && (s.calls[c].route.Plain? || view == s.calls[c].view)
    requires ViewOnRecord(s, c, view)
    ensures
      var call := s.calls[c];
      call.phase.unit < |call.pairs|
      && Sound(Logged(At(s, c, Describing(s.log, call, view)), Shown(c, call.phase.unit, call.pairs[call.phase.unit], view)))
  {
    var call := s.calls[c];
    assert CallOK(s.log, c, call);
    DescribedCall(s.log, c, call, view);
    var e := Shown(c, call.phase.unit, call.pairs[call.phase.unit], view);
    SpendingKept(s, Logged(At(s, c, Describing(s.log, call, view)), e));
    StepKeeps(s, s.decisions, c, Describing(s.log, call, view), e);
  }

  /** A view already shown is on record still. */
  lemma OldViewOnRecord(s: State, c: nat)
    requires Sound(s) && c < |s.calls| && !s.calls[c].route.Plain?
    ensures ViewOnRecord(s, c, s.calls[c].view)
  {
    assert CallOK(s.log, c, s.calls[c]);
  }

  /** A decision the gate hands out is recorded unspent, unless it was known already. */
  function Registered(s: State, d: nat, requestId: string): State
  {
    if d in s.decisions then s else s.(decisions := s.decisions[d := DecisionInfo(requestId, false)])
  }

  lemma RegisteredKeeps(s: State, d: nat, requestId: string)
    requires Sound(s)
    ensures Sound(Registered(s, d, requestId))
  {
    SpendingKept(s, Registered(s, d, requestId));
    LogKept(s, Registered(s, d, requestId));
  }

  /** The call once unit u has been granted. */
  function Granting(log: seq<Entry>, call: Call, d: nat): Call
    requires call.phase.Described?
  {
    var u := call.phase.unit;
    call.(grants := call.grants + [Grant(d, |log|)], phase := if u + 1 < |call.pairs| then Asking(u + 1) else Ready(0))
  }

  lemma GrantKeeps(s: State, c: nat, d: nat)
    requires Sound(s) && c < |s.calls| && s.calls[c].phase.Described?
    ensures Sound(Logged(At(s, c, Granting(s.log, s.calls[c], d)), GrantedTo(c, s.calls[c].phase.unit, d)))
  {
    var call, e := s.calls[c], GrantedTo(c, s.calls[c].phase.unit, d);
    assert CallOK(s.log, c, call);
    SpendingKept(s, Logged(At(s, c, Granting(s.log, call, d)), e));
    StepKeeps(s, s.decisions, c, Granting(s.log, call, d), e);
  }

  /** The call once unit u has been paid for. */
  function Spending(log: seq<Entry>, call: Call): Call
    requires call.phase.Ready?
  {
    call.(spentAt := |log|, confirmedAt := |log|,
          phase := if call.view.NoTarget? then Running(call.phase.unit) else Rereading(call.phase.unit))
  }

  predicate CanPay(s: State, c: nat)
  {
    && c < |s.calls| && s.calls[c].phase.Ready? && s.calls[c].phase.unit < |s.calls[c].grants|
    && var d := s.calls[c].grants[s.calls[c].phase.unit].decision;
       d in s.decisions && !s.decisions[d].used
  }

  function Paid(s: State, c: nat): State
    requires CanPay(s, c)
  {
    var call := s.calls[c];
    var d := call.grants[call.phase.unit].decision;
    Logged(At(s.(decisions := s.decisions[d := s.decisions[d].(used := true)]), c, Spending(s.log, call)), SpentBy(c, call.phase.unit, d))
  }

  lemma SpentCall(log: seq<Entry>, c: nat, call: Call)
    requires CallOK(log, c, call) && call.phase.Ready?
    ensures call.phase.unit < |call.grants|
    ensures CallOK(log + [SpentBy(c, call.phase.unit, call.grants[call.phase.unit].decision)], c, Spending(log, call))
  {
  }

  /** A decision is spent only when it was not, so no entry spends it twice. */
  lemma PaidKeeps(s: State, c: nat)
    requires Sound(s) && CanPay(s, c)
    ensures Sound(Paid(s, c))
  {
    var call := s.calls[c];
    var d := call.grants[call.phase.unit].decision;
    assert CallOK(s.log, c, call);
    SpentCall(s.log, c, call);
    StepKeeps(s, s.decisions[d := s.decisions[d].(used := true)], c, Spending(s.log, call), SpentBy(c, call.phase.unit, d));
  }

  /** The state after the target was read again and found as shown. */
  function Confirming(s: State, c: nat, now: View): State
    requires c < |s.calls| && s.calls[c].phase.Rereading?
  {
    var u := s.calls[c].phase.unit;
    Logged(At(s, c, s.calls[c].(confirmedAt := |s.log|, phase := Running(u))), Confirmed(c, u, now))
  }

  lemma ConfirmedCall(log: seq<Entry>, c: nat, call: Call, now: View)
    requires CallOK(log, c, call) && call.phase.Rereading? && SameView(call.view, now)
    ensures CallOK(log + [Confirmed(c, call.phase.unit, now)], c, call.(confirmedAt := |log|, phase := Running(call.phase.unit)))
  {
  }

  lemma ConfirmingKeeps(s: State, c: nat, now: View)
    requires Sound(s) && c < |s.calls| && s.calls[c].phase.Rereading? && SameView(s.calls[c].view, now) && ViewOnRecord(s, c, now)
    ensures Sound(Confirming(s, c, now))
  {
    var call := s.calls[c];
    assert CallOK(s.log, c, call);
    ConfirmedCall(s.log, c, call, now);
    SpendingKept(s, Confirming(s, c, now));
    StepKeeps(s, s.decisions, c, call.(confirmedAt := |s.log|, phase := Running(call.phase.unit)), Confirmed(c, call.phase.unit, now));
  }

  predicate NotRunYet(s: State, c: nat, u: nat)
  {
    forall k | 0 <= k < |s.log| && s.log[k].Invoked? :: s.log[k].call != c || s.log[k].unit != u
  }

  /** A unit not passed has not been run, and an entry that is no handler run leaves it so. */
  lemma NotPassedNotRun(s: State, t: State, c: nat, u: nat)
    requires InvokedOnce(s) && c < |s.calls| && !Passed(s.calls[c].phase, u) && QuietRuns(s, t)
    ensures NotRunYet(t, c, u)
  {
  }

  /** The entries a running call points at justify what it does next. */
  lemma RunJustified(log: seq<Entry>, more: seq<Entry>, c: nat, call: Call)
    requires CallOK(log, c, call) && call.phase.Running? && log <= more
    ensures RunOK(more, |log|, call, c, call.phase.unit, EvidenceOf(call, call.phase.unit))
  {
    forall j: nat | j < |call.pairs|
      ensures WasGranted(more, |log|, c, j)
    {
      assert more[call.grants[j].at] == GrantedTo(c, j, call.grants[j].decision);
    }
  }

  /** A handler starts once: what ran before were other calls or earlier units. */
  lemma StartKeeps(s: State, c: nat)
    requires Sound(s) && c < |s.calls| && s.calls[c].phase.Running? && NotRunYet(s, c, s.calls[c].phase.unit)
    ensures Sound(Logged(s, Invoked(c, s.calls[c].phase.unit, EvidenceOf(s.calls[c], s.calls[c].phase.unit))))
  {
    var call, u := s.calls[c], s.calls[c].phase.unit;
    var e := Invoked(c, u, EvidenceOf(call, u));
    assert CallOK(s.log, c, call);
    RunJustified(s.log, s.log + [e], c, call);
    StartOnce(s, c, EvidenceOf(call, u));
    EntryAdded(s, e);
  }

  lemma StartOnce(s: State, c: nat, evidence: Option<Evidence>)
    requires InvokedOnce(s) && c < |s.calls| && s.calls[c].phase.Running? && NotRunYet(s, c, s.calls[c].phase.unit)
    ensures InvokedOnce(Logged(s, Invoked(c, s.calls[c].phase.unit, evidence)))
  {
  }

  lemma SentKeeps(s: State, c: nat, r: Request, impact: Impact)
    requires Sound(s) && c < |s.calls| && s.calls[c].phase.Running?
    requires impact.over.Some? ==> (r.Update? || r.Patch? || r.Delete?) && OnRecord(s.history, r.at, impact.over.value)
    ensures
      var u := s.calls[c].phase.unit;
      Sound(Logged(s, Reached(c, u, r, EvidenceOf(s.calls[c], u), impact)))
  {
    var call, u := s.calls[c], s.calls[c].phase.unit;
    var e := Reached(c, u, r, EvidenceOf(call, u), impact);
    assert CallOK(s.log, c, call);
    RunJustified(s.log, s.log + [e], c, call);
    EntryAdded(s, e);
  }

  // ---- the quiet steps: all but an arrival, a request and a change from outside ----

  predicate Follows(s: State, t: State)
  {
    && s.log <= t.log && |s.calls| <= |t.calls|
    && forall d: nat | d < |s.calls| :: SameCall(s.calls[d], t.calls[d]) && (!s.calls[d].gated && t.calls[d].phase.Running? ==> s.calls[d].phase.Running?)
  }

  /** A tool that declares a target is shown that target: one object, or a selection. */
  predicate TargetShown(tool: Tool, view: View)
  {
    Shipped(tool).Resolved? ==> (Shipped(tool).target ==> view.OneObject?) && (Shipped(tool).collectionTarget ==> view.Collection?)
  }

  predicate ShownTarget(calls: seq<Call>, e: Entry)
  {
    e.Shown? ==> e.call < |calls| && TargetShown(calls[e.call].tool, e.view)
  }

  predicate QuietEntry(calls: seq<Call>, e: Entry)
  {
    !e.Reached? && (e.Invoked? ==> e.call < |calls| && calls[e.call].gated) && ShownTarget(calls, e)
  }

  /** A step that sends nothing, and starts at most handlers of gated calls. */
  predicate Quiet(s: State, t: State)
  {
    Follows(s, t) && |s.calls| == |t.calls| && forall k: nat | |s.log| <= k < |t.log| :: QuietEntry(t.calls, t.log[k])
  }

  predicate FinishedTo(s: State, t: State, c: nat)
  {
    c < |s.calls| && t == At(s, c, s.calls[c].(phase := Finished))
  }

  lemma FinishedQuiet(s: State, t: State, c: nat)
    requires Sound(s) && FinishedTo(s, t, c)
    ensures Sound(t) && Quiet(s, t)
  {
    FinishKeeps(s, c);
  }

  predicate LookedTo(s: State, t: State, c: nat, view: View)
  {
    && c < |s.calls| && s.calls[c].phase.Looking? && view.Collection?
    && t == At(s, c, s.calls[c].(view := view, phase := if view == Collection({}) then Finished else Asking(0)))
  }

  lemma LookedQuiet(s: State, t: State, c: nat, view: View)
    requires Sound(s) && LookedTo(s, t, c, view)
    ensures Sound(t) && Quiet(s, t)
  {
    assert CallOK(s.log, c, s.calls[c]);
    MoveKeeps(s, c, t.calls[c]);
  }

  predicate DescribedTo(s: State, t: State, c: nat, view: View)
  {
    && c < |s.calls| && s.calls[c].phase.Asking? && s.calls[c].phase.unit < |s.calls[c].pairs|
    && (s.calls[c].route.Plain? || view == s.calls[c].view)
    && t == Logged(At(s, c, Describing(s.log, s.calls[c], view)), Shown(c, s.calls[c].phase.unit, s.calls[c].pairs[s.calls[c].phase.unit], view))
  }

  lemma DescribedQuiet(s: State, t: State, c: nat, view: View)
    requires Sound(s) && DescribedTo(s, t, c, view)
    requires s.calls[c].route.Plain? ==> ViewOnRecord(s, c, view) && TargetShown(s.calls[c].tool, view)
    ensures Sound(t) && Quiet(s, t)
  {
    assert CallOK(s.log, c, s.calls[c]);
    if !s.calls[c].route.Plain? {
      OldViewOnRecord(s, c);
      OldViewIsTarget(s.calls[c]);
    }
    DescribingKeeps(s, c, view);
  }

  lemma OldViewIsTarget(call: Call)
    requires Shape(call) && call.phase.Asking? && !call.route.Plain?
    ensures TargetShown(call.tool, call.view)
  {
  }

  predicate AnsweredTo(s: State, t: State, c: nat, d: nat, requestId: string)
  {
    && c < |s.calls| && s.calls[c].phase.Described?
    && var r := Registered(s, d, requestId);
       || FinishedTo(r, t, c)
       || t == Logged(At(r, c, Granting(s.log, s.calls[c], d)), GrantedTo(c, s.calls[c].phase.unit, d))
  }

  lemma RefusedQuiet(s: State, c: nat, d: nat, requestId: string)
    requires Sound(s) && c < |s.calls|
    ensures
      var t := At(Registered(s, d, requestId), c, s.calls[c].(phase := Finished));
      Sound(t) && Quiet(s, t)
  {
    var r := Registered(s, d, requestId);
    RegisteredKeeps(s, d, requestId);
    FinishedQuiet(r, At(r, c, r.calls[c].(phase := Finished)), c);
  }

  lemma GrantedQuiet(s: State, c: nat, d: nat, requestId: string)
    requires Sound(s) && c < |s.calls| && s.calls[c].phase.Described?
    ensures
      var t := Logged(At(Registered(s, d, requestId), c, Granting(s.log, s.calls[c], d)), GrantedTo(c, s.calls[c].phase.unit, d));
      Sound(t) && Quiet(s, t)
  {
    RegisteredKeeps(s, d, requestId);
    GrantKeeps(Registered(s, d, requestId), c, d);
  }

  lemma AnsweredQuiet(s: State, t: State, c: nat, d: nat, requestId: string)
    requires Sound(s) && AnsweredTo(s, t, c, d, requestId)
    ensures Sound(t) && Quiet(s, t)
  {
    RefusedQuiet(s, c, d, requestId);
    GrantedQuiet(s, c, d, requestId);
  }

  predicate SpentTo(s: State, t: State, c: nat)
  {
    if !CanPay(s, c) then FinishedTo(s, t, c)
    else
      var call := s.calls[c];
      t == if call.view.NoTarget?
           then Logged(Paid(s, c), Invoked(c, call.phase.unit, EvidenceOf(Spending(s.log, call), call.phase.unit)))
           else Paid(s, c)
  }

  lemma PaidQuiet(s: State, c: nat)
    requires Sound(s) && CanPay(s, c)
    ensures Sound(Paid(s, c)) && Quiet(s, Paid(s, c)) && Paid(s, c).calls[c].gated
    ensures NotRunYet(Paid(s, c), c, s.calls[c].phase.unit)
  {
    assert CallOK(s.log, c, s.calls[c]);
    PaidKeeps(s, c);
    NotPassedNotRun(s, Paid(s, c), c, s.calls[c].phase.unit);
  }

  /** The handler of a gated call starts at the end of the step that paid for it, or that confirmed its target. */
  lemma StartQuiet(s: State, mid: State, c: nat)
    requires Sound(mid) && Quiet(s, mid) && c < |mid.calls| && mid.calls[c].gated
    requires mid.calls[c].phase.Running? && NotRunYet(mid, c, mid.calls[c].phase.unit)
    ensures
      var t := Logged(mid, Invoked(c, mid.calls[c].phase.unit, EvidenceOf(mid.calls[c], mid.calls[c].phase.unit)));
      Sound(t) && Quiet(s, t)
  {
    StartKeeps(mid, c);
  }

  lemma SpentQuiet(s: State, t: State, c: nat)
    requires Sound(s) && SpentTo(s, t, c)
    ensures Sound(t) && Quiet(s, t)
  {
    if !CanPay(s, c) {
      FinishedQuiet(s, t, c);
    } else {
      PaidQuiet(s, c);
      if s.calls[c].view.NoTarget? {
        StartQuiet(s, Paid(s, c), c);
      }
    }
  }

  predicate ConfirmedTo(s: State, t: State, c: nat, now: View)
  {
    && c < |s.calls| && s.calls[c].phase.Rereading? && SameView(s.calls[c].view, now)
    && t == Logged(Confirming(s, c, now),
                   Invoked(c, s.calls[c].phase.unit, EvidenceOf(Confirming(s, c, now).calls[c], s.calls[c].phase.unit)))
  }

  lemma ConfirmingQuiet(s: State, c: nat, now: View)
    requires InvokedOnce(s) && c < |s.calls| && s.calls[c].phase.Rereading? && Shape(s.calls[c])
    ensures Quiet(s, Confirming(s, c, now)) && s.calls[c].gated
    ensures NotRunYet(Confirming(s, c, now), c, s.calls[c].phase.unit)
  {
    NotPassedNotRun(s, Confirming(s, c, now), c, s.calls[c].phase.unit);
  }

  lemma ConfirmedQuiet(s: State, t: State, c: nat, now: View)
    requires Sound(s) && ConfirmedTo(s, t, c, now) && ViewOnRecord(s, c, now)
    ensures Sound(t) && Quiet(s, t)
  {
    assert CallOK(s.log, c, s.calls[c]);
    ConfirmingKeeps(s, c, now);
    ConfirmingQuiet(s, c, now);
    StartQuiet(s, Confirming(s, c, now), c);
  }

  predicate ReturnedTo(s: State, t: State, c: nat)
  {
    && c < |s.calls| && s.calls[c].phase.Running?
    && (|| FinishedTo(s, t, c)
        || (s.calls[c].phase.unit + 1 < |s.calls[c].pairs| && t == At(s, c, s.calls[c].(phase := Ready(s.calls[c].phase.unit + 1)))))
  }

  lemma ReturnedQuiet(s: State, t: State, c: nat)
    requires Sound(s) && ReturnedTo(s, t, c)
    ensures Sound(t) && Quiet(s, t)
  {
    assert CallOK(s.log, c, s.calls[c]);
    if FinishedTo(s, t, c) {
      FinishedQuiet(s, t, c);
    } else {
      MoveKeeps(s, c, t.calls[c]);
    }
  }
}
