/** toolsCall: every path through it, with the one record it leaves behind. */
module Dispatcher {
  import opened Results
  import opened ApprovalGate
  import opened Declarations
  import opened CallRecords
  import opened CreateBatch
  import Json

  /** How a handler ends: with a result, or by refusing its own arguments. */
  datatype HandlerEnd = Finishes(isError: bool, unavailable: bool) | Declines(invalidParams: bool)

  /** What the surroundings of one call do: the gate, the reads of the target, the handler, the caller. */
  datatype Script = Script(answer: Answer, selection: Option<nat>, sameTarget: bool, handler: HandlerEnd,
                           answers: seq<Answer>, environment: Environment)

  /** What the server was set up with and who is asking. */
  datatype Setting = Setting(env: Env, sensitiveKinds: seq<string>, registered: string -> Option<Tool>, scope: Option<set<string>>)

  /** The fate of one call: how it ended, whether anything was sent on its behalf, and how far a batch went. */
  datatype Fate = Fate(ending: Ending, ran: bool, completed: nat, tried: nat)

  function Stopped(ending: Ending): Fate
  {
    Fate(ending, false, 0, 0)
  }

  function Ran(ending: Ending): Fate
  {
    Fate(ending, true, 0, 0)
  }

  /** The tool a request names, if the caller may see it and it exists. */
  function NamedTool(setting: Setting, params: Json.Json): Option<Tool>
  {
    if !params.Obj? || "name" !in params.members || !params.members["name"].Str? then None
    else
      var name := params.members["name"].text;
      if setting.scope.Some? && name !in setting.scope.value then None else setting.registered(name)
  }

  /** The name the record carries: whatever name the request gave. */
  function RecordedName(params: Json.Json): string
  {
    if params.Obj? then Json.StringOrEmpty(params.members, "name") else ""
  }

  function Arguments(params: Json.Json): Json.Json
  {
    if params.Obj? && "arguments" in params.members then params.members["arguments"] else Json.Null
  }

  /** The call as it goes on to the gate: its tool, and its arguments without the reason. */
  function AdmittedCall(setting: Setting, params: Json.Json): Option<(Tool, Json.Json)>
  {
    match NamedTool(setting, params)
    case None => None
    case Some(tool) =>
      match Admitted(Shipped(tool), setting.env, setting.sensitiveKinds, Arguments(params))
      case None => None
      case Some((args, _)) => Some((tool, args))
  }

  /** The documents this call would create, for the length of the gate's script. */
  function Documents(setting: Setting, params: Json.Json): seq<Document>
  {
    match AdmittedCall(setting, params)
    case Some((tool, args)) => if tool.ResourceCreate? then DocumentsOf(setting.env, args) else []
    case None => []
  }

  function Decisions(s: Script): set<Decision>
  {
    Handed([s.answer]) + Handed(s.answers)
  }

  // ---- before the gate ----

  /**
   * How a call outside a batch stands before the gate: nothing needs approval, or the gate is asked, or the
   * call ends before that; whether the tool addresses something that is read before asking and again before running; and whether it is a
   * collection delete that selects nothing.
   */
  datatype Footing = Free | Asked | Barred

  datatype Stand = Stand(footing: Footing, hasTarget: bool, selectsNothing: bool)

  /** The tool addresses one object or a selection. */
  predicate DeclaresTarget(tool: Tool)
  {
    Shipped(tool).Resolved? && (Shipped(tool).target || Shipped(tool).collectionTarget)
  }

  /** A selection was read, and it selects something. */
  predicate Selects(s: Script)
  {
    s.selection.Some? && s.selection.value != 0
  }

  function StandOf(tool: Tool, gated: Option<seq<Pair>>, s: Script): Stand
  {
    Stand(if gated == Some([]) then Free
          else if gated.Some? && (tool.ResourceDeleteCollection? ==> Selects(s)) then Asked else Barred,
          DeclaresTarget(tool),
          gated.Some? && tool.ResourceDeleteCollection? && s.selection == Some(0))
  }

  /** How a request stands: not admitted, a create batch of which every document has a decision of its own or not, or any other call. */
  datatype Admission = NotAdmitted | AsBatch(approved: bool) | AsCall(stand: Stand)

  function AdmissionOf(setting: Setting, params: Json.Json, s: Script): Admission
  {
    match AdmittedCall(setting, params)
    case None => NotAdmitted
    case Some((tool, args)) =>
      if tool.ResourceCreate? then AsBatch(ParseCreateDocuments(setting.env, args).Some? && AllDistinct(s.answers))
      else AsCall(StandOf(tool, GatedPairs(Shipped(tool), setting.env, setting.sensitiveKinds, args), s))
  }

  /** Which decisions of the gate's script are spent: that of a call by itself, and those of a batch. */
  datatype Spending = Spending(one: bool, unspent: seq<bool>)

  /** The handler runs: nothing needs approval, or the gate grants a decision unspent till then and the target, if any, is as shown. */
  predicate HandlerRuns(stand: Stand, s: Script, was: bool)
  {
    stand.footing.Free? || (stand.footing.Asked? && s.answer.Grants? && !was && (stand.hasTarget ==> s.sameTarget))
  }

  /** A decision is spent when it was before, or when the gate was asked and granted it. */
  predicate IsSpentAfter(stand: Stand, s: Script, was: bool)
  {
    was || (stand.footing.Asked? && s.answer.Grants?)
  }

  /**
   * What becomes of a call outside a batch: its handler runs or not, a decision it was granted is spent, and
   * a call that does not run ends with the gate's own refusal or with the verdict that could not be used; one
   * that selects nothing succeeds without anyone being asked.
   */
  predicate GateDecides(stand: Stand, s: Script, was: bool, spent: bool, fate: Fate, gate: Gate, noted: Option<Reason>)
  {
    && fate.ran == HandlerRuns(stand, s, was) && spent == IsSpentAfter(stand, s, was)
    && gate == (if stand.footing.Asked? && fate.ran then GateOf(s.answer.decision) else NO_GATE)
    && noted == (if fate.ran then HandlerNotes(s.handler) else None)
    && (fate.ran ==> fate.ending == HandlerEnding(s.handler))
    && (stand.footing.Asked? && !fate.ran ==>
          fate.ending == Failed(if s.answer.Grants? then AfterVerdict(s.answer.decision) else RefusedWith(s.answer)))
    && (!stand.footing.Asked? && !fate.ran ==>
          if stand.selectsNothing then fate.ending == Returned(false)
          else fate.ending in {Failed(BAD_ARGUMENTS), Failed(BAD_DECLARATION)})
  }

  /** Whether the decision the answer hands out, if it hands out one, is spent. */
  predicate IsSpent(s: Script)
    reads Decisions(s)
  {
    s.answer.Grants? && (assert [s.answer][0] == s.answer && s.answer.decision in Handed([s.answer]); s.answer.decision.used)
  }

  /** The reason the record gives for a call the gate was asked about and did not let through. */
  function GatesReason(a: Answer): Reason
  {
    match a
    case Grants(_) => GateRejected
    case NoDecision => GateUnconfigured
    case Refuses(Untyped) => GateUnreachable
    case Refuses(Typed(refusal)) =>
      match refusal.verdict
      case Some(Rejected) => GateRejected
      case Some(Expired) => GateExpired
      case Some(Timeout) => GateTimeout
      case Some(Unconfigured) => GateUnconfigured
      case Some(Unreachable) => GateUnreachable
      case Some(Approved) => GateUnreachable
      case None => InvalidInput
  }

  /** What the record says of the gate: the decision, the gate's own refusal and why, or nothing. */
  predicate RecordsGate(stand: Stand, s: Script, fate: Fate, r: Record)
  {
    && (!stand.footing.Asked? ==> r.gate == NO_GATE)
    && (stand.footing.Asked? && s.answer.Grants? ==> r.gate == Gate(s.answer.decision.requestId, Some(Approved), s.answer.decision.autoApproved))
    && (stand.footing.Asked? && !fate.ran ==> r.result.Refused? && r.reason == Some(GatesReason(s.answer)))
    && (stand.footing.Asked? && s.answer.Refuses? && s.answer.error.Typed? ==>
          r.gate == Gate(s.answer.error.refusal.requestId, s.answer.error.refusal.verdict, false))
  }

  /** What the record says of a handler that ran: refused if it declined, or found its integration not configured. */
  predicate RecordsHandler(h: HandlerEnd, fate: Fate, r: Record)
  {
    && (fate.ran ==> (r.result.Refused? <==> h.Declines? || (h.isError && h.unavailable)))
    && (!fate.ran ==> !r.result.Error?)
  }

  /** A call outside a batch, with its record. */
  predicate GateEnds(stand: Stand, s: Script, was: bool, spent: bool, fate: Fate, r: Record)
  {
    && fate.ran == HandlerRuns(stand, s, was) && spent == IsSpentAfter(stand, s, was)
    && RecordsGate(stand, s, fate, r) && RecordsHandler(s.handler, fate, r)
  }

  lemma GateIsRecorded(stand: Stand, s: Script, was: bool, spent: bool, fate: Fate, gate: Gate, noted: Option<Reason>, r: Record)
    requires GateDecides(stand, s, was, spent, fate, gate, noted)
    requires (r.result, r.reason, r.gate) == Outcome(fate.ending, noted, gate)
    ensures GateEnds(stand, s, was, spent, fate, r)
  {
  }

  /** A tool that reads its target and nothing else is never gated for a change of state. */
  lemma NoForgottenTarget(tool: Tool, env: Env, sensitiveKinds: seq<string>, args: Json.Json)
    requires Shipped(tool).Resolved? && !Shipped(tool).target && !tool.ResourceCreate? && !tool.ResourceDeleteCollection?
    requires GatedPairs(Shipped(tool), env, sensitiveKinds, args).Some?
    ensures forall p | p in GatedPairs(Shipped(tool), env, sensitiveKinds, args).value :: p.verb !in GATED_VERBS
  {
    ResolvedPairs(tool, env, args);
    var pairs := CallPairs(Shipped(tool), env, args).value;
    assert pairs == [pairs[0]];
    NeedingOne(pairs[0], sensitiveKinds);
  }

  /** A collection delete that resolves is gated, for its one pair. */
  lemma CollectionIsGated(env: Env, sensitiveKinds: seq<string>, args: Json.Json)
    requires GatedPairs(Shipped(ResourceDeleteCollection), env, sensitiveKinds, args).Some?
    ensures
      var gated := GatedPairs(Shipped(ResourceDeleteCollection), env, sensitiveKinds, args).value;
      |gated| == 1 && gated[0].verb == "deletecollection"
  {
    var pairs := CallPairs(Shipped(ResourceDeleteCollection), env, args).value;
    assert pairs == [pairs[0]];
    NeedingOne(pairs[0], sensitiveKinds);
  }

  function HandlerEnding(h: HandlerEnd): Ending
  {
    if h.Finishes? then Returned(h.isError) else Failed(RpcError(h.invalidParams, None, NO_GATE))
  }

  function HandlerNotes(h: HandlerEnd): Option<Reason>
  {
    if h.Finishes? && h.isError && h.unavailable then Some(NotConfigured) else None
  }

  /** What a batch comes to, given which of its approvals were unspent before. */
  predicate BatchFate(s: Script, unspent: seq<bool>, fate: Fate, noted: Option<Reason>)
    requires |unspent| == |s.environment.ends|
  {
    var ends := s.environment.ends;
    && fate.ran == (fate.tried > 0) && fate.tried <= |ends|
    && (fate.ending.Failed? ==> fate.completed == fate.tried == 0)
    && (fate.ending.Returned? ==>
          && fate.completed == Completed(s.environment, unspent) && fate.tried == TriedUpTo(s.environment, unspent)
          && fate.ending.isError == (fate.completed < |ends|)
          && noted == if AnyUnavailable(ends[..fate.tried]) then Some(NotConfigured) else None)
  }

  /**
   * When the record of a batch says refused though something was created: exactly as RefusedYetWritten has
   * it; never with a service that is unavailable always or never; and where no failure is silent, exactly
   * when the create that ended the batch found the service unavailable and was not the first.
   */
  predicate RecordsBatch(ends: seq<CreateEnd>, fate: Fate, result: ResultKind)
  {
    fate.tried <= |ends|
    && var wrong := result.Refused? && AnyCreated(ends[..fate.tried]);
       && (wrong <==> RefusedYetWritten(ends, fate.completed, fate.tried))
       && (Steady(ends) ==> !wrong)
       && (Spoken(ends) ==> (wrong <==> 0 < fate.completed < fate.tried && Unavailable(ends[fate.completed])))
  }

  /** A batch up to its record: how far it goes, what it spends, and when anything is sent at all. */
  predicate BatchRuns(approved: bool, s: Script, before: seq<bool>, after: seq<bool>, fate: Fate, noted: Option<Reason>)
    requires |before| == |s.environment.ends|
  {
    BatchFate(s, before, fate, noted) && BatchSpends(before, after, fate.tried) && fate.ending.Returned? == approved
  }

  /** A batch with its record. */
  predicate BatchEnds(approved: bool, s: Script, before: seq<bool>, after: seq<bool>, fate: Fate, r: Record)
    requires |before| == |s.environment.ends|
  {
    && RecordsBatch(s.environment.ends, fate, r.result) && BatchSpends(before, after, fate.tried)
    && fate.ending.Returned? == approved && (!approved ==> fate.tried == 0)
    && (approved ==> fate.completed == Completed(s.environment, before) && fate.tried == TriedUpTo(s.environment, before))
  }

  lemma BatchIsRecorded(approved: bool, s: Script, before: seq<bool>, after: seq<bool>, fate: Fate, noted: Option<Reason>, gate: Gate, r: Record)
    requires |before| == |s.environment.ends| && BatchRuns(approved, s, before, after, fate, noted)
    requires (r.result, r.reason, r.gate) == Outcome(fate.ending, noted, gate)
    ensures BatchEnds(approved, s, before, after, fate, r)
  {
    var ends := s.environment.ends;
    if Steady(ends) { SteadyServiceIsRecordedRight(ends, fate.completed, fate.tried); }
    if Spoken(ends) && fate.ending.Returned? { RefusedYetWrote(s.environment, before); }
  }

  // ---- any call ----

  /** What becomes of a request, up to its record. */
  predicate Runs(a: Admission, s: Script, was: Spending, now: Spending, fate: Fate, gate: Gate, noted: Option<Reason>)
    requires |was.unspent| == |s.environment.ends|
  {
    match a
    case NotAdmitted => fate == Stopped(Failed(BAD_ARGUMENTS)) && gate == NO_GATE && now == was
    case AsBatch(approved) => BatchRuns(approved, s, was.unspent, now.unspent, fate, noted)
    case AsCall(stand) => GateDecides(stand, s, was.one, now.one, fate, gate, noted)
  }

  /** What becomes of a request, with its record. */
  predicate Ends(a: Admission, s: Script, was: Spending, now: Spending, fate: Fate, r: Record)
    requires |was.unspent| == |s.environment.ends|
  {
    match a
    case NotAdmitted => fate == Stopped(Failed(BAD_ARGUMENTS)) && r.reason == Some(InvalidInput) && r.gate == NO_GATE && now == was
    case AsBatch(approved) => BatchEnds(approved, s, was.unspent, now.unspent, fate, r)
    case AsCall(stand) => GateEnds(stand, s, was.one, now.one, fate, r)
  }

  lemma Concludes(a: Admission, s: Script, was: Spending, now: Spending, fate: Fate, gate: Gate, noted: Option<Reason>, r: Record)
    requires |was.unspent| == |s.environment.ends| && (r.result, r.reason, r.gate) == Outcome(fate.ending, noted, gate)
    ensures Runs(a, s, was, now, fate, gate, noted) ==> Ends(a, s, was, now, fate, r)
    ensures r.result.Success? <==> fate.ending == Returned(false)
    ensures fate.ending.Failed? ==> r.reason == Some(ReasonOf(fate.ending.error))
  {
    if Runs(a, s, was, now, fate, gate, noted) {
      match a
      case NotAdmitted =>
      case AsBatch(approved) => BatchIsRecorded(approved, s, was.unspent, now.unspent, fate, noted, gate, r);
      case AsCall(stand) => GateIsRecorded(stand, s, was.one, now.one, fate, gate, noted, r);
    }
  }

  function SpendingOf(s: Script): Spending
    reads Decisions(s)
  {
    Spending(IsSpent(s), UnspentAnswers(s.answers))
  }

  lemma CollectionStand(gated: seq<Pair>, s: Script)
    requires |gated| == 1
    ensures StandOf(ResourceDeleteCollection, Some(gated), s) == Stand(if Selects(s) then Asked else Barred, true, s.selection == Some(0))
  {
  }

  lemma CallStand(tool: Tool, gated: seq<Pair>, s: Script)
    requires !tool.ResourceDeleteCollection?
    ensures StandOf(tool, Some(gated), s) == Stand(if gated == [] then Free else Asked, Shipped(tool).Resolved? && Shipped(tool).target, false)
  {
  }

  /** The record toolsCall leaves when it ends: the outcome, and what was noted on the way. */
  function RecordOf(name: string, ending: Ending, noted: Option<Reason>, gate: Gate, wait: int, elapsed: int): (r: Record)
    ensures r.tool == name && Classified(r) && (r.result, r.reason, r.gate) == Outcome(ending, noted, gate)
    ensures r.gateWait == wait && r.gateWait + r.duration == elapsed
  {
    var (result, reason, known) := Outcome(ending, noted, gate);
    Record(name, result, reason, known, wait, elapsed - wait)
  }

  /** The record's two times are those of the call, which is read from the clock at `tick` and at `end`. */
  ghost predicate TimesAddUp(clock: nat -> int, tick: nat, end: nat, r: Record)
  {
    tick < end && r.duration + r.gateWait == clock(end) - clock(tick) && (Monotone(clock) ==> r.duration >= 0 && r.gateWait >= 0)
  }

  lemma AddUp(clock: nat -> int, tick: nat, end: nat, r: Record)
    requires tick < end && r.gateWait + r.duration == clock(end) - clock(tick)
    requires Monotone(clock) ==> 0 <= r.gateWait <= clock(end) - clock(tick + 1)
    ensures TimesAddUp(clock, tick, end, r)
  {
  }

  class Handler {
    var records: seq<Record>

    constructor ()
      ensures records == []
    {
      records := [];
    }

    /** invoke, after the gate: a handler may still decline, and an integration nobody configured is noted. */
    method Invoke(h: HandlerEnd, note: CallNote) returns (ending: Ending)
      modifies note`reason
      ensures ending == HandlerEnding(h)
      ensures note.reason == if HandlerNotes(h).Some? then HandlerNotes(h) else old(note.reason)
    {
      match h
      case Declines(invalidParams) => return Failed(RpcError(invalidParams, None, NO_GATE));
      case Finishes(isError, unavailable) =>
        if isError && unavailable {
          note.reason := Some(NotConfigured);
        }
        ending := Returned(isError);
    }

    /**
     * The tail authorize and callDeleteCollection share once something needs approval: ask, spend, look
     * again, run. A handler runs only on a decision this call spent and a target, if there is one, found as shown.
     */
    method AskAndRun(s: Script, hasTarget: bool, note: CallNote, clock: nat -> int, tick: nat) returns (fate: Fate, now: nat)
      requires note.gate == NO_GATE && note.reason == None && note.gateWait == 0
      modifies note, Handed([s.answer])
      ensures now == tick + 2 && note.gateWait == clock(tick + 1) - clock(tick)
      ensures fate.ran <==> s.answer.Grants? && !old(s.answer.decision.used) && (hasTarget ==> s.sameTarget)
      ensures s.answer.Grants? ==> s.answer.decision.used
      ensures fate.ran ==> note.gate == GateOf(s.answer.decision)
      ensures !fate.ran ==> note.gate == NO_GATE && note.reason == None && fate.ending.Failed?
      ensures fate.ran ==> fate.ending == HandlerEnding(s.handler) && note.reason == HandlerNotes(s.handler)
      ensures !fate.ran ==> fate.ending.error == if s.answer.Grants? then AfterVerdict(s.answer.decision) else RefusedWith(s.answer)
    {
      note.Waited(clock(tick), clock(tick + 1));
      now := tick + 2;
      if !s.answer.Grants? {
        return Stopped(Failed(RefusedWith(s.answer))), now;
      }
      var d := s.answer.decision;
      assert [s.answer][0] == s.answer && d in Handed([s.answer]);
      var ok := d.Consume();
      if !ok || (hasTarget && !s.sameTarget) {
        return Stopped(Failed(AfterVerdict(d))), now;
      }
      note.NoteGate(d, []);
      assert GateOfAll([] + [d]) == GateOf(d) by { assert Ids([] + [d]) == [d.requestId]; }
      var ending := Invoke(s.handler, note);
      fate := Ran(ending);
    }

    /** callDeleteCollection, once its pairs are known: the selection is read before anyone is asked. */
    method DeleteCollection(gated: seq<Pair>, s: Script, note: CallNote, clock: nat -> int, tick: nat) returns (fate: Fate, now: nat)
      requires note.gate == NO_GATE && note.reason == None && note.gateWait == 0
      modifies note, Decisions(s)
      ensures now >= tick && (Monotone(clock) ==> 0 <= note.gateWait <= clock(now) - clock(tick))
      ensures
        var asked := |gated| == 1 && gated[0].verb == "deletecollection";
        GateDecides(Stand(if asked && Selects(s) then Asked else Barred, true, asked && s.selection == Some(0)), s, old(IsSpent(s)), IsSpent(s), fate, note.gate, note.reason)
    {
      fate, now := Stopped(Failed(BAD_DECLARATION)), tick;
      if |gated| != 1 || gated[0].verb != "deletecollection" || s.selection.None? {
        return;
      }
      if s.selection.value == 0 {
        return Stopped(Returned(false)), now;
      }
      fate, now := AskAndRun(s, true, note, clock, tick);
    }

    /** authorize and invoke, once the call's pairs are known. */
    method AuthorizeAndInvoke(d: Declaration, gated: seq<Pair>, s: Script, note: CallNote, clock: nat -> int, tick: nat) returns (fate: Fate, now: nat)
      requires note.gate == NO_GATE && note.reason == None && note.gateWait == 0
      modifies note, Decisions(s)
      ensures now >= tick && (Monotone(clock) ==> 0 <= note.gateWait <= clock(now) - clock(tick))
      ensures
        var forgotten := d.Resolved? && !d.target && exists p | p in gated :: p.verb in GATED_VERBS;
        GateDecides(Stand(if gated == [] then Free else if forgotten then Barred else Asked, d.Resolved? && d.target, false), s,
                    old(IsSpent(s)), IsSpent(s), fate, note.gate, note.reason)
    {
      now := tick;
      if gated == [] {
        var ending := Invoke(s.handler, note);
        return Ran(ending), now;
      }
      if d.Resolved? && !d.target && (exists p | p in gated :: p.verb in GATED_VERBS) {
        return Stopped(Failed(BAD_DECLARATION)), now;
      }
      fate, now := AskAndRun(s, d.Resolved? && d.target, note, clock, tick);
    }

    /** The batch path: nothing is sent before every document has its own approval, and those tried are spent. */
    method CreateAll(setting: Setting, args: Json.Json, s: Script, note: CallNote, clock: nat -> int, tick: nat) returns (fate: Fate, now: nat)
      requires |s.answers| == |s.environment.ends| == |DocumentsOf(setting.env, args)|
      requires note.gate == NO_GATE && note.reason == None && note.gateWait == 0
      modifies note, Decisions(s)
      ensures now >= tick && (Monotone(clock) ==> 0 <= note.gateWait <= clock(now) - clock(tick))
      ensures BatchRuns(ParseCreateDocuments(setting.env, args).Some? && AllDistinct(s.answers), s,
                        old(UnspentAnswers(s.answers)), UnspentAnswers(s.answers), fate, note.reason)
    {
      var ending, batch, tried;
      ending, batch, tried, now := CallCreateBatch(setting.env, setting.sensitiveKinds, args, s.answers, s.environment, note, clock, tick);
      fate := Fate(ending, tried > 0, if ending.Returned? then |batch.created| else 0, tried);
    }

    /** The three paths of toolsCall below the reason argument. */
    method Route(setting: Setting, tool: Tool, args: Json.Json, s: Script, note: CallNote, clock: nat -> int, tick: nat)
      returns (fate: Fate, now: nat)
      requires tool.ResourceCreate? ==> |s.answers| == |s.environment.ends| == |DocumentsOf(setting.env, args)|
      requires note.gate == NO_GATE && note.reason == None && note.gateWait == 0
      modifies note, Decisions(s)
      ensures now >= tick && (Monotone(clock) ==> 0 <= note.gateWait <= clock(now) - clock(tick))
      ensures !tool.ResourceCreate? ==>
        GateDecides(StandOf(tool, GatedPairs(Shipped(tool), setting.env, setting.sensitiveKinds, args), s), s,
                    old(IsSpent(s)), IsSpent(s), fate, note.gate, note.reason)
      ensures tool.ResourceCreate? ==>
        BatchRuns(ParseCreateDocuments(setting.env, args).Some? && AllDistinct(s.answers), s,
                  old(UnspentAnswers(s.answers)), UnspentAnswers(s.answers), fate, note.reason)
    {
      if tool.ResourceCreate? {
        fate, now := CreateAll(setting, args, s, note, clock, tick);
        return;
      }
      var gated := GatedPairs(Shipped(tool), setting.env, setting.sensitiveKinds, args);
      if gated.None? {
        return Stopped(Failed(BAD_ARGUMENTS)), tick;
      }
      if tool.ResourceDeleteCollection? {
        CollectionIsGated(setting.env, setting.sensitiveKinds, args);
        CollectionStand(gated.value, s);
        fate, now := DeleteCollection(gated.value, s, note, clock, tick);
        return;
      }
      CallStand(tool, gated.value, s);
      if Shipped(tool).Resolved? && !Shipped(tool).target {
        NoForgottenTarget(tool, setting.env, setting.sensitiveKinds, args);
      }
      fate, now := AuthorizeAndInvoke(Shipped(tool), gated.value, s, note, clock, tick);
    }

    /** toolsCall up to its record. */
    method Dispatch(setting: Setting, params: Json.Json, s: Script, note: CallNote, clock: nat -> int, tick: nat)
      returns (fate: Fate, now: nat)
      requires |s.answers| == |s.environment.ends| == |Documents(setting, params)|
      requires note.gate == NO_GATE && note.reason == None && note.gateWait == 0
      modifies note, Decisions(s)
      ensures now >= tick && (Monotone(clock) ==> 0 <= note.gateWait <= clock(now) - clock(tick))
      ensures Runs(AdmissionOf(setting, params, s), s, old(SpendingOf(s)), SpendingOf(s), fate, note.gate, note.reason)
    {
      var tool := NamedTool(setting, params);
      if tool.None? {
        return Stopped(Failed(BAD_ARGUMENTS)), tick;
      }
      var admitted := Admitted(Shipped(tool.value), setting.env, setting.sensitiveKinds, Arguments(params));
      if admitted.None? {
        return Stopped(Failed(BAD_ARGUMENTS)), tick;
      }
      fate, now := Route(setting, tool.value, admitted.value.0, s, note, clock, tick);
    }

    /** toolsCall but for emitting the record. */
    method Answered(setting: Setting, params: Json.Json, s: Script, note: CallNote, clock: nat -> int, tick: nat)
      returns (fate: Fate, r: Record, now: nat, ghost a: Admission)
      requires |s.answers| == |s.environment.ends| == |Documents(setting, params)|
      requires note.gate == NO_GATE && note.reason == None && note.gateWait == 0
      modifies note, Decisions(s)
      ensures r.tool == RecordedName(params) && Classified(r) && (r.result.Success? <==> fate.ending == Returned(false))
      ensures fate.ending.Failed? ==> r.reason == Some(ReasonOf(fate.ending.error))
      ensures TimesAddUp(clock, tick, now, r)
      ensures a == AdmissionOf(setting, params, s) && Ends(a, s, old(SpendingOf(s)), SpendingOf(s), fate, r)
    {
      fate, now := Dispatch(setting, params, s, note, clock, tick + 1);
      var elapsed := clock(now) - clock(tick);
      r := RecordOf(RecordedName(params), fate.ending, note.reason, note.gate, note.gateWait, elapsed);
      a := AdmissionOf(setting, params, s);
      Concludes(a, s, old(SpendingOf(s)), SpendingOf(s), fate, note.gate, note.reason, r);
      AddUp(clock, tick, now, r);
    }

    /**
     * tools/call. Whatever the request, the gate, the cluster and the handler do, exactly one record is
     * emitted; it gives a reason exactly when the call was refused; it names the tool as the request did;
     * and under a clock that does not run backwards its two times are non-negative and add up to the call's.
     *
     * A call outside a batch runs its handler exactly when it was admitted and either nothing needs approval
     * or the gate was asked and granted a decision unspent till then, which is spent after, and its target, if
     * it has one, was found as shown; the record then names that decision, and otherwise why the gate said no.
     */
    method ToolsCall(setting: Setting, params: Json.Json, s: Script, clock: nat -> int, tick: nat) returns (fate: Fate, now: nat)
      requires |s.answers| == |s.environment.ends| == |Documents(setting, params)|
      modifies this, Decisions(s)
      ensures now > tick
      ensures |records| == |old(records)| + 1 && records[..|old(records)|] == old(records)
      ensures
        var r := records[|old(records)|];
        && Classified(r) && r.tool == RecordedName(params)
        && (r.result.Success? <==> fate.ending == Returned(false))
        && (fate.ending.Failed? ==> r.reason == Some(ReasonOf(fate.ending.error)))
        && TimesAddUp(clock, tick, now, r)
      ensures Ends(AdmissionOf(setting, params, s), s, old(SpendingOf(s)), SpendingOf(s), fate, records[|old(records)|])
    {
      ghost var was := SpendingOf(s);
      var note := new CallNote();
      assert SpendingOf(s) == was;
      var record;
      ghost var a;
      fate, record, now, a := Answered(setting, params, s, note, clock, tick);
      ghost var after := SpendingOf(s);
      records := records + [record];
      assert SpendingOf(s) == after;
    }
  }

  // ---- what that means for a caller ----

  /** The tools that address an object or a selection the gate reads. */
  const ADDRESSING := {ResourceGet, ResourceUpdate, ResourcePatch, ResourceDelete, ResourceDeleteCollection,
                       ResourceExec, ResourceAttach, ResourcePortForward, ResourceProxy}

  /**
   * The record of a call outside a batch, read plainly: the handler ran exactly when nothing needed approval,
   * or the answer granted a decision unspent till then and what the tool addresses was found as shown; and no
   * decision is spent but one the gate was asked for.
   */
  lemma RunsExactly(tool: Tool, gated: Option<seq<Pair>>, s: Script, was: bool, spent: bool, fate: Fate, r: Record)
    requires GateEnds(StandOf(tool, gated, s), s, was, spent, fate, r)
    ensures
      var toApprove := gated.Some? && gated.value != [] && (tool == ResourceDeleteCollection ==> s.selection.Some? && s.selection.value > 0);
      && (fate.ran <==> gated == Some([]) || (toApprove && s.answer.Grants? && !was && (tool in ADDRESSING ==> s.sameTarget)))
      && (spent <==> was || (toApprove && s.answer.Grants?))
      && (fate.ran && gated != Some([]) ==>
            spent && r.gate.requestId == s.answer.decision.requestId && r.gate.decision == Some(Approved)
            && r.gate.autoApproved == s.answer.decision.autoApproved)
      && (toApprove && s.answer.Grants? && !fate.ran ==> r.result == Refused && r.reason == Some(GateRejected))
  {
  }

  /** The gate's refusals, each under its own reason and with its own request. */
  lemma RefusedBecause(tool: Tool, gated: Option<seq<Pair>>, s: Script, was: bool, spent: bool, fate: Fate, r: Record, refusal: Refusal)
    requires GateEnds(StandOf(tool, gated, s), s, was, spent, fate, r) && s.answer == Refuses(Typed(refusal))
    requires gated.Some? && gated.value != [] && (tool == ResourceDeleteCollection ==> s.selection.Some? && s.selection.value > 0)
    ensures !fate.ran && r.result == Refused && r.gate == Gate(refusal.requestId, refusal.verdict, false)
    ensures refusal.verdict == Some(Rejected) ==> r.reason == Some(GateRejected)
    ensures refusal.verdict == Some(Expired) ==> r.reason == Some(GateExpired)
    ensures refusal.verdict == Some(Timeout) ==> r.reason == Some(GateTimeout)
    ensures refusal.verdict == Some(Unreachable) ==> r.reason == Some(GateUnreachable)
    ensures refusal.verdict == Some(Unconfigured) ==> r.reason == Some(GateUnconfigured)
    ensures refusal.verdict == None ==> r.reason == Some(InvalidInput)
  {
  }

  /** A tool outside the caller's scope is refused before anything is read, asked or run. */
  lemma OutOfScopeIsNotAdmitted(setting: Setting, params: Json.Json)
    requires setting.scope.Some? && RecordedName(params) !in setting.scope.value
    ensures AdmittedCall(setting, params).None?
  {
  }
}
