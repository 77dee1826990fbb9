/** A create batch whose documents are all approved, and that is left alone, creates them all. */
module ProtocolBatch {
  import opened Results
  import opened Json
  import opened ApprovalGate
  import opened Declarations
  import opened Protocol
  import opened ProtocolInvariant
  import opened ProtocolSafety
  import opened Handlers
  import opened ProtocolOutcomes
  import opened ProtocolRuns
  import W = WriteConditions

  lemma ExecTwo(w: World, s: State, steps: seq<Step>, q0: State, a: Step, q1: State, b: Step, q2: State)
    requires Exec(w, s, steps) == Some(q0) && Next(w, q0, a) == Some(q1) && Next(w, q1, b) == Some(q2)
    ensures Exec(w, s, steps + [a, b]) == Some(q2)
  {
    ExecOne(w, s, steps, q0, a, q1);
    ExecOne(w, s, steps + [a], q1, b, q2);
    assert steps + [a] + [b] == steps + [a, b];
  }

  /** One approval for each document: which decisions the gate hands out, and under which request ids. */
  datatype Approvals = Approvals(decisions: seq<nat>, ids: seq<string>)

  predicate Unused(s: State, a: Approvals, n: nat)
  {
    && |a.decisions| == |a.ids| == n
    && (forall i, j | 0 <= i < j < n :: a.decisions[i] != a.decisions[j] && a.ids[i] != a.ids[j])
    && (forall i | 0 <= i < n :: a.decisions[i] !in s.decisions && a.ids[i] != "")
  }

  function AskSteps(c: nat, a: Approvals, u: nat): seq<Step>
    requires u <= |a.decisions| && |a.ids| == |a.decisions|
  {
    if u == 0 then [] else AskSteps(c, a, u - 1) + [Describe(c), Answer(c, a.decisions[u - 1], a.ids[u - 1])]
  }

  /** The batch as it arrived, with u of its documents granted. */
  predicate Granted(s: State, call: Call, t: State, c: nat, a: Approvals, u: nat)
  {
    var n := |call.pairs|;
    && u <= n == |a.decisions| == |a.ids| && |t.calls| == |s.calls| && c < |t.calls|
    && t.cluster == s.cluster && t.history == s.history
    && SameCall(call, t.calls[c]) && t.calls[c].view.NoTarget?
    && t.calls[c].phase == (if u < n then Asking(u) else Ready(0))
    && |t.calls[c].shownAt| == |t.calls[c].grants| == u
    && (forall j | 0 <= j < u :: t.calls[c].grants[j].decision == a.decisions[j])
    && (forall j | 0 <= j < u :: a.decisions[j] in t.decisions && t.decisions[a.decisions[j]] == DecisionInfo(a.ids[j], false))
    && (forall j | u <= j < n :: a.decisions[j] !in t.decisions)
  }

  function DescribedUnit(s: State, c: nat, u: nat): State
    requires c < |s.calls| && u < |s.calls[c].pairs|
  {
    var call := s.calls[c];
    Logged(At(s, c, call.(shownAt := call.shownAt + [|s.log|], phase := Protocol.Described(u))), Shown(c, u, call.pairs[u], call.view))
  }

  function GrantedUnit(s: State, c: nat, u: nat, d: nat, id: string): State
    requires c < |s.calls|
  {
    var call := s.calls[c];
    Logged(At(s.(decisions := s.decisions[d := DecisionInfo(id, false)]), c,
              call.(grants := call.grants + [Grant(d, |s.log|)], phase := if u + 1 < |call.pairs| then Asking(u + 1) else Ready(0))),
           GrantedTo(c, u, d))
  }

  lemma DescribeUnit(w: World, s: State, c: nat, u: nat)
    requires c < |s.calls| && s.calls[c].phase == Asking(u) && u < |s.calls[c].pairs| && s.calls[c].route.Batch?
    ensures Next(w, s, Describe(c)) == Some(DescribedUnit(s, c, u))
  {
  }

  /** No grant of the call so far is on a decision with this request id. */
  predicate NewId(s: State, call: Call, id: string)
  {
    id != "" && forall g | g in call.grants :: g.decision in s.decisions && s.decisions[g.decision].requestId != id
  }

  lemma AnswerUnit(w: World, s: State, c: nat, u: nat, d: nat, id: string)
    requires c < |s.calls| && s.calls[c].phase == Protocol.Described(u) && s.calls[c].route.Batch?
    requires d !in s.decisions && NewId(s, s.calls[c], id)
    ensures Next(w, s, Answer(c, d, id)) == Some(GrantedUnit(s, c, u, d, id))
  {
  }

  lemma GrantOne(w: World, s: State, call: Call, t: State, c: nat, a: Approvals, u: nat)
    requires Granted(s, call, t, c, a, u) && call.route.Batch? && u < |call.pairs| && Unused(s, a, |call.pairs|)
    ensures
      var mid := DescribedUnit(t, c, u);
      var next := GrantedUnit(mid, c, u, a.decisions[u], a.ids[u]);
      && Next(w, t, Describe(c)) == Some(mid) && Next(w, mid, Answer(c, a.decisions[u], a.ids[u])) == Some(next)
      && Granted(s, call, next, c, a, u + 1)
  {
    DescribeUnit(w, t, c, u);
    AnswerUnit(w, DescribedUnit(t, c, u), c, u, a.decisions[u], a.ids[u]);
  }

  /** One more document: described and granted, after the steps that granted those before it. */
  lemma GrantNext(w: World, s: State, c: nat, a: Approvals, u: nat, steps: seq<Step>, mid: State)
    requires c < |s.calls| && s.calls[c].route.Batch? && u < |s.calls[c].pairs| && Unused(s, a, |s.calls[c].pairs|)
    requires Exec(w, s, steps) == Some(mid) && Granted(s, s.calls[c], mid, c, a, u)
    ensures
      var end := Exec(w, s, steps + [Describe(c), Answer(c, a.decisions[u], a.ids[u])]);
      end.Some? && Granted(s, s.calls[c], end.value, c, a, u + 1)
  {
    GrantOne(w, s, s.calls[c], mid, c, a, u);
    var between := DescribedUnit(mid, c, u);
    ExecTwo(w, s, steps, mid, Describe(c), between, Answer(c, a.decisions[u], a.ids[u]),
            GrantedUnit(between, c, u, a.decisions[u], a.ids[u]));
  }

  lemma {:induction false} GrantAll(w: World, s: State, c: nat, a: Approvals, u: nat)
    requires c < |s.calls| && s.calls[c].route.Batch? && Granted(s, s.calls[c], s, c, a, 0)
    requires u <= |s.calls[c].pairs| && Unused(s, a, |s.calls[c].pairs|)
    ensures
      var end := Exec(w, s, AskSteps(c, a, u));
      end.Some? && Granted(s, s.calls[c], end.value, c, a, u)
  {
    if u > 0 {
      GrantAll(w, s, c, a, u - 1);
      GrantNext(w, s, c, a, u - 1, AskSteps(c, a, u - 1), Exec(w, s, AskSteps(c, a, u - 1)).value);
    }
  }

  // ---- execution ----

  /** The versions and incarnations the cluster gives the new objects. */
  datatype Stamps = Stamps(versions: seq<string>, uids: seq<string>)

  function PlaceOf(d: Document): Coord
  {
    Coord(d.apiVersion, d.kind, d.namespace, d.name)
  }

  /** Every document names a place of its own, and nothing is there. */
  predicate Vacant(cluster: map<Coord, Json>, docs: seq<Document>)
  {
    && (forall i | 0 <= i < |docs| :: PlaceOf(docs[i]) !in cluster)
    && (forall i, j | 0 <= i < j < |docs| :: PlaceOf(docs[i]) != PlaceOf(docs[j]))
  }

  predicate New(s: State, m: Stamps, n: nat)
  {
    && |m.versions| == |m.uids| == n
    && (forall i | 0 <= i < n :: m.versions[i] != "" && m.uids[i] != "" && m.versions[i] !in s.history)
    && (forall i, j | 0 <= i < j < n :: m.versions[i] != m.versions[j])
  }

  /** The cluster with the first u documents added. */
  function WithCreated(cluster: map<Coord, Json>, docs: seq<Document>, m: Stamps, u: nat): map<Coord, Json>
    requires u <= |docs| == |m.versions| == |m.uids|
  {
    if u == 0 then cluster
    else WithCreated(cluster, docs, m, u - 1)[PlaceOf(docs[u - 1]) := Stamp(docs[u - 1].body, m.versions[u - 1], m.uids[u - 1])]
  }

  lemma {:induction false} StillVacant(cluster: map<Coord, Json>, docs: seq<Document>, m: Stamps, u: nat, j: nat)
    requires u <= j < |docs| == |m.versions| == |m.uids| && Vacant(cluster, docs)
    ensures PlaceOf(docs[j]) !in WithCreated(cluster, docs, m, u)
  {
    if u > 0 { StillVacant(cluster, docs, m, u - 1, j); }
  }

  /** What the new objects are: with distinct places, each document is there under its own stamp. */
  lemma {:induction false} CreatedIsThere(cluster: map<Coord, Json>, docs: seq<Document>, m: Stamps, u: nat, j: nat)
    requires j < u <= |docs| == |m.versions| == |m.uids| && Vacant(cluster, docs)
    ensures Found(WithCreated(cluster, docs, m, u), PlaceOf(docs[j])) == Some(Stamp(docs[j].body, m.versions[j], m.uids[j]))
  {
    if j < u - 1 { CreatedIsThere(cluster, docs, m, u - 1, j); }
  }

  function RequestFor(d: Document): Request
  {
    Create(PlaceOf(d), d.body)
  }

  function OneDocument(c: nat, d: Document, version: string, uid: string): seq<Step>
  {
    [Spend(c), Send(c, RequestFor(d), version, uid, Null), Return(c, true)]
  }

  function RunSteps(c: nat, docs: seq<Document>, m: Stamps, u: nat): seq<Step>
    requires u <= |docs| == |m.versions| == |m.uids|
  {
    if u == 0 then []
    else RunSteps(c, docs, m, u - 1) + OneDocument(c, docs[u - 1], m.versions[u - 1], m.uids[u - 1])
  }

  /** The log has the creation of unit j, on the decision granted for it. */
  ghost predicate CreatedInLog(log: seq<Entry>, c: nat, j: nat, d: Document, decision: nat, stored: Json)
  {
    exists k: nat :: k < |log| && log[k].Reached? && log[k].call == c && log[k].unit == j && log[k].request == RequestFor(d)
                     && log[k].evidence.Some? && log[k].evidence.value.decision == decision && log[k].impact.stored == Some(stored)
  }

  /** Call c and stamps for its documents fit together. */
  predicate Fits(s: State, c: nat, m: Stamps)
  {
    c < |s.calls| && |s.calls[c].docs| == |s.calls[c].pairs| == |s.calls[c].grants| == |m.versions| == |m.uids|
  }

  /** The log has the first u documents of the call as created. */
  ghost predicate MadeInLog(s: State, log: seq<Entry>, c: nat, m: Stamps, u: nat)
    requires Fits(s, c, m)
  {
    var call := s.calls[c];
    u <= |call.docs| && forall j: nat | j < u ::
      CreatedInLog(log, c, j, call.docs[j], call.grants[j].decision, Stamp(call.docs[j].body, m.versions[j], m.uids[j]))
  }

  /** From the state s in which all documents are granted, u of them have been created. */
  predicate Made(s: State, t: State, c: nat, m: Stamps, u: nat)
    requires Fits(s, c, m)
  {
    var call := s.calls[c];
    var n := |call.docs|;
    && u <= n && c < |t.calls| == |s.calls| && SameCall(call, t.calls[c]) && t.calls[c].view.NoTarget?
    && t.calls[c].grants == call.grants && |t.calls[c].shownAt| == n
    && t.calls[c].phase == (if u < n then Ready(u) else Finished)
    && (forall j | u <= j < n :: call.grants[j].decision in t.decisions && !t.decisions[call.grants[j].decision].used)
    && t.cluster == WithCreated(s.cluster, call.docs, m, u)
    && (forall v | v in t.history :: v in s.history || v in m.versions[..u])
  }

  /** A batch call with every document granted, on decisions of their own. */
  predicate AllGranted(w: World, s: State, c: nat)
  {
    && c < |s.calls|
    && var call := s.calls[c];
       var n := |call.docs|;
       && call.tool.ResourceCreate? && call.route.Batch? && call.gated && n > 0 && call.view.NoTarget? && call.phase == Ready(0)
       && |call.pairs| == |call.grants| == |call.shownAt| == n
       && (forall j | 0 <= j < n :: call.grants[j].decision in s.decisions && !s.decisions[call.grants[j].decision].used)
       && (forall i, j | 0 <= i < j < n :: call.grants[i].decision != call.grants[j].decision)
       && (forall j | 0 <= j < n :: ParseCreateDocuments(w.env, call.docs[j].Raw()) == Some([call.docs[j]]))
  }

  function SpentUnit(s: State, c: nat, u: nat): State
    requires c < |s.calls| && u < |s.calls[c].grants| && s.calls[c].grants[u].decision in s.decisions
  {
    var call := s.calls[c];
    var d := call.grants[u].decision;
    var spent := call.(spentAt := |s.log|, confirmedAt := |s.log|, phase := Running(u));
    Logged(Logged(At(s.(decisions := s.decisions[d := s.decisions[d].(used := true)]), c, spent), SpentBy(c, u, d)),
           Invoked(c, u, EvidenceOf(spent, u)))
  }

  lemma SpendUnit(w: World, s: State, c: nat, u: nat)
    requires c < |s.calls| && s.calls[c].phase == Ready(u) && u < |s.calls[c].grants| && s.calls[c].view.NoTarget?
    requires s.calls[c].grants[u].decision in s.decisions && !s.decisions[s.calls[c].grants[u].decision].used
    ensures Next(w, s, Spend(c)) == Some(SpentUnit(s, c, u))
  {
  }

  function ReturnedUnit(s: State, c: nat, u: nat): State
    requires c < |s.calls|
  {
    At(s, c, s.calls[c].(phase := if u + 1 < |s.calls[c].pairs| then Ready(u + 1) else Finished))
  }

  lemma ReturnUnit(w: World, s: State, c: nat, u: nat)
    requires c < |s.calls| && s.calls[c].phase == Running(u)
    ensures Next(w, s, Return(c, true)) == Some(ReturnedUnit(s, c, u))
  {
  }

  /** A document's own request is inside the pair it was approved as. */
  lemma RequestIsInside(env: Env, d: Document)
    requires ParseCreateDocuments(env, d.Raw()) == Some([d])
    ensures Permits(Shipped(ResourceCreate), env, d.Raw(), RequestFor(d))
  {
    DocumentBound(env, d);
    assert CreateRequest(env, d.Raw()) == Some(RequestFor(d));
    CreateInside(env, d.Raw());
  }

  function CreatedUnit(s: State, c: nat, u: nat, d: Document, version: string, uid: string): State
    requires c < |s.calls| && version != "" && uid != ""
  {
    var stored := Stamp(d.body, version, uid);
    Logged(Put(s, PlaceOf(d), stored), Reached(c, u, RequestFor(d), EvidenceOf(s.calls[c], u), Impact(None, Some(stored), {})))
  }

  lemma CreateUnit(w: World, s: State, c: nat, u: nat, d: Document, version: string, uid: string)
    requires c < |s.calls| && s.calls[c].phase == Running(u) && s.calls[c].tool.ResourceCreate? && s.calls[c].UnitArgs(u) == d.Raw()
    requires Fresh(s, version, uid) && PlaceOf(d) !in s.cluster && ParseCreateDocuments(w.env, d.Raw()) == Some([d])
    ensures Next(w, s, Send(c, RequestFor(d), version, uid, Null)) == Some(CreatedUnit(s, c, u, d, version, uid))
  {
    RequestIsInside(w.env, d);
    SendLands(w, s, c, RequestFor(d), version, uid, Null);
  }

  /** The state after one document: paid for, created, returned from. */
  function MadeUnit(t: State, c: nat, u: nat, d: Document, version: string, uid: string): State
    requires c < |t.calls| && u < |t.calls[c].grants| && t.calls[c].grants[u].decision in t.decisions && version != "" && uid != ""
  {
    ReturnedUnit(CreatedUnit(SpentUnit(t, c, u), c, u, d, version, uid), c, u)
  }

  lemma UnitIsDocument(s: State, t: State, c: nat, u: nat)
    requires c < |s.calls| && c < |t.calls| && SameCall(s.calls[c], t.calls[c]) && s.calls[c].route.Batch? && u < |s.calls[c].docs|
    ensures t.calls[c].UnitArgs(u) == s.calls[c].docs[u].Raw()
  {
  }

  /** The three steps of one document can be taken. */
  lemma MakeSteps(w: World, s: State, t: State, c: nat, m: Stamps, u: nat)
    requires AllGranted(w, s, c) && New(s, m, |s.calls[c].docs|) && Vacant(s.cluster, s.calls[c].docs)
    requires u < |s.calls[c].docs| && Made(s, t, c, m, u)
    ensures
      var d := s.calls[c].docs[u];
      var spent := SpentUnit(t, c, u);
      var created := CreatedUnit(spent, c, u, d, m.versions[u], m.uids[u]);
      && Next(w, t, Spend(c)) == Some(spent)
      && Next(w, spent, Send(c, RequestFor(d), m.versions[u], m.uids[u], Null)) == Some(created)
      && Next(w, created, Return(c, true)) == Some(ReturnedUnit(created, c, u))
  {
    var d := s.calls[c].docs[u];
    var spent := SpentUnit(t, c, u);
    SpendUnit(w, t, c, u);
    StillVacant(s.cluster, s.calls[c].docs, m, u, u);
    UnitIsDocument(s, spent, c, u);
    CreateUnit(w, spent, c, u, d, m.versions[u], m.uids[u]);
    ReturnUnit(w, CreatedUnit(spent, c, u, d, m.versions[u], m.uids[u]), c, u);
  }

  lemma InLogStays(log: seq<Entry>, more: seq<Entry>, c: nat, j: nat, d: Document, decision: nat, stored: Json)
    requires CreatedInLog(log, c, j, d, decision, stored) && log <= more
    ensures CreatedInLog(more, c, j, d, decision, stored)
  {
    var k: nat :| k < |log| && log[k].Reached? && log[k].call == c && log[k].unit == j && log[k].request == RequestFor(d)
                  && log[k].evidence.Some? && log[k].evidence.value.decision == decision && log[k].impact.stored == Some(stored);
    assert more[k] == log[k];
  }

  lemma MadeLog(s: State, t: State, c: nat, m: Stamps, u: nat)
    requires Fits(s, c, m) && s.calls[c].gated && u < |s.calls[c].docs| && m.versions[u] != "" && m.uids[u] != ""
    requires Made(s, t, c, m, u) && MadeInLog(s, t.log, c, m, u)
    ensures MadeInLog(s, MadeUnit(t, c, u, s.calls[c].docs[u], m.versions[u], m.uids[u]).log, c, m, u + 1)
  {
    var call := s.calls[c];
    var next := MadeUnit(t, c, u, call.docs[u], m.versions[u], m.uids[u]);
    forall j: nat | j < u + 1
      ensures CreatedInLog(next.log, c, j, call.docs[j], call.grants[j].decision, Stamp(call.docs[j].body, m.versions[j], m.uids[j]))
    {
      if j < u {
        InLogStays(t.log, next.log, c, j, call.docs[j], call.grants[j].decision, Stamp(call.docs[j].body, m.versions[j], m.uids[j]));
      } else {
        var e := next.log[|t.log| + 2];
        assert e.Reached? && e.request == RequestFor(call.docs[u]) && e.evidence.Some?;
      }
    }
  }

  /** What the three steps leave of decisions and versions. */
  lemma MadeWorld(s: State, t: State, c: nat, m: Stamps, u: nat)
    requires Fits(s, c, m) && u < |s.calls[c].docs| && Made(s, t, c, m, u) && m.versions[u] != "" && m.uids[u] != ""
    ensures
      var next := MadeUnit(t, c, u, s.calls[c].docs[u], m.versions[u], m.uids[u]);
      var d := s.calls[c].grants[u].decision;
      && next.decisions == t.decisions[d := t.decisions[d].(used := true)]
      && next.cluster == WithCreated(s.cluster, s.calls[c].docs, m, u + 1)
      && next.history.Keys == t.history.Keys + {m.versions[u]}
  {
  }

  lemma MadeCall(s: State, t: State, c: nat, m: Stamps, u: nat)
    requires Fits(s, c, m) && u < |s.calls[c].docs| && Made(s, t, c, m, u) && m.versions[u] != "" && m.uids[u] != ""
    ensures
      var next := MadeUnit(t, c, u, s.calls[c].docs[u], m.versions[u], m.uids[u]);
      && c < |next.calls| == |s.calls| && SameCall(s.calls[c], next.calls[c]) && next.calls[c].view.NoTarget?
      && next.calls[c].grants == s.calls[c].grants && |next.calls[c].shownAt| == |s.calls[c].docs|
      && next.calls[c].phase == if u + 1 < |s.calls[c].docs| then Ready(u + 1) else Finished
  {
  }

  lemma MakeOne(w: World, s: State, t: State, c: nat, m: Stamps, u: nat)
    requires AllGranted(w, s, c) && New(s, m, |s.calls[c].docs|)
    requires u < |s.calls[c].docs| && Made(s, t, c, m, u)
    ensures Made(s, MadeUnit(t, c, u, s.calls[c].docs[u], m.versions[u], m.uids[u]), c, m, u + 1)
  {
    MadeWorld(s, t, c, m, u);
    MadeCall(s, t, c, m, u);
    MadeOn(s, t, MadeUnit(t, c, u, s.calls[c].docs[u], m.versions[u], m.uids[u]), c, m, u);
  }

  lemma MadeOn(s: State, t: State, next: State, c: nat, m: Stamps, u: nat)
    requires Fits(s, c, m) && u < |s.calls[c].docs| && Made(s, t, c, m, u)
    requires forall j | u < j < |s.calls[c].docs| :: s.calls[c].grants[j].decision != s.calls[c].grants[u].decision
    requires
      var d := s.calls[c].grants[u].decision;
      && next.decisions == t.decisions[d := t.decisions[d].(used := true)]
      && next.cluster == WithCreated(s.cluster, s.calls[c].docs, m, u + 1)
      && next.history.Keys == t.history.Keys + {m.versions[u]}
    requires c < |next.calls| == |s.calls| && SameCall(s.calls[c], next.calls[c]) && next.calls[c].view.NoTarget?
    requires next.calls[c].grants == s.calls[c].grants && |next.calls[c].shownAt| == |s.calls[c].docs|
    requires next.calls[c].phase == if u + 1 < |s.calls[c].docs| then Ready(u + 1) else Finished
    ensures Made(s, next, c, m, u + 1)
  {
    assert m.versions[..u + 1] == m.versions[..u] + [m.versions[u]];
  }

  lemma ExecThree(w: World, s: State, steps: seq<Step>, q0: State, a: Step, q1: State, b: Step, q2: State, d: Step, q3: State)
    requires Exec(w, s, steps) == Some(q0) && Next(w, q0, a) == Some(q1) && Next(w, q1, b) == Some(q2) && Next(w, q2, d) == Some(q3)
    ensures Exec(w, s, steps + [a, b, d]) == Some(q3)
  {
    ExecTwo(w, s, steps, q0, a, q1, b, q2);
    ExecOne(w, s, steps + [a, b], q2, d, q3);
    assert steps + [a, b] + [d] == steps + [a, b, d];
  }

  lemma MakeNext(w: World, s: State, c: nat, m: Stamps, u: nat, steps: seq<Step>, t: State) returns (end: State)
    requires AllGranted(w, s, c) && New(s, m, |s.calls[c].docs|) && Vacant(s.cluster, s.calls[c].docs)
    requires u < |s.calls[c].docs| && Exec(w, s, steps) == Some(t) && Made(s, t, c, m, u) && MadeInLog(s, t.log, c, m, u)
    ensures Exec(w, s, steps + OneDocument(c, s.calls[c].docs[u], m.versions[u], m.uids[u])) == Some(end)
    ensures Made(s, end, c, m, u + 1) && MadeInLog(s, end.log, c, m, u + 1)
  {
    var d := s.calls[c].docs[u];
    MakeSteps(w, s, t, c, m, u);
    MakeOne(w, s, t, c, m, u);
    MadeLog(s, t, c, m, u);
    var spent := SpentUnit(t, c, u);
    var created := CreatedUnit(spent, c, u, d, m.versions[u], m.uids[u]);
    end := ReturnedUnit(created, c, u);
    ExecThree(w, s, steps, t, Spend(c), spent, Send(c, RequestFor(d), m.versions[u], m.uids[u], Null), created, Return(c, true), end);
  }

  lemma MadeNone(w: World, s: State, c: nat, m: Stamps)
    requires AllGranted(w, s, c) && New(s, m, |s.calls[c].docs|)
    ensures Made(s, s, c, m, 0) && MadeInLog(s, s.log, c, m, 0)
  {
  }

  lemma {:induction false} MakeAll(w: World, s: State, c: nat, m: Stamps, u: nat) returns (end: State)
    requires AllGranted(w, s, c) && New(s, m, |s.calls[c].docs|) && Vacant(s.cluster, s.calls[c].docs) && u <= |s.calls[c].docs|
    ensures Exec(w, s, RunSteps(c, s.calls[c].docs, m, u)) == Some(end)
    ensures Made(s, end, c, m, u) && MadeInLog(s, end.log, c, m, u)
  {
    if u == 0 {
      MadeNone(w, s, c, m);
      end := s;
    } else {
      var t := MakeAll(w, s, c, m, u - 1);
      end := MakeNext(w, s, c, m, u - 1, RunSteps(c, s.calls[c].docs, m, u - 1), t);
    }
  }

  // ---- the whole batch ----

  /** A batch that has just been routed and waits for its first approval. */
  predicate BatchAsks(w: World, s: State, c: nat, args: Json)
  {
    && c < |s.calls| && ParseCreateDocuments(w.env, args).Some?
    && s.calls[c] == BatchRoute(w, args, ParseCreateDocuments(w.env, args).value) && s.calls[c].phase == Asking(0)
  }

  lemma BatchIsGranted(w: World, s: State, c: nat, args: Json, a: Approvals, t: State)
    requires BatchAsks(w, s, c, args) && Unused(s, a, |s.calls[c].pairs|) && Granted(s, s.calls[c], t, c, a, |s.calls[c].pairs|)
    ensures AllGranted(w, t, c)
  {
    var docs := ParseCreateDocuments(w.env, args).value;
    CreateVerbs(w.env, args);
    forall j | 0 <= j < |docs|
      ensures ParseCreateDocuments(w.env, docs[j].Raw()) == Some([docs[j]])
    {
      DocumentRoundTrip(w.env, args, docs[j]);
    }
  }

  /** What a finished batch has done. */
  ghost predicate BatchDone(s: State, end: State, c: nat, docs: seq<Document>, a: Approvals, m: Stamps)
    requires |docs| == |a.decisions| == |m.versions| == |m.uids|
  {
    && c < |end.calls| == |s.calls| && end.calls[c].phase.Finished?
    && end.cluster == WithCreated(s.cluster, docs, m, |docs|)
    && forall j: nat | j < |docs| ::
         CreatedInLog(end.log, c, j, docs[j], a.decisions[j], Stamp(docs[j].body, m.versions[j], m.uids[j]))
  }

  lemma MadeIsDone(s: State, ready: State, end: State, c: nat, a: Approvals, m: Stamps)
    requires c < |s.calls| && Granted(s, s.calls[c], ready, c, a, |s.calls[c].pairs|) && Fits(ready, c, m)
    requires Made(ready, end, c, m, |s.calls[c].docs|) && MadeInLog(ready, end.log, c, m, |s.calls[c].docs|)
    ensures BatchDone(s, end, c, s.calls[c].docs, a, m)
  {
  }

  /**
   * The gate is passable for a batch too: asked about each document in turn, granted each on a new decision
   * with a request id of its own, and left alone, it creates every document, each on its own decision, and
   * the cluster is then as it was with exactly those documents added.
   */
  lemma ApprovedBatchCreates(w: World, s: State, c: nat, args: Json, a: Approvals, m: Stamps)
    requires BatchAsks(w, s, c, args) && Unused(s, a, |s.calls[c].pairs|)
    requires New(s, m, |s.calls[c].docs|) && Vacant(s.cluster, s.calls[c].docs)
    ensures
      var docs := ParseCreateDocuments(w.env, args).value;
      var end := Exec(w, s, AskSteps(c, a, |docs|) + RunSteps(c, docs, m, |docs|));
      s.calls[c].docs == docs && end.Some? && BatchDone(s, end.value, c, docs, a, m)
  {
    var docs := ParseCreateDocuments(w.env, args).value;
    var n := |docs|;
    GrantAll(w, s, c, a, n);
    var ready := Exec(w, s, AskSteps(c, a, n)).value;
    BatchIsGranted(w, s, c, args, a, ready);
    var end := MakeAll(w, ready, c, m, n);
    ExecThen(w, s, AskSteps(c, a, n), ready, RunSteps(c, docs, m, n), end);
    MadeIsDone(s, ready, end, c, a, m);
  }
}
