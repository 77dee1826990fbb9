/** Runs that do happen: an approved call left alone reaches its handler and its write lands; and runs nobody would want. */
module ProtocolRuns {
  import opened Results
  import opened Json
  import opened ApprovalGate
  import opened Declarations
  import opened Protocol
  import opened Handlers
  import opened ProtocolTheorems
  import opened ProtocolOutcomes
  import W = WriteConditions

  lemma ExecOne(w: World, s: State, steps: seq<Step>, mid: State, step: Step, next: State)
    requires Exec(w, s, steps) == Some(mid) && Next(w, mid, step) == Some(next)
    ensures Exec(w, s, steps + [step]) == Some(next)
  {
    assert (steps + [step])[..|steps + [step]| - 1] == steps;
  }

  lemma {:induction false} ExecThen(w: World, s: State, first: seq<Step>, mid: State, more: seq<Step>, end: State)
    requires Exec(w, s, first) == Some(mid) && Exec(w, mid, more) == Some(end)
    ensures Exec(w, s, first + more) == Some(end)
    decreases |more|
  {
    if more == [] {
      NoSteps(w, mid, more, end);
      assert first + more == first;
    } else {
      var front, last, between := LastStep(w, mid, more, end);
      ExecThen(w, s, first, mid, front, between);
      ExecOne(w, s, first + front, between, last, end);
      assert first + front + [last] == first + more;
    }
  }

  lemma NoSteps(w: World, s: State, steps: seq<Step>, end: State)
    requires steps == [] && Exec(w, s, steps) == Some(end)
    ensures end == s
  {
  }

  lemma LastStep(w: World, s: State, steps: seq<Step>, end: State) returns (front: seq<Step>, last: Step, between: State)
    requires steps != [] && Exec(w, s, steps) == Some(end)
    ensures steps == front + [last] && Exec(w, s, front) == Some(between) && Next(w, between, last) == Some(end)
  {
    front, last := steps[..|steps| - 1], steps[|steps| - 1];
    between := Exec(w, s, front).value;
  }

  // ---- one approval, step by step ----

  function DescribedState(s: State, c: nat, view: View): State
    requires c < |s.calls| && |s.calls[c].pairs| == 1
  {
    Logged(At(s, c, s.calls[c].(view := view, shownAt := [|s.log|], phase := Protocol.Described(0))), Shown(c, 0, s.calls[c].pairs[0], view))
  }

  function AnsweredState(s: State, c: nat, d: nat, id: string): State
    requires c < |s.calls|
  {
    Logged(At(s.(decisions := s.decisions[d := DecisionInfo(id, false)]), c, s.calls[c].(grants := [Grant(d, |s.log|)], phase := Ready(0))),
           GrantedTo(c, 0, d))
  }

  function SpentState(s: State, c: nat, d: nat): State
    requires c < |s.calls| && d in s.decisions
  {
    Logged(At(s.(decisions := s.decisions[d := s.decisions[d].(used := true)]), c,
              s.calls[c].(spentAt := |s.log|, confirmedAt := |s.log|, phase := Protocol.Rereading(0))), SpentBy(c, 0, d))
  }

  function RunningState(s: State, c: nat): State
    requires c < |s.calls|
  {
    var confirmed := s.calls[c].(confirmedAt := |s.log|, phase := Running(0));
    Logged(Logged(At(s, c, confirmed), Confirmed(c, 0, s.calls[c].view)), Invoked(c, 0, EvidenceOf(confirmed, 0)))
  }

  /** The gate would show this now; a selection was read when the call came in. */
  predicate Sees(w: World, s: State, call: Call, view: View)
  {
    ReadView(w, s.cluster, call) == Some(view) && (!call.route.Plain? ==> call.view == view)
  }

  lemma DescribeStep(w: World, s: State, c: nat, view: View)
    requires c < |s.calls| && s.calls[c].phase == Asking(0) && |s.calls[c].pairs| == 1 && s.calls[c].shownAt == []
    requires Sees(w, s, s.calls[c], view)
    ensures Next(w, s, Describe(c)) == Some(DescribedState(s, c, view))
  {
    assert [] + [|s.log|] == [|s.log|];
  }

  lemma AnswerStep(w: World, s: State, c: nat, d: nat, id: string)
    requires c < |s.calls| && s.calls[c].phase == Protocol.Described(0) && !s.calls[c].route.Batch? && |s.calls[c].pairs| == 1
    requires s.calls[c].grants == [] && d !in s.decisions
    ensures Next(w, s, Answer(c, d, id)) == Some(AnsweredState(s, c, d, id))
  {
    assert [] + [Grant(d, |s.log|)] == [Grant(d, |s.log|)];
  }

  lemma SpendStep(w: World, s: State, c: nat, d: nat, at: nat)
    requires c < |s.calls| && s.calls[c].phase == Ready(0) && s.calls[c].grants == [Grant(d, at)] && !s.calls[c].view.NoTarget?
    requires d in s.decisions && !s.decisions[d].used
    ensures Next(w, s, Spend(c)) == Some(SpentState(s, c, d))
  {
  }

  /** Where there is no target to read again, the handler starts with the spending. */
  lemma SpendAndRunStep(w: World, s: State, c: nat, d: nat, at: nat)
    requires c < |s.calls| && s.calls[c].phase == Ready(0) && s.calls[c].grants == [Grant(d, at)] && s.calls[c].view.NoTarget?
    requires d in s.decisions && !s.decisions[d].used
    ensures
      var ran := s.calls[c].(spentAt := |s.log|, confirmedAt := |s.log|, phase := Running(0));
      Next(w, s, Spend(c)) ==
      Some(Logged(Logged(At(s.(decisions := s.decisions[d := s.decisions[d].(used := true)]), c, ran), SpentBy(c, 0, d)),
                  Invoked(c, 0, EvidenceOf(ran, 0))))
  {
  }

  lemma RereadStep(w: World, s: State, c: nat, view: View)
    requires c < |s.calls| && s.calls[c].phase == Protocol.Rereading(0)
    requires ReadView(w, s.cluster, s.calls[c]) == Some(view) && s.calls[c].view == view && SameView(view, view)
    ensures Next(w, s, Reread(c)) == Some(RunningState(s, c))
  {
  }

  // ---- the whole way from the question to the handler ----

  /** Call c waits to be described, its target, if it has one, is there, and this is what the gate sees of it. */
  predicate AsksFor(w: World, s: State, c: nat, view: View)
  {
    && c < |s.calls|
    && var call := s.calls[c];
       && call.phase == Asking(0) && !call.route.Batch? && |call.pairs| == 1 && call.gated
       && call.shownAt == [] && call.grants == [] && Sees(w, s, call, view) && SameView(view, view)
  }

  /** A collection delete first reads what it selects; unless that is nothing, it then waits to be described. */
  lemma SelectionAsks(w: World, s: State, c: nat, view: View)
    requires c < |s.calls| && s.calls[c].phase.Looking? && s.calls[c].route.Selecting?
    requires |s.calls[c].pairs| == 1 && s.calls[c].gated && s.calls[c].shownAt == [] && s.calls[c].grants == []
    requires ReadView(w, s.cluster, s.calls[c]) == Some(view) && view.Collection?
    ensures
      var t := Next(w, s, Look(c));
      t.Some? && t.value.cluster == s.cluster && if view.objects == {} then t.value.calls[c].phase.Finished? else AsksFor(w, t.value, c, view)
  {
  }

  function ApprovedSteps(c: nat, d: nat, view: View): seq<Step>
  {
    [Describe(c), Answer(c, d, "approval"), Spend(c)] + if view.NoTarget? then [] else [Reread(c)]
  }

  /** The call after the gate let it through. */
  function Approved(call: Call, view: View, d: nat, n: nat): Call
  {
    call.(view := view, shownAt := [n], grants := [Grant(d, n + 1)], spentAt := n + 2,
          confirmedAt := if view.NoTarget? then n + 2 else n + 3, phase := Running(0))
  }

  function ApprovedEvidence(view: View, d: nat, n: nat): Evidence
  {
    Evidence(d, n, n + 1, n + 2, if view.NoTarget? then n + 2 else n + 3)
  }

  /** What the steps of an approved call leave in the log. */
  function ApprovedLog(call: Call, c: nat, d: nat, n: nat, view: View): seq<Entry>
    requires |call.pairs| == 1
  {
    [Shown(c, 0, call.pairs[0], view), GrantedTo(c, 0, d), SpentBy(c, 0, d)]
    + (if view.NoTarget? then [] else [Confirmed(c, 0, view)])
    + [Invoked(c, 0, Some(ApprovedEvidence(view, d, n)))]
  }

  /** The state call c is in once it was shown and granted. */
  function GrantedState(s: State, c: nat, view: View, d: nat): State
    requires c < |s.calls| && |s.calls[c].pairs| == 1
  {
    s.(calls := s.calls[c := s.calls[c].(view := view, shownAt := [|s.log|], grants := [Grant(d, |s.log| + 1)], phase := Ready(0))],
       log := s.log + [Shown(c, 0, s.calls[c].pairs[0], view), GrantedTo(c, 0, d)],
       decisions := s.decisions[d := DecisionInfo("approval", false)])
  }

  /** The state its handler starts in. */
  function ApprovedState(s: State, c: nat, view: View, d: nat): State
    requires c < |s.calls| && |s.calls[c].pairs| == 1
  {
    s.(calls := s.calls[c := Approved(s.calls[c], view, d, |s.log|)],
       log := s.log + ApprovedLog(s.calls[c], c, d, |s.log|, view),
       decisions := s.decisions[d := DecisionInfo("approval", true)])
  }

  lemma RunsToReady(w: World, s: State, c: nat, d: nat, view: View)
    requires AsksFor(w, s, c, view) && d !in s.decisions
    ensures Exec(w, s, [Describe(c), Answer(c, d, "approval")]) == Some(GrantedState(s, c, view, d))
  {
    var q0 := DescribedState(s, c, view);
    var q1 := AnsweredState(q0, c, d, "approval");
    assert Exec(w, s, []) == Some(s);
    DescribeStep(w, s, c, view);
    ExecOne(w, s, [], s, Describe(c), q0);
    AnswerStep(w, q0, c, d, "approval");
    ExecOne(w, s, [Describe(c)], q0, Answer(c, d, "approval"), q1);
    assert [] + [Describe(c)] == [Describe(c)] && [Describe(c)] + [Answer(c, d, "approval")] == [Describe(c), Answer(c, d, "approval")];
    assert q1 == GrantedState(s, c, view, d);
  }

  lemma RunsToHandler(w: World, s: State, c: nat, d: nat, view: View)
    requires AsksFor(w, s, c, view) && !view.NoTarget?
    requires Exec(w, s, [Describe(c), Answer(c, d, "approval")]) == Some(GrantedState(s, c, view, d))
    ensures Exec(w, s, ApprovedSteps(c, d, view)) == Some(ApprovedState(s, c, view, d))
  {
    var p := [Describe(c), Answer(c, d, "approval")];
    var q1 := GrantedState(s, c, view, d);
    var q2 := SpentState(q1, c, d);
    SpendStep(w, q1, c, d, |s.log| + 1);
    ExecOne(w, s, p, q1, Spend(c), q2);
    RereadStep(w, q2, c, view);
    ExecOne(w, s, p + [Spend(c)], q2, Reread(c), RunningState(q2, c));
    assert p + [Spend(c)] + [Reread(c)] == ApprovedSteps(c, d, view);
    RunningIsApproved(s, c, d, view);
  }

  lemma RunningIsApproved(s: State, c: nat, d: nat, view: View)
    requires c < |s.calls| && |s.calls[c].pairs| == 1 && s.calls[c].gated && !view.NoTarget?
    ensures RunningState(SpentState(GrantedState(s, c, view, d), c, d), c) == ApprovedState(s, c, view, d)
  {
    var a, b := RunningState(SpentState(GrantedState(s, c, view, d), c, d), c), ApprovedState(s, c, view, d);
    assert a.log == b.log;
    assert a.calls == b.calls;
    assert a.decisions == b.decisions;
  }

  lemma RunsWithoutTarget(w: World, s: State, c: nat, d: nat, view: View)
    requires AsksFor(w, s, c, view) && view.NoTarget?
    requires Exec(w, s, [Describe(c), Answer(c, d, "approval")]) == Some(GrantedState(s, c, view, d))
    ensures Exec(w, s, ApprovedSteps(c, d, view)) == Some(ApprovedState(s, c, view, d))
  {
    var p := [Describe(c), Answer(c, d, "approval")];
    var q1 := GrantedState(s, c, view, d);
    SpendAndRunStep(w, q1, c, d, |s.log| + 1);
    var q2 := Next(w, q1, Spend(c)).value;
    ExecOne(w, s, p, q1, Spend(c), q2);
    assert p + [Spend(c)] == ApprovedSteps(c, d, view);
    assert q2.log == ApprovedState(s, c, view, d).log;
    assert q2.calls == ApprovedState(s, c, view, d).calls;
    assert q2.decisions == ApprovedState(s, c, view, d).decisions;
  }

  /**
   * The gate is passable: whatever else is going on, a call outside a batch that waits for approval, is
   * granted a new decision and is left alone meanwhile reaches its handler, with evidence, and the cluster
   * as it was.
   */
  lemma ApprovedCallRuns(w: World, s: State, c: nat, d: nat, view: View)
    requires AsksFor(w, s, c, view) && d !in s.decisions
    ensures Exec(w, s, ApprovedSteps(c, d, view)) == Some(ApprovedState(s, c, view, d))
  {
    RunsToReady(w, s, c, d, view);
    if view.NoTarget? {
      RunsWithoutTarget(w, s, c, d, view);
    } else {
      RunsToHandler(w, s, c, d, view);
    }
  }

  /**
   * The interval ProtocolOutcomes speaks of is one every approved call with a target enters: from any
   * reachable state in which it waits, its steps lead to the second reading and out of it into the handler.
   */
  lemma ApprovedCallEntersInterval(w: World, s: State, c: nat, d: nat, view: View, version: string, uid: string)
    requires Reachable(w, s) && AsksFor(w, s, c, view) && !view.NoTarget? && d !in s.decisions && Fresh(s, version, uid)
    ensures
      var spent := SpentState(GrantedState(s, c, view, d), c, d);
      var t := ApprovedState(s, c, view, d);
      && Exec(w, s, [Describe(c), Answer(c, d, "approval"), Spend(c)]) == Some(spent)
      && Reachable(w, spent) && SendsAfter(w, spent, c, t, [], t, version, uid)
  {
    var p := [Describe(c), Answer(c, d, "approval")];
    var granted := GrantedState(s, c, view, d);
    var spent := SpentState(granted, c, d);
    RunsToReady(w, s, c, d, view);
    SpendStep(w, granted, c, d, |s.log| + 1);
    ExecOne(w, s, p, granted, Spend(c), spent);
    assert p + [Spend(c)] == [Describe(c), Answer(c, d, "approval"), Spend(c)];
    ReachableOn(w, s, p + [Spend(c)], spent);
    EntersInterval(w, s, c, d, view, version, uid);
  }

  lemma EntersInterval(w: World, s: State, c: nat, d: nat, view: View, version: string, uid: string)
    requires AsksFor(w, s, c, view) && !view.NoTarget? && Fresh(s, version, uid)
    ensures
      var t := ApprovedState(s, c, view, d);
      SendsAfter(w, SpentState(GrantedState(s, c, view, d), c, d), c, t, [], t, version, uid)
  {
    var spent := SpentState(GrantedState(s, c, view, d), c, d);
    RereadStep(w, spent, c, view);
    RunningIsApproved(s, c, d, view);
  }

  lemma ReachableOn(w: World, s: State, steps: seq<Step>, t: State)
    requires Reachable(w, s) && Exec(w, s, steps) == Some(t)
    ensures Reachable(w, t)
  {
    var before, first :| ReachedBy(w, s, before, first);
    ExecThen(w, before, first, s, steps, t);
    assert ReachedBy(w, t, before, first + steps);
  }

  // ---- and what it was approved for happens ----

  /** What an approved request does to the cluster it was approved on. */
  predicate Lands(w: World, s: State, view: View, r: Request, i: Impact, after: map<Coord, Json>, outcome: Json)
  {
    match r
    case Delete(at) => view.OneObject? && i.over == Some(view.doc) && after == s.cluster - {at}
    case DeleteCollection(_, _, _) => view == Collection(i.removed) && after == s.cluster - (set x | x in i.removed :: x.at)
    case Update(at, _, _, _) =>
      && view.OneObject?
      && (Written(r, view.doc, outcome).Some? ==>
            i.over == Some(view.doc) && i.stored.Some? && after == s.cluster[at := i.stored.value])
    case Patch(at, _) =>
      && view.OneObject?
      && (Written(r, view.doc, outcome).Some? ==>
            i.over == Some(view.doc) && i.stored.Some? && after == s.cluster[at := i.stored.value])
    case _ => false
  }

  /** The handler's request as it is built from what was shown. */
  predicate Builds(w: World, call: Call, view: View, r: Request)
  {
    && !call.route.Batch? && CallPairs(Shipped(call.tool), w.env, call.args).Some?
    && HandlerWrite(w.env, call.tool, call.args, if view.OneObject? then view.doc else Null) == Some(r)
  }

  lemma DeleteLands(w: World, s: State, view: View, at: Coord, version: string, uid: string, outcome: Json)
    requires HistoryHolds(s) && Fresh(s, version, uid) && view.OneObject? && Found(s.cluster, at) == Some(view.doc)
    ensures Lands(w, s, view, Delete(at), ImpactOf(w, s, Delete(at), version, uid, outcome),
                  Effect(w, s, Delete(at), version, uid, outcome).cluster, outcome)
  {
    var gone := Selected(at, W.VersionOf(view.doc), W.UidOf(view.doc));
    assert RemovedBy(w, s.cluster, Delete(at)) == {gone};
    assert (set x | x in {gone} :: x.at) == {at};
  }

  lemma WriteLands(w: World, s: State, view: View, r: Request, version: string, uid: string, outcome: Json)
    requires HistoryHolds(s) && Fresh(s, version, uid) && (r.Update? || r.Patch?)
    requires view.OneObject? && Found(s.cluster, r.at) == Some(view.doc)
    ensures Lands(w, s, view, r, ImpactOf(w, s, r, version, uid, outcome), Effect(w, s, r, version, uid, outcome).cluster, outcome)
  {
  }

  lemma CollectionLands(w: World, s: State, args: Json, view: View, version: string, uid: string, outcome: Json)
    requires CallPairs(Shipped(ResourceDeleteCollection), w.env, args).Some? && DeleteCollectionRequest(args).Some?
    requires Fresh(s, version, uid)
    requires
      var r := DeleteCollectionRequest(args).value;
      view == Collection(SelectedObjects(w, s.cluster, r.apiVersion, r.kind, r.selection))
    ensures
      var r := DeleteCollectionRequest(args).value;
      Lands(w, s, view, r, ImpactOf(w, s, r, version, uid, outcome), Effect(w, s, r, version, uid, outcome).cluster, outcome)
  {
  }

  /** What the gate read is where the handler's request goes. */
  lemma ReadWhereSent(w: World, s: State, call: Call, view: View, r: Request)
    requires Builds(w, call, view, r) && !call.tool.ResourceCreate? && ReadView(w, s.cluster, call) == Some(view)
    requires call.route.Selecting? <==> call.tool.ResourceDeleteCollection?
    ensures !call.tool.ResourceDeleteCollection? ==>
      (r.Update? || r.Patch? || r.Delete?) && view.OneObject? && Found(s.cluster, r.at) == Some(view.doc)
  {
  }

  lemma SelectionWhereSent(w: World, s: State, call: Call, view: View, r: Request)
    requires Builds(w, call, view, r) && call.tool.ResourceDeleteCollection? && ReadView(w, s.cluster, call) == Some(view)
    requires call.route.Selecting?
    ensures r.DeleteCollection? && view == Collection(SelectedObjects(w, s.cluster, r.apiVersion, r.kind, r.selection))
    ensures Some(r) == DeleteCollectionRequest(call.args)
  {
  }

  lemma LandsOn(w: World, s: State, call: Call, view: View, r: Request, version: string, uid: string, outcome: Json)
    requires HistoryHolds(s) && Fresh(s, version, uid) && Builds(w, call, view, r) && !call.tool.ResourceCreate?
    requires ReadView(w, s.cluster, call) == Some(view) && (call.route.Selecting? <==> call.tool.ResourceDeleteCollection?)
    ensures Lands(w, s, view, r, ImpactOf(w, s, r, version, uid, outcome), Effect(w, s, r, version, uid, outcome).cluster, outcome)
  {
    ReadWhereSent(w, s, call, view, r);
    if call.tool.ResourceDeleteCollection? {
      SelectionWhereSent(w, s, call, view, r);
      CollectionLands(w, s, call.args, view, version, uid, outcome);
    } else if r.Delete? {
      DeleteLands(w, s, view, r.at, version, uid, outcome);
    } else {
      WriteLands(w, s, view, r, version, uid, outcome);
    }
  }

  predicate NamesSubresource(args: Json)
  {
    args.Obj? && OptionalString(args.members, "subresource").Some?
  }

  /** The run ended with the approved request sent on its evidence, and it did what was approved. */
  predicate EndsLanding(w: World, s: State, c: nat, d: nat, view: View, r: Request, outcome: Json, end: State)
    requires c < |s.calls| && |s.calls[c].pairs| == 1
  {
    var before := s.log + ApprovedLog(s.calls[c], c, d, |s.log|, view);
    && |end.log| == |before| + 1 && end.log[..|before|] == before && end.log[|before|].Reached?
    && end.log[|before|] == Reached(c, 0, r, Some(ApprovedEvidence(view, d, |s.log|)), end.log[|before|].impact)
    && Lands(w, s, view, r, end.log[|before|].impact, end.cluster, outcome)
  }

  /** Left alone, an approved call's own request is let through and does what was approved. */
  lemma ApprovedWriteLands(w: World, s: State, c: nat, d: nat, view: View, r: Request, version: string, uid: string, outcome: Json)
    requires HistoryHolds(s) && AsksFor(w, s, c, view) && d !in s.decisions && Fresh(s, version, uid)
    requires Builds(w, s.calls[c], view, r) && !s.calls[c].tool.ResourceCreate?
    requires s.calls[c].route.Selecting? <==> s.calls[c].tool.ResourceDeleteCollection?
    requires s.calls[c].tool.ResourcePatch? ==> !NamesSubresource(s.calls[c].args)
    ensures
      var end := Exec(w, s, ApprovedSteps(c, d, view) + [Send(c, r, version, uid, outcome)]);
      end.Some? && EndsLanding(w, s, c, d, view, r, outcome, end.value)
  {
    var call, q := s.calls[c], ApprovedState(s, c, view, d);
    ApprovedCallRuns(w, s, c, d, view);
    HandlerStaysInside(w.env, call.tool, call.args, if view.OneObject? then view.doc else Null);
    SendLands(w, q, c, r, version, uid, outcome);
    ExecOne(w, s, ApprovedSteps(c, d, view), q, Send(c, r, version, uid, outcome), Next(w, q, Send(c, r, version, uid, outcome)).value);
    LandsOn(w, s, call, view, r, version, uid, outcome);
    SameEffect(w, s, q, r, version, uid, outcome);
  }

  lemma SameEffect(w: World, s: State, q: State, r: Request, version: string, uid: string, outcome: Json)
    requires q.cluster == s.cluster && q.history == s.history && Fresh(s, version, uid)
    ensures ImpactOf(w, q, r, version, uid, outcome) == ImpactOf(w, s, r, version, uid, outcome)
    ensures Effect(w, q, r, version, uid, outcome).cluster == Effect(w, s, r, version, uid, outcome).cluster
    ensures Effect(w, q, r, version, uid, outcome).log == q.log
  {
  }

  // ---- runs nobody would want ----

  /**
   * A patch that names a subresource is approved and then stopped: in every state where such a call waits
   * for approval, its run spends the decision, starts the handler, and the request the handler builds
   * changes nothing and leaves no entry.
   */
  lemma PatchOfSubresourceIsStopped(w: World, s: State, c: nat, d: nat, view: View, version: string, uid: string, outcome: Json)
    requires AsksFor(w, s, c, view) && d !in s.decisions && Fresh(s, version, uid) && view.OneObject?
    requires s.calls[c].tool.ResourcePatch? && CallPairs(Shipped(ResourcePatch), w.env, s.calls[c].args).Some?
    requires PatchRequest(s.calls[c].args, view.doc).Some? && NamesSubresource(s.calls[c].args)
    ensures
      var r := PatchRequest(s.calls[c].args, view.doc).value;
      var end := ApprovedState(s, c, view, d);
      && Exec(w, s, ApprovedSteps(c, d, view)) == Some(end)
      && end.decisions[d].used && end.calls[c].phase.Running?
      && Next(w, end, Send(c, r, version, uid, outcome)) == Some(end)
  {
    ApprovedCallRuns(w, s, c, d, view);
    PatchInside(w.env, s.calls[c].args, view.doc);
    SendStops(w, ApprovedState(s, c, view, d), c, PatchRequest(s.calls[c].args, view.doc).value, version, uid, outcome);
  }

  lemma SendStops(w: World, s: State, c: nat, r: Request, version: string, uid: string, outcome: Json)
    requires c < |s.calls| && s.calls[c].phase.Running? && Fresh(s, version, uid)
    requires !Permits(Shipped(s.calls[c].tool), w.env, s.calls[c].UnitArgs(s.calls[c].phase.unit), r)
    ensures Next(w, s, Send(c, r, version, uid, outcome)) == Some(s)
  {
  }

  /** Another writer puts a document somewhere, and then the request of a running call is sent. */
  lemma WriteThenSend(w: World, s: State, c: nat, at: Coord, doc: Json, r: Request, version: string, uid: string, next: string)
    requires c < |s.calls| && s.calls[c].phase.Running? && Fresh(s, version, uid) && Fresh(s, next, uid) && version != next
    requires Permits(Shipped(s.calls[c].tool), w.env, s.calls[c].UnitArgs(s.calls[c].phase.unit), r)
    ensures
      var mid := Put(s, at, Stamp(doc, version, uid));
      var u := s.calls[c].phase.unit;
      && Fresh(mid, next, uid)
      && Exec(w, s, [Outside(at, Some(doc), version, uid), Send(c, r, next, uid, Null)]) ==
         Some(Logged(Effect(w, mid, r, next, uid, Null), Reached(c, u, r, EvidenceOf(s.calls[c], u), ImpactOf(w, mid, r, next, uid, Null))))
  {
    var p := [Outside(at, Some(doc), version, uid), Send(c, r, next, uid, Null)];
    var mid := Put(s, at, Stamp(doc, version, uid));
    assert p[..1] == [] + [p[0]] && p == p[..1] + [p[1]];
    assert Exec(w, s, []) == Some(s);
    OutsideStep(w, s, at, doc, version, uid);
    ExecOne(w, s, [], s, p[0], mid);
    SendLands(w, mid, c, r, next, uid, Null);
    ExecOne(w, s, p[..1], mid, p[1], Next(w, mid, p[1]).value);
  }

  lemma OutsideStep(w: World, s: State, at: Coord, doc: Json, version: string, uid: string)
    requires Fresh(s, version, uid)
    ensures Next(w, s, Outside(at, Some(doc), version, uid)) == Some(Put(s, at, Stamp(doc, version, uid)))
  {
  }

  /**
   * A plain delete carries no condition: in every state where an approved delete is about to run, another
   * writer can put any document at its place, and the delete then removes that one, under a version nobody
   * was ever shown. When that happens and when not is ProtocolOutcomes.DeleteRemovesTheShownExactly.
   */
  lemma DeleteTakesWhatIsThere(w: World, s: State, c: nat, doc: Json, version: string, uid: string, next: string)
    requires c < |s.calls| && s.calls[c].tool.ResourceDelete? && s.calls[c].route.Plain? && s.calls[c].phase.Running?
    requires CallPairs(Shipped(ResourceDelete), w.env, s.calls[c].args).Some? && DeleteRequest(s.calls[c].args).Some?
    requires Fresh(s, version, uid) && Fresh(s, next, uid) && version != next
    ensures
      var at := TargetCoord(s.calls[c].args).value;
      var end := Exec(w, s, [Outside(at, Some(doc), version, uid), Send(c, Delete(at), next, uid, Null)]);
      && end.Some? && at !in end.value.cluster && |end.value.log| == |s.log| + 1
      && var last := end.value.log[|s.log|];
         && last.Reached? && last.request == Delete(at) && last.impact.over == Some(Stamp(doc, version, uid))
         && W.VersionOf(Stamp(doc, version, uid)) !in s.history
  {
    var at := TargetCoord(s.calls[c].args).value;
    DeleteInside(w.env, s.calls[c].args);
    WriteThenSend(w, s, c, at, doc, Delete(at), version, uid, next);
    var mid := Put(s, at, Stamp(doc, version, uid));
    assert Selected(at, version, W.UidOf(mid.cluster[at])) in RemovedBy(w, mid.cluster, Delete(at));
  }

  /**
   * Nor does a collection delete: whatever another writer adds to the selection after the second reading
   * goes with it, though it was never listed to anyone.
   */
  lemma CollectionTakesWhatMatches(w: World, s: State, c: nat, at: Coord, doc: Json, version: string, uid: string, next: string)
    requires c < |s.calls| && s.calls[c].tool.ResourceDeleteCollection? && s.calls[c].route.Selecting? && s.calls[c].phase.Running?
    requires CallPairs(Shipped(ResourceDeleteCollection), w.env, s.calls[c].args).Some?
    requires Fresh(s, version, uid) && Fresh(s, next, uid) && version != next
    requires DeleteCollectionRequest(s.calls[c].args).Some?
    requires
      var r := DeleteCollectionRequest(s.calls[c].args).value;
      && at.apiVersion == r.apiVersion && at.kind == r.kind && at.namespace == Some(r.selection.namespace)
      && w.matches(r.selection, at, Stamp(doc, version, uid))
    ensures
      var r := DeleteCollectionRequest(s.calls[c].args).value;
      var end := Exec(w, s, [Outside(at, Some(doc), version, uid), Send(c, r, next, uid, Null)]);
      && end.Some? && at !in end.value.cluster && |end.value.log| == |s.log| + 1
      && var last := end.value.log[|s.log|];
         last.Reached? && last.request == r && Selected(at, version, uid) in last.impact.removed && version !in s.history
  {
    var r := DeleteCollectionRequest(s.calls[c].args).value;
    DeleteCollectionInside(w.env, s.calls[c].args);
    WriteThenSend(w, s, c, at, doc, r, version, uid, next);
    var mid := Put(s, at, Stamp(doc, version, uid));
    assert Selected(at, version, uid) in RemovedBy(w, mid.cluster, r);
  }
}
