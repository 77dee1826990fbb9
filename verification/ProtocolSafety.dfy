/** What every run of the approval protocol guarantees. */
module ProtocolSafety {
  import opened Results
  import opened Json
  import opened ApprovalGate
  import opened Declarations
  import opened Protocol
  import opened ProtocolInvariant
  import W = WriteConditions

  // ---- what a call may reach ----

  /** Each unit of a call exercises exactly the one pair it is shown and approved as. */
  predicate Bound(w: World, call: Call)
  {
    forall u: nat | u < |call.pairs| :: CallPairs(Shipped(call.tool), w.env, call.UnitArgs(u)) == Some([call.pairs[u]])
  }

  /** A call outside the gate: the exempt tool, or one whose pairs need no approval. */
  predicate Ungated(w: World, call: Call)
  {
    || call.tool.DearBabyResetUser?
    || GatedPairs(Shipped(call.tool), w.env, w.sensitiveKinds, call.args) == Some([])
  }

  predicate CallConfined(w: World, call: Call)
  {
    Bound(w, call) && (!call.gated && call.phase.Running? ==> Ungated(w, call))
  }

  predicate EntryConfined(w: World, calls: seq<Call>, e: Entry)
  {
    && (e.Invoked? || e.Reached? ==> e.call < |calls| && (calls[e.call].gated || Ungated(w, calls[e.call])))
    && (e.Reached? ==> Permits(Shipped(calls[e.call].tool), w.env, calls[e.call].UnitArgs(e.unit), e.request))
    && ShownTarget(calls, e)
  }

  predicate Confined(w: World, s: State)
  {
    && (forall c: nat | c < |s.calls| :: CallConfined(w, s.calls[c]))
    && (forall k: nat | k < |s.log| :: EntryConfined(w, s.calls, s.log[k]))
  }

  /** What is recorded of a write is what the apiserver makes of it, for some outcome of its own. */
  ghost predicate TookEffect(r: Request, i: Impact)
  {
    r.Delete? || exists outcome :: StoredFor(r, i, outcome)
  }

  predicate StoredFor(r: Request, i: Impact, outcome: Json)
  {
    && i.over.Some? && W.Stored(i.over.value) && Written(r, i.over.value, outcome).Some?
    && i.stored.Some? && W.Stored(i.stored.value)
    && i.stored.value == Stamp(Written(r, i.over.value, outcome).value, W.VersionOf(i.stored.value), W.UidOf(i.over.value))
  }

  ghost predicate Effective(log: seq<Entry>)
  {
    forall k: nat | k < |log| && log[k].Reached? && log[k].impact.over.Some? :: TookEffect(log[k].request, log[k].impact)
  }

  ghost predicate Inv(w: World, s: State)
  {
    Sound(s) && Confined(w, s) && Effective(s.log)
  }

  // ---- one step ----

  lemma ConfinedKept(w: World, s: State, t: State)
    requires Confined(w, s) && Follows(s, t)
    requires forall d: nat | |s.calls| <= d < |t.calls| :: CallConfined(w, t.calls[d])
    requires forall k: nat | |s.log| <= k < |t.log| :: EntryConfined(w, t.calls, t.log[k])
    ensures Confined(w, t)
  {
    forall d: nat | d < |t.calls|
      ensures CallConfined(w, t.calls[d])
    {
      if d < |s.calls| { CallConfinedKept(w, s.calls[d], t.calls[d]); }
    }
    forall k: nat | k < |t.log|
      ensures EntryConfined(w, t.calls, t.log[k])
    {
      if k < |s.log| { EntryConfinedKept(w, s.calls, t.calls, s.log[k]); }
    }
  }

  lemma SameUnits(a: Call, b: Call, u: nat)
    requires SameCall(a, b)
    ensures a.UnitArgs(u) == b.UnitArgs(u)
  {
  }

  lemma CallConfinedKept(w: World, a: Call, b: Call)
    requires CallConfined(w, a) && SameCall(a, b) && (!a.gated && b.phase.Running? ==> a.phase.Running?)
    ensures CallConfined(w, b)
  {
    forall u: nat | u < |b.pairs|
      ensures CallPairs(Shipped(b.tool), w.env, b.UnitArgs(u)) == Some([b.pairs[u]])
    {
      SameUnits(a, b, u);
    }
  }

  lemma EntryConfinedKept(w: World, calls: seq<Call>, later: seq<Call>, e: Entry)
    requires EntryConfined(w, calls, e) && |calls| <= |later| && forall d: nat | d < |calls| :: SameCall(calls[d], later[d])
    ensures EntryConfined(w, later, e)
  {
    if e.Reached? { SameUnits(calls[e.call], later[e.call], e.unit); }
  }

  lemma QuietKeeps(w: World, s: State, t: State)
    requires Inv(w, s) && Sound(t) && Quiet(s, t)
    ensures Inv(w, t)
  {
    ConfinedKept(w, s, t);
  }

  lemma ReadOnRecord(w: World, s: State, c: nat)
    requires HistoryHolds(s) && c < |s.calls| && ReadView(w, s.cluster, s.calls[c]).Some?
    ensures ViewOnRecord(s, c, ReadView(w, s.cluster, s.calls[c]).value)
    ensures s.calls[c].route.Plain? && !s.calls[c].tool.ResourceDeleteCollection? ==> TargetShown(s.calls[c].tool, ReadView(w, s.cluster, s.calls[c]).value)
    ensures s.calls[c].route.Selecting? && s.calls[c].tool.ResourceDeleteCollection? ==> ReadView(w, s.cluster, s.calls[c]).value.Collection?
  {
  }

  lemma LookShape(w: World, s: State, c: nat)
    requires Next(w, s, Look(c)).Some? && Sound(s)
    ensures
      var t := Next(w, s, Look(c)).value;
      FinishedTo(s, t, c) || exists view :: LookedTo(s, t, c, view)
  {
    assert CallOK(s.log, c, s.calls[c]);
    var t, view := Next(w, s, Look(c)).value, ReadView(w, s.cluster, s.calls[c]);
    if view.Some? {
      ReadOnRecord(w, s, c);
      assert LookedTo(s, t, c, view.value);
    }
  }

  lemma DescribeShape(w: World, s: State, c: nat)
    requires Next(w, s, Describe(c)).Some?
    ensures c < |s.calls|
    ensures
      var t, call := Next(w, s, Describe(c)).value, s.calls[c];
      var view := if call.route.Plain? then ReadView(w, s.cluster, call) else Some(call.view);
      if view.None? then FinishedTo(s, t, c) else DescribedTo(s, t, c, view.value)
  {
  }

  lemma AnswerShape(w: World, s: State, c: nat, d: nat, requestId: string)
    requires Next(w, s, Answer(c, d, requestId)).Some?
    ensures AnsweredTo(s, Next(w, s, Answer(c, d, requestId)).value, c, d, requestId)
  {
  }

  lemma SpendShape(w: World, s: State, c: nat)
    requires Next(w, s, Spend(c)).Some?
    ensures SpentTo(s, Next(w, s, Spend(c)).value, c)
  {
  }

  lemma RereadShape(w: World, s: State, c: nat)
    requires Next(w, s, Reread(c)).Some?
    ensures c < |s.calls|
    ensures
      var t, now := Next(w, s, Reread(c)).value, ReadView(w, s.cluster, s.calls[c]);
      FinishedTo(s, t, c) || (now.Some? && ConfirmedTo(s, t, c, now.value))
  {
  }

  lemma ReturnShape(w: World, s: State, c: nat, ok: bool)
    requires Next(w, s, Return(c, ok)).Some?
    ensures ReturnedTo(s, Next(w, s, Return(c, ok)).value, c)
  {
  }

  lemma LookKeeps(w: World, s: State, c: nat)
    requires Sound(s) && Next(w, s, Look(c)).Some?
    ensures Sound(Next(w, s, Look(c)).value) && Quiet(s, Next(w, s, Look(c)).value)
  {
    LookShape(w, s, c);
    var t := Next(w, s, Look(c)).value;
    if FinishedTo(s, t, c) {
      FinishedQuiet(s, t, c);
    } else {
      var view :| LookedTo(s, t, c, view);
      LookedQuiet(s, t, c, view);
    }
  }

  lemma DescribeKeeps(w: World, s: State, c: nat)
    requires Sound(s) && Next(w, s, Describe(c)).Some?
    ensures Sound(Next(w, s, Describe(c)).value) && Quiet(s, Next(w, s, Describe(c)).value)
  {
    DescribeShape(w, s, c);
    assert CallOK(s.log, c, s.calls[c]);
    var t, call := Next(w, s, Describe(c)).value, s.calls[c];
    var view := if call.route.Plain? then ReadView(w, s.cluster, call) else Some(call.view);
    if view.None? {
      FinishedQuiet(s, t, c);
    } else {
      if call.route.Plain? { ReadOnRecord(w, s, c); }
      DescribedQuiet(s, t, c, view.value);
    }
  }

  lemma RereadKeeps(w: World, s: State, c: nat)
    requires Sound(s) && Next(w, s, Reread(c)).Some?
    ensures Sound(Next(w, s, Reread(c)).value) && Quiet(s, Next(w, s, Reread(c)).value)
  {
    RereadShape(w, s, c);
    var t := Next(w, s, Reread(c)).value;
    if FinishedTo(s, t, c) {
      FinishedQuiet(s, t, c);
    } else {
      ReadOnRecord(w, s, c);
      ConfirmedQuiet(s, t, c, ReadView(w, s.cluster, s.calls[c]).value);
    }
  }

  // ---- requests ----

  lemma SendShape(w: World, s: State, step: Step)
    requires step.Send? && Next(w, s, step).Some?
    ensures step.c < |s.calls| && s.calls[step.c].phase.Running? && Fresh(s, step.version, step.uid)
    ensures
      var call, u := s.calls[step.c], s.calls[step.c].phase.unit;
      Next(w, s, step).value ==
      if !Permits(Shipped(call.tool), w.env, call.UnitArgs(u), step.request) then s
      else Logged(Effect(w, s, step.request, step.version, step.uid, step.outcome),
                  Reached(step.c, u, step.request, EvidenceOf(call, u), ImpactOf(w, s, step.request, step.version, step.uid, step.outcome)))
  {
  }

  /** What a request changes: one new version at one place, or some objects gone. */
  lemma EffectHistory(w: World, s: State, r: Request, version: string, uid: string, outcome: Json)
    requires Fresh(s, version, uid) && HistoryHolds(s)
    ensures
      var t := Effect(w, s, r, version, uid, outcome);
      && t.log == s.log && t.calls == s.calls && t.decisions == s.decisions
      && HistoryGrows(s, t) && HistoryHolds(t)
  {
    var stored := StoredBy(s.cluster, r, version, uid, outcome);
    if stored.Some? {
      PutKeeps(s, r.at, stored.value);
    } else {
      DropKeeps(s, set x | x in RemovedBy(w, s.cluster, r) :: x.at);
    }
  }

  lemma OverOnRecord(w: World, s: State, r: Request, version: string, uid: string, outcome: Json)
    requires HistoryHolds(s) && Fresh(s, version, uid) && Overwritten(r, s.cluster, outcome).Some?
    ensures
      var i := ImpactOf(w, s, r, version, uid, outcome);
      (r.Update? || r.Patch? || r.Delete?) && OnRecord(s.history, r.at, i.over.value) && TookEffect(r, i)
  {
    if !r.Delete? {
      StoredOverCurrent(w, s, r, version, uid, outcome);
    }
  }

  lemma StoredOverCurrent(w: World, s: State, r: Request, version: string, uid: string, outcome: Json)
    requires HistoryHolds(s) && Fresh(s, version, uid) && Overwritten(r, s.cluster, outcome).Some? && !r.Delete?
    ensures StoredFor(r, ImpactOf(w, s, r, version, uid, outcome), outcome)
  {
  }

  lemma EffectInv(w: World, s: State, r: Request, version: string, uid: string, outcome: Json)
    requires Inv(w, s) && Fresh(s, version, uid)
    ensures Inv(w, Effect(w, s, r, version, uid, outcome))
  {
    EffectHistory(w, s, r, version, uid, outcome);
    WorldKeeps(s, Effect(w, s, r, version, uid, outcome));
  }

  lemma SentInv(w: World, s: State, c: nat, r: Request, impact: Impact)
    requires Inv(w, s) && c < |s.calls| && s.calls[c].phase.Running?
    requires Permits(Shipped(s.calls[c].tool), w.env, s.calls[c].UnitArgs(s.calls[c].phase.unit), r)
    requires impact.over.Some? ==> (r.Update? || r.Patch? || r.Delete?) && OnRecord(s.history, r.at, impact.over.value) && TookEffect(r, impact)
    ensures
      var u := s.calls[c].phase.unit;
      Inv(w, Logged(s, Reached(c, u, r, EvidenceOf(s.calls[c], u), impact)))
  {
    SentKeeps(s, c, r, impact);
    SentConfined(w, s, c, Reached(c, s.calls[c].phase.unit, r, EvidenceOf(s.calls[c], s.calls[c].phase.unit), impact));
    EffectiveAdds(s.log, Reached(c, s.calls[c].phase.unit, r, EvidenceOf(s.calls[c], s.calls[c].phase.unit), impact));
  }

  lemma SentConfined(w: World, s: State, c: nat, e: Entry)
    requires Confined(w, s) && c < |s.calls| && s.calls[c].phase.Running? && e.Reached? && e.call == c
    requires Permits(Shipped(s.calls[c].tool), w.env, s.calls[c].UnitArgs(e.unit), e.request)
    ensures Confined(w, Logged(s, e))
  {
    assert CallConfined(w, s.calls[c]);
    ConfinedKept(w, s, Logged(s, e));
  }

  lemma EffectiveAdds(log: seq<Entry>, e: Entry)
    requires Effective(log) && e.Reached? && (e.impact.over.Some? ==> TookEffect(e.request, e.impact))
    ensures Effective(log + [e])
  {
  }

  /** What one request does keeps everything, whatever the handler asks for. */
  lemma SendKeeps(w: World, s: State, step: Step)
    requires Inv(w, s) && step.Send? && Next(w, s, step).Some?
    ensures Inv(w, Next(w, s, step).value)
  {
    SendShape(w, s, step);
    var call, r := s.calls[step.c], step.request;
    if Permits(Shipped(call.tool), w.env, call.UnitArgs(call.phase.unit), r) {
      EffectHistory(w, s, r, step.version, step.uid, step.outcome);
      EffectInv(w, s, r, step.version, step.uid, step.outcome);
      if Overwritten(r, s.cluster, step.outcome).Some? { OverOnRecord(w, s, r, step.version, step.uid, step.outcome); }
      SentInv(w, Effect(w, s, r, step.version, step.uid, step.outcome), step.c, r,
              ImpactOf(w, s, r, step.version, step.uid, step.outcome));
    }
  }

  lemma OutsideHistory(w: World, s: State, step: Step)
    requires HistoryHolds(s) && step.Outside? && Next(w, s, step).Some?
    ensures
      var t := Next(w, s, step).value;
      && t.log == s.log && t.calls == s.calls && t.decisions == s.decisions
      && HistoryGrows(s, t) && HistoryHolds(t)
  {
    if step.doc.None? {
      DropKeeps(s, {step.at});
    } else {
      PutKeeps(s, step.at, Stamp(step.doc.value, step.version, step.uid));
    }
  }

  // ---- arrival ----

  /** Outside a create batch a gated call has one pair, and it is all the call exercises. */
  lemma GatedIsWhole(w: World, tool: Tool, args: Json)
    requires !tool.ResourceCreate?
    requires GatedPairs(Shipped(tool), w.env, w.sensitiveKinds, args).Some?
    ensures
      var gated := GatedPairs(Shipped(tool), w.env, w.sensitiveKinds, args).value;
      |gated| <= 1 && (gated != [] ==> Shipped(tool).Resolved? && CallPairs(Shipped(tool), w.env, args) == Some(gated))
  {
    if Shipped(tool).Resolved? {
      ResolvedPairs(tool, w.env, args);
      var pairs := CallPairs(Shipped(tool), w.env, args).value;
      assert pairs == [pairs[0]];
      NeedingOne(pairs[0], w.sensitiveKinds);
    }
  }

  /** A call before its first step, and in a handler only if nothing needs approval. */
  predicate Untouched(call: Call)
  {
    Shape(call) && call.shownAt == [] && call.grants == [] && !call.phase.Rereading? && (call.phase.Running? ==> !call.gated && call.phase.unit == 0)
  }

  lemma UntouchedOK(log: seq<Entry>, c: nat, call: Call)
    requires Untouched(call)
    ensures CallOK(log, c, call)
  {
  }

  lemma BatchArrives(w: World, args: Json)
    requires ParseCreateDocuments(w.env, args).Some?
    ensures
      var call := BatchRoute(w, args, ParseCreateDocuments(w.env, args).value);
      Untouched(call) && CallConfined(w, call) && !call.phase.Running?
  {
    var docs := ParseCreateDocuments(w.env, args).value;
    var call := BatchRoute(w, args, docs);
    CreateVerbs(w.env, args);
    forall u: nat | u < |docs|
      ensures CallPairs(Shipped(ResourceCreate), w.env, call.UnitArgs(u)) == Some([call.pairs[u]])
    {
      DocumentRoundTrip(w.env, args, docs[u]);
      DocumentBound(w.env, docs[u]);
    }
  }

  lemma DocumentBound(env: Env, d: Document)
    requires ParseCreateDocuments(env, d.Raw()) == Some([d])
    ensures CallPairs(Shipped(ResourceCreate), env, d.Raw()) == Some([d.pair])
  {
    assert Obj(d.Raw().members) == d.Raw();
    assert DocumentPairs([d]) == [d.pair];
  }

  lemma SingleUntouched(tool: Tool, args: Json, gated: seq<Pair>)
    requires |gated| <= 1 && !tool.ResourceCreate?
    ensures
      var call := SingleRoute(tool, args, gated);
      && Untouched(call) && !call.route.Batch? && call.tool == tool && call.args == args
      && call.pairs == gated && (call.phase.Running? ==> gated == [])
  {
    SingleStarts(tool, args, gated);
    var call := SingleRoute(tool, args, gated);
    StartUntouched(call.tool, call.args, call.route, call.pairs, call.phase);
  }

  /** The ways SingleRoute begins a call. */
  lemma SingleStarts(tool: Tool, args: Json, gated: seq<Pair>)
    requires |gated| <= 1
    ensures
      var call := SingleRoute(tool, args, gated);
      && call == Start(tool, args, call.route, [], gated, call.phase)
      && call.route == (if tool.ResourceDeleteCollection? then Selecting else Plain)
      && (call.phase.Finished? || (call.phase.Looking? && call.route.Selecting? && |gated| == 1)
          || (call.phase == Running(0) && gated == []) || (call.phase == Asking(0) && call.route.Plain? && |gated| == 1))
  {
    assert gated != [] ==> gated[..1] == gated;
  }

  lemma StartUntouched(tool: Tool, args: Json, route: Route, pairs: seq<Pair>, phase: Phase)
    requires |pairs| <= 1 && !tool.ResourceCreate? && route == if tool.ResourceDeleteCollection? then Selecting else Plain
    requires phase.Finished? || (phase.Looking? && route.Selecting? && |pairs| == 1)
             || (phase == Running(0) && pairs == []) || (phase == Asking(0) && route.Plain? && |pairs| == 1)
    ensures Untouched(Start(tool, args, route, [], pairs, phase))
  {
  }

  lemma SingleArrives(w: World, tool: Tool, args: Json)
    requires !tool.ResourceCreate? && GatedPairs(Shipped(tool), w.env, w.sensitiveKinds, args).Some?
    ensures
      var call := SingleRoute(tool, args, GatedPairs(Shipped(tool), w.env, w.sensitiveKinds, args).value);
      Untouched(call) && CallConfined(w, call)
  {
    var gated := GatedPairs(Shipped(tool), w.env, w.sensitiveKinds, args).value;
    GatedIsWhole(w, tool, args);
    SingleUntouched(tool, args, gated);
    assert gated != [] ==> gated == [gated[0]];
  }

  lemma FinishedArrives(w: World, tool: Tool, args: Json, route: Route)
    ensures Untouched(Start(tool, args, route, [], [], Finished)) && CallConfined(w, Start(tool, args, route, [], [], Finished))
  {
  }

  lemma CreateArrives(w: World, raw: Json)
    ensures Untouched(Routed(w, ResourceCreate, raw)) && CallConfined(w, Routed(w, ResourceCreate, raw))
  {
    var admitted := Admitted(Shipped(ResourceCreate), w.env, w.sensitiveKinds, raw);
    if admitted.None? {
      FinishedArrives(w, ResourceCreate, raw, Plain);
    } else if ParseCreateDocuments(w.env, admitted.value.0).None? {
      FinishedArrives(w, ResourceCreate, admitted.value.0, Batch);
    } else {
      BatchArrives(w, admitted.value.0);
    }
  }

  lemma RoutedArrives(w: World, tool: Tool, raw: Json)
    ensures Untouched(Routed(w, tool, raw)) && CallConfined(w, Routed(w, tool, raw))
  {
    var admitted := Admitted(Shipped(tool), w.env, w.sensitiveKinds, raw);
    if tool.ResourceCreate? {
      CreateArrives(w, raw);
    } else if admitted.None? {
      FinishedArrives(w, tool, raw, Plain);
    } else if GatedPairs(Shipped(tool), w.env, w.sensitiveKinds, admitted.value.0).None? {
      FinishedArrives(w, tool, admitted.value.0, Plain);
    } else {
      SingleArrives(w, tool, admitted.value.0);
    }
  }

  lemma ArriveKeeps(w: World, s: State, tool: Tool, args: Json)
    requires Inv(w, s)
    ensures Inv(w, Next(w, s, Arrive(tool, args)).value)
  {
    RoutedArrives(w, tool, args);
    ArriveShape(w, s, tool, args);
    JoinInv(w, s, Routed(w, tool, args));
  }

  function Joined(s: State, call: Call): State
  {
    s.(calls := s.calls + [call])
  }

  lemma ArriveShape(w: World, s: State, tool: Tool, args: Json)
    ensures
      var call := Routed(w, tool, args);
      Next(w, s, Arrive(tool, args)) ==
      Some(if call.phase.Running? then Logged(Joined(s, call), Invoked(|s.calls|, 0, None)) else Joined(s, call))
  {
  }

  lemma JoinSound(s: State, call: Call)
    requires Sound(s) && Untouched(call)
    ensures Sound(Joined(s, call))
    ensures call.phase.Running? ==> Sound(Logged(Joined(s, call), Invoked(|s.calls|, call.phase.unit, None)))
  {
    UntouchedOK(s.log, |s.calls|, call);
    JoinKeeps(s, call);
    if call.phase.Running? {
      StartKeeps(Joined(s, call), |s.calls|);
    }
  }

  lemma JoinInv(w: World, s: State, call: Call)
    requires Inv(w, s) && Untouched(call) && CallConfined(w, call)
    ensures Inv(w, Joined(s, call))
    ensures call.phase.Running? ==> Inv(w, Logged(Joined(s, call), Invoked(|s.calls|, call.phase.unit, None)))
  {
    JoinSound(s, call);
    ConfinedKept(w, s, Joined(s, call));
    if call.phase.Running? {
      ConfinedKept(w, Joined(s, call), Logged(Joined(s, call), Invoked(|s.calls|, call.phase.unit, None)));
    }
  }

  // ---- runs ----

  lemma CallStepKeeps(w: World, s: State, step: Step)
    requires Sound(s) && Next(w, s, step).Some? && !step.Arrive? && !step.Send? && !step.Outside?
    ensures Sound(Next(w, s, step).value) && Quiet(s, Next(w, s, step).value)
  {
    var t := Next(w, s, step).value;
    match step
    case Look(c) => LookKeeps(w, s, c);
    case Describe(c) => DescribeKeeps(w, s, c);
    case Answer(c, d, requestId) =>
      AnswerShape(w, s, c, d, requestId);
      AnsweredQuiet(s, t, c, d, requestId);
    case Spend(c) =>
      SpendShape(w, s, c);
      SpentQuiet(s, t, c);
    case Reread(c) => RereadKeeps(w, s, c);
    case Return(c, ok) =>
      ReturnShape(w, s, c, ok);
      ReturnedQuiet(s, t, c);
    case End(c) => FinishedQuiet(s, t, c);
  }

  lemma OutsideKeeps(w: World, s: State, step: Step)
    requires Inv(w, s) && step.Outside? && Next(w, s, step).Some?
    ensures Inv(w, Next(w, s, step).value)
  {
    var t := Next(w, s, step).value;
    OutsideHistory(w, s, step);
    WorldKeeps(s, t);
    QuietKeeps(w, s, t);
  }

  lemma NextKeeps(w: World, s: State, step: Step)
    requires Inv(w, s) && Next(w, s, step).Some?
    ensures Inv(w, Next(w, s, step).value)
  {
    if step.Arrive? {
      ArriveKeeps(w, s, step.tool, step.args);
    } else if step.Send? {
      SendKeeps(w, s, step);
    } else if step.Outside? {
      OutsideKeeps(w, s, step);
    } else {
      CallStepKeeps(w, s, step);
      QuietKeeps(w, s, Next(w, s, step).value);
    }
  }

  /** Every reachable state satisfies the invariant, whatever the interleaving. */
  lemma {:induction false} RunKeeps(w: World, s: State, steps: seq<Step>)
    requires Initial(s) && Exec(w, s, steps).Some?
    ensures Inv(w, Exec(w, s, steps).value)
  {
    if steps != [] {
      RunKeeps(w, s, steps[..|steps| - 1]);
      NextKeeps(w, Exec(w, s, steps[..|steps| - 1]).value, steps[|steps| - 1]);
    }
  }
}
