/**
 * The interval between the second reading of a target and the request that follows it: exactly when the
 * request still meets what the operator was shown.
 */
module ProtocolOutcomes {
  import opened Results
  import opened Json
  import opened ApprovalGate
  import opened Declarations
  import opened Protocol
  import opened ProtocolInvariant
  import opened ProtocolSafety
  import opened ProtocolTheorems
  import opened Handlers
  import W = WriteConditions

  // ---- which steps touch a place ----

  function Found(cluster: map<Coord, Json>, at: Coord): Option<Json>
  {
    if at in cluster then Some(cluster[at]) else None
  }

  predicate Selects(w: World, cluster: map<Coord, Json>, apiVersion: string, kind: string, sel: Selection, at: Coord)
  {
    && at in cluster && at.apiVersion == apiVersion && at.kind == kind && at.namespace == Some(sel.namespace)
    && W.Stored(cluster[at]) && w.matches(sel, at, cluster[at])
  }

  /** The request, carried out on this cluster, writes or removes what is at this place. */
  predicate Alters(w: World, cluster: map<Coord, Json>, r: Request, outcome: Json, at: Coord)
  {
    match r
    case Update(x, _, _, _) => x == at && Overwritten(r, cluster, outcome).Some?
    case Patch(x, _) => x == at && Overwritten(r, cluster, outcome).Some?
    case Create(x, _) => x == at && at !in cluster
    case Delete(x) => x == at && at in cluster
    case DeleteCollection(apiVersion, kind, sel) => Selects(w, cluster, apiVersion, kind, sel, at)
    case _ => false
  }

  /** Another writer, or a request that some call's client lets through, alters what is at this place. */
  predicate Touches(w: World, s: State, step: Step, at: Coord)
  {
    match step
    case Send(c, r, _, _, outcome) =>
      && c < |s.calls| && s.calls[c].phase.Running?
      && Permits(Shipped(s.calls[c].tool), w.env, s.calls[c].UnitArgs(s.calls[c].phase.unit), r)
      && Alters(w, s.cluster, r, outcome, at)
    case Outside(x, doc, _, _) => x == at && (doc.Some? || at in s.cluster)
    case _ => false
  }

  predicate TouchedAt(w: World, s: State, steps: seq<Step>, i: nat, at: Coord)
    requires i < |steps|
  {
    Exec(w, s, steps[..i]).Some? && Touches(w, Exec(w, s, steps[..i]).value, steps[i], at)
  }

  /** None of these steps, taken from this state, touches the place. */
  predicate Undisturbed(w: World, s: State, steps: seq<Step>, at: Coord)
  {
    forall i: nat | i < |steps| :: !TouchedAt(w, s, steps, i, at)
  }

  /** Nothing is there, or something of a version this record has never seen. */
  predicate Replaced(history: map<string, (Coord, Json)>, now: Option<Json>)
  {
    now.Some? ==> W.Stored(now.value) && W.VersionOf(now.value) !in history
  }

  // ---- one step ----

  lemma RemovedPlaces(w: World, cluster: map<Coord, Json>, r: Request, outcome: Json, at: Coord)
    requires forall x | x in cluster :: W.Stored(cluster[x])
    ensures at in (set x | x in RemovedBy(w, cluster, r) :: x.at)
            <==> (r.Delete? || r.DeleteCollection?) && Alters(w, cluster, r, outcome, at)
  {
    if (r.Delete? || r.DeleteCollection?) && Alters(w, cluster, r, outcome, at) {
      assert Selected(at, W.VersionOf(cluster[at]), W.UidOf(cluster[at])) in RemovedBy(w, cluster, r);
    }
  }

  lemma StoredPlace(w: World, cluster: map<Coord, Json>, r: Request, version: string, uid: string, outcome: Json, at: Coord)
    requires version != "" && uid != "" && forall x | x in cluster :: W.Stored(cluster[x])
    ensures StoredBy(cluster, r, version, uid, outcome).Some? && r.at == at
            <==> (r.Update? || r.Patch? || r.Create?) && Alters(w, cluster, r, outcome, at)
  {
  }

  /** A place a request does not alter is as it was; one it alters is empty or holds the new version. */
  lemma EffectAt(w: World, s: State, r: Request, version: string, uid: string, outcome: Json, at: Coord)
    requires HistoryHolds(s) && Fresh(s, version, uid)
    ensures
      var now := Found(Effect(w, s, r, version, uid, outcome).cluster, at);
      if Alters(w, s.cluster, r, outcome, at) then Replaced(s.history, now) else now == Found(s.cluster, at)
  {
    var stored := StoredBy(s.cluster, r, version, uid, outcome);
    StoredPlace(w, s.cluster, r, version, uid, outcome, at);
    RemovedPlaces(w, s.cluster, r, outcome, at);
    if stored.Some? {
      PutAt(s, r.at, stored.value, at);
    }
  }

  lemma PutAt(s: State, place: Coord, doc: Json, at: Coord)
    requires W.Stored(doc) && W.VersionOf(doc) !in s.history
    ensures
      var now := Found(Put(s, place, doc).cluster, at);
      if at == place then Replaced(s.history, now) else now == Found(s.cluster, at)
  {
  }

  lemma SendAt(w: World, s: State, step: Step, at: Coord)
    requires HistoryHolds(s) && step.Send? && Next(w, s, step).Some?
    ensures
      var t := Next(w, s, step).value;
      && HistoryHolds(t) && HistoryGrows(s, t) && |t.calls| == |s.calls|
      && if Touches(w, s, step, at) then Replaced(s.history, Found(t.cluster, at)) else Found(t.cluster, at) == Found(s.cluster, at)
  {
    SendShape(w, s, step);
    EffectAt(w, s, step.request, step.version, step.uid, step.outcome, at);
    EffectHistory(w, s, step.request, step.version, step.uid, step.outcome);
  }

  lemma OutsideAt(w: World, s: State, step: Step, at: Coord)
    requires HistoryHolds(s) && step.Outside? && Next(w, s, step).Some?
    ensures
      var t := Next(w, s, step).value;
      if Touches(w, s, step, at) then Replaced(s.history, Found(t.cluster, at)) else Found(t.cluster, at) == Found(s.cluster, at)
  {
  }

  lemma AskingLeavesCluster(w: World, s: State, step: Step)
    requires (step.Arrive? || step.Look? || step.Describe? || step.Answer?) && Next(w, s, step).Some?
    ensures Next(w, s, step).value.cluster == s.cluster && Next(w, s, step).value.history == s.history
  {
  }

  lemma RunningLeavesCluster(w: World, s: State, step: Step)
    requires (step.Spend? || step.Reread? || step.Return? || step.End?) && Next(w, s, step).Some?
    ensures Next(w, s, step).value.cluster == s.cluster && Next(w, s, step).value.history == s.history
  {
  }

  lemma StepAt(w: World, s: State, step: Step, at: Coord)
    requires HistoryHolds(s) && Next(w, s, step).Some?
    ensures
      var t := Next(w, s, step).value;
      && HistoryHolds(t) && HistoryGrows(s, t)
      && if Touches(w, s, step, at) then Replaced(s.history, Found(t.cluster, at)) else Found(t.cluster, at) == Found(s.cluster, at)
  {
    if step.Send? {
      SendAt(w, s, step, at);
    } else if step.Outside? {
      OutsideAt(w, s, step, at);
      OutsideHistory(w, s, step);
    } else if step.Spend? || step.Reread? || step.Return? || step.End? {
      RunningLeavesCluster(w, s, step);
    } else {
      AskingLeavesCluster(w, s, step);
    }
  }

  // ---- runs ----

  lemma UndisturbedSplits(w: World, s: State, steps: seq<Step>, at: Coord)
    requires steps != []
    ensures
      var n := |steps| - 1;
      Undisturbed(w, s, steps, at) <==> Undisturbed(w, s, steps[..n], at) && !TouchedAt(w, s, steps, n, at)
  {
    var n := |steps| - 1;
    forall i: nat | i < n
      ensures TouchedAt(w, s, steps[..n], i, at) == TouchedAt(w, s, steps, i, at)
    {
      assert steps[..n][..i] == steps[..i];
    }
    if Undisturbed(w, s, steps, at) {
      forall i: nat | i < n
        ensures !TouchedAt(w, s, steps[..n], i, at)
      {
        assert !TouchedAt(w, s, steps, i, at);
      }
    }
  }

  /** Over any run a place that no step touches keeps its document, and one that is touched never gets it back. */
  lemma {:induction false} RunAt(w: World, s: State, steps: seq<Step>, at: Coord)
    requires HistoryHolds(s) && Exec(w, s, steps).Some?
    ensures
      var t := Exec(w, s, steps).value;
      && HistoryHolds(t) && HistoryGrows(s, t)
      && if Undisturbed(w, s, steps, at) then Found(t.cluster, at) == Found(s.cluster, at) else Replaced(s.history, Found(t.cluster, at))
  {
    if steps != [] {
      var n := |steps| - 1;
      RunAt(w, s, steps[..n], at);
      StepAt(w, Exec(w, s, steps[..n]).value, steps[n], at);
      UndisturbedSplits(w, s, steps, at);
    }
  }

  // ---- a call in its last run ----

  /** The call is in the handler of its last unit, or done. */
  predicate LastRun(call: Call)
  {
    match call.phase
    case Running(u) => u + 1 >= |call.pairs|
    case Finished => true
    case _ => false
  }

  /** Such a call stays what it is until it is done. */
  predicate RunsOn(s: State, t: State, c: nat)
  {
    c < |s.calls| <= |t.calls| && (t.calls[c] == s.calls[c] || t.calls[c].phase.Finished?)
  }

  lemma AskingRunsOn(w: World, s: State, step: Step, c: nat)
    requires (step.Arrive? || step.Look? || step.Describe? || step.Answer?) && Next(w, s, step).Some?
    requires c < |s.calls| && LastRun(s.calls[c])
    ensures RunsOn(s, Next(w, s, step).value, c) && s.log <= Next(w, s, step).value.log
  {
  }

  lemma RunningRunsOn(w: World, s: State, step: Step, c: nat)
    requires (step.Spend? || step.Reread? || step.Return? || step.End?) && Next(w, s, step).Some?
    requires c < |s.calls| && LastRun(s.calls[c])
    ensures RunsOn(s, Next(w, s, step).value, c) && s.log <= Next(w, s, step).value.log
  {
  }

  lemma StepRunsOn(w: World, s: State, step: Step, c: nat)
    requires HistoryHolds(s) && Next(w, s, step).Some? && c < |s.calls| && LastRun(s.calls[c])
    ensures RunsOn(s, Next(w, s, step).value, c) && s.log <= Next(w, s, step).value.log
  {
    if step.Send? {
      SendShape(w, s, step);
      EffectHistory(w, s, step.request, step.version, step.uid, step.outcome);
    } else if step.Outside? {
      OutsideHistory(w, s, step);
    } else if step.Spend? || step.Reread? || step.Return? || step.End? {
      RunningRunsOn(w, s, step, c);
    } else {
      AskingRunsOn(w, s, step, c);
    }
  }

  lemma {:induction false} RunRunsOn(w: World, s: State, steps: seq<Step>, c: nat)
    requires HistoryHolds(s) && Exec(w, s, steps).Some? && c < |s.calls| && LastRun(s.calls[c])
    ensures RunsOn(s, Exec(w, s, steps).value, c) && s.log <= Exec(w, s, steps).value.log
  {
    if steps != [] {
      var n := |steps| - 1;
      RunRunsOn(w, s, steps[..n], c);
      var mid := Exec(w, s, steps[..n]).value;
      RunHistory(w, s, steps[..n]);
      StepRunsOn(w, mid, steps[n], c);
    }
  }

  lemma RunHistory(w: World, s: State, steps: seq<Step>)
    requires HistoryHolds(s) && Exec(w, s, steps).Some?
    ensures HistoryHolds(Exec(w, s, steps).value)
  {
    RunAt(w, s, steps, Coord("", "", None, ""));
  }

  // ---- from the second reading to the request ----

  /** Call c has just read its target again and found it as shown: this is the state its handler starts in. */
  predicate JustConfirmed(w: World, s: State, c: nat, t: State)
  {
    Next(w, s, Reread(c)) == Some(t) && c < |s.calls| == |t.calls| && t.calls[c].phase.Running?
  }

  lemma ConfirmedShape(w: World, s: State, c: nat, t: State)
    requires Sound(s) && JustConfirmed(w, s, c, t)
    ensures s.calls[c].phase.Rereading? && s.calls[c].gated
    ensures ReadView(w, s.cluster, s.calls[c]).Some? && ConfirmedTo(s, t, c, ReadView(w, s.cluster, s.calls[c]).value)
  {
    RereadShape(w, s, c);
    assert CallOK(s.log, c, s.calls[c]);
  }

  /** The document shown to the operator is the one in the cluster when the handler starts. */
  lemma ShownIsThere(w: World, s: State, c: nat, t: State)
    requires Sound(s) && JustConfirmed(w, s, c, t) && s.calls[c].view.OneObject?
    ensures TargetCoord(s.calls[c].args).Some?
    ensures Found(t.cluster, TargetCoord(s.calls[c].args).value) == Some(s.calls[c].view.doc)
  {
    ConfirmedShape(w, s, c, t);
    assert CallOK(s.log, c, s.calls[c]);
    assert OnRecordEntry(s, s.log[s.calls[c].shownAt[s.calls[c].phase.unit]]);
    ReadOnRecord(w, s, c);
  }

  /** After the second reading of its target and then these steps, call c is still in its handler and about to send. */
  predicate SendsAfter(w: World, s: State, c: nat, t: State, steps: seq<Step>, before: State, version: string, uid: string)
  {
    && JustConfirmed(w, s, c, t) && Exec(w, t, steps) == Some(before)
    && c < |before.calls| && before.calls[c].phase.Running? && Fresh(before, version, uid)
  }

  /** What a call with a target has behind it when it is read again. */
  lemma RereadingCall(w: World, s: State, c: nat)
    requires Inv(w, s) && c < |s.calls| && s.calls[c].phase.Rereading? && !s.calls[c].tool.ResourceCreate?
    ensures
      var call := s.calls[c];
      && call.phase.unit == 0 && |call.pairs| == 1 && call.gated && !call.route.Batch?
      && (call.route.Selecting? <==> call.tool.ResourceDeleteCollection?)
      && TargetShown(call.tool, call.view) && CallPairs(Shipped(call.tool), w.env, call.args).Some?
      && |call.shownAt| == 1 && |call.grants| == 1 && call.shownAt[0] < |s.log|
      && s.log[call.shownAt[0]] == Shown(c, 0, call.pairs[0], call.view)
  {
    var call := s.calls[c];
    assert CallOK(s.log, c, call) && CallConfined(w, call);
    assert call.UnitArgs(0) == call.args;
    assert CallPairs(Shipped(call.tool), w.env, call.UnitArgs(0)) == Some([call.pairs[0]]);
    assert EntryConfined(w, s.calls, s.log[call.shownAt[0]]);
  }

  lemma ConfirmedLog(s: State, t: State, c: nat, now: View)
    requires ConfirmedTo(s, t, c, now)
    ensures s.log <= t.log && t.cluster == s.cluster && t.history == s.history && t.calls[c] == Confirming(s, c, now).calls[c]
  {
  }

  /** The request is let through, and its entry carries the evidence the handler started with. */
  lemma SentAfter(w: World, s: State, c: nat, t: State, steps: seq<Step>, before: State, r: Request, version: string, uid: string, outcome: Json)
    requires Inv(w, s) && SendsAfter(w, s, c, t, steps, before, version, uid) && !s.calls[c].tool.ResourceCreate?
    requires Permits(Shipped(s.calls[c].tool), w.env, s.calls[c].args, r)
    ensures HistoryHolds(t) && t.cluster == s.cluster
    ensures
      Next(w, before, Send(c, r, version, uid, outcome)) ==
      Some(Logged(Effect(w, before, r, version, uid, outcome), Reached(c, 0, r, EvidenceOf(t.calls[c], 0), ImpactOf(w, before, r, version, uid, outcome))))
    ensures
      var e := EvidenceOf(t.calls[c], 0);
      && e.Some? && e.value.shownAt < |before.log| && before.log[e.value.shownAt].Shown?
      && before.log[e.value.shownAt].view == s.calls[c].view
  {
    ConfirmedShape(w, s, c, t);
    RereadingCall(w, s, c);
    ConfirmedLog(s, t, c, ReadView(w, s.cluster, s.calls[c]).value);
    RunRunsOn(w, t, steps, c);
    SendLands(w, before, c, r, version, uid, outcome);
  }

  /** The step adds one entry, the request's. */
  predicate SentLast(before: State, end: Option<State>, r: Request)
  {
    && end.Some? && |end.value.log| == |before.log| + 1
    && end.value.log[|before.log|].Reached? && end.value.log[|before.log|].request == r
  }

  lemma SentWith(w: World, s: State, c: nat, t: State, steps: seq<Step>, before: State, r: Request, version: string, uid: string, outcome: Json)
    requires Inv(w, s) && SendsAfter(w, s, c, t, steps, before, version, uid) && !s.calls[c].tool.ResourceCreate?
    requires Permits(Shipped(s.calls[c].tool), w.env, s.calls[c].args, r)
    ensures HistoryHolds(t) && t.cluster == s.cluster
    ensures
      var end := Next(w, before, Send(c, r, version, uid, outcome));
      && SentLast(before, end, r) && end.value.cluster == Effect(w, before, r, version, uid, outcome).cluster
      && end.value.log[|before.log|].impact == ImpactOf(w, before, r, version, uid, outcome)
      && (s.calls[c].view.OneObject? ==> ShownDoc(end.value, |before.log|, s.calls[c].view.doc))
  {
    SentAfter(w, s, c, t, steps, before, r, version, uid, outcome);
    RunHistory(w, t, steps);
    EffectHistory(w, before, r, version, uid, outcome);
  }

  lemma SendLands(w: World, s: State, c: nat, r: Request, version: string, uid: string, outcome: Json)
    requires c < |s.calls| && s.calls[c].phase.Running? && Fresh(s, version, uid)
    requires Permits(Shipped(s.calls[c].tool), w.env, s.calls[c].UnitArgs(s.calls[c].phase.unit), r)
    ensures
      var u := s.calls[c].phase.unit;
      Next(w, s, Send(c, r, version, uid, outcome)) ==
      Some(Logged(Effect(w, s, r, version, uid, outcome), Reached(c, u, r, EvidenceOf(s.calls[c], u), ImpactOf(w, s, r, version, uid, outcome))))
  {
  }

  // ---- exactly when the request meets what was shown ----

  lemma DeleteIsBuilt(env: Env, args: Json)
    requires CallPairs(Shipped(ResourceDelete), env, args).Some?
    ensures DeleteRequest(args).Some? && Permits(Shipped(ResourceDelete), env, args, DeleteRequest(args).value)
  {
    assert DeleteRequest(args).Some?;
    DeleteInside(env, args);
  }

  /** A plain delete that is about to run: its request, and the document shown where the request goes. */
  lemma DeleteStarts(w: World, s: State, c: nat, t: State)
    requires Inv(w, s) && JustConfirmed(w, s, c, t) && s.calls[c].tool.ResourceDelete?
    ensures DeleteRequest(s.calls[c].args).Some? && s.calls[c].view.OneObject?
    ensures Permits(Shipped(ResourceDelete), w.env, s.calls[c].args, DeleteRequest(s.calls[c].args).value)
    ensures Found(t.cluster, DeleteRequest(s.calls[c].args).value.at) == Some(s.calls[c].view.doc)
  {
    ConfirmedShape(w, s, c, t);
    RereadingCall(w, s, c);
    DeleteIsBuilt(w.env, s.calls[c].args);
    ShownIsThere(w, s, c, t);
  }

  /**
   * Over every run: the handler of a plain delete removes the document the operator was shown if and only
   * if, since the second reading found it there, no step wrote or removed anything at its place. Nothing
   * else that happens meanwhile matters, and a document written back alike does not count as the one shown.
   */
  lemma DeleteRemovesTheShownExactly(w: World, s: State, c: nat, t: State, steps: seq<Step>, before: State,
                                     version: string, uid: string, outcome: Json)
    requires Reachable(w, s) && SendsAfter(w, s, c, t, steps, before, version, uid) && s.calls[c].tool.ResourceDelete?
    ensures DeleteRequest(s.calls[c].args).Some? && s.calls[c].view.OneObject?
    ensures
      var (r, shown) := (DeleteRequest(s.calls[c].args).value, s.calls[c].view.doc);
      var end := Next(w, before, Send(c, r, version, uid, outcome));
      && SentLast(before, end, r) && ShownDoc(end.value, |before.log|, shown)
      && (end.value.log[|before.log|].impact.over == Some(shown) <==> Undisturbed(w, t, steps, r.at))
      && r.at !in end.value.cluster
  {
    ReachableIsSound(w, s);
    DeleteStarts(w, s, c, t);
    var r := DeleteRequest(s.calls[c].args).value;
    SentWith(w, s, c, t, steps, before, r, version, uid, outcome);
    MeetsExactly(w, t, steps, before, r.at, s.calls[c].view.doc);
    DeleteImpact(w, before, r.at, version, uid, outcome);
  }

  lemma MeetsExactly(w: World, t: State, steps: seq<Step>, before: State, at: Coord, shown: Json)
    requires HistoryHolds(t) && Exec(w, t, steps) == Some(before) && Found(t.cluster, at) == Some(shown)
    ensures HistoryHolds(before) && HistoryGrows(t, before)
    ensures Found(before.cluster, at) == Some(shown) <==> Undisturbed(w, t, steps, at)
    ensures !Undisturbed(w, t, steps, at) ==> Replaced(t.history, Found(before.cluster, at))
  {
    RunAt(w, t, steps, at);
  }

  lemma DeleteImpact(w: World, s: State, at: Coord, version: string, uid: string, outcome: Json)
    requires HistoryHolds(s) && Fresh(s, version, uid)
    ensures ImpactOf(w, s, Delete(at), version, uid, outcome).over == Found(s.cluster, at)
    ensures at !in Effect(w, s, Delete(at), version, uid, outcome).cluster
  {
    EffectAt(w, s, Delete(at), version, uid, outcome, at);
    RemovedPlaces(w, s.cluster, Delete(at), outcome, at);
  }

  /**
   * Over every run: an update or patch its handler built from the document shown takes effect if and only
   * if no step touched its place since the second reading and the write goes through on that document; then
   * it takes effect over it, and otherwise over nothing.
   */
  lemma WriteTakesEffectExactly(w: World, s: State, c: nat, t: State, steps: seq<Step>, before: State, r: Request,
                                version: string, uid: string, outcome: Json)
    requires Reachable(w, s) && SendsAfter(w, s, c, t, steps, before, version, uid) && s.calls[c].view.OneObject?
    requires HandlerWrite(w.env, s.calls[c].tool, s.calls[c].args, s.calls[c].view.doc) == Some(r) && (r.Update? || r.Patch?)
    requires Permits(Shipped(s.calls[c].tool), w.env, s.calls[c].args, r)
    ensures
      var shown := s.calls[c].view.doc;
      var end := Next(w, before, Send(c, r, version, uid, outcome));
      && SentLast(before, end, r) && ShownDoc(end.value, |before.log|, shown)
      && end.value.log[|before.log|].impact.over ==
           if Undisturbed(w, t, steps, r.at) && Written(r, shown, outcome).Some? then Some(shown) else None
  {
    ReachableIsSound(w, s);
    var call := s.calls[c];
    ConfirmedShape(w, s, c, t);
    SentWith(w, s, c, t, steps, before, r, version, uid, outcome);
    ShownIsThere(w, s, c, t);
    HandlerNamesShownVersion(w.env, call.tool, call.args, call.view.doc);
    MeetsExactly(w, t, steps, before, r.at, call.view.doc);
    WriteImpact(w, t, before, r, call.view.doc, version, uid, outcome);
  }

  /** A conditional write meets the document whose version it names, or nothing. */
  lemma WriteImpact(w: World, t: State, s: State, r: Request, shown: Json, version: string, uid: string, outcome: Json)
    requires (r.Update? || r.Patch?) && HistoryHolds(s) && OnRecord(t.history, r.at, shown) && Fresh(s, version, uid)
    requires W.VersionOf(shown) == if r.Update? then r.approvedVersion else r.ref.approvedVersion
    requires Found(s.cluster, r.at) == Some(shown) || Replaced(t.history, Found(s.cluster, r.at))
    ensures ImpactOf(w, s, r, version, uid, outcome).over ==
              if Found(s.cluster, r.at) == Some(shown) && Written(r, shown, outcome).Some? then Some(shown) else None
  {
    if r.at in s.cluster && Written(r, s.cluster[r.at], outcome).Some? {
      WrittenOverNamedVersion(r, s.cluster[r.at], outcome);
    }
  }

  // ---- the same of a selection ----

  predicate Stands(objects: set<Selected>, at: Coord)
  {
    exists o :: o in objects && o.at == at
  }

  lemma SelectedIs(w: World, cluster: map<Coord, Json>, apiVersion: string, kind: string, sel: Selection, o: Selected)
    ensures o in SelectedObjects(w, cluster, apiVersion, kind, sel) <==>
      && Selects(w, cluster, apiVersion, kind, sel, o.at)
      && o.version == W.VersionOf(cluster[o.at]) && o.uid == W.UidOf(cluster[o.at])
  {
  }

  lemma CollectionIsBuilt(env: Env, args: Json)
    requires CallPairs(Shipped(ResourceDeleteCollection), env, args).Some?
    ensures DeleteCollectionRequest(args).Some?
    ensures Permits(Shipped(ResourceDeleteCollection), env, args, DeleteCollectionRequest(args).value)
    ensures DeleteCollectionRequest(args).value.apiVersion == StringOrEmpty(args.members, "apiVersion")
    ensures DeleteCollectionRequest(args).value.kind == StringOrEmpty(args.members, "kind")
    ensures Some(DeleteCollectionRequest(args).value.selection) == ParseDeleteCollectionTarget(args.members)
  {
    assert DeleteCollectionRequest(args).Some?;
    DeleteCollectionInside(env, args);
  }

  /** The selection shown to the operator is the one in the cluster when the handler starts. */
  lemma ShownSelectionIsThere(w: World, s: State, c: nat, t: State, r: Request)
    requires Inv(w, s) && JustConfirmed(w, s, c, t) && s.calls[c].tool.ResourceDeleteCollection?
    requires Some(r) == DeleteCollectionRequest(s.calls[c].args) && t.cluster == s.cluster
    ensures s.calls[c].view.Collection?
    ensures s.calls[c].view.objects == SelectedObjects(w, t.cluster, r.apiVersion, r.kind, r.selection)
  {
    ConfirmedShape(w, s, c, t);
    RereadingCall(w, s, c);
  }

  /** One object: selected before and after alike if its place was left alone, and in at most one of the two if not. */
  lemma SelectedThroughout(w: World, t: State, steps: seq<Step>, before: State, apiVersion: string, kind: string, sel: Selection, o: Selected)
    requires HistoryHolds(t) && Exec(w, t, steps) == Some(before)
    ensures
      var was := o in SelectedObjects(w, t.cluster, apiVersion, kind, sel);
      var still := o in SelectedObjects(w, before.cluster, apiVersion, kind, sel);
      && (Undisturbed(w, t, steps, o.at) ==> was == still)
      && (!Undisturbed(w, t, steps, o.at) ==> !(was && still))
  {
    RunAt(w, t, steps, o.at);
    SelectedIs(w, t.cluster, apiVersion, kind, sel, o);
    SelectedIs(w, before.cluster, apiVersion, kind, sel, o);
  }

  /** What a collection delete removes, against what was shown: they differ at places touched in between, and nowhere else. */
  ghost predicate RemovesAtUntouched(w: World, t: State, steps: seq<Step>, shown: set<Selected>, removed: set<Selected>)
  {
    && (forall o | o in shown :: o in removed <==> Undisturbed(w, t, steps, o.at))
    && (forall o | o in removed :: o in shown <==> Undisturbed(w, t, steps, o.at))
  }

  lemma SelectionsCompared(w: World, t: State, steps: seq<Step>, before: State, apiVersion: string, kind: string, sel: Selection)
    requires HistoryHolds(t) && Exec(w, t, steps) == Some(before)
    ensures RemovesAtUntouched(w, t, steps, SelectedObjects(w, t.cluster, apiVersion, kind, sel),
                               SelectedObjects(w, before.cluster, apiVersion, kind, sel))
  {
    forall o: Selected
      ensures
        var was := o in SelectedObjects(w, t.cluster, apiVersion, kind, sel);
        var still := o in SelectedObjects(w, before.cluster, apiVersion, kind, sel);
        && (Undisturbed(w, t, steps, o.at) ==> was == still)
        && (!Undisturbed(w, t, steps, o.at) ==> !(was && still))
    {
      SelectedThroughout(w, t, steps, before, apiVersion, kind, sel, o);
    }
  }

  /** Nothing that was shown and nothing that was removed stood at a place that was touched. */
  ghost predicate TouchedElsewhere(w: World, t: State, steps: seq<Step>, shown: set<Selected>, removed: set<Selected>)
  {
    forall at: Coord :: Stands(shown, at) || Stands(removed, at) ==> Undisturbed(w, t, steps, at)
  }

  lemma SameExactly(w: World, t: State, steps: seq<Step>, shown: set<Selected>, removed: set<Selected>)
    requires RemovesAtUntouched(w, t, steps, shown, removed)
    ensures removed == shown <==> TouchedElsewhere(w, t, steps, shown, removed)
  {
    if TouchedElsewhere(w, t, steps, shown, removed) {
      forall o: Selected
        ensures o in shown <==> o in removed
      {
        if o in shown { assert Stands(shown, o.at); }
        if o in removed { assert Stands(removed, o.at); }
      }
    }
  }

  /**
   * Over every run: of the objects shown, the handler of a collection delete removes exactly those at whose
   * places no step wrote or removed anything since the second reading; whatever else it removes was written
   * since. So it removes the selection shown if and only if nothing shown and nothing removed stood at a
   * place that was touched.
   */
  lemma CollectionRemovesTheShownExactly(w: World, s: State, c: nat, t: State, steps: seq<Step>, before: State,
                                         version: string, uid: string, outcome: Json)
    requires Reachable(w, s) && SendsAfter(w, s, c, t, steps, before, version, uid) && s.calls[c].tool.ResourceDeleteCollection?
    ensures DeleteCollectionRequest(s.calls[c].args).Some? && s.calls[c].view.Collection?
    ensures
      var (r, shown) := (DeleteCollectionRequest(s.calls[c].args).value, s.calls[c].view.objects);
      var end := Next(w, before, Send(c, r, version, uid, outcome));
      && SentLast(before, end, r)
      && RemovesAtUntouched(w, t, steps, shown, end.value.log[|before.log|].impact.removed)
      && (end.value.log[|before.log|].impact.removed == shown
          <==> TouchedElsewhere(w, t, steps, shown, end.value.log[|before.log|].impact.removed))
  {
    ReachableIsSound(w, s);
    ConfirmedShape(w, s, c, t);
    RereadingCall(w, s, c);
    CollectionIsBuilt(w.env, s.calls[c].args);
    var r := DeleteCollectionRequest(s.calls[c].args).value;
    SentWith(w, s, c, t, steps, before, r, version, uid, outcome);
    ShownSelectionIsThere(w, s, c, t, r);
    SelectionsCompared(w, t, steps, before, r.apiVersion, r.kind, r.selection);
    SameExactly(w, t, steps, s.calls[c].view.objects, SelectedObjects(w, before.cluster, r.apiVersion, r.kind, r.selection));
  }
}
