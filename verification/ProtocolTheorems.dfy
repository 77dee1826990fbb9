/** The guarantees of the approval protocol, over every run from every initial state. */
module ProtocolTheorems {
  import opened Results
  import opened Json
  import opened ApprovalGate
  import opened Declarations
  import opened Protocol
  import opened ProtocolInvariant
  import opened ProtocolSafety
  import opened Handlers
  import JsonPatch
  import Text
  import W = WriteConditions

  /** A state that some run leads to, from some cluster and no call. */
  ghost predicate Reachable(w: World, s: State)
  {
    exists before, steps :: ReachedBy(w, s, before, steps)
  }

  predicate ReachedBy(w: World, s: State, before: State, steps: seq<Step>)
  {
    Initial(before) && Exec(w, before, steps) == Some(s)
  }

  lemma ReachableIsSound(w: World, s: State)
    requires Reachable(w, s)
    ensures Inv(w, s)
  {
    var before, steps :| ReachedBy(w, s, before, steps);
    RunKeeps(w, before, steps);
  }

  /** Some pair the request needs is one an operator must approve. */
  predicate NeedsGate(w: World, r: Request)
  {
    RequestPairs(w.env, r).Some? && exists p | p in RequestPairs(w.env, r).value :: NeedsApproval(p, w.sensitiveKinds)
  }

  lemma {:induction false} NeedingNone(pairs: seq<Pair>, sensitiveKinds: seq<string>)
    requires Needing(pairs, sensitiveKinds) == []
    ensures forall p | p in pairs :: !NeedsApproval(p, sensitiveKinds)
  {
    if pairs != [] {
      NeedingNone(pairs[1..], sensitiveKinds);
      assert pairs == [pairs[0]] + pairs[1..];
    }
  }

  /** What a call with no gated pair may reach needs no approval. */
  lemma UngatedReachesNothingGated(w: World, tool: Tool, args: Json, r: Request)
    requires GatedPairs(Shipped(tool), w.env, w.sensitiveKinds, args) == Some([])
    requires Permits(Shipped(tool), w.env, args, r) && !tool.DearBabyResetUser?
    ensures !NeedsGate(w, r)
  {
    var pairs := CallPairs(Shipped(tool), w.env, args).value;
    if !(Shipped(tool).Resolved? && Shipped(tool).alwaysGated) {
      NeedingNone(pairs, w.sensitiveKinds);
    }
  }

  lemma UnitOfUngated(s: State, c: nat, u: nat)
    requires Sound(s) && c < |s.calls| && !s.calls[c].gated
    ensures s.calls[c].UnitArgs(u) == s.calls[c].args
  {
    assert CallOK(s.log, c, s.calls[c]);
  }

  /** The evidence entry k gives: shown, granted and spent in this order for this call and unit, and confirmed if it has a target. */
  predicate Evidenced(s: State, k: nat, c: nat, u: nat, e: Evidence, pair: Pair)
  {
    && k < |s.log| && c < |s.calls|
    && e.shownAt < e.grantedAt < e.spentAt < k
    && s.log[e.shownAt].Shown? && s.log[e.shownAt].call == c && s.log[e.shownAt].unit == u && s.log[e.shownAt].pair == pair
    && TargetShown(s.calls[c].tool, s.log[e.shownAt].view)
    && s.log[e.grantedAt] == GrantedTo(c, u, e.decision)
    && s.log[e.spentAt] == SpentBy(c, u, e.decision)
    && (!s.log[e.shownAt].view.NoTarget? ==>
          && e.spentAt < e.confirmedAt < k
          && s.log[e.confirmedAt].Confirmed? && s.log[e.confirmedAt].call == c && s.log[e.confirmedAt].unit == u
          && SameView(s.log[e.shownAt].view, s.log[e.confirmedAt].view))
  }

  /** The gate would ask about this unit of the call: it has a pair that needs approval, or its tool asks for all of them. */
  predicate CallNeedsGate(w: World, call: Call, u: nat)
  {
    var gated := GatedPairs(Shipped(call.tool), w.env, w.sensitiveKinds, call.UnitArgs(u));
    gated.Some? && gated.value != []
  }

  /** Entry k must be approved: for what it requests, or for the call it comes from. */
  predicate MustBeApproved(w: World, s: State, k: nat)
    requires k < |s.log| && s.log[k].Reached?
  {
    NeedsGate(w, s.log[k].request) || (s.log[k].call < |s.calls| && CallNeedsGate(w, s.calls[s.log[k].call], s.log[k].unit))
  }

  /**
   * Over every run, with calls, answers of the gate and changes from outside in any order, and handlers
   * that send what they like: a request that needs approval, or that comes from a call the gate asks about
   * whatever it requests, reaches the kubernetes service only from a call that was shown, granted and has
   * spent a decision for exactly the pair the request needs, and whose target, if its tool declares one, was
   * read again after spending and found in the version and incarnation shown. The one exception is the tool
   * held outside the gate.
   */
  lemma NoGatedRequestWithoutApproval(w: World, s: State, k: nat)
    requires Reachable(w, s) && k < |s.log| && s.log[k].Reached? && MustBeApproved(w, s, k)
    ensures
      var (c, u, r, evidence) := (s.log[k].call, s.log[k].unit, s.log[k].request, s.log[k].evidence);
      && c < |s.calls|
      && (!s.calls[c].tool.DearBabyResetUser? ==>
            && evidence.Some? && u < |s.calls[c].pairs|
            && RequestPairs(w.env, r).Some? && (forall p | p in RequestPairs(w.env, r).value :: p == s.calls[c].pairs[u])
            && Evidenced(s, k, c, u, evidence.value, s.calls[c].pairs[u])
            && (forall j: nat | j < |s.calls[c].pairs| :: WasGranted(s.log, k, c, j)))
  {
    ReachableIsSound(w, s);
    var c, u := s.log[k].call, s.log[k].unit;
    assert EntryOK(s.log, k, s.calls) && EntryConfined(w, s.calls, s.log[k]);
    if !s.calls[c].tool.DearBabyResetUser? {
      if s.calls[c].gated {
        GatedRequestHasPairs(w, s, k);
        ApprovedPairOnly(w, s, k);
        assert EntryConfined(w, s.calls, s.log[s.log[k].evidence.value.shownAt]);
      } else {
        UnitOfUngated(s, c, u);
        UngatedReachesNothingGated(w, s.calls[c].tool, s.calls[c].args, s.log[k].request);
        assert false;
      }
    }
  }

  /** The one request without pairs, discovery, is no gated call's. */
  lemma GatedRequestHasPairs(w: World, s: State, k: nat)
    requires Inv(w, s) && k < |s.log| && s.log[k].Reached?
    requires s.log[k].call < |s.calls| && s.log[k].unit < |s.calls[s.log[k].call].pairs|
    ensures RequestPairs(w.env, s.log[k].request).Some?
  {
    var call := s.calls[s.log[k].call];
    assert EntryConfined(w, s.calls, s.log[k]) && CallConfined(w, call);
    assert CallPairs(Shipped(call.tool), w.env, call.UnitArgs(s.log[k].unit)) == Some([call.pairs[s.log[k].unit]]);
  }

  /** A proxied call is gated for its method's verb, whichever it is. */
  lemma ProxyNeedsGate(w: World, call: Call, u: nat)
    requires Bound(w, call) && Shape(call) && call.tool.ResourceProxy? && u < |call.pairs|
    ensures CallNeedsGate(w, call, u)
    ensures call.args.Obj? && Some(call.pairs[u].verb) == ProxyVerb(StringOrEmpty(call.args.members, "method"))
  {
    assert CallPairs(Shipped(ResourceProxy), w.env, call.UnitArgs(u)) == Some([call.pairs[u]]);
    assert call.UnitArgs(u) == call.args;
    assert [call.pairs[u]][0] == call.pairs[u];
  }

  /** A proxied call cannot be outside the gate. */
  lemma ProxyIsGated(w: World, s: State, k: nat)
    requires Inv(w, s) && k < |s.log| && s.log[k].Reached?
    requires s.log[k].call < |s.calls| && s.calls[s.log[k].call].tool.ResourceProxy?
    ensures s.calls[s.log[k].call].gated && s.log[k].unit < |s.calls[s.log[k].call].pairs|
  {
    var call := s.calls[s.log[k].call];
    assert EntryOK(s.log, k, s.calls) && EntryConfined(w, s.calls, s.log[k]);
    if !call.gated {
      ResolvedPairs(ResourceProxy, w.env, call.args);
      assert false;
    }
  }

  lemma OnePairOnly(env: Env, r: Request, p: Pair)
    requires RequestPairs(env, r).Some? && forall q | q in RequestPairs(env, r).value :: q == p
    ensures RequestPairs(env, r) == Some([p])
  {
    var pairs := RequestPairs(env, r).value;
    assert pairs[0] in pairs && pairs[|pairs| - 1] in pairs;
  }

  /** Whatever is sent through the apiserver's proxy, a GET like any other method, an operator approved that very pair. */
  lemma NothingIsProxiedWithoutApproval(w: World, s: State, k: nat)
    requires Reachable(w, s) && k < |s.log| && s.log[k].Reached?
    requires s.log[k].call < |s.calls| && s.calls[s.log[k].call].tool.ResourceProxy?
    ensures
      var (c, u, evidence) := (s.log[k].call, s.log[k].unit, s.log[k].evidence);
      && evidence.Some? && u < |s.calls[c].pairs|
      && RequestPairs(w.env, s.log[k].request) == Some([s.calls[c].pairs[u]])
      && s.calls[c].args.Obj? && Some(s.calls[c].pairs[u].verb) == ProxyVerb(StringOrEmpty(s.calls[c].args.members, "method"))
      && Evidenced(s, k, c, u, evidence.value, s.calls[c].pairs[u])
  {
    ReachableIsSound(w, s);
    var c, u := s.log[k].call, s.log[k].unit;
    assert CallConfined(w, s.calls[c]) && CallOK(s.log, c, s.calls[c]);
    ProxyIsGated(w, s, k);
    ProxyNeedsGate(w, s.calls[c], u);
    assert MustBeApproved(w, s, k);
    NoGatedRequestWithoutApproval(w, s, k);
    OnePairOnly(w.env, s.log[k].request, s.calls[c].pairs[u]);
  }

  /** A gated call's client answers for the approved pair and no other. */
  lemma ApprovedPairOnly(w: World, s: State, k: nat)
    requires Inv(w, s) && k < |s.log| && s.log[k].Reached?
    requires s.log[k].call < |s.calls| && s.log[k].unit < |s.calls[s.log[k].call].pairs|
    requires RequestPairs(w.env, s.log[k].request).Some?
    ensures forall p | p in RequestPairs(w.env, s.log[k].request).value :: p == s.calls[s.log[k].call].pairs[s.log[k].unit]
  {
    var call := s.calls[s.log[k].call];
    assert EntryConfined(w, s.calls, s.log[k]) && CallConfined(w, call);
    assert CallPairs(Shipped(call.tool), w.env, call.UnitArgs(s.log[k].unit)) == Some([call.pairs[s.log[k].unit]]);
  }

  /** No decision backs two handler runs, and no unit of any call runs twice. */
  lemma OneDecisionOneRun(w: World, s: State, i: nat, j: nat)
    requires Reachable(w, s) && i < j < |s.log| && s.log[i].Invoked? && s.log[j].Invoked?
    ensures (s.log[i].call, s.log[i].unit) != (s.log[j].call, s.log[j].unit)
    ensures s.log[i].evidence.Some? && s.log[j].evidence.Some? ==> s.log[i].evidence.value.decision != s.log[j].evidence.value.decision
  {
    ReachableIsSound(w, s);
    assert EntryOK(s.log, i, s.calls) && EntryOK(s.log, j, s.calls);
    SameDecisionSameUnit(s, i, j);
  }

  lemma SpentOnceOnly(s: State, x: nat, y: nat)
    requires SpentOnce(s) && x < |s.log| && y < |s.log| && s.log[x].SpentBy? && s.log[y].SpentBy?
    requires s.log[x].decision == s.log[y].decision
    ensures x == y
  {
  }

  /** Two entries backed by one decision belong to one unit of one call. */
  lemma SameDecisionSameUnit(s: State, i: nat, j: nat)
    requires Sound(s) && i < |s.log| && j < |s.log|
    requires (s.log[i].Invoked? || s.log[i].Reached?) && (s.log[j].Invoked? || s.log[j].Reached?)
    ensures s.log[i].evidence.Some? && s.log[j].evidence.Some? && s.log[i].evidence.value.decision == s.log[j].evidence.value.decision ==>
              s.log[i].call == s.log[j].call && s.log[i].unit == s.log[j].unit
  {
    assert EntryOK(s.log, i, s.calls) && EntryOK(s.log, j, s.calls);
    if s.log[i].evidence.Some? && s.log[j].evidence.Some? {
      var a, b := s.log[i].evidence.value, s.log[j].evidence.value;
      if a.decision == b.decision { SpentOnceOnly(s, a.spentAt, b.spentAt); }
    }
  }

  /** Whatever two requests share a decision, they come from the one run it paid for. */
  lemma OneDecisionOneUnit(w: World, s: State, i: nat, j: nat)
    requires Reachable(w, s) && i < |s.log| && j < |s.log| && s.log[i].Reached? && s.log[j].Reached?
    requires s.log[i].evidence.Some? && s.log[j].evidence.Some? && s.log[i].evidence.value.decision == s.log[j].evidence.value.decision
    ensures s.log[i].call == s.log[j].call && s.log[i].unit == s.log[j].unit
  {
    ReachableIsSound(w, s);
    SameDecisionSameUnit(s, i, j);
  }

  // ---- what an approved write is written over ----

  /** A conditional write goes through only over the version it names. */
  lemma WrittenOverNamedVersion(r: Request, doc: Json, outcome: Json)
    requires (r.Update? || r.Patch?) && W.Stored(doc) && Written(r, doc, outcome).Some?
    ensures W.VersionOf(doc) == if r.Update? then r.approvedVersion else r.ref.approvedVersion
  {
    if r.Update? {
      W.UpdateHitsApprovedVersionOnly(r.manifest, r.approvedVersion, doc);
    } else if r.ref.patchType.JsonOps? || r.ref.patchType.Merge? {
      W.PatchHitsApprovedStateOnly(r.ref, doc);
    } else {
      W.PinnedBody(r.ref);
      assert W.MetadataOf(W.Guarded(r.ref).value)["resourceVersion"] == Str(r.ref.approvedVersion);
    }
  }

  /**
   * What a call asks for, worked out on the document shown with none of the conditions that travel with the
   * write; None for the two patch types only the apiserver can work out.
   */
  function AskedFor(tool: Tool, args: Json, shown: Json): Option<Json>
  {
    if !args.Obj? then None
    else
      var m := args.members;
      match tool
      case ResourceUpdate =>
        (match ParseUpdateTarget(m)
         case None => None
         case Some((sub, replicas)) =>
           if sub == "" then Member(m, "manifest")
           else Some(JsonPatch.MergePatch(Some(shown), Obj(map["spec" := Obj(map["replicas" := Num(Text.Decimal(replicas))])]))))
      case ResourcePatch =>
        if "patch" !in m then None
        else if StringOrEmpty(m, "patchType") == "merge" then Some(JsonPatch.MergePatch(Some(shown), m["patch"]))
        else if StringOrEmpty(m, "patchType") == "json" && m["patch"].Arr? then JsonPatch.ApplyOps(m["patch"].items, shown)
        else None
      case _ => None
  }

  predicate ApiserverDecides(tool: Tool, args: Json)
  {
    tool.ResourcePatch? && args.Obj? && StringOrEmpty(args.members, "patchType") in {"strategic", "apply"}
  }

  /** Under the same new version, the conditional write leaves what the call asked for. */
  ghost predicate LeavesAsked(tool: Tool, args: Json, shown: Json, written: Json)
  {
    if AskedFor(tool, args, shown).Some?
    then forall version, uid :: Stamp(written, version, uid) == Stamp(AskedFor(tool, args, shown).value, version, uid)
    else ApiserverDecides(tool, args)
  }

  lemma WrittenAsAsked(env: Env, tool: Tool, args: Json, shown: Json, outcome: Json)
    requires HandlerWrite(env, tool, args, shown).Some?
    requires HandlerWrite(env, tool, args, shown).value.Update? || HandlerWrite(env, tool, args, shown).value.Patch?
    requires Written(HandlerWrite(env, tool, args, shown).value, shown, outcome).Some?
    ensures LeavesAsked(tool, args, shown, Written(HandlerWrite(env, tool, args, shown).value, shown, outcome).value)
  {
    if tool.ResourceUpdate? {
      UpdatedAsAsked(args, shown, outcome);
    } else {
      PatchedAsAsked(args, shown, outcome);
    }
  }

  lemma UpdatedAsAsked(args: Json, shown: Json, outcome: Json)
    requires UpdateRequest(args, shown).Some? && Written(UpdateRequest(args, shown).value, shown, outcome).Some?
    ensures LeavesAsked(ResourceUpdate, args, shown, Written(UpdateRequest(args, shown).value, shown, outcome).value)
  {
    var r := UpdateRequest(args, shown).value;
    var body := W.VersionedManifest(r.manifest, r.approvedVersion).value;
    if r.subresource == "" {
      forall version, uid
        ensures Stamp(body, version, uid) == Stamp(r.manifest, version, uid)
      {
        StampHidesVersion(r.manifest, r.approvedVersion, version, uid);
      }
    } else {
      assert body.members["spec"] == r.manifest.members["spec"];
    }
  }

  /** The version a manifest is sent under is not seen in what is stored: a new one takes its place. */
  lemma StampHidesVersion(manifest: Json, approvedVersion: string, version: string, uid: string)
    requires W.VersionedManifest(manifest, approvedVersion).Ok?
    ensures Stamp(W.VersionedManifest(manifest, approvedVersion).value, version, uid) == Stamp(manifest, version, uid)
  {
    var sent := W.VersionedManifest(manifest, approvedVersion).value;
    var m := manifest.members["metadata"].members;
    assert m["resourceVersion" := Str(approvedVersion)]["resourceVersion" := Str(version)] == m["resourceVersion" := Str(version)];
    assert W.MetadataOf(sent)["resourceVersion" := Str(version)] == W.MetadataOf(manifest)["resourceVersion" := Str(version)];
    var metadata := Obj(m["resourceVersion" := Str(version)]["uid" := Str(uid)]);
    assert sent.members["metadata" := metadata] == manifest.members["metadata" := metadata];
  }

  lemma PatchedAsAsked(args: Json, shown: Json, outcome: Json)
    requires PatchRequest(args, shown).Some? && Written(PatchRequest(args, shown).value, shown, outcome).Some?
    ensures LeavesAsked(ResourcePatch, args, shown, Written(PatchRequest(args, shown).value, shown, outcome).value)
  {
    var ref := PatchRequest(args, shown).value.ref;
    if ref.patchType.JsonOps? || ref.patchType.Merge? {
      W.PatchHitsApprovedStateOnly(ref, shown);
    }
  }

  /** A scale write changes one number: every other member, in the spec and outside, is as shown. */
  lemma ScaleChangesReplicasOnly(shown: Members, replicas: nat, key: string)
    ensures
      var spec: Members := map["replicas" := Num(Text.Decimal(replicas))];
      var r := JsonPatch.MergePatch(Some(Obj(shown)), Obj(map["spec" := Obj(spec)]));
      && r.Obj? && "spec" in r.members && r.members["spec"].Obj?
      && (key != "spec" ==> Member(r.members, key) == Member(shown, key))
      && (key != "replicas" ==> Member(r.members["spec"].members, key) == Member(JsonPatch.BaseMembers(Member(shown, "spec")), key))
      && Member(r.members["spec"].members, "replicas") == Some(Num(Text.Decimal(replicas)))
  {
    var spec: Members := map["replicas" := Num(Text.Decimal(replicas))];
    JsonPatch.MergeMember(Some(Obj(shown)), map["spec" := Obj(spec)], "spec");
    JsonPatch.MergeMember(Some(Obj(shown)), map["spec" := Obj(spec)], key);
    JsonPatch.MergeMember(Member(shown, "spec"), spec, key);
    JsonPatch.MergeMember(Member(shown, "spec"), spec, "replicas");
  }

  /** The document an entry's evidence shows the operator looked at. */
  predicate ShownDoc(s: State, k: nat, doc: Json)
  {
    && k < |s.log| && (s.log[k].Reached? || s.log[k].Invoked?) && s.log[k].evidence.Some?
    && s.log[k].evidence.value.shownAt < |s.log|
    && s.log[s.log[k].evidence.value.shownAt].Shown?
    && s.log[s.log[k].evidence.value.shownAt].view == OneObject(doc)
  }

  /**
   * Over every run: an update or patch built by its handler from the approved state, if it takes effect at
   * all, takes effect over exactly the document the operator was shown, at the place the call addresses,
   * whoever wrote in between; and what it stores is what the call asked for on that document, under a new
   * version and the same uid. Of a strategic merge and a server-side apply only the identity is known.
   */
  lemma WritesHitTheShownDocument(w: World, s: State, k: nat, shown: Json)
    requires Reachable(w, s) && ShownDoc(s, k, shown)
    requires s.log[k].Reached? && s.log[k].impact.over.Some? && (s.log[k].request.Update? || s.log[k].request.Patch?)
    requires s.log[k].call < |s.calls|
    requires HandlerWrite(w.env, s.calls[s.log[k].call].tool, s.calls[s.log[k].call].args, shown) == Some(s.log[k].request)
    ensures s.log[k].impact.over.value == shown
    ensures Some(s.log[k].request.at) == TargetCoord(s.calls[s.log[k].call].args)
    ensures
      var (call, stored) := (s.calls[s.log[k].call], s.log[k].impact.stored);
      && W.Stored(shown) && stored.Some? && W.Stored(stored.value) && W.UidOf(stored.value) == W.UidOf(shown)
      && if AskedFor(call.tool, call.args, shown).Some?
         then stored.value == Stamp(AskedFor(call.tool, call.args, shown).value, W.VersionOf(stored.value), W.UidOf(shown))
         else ApiserverDecides(call.tool, call.args)
  {
    ReachableIsSound(w, s);
    var r, i, call := s.log[k].request, s.log[k].impact, s.calls[s.log[k].call];
    RecordedShown(s, k, shown);
    assert OnRecordEntry(s, s.log[k]);
    assert TookEffect(r, i);
    var outcome :| StoredFor(r, i, outcome);
    HandlerNamesShownVersion(w.env, call.tool, call.args, shown);
    WrittenOverNamedVersion(r, i.over.value, outcome);
    StoredAsAsked(w.env, call.tool, call.args, shown, i, outcome);
  }

  lemma StoredAsAsked(env: Env, tool: Tool, args: Json, shown: Json, i: Impact, outcome: Json)
    requires HandlerWrite(env, tool, args, shown).Some? && i.over == Some(shown)
    requires HandlerWrite(env, tool, args, shown).value.Update? || HandlerWrite(env, tool, args, shown).value.Patch?
    requires StoredFor(HandlerWrite(env, tool, args, shown).value, i, outcome)
    ensures i.stored.Some? && W.Stored(shown) && W.Stored(i.stored.value) && W.UidOf(i.stored.value) == W.UidOf(shown)
    ensures
      if AskedFor(tool, args, shown).Some?
      then i.stored.value == Stamp(AskedFor(tool, args, shown).value, W.VersionOf(i.stored.value), W.UidOf(shown))
      else ApiserverDecides(tool, args)
  {
    WrittenAsAsked(env, tool, args, shown, outcome);
  }

  lemma RecordedShown(s: State, k: nat, shown: Json)
    requires Sound(s) && ShownDoc(s, k, shown) && s.log[k].call < |s.calls|
    ensures TargetCoord(s.calls[s.log[k].call].args).Some?
    ensures OnRecord(s.history, TargetCoord(s.calls[s.log[k].call].args).value, shown)
  {
    assert EntryOK(s.log, k, s.calls);
    assert OnRecordEntry(s, s.log[s.log[k].evidence.value.shownAt]);
    assert CallOK(s.log, s.log[k].call, s.calls[s.log[k].call]);
  }

  lemma HandlerNamesShownVersion(env: Env, tool: Tool, args: Json, shown: Json)
    requires HandlerWrite(env, tool, args, shown).Some?
    requires HandlerWrite(env, tool, args, shown).value.Update? || HandlerWrite(env, tool, args, shown).value.Patch?
    ensures
      var r := HandlerWrite(env, tool, args, shown).value;
      && W.Stored(shown) && Some(r.at) == TargetCoord(args)
      && W.VersionOf(shown) == if r.Update? then r.approvedVersion else r.ref.approvedVersion
  {
  }

  /** What was confirmed before a handler ran is the very document shown, not just one with the same version. */
  lemma ConfirmedIsShown(w: World, s: State, k: nat, shown: Json)
    requires Reachable(w, s) && ShownDoc(s, k, shown)
    ensures
      var e := s.log[k].evidence.value;
      && e.shownAt < e.spentAt < e.confirmedAt < k
      && s.log[e.confirmedAt].Confirmed? && s.log[e.confirmedAt].view == OneObject(shown)
  {
    ReachableIsSound(w, s);
    assert EntryOK(s.log, k, s.calls);
    var e := s.log[k].evidence.value;
    assert CallOK(s.log, s.log[k].call, s.calls[s.log[k].call]);
    assert OnRecordEntry(s, s.log[e.shownAt]);
    assert OnRecordEntry(s, s.log[e.confirmedAt]);
  }
}
