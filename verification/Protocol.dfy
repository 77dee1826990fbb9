/**
 * The approval protocol as a step system: any number of calls in flight, a gate that answers what it
 * likes, handlers that send what they like, and a cluster that other writers change between any two steps.
 */
module Protocol {
  import opened Results
  import opened Json
  import opened ApprovalGate
  import opened Declarations
  import JsonPatch
  import W = WriteConditions

  // ---- the cluster ----

  datatype Coord = Coord(apiVersion: string, kind: string, namespace: Option<string>, name: string)

  /** One object of a selection: where it is, and its version and incarnation. */
  datatype Selected = Selected(at: Coord, version: string, uid: string)

  /** What the gate read of a call's target before asking. */
  datatype View = NoTarget | OneObject(doc: Json) | Collection(objects: set<Selected>)

  /** The fixed surroundings: the open parts of the declarations, the sensitive kinds, and selector matching. */
  datatype World = World(env: Env, sensitiveKinds: seq<string>, matches: (Selection, Coord, Json) -> bool)

  /** A request to the inner kubernetes service. */
  datatype Request =
    | Read(verb: string, apiVersion: string, kind: string, subresource: string)
    | Discovery
    | ExecInPod
    | Stream(verb: string, apiVersion: string, kind: string, subresource: string)
    | Create(at: Coord, body: Json)
    | Update(at: Coord, subresource: string, manifest: Json, approvedVersion: string)
    | Patch(at: Coord, ref: W.PatchRef)
    | Delete(at: Coord)
    | DeleteCollection(apiVersion: string, kind: string, selection: Selection)

  /** The pairs confinedService checks before a request is built; None when no pair can be named. */
  function RequestPairs(env: Env, r: Request): Option<seq<Pair>>
  {
    match r
    case Read(verb, a, k, sub) => PermitPair(env, verb, a, k, sub)
    case Discovery => None
    case ExecInPod => Some([Pair("list", "pods"), Pair("create", "pods/exec")])
    case Stream(verb, a, k, sub) => PermitPair(env, verb, a, k, sub)
    case Create(at, _) => PermitPair(env, "create", at.apiVersion, at.kind, "")
    case Update(at, sub, _, _) => PermitPair(env, "update", at.apiVersion, at.kind, sub)
    case Patch(at, _) => PermitPair(env, "patch", at.apiVersion, at.kind, "")
    case Delete(at) => PermitPair(env, "delete", at.apiVersion, at.kind, "")
    case DeleteCollection(a, k, _) => PermitPair(env, "deletecollection", a, k, "")
  }

  /** The one pair permit compares with what is allowed: unlike a declaration, it takes any apiVersion that parses and any kind. */
  function PermitPair(env: Env, verb: string, apiVersion: string, kind: string, subresource: string): Option<seq<Pair>>
  {
    match ResourceName(env, apiVersion, kind, subresource)
    case Some(resource) => Some([Pair(verb, resource)])
    case None => None
  }

  /** confine and confinedService: a client that answers only for the pairs the call declared. */
  predicate Permits(d: Declaration, env: Env, args: Json, r: Request)
  {
    if r.Discovery? then d == NoPermission(true)
    else
      && RequestPairs(env, r).Some? && CallPairs(d, env, args).Some?
      && forall p | p in RequestPairs(env, r).value :: p in CallPairs(d, env, args).value
  }

  // ---- calls ----

  datatype Route = Plain | Batch | Selecting

  datatype Phase =
    | Looking
    | Asking(unit: nat)
    | Described(unit: nat)
    | Ready(unit: nat)
    | Rereading(unit: nat)
    | Running(unit: nat)
    | Finished

  /** A grant, and where in the log it was recorded. */
  datatype Grant = Grant(decision: nat, at: nat)

  /**
   * One tools/call. A unit is one approval: a document of a create batch, or the whole call. The numbers
   * after `phase` point at the log entries the call has behind it.
   */
  datatype Call = Call(tool: Tool, args: Json, route: Route, docs: seq<Document>, pairs: seq<Pair>, gated: bool,
                       phase: Phase, view: View, shownAt: seq<nat>, grants: seq<Grant>, spentAt: nat, confirmedAt: nat)
  {
    /** The arguments unit u is approved, confined and executed under. */
    function UnitArgs(u: nat): Json
    {
      if route.Batch? && u < |docs| then docs[u].Raw() else args
    }
  }

  datatype Evidence = Evidence(decision: nat, shownAt: nat, grantedAt: nat, spentAt: nat, confirmedAt: nat)

  /** What a request did: the document it took effect over, the one it left there, and the objects it removed. */
  datatype Impact = Impact(over: Option<Json>, stored: Option<Json>, removed: set<Selected>)

  datatype Entry =
    | Shown(call: nat, unit: nat, pair: Pair, view: View)
    | GrantedTo(call: nat, unit: nat, decision: nat)
    | SpentBy(call: nat, unit: nat, decision: nat)
    | Confirmed(call: nat, unit: nat, view: View)
    | Invoked(call: nat, unit: nat, evidence: Option<Evidence>)
    | Reached(call: nat, unit: nat, request: Request, evidence: Option<Evidence>, impact: Impact)

  datatype DecisionInfo = DecisionInfo(requestId: string, used: bool)

  datatype State = State(cluster: map<Coord, Json>, history: map<string, (Coord, Json)>,
                         decisions: map<nat, DecisionInfo>, calls: seq<Call>, log: seq<Entry>)

  datatype Step =
    | Arrive(tool: Tool, args: Json)
    | Look(c: nat)
    | Describe(c: nat)
    | Answer(c: nat, decision: nat, requestId: string)
    | Spend(c: nat)
    | Reread(c: nat)
    | Send(c: nat, request: Request, version: string, uid: string, outcome: Json)
    | Return(c: nat, ok: bool)
    | End(c: nat)
    | Outside(at: Coord, doc: Option<Json>, version: string, uid: string)

  // ---- reading the target ----

  /** genericTarget. */
  function TargetCoord(args: Json): Option<Coord>
  {
    if !args.Obj? then None
    else
      var m := args.members;
      if OptionalString(m, "apiVersion").None? || OptionalString(m, "kind").None? || OptionalString(m, "name").None? then None
      else Some(Coord(m["apiVersion"].text, m["kind"].text, OptionalString(m, "namespace"), m["name"].text))
  }

  function SelectedObjects(w: World, cluster: map<Coord, Json>, apiVersion: string, kind: string, sel: Selection): set<Selected>
  {
    set at | at in cluster && at.apiVersion == apiVersion && at.kind == kind && at.namespace == Some(sel.namespace)
             && W.Stored(cluster[at]) && w.matches(sel, at, cluster[at])
      :: Selected(at, W.VersionOf(cluster[at]), W.UidOf(cluster[at]))
  }

  /** What the gate's own readers see of this call's target now; None is a failed read. */
  function ReadView(w: World, cluster: map<Coord, Json>, call: Call): Option<View>
  {
    var d := Shipped(call.tool);
    if !d.Resolved? then Some(NoTarget)
    else if call.route.Selecting? then
      if !call.args.Obj? || ParseDeleteCollectionTarget(call.args.members).None? then None
      else
        var m := call.args.members;
        Some(Collection(SelectedObjects(w, cluster, StringOrEmpty(m, "apiVersion"), StringOrEmpty(m, "kind"), ParseDeleteCollectionTarget(m).value)))
    else if !d.target then Some(NoTarget)
    else
      match TargetCoord(call.args)
      case None => None
      case Some(at) => if at in cluster && W.Stored(cluster[at]) then Some(OneObject(cluster[at])) else None
  }

  /** confirmTargetUnchanged and sameTargets: equal versions and incarnations. */
  predicate SameView(a: View, b: View)
  {
    match (a, b)
    case (NoTarget, NoTarget) => true
    case (OneObject(x), OneObject(y)) => W.Stored(x) && W.Stored(y) && W.VersionOf(x) == W.VersionOf(y) && W.UidOf(x) == W.UidOf(y)
    case (Collection(x), Collection(y)) => x == y
    case _ => false
  }

  // ---- what a request does to the cluster ----

  /** The stored form of a written document: its own version and incarnation stamped into the metadata. */
  function Stamp(doc: Json, version: string, uid: string): (stored: Json)
    ensures version != "" && uid != "" ==> W.Stored(stored) && W.VersionOf(stored) == version
  {
    W.Pin(if doc.Obj? then doc else Obj(map[]), version, uid)
  }

  /** The document a conditional write would store over `current`; None when the apiserver refuses it. */
  function Written(r: Request, current: Json, outcome: Json): Option<Json>
  {
    match r
    case Update(_, sub, manifest, approvedVersion) =>
      (match W.VersionedManifest(manifest, approvedVersion)
       case Err(_) => None
       case Ok(body) =>
         if !W.LockAdmits(current, body) then None
         else if sub == "" then Some(body)
         else Some(JsonPatch.MergePatch(Some(current), Obj(map["spec" := if "spec" in body.members then body.members["spec"] else Null]))))
    case Patch(_, ref) =>
      (match W.Guarded(ref)
       case Err(_) => None
       case Ok(body) =>
         if ref.patchType.JsonOps? || ref.patchType.Merge? then W.Patched(ref, current)
         else if W.LockAdmits(current, body) then Some(outcome) else None)
    case _ => None
  }

  /** The document a request takes effect over, if it takes effect on an existing one. */
  function Overwritten(r: Request, cluster: map<Coord, Json>, outcome: Json): Option<Json>
  {
    match r
    case Update(at, _, _, _) => if at in cluster && Written(r, cluster[at], outcome).Some? then Some(cluster[at]) else None
    case Patch(at, _) => if at in cluster && Written(r, cluster[at], outcome).Some? then Some(cluster[at]) else None
    case Delete(at) => if at in cluster then Some(cluster[at]) else None
    case _ => None
  }

  function Put(s: State, at: Coord, doc: Json): State
    requires W.Stored(doc)
  {
    s.(cluster := s.cluster[at := doc], history := s.history[W.VersionOf(doc) := (at, doc)])
  }

  /** The document a request leaves in the cluster, its new version stamped on it, if it stores one. */
  function StoredBy(cluster: map<Coord, Json>, r: Request, version: string, uid: string, outcome: Json): (stored: Option<Json>)
    requires version != "" && uid != ""
    ensures stored.Some? ==> (r.Update? || r.Patch? || r.Create?) && W.Stored(stored.value) && W.VersionOf(stored.value) == version
  {
    match r
    case Update(at, _, _, _) =>
      if Overwritten(r, cluster, outcome).Some? && W.Stored(cluster[at])
      then Some(Stamp(Written(r, cluster[at], outcome).value, version, W.UidOf(cluster[at]))) else None
    case Patch(at, _) =>
      if Overwritten(r, cluster, outcome).Some? && W.Stored(cluster[at])
      then Some(Stamp(Written(r, cluster[at], outcome).value, version, W.UidOf(cluster[at]))) else None
    case Create(at, body) => if at in cluster then None else Some(Stamp(body, version, uid))
    case _ => None
  }

  /** The objects a request removes. */
  function RemovedBy(w: World, cluster: map<Coord, Json>, r: Request): set<Selected>
  {
    match r
    case Delete(at) => if at in cluster && W.Stored(cluster[at]) then {Selected(at, W.VersionOf(cluster[at]), W.UidOf(cluster[at]))} else {}
    case DeleteCollection(a, k, sel) => SelectedObjects(w, cluster, a, k, sel)
    case _ => {}
  }

  function Effect(w: World, s: State, r: Request, version: string, uid: string, outcome: Json): State
    requires version != "" && uid != ""
  {
    var stored := StoredBy(s.cluster, r, version, uid, outcome);
    if stored.Some? then Put(s, r.at, stored.value)
    else s.(cluster := s.cluster - (set x | x in RemovedBy(w, s.cluster, r) :: x.at))
  }

  function ImpactOf(w: World, s: State, r: Request, version: string, uid: string, outcome: Json): Impact
    requires version != "" && uid != ""
  {
    Impact(Overwritten(r, s.cluster, outcome), StoredBy(s.cluster, r, version, uid, outcome), RemovedBy(w, s.cluster, r))
  }

  // ---- the steps ----

  function At(s: State, c: nat, call: Call): State
    requires c < |s.calls|
  {
    s.(calls := s.calls[c := call])
  }

  function Logged(s: State, e: Entry): State
  {
    s.(log := s.log + [e])
  }

  function Start(tool: Tool, args: Json, route: Route, docs: seq<Document>, pairs: seq<Pair>, phase: Phase): Call
  {
    Call(tool, args, route, docs, pairs, pairs != [], phase, NoTarget, [], [], 0, 0)
  }

  /** callCreateBatch before it asks: each document by itself needs approval for its one pair. */
  function BatchRoute(w: World, args: Json, docs: seq<Document>): Call
  {
    var single := forall doc | doc in docs :: GatedPairs(Shipped(ResourceCreate), w.env, w.sensitiveKinds, doc.Raw()) == Some([doc.pair]);
    Start(ResourceCreate, args, Batch, docs, DocumentPairs(docs), if single then Asking(0) else Finished)
  }

  /** authorize and callDeleteCollection before they ask, given the pairs that need approval. */
  function SingleRoute(tool: Tool, args: Json, gated: seq<Pair>): Call
  {
    var d := Shipped(tool);
    if tool.ResourceDeleteCollection? then
      Start(tool, args, Selecting, [], gated, if |gated| == 1 && gated[0].verb == "deletecollection" then Looking else Finished)
    else if gated == [] then Start(tool, args, Plain, [], [], Running(0))
    else if d.Resolved? && !d.target && (exists p | p in gated :: p.verb in GATED_VERBS) then Start(tool, args, Plain, [], gated, Finished)
    else Start(tool, args, Plain, [], gated[..1], Asking(0))
  }

  /** The dispatcher's routing: which of the three gate paths a call takes, or none. */
  function Routed(w: World, tool: Tool, raw: Json): Call
  {
    match Admitted(Shipped(tool), w.env, w.sensitiveKinds, raw)
    case None => Start(tool, raw, Plain, [], [], Finished)
    case Some((args, _)) =>
      if tool.ResourceCreate? then
        match ParseCreateDocuments(w.env, args)
        case None => Start(tool, args, Batch, [], [], Finished)
        case Some(docs) => BatchRoute(w, args, docs)
      else
        match GatedPairs(Shipped(tool), w.env, w.sensitiveKinds, args)
        case None => Start(tool, args, Plain, [], [], Finished)
        case Some(gated) => SingleRoute(tool, args, gated)
  }

  predicate Fresh(s: State, version: string, uid: string)
  {
    version != "" && uid != "" && version !in s.history
  }

  function EvidenceOf(call: Call, u: nat): Option<Evidence>
  {
    if call.gated && u < |call.grants| && u < |call.shownAt|
    then Some(Evidence(call.grants[u].decision, call.shownAt[u], call.grants[u].at, call.spentAt, call.confirmedAt))
    else None
  }

  /** One step; None when it is not enabled. */
  function Next(w: World, s: State, step: Step): Option<State>
  {
    match step
    case Arrive(tool, args) =>
      var call := Routed(w, tool, args);
      var joined := s.(calls := s.calls + [call]);
      Some(if call.phase.Running? then Logged(joined, Invoked(|s.calls|, 0, None)) else joined)
    case Look(c) =>
      if c < |s.calls| && s.calls[c].phase.Looking? then
        var call := s.calls[c];
        match ReadView(w, s.cluster, call)
        case Some(view) =>
          Some(At(s, c, call.(view := view, phase := if view == Collection({}) then Finished else Asking(0))))
        case None => Some(At(s, c, call.(phase := Finished)))
      else None
    case Describe(c) =>
      if c < |s.calls| && s.calls[c].phase.Asking? && s.calls[c].phase.unit < |s.calls[c].pairs| then
        var call, u := s.calls[c], s.calls[c].phase.unit;
        var view := if call.route.Plain? then ReadView(w, s.cluster, call) else Some(call.view);
        match view
        case None => Some(At(s, c, call.(phase := Finished)))
        case Some(v) =>
          Some(Logged(At(s, c, call.(view := v, shownAt := call.shownAt + [|s.log|], phase := Described(u))),
                      Shown(c, u, call.pairs[u], v)))
      else None
    case Answer(c, d, requestId) =>
      if c < |s.calls| && s.calls[c].phase.Described? then
        var call, u := s.calls[c], s.calls[c].phase.unit;
        var decisions := if d in s.decisions then s.decisions else s.decisions[d := DecisionInfo(requestId, false)];
        var repeated := call.route.Batch? &&
          (decisions[d].requestId == "" || exists g | g in call.grants :: g.decision in decisions && decisions[g.decision].requestId == decisions[d].requestId);
        if repeated then Some(At(s.(decisions := decisions), c, call.(phase := Finished)))
        else
          Some(Logged(At(s.(decisions := decisions), c,
                         call.(grants := call.grants + [Grant(d, |s.log|)], phase := if u + 1 < |call.pairs| then Asking(u + 1) else Ready(0))),
                      GrantedTo(c, u, d)))
      else None
    case Spend(c) =>
      if c < |s.calls| && s.calls[c].phase.Ready? && s.calls[c].phase.unit < |s.calls[c].grants| then
        var call, u := s.calls[c], s.calls[c].phase.unit;
        var d := call.grants[u].decision;
        if d !in s.decisions || s.decisions[d].used then Some(At(s, c, call.(phase := Finished)))
        else
          var spent := call.(spentAt := |s.log|, confirmedAt := |s.log|, phase := if call.view.NoTarget? then Running(u) else Rereading(u));
          var after := Logged(At(s.(decisions := s.decisions[d := s.decisions[d].(used := true)]), c, spent), SpentBy(c, u, d));
          Some(if spent.phase.Running? then Logged(after, Invoked(c, u, EvidenceOf(spent, u))) else after)
      else None
    case Reread(c) =>
      if c < |s.calls| && s.calls[c].phase.Rereading? then
        var call, u := s.calls[c], s.calls[c].phase.unit;
        match ReadView(w, s.cluster, call)
        case Some(now) =>
          if SameView(call.view, now) then
            var confirmed := call.(confirmedAt := |s.log|, phase := Running(u));
            Some(Logged(Logged(At(s, c, confirmed), Confirmed(c, u, now)), Invoked(c, u, EvidenceOf(confirmed, u))))
          else Some(At(s, c, call.(phase := Finished)))
        case None => Some(At(s, c, call.(phase := Finished)))
      else None
    case Send(c, r, version, uid, outcome) =>
      if c < |s.calls| && s.calls[c].phase.Running? && Fresh(s, version, uid) then
        var call, u := s.calls[c], s.calls[c].phase.unit;
        if !Permits(Shipped(call.tool), w.env, call.UnitArgs(u), r) then Some(s)
        else
          Some(Logged(Effect(w, s, r, version, uid, outcome), Reached(c, u, r, EvidenceOf(call, u), ImpactOf(w, s, r, version, uid, outcome))))
      else None
    case Return(c, ok) =>
      if c < |s.calls| && s.calls[c].phase.Running? then
        var call, u := s.calls[c], s.calls[c].phase.unit;
        Some(At(s, c, call.(phase := if ok && u + 1 < |call.pairs| then Ready(u + 1) else Finished)))
      else None
    case End(c) => if c < |s.calls| then Some(At(s, c, s.calls[c].(phase := Finished))) else None
    case Outside(at, doc, version, uid) =>
      if doc.None? then Some(s.(cluster := s.cluster - {at}))
      else if Fresh(s, version, uid) then Some(Put(s, at, Stamp(doc.value, version, uid)))
      else None
  }

  function Exec(w: World, s: State, steps: seq<Step>): Option<State>
  {
    if steps == [] then Some(s)
    else
      match Exec(w, s, steps[..|steps| - 1])
      case Some(before) => Next(w, before, steps[|steps| - 1])
      case None => None
  }

  /** Before any call: a cluster whose versions are all different. */
  predicate Initial(s: State)
  {
    && s.calls == [] && s.log == [] && s.decisions == map[]
    && HistoryHolds(s)
  }

  /** Every version ever stored names one document at one place, and what is stored now is in there. */
  predicate HistoryHolds(s: State)
  {
    && (forall v | v in s.history :: W.Stored(s.history[v].1) && W.VersionOf(s.history[v].1) == v)
    && (forall at | at in s.cluster :: W.Stored(s.cluster[at]) && W.VersionOf(s.cluster[at]) in s.history
                                       && s.history[W.VersionOf(s.cluster[at])] == (at, s.cluster[at]))
  }
}
