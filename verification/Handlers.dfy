/** What the write handlers ask the kubernetes service for, from the call's arguments and the approved state. */
module Handlers {
  import opened Results
  import opened Json
  import opened ApprovalGate
  import opened Declarations
  import opened Protocol
  import Text
  import W = WriteConditions

  /** parseManifest: a non-empty object that does not describe another object than the coordinate. */
  function ParseManifest(m: Members, at: Coord): Option<Json>
  {
    if "manifest" !in m || !m["manifest"].Obj? || m["manifest"].members == map[] then None
    else
      var manifest := m["manifest"].members;
      var metadata: Members := if "metadata" in manifest && manifest["metadata"].Obj? then manifest["metadata"].members else map[];
      if "apiVersion" in manifest && manifest["apiVersion"].Str? && manifest["apiVersion"].text != at.apiVersion then None
      else if "kind" in manifest && manifest["kind"].Str? && manifest["kind"].text != at.kind then None
      else if "name" in metadata && metadata["name"].Str? && metadata["name"].text != at.name then None
      else Some(m["manifest"])
  }

  /** resourceUpdate, with the scale body UpdateResource builds; the model addresses a scale in its own namespace. */
  function UpdateRequest(args: Json, approved: Json): Option<Request>
  {
    if TargetCoord(args).None? || ParseUpdateTarget(args.members).None? || !W.Stored(approved) then None
    else
      var m, at, (sub, replicas) := args.members, TargetCoord(args).value, ParseUpdateTarget(args.members).value;
      var body := if sub == "scale"
                  then Some(W.ScaleObject(if at.namespace.Some? then at.namespace.value else "", at.name, replicas))
                  else ParseManifest(m, at);
      if body.None? then None else Some(Update(at, sub, body.value, W.VersionOf(approved)))
  }

  function ParsePatchType(name: string): Option<W.PatchType>
  {
    if name == "json" then Some(W.JsonOps)
    else if name == "merge" then Some(W.Merge)
    else if name == "strategic" then Some(W.Strategic)
    else if name == "apply" then Some(W.Apply)
    else None
  }

  /** resourcePatch: a field manager belongs to apply, which cannot do without one. */
  function PatchRequest(args: Json, approved: Json): Option<Request>
  {
    if TargetCoord(args).None? || !W.Stored(approved) then None
    else
      var m, at := args.members, TargetCoord(args).value;
      var kind := ParsePatchType(StringOrEmpty(m, "patchType"));
      if kind.None? || "patch" !in m || m["patch"].Null? then None
      else if kind.value.Apply? != OptionalString(m, "fieldManager").Some? then None
      else Some(Patch(at, W.PatchRef(at.apiVersion, at.kind, kind.value, m["patch"], W.VersionOf(approved), W.UidOf(approved))))
  }

  /** resourceDelete: no condition travels with it. */
  function DeleteRequest(args: Json): Option<Request>
  {
    if TargetCoord(args).None? || ParseDeleteTarget(args.members).None? then None else Some(Delete(TargetCoord(args).value))
  }

  function DeleteCollectionRequest(args: Json): Option<Request>
  {
    if !args.Obj? || OptionalString(args.members, "apiVersion").None? || OptionalString(args.members, "kind").None?
       || ParseDeleteCollectionTarget(args.members).None? then None
    else Some(DeleteCollection(args.members["apiVersion"].text, args.members["kind"].text, ParseDeleteCollectionTarget(args.members).value))
  }

  /** resourceCreate: the one document of its arguments. */
  function CreateRequest(env: Env, args: Json): Option<Request>
  {
    match ParseCreateDocuments(env, args)
    case Some(docs) =>
      if |docs| != 1 then None
      else Some(Create(Coord(docs[0].apiVersion, docs[0].kind, docs[0].namespace, docs[0].name), docs[0].body))
    case None => None
  }

  /** The write a tool's handler sends, if its arguments parse. */
  function HandlerWrite(env: Env, tool: Tool, args: Json, approved: Json): Option<Request>
  {
    match tool
    case ResourceUpdate => UpdateRequest(args, approved)
    case ResourcePatch => PatchRequest(args, approved)
    case ResourceDelete => DeleteRequest(args)
    case ResourceDeleteCollection => DeleteCollectionRequest(args)
    case ResourceCreate => CreateRequest(env, args)
    case _ => None
  }

  // ---- when a request is built ----

  /** The patch types by their names. */
  predicate PatchTypeNamed(name: string, t: W.PatchType)
  {
    match t
    case JsonOps => name == "json"
    case Merge => name == "merge"
    case Strategic => name == "strategic"
    case Apply => name == "apply"
  }

  /** A patch is built for a named target, a patch of a known type, and a field manager exactly with an apply. */
  lemma PatchBuiltExactly(args: Json, approved: Json)
    ensures PatchRequest(args, approved).Some? <==>
      && TargetCoord(args).Some? && W.Stored(approved)
      && "patch" in args.members && args.members["patch"] != Null
      && "patchType" in args.members && args.members["patchType"].Str?
      && args.members["patchType"].text in {"json", "merge", "strategic", "apply"}
      && (args.members["patchType"].text == "apply" <==> OptionalString(args.members, "fieldManager").Some?)
    ensures PatchRequest(args, approved).Some? ==>
      var r := PatchRequest(args, approved).value;
      && r.Patch? && Some(r.at) == TargetCoord(args) && r.ref.patch == args.members["patch"]
      && PatchTypeNamed(args.members["patchType"].text, r.ref.patchType)
      && r.ref.apiVersion == r.at.apiVersion && r.ref.kind == r.at.kind
      && r.ref.approvedVersion == W.VersionOf(approved) && r.ref.approvedUid == W.UidOf(approved)
  {
  }

  /** A manifest describes the target: what it says of its apiVersion, kind and name is the target's. */
  predicate Describes(manifest: Members, at: Coord)
  {
    && ("apiVersion" in manifest && manifest["apiVersion"].Str? ==> manifest["apiVersion"].text == at.apiVersion)
    && ("kind" in manifest && manifest["kind"].Str? ==> manifest["kind"].text == at.kind)
    && ("metadata" in manifest && manifest["metadata"].Obj? ==>
          var m := manifest["metadata"].members;
          "name" in m && m["name"].Str? ==> m["name"].text == at.name)
  }

  /** An update is built from a manifest that describes the target, or for a scale from a replica count. */
  lemma UpdateBuiltExactly(args: Json, approved: Json)
    ensures UpdateRequest(args, approved).Some? <==>
      && TargetCoord(args).Some? && W.Stored(approved)
      && var m := args.members;
         match OptionalString(m, "subresource")
         case Some(sub) =>
           sub == "scale" && "manifest" !in m && "replicas" in m && IntValue(m["replicas"]).Some? && 0 <= IntValue(m["replicas"]).value <= 0x7fff_ffff
         case None =>
           && "replicas" !in m && "manifest" in m && m["manifest"].Obj? && m["manifest"].members != map[]
           && Describes(m["manifest"].members, TargetCoord(args).value)
    ensures UpdateRequest(args, approved).Some? ==>
      var (r, m) := (UpdateRequest(args, approved).value, args.members);
      && r.Update? && Some(r.at) == TargetCoord(args) && r.approvedVersion == W.VersionOf(approved)
      && (OptionalString(m, "subresource") == None ==> r.subresource == "" && r.manifest == m["manifest"])
      && (OptionalString(m, "subresource") == Some("scale") ==>
            && r.subresource == "scale" && r.manifest.Obj? && "spec" in r.manifest.members
            && r.manifest.members["spec"] == Obj(map["replicas" := Num(Text.Decimal(IntValue(m["replicas"]).value))]))
  {
  }

  /** A delete is built for one named object, with no selector and no subresource beside it. */
  lemma DeleteBuiltExactly(args: Json)
    ensures DeleteRequest(args).Some? <==>
      && TargetCoord(args).Some? && args.members.Keys !! {"labelSelector", "fieldSelector", "subresource"}
      && OptionalIntWithin(args.members, "gracePeriodSeconds", 0, 0x7fff_ffff_ffff_ffff)
    ensures DeleteRequest(args).Some? ==> DeleteRequest(args) == Some(Delete(TargetCoord(args).value))
  {
    if args.Obj? {
      var unwanted := {"labelSelector", "fieldSelector", "subresource"};
      assert "labelSelector" in unwanted && "fieldSelector" in unwanted && "subresource" in unwanted;
    }
  }

  /** A collection delete is built for a kind in one namespace, with no name and no subresource beside it. */
  lemma CollectionBuiltExactly(args: Json)
    ensures DeleteCollectionRequest(args).Some? <==>
      && args.Obj? && OptionalString(args.members, "apiVersion").Some? && OptionalString(args.members, "kind").Some?
      && OptionalString(args.members, "namespace").Some? && args.members.Keys !! {"name", "subresource"}
      && OptionalIntWithin(args.members, "gracePeriodSeconds", 0, 0x7fff_ffff_ffff_ffff)
    ensures DeleteCollectionRequest(args).Some? ==>
      var (r, m) := (DeleteCollectionRequest(args).value, args.members);
      && r.DeleteCollection? && m["apiVersion"] == Str(r.apiVersion) && m["kind"] == Str(r.kind) && m["namespace"] == Str(r.selection.namespace)
      && r.selection.labelSelector == StringOrEmpty(m, "labelSelector") && r.selection.fieldSelector == StringOrEmpty(m, "fieldSelector")
  {
    if args.Obj? {
      var unwanted := {"name", "subresource"};
      assert "name" in unwanted && "subresource" in unwanted;
    }
  }

  // ---- inside the call's own pair ----

  /**
   * The request a handler builds is one its own confined client lets through, for every tool and all
   * arguments whose pairs can be named, except a patch that also names a subresource: that one is approved
   * as a patch of the subresource while the request patches the object, so it is refused after approval.
   */
  lemma HandlerStaysInside(env: Env, tool: Tool, args: Json, approved: Json)
    requires CallPairs(Shipped(tool), env, args).Some? && HandlerWrite(env, tool, args, approved).Some?
    ensures Permits(Shipped(tool), env, args, HandlerWrite(env, tool, args, approved).value)
            <==> (tool.ResourcePatch? ==> OptionalString(args.members, "subresource").None?)
  {
    match tool
    case ResourceUpdate => UpdateInside(env, args, approved);
    case ResourcePatch => PatchInside(env, args, approved);
    case ResourceDelete => DeleteInside(env, args);
    case ResourceDeleteCollection => DeleteCollectionInside(env, args);
    case ResourceCreate => CreateInside(env, args);
    case _ => assert false;
  }

  lemma OnePair(d: Declaration, env: Env, args: Json, r: Request, p: Pair)
    requires CallPairs(d, env, args) == Some([p]) && !r.Discovery?
    ensures Permits(d, env, args, r) <==> RequestPairs(env, r).Some? && forall q | q in RequestPairs(env, r).value :: q == p
  {
  }

  lemma UpdateInside(env: Env, args: Json, approved: Json)
    requires CallPairs(Shipped(ResourceUpdate), env, args).Some? && UpdateRequest(args, approved).Some?
    ensures Permits(Shipped(ResourceUpdate), env, args, UpdateRequest(args, approved).value)
  {
    var m, at := args.members, TargetCoord(args).value;
    assert ParseUpdateTarget(m).value.0 == StringOrEmpty(m, "subresource");
    OnePair(Shipped(ResourceUpdate), env, args, UpdateRequest(args, approved).value, CallPairs(Shipped(ResourceUpdate), env, args).value[0]);
  }

  lemma PatchInside(env: Env, args: Json, approved: Json)
    requires CallPairs(Shipped(ResourcePatch), env, args).Some? && PatchRequest(args, approved).Some?
    ensures Permits(Shipped(ResourcePatch), env, args, PatchRequest(args, approved).value)
            <==> OptionalString(args.members, "subresource").None?
  {
    var m, at := args.members, TargetCoord(args).value;
    var sub := StringOrEmpty(m, "subresource");
    var declared := CallPairs(Shipped(ResourcePatch), env, args).value;
    assert declared == [Pair("patch", if sub == "" then env.plural(at.kind) else env.plural(at.kind) + "/" + sub)];
    assert RequestPairs(env, PatchRequest(args, approved).value) == Some([Pair("patch", env.plural(at.kind))]);
    assert |env.plural(at.kind) + "/" + sub| > |env.plural(at.kind)|;
    assert [Pair("patch", env.plural(at.kind))][0] in [Pair("patch", env.plural(at.kind))];
    OnePair(Shipped(ResourcePatch), env, args, PatchRequest(args, approved).value, declared[0]);
  }

  lemma DeleteInside(env: Env, args: Json)
    requires CallPairs(Shipped(ResourceDelete), env, args).Some? && DeleteRequest(args).Some?
    ensures Permits(Shipped(ResourceDelete), env, args, DeleteRequest(args).value)
  {
    assert StringOrEmpty(args.members, "subresource") == "";
    OnePair(Shipped(ResourceDelete), env, args, DeleteRequest(args).value, CallPairs(Shipped(ResourceDelete), env, args).value[0]);
  }

  lemma DeleteCollectionInside(env: Env, args: Json)
    requires CallPairs(Shipped(ResourceDeleteCollection), env, args).Some? && DeleteCollectionRequest(args).Some?
    ensures Permits(Shipped(ResourceDeleteCollection), env, args, DeleteCollectionRequest(args).value)
  {
    assert StringOrEmpty(args.members, "subresource") == "";
    OnePair(Shipped(ResourceDeleteCollection), env, args, DeleteCollectionRequest(args).value,
            CallPairs(Shipped(ResourceDeleteCollection), env, args).value[0]);
  }

  lemma CreateInside(env: Env, args: Json)
    requires CallPairs(Shipped(ResourceCreate), env, args).Some? && CreateRequest(env, args).Some?
    ensures Permits(Shipped(ResourceCreate), env, args, CreateRequest(env, args).value)
  {
    var docs := ParseCreateDocuments(env, args).value;
    assert Obj(args.members) == args;
    CreateVerbs(env, args);
    assert ParseDocument(env, docs[0].body) == Some(docs[0]);
    assert DocumentPairs(docs) == [docs[0].pair];
    assert Coordinate(env, "create", docs[0].apiVersion, docs[0].kind, "") == Some([docs[0].pair]);
    OnePair(Shipped(ResourceCreate), env, args, CreateRequest(env, args).value, docs[0].pair);
  }
}
