/**
 * How an approved state reaches the write: approvedPatch rewrites a patch body and UpdateResource
 * rewrites a manifest so that the apiserver applies it to the approved state or not at all.
 */
module WriteConditions {
  import opened Results
  import opened Json
  import opened JsonPatch
  import Text

  datatype PatchType = JsonOps | Merge | Strategic | Apply

  /** k8s.PatchRef, the body already decoded. */
  datatype PatchRef = PatchRef(apiVersion: string, kind: string, patchType: PatchType, patch: Json,
                               approvedVersion: string, approvedUid: string)

  datatype Refusal =
    | NoApprovedState
    | NotAnArray
    | NotAnObject
    | MetadataNotAnObject
    | DirectiveCanRemoveConditions
    | CoordinateDiffers
    | TargetDiffers

  /** The named member exists and is not exactly this string. */
  predicate Conflicts(m: Members, key: string, want: string)
  {
    key in m && m[key] != Str(want)
  }

  function TestOp(field: string, want: string): Json
  {
    Obj(map["op" := Str("test"), "path" := Str("/metadata/" + field), "value" := Str(want)])
  }

  function Tests(ref: PatchRef): seq<Json>
  {
    [TestOp("resourceVersion", ref.approvedVersion), TestOp("uid", ref.approvedUid)]
  }

  /** The patch's own metadata object; absent reads as empty. */
  function PatchMetadata(patch: Members): Members
  {
    if "metadata" in patch && patch["metadata"].Obj? then patch["metadata"].members else map[]
  }

  predicate HasDirective(m: Members)
  {
    exists k :: k in m && Text.HasPrefix(k, "$")
  }

  /** The caller's metadata with the conditions written into it; apply never sends a uid. */
  function PinnedMetadata(ref: PatchRef, metadata: Members): Members
  {
    var versioned := metadata["resourceVersion" := Str(ref.approvedVersion)];
    if ref.patchType.Apply? then versioned else versioned["uid" := Str(ref.approvedUid)]
  }

  function PinnedRoot(ref: PatchRef, patch: Members): Members
  {
    var named := if ref.patchType.Apply?
                 then patch["apiVersion" := Str(ref.apiVersion)]["kind" := Str(ref.kind)]
                 else patch;
    named["metadata" := Obj(PinnedMetadata(ref, PatchMetadata(patch)))]
  }

  /** What approvedPatch answers; the method ApprovedPatch below computes it. */
  function Guarded(ref: PatchRef): Result<Json, Refusal>
  {
    if ref.approvedVersion == "" || ref.approvedUid == "" then Err(NoApprovedState)
    else if ref.patchType.JsonOps? then
      if ref.patch.Arr? then Ok(Arr(Tests(ref) + ref.patch.items + Tests(ref))) else Err(NotAnArray)
    else if !ref.patch.Obj? then Err(NotAnObject)
    else
      var patch := ref.patch.members;
      var metadata := PatchMetadata(patch);
      if "metadata" in patch && !patch["metadata"].Obj? then Err(MetadataNotAnObject)
      else if ref.patchType.Strategic? && (HasDirective(patch) || HasDirective(metadata)) then
        Err(DirectiveCanRemoveConditions)
      else if ref.patchType.Apply? && (Conflicts(patch, "apiVersion", ref.apiVersion) || Conflicts(patch, "kind", ref.kind)) then
        Err(CoordinateDiffers)
      else if Conflicts(metadata, "resourceVersion", ref.approvedVersion) || Conflicts(metadata, "uid", ref.approvedUid) then
        Err(TargetDiffers)
      else Ok(Obj(PinnedRoot(ref, patch)))
  }

  /** The inner directive scan of approvedPatch: map iteration in an arbitrary order. */
  method ScanDirectives(fields: Members) returns (found: bool)
    ensures found == HasDirective(fields)
  {
    found := false;
    var remaining := fields.Keys;
    while remaining != {}
      invariant remaining <= fields.Keys
      invariant forall k | k in fields.Keys - remaining :: !Text.HasPrefix(k, "$")
    {
      var key :| key in remaining;
      if Text.HasPrefix(key, "$") {
        return true;
      }
      remaining := remaining - {key};
    }
  }

  method ApprovedPatch(ref: PatchRef) returns (r: Result<Json, Refusal>)
    ensures r == Guarded(ref)
  {
    if ref.approvedVersion == "" || ref.approvedUid == "" {
      return Err(NoApprovedState);
    }
    var conditions := [("resourceVersion", ref.approvedVersion), ("uid", ref.approvedUid)];
    if ref.patchType.JsonOps? {
      if !ref.patch.Arr? {
        return Err(NotAnArray);
      }
      var tests: seq<Json> := [];
      for i := 0 to |conditions|
        invariant tests == Tests(ref)[..i]
      {
        tests := tests + [TestOp(conditions[i].0, conditions[i].1)];
      }
      assert tests == Tests(ref);
      var guarded := tests;
      guarded := guarded + ref.patch.items;
      guarded := guarded + tests;
      assert guarded == Tests(ref) + ref.patch.items + Tests(ref);
      return Ok(Arr(guarded));
    }
    if !ref.patch.Obj? {
      return Err(NotAnObject);
    }
    var patch := ref.patch.members;
    var metadata: Members := map[];
    if "metadata" in patch {
      if !patch["metadata"].Obj? {
        return Err(MetadataNotAnObject);
      }
      metadata := patch["metadata"].members;
    }
    ghost var given := metadata;
    if ref.patchType.Strategic? {
      var scanned := [patch, metadata];
      for i := 0 to |scanned|
        invariant forall j | 0 <= j < i :: !HasDirective(scanned[j])
      {
        var found := ScanDirectives(scanned[i]);
        if found {
          assert HasDirective(patch) || HasDirective(metadata);
          return Err(DirectiveCanRemoveConditions);
        }
      }
      assert !HasDirective(scanned[0]) && !HasDirective(scanned[1]);
    }
    if ref.patchType.Apply? {
      var identities := [("apiVersion", ref.apiVersion), ("kind", ref.kind)];
      for i := 0 to |identities|
        invariant forall j | 0 <= j < i :: !Conflicts(ref.patch.members, identities[j].0, identities[j].1)
        invariant patch == if i == 0 then ref.patch.members
                           else if i == 1 then ref.patch.members["apiVersion" := Str(ref.apiVersion)]
                           else ref.patch.members["apiVersion" := Str(ref.apiVersion)]["kind" := Str(ref.kind)]
      {
        if identities[i].0 in patch {
          if patch[identities[i].0] != Str(identities[i].1) {
            assert Conflicts(ref.patch.members, identities[i].0, identities[i].1);
            return Err(CoordinateDiffers);
          }
          assert patch == patch[identities[i].0 := Str(identities[i].1)];
        } else {
          patch := patch[identities[i].0 := Str(identities[i].1)];
        }
      }
      assert !Conflicts(ref.patch.members, identities[0].0, identities[0].1);
      assert !Conflicts(ref.patch.members, identities[1].0, identities[1].1);
    }
    for i := 0 to |conditions|
      invariant forall j | 0 <= j < i :: !Conflicts(given, conditions[j].0, conditions[j].1)
      invariant metadata == if i == 0 then given
                            else if i == 1 then given["resourceVersion" := Str(ref.approvedVersion)]
                            else PinnedMetadata(ref, given)
    {
      if conditions[i].0 in metadata && metadata[conditions[i].0] != Str(conditions[i].1) {
        assert Conflicts(given, conditions[i].0, conditions[i].1);
        return Err(TargetDiffers);
      }
      if !(ref.patchType.Apply? && conditions[i].0 == "uid") {
        metadata := metadata[conditions[i].0 := Str(conditions[i].1)];
      }
    }
    assert !Conflicts(given, conditions[0].0, conditions[0].1) && !Conflicts(given, conditions[1].0, conditions[1].1);
    patch := patch["metadata" := Obj(metadata)];
    return Ok(Obj(patch));
  }

  // ---- What the conditions mean at the apiserver ----

  function MetadataOf(doc: Json): Members
  {
    if doc.Obj? then PatchMetadata(doc.members) else map[]
  }

  /** The document is at this resourceVersion and is this incarnation of the object. */
  predicate Carries(doc: Json, version: string, uid: string)
  {
    var m := MetadataOf(doc);
    "resourceVersion" in m && m["resourceVersion"] == Str(version) && "uid" in m && m["uid"] == Str(uid)
  }

  lemma MetadataPointer(field: string)
    requires field == "resourceVersion" || field == "uid"
    ensures ParsePointer("/metadata/" + field) == Some(["metadata", field])
  {
    var text := "/metadata/" + field;
    assert text[1..] == "metadata" + ['/'] + field;
    Text.SplitAtSeparator("metadata", field, '/');
    Text.SplitPlain(field, '/');
    UnescapePlain("metadata");
    UnescapePlain(field);
    assert UnescapeAll([field]) == Some([field]) by { assert [field][1..] == []; assert [field] + [] == [field]; }
    assert ["metadata", field][1..] == [field];
    assert ["metadata"] + [field] == ["metadata", field];
  }

  lemma {:induction false} UnescapePlain(token: string)
    requires '~' !in token
    ensures Unescape(token) == Some(token)
  {
    if token != "" {
      UnescapePlain(token[1..]);
      assert [token[0]] + token[1..] == token;
    }
  }

  lemma TestOpMeaning(field: string, want: string, doc: Json)
    requires field == "resourceVersion" || field == "uid"
    ensures ApplyOp(TestOp(field, want), doc) ==
      if Member(MetadataOf(doc), field) == Some(Str(want)) then Some(doc) else None
  {
    MetadataPointer(field);
    FieldIsNoIndex(field);
    FieldIsNoIndex("metadata");
    var path := ["metadata", field];
    assert path[1..] == [field] && [field][1..] == [];
    var op := TestOp(field, want).members;
    assert PointerMember(op, "path") == Some(path) && Member(op, "value") == Some(Str(want));
    match Child(doc, "metadata")
    case None =>
      assert Lookup(doc, path) == None;
      assert MetadataOf(doc) == map[];
    case Some(m) =>
      assert Lookup(doc, path) == Lookup(m, [field]);
      assert m.Obj? ==> MetadataOf(doc) == m.members;
      assert !m.Obj? ==> MetadataOf(doc) == map[];
      match Child(m, field)
      case None =>
      case Some(v) => assert Lookup(v, []) == Some(v);
  }

  lemma FieldIsNoIndex(field: string)
    requires field in {"metadata", "resourceVersion", "uid"}
    ensures ArrayIndex(field) == None
  {
    var last := field[|field| - 1];
    assert !('0' <= last <= '9');
  }

  lemma TestsMeaning(ref: PatchRef, doc: Json)
    ensures ApplyOps(Tests(ref), doc) ==
      if Carries(doc, ref.approvedVersion, ref.approvedUid) then Some(doc) else None
  {
    var tests := Tests(ref);
    TestOpMeaning("resourceVersion", ref.approvedVersion, doc);
    TestOpMeaning("uid", ref.approvedUid, doc);
    assert tests[1..][1..] == [];
    assert ApplyOps(tests[1..], doc) == ApplyOp(tests[1], doc) by {
      if ApplyOp(tests[1], doc).Some? { assert ApplyOps(tests[1..][1..], doc) == Some(doc); }
    }
  }

  /**
   * RFC 6902: the rewritten patch succeeds exactly on a document that carries the approved state,
   * when the caller's operations succeed on it and leave that state in place, and then it is the
   * caller's operations and nothing else.
   */
  lemma GuardedJsonPatch(ref: PatchRef, doc: Json)
    requires ref.patchType.JsonOps? && Guarded(ref).Ok?
    ensures ref.patch.Arr? && Guarded(ref).value.Arr?
    ensures
      var alone := ApplyOps(ref.patch.items, doc);
      ApplyOps(Guarded(ref).value.items, doc) ==
      if Carries(doc, ref.approvedVersion, ref.approvedUid) && alone.Some? && Carries(alone.value, ref.approvedVersion, ref.approvedUid)
      then alone else None
  {
    var tests, ops := Tests(ref), ref.patch.items;
    ApplyOpsConcat(tests + ops, tests, doc);
    ApplyOpsConcat(tests, ops, doc);
    TestsMeaning(ref, doc);
    if ApplyOps(ops, doc).Some? {
      TestsMeaning(ref, ApplyOps(ops, doc).value);
    }
  }

  /** The document with the conditions written into its metadata and nothing else touched. */
  function Pin(doc: Json, version: string, uid: string): Json
    requires doc.Obj?
  {
    Obj(doc.members["metadata" := Obj(MetadataOf(doc)["resourceVersion" := Str(version)]["uid" := Str(uid)])])
  }

  /** RFC 7396: on any document the rewritten merge patch differs from the caller's in the two pinned fields only. */
  lemma GuardedMergePatch(ref: PatchRef, doc: Json)
    requires ref.patchType.Merge? && Guarded(ref).Ok?
    ensures MergePatch(Some(doc), ref.patch).Obj?
    ensures MergePatch(Some(doc), Guarded(ref).value) == Pin(MergePatch(Some(doc), ref.patch), ref.approvedVersion, ref.approvedUid)
  {
    var p := ref.patch.members;
    var body := Guarded(ref).value.members;
    var base := BaseMembers(Some(doc));
    var plain := MergePatch(Some(doc), ref.patch);
    var full := MergePatch(Some(doc), Guarded(ref).value);
    var pinned := Pin(plain, ref.approvedVersion, ref.approvedUid);
    forall k
      ensures Member(full.members, k) == Member(pinned.members, k)
    {
      MergeMember(Some(doc), body, k);
      MergeMember(Some(doc), p, k);
      if k == "metadata" {
        MergePinnedMetadata(Member(base, k), PatchMetadata(p), ref.approvedVersion, ref.approvedUid);
        PlainMetadata(ref, doc);
      }
    }
    SameMembers(full.members, pinned.members);
  }

  /** The metadata a caller's merge patch leaves, before pinning. */
  lemma PlainMetadata(ref: PatchRef, doc: Json)
    requires ref.patchType.Merge? && Guarded(ref).Ok?
    ensures
      MetadataOf(MergePatch(Some(doc), ref.patch)) ==
      MergePatch(Member(BaseMembers(Some(doc)), "metadata"), Obj(PatchMetadata(ref.patch.members))).members
  {
    var p := ref.patch.members;
    var target := Member(BaseMembers(Some(doc)), "metadata");
    MergeMember(Some(doc), p, "metadata");
    if "metadata" !in p {
      forall k
        ensures Member(MergePatch(target, Obj(map[])).members, k) == Member(BaseMembers(target), k)
      {
        MergeMember(target, map[], k);
      }
      SameMembers(MergePatch(target, Obj(map[])).members, BaseMembers(target));
    }
  }

  lemma MergePinnedMetadata(target: Option<Json>, m: Members, version: string, uid: string)
    requires !Conflicts(m, "resourceVersion", version) && !Conflicts(m, "uid", uid)
    ensures MergePatch(target, Obj(m["resourceVersion" := Str(version)]["uid" := Str(uid)])) ==
            Obj(MergePatch(target, Obj(m)).members["resourceVersion" := Str(version)]["uid" := Str(uid)])
  {
    var m' := m["resourceVersion" := Str(version)]["uid" := Str(uid)];
    var l := MergePatch(target, Obj(m')).members;
    var r := MergePatch(target, Obj(m)).members["resourceVersion" := Str(version)]["uid" := Str(uid)];
    forall k
      ensures Member(l, k) == Member(r, k)
    {
      MergeMember(target, m', k);
      MergeMember(target, m, k);
    }
    SameMembers(l, r);
  }

  /** On a document already at the approved state, the rewritten merge patch is the caller's merge patch. */
  lemma GuardedMergeOnApproved(ref: PatchRef, doc: Json)
    requires ref.patchType.Merge? && Guarded(ref).Ok?
    requires Carries(doc, ref.approvedVersion, ref.approvedUid)
    ensures MergePatch(Some(doc), Guarded(ref).value) == MergePatch(Some(doc), ref.patch)
  {
    GuardedMergePatch(ref, doc);
    PlainMetadata(ref, doc);
    var target := Member(BaseMembers(Some(doc)), "metadata");
    MergeMember(Some(doc), ref.patch.members, "metadata");
    MergeMember(target, PatchMetadata(ref.patch.members), "resourceVersion");
    MergeMember(target, PatchMetadata(ref.patch.members), "uid");
    var r := MergePatch(Some(doc), ref.patch);
    var m := MetadataOf(r);
    assert Member(m, "resourceVersion") == Some(Str(ref.approvedVersion));
    assert Member(m, "uid") == Some(Str(ref.approvedUid));
    assert m["resourceVersion" := Str(ref.approvedVersion)]["uid" := Str(ref.approvedUid)] == m;
    assert r.members["metadata" := Obj(m)] == r.members;
  }

  // ---- The apiserver's optimistic lock ----

  /** A stored object: its metadata names one version and one incarnation. */
  predicate Stored(doc: Json)
  {
    var m := MetadataOf(doc);
    && "resourceVersion" in m && m["resourceVersion"].Str? && m["resourceVersion"].text != ""
    && "uid" in m && m["uid"].Str? && m["uid"].text != ""
  }

  function VersionOf(doc: Json): string
    requires Stored(doc)
  {
    MetadataOf(doc)["resourceVersion"].text
  }

  function UidOf(doc: Json): string
    requires Stored(doc)
  {
    MetadataOf(doc)["uid"].text
  }

  /** A write whose metadata names another version or another incarnation is a conflict. */
  predicate LockAdmits(current: Json, proposed: Json)
  {
    var m := MetadataOf(proposed);
    && Stored(current)
    && !Conflicts(m, "resourceVersion", VersionOf(current))
    && !Conflicts(m, "uid", UidOf(current))
  }

  /** What a conditional write leaves to be stored, before a new version is stamped on it; None is a refusal. */
  function Patched(ref: PatchRef, current: Json): Option<Json>
    requires Guarded(ref).Ok? && (ref.patchType.JsonOps? || ref.patchType.Merge?)
  {
    var proposed := if ref.patchType.JsonOps? then ApplyOps(Guarded(ref).value.items, current)
                    else Some(MergePatch(Some(current), Guarded(ref).value));
    if proposed.Some? && LockAdmits(current, proposed.value) then proposed else None
  }

  /** The caller's patch on its own, with none of the conditions. */
  function CallersPatch(ref: PatchRef, current: Json): Option<Json>
    requires ref.patchType.JsonOps? ==> ref.patch.Arr?
  {
    if ref.patchType.JsonOps? then ApplyOps(ref.patch.items, current) else Some(MergePatch(Some(current), ref.patch))
  }

  /**
   * A guarded JSON or merge patch goes through on the approved state or not at all, and when it goes
   * through it is the caller's patch. A merge patch always goes through there; a JSON patch does when
   * its operations succeed and keep the state's identity.
   */
  lemma PatchHitsApprovedStateOnly(ref: PatchRef, current: Json)
    requires Guarded(ref).Ok? && (ref.patchType.JsonOps? || ref.patchType.Merge?)
    requires Stored(current)
    ensures Patched(ref, current).Some? ==>
      && Carries(current, ref.approvedVersion, ref.approvedUid)
      && Patched(ref, current) == CallersPatch(ref, current)
    ensures ref.patchType.Merge? && Carries(current, ref.approvedVersion, ref.approvedUid) ==> Patched(ref, current).Some?
    ensures ref.patchType.JsonOps? && Carries(current, ref.approvedVersion, ref.approvedUid) ==>
      var alone := CallersPatch(ref, current);
      Patched(ref, current).Some? <==> alone.Some? && Carries(alone.value, ref.approvedVersion, ref.approvedUid)
  {
    if ref.patchType.JsonOps? {
      GuardedJsonPatch(ref, current);
    } else {
      GuardedMergePatch(ref, current);
      var proposed := MergePatch(Some(current), Guarded(ref).value);
      assert MetadataOf(proposed)["resourceVersion"] == Str(ref.approvedVersion);
      assert MetadataOf(proposed)["uid"] == Str(ref.approvedUid);
      if Carries(current, ref.approvedVersion, ref.approvedUid) {
        GuardedMergeOnApproved(ref, current);
      }
    }
  }

  /**
   * Strategic merge and server-side apply: the body names the approved version (and uid, except for
   * apply, which keeps only a uid the caller gave and that agrees), and every other root and metadata
   * member is the caller's own.
   */
  lemma PinnedBody(ref: PatchRef)
    requires Guarded(ref).Ok? && (ref.patchType.Strategic? || ref.patchType.Apply?)
    ensures ref.patch.Obj? && Guarded(ref).value.Obj?
    ensures
      var body, given := Guarded(ref).value.members, ref.patch.members;
      var m, gm := MetadataOf(Guarded(ref).value), PatchMetadata(given);
      && Member(m, "resourceVersion") == Some(Str(ref.approvedVersion))
      && (ref.patchType.Strategic? ==> Member(m, "uid") == Some(Str(ref.approvedUid)))
      && (ref.patchType.Apply? ==> Member(m, "uid") == Member(gm, "uid") && !Conflicts(gm, "uid", ref.approvedUid))
      && (forall k | k != "resourceVersion" && k != "uid" :: Member(m, k) == Member(gm, k))
      && (ref.patchType.Strategic? ==>
            && (forall k | k != "metadata" :: Member(body, k) == Member(given, k))
            && (forall k | k in body || k in m :: !Text.HasPrefix(k, "$")))
      && (ref.patchType.Apply? ==>
            && Member(body, "apiVersion") == Some(Str(ref.apiVersion)) && Member(body, "kind") == Some(Str(ref.kind))
            && (forall k | k !in {"metadata", "apiVersion", "kind"} :: Member(body, k) == Member(given, k)))
  {
    if ref.patchType.Strategic? {
      var body := Guarded(ref).value.members;
      var m := MetadataOf(Guarded(ref).value);
      forall k | k in body || k in m
        ensures !Text.HasPrefix(k, "$")
      {
        assert "metadata"[0] != '$' && "resourceVersion"[0] != '$' && "uid"[0] != '$';
        if k in body && k != "metadata" { assert k in ref.patch.members; }
        if k in m && k != "resourceVersion" && k != "uid" { assert k in PatchMetadata(ref.patch.members); }
      }
    }
  }

  /** A merge patch is refused exactly when it is no object, its metadata is no object, or it names another state. */
  lemma MergeRefusedExactly(ref: PatchRef)
    requires ref.patchType.Merge? && ref.approvedVersion != "" && ref.approvedUid != ""
    ensures Guarded(ref).Ok? <==>
      && ref.patch.Obj?
      && ("metadata" in ref.patch.members ==>
            && ref.patch.members["metadata"].Obj?
            && (forall field, want | (field, want) in {("resourceVersion", ref.approvedVersion), ("uid", ref.approvedUid)} ::
                  Member(ref.patch.members["metadata"].members, field) in {None, Some(Str(want))}))
  {
    if ref.patch.Obj? && "metadata" in ref.patch.members && ref.patch.members["metadata"].Obj? {
      var m := ref.patch.members["metadata"].members;
      var pairs := {("resourceVersion", ref.approvedVersion), ("uid", ref.approvedUid)};
      assert ("resourceVersion", ref.approvedVersion) in pairs && ("uid", ref.approvedUid) in pairs;
      if Guarded(ref).Ok? {
        forall field, want | (field, want) in pairs
          ensures Member(m, field) in {None, Some(Str(want))}
        {
        }
      }
    }
  }

  // ---- when a body is accepted ----

  /** A JSON Patch of any length is accepted, for an approved state that is named in full. */
  lemma JsonPatchAcceptedExactly(ref: PatchRef)
    requires ref.patchType.JsonOps?
    ensures Guarded(ref).Ok? <==> ref.approvedVersion != "" && ref.approvedUid != "" && ref.patch.Arr?
    ensures Guarded(ref).Ok? ==> Guarded(ref).value.Arr? && |Guarded(ref).value.items| == |ref.patch.items| + 4
    ensures Guarded(ref).Ok? ==>
      var (items, given) := (Guarded(ref).value.items, ref.patch.items);
      && items[2..|items| - 2] == given
      && items[..2] == items[|items| - 2..] == [
           Obj(map["op" := Str("test"), "path" := Str("/metadata/resourceVersion"), "value" := Str(ref.approvedVersion)]),
           Obj(map["op" := Str("test"), "path" := Str("/metadata/uid"), "value" := Str(ref.approvedUid)])]
  {
    assert "/metadata/" + "resourceVersion" == "/metadata/resourceVersion" && "/metadata/" + "uid" == "/metadata/uid";
  }

  /** The metadata a body names: none, or an object that is silent about the approved version and uid or agrees with them. */
  predicate AgreesWith(body: Members, version: string, uid: string)
  {
    "metadata" in body ==>
      && body["metadata"].Obj?
      && var m := body["metadata"].members;
         && ("resourceVersion" in m ==> m["resourceVersion"] == Str(version))
         && ("uid" in m ==> m["uid"] == Str(uid))
  }

  /** A strategic merge is accepted unless it names another state or has a directive where it could undo the conditions. */
  lemma StrategicAcceptedExactly(ref: PatchRef)
    requires ref.patchType.Strategic?
    ensures Guarded(ref).Ok? <==>
      && ref.approvedVersion != "" && ref.approvedUid != "" && ref.patch.Obj?
      && AgreesWith(ref.patch.members, ref.approvedVersion, ref.approvedUid)
      && (forall k | k in ref.patch.members && k != "" :: k[0] != '$')
      && ("metadata" in ref.patch.members ==>
            forall k | k in ref.patch.members["metadata"].members && k != "" :: k[0] != '$')
  {
    if ref.patch.Obj? {
      NoDirective(ref.patch.members);
      NoDirective(PatchMetadata(ref.patch.members));
    }
  }

  lemma NoDirective(m: Members)
    ensures HasDirective(m) <==> exists k :: k in m && k != "" && k[0] == '$'
  {
    forall k | k in m
      ensures Text.HasPrefix(k, "$") <==> k != "" && k[0] == '$'
    {
      assert k != "" ==> k[..1] == [k[0]];
    }
  }

  /** An apply is accepted, directives and all, unless it names another state or another object. */
  lemma ApplyAcceptedExactly(ref: PatchRef)
    requires ref.patchType.Apply?
    ensures Guarded(ref).Ok? <==>
      && ref.approvedVersion != "" && ref.approvedUid != "" && ref.patch.Obj?
      && AgreesWith(ref.patch.members, ref.approvedVersion, ref.approvedUid)
      && ("apiVersion" in ref.patch.members ==> ref.patch.members["apiVersion"] == Str(ref.apiVersion))
      && ("kind" in ref.patch.members ==> ref.patch.members["kind"] == Str(ref.kind))
  {
  }

  // ---- UpdateResource ----

  /** The manifest as UpdateResource sends it. */
  function VersionedManifest(manifest: Json, approvedVersion: string): Result<Json, Refusal>
  {
    if approvedVersion == "" then Err(NoApprovedState)
    else if !(manifest.Obj? && "metadata" in manifest.members && manifest.members["metadata"].Obj?) then Err(MetadataNotAnObject)
    else
      var metadata := manifest.members["metadata"].members;
      if Conflicts(metadata, "resourceVersion", approvedVersion) then Err(TargetDiffers)
      else Ok(Obj(manifest.members["metadata" := Obj(metadata["resourceVersion" := Str(approvedVersion)])]))
  }

  /** A manifest is sent when it has metadata that leaves the version open or names the approved one. */
  lemma ManifestAcceptedExactly(manifest: Json, approvedVersion: string)
    ensures VersionedManifest(manifest, approvedVersion).Ok? <==>
      && approvedVersion != "" && manifest.Obj? && "metadata" in manifest.members && manifest.members["metadata"].Obj?
      && var m := manifest.members["metadata"].members;
         "resourceVersion" in m ==> m["resourceVersion"] == Str(approvedVersion)
  {
  }

  /** The body a replica change is written as. */
  function ScaleObject(namespace: string, name: string, replicas: nat): Json
  {
    var named: Members := map["name" := Str(name)];
    Obj(map[
      "apiVersion" := Str("autoscaling/v1"),
      "kind" := Str("Scale"),
      "metadata" := Obj(if namespace != "" then named["namespace" := Str(namespace)] else named),
      "spec" := Obj(map["replicas" := Num(Text.Decimal(replicas))])])
  }

  /**
   * A replacement is stored only over the approved version, and a manifest the caller left without a
   * version is never turned into an unconditional write.
   */
  lemma UpdateHitsApprovedVersionOnly(manifest: Json, approvedVersion: string, current: Json)
    requires VersionedManifest(manifest, approvedVersion).Ok? && Stored(current)
    ensures
      var body := VersionedManifest(manifest, approvedVersion).value;
      && (LockAdmits(current, body) <==>
            VersionOf(current) == approvedVersion && !Conflicts(MetadataOf(manifest), "uid", UidOf(current)))
      && (forall k | k != "metadata" :: Member(body.members, k) == Member(manifest.members, k))
      && (forall k | k != "resourceVersion" :: Member(MetadataOf(body), k) == Member(MetadataOf(manifest), k))
  {
    var body := VersionedManifest(manifest, approvedVersion).value;
    assert MetadataOf(body)["resourceVersion"] == Str(approvedVersion);
    assert Member(MetadataOf(body), "uid") == Member(MetadataOf(manifest), "uid");
  }

  /** A scale write is never refused for its own body, and it too names the approved version. */
  lemma ScaleIsVersioned(namespace: string, name: string, replicas: nat, approvedVersion: string)
    requires approvedVersion != ""
    ensures
      var r := VersionedManifest(ScaleObject(namespace, name, replicas), approvedVersion);
      r.Ok? && Member(MetadataOf(r.value), "resourceVersion") == Some(Str(approvedVersion))
  {
    var scale := ScaleObject(namespace, name, replicas);
    assert "metadata" in scale.members && scale.members["metadata"].Obj?;
    assert "resourceVersion" !in scale.members["metadata"].members;
  }
}
