/**
 * The gate's decision in the words of the deployment: which kinds are sensitive, which verbs need approval,
 * which pair and which object a call's arguments name.
 */
module GateDecision {
  import opened Results
  import opened Json
  import opened ApprovalGate
  import opened Declarations
  import opened Protocol
  import opened ProtocolTheorems
  import Text

  // ---- sensitive kinds ----

  /** The resource half of a pair: an object's resource, or a subresource of it. */
  predicate Of(resource: string, base: string, sub: string)
  {
    '/' !in base && (resource == base || resource == base + "/" + sub)
  }

  /** An entry of the list, `Kind` or `group/version/Kind`, spells this resource: the kind in lower case, with or without an s. */
  predicate Spells(entry: string, group: string, kind: string, base: string)
  {
    && '/' !in kind && (entry == kind || entry == group + "/" + kind)
    && (base == Text.Lower(kind) || base == Text.Lower(kind) + "s")
  }

  ghost predicate ListsResource(entry: string, base: string)
  {
    exists group, kind :: Spells(entry, group, kind, base)
  }

  /** Some entry of the list, whichever it is, spells the resource. */
  ghost predicate Listed(sensitiveKinds: seq<string>, base: string)
  {
    exists i :: 0 <= i < |sensitiveKinds| && ListsResource(sensitiveKinds[i], base)
  }

  lemma {:induction false} BeforeSlash(base: string, tail: string)
    requires '/' !in base
    ensures Text.Before(base + "/" + tail, '/') == base
  {
    var s := base + "/" + tail;
    if base != "" {
      BeforeSlash(base[1..], tail);
      assert s[1..] == base[1..] + "/" + tail;
    }
  }

  lemma ResourceOf(resource: string, base: string, sub: string)
    requires Of(resource, base, sub)
    ensures Text.Before(resource, '/') == base
  {
    if resource == base {
      BeforePlain(resource, '/');
    } else {
      BeforeSlash(base, sub);
    }
  }

  lemma {:induction false} LastPart(entry: string)
    ensures '/' !in Text.AfterLast(entry, '/')
    ensures entry == Text.AfterLast(entry, '/') || exists group :: entry == group + "/" + Text.AfterLast(entry, '/')
  {
    if entry != "" {
      var front, last := entry[..|entry| - 1], entry[|entry| - 1];
      assert entry == front + [last];
      if last == '/' {
        assert entry == front + "/" + "";
      } else {
        LastPart(front);
        if group :| front == group + "/" + Text.AfterLast(front, '/') {
          assert entry == group + "/" + Text.AfterLast(entry, '/');
        }
      }
    }
  }

  lemma {:induction false} NoGroup(kind: string)
    requires '/' !in kind
    ensures Text.AfterLast(kind, '/') == kind
  {
    if kind != "" {
      NoGroup(kind[..|kind| - 1]);
    }
  }

  lemma EntryExactly(entry: string, base: string)
    ensures ListsResource(entry, base) <==>
      var name := Text.Lower(Text.AfterLast(entry, '/')); base == name + "s" || base == name
  {
    var kind := Text.AfterLast(entry, '/');
    LastPart(entry);
    if entry == kind {
      assert Spells(entry, "", kind, base) <==> base == Text.Lower(kind) || base == Text.Lower(kind) + "s";
    } else {
      var group :| entry == group + "/" + kind;
      assert Spells(entry, group, kind, base) <==> base == Text.Lower(kind) || base == Text.Lower(kind) + "s";
    }
    if group, other :| Spells(entry, group, other, base) {
      if entry == other { NoGroup(other); } else { SensitiveName(group, other); }
    }
  }

  /** For lists of any length, and for subresources: sensitive exactly when some entry spells the object's resource. */
  lemma SensitiveExactly(p: Pair, sensitiveKinds: seq<string>, base: string, sub: string)
    requires Of(p.resource, base, sub)
    ensures ResourceIsSensitive(p, sensitiveKinds) <==> Listed(sensitiveKinds, base)
  {
    ResourceOf(p.resource, base, sub);
    forall i | 0 <= i < |sensitiveKinds|
      ensures ListsResource(sensitiveKinds[i], base) <==>
        var name := Text.Lower(Text.AfterLast(sensitiveKinds[i], '/')); base == name + "s" || base == name
    {
      EntryExactly(sensitiveKinds[i], base);
    }
  }

  // ---- verbs ----

  /** What needs approval: every change of state, and reading or watching what is listed. */
  ghost predicate AsksFor(verb: string, sensitiveKinds: seq<string>, base: string)
  {
    || verb in {"create", "update", "patch", "delete", "deletecollection"}
    || (verb in {"get", "watch"} && Listed(sensitiveKinds, base))
  }

  lemma NeedsApprovalExactly(p: Pair, sensitiveKinds: seq<string>, base: string, sub: string)
    requires Of(p.resource, base, sub)
    ensures NeedsApproval(p, sensitiveKinds) <==> AsksFor(p.verb, sensitiveKinds, base)
  {
    SensitiveExactly(p, sensitiveKinds, base, sub);
  }

  // ---- the pair a call names ----

  function Argument(m: Members, key: string): string
  {
    if key in m && m[key].Str? then m[key].text else ""
  }

  /** The method of a proxied call, in any case, as the verb it is authorised as. */
  predicate MethodVerb(httpMethod: string, verb: string)
  {
    || (Text.Lower(httpMethod) == "get" && verb == "get")
    || (Text.Lower(httpMethod) == "post" && verb == "create")
    || (Text.Lower(httpMethod) == "put" && verb == "update")
    || (Text.Lower(httpMethod) == "patch" && verb == "patch")
    || (Text.Lower(httpMethod) == "delete" && verb == "delete")
  }

  /** The verb and the subresource each tool acts with. */
  predicate ActsWith(tool: Tool, m: Members, verb: string, sub: string)
  {
    match tool
    case ResourceGet => verb == "get" && sub == Argument(m, "subresource")
    case ResourceList => verb == "list" && sub == Argument(m, "subresource")
    case ResourceWatch => verb == "watch" && sub == Argument(m, "subresource")
    case ResourcePatch => verb == "patch" && sub == Argument(m, "subresource")
    case ResourceUpdate => verb == "update" && sub == Argument(m, "subresource") && sub in {"", "scale"}
    case ResourceDelete => verb == "delete" && sub == "" && "subresource" !in m
    case ResourceDeleteCollection => verb == "deletecollection" && sub == "" && "subresource" !in m
    case ResourceExec => verb == "create" && sub == "exec"
    case ResourceAttach => verb == "create" && sub == "attach"
    case ResourcePortForward => verb == "create" && sub == "portforward"
    case ResourceProxy => MethodVerb(Argument(m, "method"), verb) && sub == "proxy"
    case _ => false
  }

  /** The resource of a kind, or a subresource of it. */
  predicate ResourceNamed(env: Env, kind: string, sub: string, resource: string)
  {
    resource == if sub == "" then env.plural(kind) else env.plural(kind) + "/" + sub
  }

  predicate ActsOn(tool: Tool, env: Env, m: Members, verb: string, sub: string, pairs: seq<Pair>)
  {
    && ActsWith(tool, m, verb, sub) && |pairs| == 1 && pairs[0].verb == verb
    && Argument(m, "apiVersion") != "" && Argument(m, "kind") != "" && env.validGroupVersion(Argument(m, "apiVersion"))
    && ResourceNamed(env, Argument(m, "kind"), sub, pairs[0].resource)
  }

  /** Every tool with an object, outside a batch: the one pair of a call that resolves, from its own arguments. */
  lemma ToolPair(tool: Tool, env: Env, args: Json)
    requires Shipped(tool).Resolved? && !tool.ResourceCreate? && CallPairs(Shipped(tool), env, args).Some?
    ensures args.Obj? && exists verb, sub :: ActsOn(tool, env, args.members, verb, sub, CallPairs(Shipped(tool), env, args).value)
  {
    var m, pairs := args.members, CallPairs(Shipped(tool), env, args).value;
    if tool.ResourceExec? {
      ExecPair(env, args);
    } else if tool.ResourceAttach? {
      AttachPair(env, args);
    } else if tool.ResourcePortForward? {
      PortForwardPair(env, args);
    } else if tool.ResourceProxy? {
      ProxyPair(env, args);
    } else if tool.ResourceUpdate? || tool.ResourceDelete? || tool.ResourceDeleteCollection? {
      WritePair(tool, env, args);
    } else {
      assert ActsOn(tool, env, m, pairs[0].verb, Argument(m, "subresource"), pairs);
    }
  }

  lemma WritePair(tool: Tool, env: Env, args: Json)
    requires (tool.ResourceUpdate? || tool.ResourceDelete? || tool.ResourceDeleteCollection?) && CallPairs(Shipped(tool), env, args).Some?
    ensures
      var pairs := CallPairs(Shipped(tool), env, args).value;
      args.Obj? && |pairs| == 1 && ActsOn(tool, env, args.members, pairs[0].verb, Argument(args.members, "subresource"), pairs)
  {
  }

  lemma ExecPair(env: Env, args: Json)
    requires CallPairs(Shipped(ResourceExec), env, args).Some?
    ensures args.Obj? && ActsOn(ResourceExec, env, args.members, "create", "exec", CallPairs(Shipped(ResourceExec), env, args).value)
  {
  }

  lemma AttachPair(env: Env, args: Json)
    requires CallPairs(Shipped(ResourceAttach), env, args).Some?
    ensures args.Obj? && ActsOn(ResourceAttach, env, args.members, "create", "attach", CallPairs(Shipped(ResourceAttach), env, args).value)
  {
  }

  lemma PortForwardPair(env: Env, args: Json)
    requires CallPairs(Shipped(ResourcePortForward), env, args).Some?
    ensures
      args.Obj? && ActsOn(ResourcePortForward, env, args.members, "create", "portforward", CallPairs(Shipped(ResourcePortForward), env, args).value)
  {
  }

  lemma ProxyPair(env: Env, args: Json)
    requires CallPairs(Shipped(ResourceProxy), env, args).Some?
    ensures args.Obj? && exists verb, sub :: ActsOn(ResourceProxy, env, args.members, verb, sub, CallPairs(Shipped(ResourceProxy), env, args).value)
  {
    var pairs := CallPairs(Shipped(ResourceProxy), env, args).value;
    MethodSpendsVerb(StringOrEmpty(args.members, "method"));
    assert ActsOn(ResourceProxy, env, args.members, pairs[0].verb, "proxy", pairs);
  }

  lemma MethodSpendsVerb(httpMethod: string)
    ensures ProxyVerb(httpMethod).Some? ==> MethodVerb(httpMethod, ProxyVerb(httpMethod).value)
    ensures ProxyVerb(httpMethod).Some? <==> Text.Lower(httpMethod) in {"get", "post", "put", "patch", "delete"}
  {
  }

  /** Reading tools and patches resolve for every object with an apiVersion that parses and a kind. */
  lemma GenericResolvesExactly(tool: Tool, env: Env, args: Json)
    requires tool.ResourceGet? || tool.ResourceList? || tool.ResourceWatch? || tool.ResourcePatch?
    ensures CallPairs(Shipped(tool), env, args).Some? <==>
      && args.Obj? && Argument(args.members, "apiVersion") != "" && Argument(args.members, "kind") != ""
      && env.validGroupVersion(Argument(args.members, "apiVersion"))
  {
  }

  // ---- what the gate asks about ----

  lemma BelowBase(plural: string, base: string, rest: string, sub: string) returns (below: string)
    requires Of(plural, base, rest)
    ensures Of(if sub == "" then plural else plural + "/" + sub, base, below)
  {
    if sub == "" {
      below := rest;
    } else if plural == base {
      below := sub;
    } else {
      below := rest + "/" + sub;
      assert plural + "/" + sub == base + "/" + below;
    }
  }

  /**
   * The decision, where `base` is the resource of the call's kind: a call of a reading tool is held exactly when it is listed, one of the list tool never,
   * one that changes an object or runs something in it always, and one through the proxy whatever its method.
   */
  lemma GatedExactly(tool: Tool, env: Env, sensitiveKinds: seq<string>, args: Json, base: string, rest: string)
    requires Shipped(tool).Resolved? && !tool.ResourceCreate? && CallPairs(Shipped(tool), env, args).Some?
    requires Of(env.plural(Argument(args.members, "kind")), base, rest)
    ensures GatedPairs(Shipped(tool), env, sensitiveKinds, args).Some?
    ensures
      var (gated, pairs) := (GatedPairs(Shipped(tool), env, sensitiveKinds, args).value, CallPairs(Shipped(tool), env, args).value);
      gated == match tool
               case ResourceGet | ResourceWatch => if Listed(sensitiveKinds, base) then pairs else []
               case ResourceList => []
               case _ => pairs
  {
    ToolPair(tool, env, args);
    var pairs := CallPairs(Shipped(tool), env, args).value;
    var verb, sub :| ActsOn(tool, env, args.members, verb, sub, pairs);
    assert pairs == [pairs[0]];
    var below := BelowBase(env.plural(Argument(args.members, "kind")), base, rest, sub);
    NeedingOne(pairs[0], sensitiveKinds);
    NeedsApprovalExactly(pairs[0], sensitiveKinds, base, below);
  }

  /** A document of a create call says itself what it is, and is gated as the creation of that. */
  lemma DocumentIsItself(env: Env, body: Json, d: Document)
    requires ParseDocument(env, body) == Some(d)
    ensures body.Obj? && d.body == body
    ensures
      var m := body.members;
      && Argument(m, "apiVersion") == d.apiVersion != "" && Argument(m, "kind") == d.kind != "" && env.validGroupVersion(d.apiVersion)
      && "metadata" in m && m["metadata"].Obj? && Argument(m["metadata"].members, "name") == d.name != ""
      && d.namespace == (if "namespace" in m["metadata"].members then Some(Argument(m["metadata"].members, "namespace")) else None)
      && d.pair == Pair("create", env.plural(d.kind))
  {
  }

  /** A body is a document when it is an object that names its apiVersion, kind and name, and a namespace if it has one. */
  lemma DocumentExactly(env: Env, body: Json)
    ensures ParseDocument(env, body).Some? <==>
      && body.Obj? && !Text.Blank(Argument(body.members, "apiVersion")) && !Text.Blank(Argument(body.members, "kind"))
      && "metadata" in body.members && body.members["metadata"].Obj?
      && !Text.Blank(Argument(body.members["metadata"].members, "name"))
      && ("namespace" in body.members["metadata"].members ==> !Text.Blank(Argument(body.members["metadata"].members, "namespace")))
      && env.validGroupVersion(Argument(body.members, "apiVersion"))
  {
    assert Text.Blank("");
  }

  lemma {:induction false} ObjectsExactly(env: Env, objects: seq<Json>)
    ensures ParseObjects(env, objects).Some? <==> forall o | o in objects :: ParseDocument(env, o).Some?
    ensures ParseObjects(env, objects).Some? ==>
      forall i | 0 <= i < |objects| :: ParseDocument(env, objects[i]) == Some(ParseObjects(env, objects).value[i])
  {
    if objects != [] {
      ObjectsExactly(env, objects[1..]);
      assert objects == [objects[0]] + objects[1..];
    }
  }

  /** The objects a manifest argument holds: itself, or what its text decodes to. */
  predicate Holds(env: Env, manifest: Json, objects: seq<Json>)
  {
    && objects != []
    && match manifest
       case Obj(_) => objects == [manifest]
       case Str(text) => env.documents(text) == Some(objects)
       case _ => false
  }

  /** A create call names a manifest and nothing else, and every object in it is a document; they are created in their order. */
  lemma CreateExactly(env: Env, args: Json)
    ensures ParseCreateDocuments(env, args).Some? <==>
      && args.Obj? && args.members.Keys == {"manifest"}
      && exists objects :: Holds(env, args.members["manifest"], objects) && forall o | o in objects :: ParseDocument(env, o).Some?
    ensures ParseCreateDocuments(env, args).Some? ==>
      exists objects :: Holds(env, args.members["manifest"], objects) && |objects| == |ParseCreateDocuments(env, args).value|
        && forall i | 0 <= i < |objects| :: ParseDocument(env, objects[i]) == Some(ParseCreateDocuments(env, args).value[i])
  {
    if args.Obj? && args.members.Keys == {"manifest"} {
      assert "manifest" in args.members;
      var manifest := args.members["manifest"];
      var found := match manifest
                   case Obj(_) => Some([manifest])
                   case Str(text) => env.documents(text)
                   case _ => None;
      if found.Some? && found.value != [] {
        assert Holds(env, manifest, found.value);
        ObjectsExactly(env, found.value);
      }
    }
  }

  // ---- the object a call names ----

  /** The target is named by the call's own arguments, the namespace when one is given. */
  lemma TargetExactly(args: Json, at: Coord)
    ensures TargetCoord(args) == Some(at) <==>
      && args.Obj? && at.apiVersion != "" && at.kind != "" && at.name != ""
      && Argument(args.members, "apiVersion") == at.apiVersion && Argument(args.members, "kind") == at.kind
      && Argument(args.members, "name") == at.name
      && at.namespace == (if Argument(args.members, "namespace") == "" then None else Some(Argument(args.members, "namespace")))
  {
  }

  // ---- requests ----

  /** The verb, the kind and the subresource a request to one resource is authorised as. */
  predicate RequestsAs(r: Request, verb: string, apiVersion: string, kind: string, sub: string)
  {
    match r
    case Read(v, a, k, s) => (v, a, k, s) == (verb, apiVersion, kind, sub)
    case Stream(v, a, k, s) => (v, a, k, s) == (verb, apiVersion, kind, sub)
    case Create(at, _) => ("create", at.apiVersion, at.kind, "") == (verb, apiVersion, kind, sub)
    case Update(at, s, _, _) => ("update", at.apiVersion, at.kind, s) == (verb, apiVersion, kind, sub)
    case Patch(at, _) => ("patch", at.apiVersion, at.kind, "") == (verb, apiVersion, kind, sub)
    case Delete(at) => ("delete", at.apiVersion, at.kind, "") == (verb, apiVersion, kind, sub)
    case DeleteCollection(a, k, _) => ("deletecollection", a, k, "") == (verb, apiVersion, kind, sub)
    case _ => false
  }

  /** A request needs approval exactly when its verb changes state, or reads or watches what is listed. */
  lemma RequestNeedsGateExactly(w: World, r: Request, verb: string, apiVersion: string, kind: string, sub: string, base: string, rest: string)
    requires RequestsAs(r, verb, apiVersion, kind, sub) && Of(w.env.plural(kind), base, rest)
    ensures NeedsGate(w, r) <==> w.env.validGroupVersion(apiVersion) && AsksFor(verb, w.sensitiveKinds, base)
  {
    if w.env.validGroupVersion(apiVersion) {
      var p := Pair(verb, if sub == "" then w.env.plural(kind) else w.env.plural(kind) + "/" + sub);
      assert RequestPairs(w.env, r) == Some([p]);
      assert [p][0] == p;
      var below := BelowBase(w.env.plural(kind), base, rest, sub);
      NeedsApprovalExactly(p, w.sensitiveKinds, base, below);
    }
  }

  /** Running a command in a pod always does; discovery never. */
  lemma OtherRequestsNeedGate(w: World)
    ensures NeedsGate(w, ExecInPod) && !NeedsGate(w, Discovery)
  {
    var pairs := RequestPairs(w.env, ExecInPod).value;
    assert pairs[1] == Pair("create", "pods/exec") && pairs[1] in pairs;
  }
}
