/**
 * What each tool declares about itself: the permission pairs a call exercises, which of them need
 * approval, and whether a tool may ask for one at all.
 */
module Declarations {
  import opened Results
  import opened Json
  import opened ApprovalGate
  import opened ReasonArgument
  import CredentialMask
  import Text

  /**
   * What the model leaves open: which apiVersions parse, apimachinery's guess of a kind's plural, and the
   * decoding of a YAML manifest into documents.
   */
  datatype Env = Env(validGroupVersion: string -> bool, plural: string -> string, documents: string -> Option<seq<Json>>)

  const GATED_VERBS := {"create", "update", "patch", "delete", "deletecollection"}

  /** How a declaration derives the pairs from one call's arguments. */
  datatype Resolver =
    | GenericPairs(verb: string)
    | UpdatePairs
    | DeletePairs
    | DeleteCollectionPairs
    | CreatePairs
    | ExecPairs
    | AttachPairs
    | PortForwardPairs
    | ProxyPairs

  datatype Declaration =
    | NoPermission(discovery: bool)
    | Fixed(pairs: seq<Pair>, outsideGate: bool)
    | Resolved(resolver: Resolver, target: bool, collectionTarget: bool, alwaysGated: bool)

  /** The registered tools. */
  datatype Tool =
    | Ping | ApiResources
    | ResourceList | ResourceGet | ResourceWatch
    | ResourceUpdate | ResourceCreate | ResourcePatch | ResourceDelete | ResourceDeleteCollection
    | ResourceExec | ResourceAttach | ResourcePortForward | ResourceProxy
    | DearBabyResetUser
    | GithubAppInstallationToken | GithubCommitStatusCreate | PocketAideNotificationSend | DropTokenIssue
    | OpensearchSearch | OpensearchDocumentPut | OpensearchDocumentDelete
    | SessionCreate | SessionDelete | SessionRead | SessionWrite | SessionList
    | AwsConfigGet | GrafanaToken

  /** toolRegistry. */
  function Shipped(tool: Tool): Declaration
  {
    match tool
    case ApiResources => NoPermission(true)
    case ResourceList => Resolved(GenericPairs("list"), false, false, false)
    case ResourceGet => Resolved(GenericPairs("get"), true, false, false)
    case ResourceWatch => Resolved(GenericPairs("watch"), false, false, false)
    case ResourceUpdate => Resolved(UpdatePairs, true, false, false)
    case ResourceCreate => Resolved(CreatePairs, false, false, false)
    case ResourcePatch => Resolved(GenericPairs("patch"), true, false, false)
    case ResourceDelete => Resolved(DeletePairs, true, false, false)
    case ResourceDeleteCollection => Resolved(DeleteCollectionPairs, false, true, false)
    case ResourceExec => Resolved(ExecPairs, true, false, false)
    case ResourceAttach => Resolved(AttachPairs, true, false, false)
    case ResourcePortForward => Resolved(PortForwardPairs, true, false, false)
    case ResourceProxy => Resolved(ProxyPairs, true, false, true)
    case DearBabyResetUser => Fixed([Pair("list", "pods"), Pair("create", "pods/exec")], true)
    case _ => NoPermission(false)
  }

  // ---- argument checks shared by the resolver and the handler ----

  /** json.Number.Int64: an integer literal within 64 bits. */
  function ParseInt64(literal: string): Option<int>
  {
    var negative := Text.HasPrefix(literal, "-");
    var digits := if negative then literal[1..] else literal;
    if digits == "" || (exists c | c in digits :: !('0' <= c <= '9')) then None
    else
      var n := DigitsValue(digits);
      var value := if negative then -n else n;
      if -0x8000_0000_0000_0000 <= value < 0x8000_0000_0000_0000 then Some(value) else None
  }

  function DigitsValue(digits: string): int
  {
    if digits == "" then 0
    else 10 * DigitsValue(digits[..|digits| - 1]) + (digits[|digits| - 1] as int - '0' as int)
  }

  /** intValue. */
  function IntValue(v: Json): Option<int>
  {
    if v.Num? then ParseInt64(v.literal) else None
  }

  /** The integer member is absent, or an integer within the bounds. */
  predicate OptionalIntWithin(m: Members, key: string, low: int, high: int)
  {
    key in m ==> IntValue(m[key]).Some? && low <= IntValue(m[key]).value <= high
  }

  const INT64_MAX := 0x7fff_ffff_ffff_ffff
  const INT32_MAX := 0x7fff_ffff

  /** parseUpdateTarget: the subresource and the replica count of a scale, or a whole-object update. */
  function ParseUpdateTarget(m: Members): Option<(string, nat)>
  {
    match OptionalString(m, "subresource")
    case Some(sub) =>
      if sub == "scale" && "manifest" !in m && "replicas" in m && OptionalIntWithin(m, "replicas", 0, INT32_MAX)
      then Some((sub, IntValue(m["replicas"]).value)) else None
    case None => if "replicas" !in m && "manifest" in m then Some(("", 0)) else None
  }

  /** parseDeleteTarget: the name of the one object. */
  function ParseDeleteTarget(m: Members): Option<string>
  {
    if "labelSelector" in m || "fieldSelector" in m || "subresource" in m then None
    else if !OptionalIntWithin(m, "gracePeriodSeconds", 0, INT64_MAX) then None
    else OptionalString(m, "name")
  }

  datatype Selection = Selection(namespace: string, labelSelector: string, fieldSelector: string)

  /** parseDeleteCollectionTarget: a selection is always inside one namespace. */
  function ParseDeleteCollectionTarget(m: Members): Option<Selection>
  {
    if "name" in m || "subresource" in m || !OptionalIntWithin(m, "gracePeriodSeconds", 0, INT64_MAX) then None
    else
      match OptionalString(m, "namespace")
      case None => None
      case Some(ns) => Some(Selection(ns, StringOrEmpty(m, "labelSelector"), StringOrEmpty(m, "fieldSelector")))
  }

  predicate NamedObject(m: Members)
  {
    OptionalString(m, "apiVersion").Some? && OptionalString(m, "kind").Some? && OptionalString(m, "name").Some?
  }

  predicate ParsesAsExec(m: Members)
  {
    && NamedObject(m) && StringOrEmpty(m, "subresource") == ""
    && "command" in m && m["command"].Arr? && m["command"].items != []
    && forall item | item in m["command"].items :: item.Str? && item.text != ""
  }

  predicate ParsesAsAttach(m: Members)
  {
    && NamedObject(m) && StringOrEmpty(m, "subresource") == "" && "command" !in m
    && OptionalIntWithin(m, "readSeconds", 1, 30)
    && ("stdin" in m ==> m["stdin"].Str?)
  }

  /** Bytes given as text or as base64, not both. */
  predicate OptionalBytes(m: Members, plain: string, encoded: string)
  {
    && !(plain in m && encoded in m)
    && (plain in m ==> m[plain].Str?)
    && (encoded in m ==> m[encoded].Str? && CredentialMask.DecodedSize(m[encoded].text).Some?)
  }

  predicate ParsesAsPortForward(m: Members)
  {
    && NamedObject(m) && StringOrEmpty(m, "subresource") == ""
    && "port" in m && OptionalIntWithin(m, "port", 1, 65535)
    && OptionalIntWithin(m, "readSeconds", 1, 30)
    && OptionalBytes(m, "payload", "payloadBase64")
  }

  predicate PortName(s: string)
  {
    && 1 <= |s| <= 15 && s[0] != '-' && s[|s| - 1] != '-'
    && (forall c | c in s :: 'a' <= c <= 'z' || '0' <= c <= '9' || c == '-')
    && !Text.Contains(s, "--")
  }

  /** parseProxyPort: a number, or for a Service a port name; none at all for a Node. */
  predicate ParsesAsProxyPort(m: Members, kind: string)
  {
    "port" in m ==>
      && !Text.EqualFold(kind, "Node")
      && (m["port"].Str? || IntValue(m["port"]).Some?)
      && var number := if m["port"].Str? then ParseSigned(m["port"].text) else IntValue(m["port"]);
      if number.Some? then 1 <= number.value <= 65535
      else !Text.EqualFold(kind, "Pod") && PortName(m["port"].text)
  }

  /** strconv.ParseInt, which unlike a JSON number also takes a plus sign. */
  function ParseSigned(s: string): Option<int>
  {
    if Text.HasPrefix(s, "+") then (if Text.HasPrefix(s[1..], "-") then None else ParseInt64(s[1..])) else ParseInt64(s)
  }

  /** ProxyVerbForMethod; None for a method that spends no verb. */
  function ProxyVerb(httpMethod: string): Option<string>
  {
    var lower := Text.Lower(httpMethod);
    if lower == "get" then Some("get")
    else if lower == "post" then Some("create")
    else if lower == "put" then Some("update")
    else if lower == "patch" then Some("patch")
    else if lower == "delete" then Some("delete")
    else None
  }

  predicate ParsesAsProxy(m: Members)
  {
    && NamedObject(m) && ':' !in StringOrEmpty(m, "name")
    && ParsesAsProxyPort(m, StringOrEmpty(m, "kind"))
    && StringOrEmpty(m, "subresource") == ""
    && ProxyVerb(StringOrEmpty(m, "method")).Some?
    && Text.HasPrefix(StringOrEmpty(m, "path"), "/")
    && OptionalIntWithin(m, "readSeconds", 1, 30)
    && OptionalBytes(m, "body", "bodyBase64")
  }

  // ---- from arguments to pairs ----

  /** resourceName: the one normalisation the declarations and the confinement share. */
  function ResourceName(env: Env, apiVersion: string, kind: string, subresource: string): Option<string>
  {
    if !env.validGroupVersion(apiVersion) then None
    else Some(if subresource == "" then env.plural(kind) else env.plural(kind) + "/" + subresource)
  }

  function Coordinate(env: Env, verb: string, apiVersion: string, kind: string, subresource: string): Option<seq<Pair>>
  {
    if apiVersion == "" || kind == "" then None
    else
      match ResourceName(env, apiVersion, kind, subresource)
      case Some(resource) => Some([Pair(verb, resource)])
      case None => None
  }

  /** genericPairs on decoded arguments. */
  function Generic(env: Env, verb: string, m: Members): Option<seq<Pair>>
  {
    Coordinate(env, verb, StringOrEmpty(m, "apiVersion"), StringOrEmpty(m, "kind"), StringOrEmpty(m, "subresource"))
  }

  /** One document of a create call; `raw` is the argument object it is approved and executed under. */
  datatype Document = Document(apiVersion: string, kind: string, namespace: Option<string>, name: string, body: Json, pair: Pair)
  {
    function Raw(): Json { Obj(map["manifest" := body]) }
  }

  function ParseDocument(env: Env, body: Json): Option<Document>
  {
    if !body.Obj? then None
    else
      var m := body.members;
      var metadata: Members := if "metadata" in m && m["metadata"].Obj? then m["metadata"].members else map[];
      var apiVersion, kind, name := StringOrEmpty(m, "apiVersion"), StringOrEmpty(m, "kind"), StringOrEmpty(metadata, "name");
      if Text.Blank(apiVersion) || Text.Blank(kind) || Text.Blank(name) then None
      else if "namespace" in metadata && Text.Blank(StringOrEmpty(metadata, "namespace")) then None
      else
        match Coordinate(env, "create", apiVersion, kind, "")
        case None => None
        case Some(pairs) =>
          Some(Document(apiVersion, kind, if "namespace" in metadata then Some(StringOrEmpty(metadata, "namespace")) else None,
                        name, body, pairs[0]))
  }

  function ParseObjects(env: Env, objects: seq<Json>): (r: Option<seq<Document>>)
    ensures r.Some? ==> |r.value| == |objects|
  {
    if objects == [] then Some([])
    else
      match (ParseDocument(env, objects[0]), ParseObjects(env, objects[1..]))
      case (Some(d), Some(rest)) => Some([d] + rest)
      case _ => None
  }

  /** parseCreateDocuments: the argument is a manifest and nothing else, and holds at least one object. */
  function ParseCreateDocuments(env: Env, args: Json): Option<seq<Document>>
  {
    if !args.Obj? || args.members.Keys != {"manifest"} then None
    else
      var manifest := args.members["manifest"];
      var objects := match manifest
                     case Obj(_) => Some([manifest])
                     case Str(text) => env.documents(text)
                     case _ => None;
      if objects.None? || objects.value == [] then None else ParseObjects(env, objects.value)
  }

  function DocumentPairs(docs: seq<Document>): seq<Pair>
  {
    seq(|docs|, i requires 0 <= i < |docs| => docs[i].pair)
  }

  function Resolve(resolver: Resolver, env: Env, m: Members): Option<seq<Pair>>
  {
    var apiVersion, kind := StringOrEmpty(m, "apiVersion"), StringOrEmpty(m, "kind");
    match resolver
    case GenericPairs(verb) => Generic(env, verb, m)
    case UpdatePairs => if ParseUpdateTarget(m).Some? then Generic(env, "update", m) else None
    case DeletePairs => if ParseDeleteTarget(m).Some? then Generic(env, "delete", m) else None
    case DeleteCollectionPairs => if ParseDeleteCollectionTarget(m).Some? then Generic(env, "deletecollection", m) else None
    case ExecPairs => if ParsesAsExec(m) then Coordinate(env, "create", apiVersion, kind, "exec") else None
    case AttachPairs => if ParsesAsAttach(m) then Coordinate(env, "create", apiVersion, kind, "attach") else None
    case PortForwardPairs => if ParsesAsPortForward(m) then Coordinate(env, "create", apiVersion, kind, "portforward") else None
    case ProxyPairs => if ParsesAsProxy(m) then Coordinate(env, ProxyVerb(StringOrEmpty(m, "method")).value, apiVersion, kind, "proxy") else None
    case CreatePairs =>
      match ParseCreateDocuments(env, Obj(m))
      case Some(docs) => Some(DocumentPairs(docs))
      case None => None
  }

  /** callPairs; None is a call whose pairs cannot be named. */
  function CallPairs(d: Declaration, env: Env, args: Json): Option<seq<Pair>>
  {
    match d
    case NoPermission(_) => Some([])
    case Fixed(pairs, _) => Some(pairs)
    case Resolved(resolver, _, _, _) => if args.Obj? then Resolve(resolver, env, args.members) else None
  }

  // ---- which pairs need approval ----

  /** resourceIsSensitive: the kind half of the question, subresources judged by what they hang off. */
  predicate ResourceIsSensitive(p: Pair, sensitiveKinds: seq<string>)
  {
    var resource := Text.Before(p.resource, '/');
    exists i :: 0 <= i < |sensitiveKinds| &&
      var name := Text.Lower(Text.AfterLast(sensitiveKinds[i], '/'));
      resource == name + "s" || resource == name
  }

  predicate NeedsApproval(p: Pair, sensitiveKinds: seq<string>)
  {
    p.verb in GATED_VERBS || (p.verb in {"get", "watch"} && ResourceIsSensitive(p, sensitiveKinds))
  }

  function Needing(pairs: seq<Pair>, sensitiveKinds: seq<string>): seq<Pair>
  {
    if pairs == [] then []
    else (if NeedsApproval(pairs[0], sensitiveKinds) then [pairs[0]] else []) + Needing(pairs[1..], sensitiveKinds)
  }

  function GatedPairs(d: Declaration, env: Env, sensitiveKinds: seq<string>, args: Json): Option<seq<Pair>>
  {
    if d.Fixed? && d.outsideGate then Some([])
    else
      match CallPairs(d, env, args)
      case None => None
      case Some(pairs) => Some(if d.Resolved? && d.alwaysGated then pairs else Needing(pairs, sensitiveKinds))
  }

  datatype Need = NeverApproved | ApprovedForSensitiveKinds | AlwaysApproved

  function Probe(kind: string): Json
  {
    Obj(map["apiVersion" := Str("v1"), "kind" := Str(kind), "namespace" := Str("probe"), "name" := Str("probe")])
  }

  /** approvalNeed: two probes, an ordinary and a sensitive coordinate, stand for every call. */
  function ApprovalNeed(d: Declaration, env: Env): Need
  {
    if d.NoPermission? || (d.Fixed? && d.outsideGate) then NeverApproved
    else if d.Resolved? && d.alwaysGated then AlwaysApproved
    else if d.Fixed? && d.pairs == [] then NeverApproved
    else
      var ordinary := GatedPairs(d, env, ["v1/Secret"], Probe("ConfigMap"));
      var sensitive := GatedPairs(d, env, ["v1/Secret"], Probe("Secret"));
      if ordinary.None? || |ordinary.value| > 0 then AlwaysApproved
      else if sensitive.None? || |sensitive.value| > 0 then ApprovedForSensitiveKinds
      else NeverApproved
  }

  predicate MayAskForApproval(d: Declaration, env: Env)
  {
    ApprovalNeed(d, env) != NeverApproved
  }

  // ---- the probes decide the question for every call ----

  /** The guesses the probes rest on. */
  predicate ProbesResolve(env: Env)
  {
    env.validGroupVersion("v1") && env.plural("ConfigMap") == "configmaps" && env.plural("Secret") == "secrets"
  }

  lemma NeedingOne(p: Pair, sensitiveKinds: seq<string>)
    ensures Needing([p], sensitiveKinds) == if NeedsApproval(p, sensitiveKinds) then [p] else []
  {
    assert [p][1..] == [];
  }

  /** What one sensitive kind with a group covers. */
  lemma OneSensitiveKind(p: Pair, group: string, kind: string)
    requires '/' !in kind && '/' !in p.resource
    ensures ResourceIsSensitive(p, [group + "/" + kind]) <==> p.resource == Text.Lower(kind) + "s" || p.resource == Text.Lower(kind)
  {
    SensitiveName(group, kind);
    BeforePlain(p.resource, '/');
    assert [group + "/" + kind][0] == group + "/" + kind;
  }

  lemma LowerSecret()
    ensures Text.Lower("Secret") == "secret" && "secret" + "s" == "secrets"
  {
  }

  lemma NotASecret()
    ensures "configmaps" != "secrets" && "configmaps" != "secret"
  {
    assert "configmaps"[0] == 'c' && "secrets"[0] == 's' && "secret"[0] == 's';
  }

  lemma SecretSpelled()
    ensures "v1" + "/" + "Secret" == "v1/Secret"
  {
  }

  lemma SecretsAreSensitive(verb: string)
    ensures ResourceIsSensitive(Pair(verb, "secrets"), ["v1/Secret"])
  {
    SecretSpelled();
    LowerSecret();
    OneSensitiveKind(Pair(verb, "secrets"), "v1", "Secret");
  }

  lemma ConfigMapsAreNot(verb: string)
    ensures !ResourceIsSensitive(Pair(verb, "configmaps"), ["v1/Secret"])
  {
    SecretSpelled();
    LowerSecret();
    NotASecret();
    OneSensitiveKind(Pair(verb, "configmaps"), "v1", "Secret");
  }

  lemma {:induction false} BeforePlain(s: string, c: char)
    requires c !in s
    ensures Text.Before(s, c) == s
  {
    if s != "" {
      BeforePlain(s[1..], c);
    }
  }

  lemma {:induction false} SensitiveName(group: string, kind: string)
    requires '/' !in kind
    ensures Text.AfterLast(group + "/" + kind, '/') == kind
  {
    var s := group + "/" + kind;
    if kind != "" {
      var front := kind[..|kind| - 1];
      assert s[..|s| - 1] == group + "/" + front;
      SensitiveName(group, front);
    }
  }

  /** What a call of this declaration could be gated for, over every argument and every sensitive list. */
  ghost predicate CanBeGated(d: Declaration, env: Env)
  {
    exists kinds, args :: GatedPairs(d, env, kinds, args).Some? && GatedPairs(d, env, kinds, args).value != []
  }

  /** What the two probes answer for each shipped tool. */
  function TabledNeed(tool: Tool): Need
  {
    match tool
    case ResourceGet | ResourceWatch => ApprovedForSensitiveKinds
    case ResourceUpdate | ResourceCreate | ResourcePatch | ResourceDelete | ResourceDeleteCollection => AlwaysApproved
    case ResourceExec | ResourceAttach | ResourcePortForward | ResourceProxy => AlwaysApproved
    case _ => NeverApproved
  }

  lemma ProbeGeneric(env: Env, verb: string, kind: string)
    requires ProbesResolve(env) && kind in {"ConfigMap", "Secret"}
    ensures Generic(env, verb, Probe(kind).members) == Some([Pair(verb, env.plural(kind))])
  {
  }

  lemma NeedTable(tool: Tool, env: Env)
    requires ProbesResolve(env)
    ensures ApprovalNeed(Shipped(tool), env) == TabledNeed(tool)
  {
    match tool
    case ResourceList | ResourceGet | ResourceWatch | ResourcePatch => GenericNeed(tool, env);
    case ResourceDelete => ProbedDelete(env);
    case ResourceAttach => ProbedAttach(env);
    case ResourceUpdate | ResourceCreate | ResourceDeleteCollection | ResourceExec | ResourcePortForward => RefusedNeed(tool, env);
    case _ => FixedNeed(tool, env);
  }

  /** The two probes' answer for a tool that spends one verb on whatever kind it is given. */
  lemma VerbNeed(verb: string, target: bool, env: Env)
    requires ProbesResolve(env)
    ensures ApprovalNeed(Resolved(GenericPairs(verb), target, false, false), env) ==
            if verb in GATED_VERBS then AlwaysApproved else if verb in {"get", "watch"} then ApprovedForSensitiveKinds else NeverApproved
  {
    var d := Resolved(GenericPairs(verb), target, false, false);
    ProbedVerb(verb, env);
    assert CallPairs(d, env, Probe("ConfigMap")) == Some([Pair(verb, "configmaps")]);
    assert CallPairs(d, env, Probe("Secret")) == Some([Pair(verb, "secrets")]);
  }

  lemma GenericNeed(tool: Tool, env: Env)
    requires ProbesResolve(env) && tool in {ResourceList, ResourceGet, ResourceWatch, ResourcePatch}
    ensures ApprovalNeed(Shipped(tool), env) == TabledNeed(tool)
  {
    var verb, target := Shipped(tool).resolver.verb, Shipped(tool).target;
    VerbNeed(verb, target, env);
    VerbOf(tool);
  }

  lemma VerbOf(tool: Tool)
    requires tool in {ResourceList, ResourceGet, ResourceWatch, ResourcePatch}
    ensures
      var verb := Shipped(tool).resolver.verb;
      && Shipped(tool) == Resolved(GenericPairs(verb), Shipped(tool).target, false, false)
      && TabledNeed(tool) == if verb in GATED_VERBS then AlwaysApproved else if verb in {"get", "watch"} then ApprovedForSensitiveKinds else NeverApproved
  {
  }

  lemma RefusedNeed(tool: Tool, env: Env)
    requires Shipped(tool).Resolved? && Shipped(tool).resolver in {UpdatePairs, CreatePairs, DeleteCollectionPairs, ExecPairs, PortForwardPairs}
    ensures ApprovalNeed(Shipped(tool), env) == AlwaysApproved
  {
    ProbeRefused(Shipped(tool).resolver, env);
  }

  lemma FixedNeed(tool: Tool, env: Env)
    requires !Shipped(tool).Resolved? || tool.ResourceProxy?
    ensures ApprovalNeed(Shipped(tool), env) == TabledNeed(tool)
  {
  }

  /** A resolver that refuses the probe for lack of its own arguments counts as always asking. */
  lemma ProbeRefused(resolver: Resolver, env: Env)
    requires resolver in {UpdatePairs, CreatePairs, DeleteCollectionPairs, ExecPairs, PortForwardPairs}
    ensures Resolve(resolver, env, Probe("ConfigMap").members) == None
  {
    var m := Probe("ConfigMap").members;
    assert "name" in m && "manifest" !in m && "command" !in m && "port" !in m && "subresource" !in m;
  }

  lemma ProbedDelete(env: Env)
    requires ProbesResolve(env)
    ensures ApprovalNeed(Shipped(ResourceDelete), env) == AlwaysApproved
  {
    var m := Probe("ConfigMap").members;
    assert ParseDeleteTarget(m) == Some("probe");
    ProbedVerb("delete", env);
  }

  lemma ProbedAttach(env: Env)
    requires ProbesResolve(env)
    ensures ApprovalNeed(Shipped(ResourceAttach), env) == AlwaysApproved
  {
    var m := Probe("ConfigMap").members;
    var p := Pair("create", env.plural("ConfigMap") + "/" + "attach");
    assert ParsesAsAttach(m);
    assert Resolve(AttachPairs, env, m) == Some([p]);
    NeedingOne(p, ["v1/Secret"]);
    assert NeedsApproval(p, ["v1/Secret"]);
  }

  lemma ProbedVerb(verb: string, env: Env)
    requires ProbesResolve(env)
    ensures Generic(env, verb, Probe("ConfigMap").members) == Some([Pair(verb, "configmaps")])
    ensures Generic(env, verb, Probe("Secret").members) == Some([Pair(verb, "secrets")])
    ensures Needing([Pair(verb, "configmaps")], ["v1/Secret"]) == if verb in GATED_VERBS then [Pair(verb, "configmaps")] else []
    ensures Needing([Pair(verb, "secrets")], ["v1/Secret"]) == if verb in GATED_VERBS + {"get", "watch"} then [Pair(verb, "secrets")] else []
  {
    ProbeGeneric(env, verb, "ConfigMap");
    ProbeGeneric(env, verb, "Secret");
    SecretsAreSensitive(verb);
    ConfigMapsAreNot(verb);
    NeedingOne(Pair(verb, "configmaps"), ["v1/Secret"]);
    NeedingOne(Pair(verb, "secrets"), ["v1/Secret"]);
  }

  /** Every call that resolves exercises one pair, its verb set by the tool; a create one pair for each document. */
  lemma ResolvedPairs(tool: Tool, env: Env, args: Json)
    requires Shipped(tool).Resolved? && CallPairs(Shipped(tool), env, args).Some?
    ensures
      var pairs := CallPairs(Shipped(tool), env, args).value;
      && pairs != []
      && (tool.ResourceCreate? ==> ParseCreateDocuments(env, args).Some?)
      && (!tool.ResourceCreate? ==> |pairs| == 1)
      && (TabledNeed(tool).AlwaysApproved? && !tool.ResourceProxy? ==> forall p | p in pairs :: p.verb in GATED_VERBS)
      && (tool.ResourceGet? ==> pairs[0].verb == "get")
      && (tool.ResourceWatch? ==> pairs[0].verb == "watch")
      && (tool.ResourceList? ==> pairs[0].verb == "list")
  {
    if tool.ResourceCreate? {
      assert Obj(args.members) == args;
      CreateVerbs(env, args);
    }
  }

  lemma {:induction false} ObjectVerbs(env: Env, objects: seq<Json>)
    requires ParseObjects(env, objects).Some?
    ensures forall i | 0 <= i < |objects| :: ParseDocument(env, objects[i]) == Some(ParseObjects(env, objects).value[i])
  {
    if objects != [] {
      ObjectVerbs(env, objects[1..]);
    }
  }

  lemma CreateVerbs(env: Env, args: Json)
    requires ParseCreateDocuments(env, args).Some?
    ensures |ParseCreateDocuments(env, args).value| > 0
    ensures forall d | d in ParseCreateDocuments(env, args).value :: d.pair.verb == "create" && ParseDocument(env, d.body) == Some(d)
  {
    var manifest := args.members["manifest"];
    var objects := if manifest.Obj? then [manifest] else env.documents(manifest.text).value;
    ObjectVerbs(env, objects);
    forall d | d in ParseCreateDocuments(env, args).value
      ensures d.pair.verb == "create" && ParseDocument(env, d.body) == Some(d)
    {
      var i :| 0 <= i < |objects| && ParseCreateDocuments(env, args).value[i] == d;
      assert ParseDocument(env, objects[i]) == Some(d);
    }
  }

  /** A document's own argument object parses back to that document alone. */
  lemma DocumentRoundTrip(env: Env, args: Json, d: Document)
    requires ParseCreateDocuments(env, args).Some? && d in ParseCreateDocuments(env, args).value
    ensures ParseCreateDocuments(env, d.Raw()) == Some([d])
  {
    CreateVerbs(env, args);
    assert d.body.Obj?;
    assert [d.body][1..] == [];
    assert ParseObjects(env, []) == Some([]);
    assert [d] + [] == [d];
  }

  lemma {:induction false} NeedingAll(pairs: seq<Pair>, sensitiveKinds: seq<string>)
    requires forall p | p in pairs :: p.verb in GATED_VERBS
    ensures Needing(pairs, sensitiveKinds) == pairs
  {
    if pairs != [] {
      NeedingAll(pairs[1..], sensitiveKinds);
    }
  }

  /**
   * The verdict the two probes give holds of every call: a tool judged never-approved has no gated pair for
   * any arguments and any list of sensitive kinds, one judged always-approved has all its pairs gated in
   * every call that resolves, and one judged by kind is gated exactly when the call's own kind is sensitive.
   */
  lemma ProbesDecide(tool: Tool, env: Env, sensitiveKinds: seq<string>, args: Json)
    requires ProbesResolve(env)
    ensures
      var d := Shipped(tool);
      var gated := GatedPairs(d, env, sensitiveKinds, args);
      match ApprovalNeed(d, env)
      case NeverApproved => gated == None || gated == Some([])
      case AlwaysApproved => gated == CallPairs(d, env, args) && (gated.Some? ==> gated.value != [])
      case ApprovedForSensitiveKinds =>
        gated.Some? == CallPairs(d, env, args).Some? &&
        (gated.Some? ==>
          var p := CallPairs(d, env, args).value;
          |p| == 1 && gated.value == if ResourceIsSensitive(p[0], sensitiveKinds) then p else [])
  {
    NeedTable(tool, env);
    var d := Shipped(tool);
    if d.Resolved? && CallPairs(d, env, args).Some? {
      var pairs := CallPairs(d, env, args).value;
      ResolvedPairs(tool, env, args);
      if TabledNeed(tool).AlwaysApproved? && !tool.ResourceProxy? {
        NeedingAll(pairs, sensitiveKinds);
      } else {
        assert pairs == [pairs[0]];
        NeedingOne(pairs[0], sensitiveKinds);
      }
    } else if d.NoPermission? {
      assert Needing([], sensitiveKinds) == [];
    }
  }

  // ---- the reason argument ----

  /** splitReason on decoded members: the rest of the arguments, and the trimmed reason; None is a refusal. */
  function TakeReason(args: Json): Option<(Json, string)>
  {
    if !args.Obj? || REASON !in args.members then Some((args, ""))
    else
      var rest := Obj(args.members - {REASON});
      match args.members[REASON]
      case Null => Some((rest, ""))
      case Str(text) => if |Text.TrimSpace(text)| <= MAX_REASON then Some((rest, Text.TrimSpace(text))) else None
      case _ => None
  }

  /** The head of toolsCall up to the gate: what the rest of the dispatcher works with. */
  function Admitted(d: Declaration, env: Env, sensitiveKinds: seq<string>, args: Json): Option<(Json, string)>
  {
    if !MayAskForApproval(d, env) then Some((args, ""))
    else
      match TakeReason(args)
      case None => None
      case Some((rest, reason)) =>
        var gated := GatedPairs(d, env, sensitiveKinds, rest);
        if reason == "" && gated.Some? && gated.value != [] then None else Some((rest, reason))
  }

  /**
   * Every call that goes on to ask the gate carries a non-empty reason of bounded length, and no call of a
   * tool that may ask leaves `reason` among the arguments a handler or the approval screen will see.
   */
  lemma ReasonAccompaniesApproval(tool: Tool, env: Env, sensitiveKinds: seq<string>, args: Json)
    requires ProbesResolve(env)
    requires Admitted(Shipped(tool), env, sensitiveKinds, args).Some?
    ensures
      var d := Shipped(tool);
      var (rest, reason) := Admitted(d, env, sensitiveKinds, args).value;
      var gated := GatedPairs(d, env, sensitiveKinds, rest);
      && (gated.Some? && gated.value != [] ==> 0 < |reason| <= MAX_REASON)
      && (CanBeGated(d, env) && rest.Obj? ==> REASON !in rest.members)
      && (!MayAskForApproval(d, env) ==> rest == args)
  {
    var d := Shipped(tool);
    var (rest, reason) := Admitted(d, env, sensitiveKinds, args).value;
    TakenReason(args);
    if !MayAskForApproval(d, env) {
      NeverMeansNever(tool, env, sensitiveKinds, rest);
    }
    if CanBeGated(d, env) {
      var kinds, other :| GatedPairs(d, env, kinds, other).Some? && GatedPairs(d, env, kinds, other).value != [];
      if !MayAskForApproval(d, env) {
        NeverMeansNever(tool, env, kinds, other);
        assert false;
      }
    }
  }

  lemma TakenReason(args: Json)
    ensures TakeReason(args).Some? ==>
      && |TakeReason(args).value.1| <= MAX_REASON
      && (TakeReason(args).value.0.Obj? ==> REASON !in TakeReason(args).value.0.members)
  {
  }

  lemma NeverMeansNever(tool: Tool, env: Env, sensitiveKinds: seq<string>, args: Json)
    requires ProbesResolve(env) && !MayAskForApproval(Shipped(tool), env)
    ensures GatedPairs(Shipped(tool), env, sensitiveKinds, args) in {None, Some([])}
  {
    ProbesDecide(tool, env, sensitiveKinds, args);
  }
}
