/**
 * The masking of credential values on the approval screen. Strings are sequences of bytes here, one
 * char for each, so |s| is Go's len(s).
 */
module CredentialMask {
  import opened Results
  import opened Json
  import Text

  const CREDENTIAL_FIELDS := {"data", "stringData"}

  // ---- base64.StdEncoding ----

  predicate InAlphabet(c: char)
  {
    'A' <= c <= 'Z' || 'a' <= c <= 'z' || '0' <= c <= '9' || c == '+' || c == '/'
  }

  function WithoutNewlines(s: string): string
  {
    if s == "" then ""
    else if s[0] == '\r' || s[0] == '\n' then WithoutNewlines(s[1..])
    else [s[0]] + WithoutNewlines(s[1..])
  }

  /** How many bytes StdEncoding.DecodeString yields for text without newlines; None is its error. */
  function QuantaSize(s: string): Option<nat>
  {
    if s == "" then Some(0)
    else if |s| < 4 || !InAlphabet(s[0]) || !InAlphabet(s[1]) then None
    else if InAlphabet(s[2]) && InAlphabet(s[3]) then
      match QuantaSize(s[4..])
      case Some(n) => Some(3 + n)
      case None => None
    else if |s| > 4 || s[3] != '=' then None
    else if InAlphabet(s[2]) then Some(2)
    else if s[2] == '=' then Some(1)
    else None
  }

  function DecodedSize(s: string): Option<nat>
  {
    QuantaSize(WithoutNewlines(s))
  }

  type Byte = b: int | 0 <= b < 256

  function Sextet(n: int): char
    requires 0 <= n < 64
  {
    if n < 26 then 'A' + n as char
    else if n < 52 then 'a' + (n - 26) as char
    else if n < 62 then '0' + (n - 52) as char
    else if n == 62 then '+' else '/'
  }

  /** base64.StdEncoding.EncodeToString: what Secret.data carries for these bytes. */
  function Encode(bytes: seq<Byte>): string
  {
    if |bytes| == 0 then ""
    else if |bytes| == 1 then [Sextet(bytes[0] / 4), Sextet(bytes[0] % 4 * 16), '=', '=']
    else if |bytes| == 2 then
      [Sextet(bytes[0] / 4), Sextet(bytes[0] % 4 * 16 + bytes[1] / 16), Sextet(bytes[1] % 16 * 4), '=']
    else
      [Sextet(bytes[0] / 4), Sextet(bytes[0] % 4 * 16 + bytes[1] / 16),
       Sextet(bytes[1] % 16 * 4 + bytes[2] / 64), Sextet(bytes[2] % 64)] + Encode(bytes[3..])
  }

  lemma {:induction false} NoNewlines(s: string)
    requires '\r' !in s && '\n' !in s
    ensures WithoutNewlines(s) == s
  {
    if s != "" {
      NoNewlines(s[1..]);
    }
  }

  lemma {:induction false} EncodedSize(bytes: seq<Byte>)
    ensures forall c | c in Encode(bytes) :: InAlphabet(c) || c == '='
    ensures QuantaSize(Encode(bytes)) == Some(|bytes|)
  {
    forall n | 0 <= n < 64 ensures InAlphabet(Sextet(n)) {}
    if |bytes| > 2 {
      EncodedSize(bytes[3..]);
      assert Encode(bytes)[4..] == Encode(bytes[3..]);
    }
  }

  lemma EncodedDecodes(bytes: seq<Byte>)
    ensures DecodedSize(Encode(bytes)) == Some(|bytes|)
  {
    EncodedSize(bytes);
    var text := Encode(bytes);
    assert forall c | c in text :: c != '\r' && c != '\n';
    NoNewlines(text);
  }

  /** The size on the screen for a Secret.data value is the size of the credential itself. */
  lemma DataSizeIsCredentialSize(bytes: seq<Byte>)
    ensures MaskedValue(Str(Encode(bytes)), true) == "(masked, " + Text.Decimal(|bytes|) + "B)"
  {
    var text := Encode(bytes);
    assert DecodedSize(text) == Some(|bytes|) by { EncodedDecodes(bytes); }
    assert ReportedSize(text, true) == |bytes|;
  }

  // ---- the mask ----

  function ReportedSize(text: string, encoded: bool): nat
  {
    if encoded && DecodedSize(text).Some? then DecodedSize(text).value else |text|
  }

  function MaskedValue(value: Json, encoded: bool): string
  {
    if value.Str? then "(masked, " + Text.Decimal(ReportedSize(value.text, encoded)) + "B)" else "(masked)"
  }

  function MaskedEntries(entries: Members, encoded: bool): Members
  {
    map k | k in entries :: Str(MaskedValue(entries[k], encoded))
  }

  /** What a value under a credential field is replaced by. */
  function MaskedField(value: Json, encoded: bool): Json
  {
    if value.Obj? then Obj(MaskedEntries(value.members, encoded)) else Str(MaskedValue(value, encoded))
  }

  function MaskTree(node: Json): Json
  {
    match node
    case Obj(m) => Obj(map k | k in m :: if k in CREDENTIAL_FIELDS then MaskedField(m[k], k == "data") else MaskTree(m[k]))
    case Arr(items) => Arr(seq(|items|, i requires 0 <= i < |items| => MaskTree(items[i])))
    case _ => node
  }

  /** The credential field a JSON Patch path addresses, and what is left of the path below it. */
  function CredentialPath(path: string): Option<(string, string)>
  {
    if path == "/data" then Some(("data", ""))
    else if Text.HasPrefix(path, "/data/") then Some(("data", path[6..]))
    else if path == "/stringData" then Some(("stringData", ""))
    else if Text.HasPrefix(path, "/stringData/") then Some(("stringData", path[12..]))
    else None
  }

  function OpTarget(op: Json): Option<(string, string)>
  {
    if op.Obj? && "value" in op.members then CredentialPath(StringOrEmpty(op.members, "path")) else None
  }

  function MaskOp(op: Json): Json
  {
    match OpTarget(op)
    case None => op
    case Some((field, rest)) =>
      var value := op.members["value"];
      Obj(op.members["value" := if rest == "" then MaskedField(value, field == "data") else Str(MaskedValue(value, field == "data"))])
  }

  function MaskOps(node: Json): Json
  {
    if node.Arr? then Arr(seq(|node.items|, i requires 0 <= i < |node.items| => MaskOp(node.items[i]))) else node
  }

  predicate IsJsonPatchCall(args: Members)
  {
    StringOrEmpty(args, "patchType") == "json" && "patch" in args
  }

  function PatchMasked(args: Members): Members
  {
    if IsJsonPatchCall(args) then args["patch" := MaskOps(args["patch"])] else args
  }

  /** maskCredentialValues up to the final rendering, which depends on this tree alone. */
  function MaskArguments(args: Members): Json
  {
    MaskTree(Obj(PatchMasked(args)))
  }

  // ---- the loops of the program, in any map iteration order ----

  method MaskEntriesLoop(entries: Members, encoded: bool) returns (masked: Members)
    ensures masked == MaskedEntries(entries, encoded)
  {
    masked := map[];
    var remaining := entries.Keys;
    while remaining != {}
      invariant remaining <= entries.Keys
      invariant masked == map k | k in entries && k !in remaining :: Str(MaskedValue(entries[k], encoded))
    {
      var key :| key in remaining;
      masked := masked[key := Str(MaskedValue(entries[key], encoded))];
      remaining := remaining - {key};
    }
  }

  method MaskFieldValue(value: Json, encoded: bool) returns (masked: Json)
    ensures masked == MaskedField(value, encoded)
  {
    if value.Obj? {
      var entries := MaskEntriesLoop(value.members, encoded);
      masked := Obj(entries);
    } else {
      masked := Str(MaskedValue(value, encoded));
    }
  }

  method MaskCredentialTree(node: Json) returns (masked: Json)
    ensures masked == MaskTree(node)
    decreases node
  {
    if node.Obj? {
      var v := node.members;
      var remaining := v.Keys;
      while remaining != {}
        invariant remaining <= node.members.Keys == v.Keys
        invariant forall k | k in remaining :: v[k] == node.members[k]
        invariant forall k | k in v.Keys - remaining :: v[k] == MaskTree(node).members[k]
        decreases remaining
      {
        var key :| key in remaining;
        if key in CREDENTIAL_FIELDS {
          var field := MaskFieldValue(v[key], key == "data");
          v := v[key := field];
        } else {
          assert v[key] == node.members[key];
          var child := MaskCredentialTree(node.members[key]);
          v := v[key := child];
        }
        remaining := remaining - {key};
      }
      assert v == MaskTree(node).members;
      masked := Obj(v);
    } else if node.Arr? {
      var v := node.items;
      for i := 0 to |node.items|
        invariant |v| == |node.items|
        invariant forall j | 0 <= j < i :: v[j] == MaskTree(node.items[j])
        invariant forall j | i <= j < |v| :: v[j] == node.items[j]
      {
        var item := MaskCredentialTree(node.items[i]);
        v := v[i := item];
      }
      masked := Arr(v);
    } else {
      masked := node;
    }
  }

  /** credentialPath: the two field names are tried in map order, which does not matter. */
  method FindCredentialPath(path: string) returns (found: Option<(string, string)>)
    ensures found == CredentialPath(path)
  {
    var remaining := CREDENTIAL_FIELDS;
    found := None;
    while remaining != {}
      invariant remaining <= CREDENTIAL_FIELDS
      invariant forall name | name in CREDENTIAL_FIELDS - remaining :: path != "/" + name && !Text.HasPrefix(path, "/" + name + "/")
    {
      var name :| name in remaining;
      assert "/" + "data" == "/data" && "/data" + "/" == "/data/";
      assert "/" + "stringData" == "/stringData" && "/stringData" + "/" == "/stringData/";
      if path == "/" + name {
        assert name == "stringData" ==> path[1] == 's' && path != "/data" && !Text.HasPrefix(path, "/data/");
        return Some((name, ""));
      }
      if Text.HasPrefix(path, "/" + name + "/") {
        assert name == "stringData" ==> path[1] == 's';
        assert name == "data" ==> path[1] == 'd';
        return Some((name, path[|name| + 2..]));
      }
      remaining := remaining - {name};
    }
    assert "data" in CREDENTIAL_FIELDS && "stringData" in CREDENTIAL_FIELDS;
    assert "/" + "data" == "/data" && "/data" + "/" == "/data/";
    assert "/" + "stringData" == "/stringData" && "/stringData" + "/" == "/stringData/";
  }

  /** The body of the loop over the operations of a JSON Patch. */
  method MaskPatchOp(op: Json) returns (masked: Json)
    ensures masked == MaskOp(op)
  {
    masked := op;
    if op.Obj? {
      var path := StringOrEmpty(op.members, "path");
      var found := FindCredentialPath(path);
      if found.Some? && "value" in op.members {
        var value := op.members["value"];
        var encoded := found.value.0 == "data";
        var field := Str(MaskedValue(value, encoded));
        if found.value.1 == "" && value.Obj? {
          field := MaskFieldValue(value, encoded);
        }
        masked := Obj(op.members["value" := field]);
      }
    }
  }

  method MaskJsonPatchOps(node: Json) returns (masked: Json)
    ensures masked == MaskOps(node)
  {
    if !node.Arr? {
      return node;
    }
    var ops := node.items;
    for i := 0 to |node.items|
      invariant |ops| == |node.items|
      invariant forall j | 0 <= j < i :: ops[j] == MaskOp(node.items[j])
      invariant forall j | i <= j < |ops| :: ops[j] == node.items[j]
    {
      var op := MaskPatchOp(ops[i]);
      ops := ops[i := op];
    }
    masked := Arr(ops);
  }

  method MaskCredentialValues(args: Members) returns (masked: Json)
    ensures masked == MaskArguments(args)
  {
    var current := args;
    if StringOrEmpty(args, "patchType") == "json" && "patch" in args {
      var ops := MaskJsonPatchOps(args["patch"]);
      current := args["patch" := ops];
    }
    masked := MaskCredentialTree(Obj(current));
  }

  // ---- what the operator can tell apart ----

  predicate SameSecret(a: Json, b: Json, encoded: bool)
  {
    a.Str? == b.Str? && (a.Str? ==> ReportedSize(a.text, encoded) == ReportedSize(b.text, encoded))
  }

  predicate SameEntries(a: Members, b: Members, encoded: bool)
  {
    a.Keys == b.Keys && forall k | k in a :: SameSecret(a[k], b[k], encoded)
  }

  predicate SameField(a: Json, b: Json, encoded: bool)
  {
    a.Obj? == b.Obj? && if a.Obj? then SameEntries(a.members, b.members, encoded) else SameSecret(a, b, encoded)
  }

  /** Equal trees but for credential values, and those have equal sizes. */
  predicate Indistinct(a: Json, b: Json)
    decreases a
  {
    match (a, b)
    case (Obj(m), Obj(n)) =>
      && m.Keys == n.Keys
      && forall k | k in m :: if k in CREDENTIAL_FIELDS then SameField(m[k], n[k], k == "data") else Indistinct(m[k], n[k])
    case (Arr(xs), Arr(ys)) => |xs| == |ys| && forall i | 0 <= i < |xs| :: Indistinct(xs[i], ys[i])
    case _ => a == b
  }

  lemma MaskedValueReveals(a: Json, b: Json, encoded: bool)
    ensures MaskedValue(a, encoded) == MaskedValue(b, encoded) <==> SameSecret(a, b, encoded)
  {
    var x, y := MaskedValue(a, encoded), MaskedValue(b, encoded);
    assert a.Str? ==> x[7] == ',';
    assert b.Str? ==> y[7] == ',';
    if a.Str? && b.Str? && x == y {
      assert x[9..|x| - 2] == Text.Decimal(ReportedSize(a.text, encoded));
      assert y[9..|y| - 2] == Text.Decimal(ReportedSize(b.text, encoded));
      Text.DecimalInjective(ReportedSize(a.text, encoded), ReportedSize(b.text, encoded));
    }
  }

  lemma MaskedEntriesReveal(a: Members, b: Members, encoded: bool)
    ensures MaskedEntries(a, encoded) == MaskedEntries(b, encoded) <==> SameEntries(a, b, encoded)
  {
    var x, y := MaskedEntries(a, encoded), MaskedEntries(b, encoded);
    assert x.Keys == a.Keys && y.Keys == b.Keys;
    forall k | k in a && k in b
      ensures x[k] == y[k] <==> SameSecret(a[k], b[k], encoded)
    {
      MaskedValueReveals(a[k], b[k], encoded);
    }
  }

  lemma MaskedFieldReveals(a: Json, b: Json, encoded: bool)
    ensures MaskedField(a, encoded) == MaskedField(b, encoded) <==> SameField(a, b, encoded)
  {
    if a.Obj? && b.Obj? {
      MaskedEntriesReveal(a.members, b.members, encoded);
    } else {
      MaskedValueReveals(a, b, encoded);
    }
  }

  /** Noninterference, and its converse: two trees are masked alike exactly when they are indistinct. */
  lemma {:induction false} MaskRevealsSizesOnly(a: Json, b: Json)
    ensures MaskTree(a) == MaskTree(b) <==> Indistinct(a, b)
    decreases a
  {
    match (a, b)
    case (Obj(m), Obj(n)) =>
      var x, y := MaskTree(a).members, MaskTree(b).members;
      assert x.Keys == m.Keys && y.Keys == n.Keys;
      forall k | k in m && k in n
        ensures x[k] == y[k] <==> if k in CREDENTIAL_FIELDS then SameField(m[k], n[k], k == "data") else Indistinct(m[k], n[k])
      {
        if k in CREDENTIAL_FIELDS {
          MaskedFieldReveals(m[k], n[k], k == "data");
        } else {
          MaskRevealsSizesOnly(m[k], n[k]);
        }
      }
    case (Arr(xs), Arr(ys)) =>
      var x, y := MaskTree(a).items, MaskTree(b).items;
      forall i | 0 <= i < |xs| && i < |ys|
        ensures x[i] == y[i] <==> Indistinct(xs[i], ys[i])
      {
        MaskRevealsSizesOnly(xs[i], ys[i]);
      }
    case _ =>
  }

  // ---- which places the mask touches ----

  datatype Step = Key(name: string) | Index(i: nat)

  function At(node: Json, path: seq<Step>): Option<Json>
  {
    if path == [] then Some(node)
    else
      match (node, path[0])
      case (Obj(m), Key(k)) => if k in m then At(m[k], path[1..]) else None
      case (Arr(items), Index(i)) => if i < |items| then At(items[i], path[1..]) else None
      case _ => None
  }

  predicate Outside(path: seq<Step>)
  {
    forall step | step in path :: step.Key? ==> step.name !in CREDENTIAL_FIELDS
  }

  /** Away from the credential fields nothing moves, appears or disappears, and every leaf keeps its value. */
  lemma {:induction false} OutsideUntouched(node: Json, path: seq<Step>)
    requires Outside(path)
    ensures At(node, path).None? <==> At(MaskTree(node), path).None?
    ensures At(node, path).Some? ==> At(MaskTree(node), path).value == MaskTree(At(node, path).value)
    ensures At(node, path).Some? && !At(node, path).value.Obj? && !At(node, path).value.Arr? ==>
      At(MaskTree(node), path) == At(node, path)
  {
    if path != [] {
      match (node, path[0])
      case (Obj(m), Key(k)) => if k in m { OutsideUntouched(m[k], path[1..]); }
      case (Arr(items), Index(i)) => if i < |items| { OutsideUntouched(items[i], path[1..]); }
      case _ =>
    }
  }

  lemma {:induction false} AtConcat(node: Json, p: seq<Step>, q: seq<Step>)
    requires At(node, p).Some?
    ensures At(node, p + q) == At(At(node, p).value, q)
  {
    if p == [] {
      assert p + q == q;
    } else {
      assert (p + q)[1..] == p[1..] + q;
      match (node, p[0])
      case (Obj(m), Key(k)) => AtConcat(m[k], p[1..], q);
      case (Arr(items), Index(i)) => AtConcat(items[i], p[1..], q);
    }
  }

  /** At a credential field, whatever it holds and however deep it sits, only masked text is left. */
  lemma CredentialFieldMasked(node: Json, path: seq<Step>, field: string)
    requires Outside(path) && field in CREDENTIAL_FIELDS
    requires At(node, path + [Key(field)]).Some?
    ensures At(MaskTree(node), path + [Key(field)]) ==
      Some(MaskedField(At(node, path + [Key(field)]).value, field == "data"))
  {
    OutsideUntouched(node, path);
    if At(node, path).Some? {
      AtConcat(node, path, [Key(field)]);
      AtConcat(MaskTree(node), path, [Key(field)]);
      assert [Key(field)][1..] == [];
    } else {
      NoneConcat(node, path, [Key(field)]);
    }
  }

  lemma {:induction false} NoneConcat(node: Json, p: seq<Step>, q: seq<Step>)
    requires At(node, p).None?
    ensures At(node, p + q).None?
  {
    if p != [] {
      assert (p + q)[1..] == p[1..] + q;
      match (node, p[0])
      case (Obj(m), Key(k)) => if k in m { NoneConcat(m[k], p[1..], q); }
      case (Arr(items), Index(i)) => if i < |items| { NoneConcat(items[i], p[1..], q); }
      case _ =>
    }
  }

  // ---- the same for a whole argument object, JSON Patch included ----

  function MaskMember(key: string, value: Json): Json
  {
    if key in CREDENTIAL_FIELDS then MaskedField(value, key == "data") else MaskTree(value)
  }

  predicate IndistinctMember(key: string, a: Json, b: Json)
  {
    if key in CREDENTIAL_FIELDS then SameField(a, b, key == "data") else Indistinct(a, b)
  }

  lemma MaskMemberReveals(key: string, a: Json, b: Json)
    ensures MaskMember(key, a) == MaskMember(key, b) <==> IndistinctMember(key, a, b)
  {
    if key in CREDENTIAL_FIELDS {
      MaskedFieldReveals(a, b, key == "data");
    } else {
      MaskRevealsSizesOnly(a, b);
    }
  }

  /** A value map of a JSON Patch operation: an entry named like a credential field is masked a second time. */
  predicate SameOpField(a: Json, b: Json, encoded: bool)
  {
    && a.Obj? == b.Obj?
    && if a.Obj? then
         && a.members.Keys == b.members.Keys
         && forall k | k in a.members ::
              if k in CREDENTIAL_FIELDS
              then |MaskedValue(a.members[k], encoded)| == |MaskedValue(b.members[k], encoded)|
              else SameSecret(a.members[k], b.members[k], encoded)
       else SameSecret(a, b, encoded)
  }

  predicate IndistinctOp(a: Json, b: Json)
  {
    match OpTarget(a)
    case None => OpTarget(b) == None && Indistinct(a, b)
    case Some((field, rest)) =>
      && OpTarget(b) == OpTarget(a)
      && a.members.Keys == b.members.Keys
      && (forall k | k in a.members && k != "value" :: IndistinctMember(k, a.members[k], b.members[k]))
      && if rest == "" then SameOpField(a.members["value"], b.members["value"], field == "data")
         else SameSecret(a.members["value"], b.members["value"], field == "data")
  }

  predicate IndistinctPatch(a: Json, b: Json)
  {
    && a.Arr? == b.Arr?
    && if a.Arr? then |a.items| == |b.items| && forall i | 0 <= i < |a.items| :: IndistinctOp(a.items[i], b.items[i])
       else Indistinct(a, b)
  }

  predicate IndistinctArguments(a: Members, b: Members)
  {
    && a.Keys == b.Keys
    && IsJsonPatchCall(a) == IsJsonPatchCall(b)
    && forall k | k in a ::
         if k == "patch" && IsJsonPatchCall(a) then IndistinctPatch(a[k], b[k]) else IndistinctMember(k, a[k], b[k])
  }

  /** Masked text never decodes as base64, so a second mask reports the length of the first. */
  lemma MaskedTwice(value: Json, encoded: bool, again: bool)
    ensures MaskedValue(Str(MaskedValue(value, encoded)), again) == "(masked, " + Text.Decimal(|MaskedValue(value, encoded)|) + "B)"
  {
    var text := MaskedValue(value, encoded);
    assert text[0] == '(';
    assert WithoutNewlines(text)[0] == '(';
    assert DecodedSize(text) == None;
  }

  lemma TwiceMaskedReveals(a: Json, b: Json, encoded: bool, again: bool)
    ensures MaskedField(Str(MaskedValue(a, encoded)), again) == MaskedField(Str(MaskedValue(b, encoded)), again) <==>
            |MaskedValue(a, encoded)| == |MaskedValue(b, encoded)|
  {
    var s, t := Str(MaskedValue(a, encoded)), Str(MaskedValue(b, encoded));
    MaskedTwice(a, encoded, again);
    MaskedTwice(b, encoded, again);
    MaskedTwice(a, encoded, false);
    MaskedTwice(b, encoded, false);
    MaskedValueReveals(s, t, false);
  }

  lemma MaskedOpFieldReveals(a: Json, b: Json, encoded: bool)
    ensures MaskTree(MaskedField(a, encoded)) == MaskTree(MaskedField(b, encoded)) <==> SameOpField(a, b, encoded)
  {
    if a.Obj? && b.Obj? {
      var x, y := MaskTree(MaskedField(a, encoded)).members, MaskTree(MaskedField(b, encoded)).members;
      assert x.Keys == a.members.Keys && y.Keys == b.members.Keys;
      forall k | k in a.members && k in b.members
        ensures x[k] == y[k] <==>
          if k in CREDENTIAL_FIELDS
          then |MaskedValue(a.members[k], encoded)| == |MaskedValue(b.members[k], encoded)|
          else SameSecret(a.members[k], b.members[k], encoded)
      {
        if k in CREDENTIAL_FIELDS {
          TwiceMaskedReveals(a.members[k], b.members[k], encoded, k == "data");
        } else {
          var s, t := Str(MaskedValue(a.members[k], encoded)), Str(MaskedValue(b.members[k], encoded));
          assert MaskTree(s) == s && MaskTree(t) == t;
          assert x[k] == MaskTree(s) && y[k] == MaskTree(t);
          MaskedValueReveals(a.members[k], b.members[k], encoded);
        }
      }
    } else {
      MaskedFieldReveals(a, b, encoded);
    }
  }

  /** MaskTree keeps every string that is not under a credential field. */
  lemma VisibleString(m: Members, key: string)
    requires key !in CREDENTIAL_FIELDS
    ensures StringOrEmpty(MaskTree(Obj(m)).members, key) == StringOrEmpty(m, key)
  {
  }

  /** The members of two operations on the same credential field, apart from the value. */
  lemma OtherMembersReveal(a: Json, b: Json)
    requires a.Obj? && b.Obj? && OpTarget(a).Some? && OpTarget(a) == OpTarget(b)
    ensures MaskTree(MaskOp(a)).members.Keys == a.members.Keys && MaskTree(MaskOp(b)).members.Keys == b.members.Keys
    ensures forall k | k in a.members && k in b.members && k != "value" ::
      MaskTree(MaskOp(a)).members[k] == MaskTree(MaskOp(b)).members[k] <==> IndistinctMember(k, a.members[k], b.members[k])
  {
    forall k | k in a.members && k in b.members && k != "value"
      ensures MaskTree(MaskOp(a)).members[k] == MaskTree(MaskOp(b)).members[k] <==> IndistinctMember(k, a.members[k], b.members[k])
    {
      MaskMemberReveals(k, a.members[k], b.members[k]);
    }
  }

  /** Two operations on the same credential field: their other members and their values. */
  lemma SameTargetReveals(a: Json, b: Json)
    requires a.Obj? && b.Obj? && OpTarget(a).Some? && OpTarget(a) == OpTarget(b)
    ensures MaskTree(MaskOp(a)) == MaskTree(MaskOp(b)) <==> IndistinctOp(a, b)
  {
    OtherMembersReveal(a, b);
    var field := OpTarget(a).value.0;
    MaskedOpFieldReveals(a.members["value"], b.members["value"], field == "data");
    MaskedValueReveals(a.members["value"], b.members["value"], field == "data");
  }

  /** Operations on different fields differ in their paths, and a path is shown. */
  lemma OtherTargetReveals(a: Json, b: Json)
    requires a.Obj? && b.Obj? && OpTarget(a) != OpTarget(b)
    ensures MaskTree(MaskOp(a)) != MaskTree(MaskOp(b)) && !IndistinctOp(a, b)
  {
    var x, y := MaskTree(MaskOp(a)).members, MaskTree(MaskOp(b)).members;
    assert x.Keys == a.members.Keys && y.Keys == b.members.Keys;
    VisibleString(MaskOp(a).members, "path");
    VisibleString(MaskOp(b).members, "path");
  }

  lemma MaskedOpReveals(a: Json, b: Json)
    ensures MaskTree(MaskOp(a)) == MaskTree(MaskOp(b)) <==> IndistinctOp(a, b)
  {
    if OpTarget(a) == OpTarget(b) == None {
      MaskRevealsSizesOnly(a, b);
    } else if !a.Obj? || !b.Obj? {
      assert MaskTree(MaskOp(a)).Obj? == a.Obj? && MaskTree(MaskOp(b)).Obj? == b.Obj?;
    } else if OpTarget(a) == OpTarget(b) {
      SameTargetReveals(a, b);
    } else {
      OtherTargetReveals(a, b);
    }
  }

  lemma MaskedPatchReveals(a: Json, b: Json)
    ensures MaskTree(MaskOps(a)) == MaskTree(MaskOps(b)) <==> IndistinctPatch(a, b)
  {
    if a.Arr? && b.Arr? {
      var x, y := MaskTree(MaskOps(a)).items, MaskTree(MaskOps(b)).items;
      forall i | 0 <= i < |a.items| && i < |b.items|
        ensures x[i] == y[i] <==> IndistinctOp(a.items[i], b.items[i])
      {
        MaskedOpReveals(a.items[i], b.items[i]);
      }
    } else {
      MaskRevealsSizesOnly(a, b);
    }
  }

  /** The whole screen: two argument objects render alike exactly when they are indistinct. */
  lemma MaskedArgumentsReveal(a: Members, b: Members)
    ensures MaskArguments(a) == MaskArguments(b) <==> IndistinctArguments(a, b)
  {
    var x, y := MaskArguments(a).members, MaskArguments(b).members;
    assert x.Keys == a.Keys && y.Keys == b.Keys;
    VisibleString(PatchMasked(a), "patchType");
    VisibleString(PatchMasked(b), "patchType");
    assert StringOrEmpty(x, "patchType") == StringOrEmpty(a, "patchType");
    assert StringOrEmpty(y, "patchType") == StringOrEmpty(b, "patchType");
    if a.Keys == b.Keys && IsJsonPatchCall(a) == IsJsonPatchCall(b) {
      forall k | k in a
        ensures x[k] == y[k] <==>
          if k == "patch" && IsJsonPatchCall(a) then IndistinctPatch(a[k], b[k]) else IndistinctMember(k, a[k], b[k])
      {
        if k == "patch" && IsJsonPatchCall(a) {
          MaskedPatchReveals(a[k], b[k]);
        } else {
          MaskMemberReveals(k, a[k], b[k]);
        }
      }
    } else {
      assert x != y;
    }
  }
}
