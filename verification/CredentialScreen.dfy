/**
 * What the approval screen shows of credentials, said of the call's arguments alone: which places hold a
 * credential, and the text that stands there instead.
 */
module CredentialScreen {
  import opened Results
  import opened Json
  import opened CredentialMask
  import Text

  // ---- the size of encoded data (RFC 4648, section 4) ----

  /** The letters, digits, plus and slash, and no other character. */
  predicate Letter64(c: char)
  {
    'A' <= c <= 'Z' || 'a' <= c <= 'z' || '0' <= c <= '9' || c == '+' || c == '/'
  }

  /** How many of the last two characters are padding. */
  function Padding(s: string): nat
  {
    if s == "" || s[|s| - 1] != '=' then 0 else if |s| >= 2 && s[|s| - 2] == '=' then 2 else 1
  }

  /** Whole groups of four, of letters but for the padding at the very end. */
  predicate Base64(s: string)
  {
    |s| % 4 == 0 && forall i | 0 <= i < |s| - Padding(s) :: Letter64(s[i])
  }

  function Bytes64(s: string): int
  {
    |s| / 4 * 3 - Padding(s)
  }

  lemma {:induction false} QuantaExactly(s: string)
    ensures QuantaSize(s).Some? <==> Base64(s)
    ensures QuantaSize(s).Some? ==> QuantaSize(s).value == Bytes64(s)
  {
    if |s| > 4 && InAlphabet(s[0]) && InAlphabet(s[1]) && InAlphabet(s[2]) && InAlphabet(s[3]) {
      var rest := s[4..];
      QuantaExactly(rest);
      PaddingOfRest(s);
      assert s == s[..4] + rest;
    } else if |s| >= 4 {
      ShortQuanta(s);
    }
  }

  lemma PaddingOfRest(s: string)
    requires |s| > 4 && Letter64(s[0]) && Letter64(s[1]) && Letter64(s[2]) && Letter64(s[3])
    ensures |s| % 4 == 0 ==> Padding(s) == Padding(s[4..])
    ensures Base64(s) <==> Base64(s[4..])
  {
    var rest := s[4..];
    assert forall i | 0 <= i < |rest| :: rest[i] == s[i + 4];
    if |s| % 4 == 0 {
      assert |rest| >= 4;
      assert forall i | 4 <= i < |s| :: s[i] == rest[i - 4];
    }
  }

  /** The last group, and groups that are none. */
  lemma ShortQuanta(s: string)
    requires |s| == 4 || (|s| > 4 && !(Letter64(s[0]) && Letter64(s[1]) && Letter64(s[2]) && Letter64(s[3])))
    ensures QuantaSize(s).Some? <==> Base64(s)
    ensures QuantaSize(s).Some? ==> QuantaSize(s).value == Bytes64(s)
  {
    if |s| == 4 {
      assert s[4..] == "" && QuantaSize("") == Some(0);
      assert Base64(s) <==> forall i | 0 <= i < 4 - Padding(s) :: Letter64(s[i]);
    } else if |s| % 4 == 0 {
      assert |s| - Padding(s) >= 6;
    }
  }

  /** Line breaks do not count, wherever they stand. */
  lemma {:induction false} LineBreaksDoNotCount(a: string, b: string)
    ensures WithoutNewlines(a + b) == WithoutNewlines(a) + WithoutNewlines(b)
    ensures WithoutNewlines("\r") == WithoutNewlines("\n") == ""
    ensures '\r' !in a && '\n' !in a ==> WithoutNewlines(a) == a
  {
    if a == "" {
      assert a + b == b;
    } else {
      LineBreaksDoNotCount(a[1..], b);
      assert (a + b)[1..] == a[1..] + b;
    }
  }

  // ---- what stands in the place of a credential ----

  /** The size of a credential: of what it encodes if it is encoded data, else of its own text. */
  function CredentialSize(text: string, encoded: bool): int
  {
    var plain := WithoutNewlines(text);
    if encoded && Base64(plain) then Bytes64(plain) else |text|
  }

  /** All that is shown: the size of a text, and of anything else that it is there. */
  predicate Hides(shown: Json, value: Json, encoded: bool)
  {
    if value.Str?
    then CredentialSize(value.text, encoded) >= 0 && shown == Str("(masked, " + Text.Decimal(CredentialSize(value.text, encoded)) + "B)")
    else shown == Str("(masked)")
  }

  lemma MaskedHides(value: Json, encoded: bool)
    ensures Hides(Str(MaskedValue(value, encoded)), value, encoded)
  {
    if value.Str? { QuantaExactly(WithoutNewlines(value.text)); }
  }

  /** A credential field: each of its entries hidden under its own name, or all of it if it has none. */
  predicate HidesField(shown: Json, value: Json, encoded: bool)
  {
    if value.Obj?
    then shown.Obj? && shown.members.Keys == value.members.Keys
         && forall k | k in value.members :: Hides(shown.members[k], value.members[k], encoded)
    else Hides(shown, value, encoded)
  }

  lemma MaskedFieldHides(value: Json, encoded: bool)
    ensures HidesField(MaskedField(value, encoded), value, encoded)
  {
    if value.Obj? {
      forall k | k in value.members
        ensures Hides(MaskedField(value, encoded).members[k], value.members[k], encoded)
      {
        MaskedHides(value.members[k], encoded);
      }
    } else {
      MaskedHides(value, encoded);
    }
  }

  // ---- in the tree ----

  predicate Elsewhere(path: seq<Step>)
  {
    forall step | step in path :: step != Key("data") && step != Key("stringData")
  }

  /** However deep a `data` or `stringData` sits, each of its values is hidden, by the size that fits the field. */
  lemma FieldsAreHidden(node: Json, path: seq<Step>, field: string)
    requires Elsewhere(path) && field in {"data", "stringData"} && At(node, path + [Key(field)]).Some?
    ensures At(MaskTree(node), path + [Key(field)]).Some?
    ensures HidesField(At(MaskTree(node), path + [Key(field)]).value, At(node, path + [Key(field)]).value, field == "data")
  {
    CredentialFieldMasked(node, path, field);
    MaskedFieldHides(At(node, path + [Key(field)]).value, field == "data");
  }

  // ---- in a JSON Patch ----

  /** The path addresses the whole of a credential field. */
  predicate WholeField(path: string, field: string)
  {
    path == "/" + field || path == "/" + field + "/"
  }

  /** The path addresses something inside a credential field. */
  ghost predicate InsideField(path: string, field: string)
  {
    exists rest :: rest != "" && path == "/" + field + "/" + rest
  }

  ghost predicate Addresses(path: string, field: string)
  {
    field in {"data", "stringData"} && (WholeField(path, field) || InsideField(path, field))
  }

  lemma FieldPaths()
    ensures "/" + "data" == "/data" && "/" + "stringData" == "/stringData"
    ensures "/data" + "/" == "/data/" && "/stringData" + "/" == "/stringData/"
  {
  }

  lemma WholeFieldFound(path: string, field: string)
    requires field in {"data", "stringData"} && WholeField(path, field)
    ensures CredentialPath(path) == Some((field, ""))
  {
    FieldPaths();
    assert path[1] == field[0];
    if path == "/data/" {
      assert path[..6] == "/data/" && path[6..] == "";
    }
    if path == "/stringData/" {
      assert path[..12] == "/stringData/" && path[12..] == "" && !Text.HasPrefix(path, "/data/");
    }
  }

  lemma InsideFieldFound(path: string, field: string, rest: string)
    requires field in {"data", "stringData"} && rest != "" && path == "/" + field + "/" + rest
    ensures CredentialPath(path) == Some((field, rest))
  {
    FieldPaths();
    assert path[1] == field[0];
    if field == "data" {
      assert path == "/data/" + rest && path[..6] == "/data/" && path[6..] == rest;
    } else {
      assert path == "/stringData/" + rest && path[..12] == "/stringData/" && path[12..] == rest;
    }
  }

  lemma FoundIsAddressed(path: string)
    ensures CredentialPath(path).Some? ==> Addresses(path, CredentialPath(path).value.0)
  {
    FieldPaths();
    if Text.HasPrefix(path, "/data/") {
      assert path == "/data" + "/" + path[6..];
      assert path[6..] == "" ==> path == "/data/";
    }
    if Text.HasPrefix(path, "/stringData/") {
      assert path == "/stringData" + "/" + path[12..];
      assert path[12..] == "" ==> path == "/stringData/";
    }
  }

  /** The operation has a value, at this path. */
  predicate WritesAt(op: Json, path: string)
  {
    op.Obj? && "value" in op.members && "path" in op.members && op.members["path"] == Str(path)
  }

  /** The operation but for its value. */
  predicate SameButValue(a: Json, b: Json)
  {
    a.Obj? && b.Obj? && a.members.Keys == b.members.Keys && forall k | k in a.members && k != "value" :: a.members[k] == b.members[k]
  }

  /** An operation at a credential path, for either field and any name below it, keeps nothing of its value but what hides it. */
  lemma PatchValueIsHidden(op: Json, path: string, field: string)
    requires WritesAt(op, path) && Addresses(path, field)
    ensures SameButValue(MaskOp(op), op) && "value" in MaskOp(op).members
    ensures InsideField(path, field) ==> Hides(MaskOp(op).members["value"], op.members["value"], field == "data")
    ensures !InsideField(path, field) ==> HidesField(MaskOp(op).members["value"], op.members["value"], field == "data")
  {
    if InsideField(path, field) {
      var rest :| rest != "" && path == "/" + field + "/" + rest;
      InsideFieldFound(path, field, rest);
      MaskedHides(op.members["value"], field == "data");
    } else {
      WholeFieldFound(path, field);
      MaskedFieldHides(op.members["value"], field == "data");
    }
  }

  /** Any other operation is left as it is by the pass over the patch. */
  lemma OtherOperationIsLeft(op: Json)
    requires forall path, field | WritesAt(op, path) :: !Addresses(path, field)
    ensures MaskOp(op) == op
  {
    if OpTarget(op).Some? {
      var path := op.members["path"].text;
      assert WritesAt(op, path);
      FoundIsAddressed(path);
      assert false;
    }
  }

  // ---- on the screen ----

  /** Masked text is no encoded data, so a second masking gives the size of the text. */
  lemma TwiceHides(value: Json, once: Json, encoded: bool, again: bool)
    requires Hides(once, value, encoded)
    ensures Hides(MaskedField(once, again), once, false)
  {
    MaskedHides(value, encoded);
    assert once == Str(MaskedValue(value, encoded));
    MaskedTwice(value, encoded, again);
  }

  /** A whole field on the screen: its entries hidden, one that is itself named like a credential field twice over. */
  ghost predicate ShownField(shown: Json, value: Json, encoded: bool)
  {
    if !value.Obj? then Hides(shown, value, encoded)
    else
      && shown.Obj? && shown.members.Keys == value.members.Keys
      && forall k | k in value.members :: ShownEntry(k, shown.members[k], value.members[k], encoded)
  }

  ghost predicate ShownEntry(key: string, shown: Json, value: Json, encoded: bool)
  {
    if key in {"data", "stringData"} then exists once :: Hides(once, value, encoded) && Hides(shown, once, false)
    else Hides(shown, value, encoded)
  }

  lemma HiddenStays(once: Json, value: Json, encoded: bool)
    requires Hides(once, value, encoded)
    ensures MaskTree(once) == once
  {
  }

  /** What the pass over the whole tree makes of a field that was hidden already. */
  lemma SecondPass(once: Json, value: Json, encoded: bool)
    requires HidesField(once, value, encoded)
    ensures ShownField(MaskTree(once), value, encoded)
  {
    if value.Obj? {
      forall k | k in value.members
        ensures ShownEntry(k, MaskTree(once).members[k], value.members[k], encoded)
      {
        if k in {"data", "stringData"} {
          TwiceHides(value.members[k], once.members[k], encoded, k == "data");
        } else {
          HiddenStays(once.members[k], value.members[k], encoded);
        }
      }
    } else {
      HiddenStays(once, value, encoded);
    }
  }

  lemma ValueInTree(op: Json)
    requires op.Obj? && "value" in op.members
    ensures MaskTree(op).Obj? && "value" in MaskTree(op).members && MaskTree(op).members["value"] == MaskTree(op.members["value"])
  {
  }

  /**
   * The screen as a whole: in a JSON Patch call every operation at a credential path is shown with its value
   * hidden, whichever operation it is and wherever it stands in the list.
   */
  lemma ScreenHidesPatchValues(args: Members, i: nat, path: string, field: string)
    requires "patchType" in args && args["patchType"] == Str("json")
    requires "patch" in args && args["patch"].Arr? && i < |args["patch"].items|
    requires WritesAt(args["patch"].items[i], path) && Addresses(path, field)
    ensures
      var shown := At(MaskArguments(args), [Key("patch"), Index(i), Key("value")]);
      var value := args["patch"].items[i].members["value"];
      shown.Some? && if InsideField(path, field) then Hides(shown.value, value, field == "data") else ShownField(shown.value, value, field == "data")
  {
    var op := args["patch"].items[i];
    var once, value := MaskOp(op).members["value"], op.members["value"];
    PatchValueIsHidden(op, path, field);
    ValueInTree(MaskOp(op));
    if InsideField(path, field) {
      HiddenStays(once, value, field == "data");
    } else {
      SecondPass(once, value, field == "data");
    }
    var shown := MaskArguments(args);
    assert shown.members["patch"] == MaskTree(MaskOps(args["patch"]));
    assert shown.members["patch"].items[i] == MaskTree(MaskOp(op));
    AtThree(shown, "patch", i, "value");
  }

  /** No other call has a patch pass: of it the screen shows the arguments with their fields hidden. */
  lemma OnlyJsonPatchesAreRead(args: Members)
    requires !("patchType" in args && args["patchType"] == Str("json") && "patch" in args && args["patch"].Arr?)
    ensures MaskArguments(args) == MaskTree(Obj(args))
  {
    if "patch" in args { assert args["patch" := args["patch"]] == args; }
  }

  lemma AtThree(node: Json, a: string, i: nat, b: string)
    requires node.Obj? && a in node.members && node.members[a].Arr? && i < |node.members[a].items|
    requires node.members[a].items[i].Obj? && b in node.members[a].items[i].members
    ensures At(node, [Key(a), Index(i), Key(b)]) == Some(node.members[a].items[i].members[b])
  {
    var list := node.members[a];
    assert At(list.items[i].members[b], []) == Some(list.items[i].members[b]);
    assert [Key(b)][1..] == [] && At(list.items[i], [Key(b)]) == Some(list.items[i].members[b]);
    assert [Index(i), Key(b)][1..] == [Key(b)] && At(list, [Index(i), Key(b)]) == At(list.items[i], [Key(b)]);
    assert [Key(a), Index(i), Key(b)][1..] == [Index(i), Key(b)];
  }
}
