/** JSON Patch read through what can be looked up before and after: the laws behind RFC 6902 (section 4). */
module PatchSemantics {
  import opened Results
  import opened Json
  import opened JsonPatch
  import Text

  // ---- replacing ----

  /** Neither place is inside the other. */
  predicate Apart(p: Pointer, q: Pointer)
  {
    !(p <= q) && !(q <= p)
  }

  lemma {:induction false} DigitsApart(a: string, b: string)
    requires |a| == |b| && Digits(a).Some? && Digits(a) == Digits(b)
    ensures a == b
  {
    if a != "" {
      var n := |a| - 1;
      DigitsApart(a[..n], b[..n]);
      assert a == a[..n] + [a[n]] && b == b[..n] + [b[n]];
    }
  }

  lemma {:induction false} DigitsSize(a: string)
    requires Digits(a).Some?
    ensures a != "" && a[0] != '0' ==> Digits(a).value >= Power(|a| - 1)
    ensures Digits(a).value < Power(|a|)
  {
    if |a| == 1 {
      assert a[..0] == "" && Digits("") == Some(0);
    } else if a != "" {
      DigitsSize(a[..|a| - 1]);
    }
  }

  function Power(n: nat): nat
  {
    if n == 0 then 1 else 10 * Power(n - 1)
  }

  lemma {:induction false} PowerGrows(m: nat, n: nat)
    requires m <= n
    ensures Power(m) <= Power(n)
  {
    if m < n { PowerGrows(m, n - 1); }
  }

  /** One index has one spelling, so different tokens are different places. */
  lemma IndexSpelledOnce(a: string, b: string)
    requires ArrayIndex(a).Some? && ArrayIndex(a) == ArrayIndex(b)
    ensures a == b
  {
    DigitsSize(a);
    DigitsSize(b);
    if |a| < |b| {
      PowerGrows(|a|, |b| - 1);
    } else if |b| < |a| {
      PowerGrows(|b|, |a| - 1);
    } else {
      DigitsApart(a, b);
    }
  }

  lemma ChildReplaced(doc: Json, token: string, child: Json, other: string)
    requires Child(doc, token).Some?
    ensures Child(WithChild(doc, token, child), token) == Some(child)
    ensures other != token ==> Child(WithChild(doc, token, child), other) == Child(doc, other)
  {
    if doc.Arr? && other != token && ArrayIndex(other).Some? && ArrayIndex(other) == ArrayIndex(token) {
      IndexSpelledOnce(other, token);
    }
  }

  /** A place can be replaced exactly when there is something; then the new value is there. */
  lemma {:induction false} ReplaceExactly(doc: Json, path: Pointer, value: Json)
    ensures Replace(doc, path, value).Some? <==> Lookup(doc, path).Some?
    ensures Replace(doc, path, value).Some? ==> Lookup(Replace(doc, path, value).value, path) == Some(value)
  {
    if path != [] && Child(doc, path[0]).Some? {
      ReplaceExactly(Child(doc, path[0]).value, path[1..], value);
      var c := Replace(Child(doc, path[0]).value, path[1..], value);
      if c.Some? { ChildReplaced(doc, path[0], c.value, path[0]); }
    }
  }

  /** And every place apart from it is as it was. */
  lemma {:induction false} ReplaceElsewhere(doc: Json, path: Pointer, value: Json, other: Pointer)
    requires Replace(doc, path, value).Some? && Apart(path, other)
    ensures Lookup(Replace(doc, path, value).value, other) == Lookup(doc, other)
  {
    assert path != [] && other != [];
    var child := Child(doc, path[0]).value;
    var c := Replace(child, path[1..], value).value;
    ChildReplaced(doc, path[0], c, other[0]);
    if other[0] == path[0] {
      assert path == [path[0]] + path[1..] && other == [path[0]] + other[1..];
      assert Apart(path[1..], other[1..]);
      ReplaceElsewhere(child, path[1..], value, other[1..]);
    }
  }

  // ---- adding and removing, as replacements of the container ----

  /** What adding makes of a container; None when it is none, or the index is beyond its end. */
  function Extended(container: Json, token: string, value: Json): Option<Json>
  {
    match container
    case Obj(m) => Some(Obj(m[token := value]))
    case Arr(items) =>
      if token == "-" then Some(Arr(items + [value]))
      else if ArrayIndex(token).Some? && ArrayIndex(token).value <= |items|
      then Some(Arr(items[..ArrayIndex(token).value] + [value] + items[ArrayIndex(token).value..]))
      else None
    case _ => None
  }

  /** What removing makes of a container; None when the place does not exist. */
  function Reduced(container: Json, token: string): Option<Json>
  {
    match container
    case Obj(m) => if token in m then Some(Obj(m - {token})) else None
    case Arr(items) =>
      if ArrayIndex(token).Some? && ArrayIndex(token).value < |items|
      then Some(Arr(items[..ArrayIndex(token).value] + items[ArrayIndex(token).value + 1..]))
      else None
    case _ => None
  }

  /** Whatever is looked up and rewritten is replaced. */
  function Rewritten(doc: Json, place: Pointer, container: Option<Json>): Option<Json>
  {
    match container
    case Some(c) => Replace(doc, place, c)
    case None => None
  }

  lemma TailOf(parent: Pointer, token: string)
    requires parent != []
    ensures (parent + [token])[1..] == parent[1..] + [token] && (parent + [token])[0] == parent[0]
  {
  }

  /** Adding at a place is replacing its container by the container with the value added, and fails where that cannot be done. */
  lemma {:induction false} AddExactly(doc: Json, parent: Pointer, token: string, value: Json)
    ensures Add(doc, parent + [token], value) ==
      match Lookup(doc, parent)
      case None => None
      case Some(container) => Rewritten(doc, parent, Extended(container, token, value))
  {
    if parent == [] {
      assert parent + [token] == [token];
    } else {
      TailOf(parent, token);
      if Child(doc, parent[0]).Some? {
        AddExactly(Child(doc, parent[0]).value, parent[1..], token, value);
      }
    }
  }

  /** Removing a place is replacing its container by the container without it. */
  lemma {:induction false} RemoveExactly(doc: Json, parent: Pointer, token: string)
    ensures Remove(doc, parent + [token]) ==
      match Lookup(doc, parent)
      case None => None
      case Some(container) => Rewritten(doc, parent, Reduced(container, token))
  {
    if parent == [] {
      assert parent + [token] == [token];
    } else {
      TailOf(parent, token);
      if Child(doc, parent[0]).Some? {
        RemoveExactly(Child(doc, parent[0]).value, parent[1..], token);
      }
    }
  }

  /** The document itself can be replaced by an addition and cannot be removed. */
  lemma AtTheRoot(doc: Json, value: Json)
    ensures Add(doc, [], value) == Replace(doc, [], value) == Some(value) && Remove(doc, []) == None
  {
  }

  // ---- operations by their names ----

  function Then(d: Option<Json>, place: Pointer, value: Json): Option<Json>
  {
    if d.Some? then Add(d.value, place, value) else None
  }

  /** An operation of this kind at this place. */
  predicate Operates(op: Json, kind: string, place: Pointer)
  {
    && op.Obj? && "op" in op.members && op.members["op"] == Str(kind)
    && "path" in op.members && op.members["path"].Str? && ParsePointer(op.members["path"].text) == Some(place)
  }

  /** RFC 6902, sections 4.1, 4.3 and 4.6. */
  lemma OperatesWithValue(doc: Json, op: Json, kind: string, place: Pointer, value: Json)
    requires Operates(op, kind, place) && "value" in op.members && op.members["value"] == value
    ensures kind == "add" ==> ApplyOp(op, doc) == Add(doc, place, value)
    ensures kind == "replace" ==> ApplyOp(op, doc) == Replace(doc, place, value)
    ensures kind == "test" ==>
      ApplyOp(op, doc) == if Lookup(doc, place).Some? && Equal(Lookup(doc, place).value, value) then Some(doc) else None
  {
  }

  /** RFC 6902, section 4.2. */
  lemma OperatesByRemoval(doc: Json, op: Json, place: Pointer)
    requires Operates(op, "remove", place)
    ensures ApplyOp(op, doc) == Remove(doc, place)
  {
  }

  /** RFC 6902, sections 4.4 and 4.5: a copy is an addition of what stands elsewhere, a move takes it away there first. */
  lemma OperatesFromElsewhere(doc: Json, op: Json, kind: string, place: Pointer, source: Pointer)
    requires Operates(op, kind, place)
    requires "from" in op.members && op.members["from"].Str? && ParsePointer(op.members["from"].text) == Some(source)
    ensures kind == "copy" ==>
      ApplyOp(op, doc) == if Lookup(doc, source).Some? then Add(doc, place, Lookup(doc, source).value) else None
    ensures kind == "move" ==>
      ApplyOp(op, doc) ==
      if Lookup(doc, source).Some? && !(source < place) then Then(Remove(doc, source), place, Lookup(doc, source).value) else None
  {
  }

  // ---- pointers (RFC 6901, sections 3 and 4) ----

  /** A reference token as a pointer spells it. */
  function Spelled(token: string): string
  {
    if token == "" then ""
    else (if token[0] == '~' then "~0" else if token[0] == '/' then "~1" else [token[0]]) + Spelled(token[1..])
  }

  lemma {:induction false} SpelledReads(token: string)
    ensures Unescape(Spelled(token)) == Some(token) && '/' !in Spelled(token)
  {
    if token != "" {
      SpelledReads(token[1..]);
      assert token == [token[0]] + token[1..];
      assert token[0] == '~' ==> Spelled(token)[2..] == Spelled(token[1..]);
      assert token[0] == '/' ==> Spelled(token)[2..] == Spelled(token[1..]);
      assert token[0] != '~' && token[0] != '/' ==> Spelled(token)[1..] == Spelled(token[1..]);
    }
  }

  function SpelledAll(tokens: Pointer): (r: seq<string>)
    ensures |r| == |tokens| && forall i | 0 <= i < |tokens| :: r[i] == Spelled(tokens[i])
  {
    seq(|tokens|, i requires 0 <= i < |tokens| => Spelled(tokens[i]))
  }

  lemma {:induction false} AllSpelledRead(tokens: Pointer)
    ensures UnescapeAll(SpelledAll(tokens)) == Some(tokens)
  {
    if tokens != [] {
      SpelledReads(tokens[0]);
      AllSpelledRead(tokens[1..]);
      assert SpelledAll(tokens)[1..] == SpelledAll(tokens[1..]);
      assert tokens == [tokens[0]] + tokens[1..];
    }
  }

  /** Any place that is not the whole document, spelled out, reads back as itself. */
  lemma PointerReadsBack(tokens: Pointer)
    requires tokens != []
    ensures ParsePointer("/" + Text.Join(SpelledAll(tokens), '/')) == Some(tokens)
  {
    var parts := SpelledAll(tokens);
    var text := "/" + Text.Join(parts, '/');
    forall p | p in parts
      ensures '/' !in p
    {
      var i :| 0 <= i < |parts| && parts[i] == p;
      SpelledReads(tokens[i]);
    }
    Text.SplitJoin(parts, '/');
    AllSpelledRead(tokens);
    assert text[1..] == Text.Join(parts, '/');
  }

  /** An index, printed, addresses that element. */
  lemma IndexReadsBack(i: nat)
    ensures ArrayIndex(Text.Decimal(i)) == Some(i)
  {
    DecimalReads(i);
    NoLeadingZero(i);
  }

  lemma {:induction false} NoLeadingZero(n: nat)
    ensures n > 0 ==> Text.Decimal(n)[0] != '0'
    ensures n < 10 ==> |Text.Decimal(n)| == 1
  {
    if n >= 10 { NoLeadingZero(n / 10); }
  }
}
