/**
 * What the apiserver does with a patch body: JSON Pointer (RFC 6901 section 4), JSON Patch
 * (RFC 6902 sections 4 and 5) and JSON Merge Patch (RFC 7396 section 2).
 */
module JsonPatch {
  import opened Results
  import opened Json
  import Text

  type Pointer = seq<string>

  /** RFC 6901 section 4: `~1` stands for `/`, `~0` for `~`; any other `~` is an error. */
  function Unescape(token: string): Option<string>
  {
    if token == "" then Some("")
    else if token[0] != '~' then
      match Unescape(token[1..])
      case Some(rest) => Some([token[0]] + rest)
      case None => None
    else if |token| < 2 || token[1] !in "01" then None
    else
      match Unescape(token[2..])
      case Some(rest) => Some([if token[1] == '0' then '~' else '/'] + rest)
      case None => None
  }

  function UnescapeAll(tokens: seq<string>): (r: Option<Pointer>)
    ensures r.Some? ==> |r.value| == |tokens|
  {
    if tokens == [] then Some([])
    else
      match (Unescape(tokens[0]), UnescapeAll(tokens[1..]))
      case (Some(t), Some(rest)) => Some([t] + rest)
      case _ => None
  }

  function ParsePointer(text: string): Option<Pointer>
  {
    if text == "" then Some([])
    else if text[0] != '/' then None
    else UnescapeAll(Text.Split(text[1..], '/'))
  }

  /** The value of a digit string; None when some character is not a digit. */
  function Digits(token: string): Option<nat>
  {
    if token == "" then Some(0)
    else
      var last := token[|token| - 1];
      match Digits(token[..|token| - 1])
      case Some(n) => if '0' <= last <= '9' then Some(10 * n + (last - '0') as nat) else None
      case None => None
  }

  /** A number as it is printed reads back as that number. */
  lemma {:induction false} DecimalReads(n: nat)
    ensures Digits(Text.Decimal(n)) == Some(n)
  {
    var s := Text.Decimal(n);
    if n < 10 {
      assert s[..0] == "" && Digits("") == Some(0);
    } else {
      DecimalReads(n / 10);
      assert s[..|s| - 1] == Text.Decimal(n / 10);
    }
  }

  /** RFC 6901 section 4: decimal digits without a leading zero. */
  function ArrayIndex(token: string): Option<nat>
  {
    if token == "" || (|token| > 1 && token[0] == '0') then None else Digits(token)
  }

  /** The child of a container that a reference token names, if it exists. */
  function Child(doc: Json, token: string): Option<Json>
  {
    match doc
    case Obj(m) => Member(m, token)
    case Arr(items) =>
      (match ArrayIndex(token)
       case Some(i) => if i < |items| then Some(items[i]) else None
       case None => None)
    case _ => None
  }

  function Lookup(doc: Json, path: Pointer): Option<Json>
  {
    if path == [] then Some(doc)
    else
      match Child(doc, path[0])
      case Some(child) => Lookup(child, path[1..])
      case None => None
  }

  /** Puts `child` back in the place of an existing child. */
  function WithChild(doc: Json, token: string, child: Json): Json
    requires Child(doc, token).Some?
  {
    match doc
    case Obj(m) => Obj(m[token := child])
    case Arr(items) => Arr(items[ArrayIndex(token).value := child])
  }

  /** RFC 6902 section 4.1: set an object member, or insert before an index, `-` being the end. */
  function Add(doc: Json, path: Pointer, value: Json): Option<Json>
  {
    if path == [] then Some(value)
    else if |path| > 1 then
      match Child(doc, path[0])
      case None => None
      case Some(child) =>
        (match Add(child, path[1..], value)
         case Some(c) => Some(WithChild(doc, path[0], c))
         case None => None)
    else
      match doc
      case Obj(m) => Some(Obj(m[path[0] := value]))
      case Arr(items) =>
        if path[0] == "-" then Some(Arr(items + [value]))
        else
          (match ArrayIndex(path[0])
           case Some(i) => if i <= |items| then Some(Arr(items[..i] + [value] + items[i..])) else None
           case None => None)
      case _ => None
  }

  /** RFC 6902 section 4.2: the target location must exist. */
  function Remove(doc: Json, path: Pointer): Option<Json>
  {
    if path == [] then None
    else
      match Child(doc, path[0])
      case None => None
      case Some(child) =>
        if |path| > 1 then
          (match Remove(child, path[1..])
           case Some(c) => Some(WithChild(doc, path[0], c))
           case None => None)
        else
          match doc
          case Obj(m) => Some(Obj(m - {path[0]}))
          case Arr(items) =>
            var i := ArrayIndex(path[0]).value;
            Some(Arr(items[..i] + items[i + 1..]))
  }

  function Replace(doc: Json, path: Pointer, value: Json): Option<Json>
  {
    if path == [] then Some(value)
    else
      match Child(doc, path[0])
      case None => None
      case Some(child) =>
        match Replace(child, path[1..], value)
        case Some(c) => Some(WithChild(doc, path[0], c))
        case None => None
  }

  function PointerMember(op: Members, key: string): Option<Pointer>
  {
    if key in op && op[key].Str? then ParsePointer(op[key].text) else None
  }

  /** The characters before the first one that is in `stops`. */
  function Until(s: string, stops: set<char>): (head: string)
    ensures |head| <= |s|
  {
    if s == "" || s[0] in stops then "" else [s[0]] + Until(s[1..], stops)
  }

  function DigitsOrZero(s: string): nat
  {
    match Digits(s) case Some(n) => n case None => 0
  }

  /** `digits * 10^exponent` without trailing zeros in the digits, so that equal numbers get equal pairs. */
  function Normal(digits: nat, exponent: int): (int, int)
    decreases digits
  {
    if digits == 0 then (0, 0)
    else if digits % 10 == 0 then Normal(digits / 10, exponent + 1)
    else (digits, exponent)
  }

  /** The number an RFC 8259 number literal denotes. */
  function NumberValue(literal: string): (int, int)
  {
    var negative := Text.HasPrefix(literal, "-");
    var body := if negative then literal[1..] else literal;
    var mantissa := Until(body, {'e', 'E'});
    var power := if |mantissa| < |body| then body[|mantissa| + 1..] else "0";
    var sign := if Text.HasPrefix(power, "-") then -1 else 1;
    var size := if power != "" && power[0] in {'-', '+'} then power[1..] else power;
    var whole := Until(mantissa, {'.'});
    var fraction := if |whole| < |mantissa| then mantissa[|whole| + 1..] else "";
    var (digits, exponent) := Normal(DigitsOrZero(whole + fraction), sign * DigitsOrZero(size) - |fraction|);
    (if negative then -digits else digits, exponent)
  }

  /** RFC 6902 section 4.6: deep equality, numbers compared by value. */
  predicate Equal(a: Json, b: Json)
    decreases a
  {
    match (a, b)
    case (Num(x), Num(y)) => NumberValue(x) == NumberValue(y)
    case (Arr(xs), Arr(ys)) => |xs| == |ys| && forall i | 0 <= i < |xs| :: Equal(xs[i], ys[i])
    case (Obj(m), Obj(n)) => m.Keys == n.Keys && forall k | k in m :: Equal(m[k], n[k])
    case _ => a == b
  }

  /** One operation of RFC 6902 section 4; None is an error. */
  function ApplyOp(op: Json, doc: Json): Option<Json>
  {
    if !op.Obj? then None
    else
      var m := op.members;
      var kind := StringOrEmpty(m, "op");
      match PointerMember(m, "path")
      case None => None
      case Some(path) =>
        if kind in {"add", "replace", "test"} then
          match Member(m, "value")
          case None => None
          case Some(value) =>
            if kind == "add" then Add(doc, path, value)
            else if kind == "replace" then Replace(doc, path, value)
            else if Lookup(doc, path).Some? && Equal(Lookup(doc, path).value, value) then Some(doc) else None
        else if kind == "remove" then Remove(doc, path)
        else if kind in {"move", "copy"} then
          match PointerMember(m, "from")
          case None => None
          case Some(from) =>
            match Lookup(doc, from)
            case None => None
            case Some(value) =>
              if kind == "copy" then Add(doc, path, value)
              else if from < path then None
              else
                match Remove(doc, from)
                case Some(d) => Add(d, path, value)
                case None => None
        else None
  }

  /** RFC 6902 section 5: operations in order, and one failure fails the whole patch. */
  function ApplyOps(ops: seq<Json>, doc: Json): Option<Json>
  {
    if ops == [] then Some(doc)
    else
      match ApplyOp(ops[0], doc)
      case Some(d) => ApplyOps(ops[1..], d)
      case None => None
  }

  lemma {:induction false} ApplyOpsConcat(xs: seq<Json>, ys: seq<Json>, doc: Json)
    ensures ApplyOps(xs + ys, doc) ==
      match ApplyOps(xs, doc) case Some(d) => ApplyOps(ys, d) case None => None
  {
    if xs == [] {
      assert xs + ys == ys;
    } else {
      assert (xs + ys)[1..] == xs[1..] + ys;
      match ApplyOp(xs[0], doc)
      case Some(d) => ApplyOpsConcat(xs[1..], ys, d);
      case None =>
    }
  }

  /** RFC 7396 section 2, `MergePatch(Target, Patch)`; an absent target is passed as None. */
  function MergePatch(target: Option<Json>, patch: Json): Json
    decreases patch
  {
    match patch
    case Obj(p) =>
      var base := BaseMembers(target);
      Obj(map k | k in base.Keys + p.Keys && !(k in p && p[k].Null?) ::
            if k in p then MergePatch(Member(base, k), p[k]) else base[k])
    case _ => patch
  }

  /** RFC 7396 section 2: a target that is not an object is treated as an empty one. */
  function BaseMembers(target: Option<Json>): Members
  {
    if target.Some? && target.value.Obj? then target.value.members else map[]
  }

  /** RFC 7396 section 2, member by member. */
  lemma MergeMember(target: Option<Json>, p: Members, key: string)
    ensures MergePatch(target, Obj(p)).Obj?
    ensures Member(MergePatch(target, Obj(p)).members, key) ==
      if key !in p then Member(BaseMembers(target), key)
      else if p[key].Null? then None
      else if p[key].Obj? then Some(MergePatch(Member(BaseMembers(target), key), p[key]))
      else Some(p[key])
  {
  }

  lemma SameMembers(a: Members, b: Members)
    requires forall k :: Member(a, k) == Member(b, k)
    ensures a == b
  {
    forall k
      ensures k in a <==> k in b
      ensures k in a ==> a[k] == b[k]
    {
      assert Member(a, k) == Member(b, k);
    }
  }
}
