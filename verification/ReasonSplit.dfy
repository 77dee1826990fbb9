/** splitReason: the `reason` argument is taken out of a call's argument text, and nothing else is touched. */
module ReasonSplit {
  import opened Results
  import opened JsonText
  import opened ReasonArgument
  import Text

  // ---- keys ----

  function HexValue(c: char): (v: int)
    requires IsHex(c)
    ensures 0 <= v < 16
  {
    if IsDigit(c) then c as int - '0' as int
    else if 'a' <= c <= 'f' then c as int - 'a' as int + 10
    else c as int - 'A' as int + 10
  }

  /** The code of a \u escape at position i. */
  function Code(s: string, i: nat): (v: int)
    requires IsUnicodeEscape(s, i)
    ensures 0 <= v < 0x10000
  {
    HexValue(s[i + 2]) * 0x1000 + HexValue(s[i + 3]) * 0x100 + HexValue(s[i + 4]) * 0x10 + HexValue(s[i + 5])
  }

  const REPLACEMENT: char := '\U{FFFD}'

  predicate IsPair(s: string, i: nat)
  {
    IsUnicodeEscape(s, i) && 0xD800 <= Code(s, i) < 0xDC00 && IsUnicodeEscape(s, i + 6) && 0xDC00 <= Code(s, i + 6) < 0xE000
  }

  /** The character written at position i; a surrogate without its other half reads as the replacement. */
  function DecodeChar(s: string, i: nat): char
    requires CharLength(s, i) > 0
  {
    if IsPair(s, i) then (0x10000 + (Code(s, i) - 0xD800) * 0x400 + (Code(s, i + 6) - 0xDC00)) as char
    else if CharLength(s, i) == 6 then (if 0xD800 <= Code(s, i) < 0xE000 then REPLACEMENT else Code(s, i) as char)
    else if CharLength(s, i) == 2 then
      match s[i + 1]
      case 'b' => 8 as char
      case 'f' => 12 as char
      case 'n' => '\n'
      case 'r' => '\r'
      case 't' => '\t'
      case c => c
    else s[i]
  }

  /** The string whose opening quote is behind i. */
  function Decode(s: string, i: nat): string
    requires i <= |s| && ScanChars(s, i).Some?
    decreases |s| - i
  {
    if At(s, i, '"') then ""
    else
      assert ScanChars(s, i + CharLength(s, i)).Some?;
      [DecodeChar(s, i)] + Decode(s, i + if IsPair(s, i) then 12 else CharLength(s, i))
  }

  function HexDigit(d: nat): (c: char)
    requires d < 16
    ensures IsHex(c) && HexValue(c) == d
  {
    if d < 10 then '0' + d as char else 'a' + (d - 10) as char
  }

  /** encodeKey: how encoding/json writes a character, without the escapes meant for HTML. */
  function EscapeChar(c: char): string
  {
    if c == '"' then "\\\""
    else if c == '\\' then "\\\\"
    else if c == '\n' then "\\n"
    else if c == '\r' then "\\r"
    else if c == '\t' then "\\t"
    else if c == 8 as char then "\\b"
    else if c == 12 as char then "\\f"
    else if c < ' ' then ['\\', 'u', '0', '0', HexDigit(c as int / 16), HexDigit(c as int % 16)]
    else if c == 0x2028 as char || c == 0x2029 as char then ['\\', 'u', '2', '0', '2', if c == 0x2028 as char then '8' else '9']
    else [c]
  }

  /** Each character written in its own way, one after the other. */
  function Spelled(spell: char -> string, k: string): string
  {
    if k == "" then "" else spell(k[0]) + Spelled(spell, k[1..])
  }

  function Escape(k: string): string
  {
    Spelled(EscapeChar, k)
  }

  function EncodeKey(k: string): string
  {
    "\"" + Escape(k) + "\""
  }

  /** The text x stands in s at position i. */
  predicate Holds(s: string, i: nat, x: string)
  {
    i + |x| <= |s| && forall k | 0 <= k < |x| :: s[i + k] == x[k]
  }

  lemma HoldsParts(s: string, i: nat, a: string, b: string)
    requires Holds(s, i, a + b)
    ensures Holds(s, i, a) && Holds(s, i + |a|, b)
  {
    forall k | 0 <= k < |a|
      ensures s[i + k] == a[k]
    {
      assert (a + b)[k] == a[k];
    }
    forall k | 0 <= k < |b|
      ensures s[i + |a| + k] == b[k]
    {
      assert (a + b)[|a| + k] == b[k];
      assert s[i + (|a| + k)] == (a + b)[|a| + k];
    }
  }

  lemma HoldsOne(s: string, i: nat, c: char)
    requires Holds(s, i, [c])
    ensures At(s, i, c)
  {
    assert [c][0] == c && s[i + 0] == [c][0];
  }

  lemma HeldSlice(s: string, i: nat, x: string)
    requires Holds(s, i, x)
    ensures s[i..i + |x|] == x
  {
  }

  lemma EscapedChar(s: string, i: nat, c: char)
    requires Holds(s, i, EscapeChar(c))
    ensures CharLength(s, i) == |EscapeChar(c)| && !At(s, i, '"') && !IsPair(s, i) && DecodeChar(s, i) == c
  {
    var e := EscapeChar(c);
    assert s[i + 0] == e[0];
    if |e| > 1 { assert s[i + 1] == e[1]; }
    if |e| == 6 { assert s[i + 2] == e[2] && s[i + 3] == e[3] && s[i + 4] == e[4] && s[i + 5] == e[5]; }
  }

  /** The end and the text of the string that goes on at position i. */
  function ReadChars(s: string, i: nat): Option<(nat, string)>
  {
    if i <= |s| && ScanChars(s, i).Some? then Some((ScanChars(s, i).value, Decode(s, i))) else None
  }

  lemma OneEscaped(s: string, i: nat, c: char, end: nat, text: string)
    requires Holds(s, i, EscapeChar(c)) && ReadChars(s, i + |EscapeChar(c)|) == Some((end, text))
    ensures ReadChars(s, i) == Some((end, [c] + text))
  {
    EscapedChar(s, i, c);
    OneChar(s, i);
  }

  /** The reader takes the spelling of c at position j off the front of what it reads after it. */
  predicate Takes(read: nat -> Option<(nat, string)>, spell: char -> string, s: string, c: char, j: nat)
  {
    var rest := read(j + |spell(c)|);
    Holds(s, j, spell(c)) && rest.Some? ==> read(j) == Some((rest.value.0, [c] + rest.value.1))
  }

  predicate Stops(read: nat -> Option<(nat, string)>, s: string, j: nat)
  {
    At(s, j, '"') ==> read(j) == Some((j + 1, ""))
  }

  lemma {:induction false} SpelledReads(read: nat -> Option<(nat, string)>, spell: char -> string, s: string, i: nat, k: string)
    requires forall c, j: nat :: Takes(read, spell, s, c, j)
    requires forall j: nat :: Stops(read, s, j)
    requires Holds(s, i, Spelled(spell, k)) && At(s, i + |Spelled(spell, k)|, '"')
    ensures read(i) == Some((i + |Spelled(spell, k)| + 1, k))
    decreases |k|
  {
    if k == "" {
      assert Stops(read, s, i);
    } else {
      HoldsParts(s, i, spell(k[0]), Spelled(spell, k[1..]));
      SpelledReads(read, spell, s, i + |spell(k[0])|, k[1..]);
      assert Takes(read, spell, s, k[0], i);
      assert k == [k[0]] + k[1..];
    }
  }

  function CharsReader(s: string): nat -> Option<(nat, string)>
  {
    (j: nat) => ReadChars(s, j)
  }

  lemma ReaderTakes(s: string, c: char, j: nat)
    ensures Takes(CharsReader(s), EscapeChar, s, c, j)
  {
    var rest := ReadChars(s, j + |EscapeChar(c)|);
    if Holds(s, j, EscapeChar(c)) && rest.Some? {
      OneEscaped(s, j, c, rest.value.0, rest.value.1);
    }
  }

  /** A key that was written out reads back as itself, wherever it stands. */
  lemma EscapedReadsBack(s: string, i: nat, k: string)
    requires Holds(s, i, Escape(k)) && At(s, i + |Escape(k)|, '"')
    ensures ScanChars(s, i) == Some(i + |Escape(k)| + 1) && Decode(s, i) == k
  {
    forall c, j: nat
      ensures Takes(CharsReader(s), EscapeChar, s, c, j)
    {
      ReaderTakes(s, c, j);
    }
    SpelledReads(CharsReader(s), EscapeChar, s, i, k);
    assert CharsReader(s)(i) == ReadChars(s, i);
  }

  lemma OneChar(s: string, i: nat)
    requires i <= |s| && CharLength(s, i) > 0 && !At(s, i, '"') && !IsPair(s, i) && ScanChars(s, i + CharLength(s, i)).Some?
    ensures ScanChars(s, i) == ScanChars(s, i + CharLength(s, i))
    ensures Decode(s, i) == [DecodeChar(s, i)] + Decode(s, i + CharLength(s, i))
  {
  }

  // ---- members ----

  /** A member as the decoder hands it out: its key decoded, its value as it is written. */
  datatype Member = Member(key: string, value: string)

  function ParseMembers(s: string, i: nat, first: bool): (r: Option<(seq<Member>, nat)>)
    requires i <= |s|
    ensures r.Some? ==> i < r.value.1 <= |s|
    decreases |s| - i
  {
    var t := Skip(s, i);
    if first && At(s, t, '}') then Some(([], t + 1))
    else
      match ParseMember(s, t)
      case None => None
      case Some((m, v)) =>
        var w := Skip(s, v);
        if At(s, w, '}') then Some(([m], w + 1))
        else if At(s, w, ',') then
          match ParseMembers(s, w + 1, false)
          case None => None
          case Some((rest, end)) => Some(([m] + rest, end))
        else None
  }

  function ParseMember(s: string, t: nat): (r: Option<(Member, nat)>)
    requires t <= |s|
    ensures r.Some? ==> t < r.value.1 <= |s|
  {
    match ScanKey(s, t)
    case None => None
    case Some(u) =>
      match ScanValue(s, u)
      case None => None
      case Some(v) => Some((Member(Decode(s, t + 1), s[u..v]), v))
  }

  /** The members of the object a text begins with, and where the object ends. */
  function ParseObject(s: string): Option<(seq<Member>, nat)>
  {
    if At(s, 0, '{') then ParseMembers(s, 1, true) else None
  }

  /** A value by itself. */
  predicate IsValue(v: string)
  {
    ScanValue(v, 0) == Some(|v|)
  }

  predicate AllValues(ms: seq<Member>)
  {
    forall m | m in ms :: IsValue(m.value)
  }

  lemma ValuesStandAlone(s: string, u: nat, v: nat)
    requires u <= |s| && ScanValue(s, u) == Some(v)
    ensures IsValue(s[u..v])
  {
    var back: int := 0 - u;
    ValueLocal(s, s[u..v], back, u, v, u);
  }

  lemma {:induction false} ParsedValues(s: string, i: nat, first: bool)
    requires i <= |s| && ParseMembers(s, i, first).Some?
    ensures AllValues(ParseMembers(s, i, first).value.0)
    decreases |s| - i
  {
    var t := Skip(s, i);
    if !(first && At(s, t, '}')) {
      var (m, v) := ParseMember(s, t).value;
      ValuesStandAlone(s, ScanKey(s, t).value, v);
      var w := Skip(s, v);
      if !At(s, w, '}') {
        ParsedValues(s, w + 1, false);
      }
    }
  }

  // ---- writing members back ----

  function Written(m: Member): string
  {
    EncodeKey(m.key) + ":" + m.value
  }

  function Rows(ms: seq<Member>): string
  {
    if ms == [] then "" else if |ms| == 1 then Written(ms[0]) else Written(ms[0]) + "," + Rows(ms[1..])
  }

  function Rendered(ms: seq<Member>): string
  {
    "{" + Rows(ms) + "}"
  }

  lemma {:induction false} RowsAppend(ms: seq<Member>, m: Member)
    ensures Rows(ms + [m]) == if ms == [] then Written(m) else Rows(ms) + "," + Written(m)
  {
    if ms == [] {
      assert ms + [m] == [m];
    } else {
      assert (ms + [m])[1..] == ms[1..] + [m];
      RowsAppend(ms[1..], m);
    }
  }

  lemma StartOfValue(v: string)
    requires IsValue(v)
    ensures v != "" && !Space(v[0])
  {
  }

  /** What stands where, in a written member at position i. */
  lemma WrittenParts(s: string, i: nat, m: Member)
    requires Holds(s, i, Written(m))
    ensures
      var n := |Escape(m.key)|;
      && At(s, i, '"') && Holds(s, i + 1, Escape(m.key)) && At(s, i + 1 + n, '"') && At(s, i + 2 + n, ':')
      && Holds(s, i + 3 + n, m.value) && |Written(m)| == n + 3 + |m.value|
  {
    var e := Escape(m.key);
    assert Written(m) == "\"" + (e + ("\"" + (":" + m.value)));
    HoldsParts(s, i, "\"", e + ("\"" + (":" + m.value)));
    HoldsParts(s, i + 1, e, "\"" + (":" + m.value));
    HoldsParts(s, i + 1 + |e|, "\"", ":" + m.value);
    HoldsParts(s, i + 2 + |e|, ":", m.value);
    HoldsOne(s, i, '"');
    HoldsOne(s, i + 1 + |e|, '"');
    HoldsOne(s, i + 2 + |e|, ':');
  }

  lemma HeldIsSame(s: string, u: nat, v: string)
    requires Holds(s, u, v)
    ensures Same(v, s, u, 0, |v|)
  {
    forall p | 0 <= p < |v|
      ensures v[p] == s[p + u]
    {
      assert s[u + p] == v[p];
    }
  }

  lemma ValueMoved(s: string, u: nat, v: string)
    requires IsValue(v) && Holds(s, u, v) && (At(s, u + |v|, ',') || At(s, u + |v|, '}'))
    ensures ScanValue(s, u) == Some(u + |v|)
  {
    HeldIsSame(s, u, v);
    ValueLocal(v, s, u, 0, |v|, 0);
  }

  lemma KeyBuild(s: string, i: nat, k: nat)
    requires At(s, i, '"') && ScanChars(s, i + 1) == Some(k) && At(s, k, ':') && k + 1 < |s| && !Space(s[k + 1])
    ensures ScanKey(s, i) == Some(k + 1)
  {
    assert Skip(s, k) == k && Skip(s, k + 1) == k + 1;
  }

  lemma KeyReadsBack(s: string, i: nat, m: Member)
    requires Holds(s, i, Written(m)) && IsValue(m.value)
    ensures ScanKey(s, i) == Some(i + 3 + |Escape(m.key)|) && Decode(s, i + 1) == m.key
  {
    WrittenParts(s, i, m);
    EscapedReadsBack(s, i + 1, m.key);
    var u := i + 3 + |Escape(m.key)|;
    NotSpace(s, u, m.value);
    KeyBuild(s, i, u - 1);
  }

  lemma NotSpace(s: string, u: nat, v: string)
    requires IsValue(v) && Holds(s, u, v)
    ensures u < |s| && !Space(s[u])
  {
    StartOfValue(v);
    assert s[u + 0] == v[0];
  }

  /** A written member is read back as it was, when a comma or the closing brace follows it. */
  lemma WrittenReadsBack(s: string, i: nat, m: Member)
    requires IsValue(m.value) && Holds(s, i, Written(m))
    requires At(s, i + |Written(m)|, ',') || At(s, i + |Written(m)|, '}')
    ensures ParseMember(s, i) == Some((m, i + |Written(m)|))
  {
    KeyReadsBack(s, i, m);
    ValueReadsBack(s, i, m);
    var u := i + 3 + |Escape(m.key)|;
    MemberBuild(s, i, u, u + |m.value|);
  }

  lemma ValueReadsBack(s: string, i: nat, m: Member)
    requires IsValue(m.value) && Holds(s, i, Written(m))
    requires At(s, i + |Written(m)|, ',') || At(s, i + |Written(m)|, '}')
    ensures
      var u := i + 3 + |Escape(m.key)|;
      u + |m.value| == i + |Written(m)| && ScanValue(s, u) == Some(u + |m.value|) && s[u..u + |m.value|] == m.value
  {
    WrittenParts(s, i, m);
    var u := i + 3 + |Escape(m.key)|;
    ValueMoved(s, u, m.value);
    HeldSlice(s, u, m.value);
  }

  lemma MemberBuild(s: string, t: nat, u: nat, v: nat)
    requires t <= |s| && ScanKey(s, t) == Some(u) && ScanValue(s, u) == Some(v)
    ensures ParseMember(s, t) == Some((Member(Decode(s, t + 1), s[u..v]), v))
  {
  }

  /** One member and what comes after it make up the members from there on. */
  lemma {:induction false} MembersBuild(s: string, i: nat, first: bool, m: Member, v: nat)
    requires i < |s| && !Space(s[i]) && s[i] != '}' && ParseMember(s, i) == Some((m, v))
    requires v < |s| && !Space(s[v])
    ensures s[v] == '}' ==> ParseMembers(s, i, first) == Some(([m], v + 1))
    ensures s[v] == ',' && ParseMembers(s, v + 1, false).Some? ==>
      ParseMembers(s, i, first) == Some(([m] + ParseMembers(s, v + 1, false).value.0, ParseMembers(s, v + 1, false).value.1))
  {
    assert Skip(s, i) == i && Skip(s, v) == v;
  }

  lemma LastMember(s: string, i: nat, first: bool, m: Member)
    requires IsValue(m.value) && Holds(s, i, Written(m)) && At(s, i + |Written(m)|, '}')
    ensures ParseMembers(s, i, first) == Some(([m], i + |Written(m)| + 1))
  {
    WrittenReadsBack(s, i, m);
    WrittenParts(s, i, m);
    MembersBuild(s, i, first, m, i + |Written(m)|);
  }

  lemma FirstMember(s: string, i: nat, first: bool, m: Member, rest: seq<Member>, end: nat)
    requires IsValue(m.value) && Holds(s, i, Written(m)) && At(s, i + |Written(m)|, ',')
    requires ParseMembers(s, i + |Written(m)| + 1, false) == Some((rest, end))
    ensures ParseMembers(s, i, first) == Some(([m] + rest, end))
  {
    WrittenReadsBack(s, i, m);
    WrittenParts(s, i, m);
    MembersBuild(s, i, first, m, i + |Written(m)|);
  }

  /** Where the rows end. */
  predicate RowsAt(s: string, i: nat, ms: seq<Member>, end: nat)
  {
    Holds(s, i, Rows(ms)) && At(s, i + |Rows(ms)|, '}') && end == i + |Rows(ms)| + 1
  }

  lemma RowsTail(s: string, i: nat, ms: seq<Member>, end: nat)
    requires |ms| > 1 && RowsAt(s, i, ms, end)
    ensures Holds(s, i, Written(ms[0])) && At(s, i + |Written(ms[0])|, ',') && RowsAt(s, i + |Written(ms[0])| + 1, ms[1..], end)
  {
    RowsCons(ms);
    CommaParts(s, i, Written(ms[0]), Rows(ms[1..]));
  }

  /** The reader takes m off the front of a closing brace, or of a comma and what it reads after that. */
  predicate TakesMember(read: (nat, bool) -> Option<(seq<Member>, nat)>, s: string, m: Member, i: nat, first: bool)
  {
    var v := i + |Written(m)|;
    Holds(s, i, Written(m)) ==>
      && (At(s, v, '}') ==> read(i, first) == Some(([m], v + 1)))
      && (At(s, v, ',') && read(v + 1, false).Some? ==>
            read(i, first) == Some(([m] + read(v + 1, false).value.0, read(v + 1, false).value.1)))
  }

  lemma {:induction false} RowsRead(read: (nat, bool) -> Option<(seq<Member>, nat)>, s: string, i: nat, ms: seq<Member>, first: bool, end: nat)
    requires forall m, j: nat, b | m in ms :: TakesMember(read, s, m, j, b)
    requires ms != [] && RowsAt(s, i, ms, end)
    ensures read(i, first) == Some((ms, end))
    decreases |ms|
  {
    assert ms[0] in ms && TakesMember(read, s, ms[0], i, first);
    if |ms| == 1 {
      assert ms == [ms[0]];
    } else {
      RowsTail(s, i, ms, end);
      RowsRead(read, s, i + |Written(ms[0])| + 1, ms[1..], false, end);
      assert ms == [ms[0]] + ms[1..];
    }
  }

  function Reader(s: string): (nat, bool) -> Option<(seq<Member>, nat)>
  {
    (i: nat, first: bool) => if i <= |s| then ParseMembers(s, i, first) else None
  }

  lemma ReaderEnds(s: string, m: Member, i: nat, first: bool)
    requires IsValue(m.value) && Holds(s, i, Written(m)) && At(s, i + |Written(m)|, '}')
    ensures Reader(s)(i, first) == Some(([m], i + |Written(m)| + 1))
  {
    LastMember(s, i, first, m);
  }

  lemma ReaderGoesOn(s: string, m: Member, i: nat, first: bool, rest: seq<Member>, end: nat)
    requires IsValue(m.value) && Holds(s, i, Written(m)) && At(s, i + |Written(m)|, ',')
    requires Reader(s)(i + |Written(m)| + 1, false) == Some((rest, end))
    ensures Reader(s)(i, first) == Some(([m] + rest, end))
  {
    FirstMember(s, i, first, m, rest, end);
  }

  lemma ReaderTakesMember(s: string, m: Member, i: nat, first: bool)
    requires IsValue(m.value)
    ensures TakesMember(Reader(s), s, m, i, first)
  {
    var v := i + |Written(m)|;
    var read := Reader(s);
    if Holds(s, i, Written(m)) && At(s, v, '}') {
      ReaderEnds(s, m, i, first);
    }
    if Holds(s, i, Written(m)) && At(s, v, ',') && read(v + 1, false).Some? {
      ReaderGoesOn(s, m, i, first, read(v + 1, false).value.0, read(v + 1, false).value.1);
    }
  }

  lemma RowsReadBack(s: string, i: nat, ms: seq<Member>, first: bool, end: nat)
    requires AllValues(ms) && ms != [] && RowsAt(s, i, ms, end)
    ensures ParseMembers(s, i, first) == Some((ms, end))
  {
    forall m, j: nat, b | m in ms
      ensures TakesMember(Reader(s), s, m, j, b)
    {
      ReaderTakesMember(s, m, j, b);
    }
    RowsRead(Reader(s), s, i, ms, first, end);
    assert Reader(s)(i, first) == ParseMembers(s, i, first);
  }

  lemma RowsCons(ms: seq<Member>)
    requires |ms| > 1
    ensures Rows(ms) == Written(ms[0]) + ("," + Rows(ms[1..]))
  {
    var text, rest := Written(ms[0]), Rows(ms[1..]);
    assert text + "," + rest == text + ("," + rest);
  }

  lemma CommaParts(s: string, i: nat, text: string, rest: string)
    requires Holds(s, i, text + ("," + rest))
    ensures Holds(s, i, text) && At(s, i + |text|, ',') && Holds(s, i + |text| + 1, rest)
  {
    HoldsParts(s, i, text, "," + rest);
    HoldsParts(s, i + |text|, ",", rest);
    HoldsOne(s, i + |text|, ',');
  }

  lemma RenderedParts(ms: seq<Member>)
    ensures
      var s := Rendered(ms);
      At(s, 0, '{') && Holds(s, 1, Rows(ms)) && At(s, 1 + |Rows(ms)|, '}') && |s| == |Rows(ms)| + 2
  {
  }

  /** Writing members out and reading them back loses nothing and adds nothing. */
  lemma RenderedReadsBack(ms: seq<Member>)
    requires AllValues(ms)
    ensures ParseObject(Rendered(ms)) == Some((ms, |Rendered(ms)|))
  {
    RenderedParts(ms);
    if ms == [] {
      assert Rendered(ms) == "{}";
      assert Skip("{}", 1) == 1;
    } else {
      RowsReadBack(Rendered(ms), 1, ms, true, |Rendered(ms)|);
    }
  }

  // ---- splitReason ----

  datatype Split = Passed(rest: string, reason: string) | NotAString | TooLong

  function Kept(ms: seq<Member>): seq<Member>
  {
    if ms == [] then []
    else if ms[|ms| - 1].key == REASON then Kept(ms[..|ms| - 1])
    else Kept(ms[..|ms| - 1]) + [ms[|ms| - 1]]
  }

  function LastReason(ms: seq<Member>): Option<string>
  {
    if ms == [] then None
    else if ms[|ms| - 1].key == REASON then Some(ms[|ms| - 1].value)
    else LastReason(ms[..|ms| - 1])
  }

  /** What becomes of the reason: null is none, anything but a string is refused. */
  function Judged(rest: string, value: string): Split
  {
    if value == "null" then Passed(rest, "")
    else if !At(value, 0, '"') || ScanChars(value, 1).None? then NotAString
    else
      var reason := Text.TrimSpace(Decode(value, 1));
      if |reason| > MAX_REASON then TooLong else Passed(rest, reason)
  }

  function SplitOf(raw: string): Split
  {
    match ParseObject(Text.TrimSpace(raw))
    case None => Passed(raw, "")
    case Some((ms, _)) =>
      match LastReason(ms)
      case None => Passed(raw, "")
      case Some(value) => Judged(Rendered(Kept(ms)), value)
  }

  /** The members still to come after a member, or at the start of the object. */
  function Rest(t: string, i: nat, first: bool): Option<(seq<Member>, nat)>
    requires i <= |t|
  {
    if first then ParseMembers(t, i, true)
    else if At(t, Skip(t, i), '}') then Some(([], Skip(t, i) + 1))
    else if At(t, Skip(t, i), ',') then ParseMembers(t, Skip(t, i) + 1, false)
    else None
  }

  function After(seen: seq<Member>, r: Option<(seq<Member>, nat)>): Option<(seq<Member>, nat)>
  {
    match r
    case None => None
    case Some((ms, end)) => Some((seen + ms, end))
  }

  lemma AfterNothing(r: Option<(seq<Member>, nat)>)
    ensures After([], r) == r
  {
    if r.Some? { assert [] + r.value.0 == r.value.0; }
  }

  lemma AfterBoth(seen: seq<Member>, m: Member, r: Option<(seq<Member>, nat)>)
    ensures After(seen, After([m], r)) == After(seen + [m], r)
  {
    if r.Some? { assert seen + ([m] + r.value.0) == seen + [m] + r.value.0; }
  }

  lemma {:induction false} MembersUnfold(t: string, c: nat, first: bool)
    requires c <= |t| && Skip(t, c) == c && !(first && At(t, c, '}'))
    ensures ParseMembers(t, c, first) ==
            if ParseMember(t, c).None? then None else After([ParseMember(t, c).value.0], Rest(t, ParseMember(t, c).value.1, false))
  {
    if ParseMember(t, c).Some? {
      RestUnfold(t, c, first, ParseMember(t, c).value.0, ParseMember(t, c).value.1);
    }
  }

  lemma {:induction false} RestUnfold(t: string, c: nat, first: bool, m: Member, v: nat)
    requires c <= |t| && Skip(t, c) == c && !(first && At(t, c, '}')) && ParseMember(t, c) == Some((m, v))
    ensures ParseMembers(t, c, first) == After([m], Rest(t, v, false))
  {
    var w := Skip(t, v);
    if At(t, w, '}') {
      assert [m] + [] == [m];
    } else if At(t, w, ',') {
      var more := ParseMembers(t, w + 1, false);
      assert ParseMembers(t, c, first) == if more.None? then None else Some(([m] + more.value.0, more.value.1));
    } else {
      assert ParseMembers(t, c, first).None?;
    }
  }

  lemma {:induction false} OneMember(t: string, c: nat, seen: seq<Member>, first: bool)
    requires c <= |t| && Skip(t, c) == c && !(first && At(t, c, '}'))
    ensures After(seen, ParseMembers(t, c, first)) ==
            if ParseMember(t, c).None? then None else After(seen + [ParseMember(t, c).value.0], Rest(t, ParseMember(t, c).value.1, false))
  {
    MembersUnfold(t, c, first);
    if ParseMember(t, c).Some? {
      AfterBoth(seen, ParseMember(t, c).value.0, Rest(t, ParseMember(t, c).value.1, false));
    }
  }

  lemma {:induction false} SkipTwice(t: string, i: nat)
    requires i <= |t|
    ensures Skip(t, Skip(t, i)) == Skip(t, i)
  {
  }

  lemma {:induction false} SkipAgain(t: string, i: nat, first: bool)
    requires i <= |t|
    ensures ParseMembers(t, Skip(t, i), first) == ParseMembers(t, i, first)
  {
    SkipTwice(t, i);
  }

  lemma KeptAppend(ms: seq<Member>, m: Member)
    ensures Kept(ms + [m]) == if m.key == REASON then Kept(ms) else Kept(ms) + [m]
    ensures LastReason(ms + [m]) == if m.key == REASON then Some(m.value) else LastReason(ms)
  {
    assert (ms + [m])[..|ms + [m]| - 1] == ms;
  }

  /** One more member into the buffer, after a comma unless it is the first. */
  method WriteMember(buffer: string, m: Member, ghost ms: seq<Member>) returns (kept: string)
    requires buffer == "{" + Rows(ms)
    ensures kept == "{" + Rows(ms + [m])
  {
    RowsAppend(ms, m);
    NonEmptyRows(ms);
    kept := buffer;
    if |kept| > 1 {
      kept := kept + ",";
    }
    var row := EncodeKey(m.key);
    row := row + ":";
    row := row + m.value;
    Around("{", Rows(ms), row);
    kept := kept + row;
  }

  lemma Around(open: string, rows: string, row: string)
    ensures open + rows + "," + row == open + (rows + "," + row)
    ensures rows == "" ==> open + rows + row == open + row
  {
  }

  /** dec.More, and if there is more, the comma before it and the key and the value after that. */
  method NextMember(t: string, i: nat, first: bool, ghost seen: seq<Member>) returns (more: bool, member: Option<(Member, nat)>)
    requires i <= |t|
    ensures !more ==> Rest(t, i, first) == if At(t, Skip(t, i), '}') then Some(([], Skip(t, i) + 1)) else None
    ensures more && member.Some? ==> i < member.value.1 <= |t|
    ensures more ==>
      After(seen, Rest(t, i, first)) == if member.None? then None else After(seen + [member.value.0], Rest(t, member.value.1, false))
  {
    var c := Skip(t, i);
    if c == |t| || t[c] == '}' || t[c] == ']' {
      return false, None;
    }
    if !first {
      if t[c] != ',' {
        return true, None;
      }
      SkipAgain(t, c + 1, false);
      SkipTwice(t, c + 1);
      c := Skip(t, c + 1);
    } else {
      SkipAgain(t, i, true);
      SkipTwice(t, i);
    }
    OneMember(t, c, seen, first);
    return true, ParseMember(t, c);
  }

  /**
   * The decoder loop of splitReason: `kept` gathers what goes on, `value` the last reason; None when the text
   * does not parse to the end of its object.
   */
  method TakeApart(t: string) returns (r: Option<(string, Option<string>)>)
    requires At(t, 0, '{')
    ensures r == match ParseObject(t)
                 case None => None
                 case Some((ms, _)) => Some((Rendered(Kept(ms)), LastReason(ms)))
  {
    var i, first := 1, true;
    var kept := "{";
    var value: Option<string> := None;
    ghost var seen: seq<Member> := [];
    AfterNothing(Rest(t, 1, true));
    while true
      invariant 1 <= i <= |t|
      invariant ParseObject(t) == After(seen, Rest(t, i, first))
      invariant kept == "{" + Rows(Kept(seen)) && value == LastReason(seen)
      decreases |t| - i
    {
      var more, member := NextMember(t, i, first, seen);
      if !more {
        break;
      }
      if member.None? {
        return None;
      }
      var m := member.value.0;
      KeptAppend(seen, m);
      if m.key == REASON {
        value := Some(m.value);
      } else {
        kept := WriteMember(kept, m, Kept(seen));
      }
      seen, i, first := seen + [m], member.value.1, false;
    }
    if !At(t, Skip(t, i), '}') {
      return None;
    }
    assert seen + [] == seen;
    r := Some((kept + "}", value));
  }

  method SplitReason(raw: string) returns (r: Split)
    ensures r == SplitOf(raw)
  {
    var t := Text.TrimSpace(raw);
    if t == "" || t[0] != '{' {
      return Passed(raw, "");
    }
    var parts := TakeApart(t);
    if parts.None? || parts.value.1.None? {
      return Passed(raw, "");
    }
    r := Judged(parts.value.0, parts.value.1.value);
  }

  lemma NonEmptyRows(ms: seq<Member>)
    ensures Rows(ms) == "" <==> ms == []
  {
    if ms != [] {
      assert |Written(ms[0])| > 0;
    }
  }

  // ---- what splitting keeps ----

  lemma {:induction false} KeptMembers(ms: seq<Member>)
    ensures forall m | m in Kept(ms) :: m in ms && m.key != REASON
  {
    if ms != [] {
      var front, last := ms[..|ms| - 1], ms[|ms| - 1];
      assert ms == front + [last];
      KeptMembers(front);
    }
  }

  lemma {:induction false} NothingToTake(ms: seq<Member>)
    requires forall m | m in ms :: m.key != REASON
    ensures LastReason(ms) == None && Kept(ms) == ms
  {
    if ms != [] {
      var front, last := ms[..|ms| - 1], ms[|ms| - 1];
      assert ms == front + [last] && last in ms;
      NothingToTake(front);
    }
  }

  lemma RenderedTrims(ms: seq<Member>)
    ensures Text.TrimSpace(Rendered(ms)) == Rendered(ms)
  {
    RenderedParts(ms);
    assert Text.TrimLeft(Rendered(ms)) == Rendered(ms);
  }

  /**
   * For every argument text: one that is no well-formed object, or has no reason, goes on as it came. In any
   * other the last reason counts, and what goes on parses to the very members that are not `reason`, in their
   * order, with every value as it was written; taking the reason out again changes nothing.
   */
  lemma SplittingKeepsTheRest(raw: string)
    ensures ParseObject(Text.TrimSpace(raw)).None? ==> SplitOf(raw) == Passed(raw, "")
    ensures ParseObject(Text.TrimSpace(raw)).Some? ==>
      var ms := ParseObject(Text.TrimSpace(raw)).value.0;
      match LastReason(ms)
      case None => SplitOf(raw) == Passed(raw, "")
      case Some(value) =>
        && SplitOf(raw) == Judged(Rendered(Kept(ms)), value)
        && ParseObject(Rendered(Kept(ms))) == Some((Kept(ms), |Rendered(Kept(ms))|))
        && SplitOf(Rendered(Kept(ms))) == Passed(Rendered(Kept(ms)), "")
  {
    var t := Text.TrimSpace(raw);
    if ParseObject(t).Some? {
      var ms := ParseObject(t).value.0;
      ParsedValues(t, 1, true);
      KeptMembers(ms);
      NothingToTake(Kept(ms));
      RenderedReadsBack(Kept(ms));
      RenderedTrims(Kept(ms));
    }
  }

  /** A reason that goes on is trimmed and no longer than allowed, and no member of that name is left beside it. */
  lemma NoReasonIsLeft(raw: string)
    ensures SplitOf(raw).Passed? ==>
      && |SplitOf(raw).reason| <= MAX_REASON
      && (ParseObject(Text.TrimSpace(SplitOf(raw).rest)).Some? ==>
            forall m | m in ParseObject(Text.TrimSpace(SplitOf(raw).rest)).value.0 :: m.key != REASON)
  {
    SplittingKeepsTheRest(raw);
    if ParseObject(Text.TrimSpace(raw)).Some? {
      var ms := ParseObject(Text.TrimSpace(raw)).value.0;
      KeptMembers(ms);
      if LastReason(ms).None? { WithoutReason(ms); }
      RenderedTrims(Kept(ms));
    }
  }

  lemma {:induction false} WithoutReason(ms: seq<Member>)
    requires LastReason(ms).None?
    ensures forall m | m in ms :: m.key != REASON
  {
    if ms != [] {
      WithoutReason(ms[..|ms| - 1]);
      assert ms == ms[..|ms| - 1] + [ms[|ms| - 1]];
    }
  }
}
