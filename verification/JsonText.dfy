/**
 * JSON as text (RFC 8259): where a value ends, and how a key is written. Scanning starts at a position of
 * a text and answers the position after the value, or None when there is no value there.
 */
module JsonText {
  import opened Results

  predicate Space(c: char)
  {
    c == ' ' || c == '\t' || c == '\n' || c == '\r'
  }

  predicate IsDigit(c: char)
  {
    '0' <= c <= '9'
  }

  predicate IsHex(c: char)
  {
    IsDigit(c) || 'a' <= c <= 'f' || 'A' <= c <= 'F'
  }

  predicate IsSimpleEscape(c: char)
  {
    c == '"' || c == '\\' || c == '/' || c == 'b' || c == 'f' || c == 'n' || c == 'r' || c == 't'
  }

  /** The character at position i is c. */
  predicate At(s: string, i: nat, c: char)
  {
    i < |s| && s[i] == c
  }

  function Skip(s: string, i: nat): (j: nat)
    requires i <= |s|
    ensures i <= j <= |s| && (j < |s| ==> !Space(s[j]))
    decreases |s| - i
  {
    if i < |s| && Space(s[i]) then Skip(s, i + 1) else i
  }

  predicate IsUnicodeEscape(s: string, i: nat)
  {
    i + 6 <= |s| && s[i] == '\\' && s[i + 1] == 'u' && IsHex(s[i + 2]) && IsHex(s[i + 3]) && IsHex(s[i + 4]) && IsHex(s[i + 5])
  }

  /** How many characters the next character of a string is written with; 0 when there is none to read. */
  function CharLength(s: string, i: nat): (n: nat)
    ensures i + n <= |s| || n == 0
  {
    if i >= |s| || s[i] < ' ' || s[i] == '"' then 0
    else if s[i] != '\\' then 1
    else if i + 1 < |s| && IsSimpleEscape(s[i + 1]) then 2
    else if IsUnicodeEscape(s, i) then 6
    else 0
  }

  /** After a string whose opening quote is behind i. */
  function ScanChars(s: string, i: nat): (r: Option<nat>)
    requires i <= |s|
    ensures r.Some? ==> i < r.value <= |s|
    decreases |s| - i
  {
    if At(s, i, '"') then Some(i + 1)
    else if CharLength(s, i) == 0 then None
    else ScanChars(s, i + CharLength(s, i))
  }

  function SkipDigits(s: string, i: nat): (j: nat)
    requires i <= |s|
    ensures i <= j <= |s|
    ensures i < |s| && IsDigit(s[i]) ==> i < j
    decreases |s| - i
  {
    if i < |s| && IsDigit(s[i]) then SkipDigits(s, i + 1) else i
  }

  /** At least one digit. */
  function Digits(s: string, i: nat): (r: Option<nat>)
    requires i <= |s|
    ensures r.Some? ==> i < r.value <= |s|
  {
    if i < |s| && IsDigit(s[i]) then Some(SkipDigits(s, i)) else None
  }

  function Integer(s: string, i: nat): (r: Option<nat>)
    requires i <= |s|
    ensures r.Some? ==> i < r.value <= |s|
  {
    if At(s, i, '0') then Some(i + 1) else Digits(s, i)
  }

  function Fraction(s: string, i: nat): (r: Option<nat>)
    requires i <= |s|
    ensures r.Some? ==> i <= r.value <= |s|
  {
    if At(s, i, '.') then Digits(s, i + 1) else Some(i)
  }

  function Exponent(s: string, i: nat): (r: Option<nat>)
    requires i <= |s|
    ensures r.Some? ==> i <= r.value <= |s|
  {
    if At(s, i, 'e') || At(s, i, 'E') then
      Digits(s, if At(s, i + 1, '+') || At(s, i + 1, '-') then i + 2 else i + 1)
    else Some(i)
  }

  function ScanNumber(s: string, i: nat): (r: Option<nat>)
    requires i <= |s|
    ensures r.Some? ==> i < r.value <= |s|
  {
    match Integer(s, if At(s, i, '-') then i + 1 else i)
    case None => None
    case Some(a) =>
      match Fraction(s, a)
      case None => None
      case Some(b) => Exponent(s, b)
  }

  function ScanLiteral(s: string, i: nat, word: string): (r: Option<nat>)
    requires i <= |s| && word != ""
    ensures r.Some? ==> i < r.value <= |s|
  {
    if i + |word| <= |s| && forall k | 0 <= k < |word| :: s[i + k] == word[k] then Some(i + |word|) else None
  }

  function ScanValue(s: string, i: nat): (r: Option<nat>)
    requires i <= |s|
    ensures r.Some? ==> i < r.value <= |s|
    decreases |s| - i, 0
  {
    if At(s, i, '"') then ScanChars(s, i + 1)
    else if At(s, i, '{') then ScanList(s, i + 1, true, true)
    else if At(s, i, '[') then ScanList(s, i + 1, false, true)
    else if At(s, i, 't') then ScanLiteral(s, i, "true")
    else if At(s, i, 'f') then ScanLiteral(s, i, "false")
    else if At(s, i, 'n') then ScanLiteral(s, i, "null")
    else ScanNumber(s, i)
  }

  function Closing(isObject: bool): char
  {
    if isObject then '}' else ']'
  }

  /** After a key and its colon, where its value begins. */
  function ScanKey(s: string, i: nat): (r: Option<nat>)
    requires i <= |s|
    ensures r.Some? ==> i < r.value <= |s|
  {
    if !At(s, i, '"') then None
    else
      match ScanChars(s, i + 1)
      case None => None
      case Some(k) => if At(s, Skip(s, k), ':') then Some(Skip(s, Skip(s, k) + 1)) else None
  }

  /** After an array or an object whose opening is behind i; only the first element may be missing. */
  function ScanList(s: string, i: nat, isObject: bool, first: bool): (r: Option<nat>)
    requires i <= |s|
    ensures r.Some? ==> i < r.value <= |s|
    decreases |s| - i, 1
  {
    var t := Skip(s, i);
    if first && At(s, t, Closing(isObject)) then Some(t + 1)
    else
      match (if isObject then ScanKey(s, t) else Some(t))
      case None => None
      case Some(u) =>
        match ScanValue(s, u)
        case None => None
        case Some(v) =>
          var w := Skip(s, v);
          if At(s, w, Closing(isObject)) then Some(w + 1)
          else if At(s, w, ',') then ScanList(s, w + 1, isObject, false)
          else None
  }

  // ---- a value does not depend on what is around it ----

  /** The characters of s from lo to hi are those of t, d places further on. */
  predicate Same(s: string, t: string, d: int, lo: nat, hi: nat)
  {
    lo <= hi <= |s| && 0 <= lo + d && hi + d <= |t| && forall p | lo <= p < hi :: s[p] == t[p + d]
  }

  /** What may stand at position j without becoming part of a number that ends there. */
  predicate Delimited(t: string, j: nat)
  {
    j < |t| ==> !(IsDigit(t[j]) || t[j] == '.' || t[j] == 'e' || t[j] == 'E')
  }

  lemma {:induction false} SkipLocal(s: string, t: string, d: int, lo: nat, hi: nat, i: nat)
    requires Same(s, t, d, lo, hi) && lo <= i <= |s| && Skip(s, i) < hi
    ensures Skip(t, i + d) == Skip(s, i) + d
    decreases |s| - i
  {
    if Space(s[i]) {
      SkipLocal(s, t, d, lo, hi, i + 1);
    }
  }

  lemma CharLengthLocal(s: string, t: string, d: int, lo: nat, hi: nat, i: nat)
    requires Same(s, t, d, lo, hi) && lo <= i && 0 < CharLength(s, i) && i + CharLength(s, i) <= hi
    ensures CharLength(t, i + d) == CharLength(s, i)
  {
    if CharLength(s, i) == 2 {
      assert s[i + 1] == t[i + 1 + d];
    } else if CharLength(s, i) == 6 {
      assert s[i + 1] == t[i + 1 + d] && s[i + 2] == t[i + 2 + d] && s[i + 3] == t[i + 3 + d] && s[i + 4] == t[i + 4 + d] && s[i + 5] == t[i + 5 + d];
    }
  }

  lemma {:induction false} CharsLocal(s: string, t: string, d: int, lo: nat, hi: nat, i: nat)
    requires Same(s, t, d, lo, hi) && lo <= i <= |s| && ScanChars(s, i).Some? && ScanChars(s, i).value <= hi
    ensures ScanChars(t, i + d) == Some(ScanChars(s, i).value + d)
    decreases |s| - i
  {
    if !At(s, i, '"') {
      CharLengthLocal(s, t, d, lo, hi, i);
      CharsLocal(s, t, d, lo, hi, i + CharLength(s, i));
    }
  }

  lemma {:induction false} SkipDigitsLocal(s: string, t: string, d: int, lo: nat, hi: nat, i: nat)
    requires Same(s, t, d, lo, hi) && lo <= i <= |s| && SkipDigits(s, i) <= hi && Delimited(t, hi + d)
    ensures SkipDigits(t, i + d) == SkipDigits(s, i) + d
    decreases |s| - i
  {
    if i < hi && IsDigit(s[i]) {
      SkipDigitsLocal(s, t, d, lo, hi, i + 1);
    }
  }

  lemma DigitsLocal(s: string, t: string, d: int, lo: nat, hi: nat, i: nat)
    requires Same(s, t, d, lo, hi) && lo <= i <= |s| && Digits(s, i).Some? && Digits(s, i).value <= hi && Delimited(t, hi + d)
    ensures Digits(t, i + d) == Some(Digits(s, i).value + d)
  {
    SkipDigitsLocal(s, t, d, lo, hi, i);
  }

  lemma IntegerLocal(s: string, t: string, d: int, lo: nat, hi: nat, i: nat)
    requires Same(s, t, d, lo, hi) && lo <= i <= |s| && Integer(s, i).Some? && Integer(s, i).value <= hi && Delimited(t, hi + d)
    ensures Integer(t, i + d) == Some(Integer(s, i).value + d)
  {
    if !At(s, i, '0') { DigitsLocal(s, t, d, lo, hi, i); }
  }

  lemma FractionLocal(s: string, t: string, d: int, lo: nat, hi: nat, i: nat)
    requires Same(s, t, d, lo, hi) && lo <= i <= |s| && Fraction(s, i).Some? && Fraction(s, i).value <= hi && Delimited(t, hi + d)
    ensures Fraction(t, i + d) == Some(Fraction(s, i).value + d)
  {
    if At(s, i, '.') { DigitsLocal(s, t, d, lo, hi, i + 1); }
  }

  lemma ExponentLocal(s: string, t: string, d: int, lo: nat, hi: nat, i: nat)
    requires Same(s, t, d, lo, hi) && lo <= i <= |s| && Exponent(s, i).Some? && Exponent(s, i).value <= hi && Delimited(t, hi + d)
    ensures Exponent(t, i + d) == Some(Exponent(s, i).value + d)
  {
    if At(s, i, 'e') || At(s, i, 'E') {
      assert s[i + 1] == t[i + 1 + d];
      DigitsLocal(s, t, d, lo, hi, if At(s, i + 1, '+') || At(s, i + 1, '-') then i + 2 else i + 1);
    }
  }

  lemma NumberLocal(s: string, t: string, d: int, lo: nat, hi: nat, i: nat)
    requires Same(s, t, d, lo, hi) && lo <= i <= |s| && ScanNumber(s, i).Some? && ScanNumber(s, i).value <= hi && Delimited(t, hi + d)
    ensures ScanNumber(t, i + d) == Some(ScanNumber(s, i).value + d)
  {
    var sign := if At(s, i, '-') then i + 1 else i;
    IntegerLocal(s, t, d, lo, hi, sign);
    var a := Integer(s, sign).value;
    FractionLocal(s, t, d, lo, hi, a);
    ExponentLocal(s, t, d, lo, hi, Fraction(s, a).value);
  }

  lemma LiteralLocal(s: string, t: string, d: int, lo: nat, hi: nat, i: nat, word: string)
    requires word != "" && Same(s, t, d, lo, hi) && lo <= i <= |s| && ScanLiteral(s, i, word).Some? && i + |word| <= hi
    ensures ScanLiteral(t, i + d, word) == Some(i + |word| + d)
  {
    forall k | 0 <= k < |word|
      ensures t[i + d + k] == word[k]
    {
      assert s[i + k] == word[k] && s[i + k] == t[i + k + d];
    }
  }

  lemma KeyLocal(s: string, t: string, d: int, lo: nat, hi: nat, i: nat)
    requires Same(s, t, d, lo, hi) && lo <= i <= |s| && ScanKey(s, i).Some? && ScanKey(s, i).value < hi
    ensures ScanKey(t, i + d) == Some(ScanKey(s, i).value + d)
  {
    CharsLocal(s, t, d, lo, hi, i + 1);
    var k := ScanChars(s, i + 1).value;
    SkipLocal(s, t, d, lo, hi, k);
    SkipLocal(s, t, d, lo, hi, Skip(s, k) + 1);
  }

  /** A value reads the same wherever it stands, if no digit or the like follows it there. */
  lemma {:induction false} ValueLocal(s: string, t: string, d: int, lo: nat, hi: nat, i: nat)
    requires Same(s, t, d, lo, hi) && lo <= i <= |s| && ScanValue(s, i) == Some(hi) && Delimited(t, hi + d)
    ensures ScanValue(t, i + d) == Some(hi + d)
    decreases |s| - i, 0
  {
    assert s[i] == t[i + d];
    if At(s, i, '{') {
      ListLocal(s, t, d, lo, hi, i + 1, true, true);
    } else if At(s, i, '[') {
      ListLocal(s, t, d, lo, hi, i + 1, false, true);
    } else {
      PlainLocal(s, t, d, lo, hi, i);
    }
  }

  /** The values that hold no other. */
  lemma PlainLocal(s: string, t: string, d: int, lo: nat, hi: nat, i: nat)
    requires Same(s, t, d, lo, hi) && lo <= i <= |s| && ScanValue(s, i) == Some(hi) && Delimited(t, hi + d)
    requires !At(s, i, '{') && !At(s, i, '[')
    ensures ScanValue(t, i + d) == Some(hi + d)
  {
    assert s[i] == t[i + d];
    if At(s, i, '"') {
      CharsLocal(s, t, d, lo, hi, i + 1);
    } else if At(s, i, 't') {
      LiteralLocal(s, t, d, lo, hi, i, "true");
    } else if At(s, i, 'f') {
      LiteralLocal(s, t, d, lo, hi, i, "false");
    } else if At(s, i, 'n') {
      LiteralLocal(s, t, d, lo, hi, i, "null");
    } else {
      NumberLocal(s, t, d, lo, hi, i);
    }
  }

  /** Where an element of a list stands: its start, its value, the end of the value, and what follows it. */
  datatype Element = Element(start: nat, value: nat, end: nat, next: nat)

  predicate IsElement(s: string, i: nat, isObject: bool, first: bool, e: Element)
  {
    && i <= e.start <= e.value < e.end <= e.next < |s|
    && e.start == Skip(s, i) && !(first && At(s, e.start, Closing(isObject)))
    && (if isObject then ScanKey(s, e.start) == Some(e.value) else e.value == e.start)
    && ScanValue(s, e.value) == Some(e.end) && e.next == Skip(s, e.end)
    && (s[e.next] == Closing(isObject) || s[e.next] == ',')
  }

  /** A list is empty, or an element and the end or a further list. */
  lemma ListSteps(s: string, i: nat, isObject: bool, first: bool, end: nat) returns (e: Element)
    requires i <= |s| && ScanList(s, i, isObject, first) == Some(end)
    ensures Skip(s, i) < end
    ensures if first && At(s, Skip(s, i), Closing(isObject)) then end == Skip(s, i) + 1
            else
              && IsElement(s, i, isObject, first, e) && e.next < end
              && EndsAt(s, isObject, e, end)
  {
    var t := Skip(s, i);
    e := Element(0, 0, 0, 0);
    if !(first && At(s, t, Closing(isObject))) {
      var u := (if isObject then ScanKey(s, t) else Some(t)).value;
      var v := ScanValue(s, u).value;
      e := Element(t, u, v, Skip(s, v));
    }
  }

  /** The list ends with this element, or goes on after its comma and ends there. */
  predicate EndsAt(s: string, isObject: bool, e: Element, end: nat)
    requires e.next < |s|
  {
    if s[e.next] == Closing(isObject) then end == e.next + 1 else ScanList(s, e.next + 1, isObject, false) == Some(end)
  }

  lemma ListBuilds(s: string, i: nat, isObject: bool, first: bool, e: Element, end: nat)
    requires i <= |s| && IsElement(s, i, isObject, first, e) && EndsAt(s, isObject, e, end)
    ensures ScanList(s, i, isObject, first) == Some(end)
  {
  }

  lemma ListEmpty(s: string, i: nat, isObject: bool)
    requires i <= |s| && At(s, Skip(s, i), Closing(isObject))
    ensures ScanList(s, i, isObject, true) == Some(Skip(s, i) + 1)
  {
  }

  /** The same element, d places further on. */
  function Moved(e: Element, d: int): Element
    requires 0 <= e.start + d && 0 <= e.value + d && 0 <= e.end + d && 0 <= e.next + d
  {
    Element(e.start + d, e.value + d, e.end + d, e.next + d)
  }

  lemma {:induction false} ListLocal(s: string, t: string, d: int, lo: nat, hi: nat, i: nat, isObject: bool, first: bool)
    requires Same(s, t, d, lo, hi) && lo <= i <= |s| && ScanList(s, i, isObject, first) == Some(hi)
    ensures ScanList(t, i + d, isObject, first) == Some(hi + d)
    decreases |s| - i, 3
  {
    var e := ListSteps(s, i, isObject, first, hi);
    if first && At(s, Skip(s, i), Closing(isObject)) {
      SkipLocal(s, t, d, lo, hi, i);
      ListEmpty(t, i + d, isObject);
    } else {
      NonEmptyLocal(s, t, d, lo, hi, i, isObject, first, e);
    }
  }

  lemma {:induction false} NonEmptyLocal(s: string, t: string, d: int, lo: nat, hi: nat, i: nat, isObject: bool, first: bool, e: Element)
    requires Same(s, t, d, lo, hi) && lo <= i <= |s| && IsElement(s, i, isObject, first, e) && e.next < hi && EndsAt(s, isObject, e, hi)
    ensures ScanList(t, i + d, isObject, first) == Some(hi + d)
    decreases |s| - i, 2
  {
    ElementValueLocal(s, t, d, lo, hi, i, isObject, first, e);
    ElementMoved(s, t, d, lo, hi, i, isObject, first, e);
    TailLocal(s, t, d, lo, hi, i, isObject, e);
    ListBuilds(t, i + d, isObject, first, Moved(e, d), hi + d);
  }

  lemma {:induction false} ElementValueLocal(s: string, t: string, d: int, lo: nat, hi: nat, i: nat, isObject: bool, first: bool, e: Element)
    requires Same(s, t, d, lo, hi) && lo <= i <= |s| && IsElement(s, i, isObject, first, e) && e.next < hi
    ensures ScanValue(t, e.value + d) == Some(e.end + d)
    decreases |s| - i, 1
  {
    ElementEndLocal(s, t, d, lo, hi, e);
    NarrowSame(s, t, d, lo, hi, e.end);
    ValueLocal(s, t, d, lo, e.end, e.value);
  }

  lemma {:induction false} TailLocal(s: string, t: string, d: int, lo: nat, hi: nat, i: nat, isObject: bool, e: Element)
    requires Same(s, t, d, lo, hi) && lo <= i <= e.start <= e.value < e.end <= e.next < hi && EndsAt(s, isObject, e, hi)
    ensures EndsAt(t, isObject, Moved(e, d), hi + d)
    decreases |s| - i, 1
  {
    assert t[e.next + d] == s[e.next];
    if s[e.next] != Closing(isObject) {
      ListLocal(s, t, d, lo, hi, e.next + 1, isObject, false);
    }
  }

  lemma ElementMoved(s: string, t: string, d: int, lo: nat, hi: nat, i: nat, isObject: bool, first: bool, e: Element)
    requires Same(s, t, d, lo, hi) && lo <= i <= |s| && IsElement(s, i, isObject, first, e) && e.next < hi
    requires ScanValue(t, e.value + d) == Some(e.end + d)
    ensures IsElement(t, i + d, isObject, first, Moved(e, d)) && t[e.next + d] == s[e.next]
  {
    ElementLocal(s, t, d, lo, hi, i, isObject, first, e);
  }

  lemma ElementEndLocal(s: string, t: string, d: int, lo: nat, hi: nat, e: Element)
    requires Same(s, t, d, lo, hi) && lo <= e.end <= e.next < hi && e.next == Skip(s, e.end) && s[e.next] in {',', '}', ']'}
    ensures Delimited(t, e.end + d)
  {
    assert s[e.end] == t[e.end + d];
  }

  lemma NarrowSame(s: string, t: string, d: int, lo: nat, hi: nat, mid: nat)
    requires Same(s, t, d, lo, hi) && lo <= mid <= hi
    ensures Same(s, t, d, lo, mid)
  {
  }

  lemma ElementLocal(s: string, t: string, d: int, lo: nat, hi: nat, i: nat, isObject: bool, first: bool, e: Element)
    requires Same(s, t, d, lo, hi) && lo <= i <= |s| && IsElement(s, i, isObject, first, e) && e.next < hi
    ensures Skip(t, i + d) == e.start + d && !(first && At(t, e.start + d, Closing(isObject)))
    ensures isObject ==> ScanKey(t, e.start + d) == Some(e.value + d)
    ensures Delimited(t, e.end + d) && Skip(t, e.end + d) == e.next + d && t[e.next + d] == s[e.next]
  {
    SkipLocal(s, t, d, lo, hi, i);
    if isObject { KeyLocal(s, t, d, lo, hi, e.start); }
    SkipLocal(s, t, d, lo, hi, e.end);
    assert s[e.end] == t[e.end + d] && s[e.start] == t[e.start + d];
  }
}
