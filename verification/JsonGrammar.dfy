/** What the scanner takes for a value: the grammar of RFC 8259, form by form. */
module JsonGrammar {
  import opened Results
  import opened JsonText
  import opened ReasonSplit
  import Text

  // ---- literal names (section 3) ----

  lemma LiteralsAreValues()
    ensures IsValue("true") && IsValue("false") && IsValue("null")
  {
  }

  // ---- numbers (section 6) ----

  predicate SomeDigits(ds: string)
  {
    ds != "" && forall c | c in ds :: '0' <= c <= '9'
  }

  predicate WholePart(w: string)
  {
    SomeDigits(w) && (w == "0" || w[0] != '0')
  }

  predicate FractionPart(f: string)
  {
    f == "" || (f[0] == '.' && SomeDigits(f[1..]))
  }

  predicate ExponentPart(e: string)
  {
    e == "" || (e[0] in {'e', 'E'} && (SomeDigits(e[1..]) || (|e| > 1 && e[1] in {'+', '-'} && SomeDigits(e[2..]))))
  }

  predicate NumberParts(v: string, minus: string, whole: string, fraction: string, exponent: string)
  {
    && v == minus + whole + fraction + exponent
    && minus in {"", "-"} && WholePart(whole) && FractionPart(fraction) && ExponentPart(exponent)
  }

  lemma {:induction false} DigitsSkipped(s: string, i: nat, j: nat)
    requires i <= j <= |s| && (forall k | i <= k < j :: IsDigit(s[k])) && (j < |s| ==> !IsDigit(s[j]))
    ensures SkipDigits(s, i) == j
    decreases j - i
  {
    if i < j { DigitsSkipped(s, i + 1, j); }
  }

  lemma {:induction false} SkippedAreDigits(s: string, i: nat)
    requires i <= |s|
    ensures forall k | i <= k < SkipDigits(s, i) :: IsDigit(s[k])
    ensures SkipDigits(s, i) < |s| ==> !IsDigit(s[SkipDigits(s, i)])
    decreases |s| - i
  {
    if i < |s| && IsDigit(s[i]) { SkippedAreDigits(s, i + 1); }
  }

  lemma DigitsRead(s: string, i: nat, ds: string)
    requires SomeDigits(ds) && i + |ds| <= |s| && s[i..i + |ds|] == ds && (i + |ds| < |s| ==> !IsDigit(s[i + |ds|]))
    ensures Digits(s, i) == Some(i + |ds|)
  {
    forall k | i <= k < i + |ds|
      ensures IsDigit(s[k])
    {
      assert s[k] == s[i..i + |ds|][k - i] && ds[k - i] in ds;
    }
    DigitsSkipped(s, i, i + |ds|);
  }

  lemma IntegerRead(s: string, i: nat, w: string)
    requires WholePart(w) && i + |w| <= |s| && s[i..i + |w|] == w && (i + |w| < |s| ==> !IsDigit(s[i + |w|]))
    ensures Integer(s, i) == Some(i + |w|)
  {
    assert s[i] == s[i..i + |w|][0] == w[0];
    DigitsRead(s, i, w);
  }

  lemma FractionRead(s: string, i: nat, f: string)
    requires FractionPart(f) && i + |f| <= |s| && s[i..i + |f|] == f
    requires i + |f| < |s| ==> !IsDigit(s[i + |f|]) && s[i + |f|] != '.'
    ensures Fraction(s, i) == Some(i + |f|)
  {
    if f != "" {
      assert s[i] == s[i..i + |f|][0];
      assert s[i + 1..i + |f|] == s[i..i + |f|][1..];
      DigitsRead(s, i + 1, f[1..]);
    }
  }

  lemma ExponentRead(s: string, i: nat, e: string)
    requires ExponentPart(e) && i + |e| == |s| && s[i..] == e
    ensures Exponent(s, i) == Some(|s|)
  {
    if e != "" {
      assert s[i] == s[i..][0];
      if SomeDigits(e[1..]) {
        assert s[i + 1..] == e[1..] && s[i + 1] == e[1..][0] && e[1..][0] in e[1..];
        assert s[i + 1..i + 1 + |e[1..]|] == e[1..];
        DigitsRead(s, i + 1, e[1..]);
      } else {
        assert s[i + 1] == s[i..][1];
        assert s[i + 2..i + 2 + |e[2..]|] == e[2..];
        DigitsRead(s, i + 2, e[2..]);
      }
    }
  }

  lemma PartsStand(v: string, minus: string, whole: string, fraction: string, exponent: string)
    requires v == minus + whole + fraction + exponent
    ensures
      var (a, b, c) := (|minus|, |minus| + |whole|, |minus| + |whole| + |fraction|);
      c <= |v| && v[..a] == minus && v[a..b] == whole && v[b..c] == fraction && v[c..] == exponent
  {
  }

  /** The three parts after the sign, read one after the other. */
  lemma PartsRead(v: string, a: nat, whole: string, fraction: string, exponent: string)
    requires WholePart(whole) && FractionPart(fraction) && ExponentPart(exponent)
    requires a + |whole| + |fraction| + |exponent| == |v| && v[a..a + |whole|] == whole
    requires v[a + |whole|..a + |whole| + |fraction|] == fraction && v[a + |whole| + |fraction|..] == exponent
    ensures Integer(v, a) == Some(a + |whole|) && Fraction(v, a + |whole|) == Some(a + |whole| + |fraction|)
    ensures Exponent(v, a + |whole| + |fraction|) == Some(|v|)
  {
    var b, c := a + |whole|, a + |whole| + |fraction|;
    if fraction != "" { assert v[b] == v[b..c][0]; }
    if exponent != "" { assert v[c] == v[c..][0]; }
    IntegerRead(v, a, whole);
    FractionRead(v, b, fraction);
    ExponentRead(v, c, exponent);
  }

  /** Every number is a value: a sign, a whole part without leading zeros, a fraction and an exponent, the last two if given. */
  lemma NumbersAreValues(v: string, minus: string, whole: string, fraction: string, exponent: string)
    requires NumberParts(v, minus, whole, fraction, exponent)
    ensures IsValue(v)
  {
    var a := |minus|;
    PartsStand(v, minus, whole, fraction, exponent);
    PartsRead(v, a, whole, fraction, exponent);
    assert v[a] == v[a..a + |whole|][0] && whole[0] in whole;
    if a == 1 { assert v[0] == v[..1][0]; }
    SignThenParts(v, a, a + |whole|, a + |whole| + |fraction|);
  }

  lemma SignThenParts(v: string, a: nat, b: nat, c: nat)
    requires a < |v| && a == (if At(v, 0, '-') then 1 else 0) && IsDigit(v[a])
    requires b <= |v| && c <= |v| && Integer(v, a) == Some(b) && Fraction(v, b) == Some(c) && Exponent(v, c) == Some(|v|)
    ensures IsValue(v)
  {
    assert v[0] == '-' || IsDigit(v[0]);
    assert ScanNumber(v, 0) == Some(|v|);
  }

  predicate StartsOtherwise(v: string)
  {
    v != "" && v[0] in {'"', '{', '[', 't', 'f', 'n'}
  }

  lemma DigitsAre(s: string, i: nat)
    requires i <= |s| && Digits(s, i).Some?
    ensures SomeDigits(s[i..Digits(s, i).value])
  {
    SkippedAreDigits(s, i);
    var ds := s[i..Digits(s, i).value];
    forall c | c in ds
      ensures '0' <= c <= '9'
    {
      var k :| 0 <= k < |ds| && ds[k] == c;
      assert s[i + k] == c && IsDigit(s[i + k]);
    }
  }

  lemma IntegerIs(s: string, i: nat)
    requires i <= |s| && Integer(s, i).Some?
    ensures WholePart(s[i..Integer(s, i).value])
  {
    if At(s, i, '0') {
      assert s[i..i + 1] == "0";
    } else {
      DigitsAre(s, i);
    }
  }

  lemma FractionIs(s: string, i: nat)
    requires i <= |s| && Fraction(s, i).Some?
    ensures FractionPart(s[i..Fraction(s, i).value])
  {
    if At(s, i, '.') {
      DigitsAre(s, i + 1);
      assert s[i..Fraction(s, i).value][1..] == s[i + 1..Fraction(s, i).value];
    }
  }

  lemma ExponentIs(s: string, i: nat)
    requires i <= |s| && Exponent(s, i).Some?
    ensures ExponentPart(s[i..Exponent(s, i).value])
  {
    if At(s, i, 'e') || At(s, i, 'E') {
      var signed := At(s, i + 1, '+') || At(s, i + 1, '-');
      DigitsAre(s, if signed then i + 2 else i + 1);
      var e := s[i..Exponent(s, i).value];
      assert e[1..] == s[i + 1..Exponent(s, i).value] && e[0] == s[i];
      if signed { assert e[2..] == s[i + 2..Exponent(s, i).value] && e[1] == s[i + 1]; }
    }
  }

  lemma ScannedAsNumber(v: string)
    requires IsValue(v) && !StartsOtherwise(v)
    ensures ScanNumber(v, 0) == Some(|v|)
  {
  }

  lemma Assembled(v: string, a: nat, b: nat, c: nat)
    requires a <= b <= c <= |v| && v[..a] in {"", "-"} && WholePart(v[a..b]) && FractionPart(v[b..c]) && ExponentPart(v[c..|v|])
    ensures NumberParts(v, v[..a], v[a..b], v[b..c], v[c..|v|])
  {
    assert v[..a] + v[a..b] == v[..b];
    assert v[..b] + v[b..c] == v[..c];
    assert v[..c] + v[c..|v|] == v;
  }

  lemma ScannedParts(v: string) returns (a: nat, b: nat, c: nat)
    requires ScanNumber(v, 0) == Some(|v|)
    ensures a == (if At(v, 0, '-') then 1 else 0) && a <= b <= c <= |v|
    ensures Integer(v, a) == Some(b) && Fraction(v, b) == Some(c) && Exponent(v, c) == Some(|v|)
  {
    a := if At(v, 0, '-') then 1 else 0;
    b := Integer(v, a).value;
    c := Fraction(v, b).value;
  }

  /** And what does not begin as another kind of value is a value only if it is a number. */
  lemma OnlyNumbersBesides(v: string)
    requires IsValue(v) && !StartsOtherwise(v)
    ensures exists minus, whole, fraction, exponent :: NumberParts(v, minus, whole, fraction, exponent)
  {
    ScannedAsNumber(v);
    var a, b, c := ScannedParts(v);
    SplitAsNumber(v, a, b, c);
  }

  lemma SplitAsNumber(v: string, a: nat, b: nat, c: nat)
    requires a == (if At(v, 0, '-') then 1 else 0) && a <= b <= c <= |v|
    requires Integer(v, a) == Some(b) && Fraction(v, b) == Some(c) && Exponent(v, c) == Some(|v|)
    ensures NumberParts(v, v[..a], v[a..b], v[b..c], v[c..|v|])
  {
    IntegerIs(v, a);
    FractionIs(v, b);
    ExponentIs(v, c);
    assert a == 1 ==> v[..1] == "-";
    Assembled(v, a, b, c);
  }

  // ---- strings (section 7) ----

  /** Any text between quotes, its quotes, backslashes and control characters escaped, is a value and decodes to that text. */
  lemma StringsAreValues(k: string)
    ensures IsValue(EncodeKey(k)) && Decode(EncodeKey(k), 1) == k
  {
    var s := EncodeKey(k);
    var e := Escape(k);
    assert s == "\"" + (e + "\"");
    assert s[0] == '"';
    assert Holds(s, 1, e) by {
      forall j | 0 <= j < |e| ensures s[1 + j] == e[j] {}
    }
    assert At(s, 1 + |e|, '"');
    EscapedReadsBack(s, 1, k);
  }

  // ---- lists of items ----

  /** A scanner of lists takes an item off the front of one: it ends there, or goes on after a comma. */
  predicate TakesItem(scan: (nat, bool) -> Option<nat>, s: string, i: nat, first: bool, x: string, close: char)
  {
    Holds(s, i, x) ==>
      && (At(s, i + |x|, close) ==> scan(i, first) == Some(i + |x| + 1))
      && (At(s, i + |x|, ',') && scan(i + |x| + 1, false).Some? ==> scan(i, first) == scan(i + |x| + 1, false))
  }

  lemma JoinParts(s: string, i: nat, xs: seq<string>)
    requires |xs| > 1 && Holds(s, i, Text.Join(xs, ','))
    ensures
      var (x, rest) := (xs[0], Text.Join(xs[1..], ','));
      Holds(s, i, x) && At(s, i + |x|, ',') && Holds(s, i + |x| + 1, rest) && |Text.Join(xs, ',')| == |x| + 1 + |rest|
  {
    var x, rest := xs[0], Text.Join(xs[1..], ',');
    assert Text.Join(xs, ',') == x + ("," + rest);
    HoldsParts(s, i, x, "," + rest);
    HoldsParts(s, i + |x|, ",", rest);
    HoldsOne(s, i + |x|, ',');
  }

  lemma {:induction false} ItemsScanned(scan: (nat, bool) -> Option<nat>, s: string, i: nat, first: bool, xs: seq<string>, close: char)
    requires xs != [] && Holds(s, i, Text.Join(xs, ',')) && At(s, i + |Text.Join(xs, ',')|, close)
    requires forall j: nat, f: bool, x | x in xs :: TakesItem(scan, s, j, f, x, close)
    ensures scan(i, first) == Some(i + |Text.Join(xs, ',')| + 1)
    decreases |xs|
  {
    assert xs[0] in xs && TakesItem(scan, s, i, first, xs[0], close);
    if |xs| > 1 {
      JoinParts(s, i, xs);
      ItemsScanned(scan, s, i + |xs[0]| + 1, false, xs[1..], close);
    }
  }

  function Scanner(s: string, isObject: bool): (nat, bool) -> Option<nat>
  {
    (i: nat, first: bool) => if i <= |s| then ScanList(s, i, isObject, first) else None
  }

  /** An item that stands as an element is taken, whatever scans it. */
  lemma ElementIsTaken(s: string, i: nat, isObject: bool, first: bool, x: string, e: Element)
    requires IsElement(s, i, isObject, first, e) && e.next == i + |x|
    ensures TakesItem(Scanner(s, isObject), s, i, first, x, Closing(isObject))
  {
    if At(s, i + |x|, Closing(isObject)) {
      ListBuilds(s, i, isObject, first, e, i + |x| + 1);
    } else if At(s, i + |x|, ',') && Scanner(s, isObject)(i + |x| + 1, false).Some? {
      ListBuilds(s, i, isObject, first, e, Scanner(s, isObject)(i + |x| + 1, false).value);
    }
  }

  predicate Follows(s: string, i: nat, close: char)
  {
    At(s, i, ',') || At(s, i, close)
  }

  // ---- arrays (section 5) ----

  lemma ValueStands(s: string, i: nat, first: bool, v: string)
    requires IsValue(v) && Holds(s, i, v) && Follows(s, i + |v|, ']')
    ensures IsElement(s, i, false, first, Element(i, i, i + |v|, i + |v|))
  {
    NotSpace(s, i, v);
    HeldIsSame(s, i, v);
    ValueLocal(v, s, i, 0, |v|, 0);
    assert s[i + 0] == v[0] && v[0] != ']';
  }

  lemma ValueIsTaken(s: string, i: nat, first: bool, v: string)
    requires IsValue(v)
    ensures TakesItem(Scanner(s, false), s, i, first, v, ']')
  {
    if Holds(s, i, v) && Follows(s, i + |v|, ']') {
      ValueStands(s, i, first, v);
      ElementIsTaken(s, i, false, first, v, Element(i, i, i + |v|, i + |v|));
    }
  }

  function Listed(xs: seq<string>, open: string, close: string): string
  {
    open + Text.Join(xs, ',') + close
  }

  lemma ListedParts(xs: seq<string>, open: string, close: string)
    requires |open| == 1 && |close| == 1
    ensures
      var (s, n) := (Listed(xs, open, close), |Text.Join(xs, ',')|);
      |s| == n + 2 && s[0] == open[0] && Holds(s, 1, Text.Join(xs, ',')) && At(s, 1 + n, close[0])
  {
    var s, body := Listed(xs, open, close), Text.Join(xs, ',');
    forall j | 0 <= j < |body|
      ensures s[1 + j] == body[j]
    {
    }
  }

  /** Values in brackets, with commas between, are a value. */
  lemma ArraysAreValues(vs: seq<string>)
    requires forall v | v in vs :: IsValue(v)
    ensures IsValue(Listed(vs, "[", "]"))
  {
    var s := Listed(vs, "[", "]");
    ListedParts(vs, "[", "]");
    if vs == [] {
      EmptyList(s, false);
    } else {
      forall j: nat, f: bool, x | x in vs
        ensures TakesItem(Scanner(s, false), s, j, f, x, ']')
      {
        ValueIsTaken(s, j, f, x);
      }
      ItemsScanned(Scanner(s, false), s, 1, true, vs, ']');
      OpensList(s, false);
    }
  }

  lemma EmptyList(s: string, isObject: bool)
    requires |s| == 2 && s[0] == (if isObject then '{' else '[') && s[1] == Closing(isObject)
    ensures IsValue(s)
  {
    assert Skip(s, 1) == 1;
    ListEmpty(s, 1, isObject);
    assert Scanner(s, isObject)(1, true) == Some(2);
    OpensList(s, isObject);
  }

  lemma OpensList(s: string, isObject: bool)
    requires |s| > 1 && s[0] == (if isObject then '{' else '[') && Scanner(s, isObject)(1, true) == Some(|s|)
    ensures IsValue(s)
  {
  }

  // ---- objects (section 4) ----

  lemma MemberStands(s: string, i: nat, first: bool, m: Member)
    requires IsValue(m.value) && Holds(s, i, Written(m)) && Follows(s, i + |Written(m)|, '}')
    ensures
      var n := i + |Written(m)|;
      IsElement(s, i, true, first, Element(i, i + 3 + |Escape(m.key)|, n, n))
  {
    WrittenParts(s, i, m);
    KeyReadsBack(s, i, m);
    ValueReadsBack(s, i, m);
  }

  lemma MemberIsTaken(s: string, i: nat, first: bool, m: Member)
    requires IsValue(m.value)
    ensures TakesItem(Scanner(s, true), s, i, first, Written(m), '}')
  {
    if Holds(s, i, Written(m)) && Follows(s, i + |Written(m)|, '}') {
      MemberStands(s, i, first, m);
      var n := i + |Written(m)|;
      ElementIsTaken(s, i, true, first, Written(m), Element(i, i + 3 + |Escape(m.key)|, n, n));
    }
  }

  function AllWritten(ms: seq<Member>): (xs: seq<string>)
    ensures |xs| == |ms| && forall k | 0 <= k < |ms| :: xs[k] == Written(ms[k])
  {
    seq(|ms|, k requires 0 <= k < |ms| => Written(ms[k]))
  }

  /** Members in braces, each a string, a colon and a value, with commas between, are a value. */
  lemma ObjectsAreValues(ms: seq<Member>)
    requires AllValues(ms)
    ensures IsValue(Listed(AllWritten(ms), "{", "}"))
  {
    var xs := AllWritten(ms);
    var s := Listed(xs, "{", "}");
    ListedParts(xs, "{", "}");
    if xs == [] {
      EmptyList(s, true);
    } else {
      forall j: nat, f: bool, x | x in xs
        ensures TakesItem(Scanner(s, true), s, j, f, x, '}')
      {
        var k :| 0 <= k < |xs| && xs[k] == x;
        assert ms[k] in ms;
        MemberIsTaken(s, j, f, ms[k]);
      }
      ItemsScanned(Scanner(s, true), s, 1, true, xs, '}');
      OpensList(s, true);
    }
  }
}
