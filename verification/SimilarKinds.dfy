/** "Did you mean": edit distance between kind names and the ranking of the kinds a cluster serves. */
module SimilarKinds {
  import Sorting
  import Text

  function Min(a: int, b: int): int
  {
    if a <= b then a else b
  }

  function Cost(x: char, y: char): nat
  {
    if x == y then 0 else 1
  }

  function Front(s: string): string
    requires s != ""
  {
    s[..|s| - 1]
  }

  function Last(s: string): char
    requires s != ""
  {
    s[|s| - 1]
  }

  /** Levenshtein distance: the fewest insertions, deletions and substitutions from one text to the other. */
  function Distance(a: string, b: string): nat
    decreases |a| + |b|
  {
    if a == "" then |b|
    else if b == "" then |a|
    else
      Min(Distance(Front(a), b) + 1,
          Min(Distance(a, Front(b)) + 1, Distance(Front(a), Front(b)) + Cost(Last(a), Last(b))))
  }

  /** A cell of the table: the distance between the first i and the first j characters. */
  function Cell(a: string, b: string, i: nat, j: nat): nat
    requires i <= |a| && j <= |b|
  {
    Distance(a[..i], b[..j])
  }

  /** It follows from its three neighbours. */
  lemma CellFromNeighbours(a: string, b: string, i: nat, j: nat)
    requires 1 <= i <= |a| && 1 <= j <= |b|
    ensures Cell(a, b, i, j) ==
            Min(Cell(a, b, i - 1, j) + 1, Min(Cell(a, b, i, j - 1) + 1, Cell(a, b, i - 1, j - 1) + Cost(a[i - 1], b[j - 1])))
  {
    var x, y := a[..i], b[..j];
    assert Front(x) == a[..i - 1] && Front(y) == b[..j - 1] && Last(x) == a[i - 1] && Last(y) == b[j - 1];
  }

  /** The inner loop: one row from the row before it. */
  method FillRow(prev: array<int>, curr: array<int>, a: string, b: string, i: nat)
    requires prev != curr && prev.Length == curr.Length == |b| + 1 && 1 <= i <= |a|
    requires forall k | 0 <= k <= |b| :: prev[k] == Cell(a, b, i - 1, k)
    modifies curr
    ensures forall k | 0 <= k <= |b| :: curr[k] == Cell(a, b, i, k)
  {
    curr[0] := i;
    assert b[..0] == "";
    for j := 1 to |b| + 1
      invariant forall k | 0 <= k <= |b| :: prev[k] == Cell(a, b, i - 1, k)
      invariant forall k | 0 <= k < j :: curr[k] == Cell(a, b, i, k)
    {
      var cost := 1;
      if a[i - 1] == b[j - 1] {
        cost := 0;
      }
      curr[j] := Min(prev[j] + 1, Min(curr[j - 1] + 1, prev[j - 1] + cost));
      CellFromNeighbours(a, b, i, j);
    }
  }

  /** editDistance: two rows, swapped after each character of `a`. */
  method EditDistance(a: string, b: string) returns (d: nat)
    ensures d == Distance(a, b)
  {
    var prev, curr := new int[|b| + 1], new int[|b| + 1];
    for j := 0 to |b| + 1
      invariant forall k | 0 <= k < j :: prev[k] == k
    {
      prev[j] := j;
    }
    assert forall k | 0 <= k <= |b| :: Cell(a, b, 0, k) == k;
    for i := 1 to |a| + 1
      invariant prev != curr && prev.Length == curr.Length == |b| + 1
      invariant fresh(prev) && fresh(curr)
      invariant forall k | 0 <= k <= |b| :: prev[k] == Cell(a, b, i - 1, k)
    {
      FillRow(prev, curr, a, b, i);
      prev, curr := curr, prev;
    }
    assert a[..|a|] == a && b[..|b|] == b;
    d := prev[|b|];
  }

  // ---- Distance is a metric ----

  lemma {:induction false} Symmetric(a: string, b: string)
    ensures Distance(a, b) == Distance(b, a)
    decreases |a| + |b|
  {
    if a != "" && b != "" {
      Symmetric(Front(a), b);
      Symmetric(a, Front(b));
      Symmetric(Front(a), Front(b));
    }
  }

  lemma {:induction false} ZeroOnlyOnEqual(a: string, b: string)
    ensures Distance(a, b) == 0 <==> a == b
    decreases |a|
  {
    if a != "" && b != "" {
      ZeroOnlyOnEqual(Front(a), Front(b));
      assert a == Front(a) + [Last(a)] && b == Front(b) + [Last(b)];
    }
  }

  /** Every character one text has more than the other costs an edit. */
  lemma LengthGap(a: string, b: string)
    ensures |b| <= |a| + Distance(a, b)
    decreases |a| + |b|
  {
    if a != "" && b != "" {
      LengthGap(Front(a), b);
      LengthGap(a, Front(b));
      LengthGap(Front(a), Front(b));
    }
  }

  lemma UpperBound(a: string, b: string)
    ensures Distance(a, b) <= |a| + |b|
    decreases |a|
  {
    if a != "" && b != "" {
      UpperBound(Front(a), b);
    }
  }

  lemma {:induction false} Triangle(a: string, b: string, c: string)
    ensures Distance(a, c) <= Distance(a, b) + Distance(b, c)
    decreases |a| + |b| + |c|
  {
    if a == "" {
      LengthGap(b, c);
    } else if c == "" {
      Symmetric(a, b);
      LengthGap(b, a);
    } else if b == "" {
      UpperBound(a, c);
    } else {
      Triangle(Front(a), b, c);
      Triangle(a, b, Front(c));
      Triangle(a, Front(b), c);
      Triangle(a, Front(b), Front(c));
      Triangle(Front(a), Front(b), c);
      Triangle(Front(a), Front(b), Front(c));
    }
  }

  // ---- Distance counts edits ----

  /** `b` is `a` with one character inserted at `i`. */
  predicate Inserted(a: string, b: string, i: nat)
  {
    i < |b| && |b| == |a| + 1 && b[..i] == a[..i] && b[i + 1..] == a[i..]
  }

  predicate Substituted(a: string, b: string, i: nat)
  {
    i < |a| && |b| == |a| && b[..i] == a[..i] && b[i + 1..] == a[i + 1..]
  }

  /** One insertion, deletion or substitution of one character. */
  predicate OneEdit(a: string, b: string)
  {
    exists i :: 0 <= i <= |a| && (Inserted(a, b, i) || Inserted(b, a, i) || Substituted(a, b, i))
  }

  /** A way from the first text to the last, one edit at a time. */
  predicate EditScript(texts: seq<string>)
  {
    |texts| > 0 && forall k | 0 <= k < |texts| - 1 :: OneEdit(texts[k], texts[k + 1])
  }

  lemma {:induction false} CommonEnding(a: string, b: string, ending: string)
    ensures Distance(a + ending, b + ending) <= Distance(a, b)
  {
    if ending == "" {
      assert a + ending == a && b + ending == b;
    } else {
      var e := Front(ending);
      assert Front(a + ending) == a + e && Front(b + ending) == b + e;
      CommonEnding(a, b, e);
    }
  }

  /** Dropping a last character costs one edit at most, on either side, and changing it too. */
  lemma LastCosts(a: string, b: string)
    requires a != "" && b != ""
    ensures Distance(a, b) <= Distance(Front(a), b) + 1
    ensures Distance(a, b) <= Distance(a, Front(b)) + 1
    ensures Distance(a, b) <= Distance(Front(a), Front(b)) + 1
  {
  }

  lemma DropLast(head: string, c: char)
    ensures Distance(head + [c], head) <= 1
  {
    ZeroOnlyOnEqual(head, head);
    if head != "" {
      assert Front(head + [c]) == head;
      LastCosts(head + [c], head);
    }
  }

  lemma ChangeLast(head: string, c: char, d: char)
    ensures Distance(head + [c], head + [d]) <= 1
  {
    ZeroOnlyOnEqual(head, head);
    assert Front(head + [c]) == head && Front(head + [d]) == head;
    LastCosts(head + [c], head + [d]);
  }

  lemma EditAtEnd(head: string, x: string, y: string)
    requires |x| <= 1 && |y| <= 1
    ensures Distance(head + x, head + y) <= 1
  {
    assert head + "" == head;
    if x == "" && y == "" {
      ZeroOnlyOnEqual(head, head);
    } else if y == "" {
      assert x == [x[0]];
      DropLast(head, x[0]);
    } else if x == "" {
      assert y == [y[0]];
      DropLast(head, y[0]);
      Symmetric(head + y, head);
    } else {
      assert x == [x[0]] && y == [y[0]];
      ChangeLast(head, x[0], y[0]);
    }
  }

  lemma EditInside(head: string, x: string, y: string, tail: string)
    requires |x| <= 1 && |y| <= 1
    ensures Distance(head + x + tail, head + y + tail) <= 1
  {
    EditAtEnd(head, x, y);
    CommonEnding(head + x, head + y, tail);
  }

  lemma EditShape(a: string, b: string) returns (head: string, x: string, y: string, tail: string)
    requires OneEdit(a, b)
    ensures a == head + x + tail && b == head + y + tail && |x| <= 1 && |y| <= 1
  {
    var i :| 0 <= i <= |a| && (Inserted(a, b, i) || Inserted(b, a, i) || Substituted(a, b, i));
    head := a[..i];
    if Inserted(a, b, i) {
      x, y, tail := "", [b[i]], a[i..];
    } else if Inserted(b, a, i) {
      x, y, tail := [a[i]], "", b[i..];
    } else {
      x, y, tail := [a[i]], [b[i]], a[i + 1..];
    }
  }

  lemma EditCostsAtMostOne(a: string, b: string)
    requires OneEdit(a, b)
    ensures Distance(a, b) <= 1
  {
    var head, x, y, tail := EditShape(a, b);
    EditInside(head, x, y, tail);
  }

  /** No edit script is shorter than the distance between its ends. */
  lemma {:induction false} NoShorterScript(texts: seq<string>)
    requires EditScript(texts)
    ensures Distance(texts[0], texts[|texts| - 1]) <= |texts| - 1
  {
    if |texts| == 1 {
      ZeroOnlyOnEqual(texts[0], texts[0]);
    } else {
      var shorter := texts[..|texts| - 1];
      forall k | 0 <= k < |shorter| - 1 ensures OneEdit(shorter[k], shorter[k + 1]) {
        assert OneEdit(texts[k], texts[k + 1]);
      }
      NoShorterScript(shorter);
      EditCostsAtMostOne(texts[|texts| - 2], texts[|texts| - 1]);
      Triangle(texts[0], texts[|texts| - 2], texts[|texts| - 1]);
    }
  }

  function Appended(texts: seq<string>, c: char): seq<string>
  {
    seq(|texts|, k requires 0 <= k < |texts| => texts[k] + [c])
  }

  lemma AppendKeepsEdit(a: string, b: string, c: char)
    requires OneEdit(a, b)
    ensures OneEdit(a + [c], b + [c])
  {
    var i :| 0 <= i <= |a| && (Inserted(a, b, i) || Inserted(b, a, i) || Substituted(a, b, i));
    var x, y := a + [c], b + [c];
    assert x[..i] == a[..i];
    assert y[..i] == b[..i];
    if Inserted(a, b, i) {
      assert y[i + 1..] == b[i + 1..] + [c] && x[i..] == a[i..] + [c];
      assert Inserted(x, y, i);
    } else if Inserted(b, a, i) {
      assert x[i + 1..] == a[i + 1..] + [c] && y[i..] == b[i..] + [c];
      assert Inserted(y, x, i);
    } else {
      assert x[i + 1..] == a[i + 1..] + [c] && y[i + 1..] == b[i + 1..] + [c];
      assert Substituted(x, y, i);
    }
  }

  lemma ExtendScript(texts: seq<string>, b: string)
    requires EditScript(texts) && OneEdit(texts[|texts| - 1], b)
    ensures EditScript(texts + [b])
  {
    var more := texts + [b];
    forall k | 0 <= k < |more| - 1 ensures OneEdit(more[k], more[k + 1]) {
      if k < |texts| - 1 { assert more[k] == texts[k] && more[k + 1] == texts[k + 1]; }
    }
  }

  lemma PrependScript(a: string, texts: seq<string>)
    requires EditScript(texts) && OneEdit(a, texts[0])
    ensures EditScript([a] + texts)
  {
    var more := [a] + texts;
    forall k | 0 <= k < |more| - 1 ensures OneEdit(more[k], more[k + 1]) {
      if k > 0 { assert more[k] == texts[k - 1] && more[k + 1] == texts[k]; }
    }
  }

  lemma LastCharacterEdits(a: string, b: string)
    requires a != "" && b != ""
    ensures OneEdit(a, Front(a)) && OneEdit(Front(b), b)
    ensures OneEdit(Front(a) + [Last(a)], Front(a) + [Last(b)])
  {
    assert Inserted(Front(a), a, |a| - 1) && Inserted(Front(b), b, |b| - 1);
    assert Substituted(Front(a) + [Last(a)], Front(a) + [Last(b)], |a| - 1);
  }

  lemma AppendedScript(texts: seq<string>, c: char)
    requires EditScript(texts)
    ensures EditScript(Appended(texts, c))
  {
    var longer := Appended(texts, c);
    forall k | 0 <= k < |longer| - 1 ensures OneEdit(longer[k], longer[k + 1]) {
      AppendKeepsEdit(texts[k], texts[k + 1], c);
    }
  }

  predicate ScriptBetween(texts: seq<string>, a: string, b: string)
  {
    EditScript(texts) && texts[0] == a && texts[|texts| - 1] == b
  }

  /** From the texts without their last characters to the texts, the last characters exchanged if they differ. */
  lemma LastCharactersToo(a: string, b: string, inner: seq<string>) returns (texts: seq<string>)
    requires a != "" && b != "" && ScriptBetween(inner, Front(a), Front(b))
    ensures ScriptBetween(texts, a, b) && |texts| == |inner| + Cost(Last(a), Last(b))
  {
    texts := Appended(inner, Last(a));
    AppendedScript(inner, Last(a));
    assert Front(a) + [Last(a)] == a && Front(b) + [Last(b)] == b;
    if Last(a) != Last(b) {
      var before := Front(b) + [Last(a)];
      LastCharacterEdits(before, b);
      assert Front(before) == Front(b);
      ExtendScript(texts, b);
      texts := texts + [b];
    }
  }

  /** And some edit script is exactly that long. */
  lemma {:induction false} ShortestScript(a: string, b: string) returns (texts: seq<string>)
    ensures ScriptBetween(texts, a, b)
    ensures |texts| == Distance(a, b) + 1
    decreases |a| + |b|
  {
    if a == "" && b == "" {
      texts := [a];
    } else if a != "" && (b == "" || Distance(a, b) == Distance(Front(a), b) + 1) {
      LastCharacterEdits(a, a);
      var rest := ShortestScript(Front(a), b);
      PrependScript(a, rest);
      texts := [a] + rest;
    } else if a == "" || Distance(a, b) == Distance(a, Front(b)) + 1 {
      LastCharacterEdits(b, b);
      var rest := ShortestScript(a, Front(b));
      ExtendScript(rest, b);
      texts := rest + [b];
    } else {
      var inner := ShortestScript(Front(a), Front(b));
      texts := LastCharactersToo(a, b, inner);
    }
  }

  // ---- ranking ----

  datatype APIResource = APIResource(group: string, version: string, kind: string)

  datatype Candidate = Candidate(name: string, distance: nat)

  function KindEditBudget(want: string): nat
  {
    if |want| <= 4 then 1 else if |want| <= 9 then 2 else 3
  }

  function LabelOf(r: APIResource): string
  {
    if r.group == "" then r.kind else r.group + "/" + r.version + "/" + r.kind
  }

  /** Close enough to be suggested: a fragment of one another, or within the budget, but not the kind itself. */
  predicate Admissible(r: APIResource, kind: string)
  {
    var lower, want := Text.Lower(r.kind), Text.Lower(kind);
    && lower != want
    && (Text.Contains(lower, want) || Text.Contains(want, lower) || Distance(lower, want) <= KindEditBudget(want))
  }

  function CandidateOf(r: APIResource, kind: string): Candidate
  {
    Candidate(LabelOf(r), Distance(Text.Lower(r.kind), Text.Lower(kind)))
  }

  predicate Listed(found: seq<Candidate>, name: string)
  {
    exists i :: 0 <= i < |found| && found[i].name == name
  }

  /** The candidates before sorting: for every name the first admissible resource that bears it. */
  function Found(all: seq<APIResource>, kind: string): seq<Candidate>
  {
    if all == [] then []
    else
      var r := all[|all| - 1];
      var front := Found(all[..|all| - 1], kind);
      if Admissible(r, kind) && !Listed(front, LabelOf(r)) then front + [CandidateOf(r, kind)] else front
  }

  predicate Before(x: Candidate, y: Candidate)
  {
    x.distance < y.distance || (x.distance == y.distance && Text.Less(x.name, y.name))
  }

  lemma BeforeTotal(x: Candidate, y: Candidate)
    ensures x == y || Before(x, y) || Before(y, x)
    ensures !(Before(x, y) && Before(y, x))
  {
    Text.LessTotal(x.name, y.name);
  }

  lemma BeforeTransitive(x: Candidate, y: Candidate, z: Candidate)
    requires !Before(y, x) && !Before(z, y)
    ensures !Before(z, x)
  {
    Text.LessTotal(x.name, y.name);
    Text.LessTotal(y.name, z.name);
    Text.LessTotal(x.name, z.name);
    if x.distance == y.distance == z.distance && x.name != y.name && y.name != z.name {
      Text.LessTransitive(x.name, y.name, z.name);
    }
  }

  predicate KeptInOrder(out: seq<string>, found: seq<Candidate>)
  {
    forall c, d, i, j | c in found && d in found && 0 <= i < j < |out| && c.name == out[i] && d.name == out[j] :: Before(c, d)
  }

  predicate KeptComeFirst(out: seq<string>, found: seq<Candidate>)
  {
    forall c, d | c in found && d in found && c.name in out && d.name !in out :: Before(c, d)
  }

  lemma BeforeIsOrder()
    ensures Sorting.StrictWeakOrder(Before)
  {
    forall x, y ensures Before(x, y) ==> !Before(y, x) {
      BeforeTotal(x, y);
    }
    forall x, y, z | !Before(y, x) && !Before(z, y) ensures !Before(z, x) {
      BeforeTransitive(x, y, z);
    }
  }

  /** One resource of the loop: a candidate unless it is too far off or its label is there already. */
  method Consider(r: APIResource, kind: string, seen0: set<string>, found0: seq<Candidate>) returns (seen: set<string>, found: seq<Candidate>)
    requires forall l :: l in seen0 <==> Listed(found0, l)
    ensures found == if Admissible(r, kind) && !Listed(found0, LabelOf(r)) then found0 + [CandidateOf(r, kind)] else found0
    ensures forall l :: l in seen <==> Listed(found, l)
  {
    seen, found := seen0, found0;
    var lower, want := Text.Lower(r.kind), Text.Lower(kind);
    if lower != want {
      var distance := EditDistance(lower, want);
      if (Text.Contains(lower, want) || Text.Contains(want, lower)) || distance <= KindEditBudget(want) {
        var name := LabelOf(r);
        if name !in seen {
          seen := seen + {name};
          found := found + [Candidate(name, distance)];
          OneMoreListed(found0, Candidate(name, distance));
        }
      }
    }
  }

  lemma OneMoreListed(found: seq<Candidate>, c: Candidate)
    ensures forall l :: Listed(found + [c], l) <==> Listed(found, l) || l == c.name
  {
    var more := found + [c];
    assert forall k | 0 <= k < |found| :: more[k] == found[k];
    assert more[|found|].name == c.name;
  }

  /**
   * rankSimilarKinds: at most five labels of admissible resources, each once, ordered by distance and then
   * by name, and no admissible name that is left out precedes one that is kept.
   */
  method RankSimilarKinds(all: seq<APIResource>, kind: string) returns (out: seq<string>)
    ensures |out| == Min(5, |Found(all, kind)|)
    ensures forall i, j | 0 <= i < j < |out| :: out[i] != out[j]
    ensures forall l | l in out :: Listed(Found(all, kind), l)
    ensures KeptInOrder(out, Found(all, kind))
    ensures KeptComeFirst(out, Found(all, kind))
  {
    var seen: set<string> := {};
    var found: seq<Candidate> := [];
    for i := 0 to |all|
      invariant found == Found(all[..i], kind)
      invariant forall l :: l in seen <==> Listed(found, l)
    {
      assert all[..i + 1][..i] == all[..i];
      seen, found := Consider(all[i], kind, seen, found);
    }
    assert all[..|all|] == all;
    BeforeIsOrder();
    var sorted := Sorting.Sort(found, Before);
    out := [];
    for i := 0 to |sorted|
      invariant |out| == i && forall k | 0 <= k < i :: out[k] == sorted[k].name
    {
      out := out + [sorted[i].name];
    }
    if |out| > 5 {
      out := out[..5];
    }
    RankingFacts(all, kind, sorted, out);
  }

  lemma {:induction false} FoundLabelsDistinct(all: seq<APIResource>, kind: string)
    ensures forall i, j | 0 <= i < j < |Found(all, kind)| :: Found(all, kind)[i].name != Found(all, kind)[j].name
  {
    if all != [] {
      FoundLabelsDistinct(all[..|all| - 1], kind);
    }
  }

  lemma {:induction false} FoundListsAll(all: seq<APIResource>, kind: string)
    ensures forall r | r in all && Admissible(r, kind) :: Listed(Found(all, kind), LabelOf(r))
  {
    if all != [] {
      var last := |all| - 1;
      var front := Found(all[..last], kind);
      FoundListsAll(all[..last], kind);
      assert all == all[..last] + [all[last]];
      OneMoreListed(front, CandidateOf(all[last], kind));
    }
  }

  /** The candidate stands for a resource of the list. */
  predicate StandsFor(c: Candidate, all: seq<APIResource>, kind: string)
  {
    exists r :: r in all && Admissible(r, kind) && CandidateOf(r, kind) == c
  }

  lemma {:induction false} FoundStandsFor(all: seq<APIResource>, kind: string)
    ensures forall c | c in Found(all, kind) :: StandsFor(c, all, kind)
  {
    if all != [] {
      var last := |all| - 1;
      FoundStandsFor(all[..last], kind);
      assert all == all[..last] + [all[last]];
      forall c | c in Found(all, kind) ensures StandsFor(c, all, kind) {
        if c in Found(all[..last], kind) {
          var r :| r in all[..last] && Admissible(r, kind) && CandidateOf(r, kind) == c;
          assert r in all;
        } else {
          assert all[last] in all && CandidateOf(all[last], kind) == c;
        }
      }
    }
  }

  /** Found speaks for every admissible resource and for nothing else. */
  lemma FoundExactly(all: seq<APIResource>, kind: string)
    ensures forall r | r in all && Admissible(r, kind) :: Listed(Found(all, kind), LabelOf(r))
    ensures forall c | c in Found(all, kind) :: StandsFor(c, all, kind)
  {
    FoundListsAll(all, kind);
    FoundStandsFor(all, kind);
  }

  lemma PermutedDistinct(found: seq<Candidate>, sorted: seq<Candidate>)
    requires multiset(sorted) == multiset(found)
    requires forall i, j | 0 <= i < j < |found| :: found[i].name != found[j].name
    ensures forall i, j | 0 <= i < j < |sorted| :: sorted[i].name != sorted[j].name
  {
    forall i, j | 0 <= i < j < |sorted| ensures sorted[i].name != sorted[j].name {
      var x, y := sorted[i], sorted[j];
      assert x in multiset(found) && y in multiset(found);
      var a :| 0 <= a < |found| && found[a] == x;
      var b :| 0 <= b < |found| && found[b] == y;
      if a == b {
        OnceOnly(found, a);
        Twice(sorted, i, j);
        assert false;
      }
    }
  }

  lemma OnceOnly(s: seq<Candidate>, a: nat)
    requires a < |s| && forall i, j | 0 <= i < j < |s| :: s[i].name != s[j].name
    ensures multiset(s)[s[a]] == 1
  {
    assert s == s[..a] + [s[a]] + s[a + 1..];
    assert s[a] !in s[..a] && s[a] !in s[a + 1..];
  }

  lemma Twice(s: seq<Candidate>, i: nat, j: nat)
    requires i < j < |s| && s[i] == s[j]
    ensures multiset(s)[s[i]] >= 2
  {
    assert s == s[..j] + [s[j]] + s[j + 1..];
    assert s[..j][i] == s[i];
  }

  lemma SortedStrictly(sorted: seq<Candidate>, i: nat, j: nat)
    requires Sorting.Sorted(sorted, Before) && i < j < |sorted| && sorted[i].name != sorted[j].name
    ensures Before(sorted[i], sorted[j])
  {
    BeforeTotal(sorted[i], sorted[j]);
  }

  lemma Position(found: seq<Candidate>, sorted: seq<Candidate>, c: Candidate) returns (i: nat)
    requires multiset(sorted) == multiset(found) && c in found
    ensures i < |sorted| && sorted[i] == c
  {
    assert c in multiset(sorted);
    i :| 0 <= i < |sorted| && sorted[i] == c;
  }

  lemma RankingFacts(all: seq<APIResource>, kind: string, sorted: seq<Candidate>, out: seq<string>)
    requires Sorting.Sorted(sorted, Before) && multiset(sorted) == multiset(Found(all, kind))
    requires |out| == Min(5, |sorted|) && forall k | 0 <= k < |out| :: out[k] == sorted[k].name
    ensures |sorted| == |Found(all, kind)|
    ensures forall i, j | 0 <= i < j < |out| :: out[i] != out[j]
    ensures forall l | l in out :: Listed(Found(all, kind), l)
    ensures KeptInOrder(out, Found(all, kind))
    ensures KeptComeFirst(out, Found(all, kind))
  {
    var found := Found(all, kind);
    assert |sorted| == |multiset(sorted)| == |multiset(found)| == |found|;
    FoundLabelsDistinct(all, kind);
    PermutedDistinct(found, sorted);
    forall l | l in out ensures Listed(found, l) {
      var k :| 0 <= k < |out| && out[k] == l;
      assert sorted[k] in multiset(found);
    }
    forall c, d, i, j | c in found && d in found && 0 <= i < j < |out| && c.name == out[i] && d.name == out[j]
      ensures Before(c, d)
    {
      var x := Position(found, sorted, c);
      var y := Position(found, sorted, d);
      assert sorted[x].name == sorted[i].name && sorted[y].name == sorted[j].name;
      SortedStrictly(sorted, x, y);
    }
    forall c, d | c in found && d in found && c.name in out && d.name !in out
      ensures Before(c, d)
    {
      var x := Position(found, sorted, c);
      var y := Position(found, sorted, d);
      var k :| 0 <= k < |out| && out[k] == c.name;
      assert sorted[x].name == sorted[k].name;
      SortedStrictly(sorted, x, y);
    }
  }
}
