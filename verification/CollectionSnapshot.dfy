/** The gate's bounded, paged read of a selection, and the comparison of two such reads. */
module CollectionSnapshot {
  import opened Results
  import Sorting
  import Text

  const MAX_PAGES := 100
  const MAX_TARGETS := 10000

  /** `typed` stands for the kind and apiVersion checks of a metadata-only item. */
  datatype Item = Item(typed: bool, name: string, namespace: string, uid: string, resourceVersion: string)

  /** `typed` stands for the kind and apiVersion checks of a metadata-only list. */
  datatype Page = Page(typed: bool, resourceVersion: string, items: seq<Item>, next: string, remaining: Option<int>)

  datatype Answer = Failed | Undecodable | Answered(page: Page)

  datatype Target = Target(name: string, namespace: string, uid: string, resourceVersion: string)

  datatype Refusal = ReadFailed | NotMetadata | NotOneVersion | TooManyTargets | BadTarget | DuplicateTarget | Incomplete | RepeatedCursor | TooManyPages

  predicate GoodItem(item: Item, namespace: string)
  {
    item.typed && item.name != "" && item.namespace == namespace && item.uid != "" && item.resourceVersion != ""
  }

  predicate GoodRemaining(page: Page)
  {
    page.remaining.Some? ==> page.remaining.value >= 0 && (page.next == "" ==> page.remaining.value == 0)
  }

  function TargetOf(item: Item): Target
  {
    Target(item.name, item.namespace, item.uid, item.resourceVersion)
  }

  function TargetsOf(items: seq<Item>): (r: seq<Target>)
    ensures |r| == |items|
  {
    seq(|items|, i requires 0 <= i < |items| => TargetOf(items[i]))
  }

  /** All items of the first n pages, in the order they arrive. */
  function Items(answers: nat -> Answer, n: nat): seq<Item>
  {
    if n == 0 then []
    else Items(answers, n - 1) + if answers(n - 1).Answered? then answers(n - 1).page.items else []
  }

  predicate GoodPage(answers: nat -> Answer, i: nat, namespace: string)
  {
    && answers(i).Answered? && answers(0).Answered?
    && var page := answers(i).page;
    && page.typed && page.resourceVersion != "" && page.resourceVersion == answers(0).page.resourceVersion
    && GoodRemaining(page)
    && forall item | item in page.items :: GoodItem(item, namespace)
  }

  predicate DistinctNames(items: seq<Item>)
  {
    forall i, j | 0 <= i < j < |items| :: items[i].name != items[j].name
  }

  /** The first n pages are good, each but possibly the last names a fresh continuation, and nothing repeats. */
  predicate GoodPrefix(answers: nat -> Answer, n: nat, namespace: string)
  {
    && (forall i | 0 <= i < n :: GoodPage(answers, i, namespace))
    && DistinctNames(Items(answers, n))
    && |Items(answers, n)| <= MAX_TARGETS
  }

  predicate FreshCursors(answers: nat -> Answer, n: nat)
  {
    && (forall i | 0 <= i < n :: answers(i).Answered? && answers(i).page.next != "")
    && forall i, j | 0 <= i < j < n :: answers(i).page.next != answers(j).page.next
  }

  /** A complete listing of one version: page n - 1 is the last one. */
  predicate Complete(answers: nat -> Answer, n: nat, namespace: string)
  {
    && 1 <= n <= MAX_PAGES
    && GoodPrefix(answers, n, namespace)
    && FreshCursors(answers, n - 1)
    && answers(n - 1).Answered? && answers(n - 1).page.next == ""
  }

  /** What the reader sends to ask for page i: where the page before it said it goes on. */
  function CursorFor(answers: nat -> Answer, i: nat): string
  {
    if i > 0 && answers(i - 1).Answered? then answers(i - 1).page.next else ""
  }

  predicate ByName(x: Target, y: Target)
  {
    Text.Less(x.name, y.name)
  }

  lemma ByNameIsOrder()
    ensures Sorting.StrictWeakOrder(ByName)
  {
    forall x, y ensures ByName(x, y) ==> !ByName(y, x) {
      Text.LessTotal(x.name, y.name);
    }
    forall x, y, z | !ByName(y, x) && !ByName(z, y) ensures !ByName(z, x) {
      Text.LessTotal(x.name, y.name);
      Text.LessTotal(y.name, z.name);
      Text.LessTotal(x.name, z.name);
      if ByName(x, y) && ByName(y, z) {
        Text.LessTransitive(x.name, y.name, z.name);
      }
    }
  }

  predicate StrictlySorted(targets: seq<Target>)
  {
    forall i, j | 0 <= i < j < |targets| :: ByName(targets[i], targets[j])
  }

  /** What a snapshot is: every item of a complete listing and nothing else, strictly ordered by name. */
  predicate SnapshotOf(targets: seq<Target>, items: seq<Item>, namespace: string)
  {
    && multiset(targets) == multiset(TargetsOf(items))
    && StrictlySorted(targets)
    && |targets| <= MAX_TARGETS
    && forall t | t in targets :: t.namespace == namespace
  }

  /** The items of one page: each checked and appended, or the read refused. */
  method TakePage(items: seq<Item>, namespace: string, ghost before: seq<Item>, names: set<string>) returns (bad: Option<Refusal>, all: set<string>)
    requires names == set item | item in before :: item.name
    requires DistinctNames(before)
    ensures bad.None? <==> (forall item | item in items :: GoodItem(item, namespace)) && DistinctNames(before + items)
    ensures bad.None? ==> all == set item | item in before + items :: item.name
  {
    all := names;
    ghost var whole := before + items;
    for i := 0 to |items|
      invariant forall item | item in items[..i] :: GoodItem(item, namespace)
      invariant DistinctNames(before + items[..i])
      invariant all == set item | item in before + items[..i] :: item.name
    {
      var item := items[i];
      ghost var taken := before + items[..i];
      assert forall k | 0 <= k < |taken| :: taken[k] == whole[k];
      assert whole[|taken|] == item;
      if !GoodItem(item, namespace) {
        assert item in items;
        return Some(BadTarget), all;
      }
      if item.name in all {
        ghost var other :| other in taken && other.name == item.name;
        ghost var k :| 0 <= k < |taken| && taken[k] == other;
        assert whole[k].name == whole[|taken|].name;
        return Some(DuplicateTarget), all;
      }
      assert before + items[..i + 1] == taken + [item];
      forall k | 0 <= k < |taken| ensures taken[k].name != item.name {
        assert taken[k] in taken;
      }
      all := all + {item.name};
    }
    assert items[..|items|] == items;
    bad := None;
  }

  /** The checks on one page before its targets are taken: it is refused exactly when the listing stops being good. */
  method CheckPage(answers: nat -> Answer, pageIndex: nat, namespace: string, version: string, taken: nat, names: set<string>)
    returns (bad: Option<Refusal>, all: set<string>)
    requires GoodPrefix(answers, pageIndex, namespace) && taken == |Items(answers, pageIndex)|
    requires pageIndex > 0 ==> answers(0).Answered? && version == answers(0).page.resourceVersion
    requires names == set item | item in Items(answers, pageIndex) :: item.name
    ensures bad.None? <==> GoodPrefix(answers, pageIndex + 1, namespace)
    ensures bad.None? ==> all == set item | item in Items(answers, pageIndex + 1) :: item.name
  {
    all := names;
    NextGoodPrefix(answers, pageIndex, namespace);
    assert pageIndex > 0 ==> GoodPage(answers, 0, namespace);
    if !answers(pageIndex).Answered? {
      return Some(ReadFailed), all;
    }
    var page := answers(pageIndex).page;
    if !page.typed {
      return Some(NotMetadata), all;
    }
    if page.resourceVersion == "" || (pageIndex > 0 && page.resourceVersion != version) {
      return Some(NotOneVersion), all;
    }
    if taken + |page.items| > MAX_TARGETS {
      return Some(TooManyTargets), all;
    }
    bad, all := TakePage(page.items, namespace, Items(answers, pageIndex), names);
    if bad.Some? {
      return;
    }
    if page.remaining.Some? && (page.remaining.value < 0 || (page.next == "" && page.remaining.value != 0)) {
      return Some(Incomplete), all;
    }
  }

  /** What one more page adds to a good listing. */
  lemma NextGoodPrefix(answers: nat -> Answer, k: nat, namespace: string)
    requires GoodPrefix(answers, k, namespace)
    ensures GoodPrefix(answers, k + 1, namespace) <==>
      && GoodPage(answers, k, namespace)
      && DistinctNames(Items(answers, k) + answers(k).page.items)
      && |Items(answers, k)| + |answers(k).page.items| <= MAX_TARGETS
  {
    if answers(k).Answered? { assert Items(answers, k + 1) == Items(answers, k) + answers(k).page.items; }
    if GoodPrefix(answers, k + 1, namespace) { assert GoodPage(answers, k, namespace); }
  }

  /** The sort that ends a listing. */
  method SortTargets(targets: seq<Target>, ghost answers: nat -> Answer, ghost n: nat, ghost namespace: string) returns (sorted: seq<Target>)
    requires targets == TargetsOf(Items(answers, n)) && GoodPrefix(answers, n, namespace)
    ensures SnapshotOf(sorted, Items(answers, n), namespace)
  {
    ByNameIsOrder();
    sorted := Sorting.Sort(targets, ByName);
    AllGood(answers, n, namespace);
    SortedSnapshot(sorted, Items(answers, n), namespace);
  }

  /** The continuations that the first n pages named. */
  function CursorsSeen(answers: nat -> Answer, n: nat): set<string>
  {
    set i | 0 <= i < n && answers(i).Answered? :: answers(i).page.next
  }

  /** A listing goes on with a continuation that is not empty and not named before. */
  lemma OneMoreCursor(answers: nat -> Answer, k: nat)
    requires FreshCursors(answers, k) && answers(k).Answered?
    ensures CursorsSeen(answers, k + 1) == CursorsSeen(answers, k) + {answers(k).page.next}
    ensures FreshCursors(answers, k + 1) <==> answers(k).page.next != "" && answers(k).page.next !in CursorsSeen(answers, k)
  {
  }

  /** Some number of pages is a complete listing. */
  ghost predicate Listable(answers: nat -> Answer, namespace: string)
  {
    exists n: nat :: Complete(answers, n, namespace)
  }

  /** The page loop. */
  method ReadPages(namespace: string, answers: nat -> Answer) returns (out: Result<seq<Target>, Refusal>, cursors: seq<string>)
    ensures |cursors| <= MAX_PAGES && forall i | 0 <= i < |cursors| :: cursors[i] == CursorFor(answers, i)
    ensures out.Ok? <==> Listable(answers, namespace)
    ensures out.Ok? ==> Complete(answers, |cursors|, namespace) && SnapshotOf(out.value, Items(answers, |cursors|), namespace)
  {
    cursors := [];
    var targets: seq<Target> := [];
    var version, cursor := "", "";
    var names: set<string> := {};
    var seenCursors: set<string> := {};
    for pageIndex := 0 to MAX_PAGES
      invariant |cursors| == pageIndex && forall i | 0 <= i < |cursors| :: cursors[i] == CursorFor(answers, i)
      invariant cursor == CursorFor(answers, pageIndex)
      invariant GoodPrefix(answers, pageIndex, namespace) && FreshCursors(answers, pageIndex)
      invariant pageIndex > 0 ==> answers(0).Answered? && version == answers(0).page.resourceVersion
      invariant targets == TargetsOf(Items(answers, pageIndex))
      invariant names == set item | item in Items(answers, pageIndex) :: item.name
      invariant seenCursors == CursorsSeen(answers, pageIndex)
    {
      cursors := cursors + [cursor];
      var bad;
      bad, names := CheckPage(answers, pageIndex, namespace, version, |targets|, names);
      if bad.Some? {
        NoLonger(answers, pageIndex, namespace);
        return Err(bad.value), cursors;
      }
      assert GoodPage(answers, pageIndex, namespace);
      var page := answers(pageIndex).page;
      version := page.resourceVersion;
      MoreTargets(answers, pageIndex);
      targets := targets + TargetsOf(page.items);
      if page.next == "" {
        assert Complete(answers, pageIndex + 1, namespace);
        var sorted := SortTargets(targets, answers, pageIndex + 1, namespace);
        return Ok(sorted), cursors;
      }
      OneMoreCursor(answers, pageIndex);
      if page.next in seenCursors {
        NoLonger(answers, pageIndex, namespace);
        return Err(RepeatedCursor), cursors;
      }
      seenCursors := seenCursors + {page.next};
      cursor := page.next;
    }
    NoLonger(answers, MAX_PAGES, namespace);
    return Err(TooManyPages), cursors;
  }

  lemma MoreTargets(answers: nat -> Answer, k: nat)
    requires answers(k).Answered?
    ensures TargetsOf(Items(answers, k + 1)) == TargetsOf(Items(answers, k)) + TargetsOf(answers(k).page.items)
  {
    assert Items(answers, k + 1) == Items(answers, k) + answers(k).page.items;
  }

  /**
   * ListTargets, after the kind has been resolved: the namespace check and the page loop. `cursors` is what
   * the reader sends as `continue`, request by request.
   */
  method ListTargets(namespace: string, validNamespace: bool, answers: nat -> Answer)
    returns (out: Result<seq<Target>, Refusal>, cursors: seq<string>)
    ensures |cursors| <= MAX_PAGES && forall i | 0 <= i < |cursors| :: cursors[i] == CursorFor(answers, i)
    ensures out.Ok? <==> validNamespace && namespace != "" && Listable(answers, namespace)
    ensures out.Ok? ==> Complete(answers, |cursors|, namespace) && SnapshotOf(out.value, Items(answers, |cursors|), namespace)
  {
    if namespace == "" || !validNamespace {
      return Err(BadTarget), [];
    }
    out, cursors := ReadPages(namespace, answers);
  }

  lemma {:induction false} ItemsPrefix(answers: nat -> Answer, m: nat, n: nat)
    requires m <= n
    ensures |Items(answers, m)| <= |Items(answers, n)| && Items(answers, n)[..|Items(answers, m)|] == Items(answers, m)
  {
    if m < n {
      ItemsPrefix(answers, m, n - 1);
    }
  }

  lemma {:induction false} AllGood(answers: nat -> Answer, n: nat, namespace: string)
    requires forall i | 0 <= i < n :: GoodPage(answers, i, namespace)
    ensures forall item | item in Items(answers, n) :: GoodItem(item, namespace)
  {
    if n > 0 {
      AllGood(answers, n - 1, namespace);
      assert GoodPage(answers, n - 1, namespace);
    }
  }

  /** Once a page does not go on, no complete listing lies ahead. */
  lemma NoLonger(answers: nat -> Answer, k: nat, namespace: string)
    requires FreshCursors(answers, k)
    requires k == MAX_PAGES || !GoodPrefix(answers, k + 1, namespace) || (answers(k).Answered? && answers(k).page.next != "" && !FreshCursors(answers, k + 1))
    ensures !Listable(answers, namespace)
  {
    forall n: nat | Complete(answers, n, namespace) ensures false {
      if n > k { ShorterIsGood(answers, k + 1, n, namespace); }
    }
  }

  lemma ShorterIsGood(answers: nat -> Answer, m: nat, n: nat, namespace: string)
    requires m <= n && GoodPrefix(answers, n, namespace)
    ensures GoodPrefix(answers, m, namespace)
  {
    ItemsPrefix(answers, m, n);
    var short, long := Items(answers, m), Items(answers, n);
    assert forall i | 0 <= i < |short| :: short[i] == long[i];
  }

  lemma SortedSnapshot(sorted: seq<Target>, items: seq<Item>, namespace: string)
    requires Sorting.Sorted(sorted, ByName) && multiset(sorted) == multiset(TargetsOf(items))
    requires DistinctNames(items) && |items| <= MAX_TARGETS
    requires forall item | item in items :: GoodItem(item, namespace)
    ensures SnapshotOf(sorted, items, namespace)
  {
    var targets := TargetsOf(items);
    assert |sorted| == |multiset(sorted)| == |targets|;
    forall t | t in sorted ensures t.namespace == namespace {
      assert t in multiset(targets);
      var i :| 0 <= i < |targets| && targets[i] == t;
      assert items[i] in items;
    }
    forall i, j | 0 <= i < j < |sorted| ensures ByName(sorted[i], sorted[j]) {
      DistinctStay(targets, sorted, i, j);
      Text.LessTotal(sorted[i].name, sorted[j].name);
    }
  }

  lemma DistinctStay(targets: seq<Target>, sorted: seq<Target>, i: nat, j: nat)
    requires multiset(sorted) == multiset(targets) && i < j < |sorted|
    requires forall a, b | 0 <= a < b < |targets| :: targets[a].name != targets[b].name
    ensures sorted[i].name != sorted[j].name
  {
    var x, y := sorted[i], sorted[j];
    assert x in multiset(targets) && y in multiset(targets);
    var a :| 0 <= a < |targets| && targets[a] == x;
    assert targets == targets[..a] + [x] + targets[a + 1..];
    assert x !in targets[..a] && x !in targets[a + 1..];
    assert multiset(targets)[x] == 1;
    assert sorted == sorted[..j] + [y] + sorted[j + 1..];
    assert sorted[..j][i] == x;
    assert multiset(sorted[..j])[x] >= 1;
    var b :| 0 <= b < |targets| && targets[b] == y;
  }

  /** sameTargets: position by position. */
  method SameTargets(approved: seq<Target>, current: seq<Target>) returns (same: bool)
    ensures same <==> approved == current
  {
    if |approved| != |current| {
      return false;
    }
    for i := 0 to |approved|
      invariant approved[..i] == current[..i]
    {
      if approved[i] != current[i] {
        return false;
      }
      assert approved[..i + 1] == approved[..i] + [approved[i]] && current[..i + 1] == current[..i] + [current[i]];
    }
    assert approved[..|approved|] == approved && current[..|current|] == current;
    same := true;
  }

  /** Two snapshots agree position by position exactly when they hold the same set of objects in the same states. */
  lemma {:induction false} SameTargetsIsSetEquality(approved: seq<Target>, current: seq<Target>)
    requires StrictlySorted(approved) && StrictlySorted(current)
    ensures approved == current <==> (set t | t in approved) == (set t | t in current)
  {
    var x, y := set t | t in approved, set t | t in current;
    if x == y {
      assert forall t :: t in approved <==> t in x;
      assert forall t :: t in current <==> t in y;
      SortedSetsAgree(approved, current);
    }
  }

  lemma HasMember(s: seq<Target>)
    ensures s == [] || exists t :: t in s
  {
    if s != [] { assert s[0] in s; }
  }

  lemma {:induction false} SortedSetsAgree(a: seq<Target>, b: seq<Target>)
    requires StrictlySorted(a) && StrictlySorted(b)
    requires forall t :: t in a <==> t in b
    ensures a == b
  {
    if a != [] && b != [] {
      Text.LessTotal(a[0].name, b[0].name);
      assert a[0] in b && b[0] in a;
      assert a[0] == b[0];
      Text.LessTotal(a[0].name, a[0].name);
      assert a == [a[0]] + a[1..] && b == [b[0]] + b[1..];
      assert a[0] !in a[1..] && b[0] !in b[1..];
      forall t ensures t in a[1..] <==> t in b[1..] {
        assert t in a <==> t == a[0] || t in a[1..];
        assert t in b <==> t == b[0] || t in b[1..];
      }
      SortedSetsAgree(a[1..], b[1..]);
    } else {
      HasMember(a);
      HasMember(b);
    }
  }
}
