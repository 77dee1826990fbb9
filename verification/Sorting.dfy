/** sort.Slice: a sorted permutation, for any comparison that is a strict weak order. */
module Sorting {

  ghost predicate StrictWeakOrder<T(!new)>(less: (T, T) -> bool)
  {
    && (forall x, y :: less(x, y) ==> !less(y, x))
    && (forall x, y, z :: !less(y, x) && !less(z, y) ==> !less(z, x))
  }

  ghost predicate Sorted<T(!new)>(s: seq<T>, less: (T, T) -> bool)
  {
    forall i, j | 0 <= i < j < |s| :: !less(s[j], s[i])
  }

  lemma InsertedSorted<T(!new)>(s: seq<T>, at: nat, c: T, less: (T, T) -> bool)
    requires StrictWeakOrder(less) && Sorted(s, less) && at <= |s|
    requires at > 0 ==> !less(c, s[at - 1])
    requires forall j | at <= j < |s| :: less(c, s[j])
    ensures Sorted(s[..at] + [c] + s[at..], less)
  {
    var r := s[..at] + [c] + s[at..];
    forall i | 0 <= i < at ensures !less(c, s[i]) {
      assert i < at - 1 ==> !less(s[at - 1], s[i]);
    }
    assert forall i | 0 <= i < |r| :: r[i] == if i < at then s[i] else if i == at then c else s[i - 1];
  }

  method Insert<T(!new)>(s: seq<T>, c: T, less: (T, T) -> bool) returns (r: seq<T>)
    requires StrictWeakOrder(less) && Sorted(s, less)
    ensures Sorted(r, less) && multiset(r) == multiset(s) + multiset{c}
  {
    var at := |s|;
    while at > 0 && less(c, s[at - 1])
      invariant 0 <= at <= |s|
      invariant forall j | at <= j < |s| :: less(c, s[j])
    {
      at := at - 1;
    }
    r := s[..at] + [c] + s[at..];
    assert s == s[..at] + s[at..];
    InsertedSorted(s, at, c, less);
  }

  method Sort<T(!new)>(s: seq<T>, less: (T, T) -> bool) returns (r: seq<T>)
    requires StrictWeakOrder(less)
    ensures Sorted(r, less) && multiset(r) == multiset(s)
  {
    r := [];
    for i := 0 to |s|
      invariant Sorted(r, less) && multiset(r) == multiset(s[..i])
    {
      assert s[..i + 1] == s[..i] + [s[i]];
      r := Insert(r, s[i], less);
    }
    assert s[..|s|] == s;
  }
}
