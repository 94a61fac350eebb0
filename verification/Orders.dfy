/** Sorting, as Python's `sorted` and `min` do it: stable, by a total order or by a key order. Sorting keeps
    the elements and puts them in order, and a set has only one listing in increasing order, so what is
    computed from a sorted set does not depend on how the set was built. The orders are those the
    repository sorts by: numbers, and text character by character. */
module Orders {

  /** A key order: any two elements compare, and comparison is transitive. */
  ghost predicate Preorder<T(!new)>(leq: (T, T) -> bool) {
    && (forall x, y :: leq(x, y) || leq(y, x))
    && (forall x, y, z :: leq(x, y) && leq(y, z) ==> leq(x, z))
  }

  ghost predicate TotalOrder<T(!new)>(leq: (T, T) -> bool) {
    && Preorder(leq)
    && (forall x, y :: leq(x, y) && leq(y, x) ==> x == y)
  }

  ghost predicate Ascending<T>(s: seq<T>, leq: (T, T) -> bool) {
    forall i, j :: 0 <= i < j < |s| ==> leq(s[i], s[j])
  }

  ghost predicate Distinct<T>(s: seq<T>) {
    forall i, j :: 0 <= i < j < |s| ==> s[i] != s[j]
  }

  function Elements<T>(s: seq<T>): set<T> {
    set x | x in s
  }

  /** `x` put before the first element it does not come after. */
  function Insert<T>(x: T, s: seq<T>, leq: (T, T) -> bool): seq<T> {
    if s == [] then [x]
    else if leq(x, s[0]) then [x] + s
    else [s[0]] + Insert(x, s[1..], leq)
  }

  /** Stable sorting. */
  function SortBy<T>(s: seq<T>, leq: (T, T) -> bool): seq<T> {
    if s == [] then [] else Insert(s[0], SortBy(s[1..], leq), leq)
  }

  /** `s` and `t` hold the same elements and `x` is below all of `t`. */
  lemma PrependLeast<T(!new)>(x: T, s: seq<T>, t: seq<T>, leq: (T, T) -> bool)
    requires Ascending(s, leq) && multiset(s) == multiset(t)
    requires forall y :: y in t ==> leq(x, y)
    ensures Ascending([x] + s, leq)
  {
    forall y | y in s ensures leq(x, y) {
      assert y in multiset(s);
      assert y in multiset(t);
    }
  }

  lemma InsertAfterHead<T(!new)>(x: T, s: seq<T>, leq: (T, T) -> bool)
    requires Preorder(leq) && Ascending(s, leq) && s != [] && !leq(x, s[0])
    requires Ascending(Insert(x, s[1..], leq), leq)
             && multiset(Insert(x, s[1..], leq)) == multiset(s[1..]) + multiset{x}
    ensures Ascending([s[0]] + Insert(x, s[1..], leq), leq)
  {
    hide Insert;
    assert leq(s[0], x);
    PrependLeast(s[0], Insert(x, s[1..], leq), [x] + s[1..], leq);
  }

  lemma {:induction false} InsertKeepsOrder<T(!new)>(x: T, s: seq<T>, leq: (T, T) -> bool)
    requires Preorder(leq) && Ascending(s, leq)
    ensures Ascending(Insert(x, s, leq), leq)
    ensures multiset(Insert(x, s, leq)) == multiset(s) + multiset{x}
  {
    if s != [] {
      assert s == [s[0]] + s[1..];
      if leq(x, s[0]) {
        PrependLeast(x, s, s, leq);
      } else {
        InsertKeepsOrder(x, s[1..], leq);
        InsertAfterHead(x, s, leq);
      }
    }
  }

  /** Sorting returns the same elements, as often, in order. */
  lemma {:induction false} SortBySorts<T(!new)>(s: seq<T>, leq: (T, T) -> bool)
    requires Preorder(leq)
    ensures Ascending(SortBy(s, leq), leq)
    ensures multiset(SortBy(s, leq)) == multiset(s)
    ensures |SortBy(s, leq)| == |s|
  {
    if s != [] {
      assert s == [s[0]] + s[1..];
      SortBySorts(s[1..], leq);
      InsertKeepsOrder(s[0], SortBy(s[1..], leq), leq);
    }
    assert |multiset(SortBy(s, leq))| == |multiset(s)|;
  }

  /** The elements that compare equal to `x`, in order. */
  function Tied<T>(s: seq<T>, x: T, leq: (T, T) -> bool): seq<T> {
    if s == [] then [] else (if leq(s[0], x) && leq(x, s[0]) then [s[0]] else []) + Tied(s[1..], x, leq)
  }

  lemma TiedFirst<T>(y: T, s: seq<T>, x: T, leq: (T, T) -> bool)
    ensures Tied([y] + s, x, leq) == (if leq(y, x) && leq(x, y) then [y] else []) + Tied(s, x, leq)
  {
    assert ([y] + s)[1..] == s;
  }

  /** An inserted element comes before those that tie with it, and moves no other. */
  lemma {:induction false} InsertKeepsTies<T(!new)>(y: T, s: seq<T>, x: T, leq: (T, T) -> bool)
    requires Preorder(leq)
    ensures Tied(Insert(y, s, leq), x, leq) == (if leq(y, x) && leq(x, y) then [y] else []) + Tied(s, x, leq)
  {
    if s == [] {
      TiedFirst(y, [], x, leq);
      assert [y] + [] == [y];
    } else {
      hide Tied;
      var first, rest := s[0], s[1..];
      assert s == [first] + rest;
      TiedFirst(first, rest, x, leq);
      if leq(y, first) {
        TiedFirst(y, s, x, leq);
      } else {
        InsertKeepsTies(y, rest, x, leq);
        TiedFirst(first, Insert(y, rest, leq), x, leq);
        assert leq(y, x) && leq(x, y) ==> !(leq(first, x) && leq(x, first));
      }
    }
  }

  /** Sorting leaves elements that compare equal in their order. */
  lemma {:induction false} SortByIsStable<T(!new)>(s: seq<T>, x: T, leq: (T, T) -> bool)
    requires Preorder(leq)
    ensures Tied(SortBy(s, leq), x, leq) == Tied(s, x, leq)
  {
    if s != [] {
      hide Insert, Tied;
      assert s == [s[0]] + s[1..];
      SortByIsStable(s[1..], x, leq);
      InsertKeepsTies(s[0], SortBy(s[1..], leq), x, leq);
      TiedFirst(s[0], s[1..], x, leq);
    }
  }

  lemma SameMultisetSameElements<T>(a: seq<T>, b: seq<T>)
    requires multiset(a) == multiset(b)
    ensures Elements(a) == Elements(b) && |a| == |b|
  {
    assert forall x :: x in a <==> x in multiset(a);
    assert forall x :: x in b <==> x in multiset(b);
    assert |a| == |multiset(a)| == |multiset(b)| == |b|;
  }

  lemma LeastFirst<T(!new)>(s: seq<T>, x: T, leq: (T, T) -> bool)
    requires TotalOrder(leq) && Ascending(s, leq) && x in s
    ensures leq(s[0], x)
  {}

  /** Two increasing listings of the same elements start alike and go on alike. */
  lemma SameLeast<T(!new)>(a: seq<T>, b: seq<T>, leq: (T, T) -> bool)
    requires TotalOrder(leq) && Ascending(a, leq) && Ascending(b, leq) && a != []
    requires multiset(a) == multiset(b)
    ensures b != [] && a[0] == b[0] && multiset(a[1..]) == multiset(b[1..])
    ensures Ascending(a[1..], leq) && Ascending(b[1..], leq)
  {
    assert a[0] in multiset(b);
    assert b[0] in multiset(a);
    LeastFirst(a, b[0], leq);
    LeastFirst(b, a[0], leq);
    TailMultiset(a);
    TailMultiset(b);
  }

  lemma TailMultiset<T>(s: seq<T>)
    requires s != []
    ensures multiset(s[1..]) == multiset(s) - multiset{s[0]}
  {
    assert s == [s[0]] + s[1..];
  }

  /** A set has only one listing in increasing order. */
  lemma {:induction false} SortedListingUnique<T(!new)>(a: seq<T>, b: seq<T>, leq: (T, T) -> bool)
    requires TotalOrder(leq) && Ascending(a, leq) && Ascending(b, leq)
    requires multiset(a) == multiset(b)
    ensures a == b
  {
    if a != [] {
      SameLeast(a, b, leq);
      SortedListingUnique(a[1..], b[1..], leq);
      assert a == [a[0]] + a[1..] && b == [b[0]] + b[1..];
    } else {
      SameMultisetSameElements(a, b);
    }
  }

  lemma {:induction false} DistinctMultiset<T>(s: seq<T>)
    ensures Distinct(s) ==> multiset(s) == multiset(Elements(s)) && |s| == |Elements(s)|
  {
    if s != [] && Distinct(s) {
      assert s == [s[0]] + s[1..];
      DistinctMultiset(s[1..]);
      assert Elements(s) == {s[0]} + Elements(s[1..]);
      assert s[0] !in s[1..];
    }
  }

  ghost function Listing<T>(s: set<T>): (r: seq<T>)
    ensures Elements(r) == s && Distinct(r)
  {
    if s == {} then [] else
      var x :| x in s;
      var rest := Listing(s - {x});
      assert Elements([x] + rest) == {x} + Elements(rest);
      [x] + rest
  }

  /** The elements of a set in increasing order, each once. */
  ghost function Sorted<T(!new)>(s: set<T>, leq: (T, T) -> bool): (r: seq<T>)
    requires TotalOrder(leq)
    ensures Elements(r) == s && Distinct(r) && Ascending(r, leq) && |r| == |s|
  {
    var listed := Listing(s);
    SortBySorts(listed, leq);
    SameMultisetSameElements(SortBy(listed, leq), listed);
    DistinctMultiset(listed);
    DistinctFromMultiset(SortBy(listed, leq));
    SortBy(listed, leq)
  }

  /** Only one listing of a set is distinct and increasing. */
  lemma SortedSetUnique<T(!new)>(r: seq<T>, leq: (T, T) -> bool)
    requires TotalOrder(leq) && Distinct(r) && Ascending(r, leq)
    ensures r == Sorted(Elements(r), leq)
  {
    var sorted := Sorted(Elements(r), leq);
    DistinctMultiset(r);
    DistinctMultiset(sorted);
    SortedListingUnique(r, sorted, leq);
  }

  method SortedSet<T(!new, ==)>(s: set<T>, leq: (T, T) -> bool) returns (r: seq<T>)
    requires TotalOrder(leq)
    ensures r == Sorted(s, leq) && forall x :: x in r <==> x in s
    ensures Elements(r) == s && Distinct(r) && Ascending(r, leq) && |r| == |s|
  {
    var rest, listed := s, [];
    while rest != {}
      invariant Elements(listed) == s - rest && rest <= s && Distinct(listed)
    {
      var x :| x in rest;
      assert x !in Elements(listed);
      assert Elements(listed + [x]) == Elements(listed) + {x};
      rest, listed := rest - {x}, listed + [x];
    }
    r := SortBy(listed, leq);
    SortBySorts(listed, leq);
    SameMultisetSameElements(r, listed);
    DistinctMultiset(listed);
    DistinctFromMultiset(r);
    SortedSetUnique(r, leq);
    assert forall x :: x in r <==> x in Elements(r);
  }

  lemma DistinctFromMultiset<T>(s: seq<T>)
    requires multiset(s) == multiset(Elements(s))
    ensures Distinct(s)
  {
    forall i, j | 0 <= i < j < |s| ensures s[i] != s[j] {
      assert s == s[..j] + [s[j]] + s[j + 1..];
      assert multiset(s) == multiset(s[..j]) + multiset{s[j]} + multiset(s[j + 1..]);
      assert s[j] in Elements(s);
      assert multiset(Elements(s))[s[j]] == 1;
      assert s[j] !in multiset(s[..j]);
      assert s[i] in s[..j];
    }
  }

  // --- The orders the repository sorts by ---

  predicate IntLeq(x: int, y: int) { x <= y }

  /** Python's order on strings: by the first character that differs, a prefix first. */
  predicate TextLeq(x: string, y: string) {
    x == [] || (y != [] && (x[0] < y[0] || (x[0] == y[0] && TextLeq(x[1..], y[1..]))))
  }

  /** Up to some place the texts agree, and there the first ends or has the smaller character. */
  ghost predicate TextBefore(x: string, y: string) {
    exists k: nat :: BeforeFrom(x, y, k)
  }

  ghost predicate BeforeFrom(x: string, y: string, k: nat) {
    && k <= |x| && k <= |y| && x[..k] == y[..k]
    && (k == |x| || (k < |y| && x[k] < y[k]))
  }

  /** What sorting by `TextLeq` means for the texts. */
  lemma {:induction false} TextLeqRead(x: string, y: string)
    ensures TextLeq(x, y) <==> TextBefore(x, y)
  {
    if x == [] {
      assert BeforeFrom(x, y, 0);
    } else if y != [] {
      TextLeqRead(x[1..], y[1..]);
      if x[0] < y[0] {
        assert BeforeFrom(x, y, 0);
      }
      if k: nat :| BeforeFrom(x[1..], y[1..], k) && x[0] == y[0] {
        assert x[..k + 1] == [x[0]] + x[1..][..k] && y[..k + 1] == [y[0]] + y[1..][..k];
        assert BeforeFrom(x, y, k + 1);
      }
      if k: nat :| BeforeFrom(x, y, k) && k > 0 {
        assert x[..k][0] == y[..k][0] && x[1..][..k - 1] == x[..k][1..] && y[1..][..k - 1] == y[..k][1..];
        assert BeforeFrom(x[1..], y[1..], k - 1);
      }
    }
  }

  lemma IntOrder()
    ensures TotalOrder(IntLeq)
  {}

  lemma {:induction false} TextLeqTotal(x: string, y: string)
    ensures TextLeq(x, y) || TextLeq(y, x)
    ensures TextLeq(x, y) && TextLeq(y, x) ==> x == y
  {
    if x != [] && y != [] {
      TextLeqTotal(x[1..], y[1..]);
      assert x == [x[0]] + x[1..] && y == [y[0]] + y[1..];
    }
  }

  lemma {:induction false} TextLeqTransitive(x: string, y: string, z: string)
    requires TextLeq(x, y) && TextLeq(y, z)
    ensures TextLeq(x, z)
  {
    if x != [] && x[0] == y[0] == z[0] {
      TextLeqTransitive(x[1..], y[1..], z[1..]);
    }
  }

  lemma TextOrder()
    ensures TotalOrder(TextLeq)
  {
    forall x, y ensures (TextLeq(x, y) || TextLeq(y, x)) && (TextLeq(x, y) && TextLeq(y, x) ==> x == y) {
      TextLeqTotal(x, y);
    }
    forall x, y, z | TextLeq(x, y) && TextLeq(y, z) ensures TextLeq(x, z) {
      TextLeqTransitive(x, y, z);
    }
  }

  // --- Bags without one element ---

  lemma WithoutOne<T>(a: seq<T>, i: nat)
    requires i < |a|
    ensures multiset(a[..i] + a[i + 1..]) + multiset{a[i]} == multiset(a)
  {
    assert a == a[..i] + [a[i]] + a[i + 1..];
  }

  lemma CancelOne<T>(x: multiset<T>, y: multiset<T>, e: T)
    requires x + multiset{e} == y + multiset{e}
    ensures x == y
  {
    assert x == (x + multiset{e}) - multiset{e};
    assert y == (y + multiset{e}) - multiset{e};
  }
}
