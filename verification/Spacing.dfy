/** Picking evenly spaced items by integer rounding. Of `total` items `count` are picked: the first and the
    last, and between them the items nearest to equal steps. Every index is computed with integers alone, by
    adding half a step before dividing, so the picks never depend on how a fraction would be rounded. */
module Spacing {

  /** The rounded index of pick `i` when `count` of `total` items are picked. */
  function SpacedIndex(i: nat, total: nat, count: nat): nat
    requires count >= 2 && total >= 1
  {
    (i * (total - 1) + (count - 1) / 2) / (count - 1)
  }

  /** The picks themselves: everything when there is room for it, and otherwise the items at the rounded
      indices. */
  function Spaced<T>(items: seq<T>, count: int): (picked: seq<T>)
    ensures |picked| == if count <= 0 then 0 else if count <= |items| then count else |items|
  {
    var total := |items|;
    if count >= total then items
    else if count <= 0 then []
    else if count == 1 then [items[0]]
    else
      seq(count, i requires 0 <= i < count =>
            (SpacedIndexInRange(i, total, count); items[SpacedIndex(i, total, count)]))
  }

  lemma DivisionBounds(x: int, c: int)
    requires c > 0
    ensures c * (x / c) <= x < c * (x / c) + c
  {}

  lemma QuotientUnique(x: int, c: int, q: int)
    requires c > 0 && c * q <= x < c * q + c
    ensures x / c == q
  {
    DivisionBounds(x, c);
    Multiples(c, x / c, q);
    Multiples(c, q, x / c);
  }

  lemma Multiples(c: int, d: int, q: int)
    requires c > 0
    ensures d < q ==> c * d + c <= c * q
  {
    var more := q - d;
    assert c * q == c * d + c * more;
    assert more >= 1 ==> c * more == c * (more - 1) + c && c * (more - 1) >= 0;
  }

  /** The pick is within half a step of its exact position: twice the distance of `index * (count - 1)`
      from `i * (total - 1)` is at most `count - 1`. */
  lemma SpacedIndexNearExact(i: nat, total: nat, count: nat)
    requires count >= 2 && total >= 1
    ensures var d := SpacedIndex(i, total, count) * (count - 1) - i * (total - 1);
            -(count - 1) <= 2 * d <= count - 1
  {
    var c := count - 1;
    var x := i * (total - 1) + c / 2;
    DivisionBounds(x, c);
    assert c * (x / c) == (x / c) * c;
  }

  lemma SpacedEnds(total: nat, count: nat)
    requires count >= 2 && total >= 1
    ensures SpacedIndex(0, total, count) == 0
    ensures SpacedIndex(count - 1, total, count) == total - 1
  {
    var c, t := count - 1, total - 1;
    assert 0 * t == 0;
    QuotientUnique(0 * t + c / 2, c, 0);
    QuotientUnique(c * t + c / 2, c, t);
  }

  /** Consecutive picks are one of two neighbouring distances apart. */
  lemma SpacedGap(i: nat, total: nat, count: nat)
    requires count >= 2 && total >= 1
    ensures var gap := SpacedIndex(i + 1, total, count) - SpacedIndex(i, total, count);
            var step := (total - 1) / (count - 1);
            step <= gap <= step + 1
  {
    var c, t := count - 1, total - 1;
    var x := i * t + c / 2;
    assert (i + 1) * t + c / 2 == x + t;
    DivisionBounds(x, c);
    DivisionBounds(t, c);
    var q := x / c + t / c;
    assert c * q == c * (x / c) + c * (t / c);
    if x + t < c * q + c {
      QuotientUnique(x + t, c, q);
    } else {
      assert c * (q + 1) == c * q + c;
      QuotientUnique(x + t, c, q + 1);
    }
  }

  /** With more items than picks the indices strictly increase. */
  lemma {:induction false} SpacedIncreasing(i: nat, j: nat, total: nat, count: nat)
    requires 2 <= count < total && i < j
    ensures SpacedIndex(i, total, count) < SpacedIndex(j, total, count)
    decreases j
  {
    var c, t := count - 1, total - 1;
    DivisionBounds(t, c);
    Multiples(c, t / c, 1);
    SpacedGap(j - 1, total, count);
    if i < j - 1 {
      SpacedIncreasing(i, j - 1, total, count);
    }
  }

  lemma SpacedIndexInRange(i: nat, total: nat, count: nat)
    requires 2 <= count < total && i < count
    ensures SpacedIndex(i, total, count) < total
  {
    SpacedEnds(total, count);
    if i < count - 1 {
      SpacedIncreasing(i, count - 1, total, count);
    }
  }

  /** Any two gaps differ by at most one. */
  lemma SpacedEvenly(i: nat, j: nat, total: nat, count: nat)
    requires 2 <= count < total && i + 1 < count && j + 1 < count
    ensures var gapI := SpacedIndex(i + 1, total, count) - SpacedIndex(i, total, count);
            var gapJ := SpacedIndex(j + 1, total, count) - SpacedIndex(j, total, count);
            -1 <= gapI - gapJ <= 1 && gapI >= 1
  {
    SpacedGap(i, total, count);
    SpacedGap(j, total, count);
    SpacedIncreasing(i, i + 1, total, count);
  }

  /** `picked` is `items` with some left out, the order kept. */
  ghost predicate IsSelection<T>(picked: seq<T>, items: seq<T>, at: seq<nat>) {
    && |at| == |picked|
    && (forall i :: 0 <= i < |at| ==> at[i] < |items| && items[at[i]] == picked[i])
    && (forall i, j :: 0 <= i < j < |at| ==> at[i] < at[j])
  }

  /** Picking keeps the order and picks no item twice; the first and the last item are among two or more
      picks. */
  lemma SpacedSelects<T>(items: seq<T>, count: int) returns (at: seq<nat>)
    ensures IsSelection(Spaced(items, count), items, at)
    ensures count >= 1 && items != [] ==> Spaced(items, count)[0] == items[0]
    ensures count >= 2 && items != [] ==> Spaced(items, count)[|Spaced(items, count)| - 1] == items[|items| - 1]
  {
    hide SpacedIndex;
    var total := |items|;
    if count >= total {
      at := seq(total, i => i);
    } else if count <= 0 {
      at := [];
    } else if count == 1 {
      at := [0];
    } else {
      at := ManySelected(items, count);
    }
  }

  lemma ManySelected<T>(items: seq<T>, count: nat) returns (at: seq<nat>)
    requires 2 <= count < |items|
    ensures IsSelection(Spaced(items, count), items, at)
    ensures Spaced(items, count)[0] == items[0] && Spaced(items, count)[count - 1] == items[|items| - 1]
  {
    hide SpacedIndex;
    var total := |items|;
    at := seq(count, i requires 0 <= i < count => SpacedIndex(i, total, count));
    forall i, j | 0 <= i < j < count ensures at[i] < at[j] {
      SpacedIncreasing(i, j, total, count);
    }
    forall i | 0 <= i < count ensures at[i] < total && Spaced(items, count)[i] == items[at[i]] {
      SpacedIndexInRange(i, total, count);
    }
    SpacedEnds(total, count);
  }
}
