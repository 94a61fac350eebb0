/** The verified-story cache: what its locked sections do to the ordered dictionary. */
module StoryCache {
  import opened Results

  type RunId = string
  type Fingerprint = string
  type Story = string

  /** One cached story and the fingerprint of the content it was built from. */
  datatype Entry = Entry(run: RunId, fingerprint: Fingerprint, story: Story)

  ghost predicate DistinctRuns(items: seq<Entry>) {
    forall i, j :: 0 <= i < j < |items| ==> items[i].run != items[j].run
  }

  /** The entry of a run: the dictionary lookup. */
  function Find(items: seq<Entry>, run: RunId): Option<Entry> {
    if items == [] then None
    else if items[0].run == run then Some(items[0])
    else Find(items[1..], run)
  }

  /** The items without a run's entry, the others in their order. */
  function Without(items: seq<Entry>, run: RunId): seq<Entry> {
    if items == [] then []
    else if items[0].run == run then Without(items[1..], run)
    else [items[0]] + Without(items[1..], run)
  }

  /** The items with one entry made the most recent. */
  function Touched(items: seq<Entry>, e: Entry): seq<Entry> {
    Without(items, e.run) + [e]
  }

  /** Dropping from the least recent end until the limit is met. */
  function Evicted(items: seq<Entry>, limit: nat): seq<Entry> {
    if |items| <= limit then items else items[|items| - limit..]
  }

  lemma EvictOldest(items: seq<Entry>, limit: nat)
    requires |items| > limit
    ensures Evicted(items[1..], limit) == Evicted(items, limit)
  {}

  lemma NothingEvicted(items: seq<Entry>, limit: nat)
    requires |items| <= limit
    ensures Evicted(items, limit) == items
  {}

  lemma EvictedFits(items: seq<Entry>, limit: nat)
    requires DistinctRuns(items)
    ensures DistinctRuns(Evicted(items, limit)) && |Evicted(items, limit)| <= limit
  {}

  predicate IsHit(items: seq<Entry>, run: RunId, before: Option<Fingerprint>) {
    var entry := Find(items, run);
    before.Some? && entry.Some? && entry.value.fingerprint == before.value
  }

  /** What the first locked section of `get` leaves: a hit becomes the most recent entry, a stale entry is
      removed. */
  function AfterLookup(items: seq<Entry>, run: RunId, before: Option<Fingerprint>): seq<Entry> {
    if IsHit(items, run, before) then Touched(items, Find(items, run).value) else Without(items, run)
  }

  /** What the second locked section leaves. */
  function AfterStore(items: seq<Entry>, e: Entry, limit: nat): seq<Entry> {
    Evicted(Touched(items, e), limit)
  }

  lemma {:induction false} WithoutFacts(items: seq<Entry>, run: RunId)
    requires DistinctRuns(items)
    ensures DistinctRuns(Without(items, run)) && forall e :: e in Without(items, run) <==> e in items && e.run != run
    ensures |Without(items, run)| == |items| - if Find(items, run).Some? then 1 else 0
    ensures Find(items, run).Some? ==> Find(items, run).value in items && Find(items, run).value.run == run
    ensures Find(items, run).None? ==> forall e <- items :: e.run != run
  {
    if items != [] {
      var rest := items[1..];
      assert items == [items[0]] + rest;
      assert forall e <- rest :: e.run != items[0].run;
      WithoutFacts(rest, run);
    }
  }

  lemma TouchedFacts(items: seq<Entry>, e: Entry)
    requires DistinctRuns(items)
    ensures DistinctRuns(Touched(items, e))
    ensures forall x :: x in Touched(items, e) <==> x == e || (x in items && x.run != e.run)
  {
    WithoutFacts(items, e.run);
  }

  /** The cache object. Each method is one locked section. */
  class Cache {
    const limit: nat
    var items: seq<Entry>

    constructor (limit: nat)
      ensures this.limit == limit && items == [] && Valid()
    {
      this.limit := limit;
      items := [];
    }

    ghost predicate Valid()
      reads this
    {
      DistinctRuns(items) && |items| <= limit
    }

    method Lookup(run: RunId, before: Option<Fingerprint>) returns (story: Option<Story>)
      requires Valid()
      modifies this
      ensures Valid() && items == AfterLookup(old(items), run, before)
      ensures story == if IsHit(old(items), run, before) then Some(Find(old(items), run).value.story) else None
    {
      WithoutFacts(items, run);
      var entry := Find(items, run);
      if entry.Some? {
        if before.Some? && entry.value.fingerprint == before.value {
          TouchedFacts(items, entry.value);
          items := Without(items, run) + [entry.value];
          return Some(entry.value.story);
        }
        items := Without(items, run);
      } else {
        WithoutAbsent(items, run);
      }
      story := None;
    }

    method Store(run: RunId, before: Fingerprint, story: Story)
      requires Valid()
      modifies this
      ensures Valid() && items == AfterStore(old(items), Entry(run, before, story), limit)
    {
      hide Without, Find, DistinctRuns, Evicted;
      var e := Entry(run, before, story);
      TouchedFacts(items, e);
      items := Without(items, run) + [e];
      ghost var kept := Evicted(items, limit);
      EvictedFits(items, limit);
      while |items| > limit
        invariant Evicted(items, limit) == kept
      {
        EvictOldest(items, limit);
        items := items[1..];
      }
      NothingEvicted(items, limit);
    }

    method Clear()
      requires Valid()
      modifies this
      ensures Valid() && items == []
    {
      items := [];
    }
  }

  lemma {:induction false} WithoutAbsent(items: seq<Entry>, run: RunId)
    requires Find(items, run).None?
    ensures Without(items, run) == items
  {
    if items != [] {
      WithoutAbsent(items[1..], run);
    }
  }

  // --- What a lookup leaves ---

  /** One entry stands somewhere before another. */
  ghost predicate Before(items: seq<Entry>, a: Entry, b: Entry) {
    exists i, j :: 0 <= i < j < |items| && items[i] == a && items[j] == b
  }

  lemma BeforeFirst(items: seq<Entry>, x: Entry, a: Entry, b: Entry)
    ensures Before([x] + items, a, b) <==> Before(items, a, b) || (x == a && b in items)
  {
    var all := [x] + items;
    if Before(items, a, b) {
      var i, j :| 0 <= i < j < |items| && items[i] == a && items[j] == b;
      assert all[i + 1] == a && all[j + 1] == b;
    }
    if x == a && b in items {
      var j :| 0 <= j < |items| && items[j] == b;
      assert all[0] == a && all[j + 1] == b;
    }
    if i, j :| 0 <= i < j < |all| && all[i] == a && all[j] == b {
      assert items[j - 1] == b && (i > 0 ==> items[i - 1] == a);
    }
  }

  lemma {:induction false} OthersStayInOrder(items: seq<Entry>, run: RunId, a: Entry, b: Entry)
    requires a.run != run && b.run != run
    ensures Before(Without(items, run), a, b) <==> Before(items, a, b)
    ensures b in Without(items, run) <==> b in items
  {
    if items != [] {
      hide Before;
      assert items == [items[0]] + items[1..];
      OthersStayInOrder(items[1..], run, a, b);
      BeforeFirst(items[1..], items[0], a, b);
      BeforeFirst(Without(items[1..], run), items[0], a, b);
    }
  }

  lemma BeforeLast(items: seq<Entry>, x: Entry, a: Entry, b: Entry)
    requires b != x
    ensures Before(items + [x], a, b) <==> Before(items, a, b)
  {
    var all := items + [x];
    if i, j :| 0 <= i < j < |items| && items[i] == a && items[j] == b {
      assert all[i] == a && all[j] == b;
    }
    if i, j :| 0 <= i < j < |all| && all[i] == a && all[j] == b {
      assert items[j] == b && items[i] == a;
    }
  }

  /** After a lookup every other run's entry is still there, in its order. The run's own is there exactly when its
      fingerprint is the one that was read, and then it is the last. */
  lemma LookupLeaves(items: seq<Entry>, run: RunId, before: Option<Fingerprint>)
    requires DistinctRuns(items)
    ensures var after := AfterLookup(items, run, before);
            && (forall e :: e in after <==> e in items && (e.run != run || before == Some(e.fingerprint)))
            && (forall e <- after :: e.run == run ==> after[|after| - 1] == e)
            && (forall a: Entry, b: Entry :: a.run != run && b.run != run ==>
                (Before(after, a, b) <==> Before(items, a, b)))
            && DistinctRuns(after)
  {
    hide Before, DistinctRuns;
    WithoutFacts(items, run);
    OneEntry(items, run);
    var after := AfterLookup(items, run, before);
    if IsHit(items, run, before) {
      TouchedFacts(items, Find(items, run).value);
    }
    forall a: Entry, b: Entry | a.run != run && b.run != run ensures Before(after, a, b) <==> Before(items, a, b) {
      OthersStayInOrder(items, run, a, b);
      if IsHit(items, run, before) {
        BeforeLast(Without(items, run), Find(items, run).value, a, b);
      }
    }
  }

  lemma {:induction false} OneEntry(items: seq<Entry>, run: RunId)
    requires DistinctRuns(items)
    ensures forall e <- items :: e.run == run ==> Find(items, run) == Some(e)
  {
    if items != [] {
      var rest := items[1..];
      assert items == [items[0]] + rest;
      assert forall e <- rest :: e.run != items[0].run;
      OneEntry(rest, run);
    }
  }
}
