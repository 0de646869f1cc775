/** Mappings of an address space, and the index that aggregates them by size and permissions. */
module MemoryMaps {
  import opened Words

  datatype Mapping = Mapping(
    start: nat, end: nat, size: nat, permissions: string,
    rss: Option<nat>, pss: Option<nat>, path: Option<string>)

  type Key = (nat, string)

  /** One row of the index; the count has 32 bits, the totals 64. */
  datatype Entry = Entry(count: nat, size: nat, rss: nat, pss: nat)

  function KeyOf(m: Mapping): Key { (m.size, m.permissions) }

  function OrZero(o: Option<nat>): nat {
    match o
    case Some(v) => v
    case None => 0
  }

  // ----- what the index should hold ------------------------------------------------------

  predicate HasKey(m: Mapping, k: Key) {
    m.size == k.0 && m.permissions == k.1
  }

  /** The mappings of one size and permissions, in order. */
  function Group(ms: seq<Mapping>, k: Key): seq<Mapping> {
    if ms == [] then []
    else if HasKey(ms[|ms| - 1], k) then Group(ms[..|ms| - 1], k) + [ms[|ms| - 1]]
    else Group(ms[..|ms| - 1], k)
  }

  function KeysOf(ms: seq<Mapping>): set<Key> {
    set m | m in ms :: (m.size, m.permissions)
  }

  /** Some mapping has this size and these permissions. */
  ghost predicate Occur(ms: seq<Mapping>, size: nat, permissions: string) {
    exists i :: 0 <= i < |ms| && ms[i].size == size && ms[i].permissions == permissions
  }

  /** The keys are the pairs of a size and permissions that occur together. */
  lemma KeysMean(ms: seq<Mapping>, size: nat, permissions: string)
    ensures (size, permissions) in KeysOf(ms) <==> Occur(ms, size, permissions)
  {
    if (size, permissions) in KeysOf(ms) {
      var m :| m in ms && (m.size, m.permissions) == (size, permissions);
      var i :| 0 <= i < |ms| && ms[i] == m;
    }
  }

  function Add(a: Entry, b: Entry): Entry {
    Entry(a.count + b.count, a.size + b.size, a.rss + b.rss, a.pss + b.pss)
  }

  function One(m: Mapping): Entry {
    Entry(1, m.size, OrZero(m.rss), OrZero(m.pss))
  }

  const NOTHING := Entry(0, 0, 0, 0)

  /** Exact totals, without wrap-around. */
  function Sum(ms: seq<Mapping>): (t: Entry)
    ensures t.count == |ms|
  {
    if ms == [] then NOTHING else Add(Sum(ms[..|ms| - 1]), One(ms[|ms| - 1]))
  }

  /** What the machine's counters show of an exact total. */
  function Wrapped(t: Entry): Entry {
    Entry(Wrap(t.count, WORD32), Wrap(t.size, WORD64), Wrap(t.rss, WORD64), Wrap(t.pss, WORD64))
  }

  function Shown(ms: seq<Mapping>, k: Key): Entry {
    Wrapped(Sum(Group(ms, k)))
  }

  /** One row per key that occurs, holding the wrapped totals of its mappings. */
  ghost predicate IsHistogram(h: map<Key, Entry>, ms: seq<Mapping>) {
    h.Keys == KeysOf(ms) && forall k :: k in h ==> h[k] == Shown(ms, k)
  }

  lemma RowsMean(h: map<Key, Entry>, ms: seq<Mapping>)
    requires IsHistogram(h, ms)
    ensures forall z: nat, p: string :: (z, p) in h <==> Occur(ms, z, p)
  {
    forall z: nat, p: string
      ensures (z, p) in h <==> Occur(ms, z, p)
    {
      KeysMean(ms, z, p);
    }
  }

  /** A row of the index, or the fresh row inserted for a new key. */
  function Row(h: map<Key, Entry>, k: Key): Entry {
    if k in h then h[k] else NOTHING
  }

  /** The row after counting one more mapping. */
  function Bump(e: Entry, m: Mapping): Entry {
    Wrapped(Add(e, One(m)))
  }

  lemma GroupSnoc(ms: seq<Mapping>, m: Mapping, k: Key)
    ensures Group(ms + [m], k) == if KeyOf(m) == k then Group(ms, k) + [m] else Group(ms, k)
  {
    assert (ms + [m])[..|ms|] == ms;
  }

  lemma SumSnoc(ms: seq<Mapping>, m: Mapping)
    ensures Sum(ms + [m]) == Add(Sum(ms), One(m))
  {
    assert (ms + [m])[..|ms|] == ms;
  }

  lemma KeysSnoc(ms: seq<Mapping>, m: Mapping)
    ensures KeysOf(ms + [m]) == KeysOf(ms) + {KeyOf(m)}
  {
    assert forall x :: x in ms + [m] <==> x in ms || x == m;
    assert m in ms + [m];
    forall k | k in KeysOf(ms)
      ensures k in KeysOf(ms + [m])
    {
      var x :| x in ms && KeyOf(x) == k;
      assert x in ms + [m];
    }
  }

  lemma {:induction false} NoGroup(ms: seq<Mapping>, k: Key)
    requires k !in KeysOf(ms)
    ensures Group(ms, k) == []
  {
    if ms != [] {
      assert ms == ms[..|ms| - 1] + [ms[|ms| - 1]];
      KeysSnoc(ms[..|ms| - 1], ms[|ms| - 1]);
      NoGroup(ms[..|ms| - 1], k);
    }
  }

  /** Adding to a counter before or after it wraps gives the same display. */
  lemma WrappedAdd(a: Entry, b: Entry)
    ensures Wrapped(Add(Wrapped(a), b)) == Wrapped(Add(a, b))
  {
    WrapAdd(a.count, b.count, WORD32);
    WrapAdd(a.size, b.size, WORD64);
    WrapAdd(a.rss, b.rss, WORD64);
    WrapAdd(a.pss, b.pss, WORD64);
  }

  /** The fields of a row advance one by one; an absent statistic leaves its field alone. */
  lemma BumpFields(e: Entry, m: Mapping)
    requires e.rss < WORD64 && e.pss < WORD64
    ensures Bump(e, m) == Entry(
      Wrap(e.count + 1, WORD32),
      Wrap(e.size + m.size, WORD64),
      if m.rss.Some? then Wrap(e.rss + m.rss.value, WORD64) else e.rss,
      if m.pss.Some? then Wrap(e.pss + m.pss.value, WORD64) else e.pss)
  {
  }

  lemma RowShown(h: map<Key, Entry>, ms: seq<Mapping>, k: Key)
    requires IsHistogram(h, ms)
    ensures Row(h, k) == Shown(ms, k)
  {
    if k !in h {
      NoGroup(ms, k);
    }
  }

  lemma ShownSnoc(ms: seq<Mapping>, m: Mapping, k: Key)
    ensures Shown(ms + [m], k) == if k == KeyOf(m) then Bump(Shown(ms, k), m) else Shown(ms, k)
  {
    GroupSnoc(ms, m, k);
    SumSnoc(Group(ms, k), m);
    WrappedAdd(Sum(Group(ms, k)), One(m));
  }

  /** One step of the index: the row of the new mapping advances, the others stay. */
  lemma HistogramSnoc(h: map<Key, Entry>, ms: seq<Mapping>, m: Mapping, e: Entry)
    requires IsHistogram(h, ms) && e == Bump(Shown(ms, KeyOf(m)), m)
    ensures IsHistogram(h[KeyOf(m) := e], ms + [m])
  {
    KeysSnoc(ms, m);
    forall k | k in h[KeyOf(m) := e]
      ensures h[KeyOf(m) := e][k] == Shown(ms + [m], k)
    {
      ShownSnoc(ms, m, k);
    }
  }

  lemma TotalsSnoc(ms: seq<Mapping>, m: Mapping)
    ensures Wrapped(Sum(ms + [m])) == Bump(Wrapped(Sum(ms)), m)
  {
    SumSnoc(ms, m);
    WrappedAdd(Sum(ms), One(m));
  }

  /** The index and the totals: `total` counts all mappings as `rows` counts those of a key. */
  datatype Index = Index(rows: map<Key, Entry>, total: Entry)

  /** The mappings counted one after the other. */
  function IndexOf(ms: seq<Mapping>): Index {
    if ms == [] then Index(map[], NOTHING)
    else
      var before, m := IndexOf(ms[..|ms| - 1]), ms[|ms| - 1];
      Index(before.rows[KeyOf(m) := Bump(Row(before.rows, KeyOf(m)), m)], Bump(before.total, m))
  }

  /** Counting one by one gives every key the totals of its group, and the totals of all. */
  lemma {:induction false} IndexMeans(ms: seq<Mapping>)
    ensures IsHistogram(IndexOf(ms).rows, ms) && IndexOf(ms).total == Wrapped(Sum(ms))
  {
    if ms != [] {
      var front, m := ms[..|ms| - 1], ms[|ms| - 1];
      assert ms == front + [m];
      IndexMeans(front);
      RowShown(IndexOf(front).rows, front, KeyOf(m));
      HistogramSnoc(IndexOf(front).rows, front, m, Bump(Shown(front, KeyOf(m)), m));
      TotalsSnoc(front, m);
    }
  }

  /** The updates of one row. */
  method Count(e: Entry, mapping: Mapping) returns (entry: Entry)
    requires e.rss < WORD64 && e.pss < WORD64
    ensures entry == Bump(e, mapping)
  {
    BumpFields(e, mapping);
    entry := e.(count := Wrap(e.count + 1, WORD32), size := Wrap(e.size + mapping.size, WORD64));
    if mapping.rss.Some? {
      entry := entry.(rss := Wrap(entry.rss + mapping.rss.value, WORD64));
    }
    if mapping.pss.Some? {
      entry := entry.(pss := Wrap(entry.pss + mapping.pss.value, WORD64));
    }
  }

  lemma {:induction false} IndexBounded(ms: seq<Mapping>, k: Key)
    ensures Row(IndexOf(ms).rows, k).rss < WORD64 && Row(IndexOf(ms).rows, k).pss < WORD64
    ensures IndexOf(ms).total.rss < WORD64 && IndexOf(ms).total.pss < WORD64
  {
    if ms != [] {
      IndexBounded(ms[..|ms| - 1], k);
    }
  }

  // ----- the class -----------------------------------------------------------------------

  class MemoryStats {
    var mappings: seq<Mapping>
    var histogram: map<Key, Entry>
    var totalVirtual: nat
    var totalRss: nat
    var totalPss: nat

    constructor ()
      ensures mappings == [] && Built()
    {
      mappings, histogram := [], map[];
      totalVirtual, totalRss, totalPss := 0, 0, 0;
    }

    /** Every key's row holds the totals of its group, and the three totals those of all mappings. */
    ghost predicate Built()
      reads this
    {
      IsHistogram(histogram, mappings) && HasTotals(Wrapped(Sum(mappings)))
    }

    ghost predicate HasTotals(t: Entry)
      reads `totalVirtual, `totalRss, `totalPss
    {
      totalVirtual == t.size && totalRss == t.rss && totalPss == t.pss
    }

    /** The updates of the three totals. */
    method AddTotals(mapping: Mapping, ghost t: Entry)
      requires HasTotals(t) && t.rss < WORD64 && t.pss < WORD64
      modifies `totalVirtual, `totalRss, `totalPss
      ensures HasTotals(Bump(t, mapping))
    {
      BumpFields(t, mapping);
      totalVirtual := Wrap(totalVirtual + mapping.size, WORD64);
      if mapping.rss.Some? {
        totalRss := Wrap(totalRss + mapping.rss.value, WORD64);
      }
      if mapping.pss.Some? {
        totalPss := Wrap(totalPss + mapping.pss.value, WORD64);
      }
    }

    /** `build_histogram`: starts over and counts every mapping once. */
    method BuildHistogram()
      modifies `histogram, `totalVirtual, `totalRss, `totalPss
      ensures Built()
      ensures forall z: nat, p: string :: (z, p) in histogram <==> Occur(mappings, z, p)
    {
      histogram := map[];
      totalVirtual, totalRss, totalPss := 0, 0, 0;
      ghost var before := [];
      for i := 0 to |mappings|
        invariant before == mappings[..i]
        invariant histogram == IndexOf(before).rows && HasTotals(IndexOf(before).total)
      {
        var mapping := mappings[i];
        var key := KeyOf(mapping);
        IndexBounded(before, key);
        var entry := Count(Row(histogram, key), mapping);
        histogram := histogram[key := entry];
        AddTotals(mapping, IndexOf(before).total);
        assert (before + [mapping])[..|before|] == before;
        before := before + [mapping];
      }
      assert before == mappings;
      IndexMeans(mappings);
      RowsMean(histogram, mappings);
    }
  }
}
