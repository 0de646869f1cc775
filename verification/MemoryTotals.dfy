/** What the aggregated index conserves: counts, totals, independence of order. */
module MemoryTotals {
  import opened Words
  import opened MemoryMaps

  // ----- one row -------------------------------------------------------------------------

  lemma {:induction false} GroupSize(ms: seq<Mapping>, k: Key)
    ensures Sum(Group(ms, k)).size == k.0 * |Group(ms, k)|
  {
    if ms != [] {
      var front, m := ms[..|ms| - 1], ms[|ms| - 1];
      GroupSize(front, k);
      if KeyOf(m) == k {
        SumSnoc(Group(front, k), m);
        assert k.0 * (|Group(front, k)| + 1) == k.0 * |Group(front, k)| + k.0;
      }
    }
  }

  /** Where mappings of this size and these permissions stand. */
  ghost function Positions(ms: seq<Mapping>, size: nat, permissions: string): set<int> {
    set i | 0 <= i < |ms| && ms[i].size == size && ms[i].permissions == permissions
  }

  function RssOf(m: Mapping): nat {
    OrZero(m.rss)
  }

  function PssOf(m: Mapping): nat {
    OrZero(m.pss)
  }

  /** What the mappings of this size and these permissions have of a statistic. */
  function Given(ms: seq<Mapping>, size: nat, permissions: string, stat: Mapping -> nat): nat {
    if ms == [] then 0
    else
      var m := ms[|ms| - 1];
      Given(ms[..|ms| - 1], size, permissions, stat) +
      if m.size == size && m.permissions == permissions then stat(m) else 0
  }

  lemma {:induction false} GroupGiven(ms: seq<Mapping>, k: Key)
    ensures Sum(Group(ms, k)).rss == Given(ms, k.0, k.1, RssOf)
    ensures Sum(Group(ms, k)).pss == Given(ms, k.0, k.1, PssOf)
  {
    if ms != [] {
      var front, m := ms[..|ms| - 1], ms[|ms| - 1];
      GroupGiven(front, k);
      if KeyOf(m) == k {
        SumSnoc(Group(front, k), m);
      }
    }
  }

  lemma {:induction false} GroupCounts(ms: seq<Mapping>, k: Key)
    ensures |Group(ms, k)| == |Positions(ms, k.0, k.1)|
  {
    if ms != [] {
      var front, last := ms[..|ms| - 1], |ms| - 1;
      GroupCounts(front, k);
      assert last !in Positions(front, k.0, k.1);
      if KeyOf(ms[last]) == k {
        assert Positions(ms, k.0, k.1) == Positions(front, k.0, k.1) + {last};
      } else {
        assert Positions(ms, k.0, k.1) == Positions(front, k.0, k.1);
      }
    }
  }

  /**
    There is a row for a size and permissions exactly if they occur together; it counts where they do,
    and its totals are the size once for each and what those mappings give of the statistics.
  */
  lemma RowMeans(h: map<Key, Entry>, ms: seq<Mapping>, size: nat, permissions: string)
    requires IsHistogram(h, ms)
    ensures (size, permissions) in h <==> Positions(ms, size, permissions) != {}
    ensures (size, permissions) in h ==>
              h[(size, permissions)] ==
              Entry(Wrap(|Positions(ms, size, permissions)|, WORD32),
                    Wrap(size * |Positions(ms, size, permissions)|, WORD64),
                    Wrap(Given(ms, size, permissions, RssOf), WORD64),
                    Wrap(Given(ms, size, permissions, PssOf), WORD64))
  {
    var k := (size, permissions);
    KeysMean(ms, size, permissions);
    if k in h {
      var i :| 0 <= i < |ms| && ms[i].size == size && ms[i].permissions == permissions;
      assert i in Positions(ms, size, permissions);
      GroupCounts(ms, k);
      GroupSize(ms, k);
      GroupGiven(ms, k);
      assert h[k] == Shown(ms, k);
    }
  }

  // ----- all rows ------------------------------------------------------------------------

  /** Every key once, in some order. */
  ghost predicate Lists(ks: seq<Key>, keys: set<Key>) {
    Distinct(ks) && forall k :: k in ks <==> k in keys
  }

  predicate Distinct(ks: seq<Key>) {
    forall i, j :: 0 <= i < j < |ks| ==> ks[i] != ks[j]
  }

  /** The exact totals of the groups of some keys. */
  function GroupsSum(ms: seq<Mapping>, ks: seq<Key>): Entry {
    if ks == [] then NOTHING
    else Add(GroupsSum(ms, ks[..|ks| - 1]), Sum(Group(ms, ks[|ks| - 1])))
  }

  /** The rows of some keys, added up without wrap-around. */
  function RowsSum(h: map<Key, Entry>, ks: seq<Key>): Entry
    requires forall k :: k in ks ==> k in h
  {
    if ks == [] then NOTHING
    else Add(RowsSum(h, ks[..|ks| - 1]), h[ks[|ks| - 1]])
  }

  lemma GroupSumSnoc(ms: seq<Mapping>, m: Mapping, k: Key)
    ensures Sum(Group(ms + [m], k)) ==
            if KeyOf(m) == k then Add(Sum(Group(ms, k)), One(m)) else Sum(Group(ms, k))
  {
    GroupSnoc(ms, m, k);
    SumSnoc(Group(ms, k), m);
  }

  lemma {:induction false} GroupsSkip(ms: seq<Mapping>, m: Mapping, ks: seq<Key>)
    requires forall i :: 0 <= i < |ks| ==> ks[i] != KeyOf(m)
    ensures GroupsSum(ms + [m], ks) == GroupsSum(ms, ks)
  {
    if ks != [] {
      GroupsSkip(ms, m, ks[..|ks| - 1]);
      GroupSumSnoc(ms, m, ks[|ks| - 1]);
    }
  }

  lemma AddSwap(a: Entry, b: Entry, c: Entry)
    ensures Add(Add(a, c), b) == Add(Add(a, b), c) == Add(a, Add(b, c))
  {
  }

  lemma {:induction false} GroupsSnoc(ms: seq<Mapping>, m: Mapping, ks: seq<Key>, i: nat)
    requires Distinct(ks) && i < |ks| && ks[i] == KeyOf(m)
    ensures GroupsSum(ms + [m], ks) == Add(GroupsSum(ms, ks), One(m))
  {
    var front, k := ks[..|ks| - 1], ks[|ks| - 1];
    GroupSumSnoc(ms, m, k);
    AddSwap(GroupsSum(ms, front), Sum(Group(ms, k)), One(m));
    if i == |ks| - 1 {
      GroupsSkip(ms, m, front);
    } else {
      GroupsSnoc(ms, m, front, i);
    }
  }

  lemma {:induction false} GroupsOfNone(ks: seq<Key>)
    ensures GroupsSum([], ks) == NOTHING
  {
    if ks != [] {
      GroupsOfNone(ks[..|ks| - 1]);
      assert Sum(Group([], ks[|ks| - 1])) == NOTHING;
    }
  }

  /** The groups of the keys that occur hold every mapping once. */
  lemma {:induction false} GroupsAreAll(ms: seq<Mapping>, ks: seq<Key>)
    requires Distinct(ks) && forall k :: k in KeysOf(ms) ==> k in ks
    ensures GroupsSum(ms, ks) == Sum(ms)
  {
    if ms == [] {
      GroupsOfNone(ks);
    } else {
      var front, m := ms[..|ms| - 1], ms[|ms| - 1];
      assert ms == front + [m];
      KeysSnoc(front, m);
      GroupsAreAll(front, ks);
      var i :| 0 <= i < |ks| && ks[i] == KeyOf(m);
      GroupsSnoc(front, m, ks, i);
      SumSnoc(front, m);
    }
  }

  lemma WrappedBoth(a: Entry, b: Entry)
    ensures Wrapped(Add(Wrapped(a), Wrapped(b))) == Wrapped(Add(a, b))
  {
    WrappedAdd(a, Wrapped(b));
    WrappedAdd(b, a);
    assert Add(a, Wrapped(b)) == Add(Wrapped(b), a) && Add(a, b) == Add(b, a);
  }

  lemma {:induction false} RowsAreGroups(h: map<Key, Entry>, ms: seq<Mapping>, ks: seq<Key>)
    requires IsHistogram(h, ms) && forall k :: k in ks ==> k in h
    ensures Wrapped(RowsSum(h, ks)) == Wrapped(GroupsSum(ms, ks))
  {
    if ks != [] {
      var front, k := ks[..|ks| - 1], ks[|ks| - 1];
      RowsAreGroups(h, ms, front);
      assert h[k] == Shown(ms, k);
      WrappedAdd(RowsSum(h, front), h[k]);
      WrappedBoth(GroupsSum(ms, front), Sum(Group(ms, k)));
    }
  }

  /**
    Conservation: added up in any order, the rows give the number of mappings and the three totals,
    in the width of the counters.
  */
  lemma RowsAddUp(h: map<Key, Entry>, ms: seq<Mapping>, ks: seq<Key>)
    requires IsHistogram(h, ms) && Lists(ks, h.Keys)
    ensures Wrapped(RowsSum(h, ks)) == Wrapped(Sum(ms)) && Sum(ms).count == |ms|
  {
    RowsAreGroups(h, ms, ks);
    GroupsAreAll(ms, ks);
  }

  predicate AtMost(a: Entry, b: Entry) {
    a.count <= b.count && a.size <= b.size && a.rss <= b.rss && a.pss <= b.pss
  }

  /** Small enough for the counters. */
  predicate Fits(e: Entry) {
    e.count < WORD32 && e.size < WORD64 && e.rss < WORD64 && e.pss < WORD64
  }

  lemma {:induction false} GroupAtMost(ms: seq<Mapping>, k: Key)
    ensures AtMost(Sum(Group(ms, k)), Sum(ms))
  {
    if ms != [] {
      var front, m := ms[..|ms| - 1], ms[|ms| - 1];
      GroupAtMost(front, k);
      assert ms == front + [m];
      GroupSumSnoc(front, m, k);
      SumSnoc(front, m);
    }
  }

  lemma {:induction false} RowsExact(h: map<Key, Entry>, ms: seq<Mapping>, ks: seq<Key>)
    requires IsHistogram(h, ms) && Fits(Sum(ms)) && forall k :: k in ks ==> k in h
    ensures RowsSum(h, ks) == GroupsSum(ms, ks)
  {
    if ks != [] {
      var front, k := ks[..|ks| - 1], ks[|ks| - 1];
      RowsExact(h, ms, front);
      GroupAtMost(ms, k);
      assert h[k] == Shown(ms, k) == Sum(Group(ms, k));
    }
  }

  /** While the totals fit, nothing wraps: the rows add up exactly. */
  lemma RowsAddUpExactly(h: map<Key, Entry>, ms: seq<Mapping>, ks: seq<Key>)
    requires IsHistogram(h, ms) && Lists(ks, h.Keys) && Fits(Sum(ms))
    ensures RowsSum(h, ks) == Sum(ms) && RowsSum(h, ks).count == |ms|
  {
    RowsExact(h, ms, ks);
    GroupsAreAll(ms, ks);
  }

  // ----- order does not matter -----------------------------------------------------------

  lemma AppendLast(a: seq<Mapping>, b: seq<Mapping>)
    requires b != []
    ensures b == b[..|b| - 1] + [b[|b| - 1]] && a + b == (a + b[..|b| - 1]) + [b[|b| - 1]]
  {
  }

  lemma {:induction false} GroupAppend(a: seq<Mapping>, b: seq<Mapping>, k: Key)
    ensures Group(a + b, k) == Group(a, k) + Group(b, k)
  {
    if b == [] {
      assert a + b == a;
    } else {
      var front, m := b[..|b| - 1], b[|b| - 1];
      GroupAppend(a, front, k);
      AppendLast(a, b);
      GroupSnoc(a + front, m, k);
      GroupSnoc(front, m, k);
    }
  }

  lemma {:induction false} SumAppend(a: seq<Mapping>, b: seq<Mapping>)
    ensures Sum(a + b) == Add(Sum(a), Sum(b))
  {
    if b == [] {
      assert a + b == a;
    } else {
      var front, m := b[..|b| - 1], b[|b| - 1];
      SumAppend(a, front);
      AppendLast(a, b);
      SumSnoc(a + front, m);
      SumSnoc(front, m);
      AddSwap(Sum(a), Sum(front), One(m));
    }
  }

  /** Taking out one element anywhere. */
  lemma SumWithout(a: seq<Mapping>, m: Mapping, b: seq<Mapping>)
    ensures Sum(a + [m] + b) == Add(Sum(a + b), One(m))
  {
    SumAppend(a + [m], b);
    SumSnoc(a, m);
    SumAppend(a, b);
  }

  lemma GroupWithout(a: seq<Mapping>, m: Mapping, b: seq<Mapping>, k: Key)
    ensures Sum(Group(a + [m] + b, k)) ==
            if KeyOf(m) == k then Add(Sum(Group(a + b, k)), One(m)) else Sum(Group(a + b, k))
  {
    GroupAppend(a + [m], b, k);
    GroupSnoc(a, m, k);
    GroupAppend(a, b, k);
    if KeyOf(m) == k {
      SumWithout(Group(a, k), m, Group(b, k));
    }
  }

  /** An element of a sequence, and what stands before and after one occurrence of it. */
  lemma TakeOut(b: seq<Mapping>, m: Mapping) returns (left: seq<Mapping>, right: seq<Mapping>)
    requires m in multiset(b)
    ensures b == left + [m] + right && multiset(left + right) == multiset(b) - multiset{m}
  {
    var j :| 0 <= j < |b| && b[j] == m;
    left, right := b[..j], b[j + 1..];
    assert b == left + [m] + right;
  }

  lemma {:induction false} SumsPermute(a: seq<Mapping>, b: seq<Mapping>, k: Key)
    requires multiset(a) == multiset(b)
    ensures Sum(a) == Sum(b) && Sum(Group(a, k)) == Sum(Group(b, k))
    decreases |a|
  {
    if a == [] {
      assert |b| == |multiset(b)| == 0;
    } else {
      var m := a[0];
      assert m in multiset(a);
      var x, y := TakeOut(a, m);
      var left, right := TakeOut(b, m);
      assert |x + y| < |a|;
      SumsPermute(x + y, left + right, k);
      SumWithout(x, m, y);
      SumWithout(left, m, right);
      GroupWithout(x, m, y, k);
      GroupWithout(left, m, right, k);
    }
  }

  lemma SameKeys(a: seq<Mapping>, b: seq<Mapping>)
    requires multiset(a) == multiset(b)
    ensures KeysOf(a) == KeysOf(b)
  {
    forall m
      ensures m in a <==> m in b
    {
      assert m in multiset(a) <==> m in multiset(b);
    }
  }

  lemma RowsPermute(a: seq<Mapping>, b: seq<Mapping>, h: map<Key, Entry>, g: map<Key, Entry>)
    requires multiset(a) == multiset(b) && h.Keys == g.Keys
    requires forall k :: k in h ==> h[k] == Shown(a, k)
    requires forall k :: k in g ==> g[k] == Shown(b, k)
    ensures h == g
  {
    forall k | k in h.Keys
      ensures h[k] == g[k]
    {
      SumsPermute(a, b, k);
    }
  }

  /** The index and the totals depend on the mappings alone, not on their order. */
  lemma OrderIsIrrelevant(a: seq<Mapping>, b: seq<Mapping>, h: map<Key, Entry>, g: map<Key, Entry>)
    requires multiset(a) == multiset(b) && IsHistogram(h, a) && IsHistogram(g, b)
    ensures h == g && Sum(a) == Sum(b)
  {
    SumsPermute(a, b, (0, ""));
    SameKeys(a, b);
    RowsPermute(a, b, h, g);
  }

  /** Two builds over the same mappings, whatever the fields held in between, agree. */
  method Rebuild(stats: MemoryStats)
    requires stats.Built()
    modifies stats`histogram, stats`totalVirtual, stats`totalRss, stats`totalPss
    ensures stats.Built() && stats.histogram == old(stats.histogram)
    ensures stats.totalVirtual == old(stats.totalVirtual) && stats.totalRss == old(stats.totalRss)
    ensures stats.totalPss == old(stats.totalPss)
  {
    ghost var before := stats.histogram;
    stats.BuildHistogram();
    OrderIsIrrelevant(stats.mappings, stats.mappings, before, stats.histogram);
  }
}
