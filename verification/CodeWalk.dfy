/**
  The two scans over control codes, seen as walks over what starts at each scanned position.

  The fast scan knows six four-byte and seven five-byte codes and steps over all of a hit. The
  plain scan also knows `$LP$` and steps over four bytes of every hit.
*/
module CodeWalk {

  /** What starts at a position; `Paren` is the code only the plain scan knows. */
  datatype Kind = NoCode | Simple | Paren | Unicode

  predicate InTable(k: Kind) { k.Simple? || k.Unicode? }

  predicate FourBytes(k: Kind) { k.Simple? || k.Paren? }

  /** A code's inner bytes are not `$`, so no other code starts there; one may start at its closing `$`. */
  predicate Shaped(ks: seq<Kind>) {
    forall p, q {:trigger ks[p], ks[q]} ::
      0 <= p < q < |ks| && ks[p] != NoCode && q < p + (if ks[p].Unicode? then 4 else 3) ==> ks[q] == NoCode
  }

  /** Positions at which the fast scan, started at `p`, hits. */
  function FastWalk(ks: seq<Kind>, p: nat): (hits: seq<nat>)
    decreases if p < |ks| then |ks| - p else 0
    ensures forall h :: h in hits ==> p <= h < |ks| && InTable(ks[h])
  {
    if p >= |ks| then []
    else if ks[p].Simple? then [p] + FastWalk(ks, p + 4)
    else if ks[p].Unicode? then [p] + FastWalk(ks, p + 5)
    else FastWalk(ks, p + 1)
  }

  function SlowWalk(ks: seq<Kind>, p: nat): (hits: seq<nat>)
    decreases if p < |ks| then |ks| - p else 0
    ensures forall h :: h in hits ==> p <= h < |ks| && ks[h] != NoCode
  {
    if p >= |ks| then []
    else if ks[p] != NoCode then [p] + SlowWalk(ks, p + 4)
    else SlowWalk(ks, p + 1)
  }

  // ----- which codes are hit, without walking --------------------------------------------

  /** The plain scan hits a code unless its opening `$` closes a four-byte code that was hit. */
  predicate SlowHits(ks: seq<Kind>, p: nat)
    decreases p
  {
    p < |ks| && ks[p] != NoCode && !(p >= 3 && FourBytes(ks[p - 3]) && SlowHits(ks, p - 3))
  }

  /** The fast scan hits a table code unless its opening `$` closes a code that was hit. */
  predicate FastHits(ks: seq<Kind>, p: nat)
    decreases p
  {
    p < |ks| && InTable(ks[p]) &&
    !(p >= 3 && ks[p - 3].Simple? && FastHits(ks, p - 3)) &&
    !(p >= 4 && ks[p - 4].Unicode? && FastHits(ks, p - 4))
  }

  /** Every code hit before `q` has been stepped over by the time the scan stands at `q`. */
  predicate SlowAligned(ks: seq<Kind>, q: nat) {
    forall r :: 0 <= r < q && SlowHits(ks, r) ==> r + 4 <= q
  }

  predicate FastAligned(ks: seq<Kind>, q: nat) {
    forall r :: 0 <= r < q && FastHits(ks, r) ==> r + (if ks[r].Simple? then 4 else 5) <= q
  }

  lemma SlowAdvance(ks: seq<Kind>, q: nat)
    requires Shaped(ks) && q < |ks| && SlowAligned(ks, q)
    ensures SlowHits(ks, q) <==> ks[q] != NoCode
    ensures SlowAligned(ks, if ks[q] != NoCode then q + 4 else q + 1)
    ensures ks[q] != NoCode ==> forall r :: q < r < q + 4 ==> !SlowHits(ks, r)
  {
    assert q >= 3 ==> !SlowHits(ks, q - 3);
    if ks[q] != NoCode {
      forall r | q < r < q + 4
        ensures !SlowHits(ks, r)
      {
        if r < |ks| && ks[r] != NoCode {
          assert r == q + 3 && FourBytes(ks[q]);
        }
      }
    }
  }

  /** The plain scan hits exactly the codes that no hit code overlaps from the left. */
  lemma {:induction false} SlowWalkHits(ks: seq<Kind>, q: nat, p: nat)
    requires Shaped(ks) && SlowAligned(ks, q) && q <= p
    ensures p in SlowWalk(ks, q) <==> SlowHits(ks, p)
    decreases if q < |ks| then |ks| - q else 0
  {
    if q < |ks| {
      SlowAdvance(ks, q);
      var next := if ks[q] != NoCode then q + 4 else q + 1;
      if p >= next {
        SlowWalkHits(ks, next, p);
      }
    }
  }

  lemma FastAdvance(ks: seq<Kind>, q: nat)
    requires Shaped(ks) && q < |ks| && FastAligned(ks, q)
    ensures var next := if ks[q].Simple? then q + 4 else if ks[q].Unicode? then q + 5 else q + 1;
            FastAligned(ks, next) && (FastHits(ks, q) <==> InTable(ks[q])) &&
            forall r :: q < r < next ==> !FastHits(ks, r)
  {
    var next := if ks[q].Simple? then q + 4 else if ks[q].Unicode? then q + 5 else q + 1;
    forall r | q < r < next
      ensures !FastHits(ks, r)
    {
      if r < |ks| && ks[r] != NoCode {
        assert r == q + (if ks[q].Unicode? then 4 else 3);
      }
    }
  }

  lemma {:induction false} FastWalkHits(ks: seq<Kind>, q: nat, p: nat)
    requires Shaped(ks) && FastAligned(ks, q) && q <= p
    ensures p in FastWalk(ks, q) <==> FastHits(ks, p)
    decreases if q < |ks| then |ks| - q else 0
  {
    if q < |ks| {
      FastAdvance(ks, q);
      var next := if ks[q].Simple? then q + 4 else if ks[q].Unicode? then q + 5 else q + 1;
      if p >= next {
        FastWalkHits(ks, next, p);
      }
    }
  }

  // ----- when the two scans agree --------------------------------------------------------

  /** How many four-byte codes, each closed by the `$` that opens the next, stand right before `p`. */
  function FoursBefore(ks: seq<Kind>, p: nat): nat {
    if 3 <= p < |ks| && FourBytes(ks[p - 3]) then 1 + FoursBefore(ks, p - 3) else 0
  }

  /** Of codes linked by shared `$`, the plain scan hits every other one of a run of four-byte codes. */
  lemma {:induction false} SlowByRun(ks: seq<Kind>, p: nat)
    ensures SlowHits(ks, p) <==> p < |ks| && ks[p] != NoCode && FoursBefore(ks, p) % 2 == 0
  {
    if 3 <= p < |ks| && FourBytes(ks[p - 3]) {
      SlowByRun(ks, p - 3);
    }
  }

  /**
    No code with an even number of linked four-byte codes before it is `$LP$`, or a five-byte code
    whose closing `$` opens a code.
  */
  predicate Harmless(ks: seq<Kind>) {
    forall p :: 0 <= p < |ks| && ks[p] != NoCode && FoursBefore(ks, p) % 2 == 0 ==>
      !ks[p].Paren? && !(ks[p].Unicode? && p + 4 < |ks| && ks[p + 4] != NoCode)
  }

  lemma {:induction false} HarmlessAgrees(ks: seq<Kind>, q: nat)
    requires Shaped(ks) && Harmless(ks) && SlowAligned(ks, q)
    ensures FastWalk(ks, q) == SlowWalk(ks, q)
    decreases if q < |ks| then |ks| - q else 0
  {
    if q < |ks| {
      SlowAdvance(ks, q);
      SlowByRun(ks, q);
      if ks[q].Unicode? {
        if q + 4 < |ks| {
          SlowAdvance(ks, q + 4);
        }
        HarmlessAgrees(ks, q + 5);
      } else if ks[q].Simple? {
        HarmlessAgrees(ks, q + 4);
      } else {
        HarmlessAgrees(ks, q + 1);
      }
    }
  }

  /** Both scans hit the same positions if and only if the input is harmless. */
  lemma ScansAgreeIff(ks: seq<Kind>)
    requires Shaped(ks)
    ensures FastWalk(ks, 0) == SlowWalk(ks, 0) <==> Harmless(ks)
  {
    if Harmless(ks) {
      HarmlessAgrees(ks, 0);
    } else if FastWalk(ks, 0) == SlowWalk(ks, 0) {
      var p: nat :| p < |ks| && ks[p] != NoCode && FoursBefore(ks, p) % 2 == 0 &&
               (ks[p].Paren? || (ks[p].Unicode? && p + 4 < |ks| && ks[p + 4] != NoCode));
      SlowByRun(ks, p);
      SlowWalkHits(ks, 0, p);
      FastWalkHits(ks, 0, p);
      if ks[p].Unicode? {
        assert ks[p + 1] == NoCode;
        SlowWalkHits(ks, 0, p + 4);
        FastWalkHits(ks, 0, p + 4);
      }
    }
  }

  // ----- counts, on every input ----------------------------------------------------------

  /** Code positions from `p` on, in order, no two of which overlap in their first four bytes. */
  predicate Packing(ks: seq<Kind>, p: nat, l: seq<nat>) {
    (forall i :: 0 <= i < |l| ==> p <= l[i] < |ks| && ks[l[i]] != NoCode) &&
    forall i :: 0 <= i < |l| - 1 ==> l[i] + 4 <= l[i + 1]
  }

  lemma PackingTail(ks: seq<Kind>, p: nat, l: seq<nat>, q: nat)
    requires Packing(ks, p, l) && l != [] && q <= l[0] + 4
    ensures Packing(ks, q, l[1..])
  {
    forall i | 0 <= i < |l[1..]|
      ensures q <= l[1..][i]
    {
      PackingOrder(ks, p, l, i + 1);
    }
  }

  lemma {:induction false} PackingOrder(ks: seq<Kind>, p: nat, l: seq<nat>, i: nat)
    requires Packing(ks, p, l) && 0 < i < |l|
    ensures l[0] + 4 <= l[i]
  {
    if i > 1 {
      PackingOrder(ks, p, l, i - 1);
      assert l[i - 1] + 4 <= l[i - 1 + 1];
    }
  }

  lemma {:induction false} SlowIsLargest(ks: seq<Kind>, p: nat, l: seq<nat>)
    requires Packing(ks, p, l)
    ensures |l| <= |SlowWalk(ks, p)|
    decreases if p < |ks| then |ks| - p else 0
  {
    if l != [] {
      assert p <= l[0] < |ks|;
      if ks[p] != NoCode {
        PackingTail(ks, p, l, p + 4);
        SlowIsLargest(ks, p + 4, l[1..]);
      } else {
        forall i | 0 <= i < |l|
          ensures p + 1 <= l[i]
        {
          assert ks[l[i]] != NoCode;
        }
        SlowIsLargest(ks, p + 1, l);
      }
    }
  }

  lemma {:induction false} SlowPacks(ks: seq<Kind>, p: nat)
    ensures Packing(ks, p, SlowWalk(ks, p))
    decreases if p < |ks| then |ks| - p else 0
  {
    if p < |ks| {
      var next := if ks[p] != NoCode then p + 4 else p + 1;
      SlowPacks(ks, next);
      if ks[p] != NoCode {
        PackingPrepend(ks, p, SlowWalk(ks, next));
      }
    }
  }

  lemma PackingPrepend(ks: seq<Kind>, p: nat, l: seq<nat>)
    requires p < |ks| && ks[p] != NoCode && Packing(ks, p + 4, l)
    ensures Packing(ks, p, [p] + l)
  {
    var m := [p] + l;
    forall i | 0 <= i < |m| - 1
      ensures m[i] + 4 <= m[i + 1]
    {
      if i > 0 {
        assert m[i] == l[i - 1] && m[i + 1] == l[i - 1 + 1];
      }
    }
  }

  lemma PackingWeaken(ks: seq<Kind>, p: nat, q: nat, l: seq<nat>)
    requires Packing(ks, q, l) && p <= q
    ensures Packing(ks, p, l)
  {
  }

  lemma {:induction false} FastPacks(ks: seq<Kind>, p: nat)
    ensures Packing(ks, p, FastWalk(ks, p))
    decreases if p < |ks| then |ks| - p else 0
  {
    if p < |ks| {
      var next := if ks[p].Simple? then p + 4 else if ks[p].Unicode? then p + 5 else p + 1;
      FastPacks(ks, next);
      if InTable(ks[p]) {
        PackingWeaken(ks, p + 4, next, FastWalk(ks, next));
        PackingPrepend(ks, p, FastWalk(ks, next));
      }
    }
  }

  /**
    On every input the plain scan counts the most codes that can be picked without overlap in
    their first four bytes; the fast scan never counts more.
  */
  lemma CountsCompare(ks: seq<Kind>, l: seq<nat>)
    requires Packing(ks, 0, l)
    ensures Packing(ks, 0, SlowWalk(ks, 0)) && |l| <= |SlowWalk(ks, 0)|
    ensures |FastWalk(ks, 0)| <= |SlowWalk(ks, 0)|
  {
    SlowPacks(ks, 0);
    SlowIsLargest(ks, 0, l);
    FastPacks(ks, 0);
    SlowIsLargest(ks, 0, FastWalk(ks, 0));
  }

  // ----- when the counts are equal -------------------------------------------------------

  ghost function SlowSet(ks: seq<Kind>): set<nat> { set p: nat | 0 <= p < |ks| && SlowHits(ks, p) }

  ghost function FastSet(ks: seq<Kind>): set<nat> { set p: nat | 0 <= p < |ks| && FastHits(ks, p) }

  predicate Increasing(l: seq<nat>) {
    forall i, j :: 0 <= i < j < |l| ==> l[i] < l[j]
  }

  ghost function Elements(l: seq<nat>): set<nat> { set x | x in l }

  lemma {:induction false} IncreasingCount(l: seq<nat>)
    requires Increasing(l)
    ensures |Elements(l)| == |l|
  {
    if l != [] {
      var front, x := l[..|l| - 1], l[|l| - 1];
      assert Increasing(front) && x !in front;
      assert l == front + [x];
      IncreasingCount(front);
      ElementsSnoc(front, x);
    }
  }

  lemma ElementsSnoc(l: seq<nat>, x: nat)
    requires x !in l
    ensures |Elements(l + [x])| == |Elements(l)| + 1
  {
    assert x !in Elements(l);
    assert Elements(l + [x]) == Elements(l) + {x};
  }

  lemma PackingIncreasing(ks: seq<Kind>, p: nat, l: seq<nat>)
    requires Packing(ks, p, l)
    ensures Increasing(l)
  {
    forall i, j | 0 <= i < j < |l|
      ensures l[i] < l[j]
    {
      PackingSuffix(ks, p, l, i);
      PackingOrder(ks, p, l[i..], j - i);
    }
  }

  lemma PackingSuffix(ks: seq<Kind>, p: nat, l: seq<nat>, i: nat)
    requires Packing(ks, p, l) && i <= |l|
    ensures Packing(ks, p, l[i..])
  {
    forall k | 0 <= k < |l[i..]| - 1
      ensures l[i..][k] + 4 <= l[i..][k + 1]
    {
      assert l[i + k] + 4 <= l[i + k + 1];
    }
  }

  lemma WalkCounts(ks: seq<Kind>)
    requires Shaped(ks)
    ensures |SlowWalk(ks, 0)| == |SlowSet(ks)| && |FastWalk(ks, 0)| == |FastSet(ks)|
  {
    SlowPacks(ks, 0);
    FastPacks(ks, 0);
    PackingIncreasing(ks, 0, SlowWalk(ks, 0));
    PackingIncreasing(ks, 0, FastWalk(ks, 0));
    IncreasingCount(SlowWalk(ks, 0));
    IncreasingCount(FastWalk(ks, 0));
    forall p: nat | 0 <= p < |ks|
      ensures p in SlowWalk(ks, 0) <==> p in SlowSet(ks)
      ensures p in FastWalk(ks, 0) <==> p in FastSet(ks)
    {
      SlowWalkHits(ks, 0, p);
      FastWalkHits(ks, 0, p);
    }
    assert Elements(SlowWalk(ks, 0)) == SlowSet(ks);
    assert Elements(FastWalk(ks, 0)) == FastSet(ks);
  }

  /** Every code hit only by the plain scan has four bytes, and its closing `$` opens a table code. */
  predicate Compensated(ks: seq<Kind>) {
    forall p :: 0 <= p < |ks| && SlowHits(ks, p) && !FastHits(ks, p) ==>
      FourBytes(ks[p]) && p + 3 < |ks| && InTable(ks[p + 3])
  }

  /** What only the fast scan hits sits at the closing `$` of what only the plain scan hits. */
  lemma FastOnlyFollows(ks: seq<Kind>, q: nat)
    requires FastHits(ks, q) && !SlowHits(ks, q)
    ensures q >= 3 && SlowHits(ks, q - 3) && !FastHits(ks, q - 3) && FourBytes(ks[q - 3])
  {
  }

  lemma CompensatedFollows(ks: seq<Kind>, p: nat)
    requires Shaped(ks) && SlowHits(ks, p) && !FastHits(ks, p)
    requires FourBytes(ks[p]) && p + 3 < |ks| && InTable(ks[p + 3])
    ensures FastHits(ks, p + 3) && !SlowHits(ks, p + 3)
  {
    assert p >= 1 ==> !ks[p - 1].Unicode?;
  }

  /** Three places after every element of `a` lies one of `b`. */
  ghost predicate Shifts(a: set<nat>, b: set<nat>) {
    forall p :: p in a ==> p + 3 in b
  }

  /** If three places before every element of `b` lies one of `a`, `b` is no larger, and as large only one to one. */
  lemma {:induction false} ShiftCounts(a: set<nat>, b: set<nat>)
    requires forall q :: q in b ==> q >= 3 && q - 3 in a
    ensures |b| <= |a| && (|b| == |a| <==> Shifts(a, b))
  {
    if b == {} {
      if a != {} {
        var p :| p in a;
        assert p + 3 !in b;
      }
    } else {
      var q :| q in b;
      ShiftCounts(a - {q - 3}, b - {q});
      ShiftsWithout(a, b, q);
    }
  }

  lemma ShiftsWithout(a: set<nat>, b: set<nat>, q: nat)
    requires q in b && q >= 3 && q - 3 in a
    ensures Shifts(a, b) <==> Shifts(a - {q - 3}, b - {q})
  {
    if Shifts(a - {q - 3}, b - {q}) {
      forall p | p in a
        ensures p + 3 in b
      {
        if p != q - 3 {
          assert p in a - {q - 3};
        }
      }
    }
  }

  /** Two sets differ in size as their one-sided differences do. */
  lemma DifferenceCounts(a: set<nat>, b: set<nat>)
    ensures |a| - |b| == |a - b| - |b - a|
  {
    assert a == (a - b) + (a * b);
    assert b == (b - a) + (a * b);
  }

  lemma ShiftsAreCompensated(ks: seq<Kind>)
    requires Shaped(ks)
    ensures Shifts(SlowSet(ks) - FastSet(ks), FastSet(ks) - SlowSet(ks)) <==> Compensated(ks)
  {
    var slowOnly, fastOnly := SlowSet(ks) - FastSet(ks), FastSet(ks) - SlowSet(ks);
    if Compensated(ks) {
      forall p | p in slowOnly
        ensures p + 3 in fastOnly
      {
        CompensatedFollows(ks, p);
      }
    }
    if Shifts(slowOnly, fastOnly) {
      forall p: nat | 0 <= p < |ks| && SlowHits(ks, p) && !FastHits(ks, p)
        ensures FourBytes(ks[p]) && p + 3 < |ks| && InTable(ks[p + 3])
      {
        assert p in slowOnly;
        FastOnlyFollows(ks, p + 3);
      }
    }
  }

  lemma FastOnlyShifts(ks: seq<Kind>)
    ensures forall q :: q in FastSet(ks) - SlowSet(ks) ==> q >= 3 && q - 3 in SlowSet(ks) - FastSet(ks)
  {
    forall q | q in FastSet(ks) - SlowSet(ks)
      ensures q >= 3 && q - 3 in SlowSet(ks) - FastSet(ks)
    {
      FastOnlyFollows(ks, q);
    }
  }

  /** The two counts are equal if and only if every hit of the plain scan alone is compensated. */
  lemma CountsCompensate(ks: seq<Kind>)
    requires Shaped(ks)
    ensures |FastWalk(ks, 0)| == |SlowWalk(ks, 0)| <==> Compensated(ks)
  {
    WalkCounts(ks);
    DifferenceCounts(SlowSet(ks), FastSet(ks));
    FastOnlyShifts(ks);
    ShiftCounts(SlowSet(ks) - FastSet(ks), FastSet(ks) - SlowSet(ks));
    ShiftsAreCompensated(ks);
  }

  // ----- the same, read off the text -----------------------------------------------------

  /** How many table codes, each closed by the `$` that opens the next, stand right before `p`. */
  function TableBefore(ks: seq<Kind>, p: nat): nat {
    if 3 <= p < |ks| && ks[p - 3].Simple? then 1 + TableBefore(ks, p - 3)
    else if 4 <= p < |ks| && ks[p - 4].Unicode? then 1 + TableBefore(ks, p - 4)
    else 0
  }

  /** The fast scan hits every other one of a run of table codes. */
  lemma {:induction false} FastByRun(ks: seq<Kind>, p: nat)
    requires Shaped(ks)
    ensures FastHits(ks, p) <==> p < |ks| && InTable(ks[p]) && TableBefore(ks, p) % 2 == 0
  {
    if 3 <= p < |ks| && ks[p - 3].Simple? {
      assert p >= 4 ==> !ks[p - 4].Unicode?;
      FastByRun(ks, p - 3);
    } else if 4 <= p < |ks| && ks[p - 4].Unicode? {
      FastByRun(ks, p - 4);
    }
  }

  /**
    A code with an even number of linked four-byte codes before it that is `$LP$`, or has an odd
    number of linked table codes before it.
  */
  predicate PlainOnly(ks: seq<Kind>, p: nat)
    requires p < |ks|
  {
    ks[p] != NoCode && FoursBefore(ks, p) % 2 == 0 && (ks[p].Paren? || TableBefore(ks, p) % 2 == 1)
  }

  /** Every such code has four bytes and is followed by a linked table code. */
  predicate BalancedChains(ks: seq<Kind>) {
    forall p :: 0 <= p < |ks| && PlainOnly(ks, p) ==> FourBytes(ks[p]) && p + 3 < |ks| && InTable(ks[p + 3])
  }

  lemma ChainsAreCompensated(ks: seq<Kind>)
    requires Shaped(ks)
    ensures BalancedChains(ks) <==> Compensated(ks)
  {
    forall p: nat | p < |ks|
      ensures SlowHits(ks, p) && !FastHits(ks, p) <==> PlainOnly(ks, p)
    {
      SlowByRun(ks, p);
      FastByRun(ks, p);
    }
  }

  /** The two counts are equal if and only if the chains of linked codes are balanced. */
  lemma CountsEqualIff(ks: seq<Kind>)
    requires Shaped(ks)
    ensures |FastWalk(ks, 0)| == |SlowWalk(ks, 0)| <==> BalancedChains(ks)
  {
    CountsCompensate(ks);
    ChainsAreCompensated(ks);
  }
}
