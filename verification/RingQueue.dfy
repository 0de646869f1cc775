/**
  The mirrored ring as a queue of records.

  The buffer is mapped twice in a row, so window address `a` below `2 * size` is buffer byte
  `a % size`. Positions wrap at `size`; a record is written and read as one straight run.
*/
module RingQueue {
  import opened Words
  import opened RingCodec

  // ----- wrapped positions ---------------------------------------------------------------

  /** The buffer byte `k` places after position `at`: `(at + k) % n`. */
  function Slot(n: nat, at: nat, k: nat): (i: nat)
    requires n > 0
    ensures i < n
  {
    Wrap(at + k, n)
  }

  lemma SlotShift(n: nat, at: nat, m: nat, k: nat)
    requires n > 0
    ensures Slot(n, Slot(n, at, m), k) == Slot(n, at, m + k)
  {
    WrapAdd(at + m, k, n);
  }

  lemma {:induction false} WrapDiffer(x: nat, y: nat, n: nat)
    requires x < y < x + n
    ensures Wrap(x, n) != Wrap(y, n)
  {
    if x >= n {
      WrapDiffer(x - n, y - n, n);
    }
  }

  /** Offsets less than one lap apart are different bytes. */
  lemma SlotsDiffer(n: nat, at: nat, i: nat, j: nat)
    requires i < j < i + n
    ensures Slot(n, at, i) != Slot(n, at, j)
  {
    WrapDiffer(at + i, at + j, n);
  }

  // ----- the mirrored memory -------------------------------------------------------------

  /** The buffer after storing `bytes` from window address `at` on, first byte first. */
  function Mirror(data: seq<byte>, at: nat, bytes: seq<byte>): (d: seq<byte>)
    requires |data| > 0
    ensures |d| == |data|
  {
    if bytes == [] then data
    else
      var last := |bytes| - 1;
      Mirror(data, at, bytes[..last])[Slot(|data|, at, last) := bytes[last]]
  }

  lemma {:induction false} MirrorConcat(data: seq<byte>, at: nat, x: seq<byte>, y: seq<byte>)
    requires |data| > 0
    ensures Mirror(Mirror(data, at, x), at + |x|, y) == Mirror(data, at, x + y)
    decreases |y|
  {
    if y == [] {
      assert x + y == x;
    } else {
      var last := |y| - 1;
      MirrorConcat(data, at, x, y[..last]);
      assert (x + y)[..|x + y| - 1] == x + y[..last];
      assert Slot(|data|, at + |x|, last) == Slot(|data|, at, |x| + last);
    }
  }

  /** A byte that no later lap of its run overwrites reads back as it was stored. */
  lemma {:induction false} MirrorAt(data: seq<byte>, at: nat, bytes: seq<byte>, k: nat)
    requires k < |bytes| <= k + |data|
    ensures Mirror(data, at, bytes)[Slot(|data|, at, k)] == bytes[k]
    decreases |bytes|
  {
    var last := |bytes| - 1;
    if k < last {
      MirrorAt(data, at, bytes[..last], k);
      SlotsDiffer(|data|, at, k, last);
    }
  }

  predicate Untouched(n: nat, at: nat, count: nat, i: nat)
    requires n > 0
  {
    forall k :: 0 <= k < count ==> Slot(n, at, k) != i
  }

  lemma {:induction false} MirrorOther(data: seq<byte>, at: nat, bytes: seq<byte>, i: nat)
    requires i < |data| && Untouched(|data|, at, |bytes|, i)
    ensures Mirror(data, at, bytes)[i] == data[i]
    decreases |bytes|
  {
    if bytes != [] {
      var last := |bytes| - 1;
      assert Slot(|data|, at, last) != i;
      MirrorOther(data, at, bytes[..last], i);
    }
  }

  /** The memory from window address `at` to the end of the second mapping. */
  function View(data: seq<byte>, at: nat): (v: seq<byte>)
    requires at <= |data|
    ensures |v| == 2 * |data| - at
    ensures forall k :: 0 <= k < |v| ==> v[k] == data[Slot(|data|, at, k)]
  {
    seq(2 * |data| - at, k requires 0 <= k < 2 * |data| - at => data[Slot(|data|, at, k)])
  }

  /** What is stored at a window address is what the memory from that address on starts with. */
  lemma StoredReadsBack(data: seq<byte>, at: nat, bytes: seq<byte>)
    requires at <= |data| && |bytes| <= |data| && |data| > 0
    ensures View(Mirror(data, at, bytes), at)[..|bytes|] == bytes
  {
    forall k | 0 <= k < |bytes|
      ensures View(Mirror(data, at, bytes), at)[k] == bytes[k]
    {
      MirrorAt(data, at, bytes, k);
    }
  }

  // ----- the ring as values --------------------------------------------------------------

  datatype Ring = Ring(data: seq<byte>, read: nat, write: nat)

  predicate ValidRing(r: Ring) {
    HEADER < |r.data| && 2 * |r.data| <= WORD64 && r.read < |r.data| && r.write < |r.data|
  }

  /** Bytes between the read and the write position. */
  function Used(r: Ring): (u: nat)
    requires ValidRing(r)
    ensures u < |r.data|
  {
    if r.read <= r.write then r.write - r.read else |r.data| - r.read + r.write
  }

  /** The check `write` makes before it reserves. */
  predicate Admits(r: Ring, size: nat) {
    r.write + size < r.read + |r.data|
  }

  predicate Fits(r: Ring, size: nat)
    requires ValidRing(r)
  {
    Used(r) + size < |r.data|
  }

  /** The check is right for every size exactly when the write position has not wrapped behind the read position. */
  lemma AdmissionExact(r: Ring, size: nat)
    requires ValidRing(r)
    ensures r.read <= r.write ==> (Admits(r, size) <==> Fits(r, size))
    ensures r.write < r.read ==> (Fits(r, size) <==> r.write + size < r.read)
    ensures r.write < r.read && r.write + size == r.read ==> Admits(r, size) && !Fits(r, size)
    ensures r.write < r.read ==> (Admits(r, size) <==> Used(r) + size < 2 * |r.data|)
  {
  }

  function WriteRing(r: Ring, rec: Record): Ring
    requires ValidRing(r)
  {
    if Admits(r, SerializedSize(rec)) then
      Ring(Mirror(r.data, r.write, Encode(rec)), r.read, Slot(|r.data|, r.write, SerializedSize(rec)))
    else r
  }

  datatype Outcome = Accepted | Refused | Nothing | Delivered(record: Record) | Fault

  function ReadRing(r: Ring): (Ring, Outcome)
    requires ValidRing(r)
  {
    if r.read == r.write then (r, Nothing)
    else
      var v := View(r.data, r.read);
      var out := Decode(v);
      (r.(read := Slot(|r.data|, r.read, LoadWord(v, 0))), if out.Some? then Delivered(out.value) else Fault)
  }

  // ----- what the ring represents --------------------------------------------------------

  function Bytes(q: seq<Record>): seq<byte> {
    if q == [] then [] else Encode(q[0]) + Bytes(q[1..])
  }

  lemma {:induction false} BytesAppend(q: seq<Record>, rec: Record)
    ensures Bytes(q + [rec]) == Bytes(q) + Encode(rec)
  {
    if q == [] {
      assert Bytes([rec]) == Encode(rec) + [];
    } else {
      assert (q + [rec])[1..] == q[1..] + [rec];
      BytesAppend(q[1..], rec);
    }
  }

  /** The bytes from the read position on are `u`, and the write position is where they end. */
  predicate HoldsBytes(r: Ring, u: seq<byte>) {
    ValidRing(r) && |u| < |r.data| && r.write == Slot(|r.data|, r.read, |u|) &&
    forall k :: 0 <= k < |u| ==> r.data[Slot(|r.data|, r.read, k)] == u[k]
  }

  /** The unread records, oldest first. */
  predicate Holds(r: Ring, q: seq<Record>) {
    HoldsBytes(r, Bytes(q))
  }

  lemma UsedIsHeld(r: Ring, u: seq<byte>)
    requires HoldsBytes(r, u)
    ensures Used(r) == |u|
  {
    assert r.read + |u| >= |r.data| ==> Wrap(r.read + |u| - |r.data|, |r.data|) == r.read + |u| - |r.data|;
  }

  /** The positions coincide exactly when nothing is unread. */
  lemma EmptyIff(r: Ring, q: seq<Record>)
    requires Holds(r, q)
    ensures r.read == r.write <==> q == []
  {
    UsedIsHeld(r, Bytes(q));
  }

  lemma StoreKeepsUnread(r: Ring, u: seq<byte>, bytes: seq<byte>, j: nat)
    requires HoldsBytes(r, u) && |u| + |bytes| < |r.data| && j < |u|
    ensures Mirror(r.data, r.write, bytes)[Slot(|r.data|, r.read, j)] == u[j]
  {
    var n, i := |r.data|, Slot(|r.data|, r.read, j);
    forall k | 0 <= k < |bytes|
      ensures Slot(n, r.write, k) != i
    {
      SlotShift(n, r.read, |u|, k);
      SlotsDiffer(n, r.read, j, |u| + k);
    }
    MirrorOther(r.data, r.write, bytes, i);
  }

  lemma StoreAddsBytes(r: Ring, u: seq<byte>, bytes: seq<byte>, k: nat)
    requires HoldsBytes(r, u) && |u| + |bytes| < |r.data| && k < |bytes|
    ensures Mirror(r.data, r.write, bytes)[Slot(|r.data|, r.read, |u| + k)] == bytes[k]
  {
    SlotShift(|r.data|, r.read, |u|, k);
    MirrorAt(r.data, r.write, bytes, k);
  }

  lemma ExtendsWith(r: Ring, u: seq<byte>, bytes: seq<byte>, d: seq<byte>)
    requires HoldsBytes(r, u) && |u| + |bytes| < |r.data| == |d|
    requires forall j :: 0 <= j < |u| ==> d[Slot(|d|, r.read, j)] == u[j]
    requires forall k :: 0 <= k < |bytes| ==> d[Slot(|d|, r.read, |u| + k)] == bytes[k]
    ensures HoldsBytes(Ring(d, r.read, Slot(|d|, r.write, |bytes|)), u + bytes)
  {
    SlotShift(|d|, r.read, |u|, |bytes|);
    forall k | 0 <= k < |u + bytes|
      ensures d[Slot(|d|, r.read, k)] == (u + bytes)[k]
    {
      if k >= |u| {
        assert d[Slot(|d|, r.read, |u| + (k - |u|))] == bytes[k - |u|];
      }
    }
  }

  lemma StoreExtends(r: Ring, u: seq<byte>, bytes: seq<byte>)
    requires HoldsBytes(r, u) && |u| + |bytes| < |r.data|
    ensures HoldsBytes(Ring(Mirror(r.data, r.write, bytes), r.read, Slot(|r.data|, r.write, |bytes|)), u + bytes)
  {
    var d := Mirror(r.data, r.write, bytes);
    forall j | 0 <= j < |u|
      ensures d[Slot(|d|, r.read, j)] == u[j]
    {
      StoreKeepsUnread(r, u, bytes, j);
    }
    forall k | 0 <= k < |bytes|
      ensures d[Slot(|d|, r.read, |u| + k)] == bytes[k]
    {
      StoreAddsBytes(r, u, bytes, k);
    }
    ExtendsWith(r, u, bytes, d);
  }

  /**
    A write that is let in leaves a ring holding the old records followed by the new one if and
    only if the record really fits; a refused write leaves the ring as it was. Every store
    stays inside the double mapping.
  */
  lemma WriteRefines(r: Ring, q: seq<Record>, rec: Record)
    requires Holds(r, q)
    ensures Admits(r, SerializedSize(rec)) ==>
              r.write + SerializedSize(rec) < 2 * |r.data| &&
              (Holds(WriteRing(r, rec), q + [rec]) <==> Fits(r, SerializedSize(rec)))
    ensures !Admits(r, SerializedSize(rec)) ==> WriteRing(r, rec) == r
  {
    UsedIsHeld(r, Bytes(q));
    BytesAppend(q, rec);
    if Fits(r, SerializedSize(rec)) {
      StoreExtends(r, Bytes(q), Encode(rec));
    }
  }

  /**
    A write that is let in without fitting is never harmless: with unread records in the ring it
    replaces the first unread byte by one of its own, or it makes the positions meet, so that the
    next read finds nothing.
  */
  lemma OverrunDestroys(r: Ring, q: seq<Record>, rec: Record)
    requires Holds(r, q) && Admits(r, SerializedSize(rec)) && !Fits(r, SerializedSize(rec))
    ensures q != [] && r.write < r.read <= r.write + SerializedSize(rec)
    ensures r.read < r.write + SerializedSize(rec) ==>
              WriteRing(r, rec).data[r.read] == Encode(rec)[r.read - r.write]
    ensures r.read == r.write + SerializedSize(rec) ==>
              ReadRing(WriteRing(r, rec)) == (WriteRing(r, rec), Nothing)
  {
    AdmissionExact(r, SerializedSize(rec));
    EmptyIff(r, q);
    var k := r.read - r.write;
    if k < SerializedSize(rec) {
      MirrorAt(r.data, r.write, Encode(rec), k);
    }
  }

  lemma ViewStarts(r: Ring, u: seq<byte>)
    requires HoldsBytes(r, u)
    ensures View(r.data, r.read) == u + View(r.data, r.read)[|u|..]
  {
  }

  lemma DropFront(r: Ring, x: seq<byte>, rest: seq<byte>)
    requires HoldsBytes(r, x + rest)
    ensures HoldsBytes(r.(read := Slot(|r.data|, r.read, |x|)), rest)
  {
    var n := |r.data|;
    SlotShift(n, r.read, |x|, |rest|);
    forall k | 0 <= k < |rest|
      ensures r.data[Slot(n, Slot(n, r.read, |x|), k)] == rest[k]
    {
      SlotShift(n, r.read, |x|, k);
      assert (x + rest)[|x| + k] == rest[k];
    }
  }

  /** What the reader sees starts with the first record. */
  lemma ViewBegins(r: Ring, x: seq<byte>, rest: seq<byte>) returns (tail: seq<byte>)
    requires HoldsBytes(r, x + rest)
    ensures View(r.data, r.read) == x + tail
  {
    ViewStarts(r, x + rest);
    tail := rest + View(r.data, r.read)[|x + rest|..];
  }

  /** A read takes the oldest record off, whole; it delivers it intact when its strings are NUL-free. */
  lemma ReadRefines(r: Ring, q: seq<Record>)
    requires Holds(r, q)
    ensures q == [] ==> ReadRing(r) == (r, Nothing)
    ensures q != [] ==> Holds(ReadRing(r).0, q[1..])
    ensures q != [] ==> (ReadRing(r).1 == Delivered(q[0]) <==> NulFree(q[0]))
  {
    EmptyIff(r, q);
    if q != [] {
      var x, rest := Encode(q[0]), Bytes(q[1..]);
      var tail := ViewBegins(r, x, rest);
      DecodedSize(q[0], tail);
      RoundTripIff(q[0], tail);
      DropFront(r, x, rest);
    }
  }

  // ----- whole runs ----------------------------------------------------------------------

  datatype Op = Put(record: Record) | Get

  /** What a wrapped writer has to check itself, and what the string format asks of the records. */
  predicate CallerChecks(r: Ring, op: Op) {
    op.Put? ==> NulFree(op.record) && (r.read <= r.write || r.write + SerializedSize(op.record) < r.read)
  }

  function ApplyRing(r: Ring, op: Op): (Ring, Outcome)
    requires ValidRing(r)
  {
    match op
    case Put(rec) => (WriteRing(r, rec), if Admits(r, SerializedSize(rec)) then Accepted else Refused)
    case Get => ReadRing(r)
  }

  lemma ApplyValid(r: Ring, op: Op)
    requires ValidRing(r)
    ensures ValidRing(ApplyRing(r, op).0) && |ApplyRing(r, op).0.data| == |r.data|
  {
  }

  /** The outcomes of a run on the ring; None when a caller check fails on the way. */
  function RunRing(r: Ring, ops: seq<Op>): Option<seq<Outcome>>
    requires ValidRing(r)
    decreases |ops|
  {
    if ops == [] then Some([])
    else if !CallerChecks(r, ops[0]) then None
    else
      ApplyValid(r, ops[0]);
      Prepend([ApplyRing(r, ops[0]).1], RunRing(ApplyRing(r, ops[0]).0, ops[1..]))
  }

  predicate AllNulFree(q: seq<Record>) {
    forall i :: 0 <= i < |q| ==> NulFree(q[i])
  }

  /** The queue after one operation, and what it answers. */
  function ApplyQueue(q: seq<Record>, capacity: nat, op: Op): (seq<Record>, Outcome) {
    match op
    case Put(rec) => if |Bytes(q)| + SerializedSize(rec) < capacity then (q + [rec], Accepted) else (q, Refused)
    case Get => if q == [] then (q, Nothing) else (q[1..], Delivered(q[0]))
  }

  /** The same run on a bounded queue: it knows sizes, not positions. */
  function RunQueue(q: seq<Record>, capacity: nat, ops: seq<Op>): seq<Outcome>
    decreases |ops|
  {
    if ops == [] then []
    else [ApplyQueue(q, capacity, ops[0]).1] + RunQueue(ApplyQueue(q, capacity, ops[0]).0, capacity, ops[1..])
  }

  lemma OperationRefines(r: Ring, q: seq<Record>, op: Op)
    requires Holds(r, q) && AllNulFree(q) && CallerChecks(r, op)
    ensures var (r', out) := ApplyRing(r, op);
            var (q', out') := ApplyQueue(q, |r.data|, op);
            out == out' && |r'.data| == |r.data| && Holds(r', q') && AllNulFree(q')
  {
    match op
    case Put(rec) =>
      WriteRefines(r, q, rec);
      UsedIsHeld(r, Bytes(q));
      AdmissionExact(r, SerializedSize(rec));
    case Get =>
      ReadRefines(r, q);
  }

  /** Every run of whole operations behaves like the queue: oldest first, intact, nothing lost or invented. */
  lemma {:induction false} RunRefines(r: Ring, q: seq<Record>, ops: seq<Op>)
    requires Holds(r, q) && AllNulFree(q)
    ensures RunRing(r, ops).Some? ==> RunRing(r, ops).value == RunQueue(q, |r.data|, ops)
    decreases |ops|
  {
    if ops != [] && CallerChecks(r, ops[0]) {
      OperationRefines(r, q, ops[0]);
      RunRefines(ApplyRing(r, ops[0]).0, ApplyQueue(q, |r.data|, ops[0]).0, ops[1..]);
    }
  }

  lemma EmptyHolds(data: seq<byte>)
    requires ValidRing(Ring(data, 0, 0))
    ensures Holds(Ring(data, 0, 0), [])
  {
  }

  // ----- a wrapped write that destroys a record ------------------------------------------

  /** A record of 243 zero values: 2000 bytes serialized. */
  function Plain(): Record {
    Record([], seq(243, _ => 0))
  }

  lemma {:induction false} ZeroValues(xs: seq<int64>, k: nat)
    requires (forall i :: 0 <= i < |xs| ==> xs[i] == 0) && k < 8 * |xs|
    ensures SignedList(xs)[k] == 0
  {
    ZeroWord(8);
    assert Signed(xs[0]) == Word(0);
    if k >= 8 {
      ZeroValues(xs[1..], k - 8);
    }
  }

  lemma {:induction false} ZeroWord(n: nat)
    ensures forall k :: 0 <= k < n ==> LittleEndian(0, n)[k] == 0
  {
    if n > 0 {
      ZeroWord(n - 1);
    }
  }

  lemma EmptyMiddle(h: seq<byte>, v: seq<byte>)
    ensures h + [] + [] + [] + v == h + v
  {
  }

  lemma ValuesOnly(values: seq<int64>)
    ensures SerializedSize(Record([], values)) == 56 + 8 * |values|
    ensures Encode(Record([], values)) == Header(Record([], values)) + SignedList(values)
  {
    EmptyMiddle(Header(Record([], values)), SignedList(values));
  }

  lemma PlainSize()
    ensures SerializedSize(Plain()) == 2000
  {
    ValuesOnly(Plain().values);
  }

  lemma ValueZeros(values: seq<int64>, k: nat)
    requires (forall i :: 0 <= i < |values| ==> values[i] == 0) && 56 <= k < 56 + 8 * |values|
    ensures |Encode(Record([], values))| == 56 + 8 * |values| && Encode(Record([], values))[k] == 0
  {
    ValuesOnly(values);
    ZeroValues(values, k - 56);
  }

  lemma PlainZeros(k: nat)
    requires 56 <= k < 2000
    ensures |Encode(Plain())| == 2000 && Encode(Plain())[k] == 0
  {
    ValueZeros(Plain().values, k);
  }

  lemma WrapOnce(x: nat, n: nat)
    requires 0 < n && x < 2 * n
    ensures Wrap(x, n) == if x < n then x else x - n
  {
  }

  /** A page-sized ring with these positions holding these records. */
  predicate Stands(r: Ring, q: seq<Record>, read: nat, write: nat) {
    |r.data| == 4096 && r.read == read && r.write == write && Holds(r, q)
  }

  /** Where a write of 2000 bytes leaves the write position. */
  function Onward(write: nat): nat {
    if write + 2000 < 4096 then write + 2000 else write + 2000 - 4096
  }

  lemma PlainPlaced(r: Ring)
    requires ValidRing(r) && |r.data| == 4096 && Admits(r, 2000)
    ensures WriteRing(r, Plain()).read == r.read && |WriteRing(r, Plain()).data| == 4096
    ensures WriteRing(r, Plain()).write == Onward(r.write)
  {
    PlainSize();
    WrapOnce(r.write + 2000, 4096);
  }

  /** A write that fits appends its record and advances the write position. */
  lemma PlainWritten(r: Ring, q: seq<Record>, read: nat, write: nat)
    requires Stands(r, q, read, write) && Fits(r, 2000)
    ensures Admits(r, SerializedSize(Plain()))
    ensures Stands(WriteRing(r, Plain()), q + [Plain()], read, Onward(write))
  {
    PlainSize();
    AdmissionExact(r, 2000);
    PlainPlaced(r);
    WriteRefines(r, q, Plain());
  }

  lemma PlainRead(r: Ring, q: seq<Record>, read: nat, write: nat)
    requires Stands(r, [Plain()] + q, read, write) && read + 2000 < 4096
    ensures Stands(ReadRing(r).0, q, read + 2000, write)
  {
    PlainSize();
    var all := [Plain()] + q;
    assert all[1..] == q && Bytes(all) == Encode(Plain()) + Bytes(q);
    EmptyIff(r, all);
    var tail := ViewBegins(r, Encode(Plain()), Bytes(q));
    DecodedSize(Plain(), tail);
    DropFront(r, Encode(Plain()), Bytes(q));
    WrapOnce(read + 2000, 4096);
  }

  lemma FirstWritten(data: seq<byte>)
    requires |data| == 4096
    ensures ValidRing(Ring(data, 0, 0)) && Stands(WriteRing(Ring(data, 0, 0), Plain()), [Plain()], 0, 2000)
  {
    EmptyHolds(data);
    PlainWritten(Ring(data, 0, 0), [], 0, 0);
    assert [] + [Plain()] == [Plain()];
  }

  lemma SecondWritten(a: Ring)
    requires Stands(a, [Plain()], 0, 2000)
    ensures Stands(WriteRing(a, Plain()), [Plain(), Plain()], 0, 4000)
  {
    PlainWritten(a, [Plain()], 0, 2000);
    TwoPlain();
  }

  lemma TwoPlain()
    ensures [Plain()] + [Plain()] == [Plain(), Plain()]
  {
  }

  /** The ring after two writes to an empty one. */
  lemma TwoWritten(data: seq<byte>) returns (r: Ring)
    requires |data| == 4096
    ensures Stands(r, [Plain(), Plain()], 0, 4000)
    ensures ValidRing(Ring(data, 0, 0)) && ValidRing(WriteRing(Ring(data, 0, 0), Plain()))
    ensures r == WriteRing(WriteRing(Ring(data, 0, 0), Plain()), Plain())
  {
    FirstWritten(data);
    SecondWritten(WriteRing(Ring(data, 0, 0), Plain()));
    r := WriteRing(WriteRing(Ring(data, 0, 0), Plain()), Plain());
  }

  /** A read and a write, which fits, then wrap the write position behind the read position. */
  lemma ThenWrapped(b: Ring) returns (r: Ring)
    requires Stands(b, [Plain(), Plain()], 0, 4000)
    ensures Stands(r, [Plain(), Plain()], 2000, 1904)
    ensures ValidRing(ReadRing(b).0) && Admits(ReadRing(b).0, SerializedSize(Plain()))
    ensures r == WriteRing(ReadRing(b).0, Plain())
  {
    TwoPlain();
    PlainRead(b, [Plain()], 0, 4000);
    PlainWritten(ReadRing(b).0, [Plain()], 2000, 4000);
    r := WriteRing(ReadRing(b).0, Plain());
  }

  lemma {:induction false} ZeroBytes(s: seq<byte>)
    requires forall k :: 0 <= k < |s| ==> s[k] == 0
    ensures FromLittleEndian(s) == 0
  {
    if s != [] {
      ZeroBytes(s[1..]);
    }
  }

  lemma ZeroLoads(v: seq<byte>, at: nat)
    requires at + 8 <= 56 <= |v| && forall k :: 0 <= k < 56 ==> v[k] == 0
    ensures LoadWord(v, at) == 0
  {
    ZeroBytes(v[at..at + 8]);
  }

  lemma ZeroHeaderDecodes(v: seq<byte>)
    requires 56 <= |v| && forall k :: 0 <= k < 56 ==> v[k] == 0
    ensures Decode(v) == Some(Record([], []))
  {
    ZeroLoads(v, 16);
    ZeroLoads(v, 8);
  }

  /**
    There the next write is let in although it does not fit. It overwrites the header of the oldest
    unread record: the following read delivers an empty record that nobody wrote.
  */
  lemma WrappedWriteDestroys(r: Ring)
    requires Stands(r, [Plain(), Plain()], 2000, 1904)
    ensures Admits(r, SerializedSize(Plain())) && !Fits(r, SerializedSize(Plain()))
    ensures ValidRing(WriteRing(r, Plain())) && ReadRing(WriteRing(r, Plain())).1 == Delivered(Record([], []))
  {
    PlainSize();
    var r' := WriteRing(r, Plain());
    WrapOnce(3904, 4096);
    var v := View(r'.data, 2000);
    forall k | 0 <= k < 56
      ensures v[k] == 0
    {
      MirrorAt(r.data, 1904, Encode(Plain()), 96 + k);
      PlainZeros(96 + k);
    }
    ZeroHeaderDecodes(v);
  }
}
