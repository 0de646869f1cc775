/**
  The sequential side of one process: the chunk ring, its reclaiming, and `mmlog_insert` run by
  one thread without interference. The state is updated in place, as the source does.
*/
module LogHandle {
  import opened Words
  import opened LogAlign
  import opened LogModel
  import opened LogSplit

  class ChunkInfo {
    const start: nat
    const size: nat
    var untracked: bool
    var refCount: nat
    var mapped: bool

    constructor (start: nat, size: nat)
      ensures this.start == start && this.size == size
      ensures !untracked && refCount == 1 && mapped
    {
      this.start, this.size := start, size;
      untracked, refCount, mapped := false, 1, true;
    }

    /** `munmap` and `free`: legal once. */
    method Release()
      requires mapped
      modifies this`mapped
      ensures !mapped
    {
      mapped := false;
    }

    /** Not pinned by anybody: `clean_chunks` may release it. */
    predicate Idle()
      reads `untracked, `refCount
    {
      untracked || refCount == 0
    }
  }

  /** How many leading entries are true. */
  function Leading(flags: seq<bool>): (n: nat)
    ensures n <= |flags|
  {
    if flags == [] || !flags[0] then 0 else 1 + Leading(flags[1..])
  }

  /** It is the longest prefix of true entries. */
  lemma {:induction false} LeadingIsLongest(flags: seq<bool>, n: nat)
    requires n <= |flags|
    ensures n <= Leading(flags) <==> forall k :: 0 <= k < n ==> flags[k]
  {
    if n > 0 {
      if flags[0] {
        LeadingIsLongest(flags[1..], n - 1);
        assert forall k :: 0 <= k < n - 1 ==> flags[1..][k] == flags[k + 1];
        if forall k :: 0 <= k < n - 1 ==> flags[1..][k] {
          forall k | 0 <= k < n
            ensures flags[k]
          {
            if k > 0 {
              assert flags[1..][k - 1];
            }
          }
        }
      }
    }
  }

  lemma LeadingStep(flags: seq<bool>, k: nat)
    requires k <= Leading(flags)
    ensures if k < |flags| && flags[k] then k + 1 <= Leading(flags) else k == Leading(flags)
  {
    LeadingIsLongest(flags, k);
    if k < |flags| {
      LeadingIsLongest(flags, k + 1);
    }
  }

  /** Steps forward in the ring from `from` until `to`. */
  function Distance(from: nat, to: nat, capacity: nat): (d: nat)
    requires from < capacity && to < capacity
    ensures d < capacity
    ensures d == 0 <==> from == to
  {
    if from <= to then to - from else to + capacity - from
  }

  function Forward(from: nat, k: nat, capacity: nat): (i: nat)
    requires from < capacity && k <= capacity
    ensures i < capacity
  {
    if from + k < capacity then from + k else from + k - capacity
  }

  /** The slots from the tail up to, not including, the head. */
  function Window<T>(slots: seq<T>, tail: Option<nat>, head: nat): (q: seq<T>)
    requires head < |slots| && (tail.Some? ==> tail.value < |slots|)
    ensures |q| == if tail.None? then 0 else Distance(tail.value, head, |slots|)
    ensures forall k :: 0 <= k < |q| ==> tail.Some? && q[k] == slots[Forward(tail.value, k, |slots|)]
  {
    if tail.None? then []
    else seq(Distance(tail.value, head, |slots|), k requires 0 <= k < |slots| => slots[Forward(tail.value, k, |slots|)])
  }

  lemma WindowDrops<T>(slots: seq<T>, at: nat, head: nat)
    requires at < |slots| && head < |slots| && at != head
    ensures Window(slots, Some(Forward(at, 1, |slots|)), head) == Window(slots, Some(at), head)[1..]
    ensures Window(slots, Some(at), head)[0] == slots[at]
  {
  }

  /** The slot after the head is outside the window while the ring is not full. */
  lemma NextOutside(tail: nat, head: nat, k: nat, capacity: nat)
    requires 2 <= capacity && head < capacity && tail < capacity && k <= Distance(tail, head, capacity)
    requires tail != Forward(head, 1, capacity)
    ensures Forward(tail, k, capacity) != Forward(head, 1, capacity)
    ensures Distance(tail, Forward(head, 1, capacity), capacity) == Distance(tail, head, capacity) + 1
    ensures k == Distance(tail, head, capacity) ==> Forward(tail, k, capacity) == head
  {
  }

  lemma WindowKeeps<T>(slots: seq<T>, tail: Option<nat>, head: nat, c: T)
    requires 2 <= |slots| && head < |slots| && (tail.Some? ==> tail.value < |slots|)
    requires tail != Some(Forward(head, 1, |slots|))
    ensures Window(slots[Forward(head, 1, |slots|) := c], tail, head) == Window(slots, tail, head)
  {
    var n, after := |slots|, slots[Forward(head, 1, |slots|) := c];
    if tail.Some? {
      forall k | 0 <= k < Distance(tail.value, head, n)
        ensures Window(after, tail, head)[k] == Window(slots, tail, head)[k]
      {
        NextOutside(tail.value, head, k, n);
      }
    }
  }

  lemma WindowExtends<T>(slots: seq<T>, tail: Option<nat>, head: nat, c: T)
    requires 2 <= |slots| && head < |slots| && (tail.Some? ==> tail.value < |slots|)
    requires tail != Some(Forward(head, 1, |slots|))
    ensures Window(slots[Forward(head, 1, |slots|) := c], tail, Forward(head, 1, |slots|)) ==
            Window(slots, tail, head) + if tail.Some? then [slots[head]] else []
  {
    var n, next := |slots|, Forward(head, 1, |slots|);
    if tail.Some? {
      var d := Distance(tail.value, head, n);
      var longer := Window(slots[next := c], tail, next);
      NextOutside(tail.value, head, d, n);
      forall k | 0 <= k < d + 1
        ensures longer[k] == (Window(slots, tail, head) + [slots[head]])[k]
      {
        NextOutside(tail.value, head, k, n);
      }
    }
  }

  predicate Distinct<T(==)>(q: seq<T>, skip: T) {
    forall i, j :: 0 <= i < j < |q| && q[i] != skip ==> q[i] != q[j]
  }

  lemma WindowDistinct<T>(slots: seq<T>, tail: Option<nat>, head: nat, skip: T)
    requires head < |slots| && (tail.Some? ==> tail.value < |slots|) && Distinct(slots, skip)
    ensures Distinct(Window(slots, tail, head), skip)
  {
    var q := Window(slots, tail, head);
    forall i, j | 0 <= i < j < |q| && q[i] != skip
      ensures q[i] != q[j]
    {
      var a, b := Forward(tail.value, i, |slots|), Forward(tail.value, j, |slots|);
      assert q[i] == slots[a] && q[j] == slots[b] && a != b;
    }
  }

  lemma NextIsForward(i: nat, capacity: nat)
    requires i < capacity
    ensures (i + 1) % capacity == Forward(i, 1, capacity)
  {
    if i + 1 < capacity {
      ModUnique(i + 1, capacity, 0, i + 1);
    } else {
      ModUnique(i + 1, capacity, 1, 0);
    }
  }

  /** A slot whose chunk exists and is not pinned. */
  predicate CanRelease(c: ChunkInfo?)
    reads if c == null then {} else {c}
  {
    c != null && c.Idle()
  }

  /** Which of these slots could be released. */
  ghost function Releasable(q: seq<ChunkInfo?>): (flags: seq<bool>)
    reads q
    ensures |flags| == |q|
    ensures forall k :: 0 <= k < |q| ==> flags[k] == CanRelease(q[k])
  {
    if q == [] then [] else [CanRelease(q[0])] + Releasable(q[1..])
  }

  ghost function Elements(q: seq<ChunkInfo?>): set<ChunkInfo> {
    set c: ChunkInfo | c in q
  }

  lemma DropOne(q: seq<ChunkInfo?>, k: nat)
    requires k < |q|
    ensures q[k..][1..] == q[k + 1..]
    ensures Elements(q[..k + 1]) == Elements(q[..k]) + Elements(q[k..][..1])
  {
    assert q[..k + 1] == q[..k] + q[k..][..1];
  }

  lemma RemoveTwice(all: set<ChunkInfo>, a: set<ChunkInfo>, b: set<ChunkInfo>)
    ensures all - a - b == all - (a + b)
  {
  }

  class ChunkBuffer {
    const buffer: array<ChunkInfo?>
    var head: nat
    var tail: Option<nat>

    /** Indices in range and no chunk in two slots. */
    ghost predicate Valid()
      reads `head, `tail, buffer
    {
      2 <= buffer.Length && head < buffer.Length && (tail.Some? ==> tail.value < buffer.Length) &&
      Distinct(buffer[..], null)
    }

    /** The chunks that may be handed out or released are still mapped. */
    ghost predicate Live()
      requires Valid()
      reads `head, `tail, buffer, Chunks()
    {
      (buffer[head] != null ==> buffer[head].mapped) &&
      forall c :: c in Chunks() && c in Tracked() ==> c.mapped
    }

    ghost function Chunks(): set<ChunkInfo>
      reads buffer
    {
      set c: ChunkInfo | c in buffer[..]
    }

    /** The chunks in the ring whose mapping is still in place. */
    ghost function MappedSet(): set<ChunkInfo>
      reads buffer, Chunks()
    {
      set c | c in Chunks() && c.mapped
    }

    /** The chunks that cleaning may look at, oldest first. */
    ghost function Tracked(): seq<ChunkInfo?>
      requires Valid()
      reads `head, `tail, buffer
    {
      Window(buffer[..], tail, head)
    }

    constructor (capacity: nat)
      requires capacity >= 2
      ensures Valid() && fresh(buffer) && buffer.Length == capacity && head == 0 && tail == None
      ensures forall i :: 0 <= i < capacity ==> buffer[i] == null
    {
      buffer := new ChunkInfo?[capacity](_ => null);
      head, tail := 0, None;
    }

    /** The tail moves over the oldest tracked slot. */
    method DropTail()
      requires Valid() && tail.Some? && tail.value != head
      modifies this`tail
      ensures Valid() && tail.Some?
      ensures old(Tracked()) != [] && old(Tracked())[0] == buffer[old(tail).value]
      ensures Tracked() == old(Tracked())[1..]
    {
      var at := tail.value;
      WindowDrops(buffer[..], at, head);
      NextIsForward(at, buffer.Length);
      tail := Some((at + 1) % buffer.Length);
    }

    /** A chunk that has been dropped is neither the head nor still tracked. */
    lemma DroppedIsAlone(at: nat)
      requires Valid() && at < buffer.Length && at != head && buffer[at] != null
      requires Window(buffer[..], Some(at), head)[1..] == Tracked()
      ensures buffer[head] != buffer[at] && buffer[at] !in Tracked() && buffer[at] in Chunks()
    {
      WindowDistinct(buffer[..], Some(at), head, null);
      WindowDrops(buffer[..], at, head);
      var q := Window(buffer[..], Some(at), head);
      assert q[0] == buffer[at];
      forall k | 0 <= k < |Tracked()|
        ensures Tracked()[k] != buffer[at]
      {
        assert q[0] != q[k + 1];
      }
      assert buffer[..][at] != buffer[..][head];
    }

    /** Unmapping a chunk that is neither the head nor tracked. */
    method Unmap(chunk: ChunkInfo)
      requires Valid() && Live() && chunk in Chunks() && chunk.mapped
      requires buffer[head] != chunk && chunk !in Tracked()
      modifies chunk`mapped
      ensures Valid() && Live() && Tracked() == old(Tracked())
      ensures MappedSet() == old(MappedSet()) - {chunk}
    {
      chunk.Release();
    }

    /** One round of the cleaning loop. */
    method CleanOldest() returns (released: bool)
      requires Valid() && Live()
      modifies this`tail, Chunks()`mapped
      ensures Valid() && Live() && tail.Some? == old(tail).Some?
      ensures released == old(Tracked() != [] && CanRelease(Tracked()[0]))
      ensures !released ==> tail == old(tail)
      ensures released ==> Tracked() == old(Tracked())[1..]
      ensures MappedSet() == old(MappedSet()) - (if released then Elements(old(Tracked())[..1]) else {})
    {
      released := false;
      if tail.None? || tail.value == head {
        return;
      }
      var at := tail.value;
      var chunk := buffer[at];
      WindowDrops(buffer[..], at, head);
      if chunk == null || !chunk.Idle() {
        return;
      }
      assert chunk in Tracked() && chunk in buffer[..];
      assert Elements(Tracked()[..1]) == {chunk};
      DropTail();
      DroppedIsAlone(at);
      Unmap(chunk);
      released := true;
    }

    /** The oldest tracked chunk, if there is one, cannot be released. */
    ghost predicate NothingToRelease()
      requires Valid()
      reads `head, `tail, buffer, Chunks()
    {
      Tracked() == [] || !CanRelease(Tracked()[0])
    }

    /** The first `k` of `all` have been released, and nothing else. */
    ghost predicate Cleaned(all: seq<ChunkInfo?>, k: nat, mapped: set<ChunkInfo>)
      requires Valid()
      reads `head, `tail, buffer, Chunks()
    {
      Live() && k <= |all| && Tracked() == all[k..] && MappedSet() == mapped - Elements(all[..k])
    }

    /** One more round: the next one is released if it can be. */
    method CleanNext(ghost all: seq<ChunkInfo?>, ghost k: nat, ghost mapped: set<ChunkInfo>) returns (more: bool)
      requires Valid() && Cleaned(all, k, mapped)
      modifies this`tail, Chunks()`mapped
      ensures Valid() && tail.Some? == old(tail).Some?
      ensures more == (k < |all| && CanRelease(all[k]))
      ensures Cleaned(all, if more then k + 1 else k, mapped)
      ensures forall j :: 0 <= j < |all| ==> CanRelease(all[j]) == old(CanRelease(all[j]))
    {
      more := CleanOldest();
      if more {
        DropOne(all, k);
        RemoveTwice(mapped, Elements(all[..k]), Elements(all[k..][..1]));
      }
    }

    /**
      Releases exactly the longest reclaimable prefix from the tail, each chunk once. A chunk
      that is pinned, the head, and everything behind them stay as they are.
    */
    method CleanChunks()
      requires Valid() && Live()
      modifies this`tail, Chunks()`mapped
      ensures Valid() && Live() && tail.Some? == old(tail).Some?
      ensures Tracked() == old(Tracked())[old(Leading(Releasable(Tracked())))..]
      ensures MappedSet() == old(MappedSet()) - Elements(old(Tracked())[..old(Leading(Releasable(Tracked())))])
      ensures NothingToRelease()
    {
      ghost var all, flags, mapped, k := Tracked(), Releasable(Tracked()), MappedSet(), 0;
      var more := true;
      while more
        invariant Valid() && tail.Some? == old(tail).Some? && Cleaned(all, k, mapped)
        invariant forall j :: 0 <= j < |all| ==> CanRelease(all[j]) == flags[j]
        invariant k <= Leading(flags) && (!more ==> k == Leading(flags) && (k < |all| ==> !CanRelease(all[k])))
        decreases |all| - k, more
      {
        LeadingStep(flags, k);
        more := CleanNext(all, k, mapped);
        assert k < |all| ==> CanRelease(all[k]) == flags[k];
        k := if more then k + 1 else k;
      }
    }

    /** What is tracked once a full ring has been cleaned. */
    ghost function AfterCleaning(): seq<ChunkInfo?>
      requires Valid()
      reads `head, `tail, buffer, Chunks()
    {
      if tail == Some(Forward(head, 1, buffer.Length)) then Tracked()[Leading(Releasable(Tracked()))..] else Tracked()
    }

    /** The ring is full and cleaning would not release anything. */
    ghost predicate Stuck()
      requires Valid()
      reads `head, `tail, buffer, Chunks()
    {
      tail == Some(Forward(head, 1, buffer.Length)) && AfterCleaning() == Tracked()
    }

    /** Cleans a full ring once; false when that does not help. */
    method MakeRoom() returns (room: bool)
      requires Valid() && Live()
      modifies `tail, Chunks()`mapped
      ensures Valid() && Live() && tail.Some? == old(tail).Some?
      ensures room == !old(Stuck()) && room == (tail != Some(Forward(head, 1, buffer.Length)))
      ensures Tracked() == old(AfterCleaning())
    {
      NextIsForward(head, buffer.Length);
      if tail == Some((head + 1) % buffer.Length) {
        CleanChunks();
      }
      room := tail != Some((head + 1) % buffer.Length);
    }

    /** Stores into the slot behind the head: nothing that is tracked or handed out changes. */
    method StoreNext(c: ChunkInfo?)
      requires Valid() && tail != Some(Forward(head, 1, buffer.Length)) && (c != null ==> c !in Chunks())
      modifies buffer
      ensures Valid() && buffer[..] == old(buffer[..])[Forward(head, 1, buffer.Length) := c]
      ensures Tracked() == old(Tracked()) && buffer[head] == old(buffer[head])
      ensures Chunks() <= old(Chunks()) + (if c == null then {} else {c})
    {
      NextIsForward(head, buffer.Length);
      WindowKeeps(buffer[..], tail, head, c);
      ghost var slots := buffer[..];
      var next := (head + 1) % buffer.Length;
      buffer[next] := c;
      assert buffer[..] == slots[next := c];
    }

    /** The stored chunk becomes the head, and the old head is tracked. */
    method Advance(ghost slots: seq<ChunkInfo?>)
      requires Valid() && tail != Some(Forward(head, 1, buffer.Length)) && |slots| == buffer.Length
      requires buffer[..] == slots[Forward(head, 1, buffer.Length) := buffer[Forward(head, 1, buffer.Length)]]
      modifies `head
      ensures Valid() && head == Forward(old(head), 1, buffer.Length)
      ensures Tracked() == Window(slots, tail, old(head)) + if tail.Some? then [slots[old(head)]] else []
    {
      NextIsForward(head, buffer.Length);
      WindowExtends(slots, tail, head, buffer[Forward(head, 1, buffer.Length)]);
      head := (head + 1) % buffer.Length;
    }

    /** Stores a chunk (or null, after a failed creation) behind the head; a chunk becomes the head. */
    method Publish(c: ChunkInfo?)
      requires Valid() && Live() && tail != Some(Forward(head, 1, buffer.Length))
      requires c != null ==> c !in Chunks() && c.mapped
      modifies `head, buffer
      ensures Valid() && Live()
      ensures buffer[..] == old(buffer[..])[Forward(old(head), 1, buffer.Length) := c]
      ensures Chunks() <= old(Chunks()) + (if c == null then {} else {c})
      ensures c == null ==> head == old(head) && Tracked() == old(Tracked())
      ensures c != null ==> head == Forward(old(head), 1, buffer.Length) && buffer[head] == c
      ensures c != null ==> Tracked() == old(Tracked()) + if tail.Some? then [old(buffer[head])] else []
    {
      ghost var slots := buffer[..];
      StoreNext(c);
      if c != null {
        Advance(slots);
      }
    }

    /**
      Makes room if the ring is full, then maps a chunk around `cursor` and makes it the head.
      The old head joins the tracked chunks. On failure the head and the tracked chunks stay.
    */
    method AddNewChunk(cursor: nat, chunkSize: nat, mapOk: bool) returns (c: ChunkInfo?)
      requires Valid() && Live() && chunkSize > 0
      modifies `head, `tail, buffer, Chunks()`mapped
      ensures Valid() && Live() && tail.Some? == old(tail).Some?
      ensures c == null <==> old(Stuck()) || !mapOk
      ensures c == null ==> head == old(head) && Tracked() == old(AfterCleaning()) && Chunks() <= old(Chunks())
      ensures buffer[..] ==
              if old(Stuck()) then old(buffer[..]) else old(buffer[..])[Forward(old(head), 1, buffer.Length) := c]
      ensures c != null ==> fresh(c) && c.start == ChunkStart(chunkSize, cursor) && c.size == chunkSize &&
                            c.refCount == 1 && !c.untracked && c.mapped
      ensures c != null ==> head == Forward(old(head), 1, buffer.Length) && buffer[head] == c &&
                            Chunks() <= old(Chunks()) + {c}
      ensures c != null ==>
                Tracked() == old(AfterCleaning()) + if tail.Some? then [old(buffer[head])] else []
    {
      var room := MakeRoom();
      if !room {
        return null;
      }
      c := null;
      if mapOk {
        c := new ChunkInfo(ChunkStart(chunkSize, cursor), chunkSize);
      }
      Publish(c);
    }
  }

  /** What the system does during one insert: each call it makes may fail. */
  datatype Env = Env(growOk: bool, written: nat, mapOk: nat -> bool)
  {
    /** Neither `pwrite` nor any `mmap` fails. */
    ghost predicate Succeeds(size: nat) {
      written >= size && forall at :: mapOk(at)
    }
  }

  /** The chunk that serves a position reaches up to the next chunk boundary. */
  lemma PieceInChunk(cs: nat, c: Chunk, at: nat)
    requires cs > 0 && c.size == cs && c.start == ChunkStart(cs, c.start) && InChunk(c, at)
    ensures c.start + c.size == ChunkEnd(cs, at)
  {
    ModUnique(at, cs, c.start / cs, at - c.start);
  }

  /** The file keeps its bytes, except inside [from, to); it may have grown. */
  predicate OnlyWithin(was: seq<byte>, file: seq<byte>, from: nat, to: nat) {
    |was| <= |file| && forall k :: 0 <= k < |was| && !(from <= k < to) ==> file[k] == was[k]
  }

  lemma WithinTwice(a: seq<byte>, b: seq<byte>, c: seq<byte>, from: nat, to: nat)
    requires OnlyWithin(a, b, from, to) && OnlyWithin(b, c, from, to)
    ensures OnlyWithin(a, c, from, to)
  {
  }

  /** Some first part of the payload has been stored, and nothing else. */
  ghost predicate PartStored(was: seq<byte>, file: seq<byte>, at: nat, data: seq<byte>) {
    exists n :: 0 <= n <= |data| && file == Overwrite(was, at, data[..n])
  }

  /** The first `done` bytes of the payload have been stored, and nothing else. */
  ghost predicate Stored(was: seq<byte>, file: seq<byte>, start: nat, data: seq<byte>, done: nat) {
    done <= |data| && |file| == |was| && file == Overwrite(was, start, data[..done]) &&
    OnlyWithin(was, file, start, start + |data|)
  }

  lemma StoresMore(was: seq<byte>, file: seq<byte>, start: nat, data: seq<byte>, done: nat, n: nat)
    requires start + |data| <= |was| && done + n <= |data| && Stored(was, file, start, data, done)
    ensures Stored(was, Overwrite(file, start + done, data[done..done + n]), start, data, done + n)
  {
    OverwriteJoins(was, start, data[..done], data[done..done + n]);
    assert data[..done] + data[done..done + n] == data[..done + n];
    OverwriteWithin(was, start, data, done + n);
  }

  /** A piece that leaves something ends at a boundary. */
  lemma PieceEnds(cs: nat, cur: nat, remaining: nat)
    requires cs > 0 && remaining > 0
    ensures var n := PieceLen(cs, cur, remaining);
            0 < n <= remaining && cur + n <= ChunkEnd(cs, cur) &&
            (n < remaining ==> cur + n == ChunkEnd(cs, cur) && (cur + n) % cs == 0)
  {
    PieceLenPositive(cs, cur, remaining);
    EndIsBoundary(cs, cur);
  }

  /** A chunk can be mapped at every boundary strictly between the two positions. */
  ghost predicate BoundariesMapped(cs: nat, from: nat, to: nat, mapOk: nat -> bool)
    requires cs > 0
  {
    forall b :: from < b < to && b % cs == 0 ==> mapOk(b)
  }

  /** One piece further: the only boundary it can meet is where it begins. */
  lemma NextBoundary(cs: nat, from: nat, cur: nat, next: nat, mapOk: nat -> bool)
    requires cs > 0 && from <= cur < next <= ChunkEnd(cs, cur) && (from < cur && cur % cs == 0 ==> mapOk(cur))
    requires BoundariesMapped(cs, from, cur, mapOk)
    ensures BoundariesMapped(cs, from, next, mapOk)
  {
    forall b | from < b < next && b % cs == 0
      ensures mapOk(b)
    {
      if b > cur {
        ChunkEndAbove(cs, cur);
        ModUnique(b, cs, cur / cs, b - ChunkStart(cs, cur));
      }
    }
  }

  lemma EndIsBoundary(cs: nat, cur: nat)
    requires cs > 0
    ensures ChunkEnd(cs, cur) % cs == 0
  {
    ModUnique(ChunkEnd(cs, cur), cs, cur / cs + 1, 0);
  }

  /** A range inside one chunk goes around the ring only if it is the whole chunk. */
  lemma OneChunkDirect(cs: nat, start: nat, size: nat)
    requires cs > 0 && start + size <= ChunkEnd(cs, start) && start + size < WORD64
    ensures WritesDirectly(cs, start, size) ==> size == cs
  {
    EndIsBoundary(cs, start);
    DivMonotone(start + size, ChunkEnd(cs, start), cs);
    ModUnique(ChunkEnd(cs, start), cs, start / cs + 1, 0);
    CrossCountExact(cs, start, size);
  }

  lemma OverwriteWithin(file: seq<byte>, at: nat, data: seq<byte>, n: nat)
    requires n <= |data| && at + |data| <= |file|
    ensures OnlyWithin(file, Overwrite(file, at, data[..n]), at, at + |data|)
    ensures |Overwrite(file, at, data[..n])| == |file|
  {
  }

  class LogHandle {
    const chunkSize: nat
    const chunks: ChunkBuffer
    var fileSize: nat
    var cursor: nat
    var panicked: bool
    var file: seq<byte>

    /** No other thread is inside: both locks are free, so recorded and physical size agree. */
    ghost predicate Valid()
      reads this, chunks`head, chunks`tail, chunks.buffer, chunks.Chunks()
    {
      ValidChunkSize(chunkSize) && fileSize == |file| && chunks.Valid() && chunks.Live() &&
      forall c :: c in chunks.Chunks() ==> c.size == chunkSize && c.start == ChunkStart(chunkSize, c.start)
    }

    constructor (chunkSize: nat, capacity: nat)
      requires ValidChunkSize(chunkSize) && capacity >= 2
      ensures Valid() && fresh(chunks) && fresh(chunks.buffer) && chunks.tail.None? && chunks.buffer.Length == capacity
      ensures this.chunkSize == chunkSize && cursor == 0 && !panicked && file == Zeros(chunkSize)
    {
      this.chunkSize := chunkSize;
      chunks := new ChunkBuffer(capacity);
      fileSize, cursor, panicked, file := chunkSize, 0, false, Zeros(chunkSize);
    }

    /** Grows the file to cover `end`; a log that cannot grow panics, and a panicked log never grows again. */
    method Expand(end: nat, growOk: bool) returns (ok: bool)
      requires Valid() && fileSize < end && end + chunkSize - 1 < WORD32
      modifies `fileSize, `panicked, `file
      ensures fileSize == |file| && (ok ==> end <= |file|)
      ensures ok <==> growOk && !old(panicked)
      ensures file == if ok then old(Covering(file, end, chunkSize)) else old(file)
      ensures panicked == (old(panicked) || !growOk)
    {
      if panicked {
        return false;
      }
      if !growOk {
        panicked := true;
        return false;
      }
      AlignBelowBound(end, chunkSize);
      fileSize := Align(end, chunkSize);
      file := Resize(file, fileSize);
      ok := true;
    }

    /** Reserves a range, and grows the file if the range ends past the recorded size. */
    method Checkout(size: nat, growOk: bool) returns (start: Option<nat>)
      requires Valid() && cursor + size + chunkSize - 1 < WORD32
      modifies this
      ensures Valid() && cursor == old(cursor) + size
      ensures start.Some? <==> cursor <= old(fileSize) || (growOk && !old(panicked))
      ensures start.Some? ==>
                start.value == old(cursor) && file == old(Covering(file, cursor + size, chunkSize)) && cursor <= |file|
      ensures start.None? ==> panicked && file == old(file)
      ensures OnlyWithin(old(file), file, old(cursor), cursor)
      ensures panicked == (old(panicked) || (cursor > old(fileSize) && !growOk))
    {
      start := Some(cursor);
      cursor := (cursor + size) % WORD64;
      if cursor > fileSize {
        var ok := Expand(cursor, growOk);
        if !ok {
          start := None;
        }
      }
    }

    /** The fetch-add on a reference count. */
    method Pin(c: ChunkInfo)
      modifies c`refCount
      ensures c.refCount == old(c.refCount) + 1
    {
      c.refCount := c.refCount + 1;
    }

    method Unpin(c: ChunkInfo)
      requires c.refCount > 0
      modifies c`refCount
      ensures c.refCount == old(c.refCount) - 1
    {
      c.refCount := c.refCount - 1;
    }

    /** The head chunk holds this position. */
    ghost predicate HeadServes(at: nat)
      requires chunks.Valid()
      reads chunks`head, chunks`tail, chunks.buffer
    {
      var head := chunks.buffer[chunks.head];
      head != null && head.start <= at < head.start + head.size
    }

    /** A fresh chunk around `at`, published as the head. */
    method NewChunk(at: nat, mapOk: bool) returns (c: ChunkInfo?)
      requires Valid()
      modifies chunks`head, chunks`tail, chunks.buffer, chunks.Chunks()`mapped
      ensures Valid() && chunks.tail.Some? == old(chunks.tail).Some?
      ensures chunks.Chunks() <= old(chunks.Chunks()) + (if c == null then {} else {c})
      ensures c != null ==> fresh(c) && c == chunks.buffer[chunks.head] && c.mapped && c.refCount == 1
      ensures c != null ==> c.start <= at < c.start + c.size
      ensures c == null <==> old(chunks.Stuck()) || !mapOk
    {
      c := chunks.AddNewChunk(at, chunkSize, mapOk);
      ChunkEndAbove(chunkSize, at);
      ModUnique(ChunkStart(chunkSize, at), chunkSize, at / chunkSize, 0);
    }

    /**
      The chunk that serves `at`: the head if it does, whatever `mmap` would answer, and else a new
      one. It is pinned once more, and no other count changes.
    */
    method RbCheckout(at: nat, mapOk: bool) returns (c: ChunkInfo?)
      requires Valid()
      modifies chunks`head, chunks`tail, chunks.buffer, chunks.Chunks()
      ensures Valid() && chunks.tail.Some? == old(chunks.tail).Some?
      ensures fresh(chunks.Chunks() - old(chunks.Chunks()))
      ensures c == null <==> !old(HeadServes(at)) && (old(chunks.Stuck()) || !mapOk)
      ensures c != null ==> c == chunks.buffer[chunks.head] && c.mapped && c.start <= at < c.start + c.size
      ensures old(HeadServes(at)) ==>
                c == old(chunks.buffer[chunks.head]) && c.refCount == old(chunks.buffer[chunks.head].refCount) + 1
      ensures old(HeadServes(at)) ==> chunks.head == old(chunks.head) && chunks.tail == old(chunks.tail)
      ensures old(HeadServes(at)) ==> chunks.buffer[..] == old(chunks.buffer[..])
      ensures !old(HeadServes(at)) && c != null ==> fresh(c) && c.refCount == 2
      ensures chunks.Chunks() <= old(chunks.Chunks()) + (if c == null then {} else {c})
      ensures forall x :: x in old(chunks.Chunks()) && x != c ==> x.refCount == old(x.refCount)
    {
      c := chunks.buffer[chunks.head];
      if c == null || !(c.start <= at < c.start + c.size) {
        c := NewChunk(at, mapOk);
      }
      if c != null {
        assert c in chunks.buffer[..];
        Pin(c);
      }
    }

    /** Copies one piece through its chunk and drops the pin again. */
    method WriteToChunk(at: nat, data: seq<byte>, mapOk: bool) returns (ok: bool)
      requires Valid() && at + |data| <= |file| && at + |data| <= ChunkEnd(chunkSize, at)
      modifies `file, chunks`head, chunks`tail, chunks.buffer, chunks.Chunks()
      ensures Valid() && chunks.tail.Some? == old(chunks.tail).Some?
      ensures fresh(chunks.Chunks() - old(chunks.Chunks()))
      ensures file == if ok then Overwrite(old(file), at, data) else old(file)
      ensures ok <==> old(HeadServes(at)) || (mapOk && !old(chunks.Stuck()))
      ensures ok ==> HeadServes(at) && !HeadServes(ChunkEnd(chunkSize, at))
      ensures old(HeadServes(at)) ==> chunks.head == old(chunks.head) && chunks.tail == old(chunks.tail)
      ensures old(HeadServes(at)) ==> chunks.buffer[..] == old(chunks.buffer[..])
      ensures forall x :: x in old(chunks.Chunks()) ==> x.refCount == old(x.refCount)
      ensures forall x :: x in chunks.Chunks() - old(chunks.Chunks()) ==> x.refCount == 1
    {
      var chunk := RbCheckout(at, mapOk);
      if chunk == null {
        return false;
      }
      assert chunk in chunks.buffer[..];
      ghost var snapshot := Chunk(chunk.start, chunk.size, 0, chunk.mapped);
      PieceInChunk(chunkSize, snapshot, at);
      assert chunk.mapped && at + |data| <= chunk.start + chunk.size;
      file := Overwrite(file, at, data);
      Unpin(chunk);
      ok := true;
    }

    /** The head chunk holds the whole range. */
    ghost predicate HeadHolds(at: nat, size: nat)
      requires chunks.Valid()
      reads chunks`head, chunks`tail, chunks.buffer
    {
      HeadServes(at) && at + size <= chunks.buffer[chunks.head].start + chunks.buffer[chunks.head].size
    }

    /** Every piece finds its chunk: the first in the head or a new one, the others in new ones. */
    ghost predicate PiecesMapped(start: nat, size: nat, mapOk: nat -> bool)
      requires Valid()
      reads this, chunks`head, chunks`tail, chunks.buffer, chunks.Chunks()
    {
      (HeadServes(start) || mapOk(start)) && BoundariesMapped(chunkSize, start, start + size, mapOk)
    }

    /** In a head that holds the whole range the loop is one piece. */
    lemma HeadHoldsPiece(start: nat, size: nat)
      requires Valid() && HeadHolds(start, size)
      ensures start + size <= ChunkEnd(chunkSize, start)
    {
      var head := chunks.buffer[chunks.head];
      assert head in chunks.buffer[..];
      PieceInChunk(chunkSize, Chunk(head.start, head.size, 0, true), start);
    }

    /** One round of the chunk loop. */
    method WritePiece(start: nat, data: seq<byte>, done: nat, mapOk: bool, ghost was: seq<byte>)
        returns (ok: bool, n: nat)
      requires Valid() && done < |data| && start + |data| <= |was| && Stored(was, file, start, data, done)
      modifies `file, chunks`head, chunks`tail, chunks.buffer, chunks.Chunks()
      ensures Valid() && chunks.tail.Some? == old(chunks.tail).Some?
      ensures fresh(chunks.Chunks() - old(chunks.Chunks()))
      ensures n == PieceLen(chunkSize, start + done, |data| - done) && 0 < n <= |data| - done
      ensures start + done + n <= ChunkEnd(chunkSize, start + done)
      ensures Stored(was, file, start, data, if ok then done + n else done)
      ensures ok <==> old(HeadServes(start + done)) || (mapOk && !old(chunks.Stuck()))
      ensures ok && done + n < |data| ==> (start + done + n) % chunkSize == 0 && !HeadServes(start + done + n)
      ensures old(HeadServes(start + done)) ==> chunks.head == old(chunks.head) && chunks.tail == old(chunks.tail)
      ensures old(HeadServes(start + done)) ==> chunks.buffer[..] == old(chunks.buffer[..])
      ensures forall x :: x in old(chunks.Chunks()) ==> x.refCount == old(x.refCount)
      ensures forall x :: x in chunks.Chunks() - old(chunks.Chunks()) ==> x.refCount == 1
    {
      PieceEnds(chunkSize, start + done, |data| - done);
      n := PieceLen(chunkSize, start + done, |data| - done);
      StoresMore(was, file, start, data, done, n);
      ok := WriteToChunk(start + done, data[done..done + n], mapOk);
    }

    /**
      The chunk loop of `mmlog_insert`: its pieces add up to one store of the whole payload. With a null
      tail it succeeds exactly if every piece finds its chunk; a payload that the head holds needs no new
      one. A failure leaves the pieces before it. No count is changed.
    */
    method WriteLoop(start: nat, data: seq<byte>, mapOk: nat -> bool) returns (ok: bool)
      requires Valid() && start + |data| <= |file| && data != []
      modifies `file, chunks`head, chunks`tail, chunks.buffer, chunks.Chunks()
      ensures Valid() && chunks.tail.Some? == old(chunks.tail).Some?
      ensures fresh(chunks.Chunks() - old(chunks.Chunks()))
      ensures ok ==> file == Overwrite(old(file), start, data)
      ensures OnlyWithin(old(file), file, start, start + |data|) && PartStored(old(file), file, start, data)
      ensures old(chunks.tail).None? ==> ok == old(PiecesMapped(start, |data|, mapOk))
      ensures old(HeadHolds(start, |data|)) ==> ok && chunks.head == old(chunks.head) && chunks.tail == old(chunks.tail)
      ensures old(HeadHolds(start, |data|)) ==> chunks.buffer[..] == old(chunks.buffer[..])
      ensures forall x :: x in old(chunks.Chunks()) ==> x.refCount == old(x.refCount)
      ensures forall x :: x in chunks.Chunks() - old(chunks.Chunks()) ==> x.refCount == 1
    {
      var done := 0;
      ghost var was, served := file, HeadServes(start);
      ghost var holds := HeadHolds(start, |data|);
      assert Stored(was, file, start, data, 0) by {
        OverwriteWithin(was, start, data, 0);
        assert data[..0] == [];
      }
      while done < |data|
        invariant Valid() && chunks.tail.Some? == old(chunks.tail).Some?
        invariant fresh(chunks.Chunks() - old(chunks.Chunks())) && Stored(was, file, start, data, done)
        invariant done == 0 || holds ==> chunks.head == old(chunks.head) && chunks.tail == old(chunks.tail)
        invariant done == 0 || holds ==> chunks.buffer[..] == old(chunks.buffer[..])
        invariant holds ==> done == 0 || done == |data|
        invariant 0 < done < |data| ==> (start + done) % chunkSize == 0 && !HeadServes(start + done)
        invariant chunks.tail.None? ==> BoundariesMapped(chunkSize, start, start + done, mapOk)
        invariant chunks.tail.None? && done > 0 ==> served || mapOk(start)
        invariant forall x :: x in old(chunks.Chunks()) ==> x.refCount == old(x.refCount)
        invariant forall x :: x in chunks.Chunks() - old(chunks.Chunks()) ==> x.refCount == 1
      {
        if holds {
          HeadHoldsPiece(start, |data|);
        }
        var n;
        ok, n := WritePiece(start, data, done, mapOk(start + done), was);
        if !ok {
          return;
        }
        if chunks.tail.None? {
          NextBoundary(chunkSize, start, start + done, start + done + n, mapOk);
        }
        done := done + n;
      }
      assert data[..done] == data;
      ok := true;
    }

    /** What the write half of an insert needs with a null tail. */
    ghost predicate RangeWrites(start: nat, data: seq<byte>, env: Env)
      requires Valid()
      reads this, chunks`head, chunks`tail, chunks.buffer, chunks.Chunks()
    {
      if WritesDirectly(chunkSize, start, |data|) then env.written >= |data|
      else PiecesMapped(start, |data|, env.mapOk)
    }

    /** One `pwrite`, which may be cut short. */
    method WriteDirectly(start: nat, data: seq<byte>, written: nat) returns (ok: bool)
      requires Valid() && start + |data| <= |file|
      modifies `file
      ensures Valid() && ok == (written >= |data|)
      ensures file == Overwrite(old(file), start, if ok then data else data[..written])
      ensures OnlyWithin(old(file), file, start, start + |data|) && PartStored(old(file), file, start, data)
    {
      ok := written >= |data|;
      OverwriteWithin(file, start, data, if ok then |data| else written);
      assert data[..|data|] == data;
      file := Overwrite(file, start, if ok then data else data[..written]);
    }

    /** The write half of `mmlog_insert`: one `pwrite`, or the chunk loop followed by cleaning. */
    method WriteRange(start: nat, data: seq<byte>, env: Env) returns (ok: bool)
      requires Valid() && start + |data| <= |file| && data != [] && start + |data| < WORD64
      modifies `file, chunks`head, chunks`tail, chunks.buffer, chunks.Chunks()
      ensures Valid() && chunks.tail.Some? == old(chunks.tail).Some?
      ensures fresh(chunks.Chunks() - old(chunks.Chunks()))
      ensures ok ==> file == Overwrite(old(file), start, data)
      ensures OnlyWithin(old(file), file, start, start + |data|) && PartStored(old(file), file, start, data)
      ensures old(chunks.tail).None? ==> ok == old(RangeWrites(start, data, env))
      ensures old(HeadHolds(start, |data|)) && (|data| == chunkSize ==> env.written >= |data|) ==> ok
      ensures old(HeadHolds(start, |data|)) || WritesDirectly(chunkSize, start, |data|) ==>
                chunks.head == old(chunks.head) && chunks.buffer[..] == old(chunks.buffer[..])
      ensures WritesDirectly(chunkSize, start, |data|) ==> chunks.tail == old(chunks.tail)
      ensures ok && !WritesDirectly(chunkSize, start, |data|) ==> chunks.NothingToRelease()
      ensures forall x :: x in old(chunks.Chunks()) ==> x.refCount == old(x.refCount)
      ensures forall x :: x in chunks.Chunks() - old(chunks.Chunks()) ==> x.refCount == 1
    {
      if HeadHolds(start, |data|) {
        HeadHoldsPiece(start, |data|);
        OneChunkDirect(chunkSize, start, |data|);
      }
      if WritesDirectly(chunkSize, start, |data|) {
        ok := WriteDirectly(start, data, env.written);
        return;
      }
      ok := WriteLoop(start, data, env.mapOk);
      if ok {
        chunks.CleanChunks();
      }
    }

    /** The range of an insert of this size is, or can be, inside the file. */
    ghost predicate HandsOut(size: nat, env: Env)
      reads this
    {
      cursor + size <= fileSize || (env.growOk && !panicked)
    }

    /**
      On success the file is the grown file with the payload stored at the old cursor, whichever
      way it was written; on failure a first part of it, or nothing, has been stored. With a null tail
      (the state `mmlog_open` leaves) the guards of the two halves decide exactly whether an insert
      succeeds, and a record that the head chunk holds is written even when every `mmap` fails. Every
      chunk keeps its count, and after the chunk loop nothing is left to release.
    */
    method Insert(data: seq<byte>, env: Env) returns (ok: bool)
      requires Valid() && cursor + |data| + chunkSize - 1 < WORD32
      modifies this, chunks`head, chunks`tail, chunks.buffer, chunks.Chunks()
      ensures Valid() && chunks.tail.Some? == old(chunks.tail).Some?
      ensures fresh(chunks.Chunks() - old(chunks.Chunks()))
      ensures cursor == old(cursor) + |data|
      ensures data == [] ==> !ok && file == old(file)
      ensures ok ==> file == old(WithRecord(file, cursor, data, chunkSize)) && cursor <= |file|
      ensures OnlyWithin(old(file), file, old(cursor), cursor)
      ensures file == old(file) || PartStored(old(Covering(file, cursor + |data|, chunkSize)), file, old(cursor), data)
      ensures old(chunks.tail).None? ==>
                ok == (data != [] && old(HandsOut(|data|, env)) && old(RangeWrites(cursor, data, env)))
      ensures data != [] && old(HandsOut(|data|, env)) && old(HeadHolds(cursor, |data|)) ==>
                (|data| == chunkSize ==> env.written >= |data|) ==> ok
      ensures data != [] && old(chunks.tail).None? && !old(panicked) && env.growOk && env.Succeeds(|data|) ==> ok
      ensures ok && !WritesDirectly(chunkSize, old(cursor), |data|) ==> chunks.NothingToRelease()
      ensures forall x :: x in old(chunks.Chunks()) ==> x.refCount == old(x.refCount)
      ensures forall x :: x in chunks.Chunks() - old(chunks.Chunks()) ==> x.refCount == 1
    {
      if data == [] {
        return false;
      }
      var start := Checkout(|data|, env.growOk);
      if start.None? {
        return false;
      }
      ghost var grown := file;
      ok := WriteRange(start.value, data, env);
      WithinTwice(old(file), grown, file, start.value, cursor);
    }
  }
}
