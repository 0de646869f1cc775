/**
  The append log as a step machine.

  Every atomic load, store, compare-and-swap and fetch-add on the shared metadata or on the
  process-local chunk ring is one step, and so are `ftruncate`, `mmap`, `memcpy` and `pwrite`.
  A step belongs to one writer thread; which thread moves next, whether a wait times out and
  whether a system call fails are free choices.
*/
module LogModel {
  import opened Words
  import opened LogAlign

  /** `log_metadata_t`, shared by all processes. Version and readiness are settled before a run. */
  datatype Meta = Meta(chunkSize: nat, locked: bool, panicked: bool, fileSize: nat, cursor: nat)

  /** `chunk_info_t`. The mapping is a view onto the file bytes [start, start + size). */
  datatype Chunk = Chunk(start: nat, size: nat, refs: nat, mapped: bool)

  datatype Slot = Null | Pending | At(id: nat)

  /** `chunk_buffer_t`, one per process; `chunks` holds every chunk the process ever created. */
  datatype Proc = Proc(slots: seq<Slot>, head: nat, tail: Option<nat>, headLocked: bool, chunks: seq<Chunk>)

  datatype Status = Open | Committed | Failed

  /** History of one reservation: its range, its payload and what `mmlog_insert` returned for it. */
  datatype Entry = Entry(start: nat, data: seq<byte>, status: Status)

  /** Where `clean_chunks` was called from. */
  datatype Caller = FromAdd | FromInsert

  /** Program counters, named after the operation that comes next. */
  datatype Pc =
    | Idle
    | Reserve
    | LoadSize
    | TryLock
    | CheckPanic
    | ReloadSize
    | Truncate
    | StorePanic
    | ReleasePanicked
    | StoreSize(newSize: nat)
    | Release
    | Verdict
    | DirectWrite
    | LockHead
    | LoadHead
    | LoadTail(head: nat)
    | Inspect(head: nat, tail: Option<nat>)
    | IncFound(chunk: nat)
    | UnlockFound(chunk: nat)
    | Create(head: nat)
    | StoreNull(head: nat)
    | UnlockFailed
    | StoreSlot(head: nat, chunk: nat)
    | AdvanceHead(head: nat, chunk: nat)
    | UnlockNew(chunk: nat)
    | IncNew(chunk: nat)
    | Copy(chunk: nat)
    | DecRef(chunk: nat)
    | CleanTail(caller: Caller)
    | CleanHead(caller: Caller, tail: Option<nat>)
    | CleanCheck(caller: Caller, at: nat, head: nat)
    | CleanCas(caller: Caller, at: nat, chunk: nat)
    | CleanUnmap(caller: Caller, chunk: nat)
    | ReloadHead
    | ReloadTail(head: nat)
    | Faulted

  /** A thread inside `mmlog_insert`; `res` is the index of its reservation in the history. */
  datatype Writer = Writer(pid: nat, pc: Pc, res: nat, start: nat, data: seq<byte>, done: nat)

  datatype State = State(meta: Meta, file: seq<byte>, log: seq<Entry>, procs: seq<Proc>, writers: seq<Writer>)

  /** What one thread can see and change in one step. */
  datatype View = View(meta: Meta, file: seq<byte>, log: seq<Entry>, proc: Proc, w: Writer)

  datatype Choice = Call(data: seq<byte>) | Go | Timeout | SysFail(written: nat)

  // ----- arithmetic of the insert path ---------------------------------------------------

  function EndOf(w: Writer): nat {
    (w.start + |w.data|) % WORD64
  }

  function Cur(w: Writer): nat {
    w.start + w.done
  }

  /** The chunk boundary strictly above a position. */
  function ChunkEnd(cs: nat, cur: nat): nat
    requires cs > 0
  {
    (cur / cs + 1) * cs
  }

  function ChunkStart(cs: nat, cur: nat): nat
    requires cs > 0
  {
    (cur / cs) * cs
  }

  /** How much of the remaining payload goes into the chunk holding `cur`. */
  function PieceLen(cs: nat, cur: nat, remaining: nat): nat
    requires cs > 0
  {
    if cur + remaining > ChunkEnd(cs, cur) then
      assert ChunkEnd(cs, cur) >= cur by { ChunkEndAbove(cs, cur); }
      ChunkEnd(cs, cur) - cur
    else remaining
  }

  lemma ChunkEndAbove(cs: nat, cur: nat)
    requires cs > 0
    ensures ChunkStart(cs, cur) <= cur < ChunkEnd(cs, cur) == ChunkStart(cs, cur) + cs
  {
    assert cur == (cur / cs) * cs + cur % cs;
    assert (cur / cs + 1) * cs == (cur / cs) * cs + cs;
  }

  /** A position lies in exactly one window of chunk size that starts at a multiple of it. */
  lemma WindowUnique(cs: nat, cur: nat, q: nat)
    requires cs > 0
    ensures q * cs <= cur < q * cs + cs <==> q * cs == ChunkStart(cs, cur)
  {
    ChunkEndAbove(cs, cur);
    if q * cs <= cur < q * cs + cs {
      ModUnique(cur, cs, q, cur - q * cs);
    }
  }

  /** `mmlog_cross_count`: 64-bit difference truncated to 32 bits. */
  function CrossCount(cs: nat, start: nat, size: nat): nat
    requires cs > 0
  {
    (((start + size) % WORD64) / cs - start / cs) % WORD32
  }

  predicate WritesDirectly(cs: nat, start: nat, size: nat)
    requires cs > 0
  {
    CrossCount(cs, start, size) > 1 || (size == cs && start % cs == 0)
  }

  function Zeros(n: nat): (z: seq<byte>)
    ensures |z| == n && forall k :: 0 <= k < n ==> z[k] == 0
  {
    seq(n, _ => 0)
  }

  /** `ftruncate`: cuts, or extends with zero bytes. */
  function Resize(file: seq<byte>, size: nat): (f: seq<byte>)
    ensures |f| == size
    ensures forall k :: 0 <= k < size ==> f[k] == if k < |file| then file[k] else 0
  {
    if size <= |file| then file[..size] else file + Zeros(size - |file|)
  }

  /** One byte of the file after storing `data` at offset `at`. */
  function StoredByte(file: seq<byte>, at: nat, data: seq<byte>, k: nat): byte {
    if at <= k < at + |data| then data[k - at] else if k < |file| then file[k] else 0
  }

  /** Storing `data` at offset `at`; a store past the end extends the file with zero bytes. */
  function Overwrite(file: seq<byte>, at: nat, data: seq<byte>): (f: seq<byte>)
    ensures |f| == if data == [] || at + |data| <= |file| then |file| else at + |data|
    ensures forall k :: 0 <= k < |f| ==> f[k] == StoredByte(file, at, data, k)
  {
    var size := if data == [] || at + |data| <= |file| then |file| else at + |data|;
    seq(size, k requires 0 <= k => StoredByte(file, at, data, k))
  }

  /** The file as it is once it covers a range that ends at `end`. */
  function Covering(file: seq<byte>, end: nat, cs: nat): seq<byte>
    requires ValidChunkSize(cs)
  {
    if |file| < end then Resize(file, Align(end, cs)) else file
  }

  /** The file that one undisturbed insert of `data` at the cursor leaves. */
  function WithRecord(file: seq<byte>, cursor: nat, data: seq<byte>, cs: nat): seq<byte>
    requires ValidChunkSize(cs)
  {
    Overwrite(Covering(file, cursor + |data|, cs), cursor, data)
  }

  predicate InChunk(c: Chunk, cur: nat) {
    c.start <= cur < c.start + c.size
  }

  function NextIndex(p: Proc, i: nat): nat
    requires |p.slots| > 0
  {
    (i + 1) % |p.slots|
  }

  // ----- leaving mmlog_insert ------------------------------------------------------------

  function Finish(v: View, status: Status): View {
    if v.w.res < |v.log| then
      v.(log := v.log[v.w.res := v.log[v.w.res].(status := status)], w := v.w.(pc := Idle))
    else
      v.(w := v.w.(pc := Faulted))
  }

  function Goto(v: View, pc: Pc): View {
    v.(w := v.w.(pc := pc))
  }

  /** After a successful checkout: the direct path, or the first round of the chunk loop. */
  function Route(v: View): View
    requires v.meta.chunkSize > 0
  {
    if WritesDirectly(v.meta.chunkSize, v.w.start, |v.w.data|) then Goto(v, DirectWrite) else Goto(v, LockHead)
  }

  // ----- mmlog_checkout, data_file_expand, file_expand_inner -----------------------------

  predicate IsCheckoutPc(pc: Pc) {
    pc.Idle? || pc.Reserve? || pc.LoadSize? || pc.TryLock? || pc.CheckPanic? || pc.ReloadSize? || pc.Truncate? ||
    pc.StorePanic? || pc.ReleasePanicked? || pc.StoreSize? || pc.Release? || pc.Verdict?
  }

  function CheckoutStep(v: View, ch: Choice): Option<View>
    requires ValidChunkSize(v.meta.chunkSize) && IsCheckoutPc(v.w.pc)
  {
    match v.w.pc
    case Idle =>
      if ch.Call? && ch.data != [] then Some(v.(w := v.w.(pc := Reserve, data := ch.data))) else None
    case TryLock =>
      if ch.Timeout? && v.meta.locked then Some(Finish(v, Failed))
      else if !ch.Go? then None
      else if v.meta.locked then Some(v)
      else Some(Goto(v.(meta := v.meta.(locked := true)), CheckPanic))
    case Truncate =>
      if ch.SysFail? then Some(Goto(v, StorePanic))
      else if !ch.Go? then None
      else
        var size := Align(EndOf(v.w), v.meta.chunkSize);
        Some(Goto(v.(file := Resize(v.file, size)), StoreSize(size)))
    case _ =>
      if !ch.Go? then None else Some(CheckoutGo(v))
  }

  function CheckoutGo(v: View): View
    requires ValidChunkSize(v.meta.chunkSize) && IsCheckoutPc(v.w.pc)
    requires !v.w.pc.Idle? && !v.w.pc.TryLock? && !v.w.pc.Truncate?
  {
    match v.w.pc
    case Reserve =>
      var start := v.meta.cursor;
      v.(meta := v.meta.(cursor := (start + |v.w.data|) % WORD64),
         log := v.log + [Entry(start, v.w.data, Open)],
         w := v.w.(pc := LoadSize, res := |v.log|, start := start, done := 0))
    case LoadSize =>
      if EndOf(v.w) > v.meta.fileSize then Goto(v, TryLock) else Route(v)
    case CheckPanic =>
      // a panicked log keeps the lock taken: the caller spins until it times out
      Goto(v, if v.meta.panicked then TryLock else ReloadSize)
    case ReloadSize =>
      Goto(v, if v.meta.fileSize < EndOf(v.w) then Truncate else Release)
    case StorePanic =>
      Goto(v.(meta := v.meta.(panicked := true)), ReleasePanicked)
    case ReleasePanicked =>
      Goto(v.(meta := v.meta.(locked := false)), Verdict)
    case StoreSize(size) =>
      Goto(v.(meta := v.meta.(fileSize := size)), Release)
    case Release =>
      Goto(v.(meta := v.meta.(locked := false)), Verdict)
    case Verdict =>
      if v.meta.panicked then Finish(v, Failed) else Route(v)
  }

  // ----- mmlog_rb_checkout, add_new_chunk, create_chunk_at_cursor ------------------------

  predicate IsRingPc(pc: Pc) {
    pc.LockHead? || pc.LoadHead? || pc.LoadTail? || pc.Inspect? || pc.IncFound? || pc.UnlockFound? || pc.Create? ||
    pc.StoreNull? || pc.UnlockFailed? || pc.StoreSlot? || pc.AdvanceHead? || pc.UnlockNew? || pc.IncNew?
  }

  function WithSlot(v: View, i: nat, s: Slot): View
    requires i < |v.proc.slots|
  {
    v.(proc := v.proc.(slots := v.proc.slots[i := s]))
  }

  function WithHeadLock(v: View, locked: bool): View {
    v.(proc := v.proc.(headLocked := locked))
  }

  /** Adds `delta` to a 32-bit reference count; touching a chunk that does not exist is a fault. */
  function Count(v: View, c: nat, delta: int, then_: Pc): View {
    if c < |v.proc.chunks| then
      var ch := v.proc.chunks[c];
      Goto(v.(proc := v.proc.(chunks := v.proc.chunks[c := ch.(refs := (ch.refs + delta) % WORD32)])), then_)
    else Goto(v, Faulted)
  }

  function RingStep(v: View, ch: Choice): Option<View>
    requires v.meta.chunkSize > 0 && |v.proc.slots| > 0 && IsRingPc(v.w.pc)
  {
    match v.w.pc
    case LockHead =>
      if ch.Timeout? && v.proc.headLocked then Some(Finish(v, Failed))
      else if !ch.Go? then None
      else if v.proc.headLocked then Some(v)
      else Some(Goto(WithHeadLock(v, true), LoadHead))
    case Create(h) =>
      if ch.SysFail? then Some(Goto(v, StoreNull(h)))
      else if !ch.Go? then None
      else
        var cs := v.meta.chunkSize;
        var c := Chunk(ChunkStart(cs, Cur(v.w)), cs, 1, true);
        Some(Goto(v.(proc := v.proc.(chunks := v.proc.chunks + [c])), StoreSlot(h, |v.proc.chunks|)))
    case _ =>
      if !ch.Go? then None else Some(RingGo(v))
  }

  function RingGo(v: View): View
    requires |v.proc.slots| > 0 && IsRingPc(v.w.pc) && !v.w.pc.LockHead? && !v.w.pc.Create?
  {
    var p := v.proc;
    match v.w.pc
    case LoadHead => Goto(v, LoadTail(p.head))
    case LoadTail(h) => Goto(v, Inspect(h, p.tail))
    case Inspect(h, t) =>
      if h >= |p.slots| then Goto(v, Faulted)
      else if p.slots[h].At? && p.slots[h].id >= |p.chunks| then Goto(v, Faulted)
      else if p.slots[h].At? && InChunk(p.chunks[p.slots[h].id], Cur(v.w)) then Goto(v, IncFound(p.slots[h].id))
      else if t == Some(NextIndex(p, h)) then Goto(v, CleanTail(FromAdd))
      else Goto(v, Create(h))
    case IncFound(c) => Count(v, c, 1, UnlockFound(c))
    case UnlockFound(c) => Goto(WithHeadLock(v, false), Copy(c))
    case StoreNull(h) => Goto(WithSlot(v, NextIndex(p, h), Null), UnlockFailed)
    case UnlockFailed => Finish(WithHeadLock(v, false), Failed)
    case StoreSlot(h, c) => Goto(WithSlot(v, NextIndex(p, h), At(c)), AdvanceHead(h, c))
    case AdvanceHead(h, c) =>
      // the outcome of this compare-and-swap is ignored
      Goto(if p.head == h then v.(proc := p.(head := NextIndex(p, h))) else v, UnlockNew(c))
    case UnlockNew(c) => Goto(WithHeadLock(v, false), IncNew(c))
    case IncNew(c) => Count(v, c, 1, Copy(c))
  }

  // ----- pwrite, memcpy and the loop of mmlog_insert -------------------------------------

  predicate IsWritePc(pc: Pc) {
    pc.DirectWrite? || pc.Copy? || pc.DecRef?
  }

  function WriteStep(v: View, ch: Choice): Option<View>
    requires v.meta.chunkSize > 0 && IsWritePc(v.w.pc)
  {
    match v.w.pc
    case DirectWrite =>
      if ch.Go? then Some(Finish(v.(file := Overwrite(v.file, v.w.start, v.w.data)), Committed))
      else if ch.SysFail? && ch.written < |v.w.data| then
        Some(Finish(v.(file := Overwrite(v.file, v.w.start, v.w.data[..ch.written])), Failed))
      else None
    case Copy(c) =>
      if !ch.Go? then None else Some(CopyPiece(v, c))
    case DecRef(c) =>
      if !ch.Go? then None
      else Some(Count(v, c, -1, if v.w.done < |v.w.data| then LockHead else CleanTail(FromInsert)))
  }

  /** `memcpy` into the mapping: legal only while mapped, inside the mapping and inside the file. */
  function CopyPiece(v: View, c: nat): View
    requires v.meta.chunkSize > 0
  {
    var w := v.w;
    if c >= |v.proc.chunks| || w.done > |w.data| then Goto(v, Faulted)
    else
      var chunk := v.proc.chunks[c];
      var n := PieceLen(v.meta.chunkSize, Cur(w), |w.data| - w.done);
      if !chunk.mapped || Cur(w) < chunk.start || Cur(w) + n > chunk.start + chunk.size || Cur(w) + n > |v.file| then
        Goto(v, Faulted)
      else
        v.(file := Overwrite(v.file, Cur(w), w.data[w.done..w.done + n]), w := w.(pc := DecRef(c), done := w.done + n))
  }

  // ----- clean_chunks --------------------------------------------------------------------

  predicate IsCleanPc(pc: Pc) {
    pc.CleanTail? || pc.CleanHead? || pc.CleanCheck? || pc.CleanCas? || pc.CleanUnmap? || pc.ReloadHead? ||
    pc.ReloadTail?
  }

  function CleanReturn(v: View, caller: Caller): View {
    if caller.FromAdd? then Goto(v, ReloadHead) else Finish(v, Committed)
  }

  function CleanGo(v: View): View
    requires |v.proc.slots| > 0 && IsCleanPc(v.w.pc)
  {
    var p := v.proc;
    match v.w.pc
    case CleanTail(caller) => Goto(v, CleanHead(caller, p.tail))
    case CleanHead(caller, t) =>
      if t.None? then CleanReturn(v, caller) else Goto(v, CleanCheck(caller, t.value, p.head))
    case CleanCheck(caller, t, h) =>
      if t == h then CleanReturn(v, caller)
      else if t >= |p.slots| then Goto(v, Faulted)
      else if !p.slots[t].At? then CleanReturn(v, caller)
      else if p.slots[t].id >= |p.chunks| then Goto(v, Faulted)
      else if p.chunks[p.slots[t].id].refs > 0 then CleanReturn(v, caller)
      else Goto(v, CleanCas(caller, t, p.slots[t].id))
    case CleanCas(caller, t, c) =>
      if p.tail == Some(t) then Goto(v.(proc := p.(tail := Some(NextIndex(p, t)))), CleanUnmap(caller, c))
      else Goto(v, CleanTail(caller))
    case CleanUnmap(caller, c) =>
      if c >= |p.chunks| then Goto(v, Faulted)
      else Goto(v.(proc := p.(chunks := p.chunks[c := p.chunks[c].(mapped := false)])), CleanTail(caller))
    case ReloadHead => Goto(v, ReloadTail(p.head))
    case ReloadTail(h) => Goto(v, if p.tail == Some(NextIndex(p, h)) then UnlockFailed else Create(h))
  }

  // ----- the machine ---------------------------------------------------------------------

  function LocalNext(v: View, ch: Choice): Option<View>
    requires ValidChunkSize(v.meta.chunkSize) && |v.proc.slots| > 0
  {
    if IsCheckoutPc(v.w.pc) then CheckoutStep(v, ch)
    else if IsRingPc(v.w.pc) then RingStep(v, ch)
    else if IsWritePc(v.w.pc) then WriteStep(v, ch)
    else if IsCleanPc(v.w.pc) && ch.Go? then Some(CleanGo(v))
    else None
  }

  /** Static facts about a run: they hold at the start and no step touches them. */
  predicate WellFormed(s: State) {
    ValidChunkSize(s.meta.chunkSize) &&
    (forall p :: 0 <= p < |s.procs| ==> |s.procs[p].slots| >= 2) &&
    (forall i :: 0 <= i < |s.writers| ==> s.writers[i].pid < |s.procs|)
  }

  function ViewOf(s: State, i: nat): View
    requires WellFormed(s) && i < |s.writers|
  {
    View(s.meta, s.file, s.log, s.procs[s.writers[i].pid], s.writers[i])
  }

  function Install(s: State, i: nat, v: View): State
    requires WellFormed(s) && i < |s.writers|
  {
    State(v.meta, v.file, v.log, s.procs[s.writers[i].pid := v.proc], s.writers[i := v.w])
  }

  predicate StepBy(s: State, i: nat, ch: Choice, s': State) {
    WellFormed(s) && i < |s.writers| &&
    var n := LocalNext(ViewOf(s, i), ch);
    n.Some? && s' == Install(s, i, n.value)
  }

  ghost predicate Next(s: State, s': State) {
    exists i: nat, ch: Choice :: StepBy(s, i, ch, s')
  }

  predicate FreshProc(p: Proc) {
    |p.slots| >= 2 && (forall k :: 0 <= k < |p.slots| ==> p.slots[k] == Null) &&
    p.head == 0 && p.tail == None && !p.headLocked && p.chunks == []
  }

  /** The log as its creator leaves it, with any number of processes and threads attached. */
  predicate Init(s: State) {
    ValidChunkSize(s.meta.chunkSize) &&
    s.meta == Meta(s.meta.chunkSize, false, false, s.meta.chunkSize, 0) &&
    s.file == Zeros(s.meta.chunkSize) && s.log == [] &&
    (forall p :: 0 <= p < |s.procs| ==> FreshProc(s.procs[p])) &&
    (forall i :: 0 <= i < |s.writers| ==> s.writers[i].pid < |s.procs| && s.writers[i].pc == Idle) &&
    |s.writers| + 2 < WORD32
  }

  ghost predicate StepAt(trace: seq<State>, n: nat) {
    0 < n < |trace| && Next(trace[n - 1], trace[n])
  }

  ghost predicate Steps(trace: seq<State>) {
    forall n {:trigger StepAt(trace, n)} :: 0 < n < |trace| ==> StepAt(trace, n)
  }

  ghost predicate Run(trace: seq<State>) {
    |trace| > 0 && Init(trace[0]) && Steps(trace)
  }

  function EntryEnd(e: Entry): nat {
    e.start + |e.data|
  }

  /** Every reservation handed out so far can be rounded up in 32 bits. */
  predicate InBound(s: State) {
    forall k :: 0 <= k < |s.log| ==> EntryEnd(s.log[k]) + s.meta.chunkSize - 1 < WORD32
  }
}
