/**
  What holds of one thread and of the state it shares, and what one step may do to the others.

  The proof is by rely and guarantee: a step keeps its own thread's facts (`LogSteps`), every
  step stays within `Guarantee`, and a thread's facts survive any `Guarantee` of another thread.
*/
module LogInvariant {
  import opened Words
  import opened LogAlign
  import opened LogModel

  // ----- which part of the protocol a thread is in ---------------------------------------

  /** Between winning the expand lock and releasing it. */
  predicate InExpand(pc: Pc) {
    pc.CheckPanic? || pc.ReloadSize? || pc.Truncate? || pc.StorePanic? || pc.ReleasePanicked? || pc.StoreSize? ||
    pc.Release?
  }

  /** Between `lock_head` and `unlock_head`. */
  predicate InHead(pc: Pc) {
    pc.LoadHead? || pc.LoadTail? || pc.Inspect? || pc.IncFound? || pc.UnlockFound? || pc.Create? || pc.StoreNull? ||
    pc.UnlockFailed? || pc.StoreSlot? || pc.AdvanceHead? || pc.UnlockNew?
  }

  /** A reservation has been made and `mmlog_insert` has not returned. */
  predicate Active(pc: Pc) {
    !pc.Idle? && !pc.Reserve?
  }

  /** The checkout has succeeded: the reserved range may be written. */
  predicate CheckedOut(pc: Pc) {
    IsRingPc(pc) || IsWritePc(pc) || IsCleanPc(pc)
  }

  /** The chunk on which this thread has an increment that it has not yet undone. */
  function Held(pc: Pc): Option<nat> {
    match pc
    case UnlockFound(c) => Some(c)
    case Copy(c) => Some(c)
    case DecRef(c) => Some(c)
    case _ => None
  }

  // ----- facts about the shared state ----------------------------------------------------

  predicate MetaOk(m: Meta, file: seq<byte>) {
    ValidChunkSize(m.chunkSize) && m.fileSize <= |file| && (!m.locked || m.panicked ==> |file| == m.fileSize)
  }

  /** The reservations lie end to end from zero up to the cursor. */
  predicate Tiled(log: seq<Entry>, cursor: nat) {
    (forall k {:trigger EndBefore(log, k)} ::
      0 <= k < |log| ==> log[k].data != [] && log[k].start == EndBefore(log, k)) &&
    cursor == EndBefore(log, |log|)
  }

  function EndBefore(log: seq<Entry>, k: nat): nat
    requires k <= |log|
  {
    if k == 0 then 0 else EntryEnd(log[k - 1])
  }

  /** The file reaches to the end of a range and holds these bytes there. */
  predicate Stands(file: seq<byte>, at: nat, data: seq<byte>) {
    at + |data| <= |file| && file[at..at + |data|] == data
  }

  /** A committed reservation holds its payload, inside the recorded file size. */
  predicate EntryOk(e: Entry, file: seq<byte>, fileSize: nat) {
    e.status == Committed ==> EntryEnd(e) <= fileSize && Stands(file, e.start, e.data)
  }

  predicate LogOk(log: seq<Entry>, file: seq<byte>, fileSize: nat) {
    forall k :: 0 <= k < |log| ==> EntryOk(log[k], file, fileSize)
  }

  predicate ChunkOk(c: Chunk, cs: nat) {
    cs > 0 && c.mapped && c.size == cs && c.start == ChunkStart(cs, c.start)
  }

  /** The ring as no reclaiming ever happens in it: the tail stays null and every chunk mapped. */
  predicate ProcOk(p: Proc, cs: nat) {
    2 <= |p.slots| && p.head < |p.slots| && p.tail == None &&
    (forall k :: 0 <= k < |p.slots| ==> p.slots[k] == Null || (p.slots[k].At? && p.slots[k].id < |p.chunks|)) &&
    (forall c :: 0 <= c < |p.chunks| ==> ChunkOk(p.chunks[c], cs))
  }

  /** `n` chunks have been published: the head counts them modulo capacity and holds the newest. */
  predicate Published(p: Proc, n: nat) {
    0 < |p.slots| && p.head < |p.slots| && p.head == n % |p.slots| &&
    p.slots[p.head] == if n == 0 then Null else At(n - 1)
  }

  predicate RingOk(p: Proc) {
    !p.headLocked ==> Published(p, |p.chunks|)
  }

  // ----- facts about one thread ----------------------------------------------------------

  /** A thread inside `mmlog_insert` has a payload, and after the fetch-add an open reservation for it. */
  predicate HasJob(log: seq<Entry>, w: Writer) {
    (!w.pc.Idle? ==> w.data != []) &&
    (Active(w.pc) ==> w.res < |log| && log[w.res] == Entry(w.start, w.data, Open))
  }

  /** How much of its payload a thread has written, by where it is. */
  predicate Placed(w: Writer) {
    Active(w.pc) ==>
      w.done <= |w.data| && (IsCheckoutPc(w.pc) || w.pc.DirectWrite? ==> w.done == 0) &&
      (IsRingPc(w.pc) || w.pc.Copy? ==> w.done < |w.data|) && (IsCleanPc(w.pc) ==> w.done == |w.data|)
  }

  predicate JobFits(cs: nat, w: Writer) {
    Active(w.pc) ==> w.start + |w.data| + cs - 1 < WORD32
  }

  predicate GrowOk(m: Meta, file: seq<byte>, w: Writer) {
    var end := w.start + |w.data|;
    (InExpand(w.pc) ==> m.locked) &&
    match w.pc
    case CheckPanic => |file| == m.fileSize
    case ReloadSize => !m.panicked && |file| == m.fileSize
    case Truncate => !m.panicked && |file| == m.fileSize < end
    case StorePanic => !m.panicked && |file| == m.fileSize
    case ReleasePanicked => m.panicked && |file| == m.fileSize
    case StoreSize(n) => !m.panicked && m.fileSize < end <= n == |file|
    case Release => !m.panicked && end <= m.fileSize == |file|
    case Verdict => m.panicked || end <= m.fileSize
    case _ => CheckedOut(w.pc) ==> end <= m.fileSize
  }

  /** The range of a successful checkout lies in the file, and what the thread has written stands there. */
  predicate DataOk(file: seq<byte>, w: Writer) {
    CheckedOut(w.pc) ==>
      w.start + |w.data| <= |file| && w.done <= |w.data| && Stands(file, w.start, w.data[..w.done])
  }

  predicate Serves(p: Proc, c: nat, w: Writer) {
    c < |p.chunks| && InChunk(p.chunks[c], Cur(w))
  }

  predicate HeadOk(p: Proc, w: Writer) {
    0 < |p.slots| && (InHead(w.pc) ==> p.headLocked) &&
    match w.pc
    case LoadHead => Published(p, |p.chunks|)
    case LoadTail(h) => h == p.head && Published(p, |p.chunks|)
    case Inspect(h, t) => h == p.head && t == None && Published(p, |p.chunks|)
    case IncFound(c) => Serves(p, c, w) && Published(p, |p.chunks|)
    case UnlockFound(c) => Serves(p, c, w) && Published(p, |p.chunks|)
    case Create(h) => h == p.head && Published(p, |p.chunks|)
    case StoreNull(h) => h == p.head && Published(p, |p.chunks|)
    case UnlockFailed => Published(p, |p.chunks|)
    case StoreSlot(h, c) =>
      h == p.head && |p.chunks| > 0 && c == |p.chunks| - 1 && Serves(p, c, w) && Published(p, c)
    case AdvanceHead(h, c) =>
      h == p.head && |p.chunks| > 0 && c == |p.chunks| - 1 && Serves(p, c, w) && Published(p, c) &&
      p.slots[NextIndex(p, h)] == At(c)
    case UnlockNew(c) => Serves(p, c, w) && Published(p, |p.chunks|)
    case IncNew(c) => Serves(p, c, w)
    case Copy(c) => Serves(p, c, w)
    case DecRef(c) => c < |p.chunks|
    case CleanTail(caller) => caller == FromInsert
    case CleanHead(caller, t) => caller == FromInsert && t == None
    case CleanCheck(_, _, _) => false
    case CleanCas(_, _, _) => false
    case CleanUnmap(_, _) => false
    case ReloadHead => false
    case ReloadTail(_) => false
    case Faulted => false
    case _ => true
  }

  /** A thread that has faulted takes no more steps; of all others the ring facts hold. */
  predicate HeadFine(p: Proc, w: Writer) {
    w.pc.Faulted? || HeadOk(p, w)
  }

  /** What the expand lock and the panic flag say about a thread. */
  predicate ExpandOk(m: Meta, w: Writer) {
    InExpand(w.pc) ==> m.locked && (m.panicked ==> w.pc.CheckPanic? || w.pc.ReleasePanicked?)
  }

  // ----- the layers of a view ------------------------------------------------------

  /** The chunk ring, whatever the sizes of the log. */
  predicate RingGood(v: View) {
    2 <= |v.proc.slots| && ProcOk(v.proc, v.meta.chunkSize) && RingOk(v.proc) && HeadOk(v.proc, v.w)
  }

  /** The thread's own reservation and progress, whatever the sizes of the log. */
  predicate JobGood(v: View) {
    HasJob(v.log, v.w) && Placed(v.w)
  }

  /** Sizes, records and the thread's own bytes, inside the rounding bound. */
  predicate CoreGood(v: View) {
    MetaOk(v.meta, v.file) && LogOk(v.log, v.file, v.meta.fileSize) && WriterCore(v)
  }

  predicate WriterCore(v: View) {
    JobFits(v.meta.chunkSize, v.w) && GrowOk(v.meta, v.file, v.w) && DataOk(v.file, v.w) && !v.w.pc.Faulted?
  }

  predicate Good(v: View) {
    RingGood(v) && JobGood(v) && Tiled(v.log, v.meta.cursor) && CoreGood(v)
  }

  predicate LogInBound(log: seq<Entry>, cs: nat) {
    forall k :: 0 <= k < |log| ==> EntryEnd(log[k]) + cs - 1 < WORD32
  }

  // ----- what a step may do to everybody else --------------------------------------------

  /** Only the holder of the expand lock touches sizes, panic flag and lock. */
  predicate GrowGuarantee(m: Meta, file: seq<byte>, pc: Pc, m': Meta, file': seq<byte>, pc': Pc) {
    m'.chunkSize == m.chunkSize && m.fileSize <= m'.fileSize && |file| <= |file'| && (m.panicked ==> m'.panicked) &&
    (m.panicked ==> m'.fileSize == m.fileSize && |file'| == |file|) &&
    (!InExpand(pc) ==> m'.fileSize == m.fileSize && |file'| == |file| && m'.panicked == m.panicked &&
                       (m.locked ==> m'.locked && !InExpand(pc'))) &&
    (!InExpand(pc') && m'.locked && !m'.panicked ==> m.locked && !InExpand(pc))
  }

  /** File bytes change only inside the range the acting thread has reserved. */
  predicate FileGuarantee(file: seq<byte>, w: Writer, file': seq<byte>) {
    |file| <= |file'| &&
    forall k :: 0 <= k < |file| && !(CheckedOut(w.pc) && w.start <= k < w.start + |w.data|) ==> file'[k] == file[k]
  }

  /** The history only grows; a thread settles only its own entry. */
  predicate LogGuarantee(log: seq<Entry>, w: Writer, log': seq<Entry>) {
    |log| <= |log'| &&
    forall k :: 0 <= k < |log| && !(Active(w.pc) && k == w.res) ==> log'[k] == log[k]
  }

  /** Only the holder of the head lock touches the ring; chunks keep their place and mapping. */
  predicate ProcGuarantee(p: Proc, pc: Pc, p': Proc, pc': Pc) {
    |p'.slots| == |p.slots| && p'.tail == p.tail && |p.chunks| <= |p'.chunks| &&
    (forall c :: 0 <= c < |p.chunks| ==>
      p'.chunks[c].start == p.chunks[c].start && p'.chunks[c].size == p.chunks[c].size &&
      p'.chunks[c].mapped == p.chunks[c].mapped) &&
    (!InHead(pc) ==> p'.slots == p.slots && p'.head == p.head && |p'.chunks| == |p.chunks| &&
                     (p.headLocked ==> p'.headLocked && !InHead(pc'))) &&
    (!InHead(pc') && p'.headLocked ==> p.headLocked && !InHead(pc))
  }

  /** A thread stays in its process and works on one reservation until a fresh one replaces it. */
  predicate WriterGuarantee(log: seq<Entry>, w: Writer, w': Writer) {
    w'.pid == w.pid && (Active(w'.pc) ==> (Active(w.pc) && w'.res == w.res) || w'.res == |log|)
  }

  predicate CoreGuarantee(v: View, v': View) {
    GrowGuarantee(v.meta, v.file, v.w.pc, v'.meta, v'.file, v'.w.pc) && FileGuarantee(v.file, v.w, v'.file)
  }

  // ----- the reserved ranges are disjoint ------------------------------------------------

  lemma {:induction false} TiledOrder(log: seq<Entry>, cursor: nat, i: nat, k: nat)
    requires Tiled(log, cursor) && i < k < |log|
    ensures EntryEnd(log[i]) <= log[k].start
  {
    assert log[k].start == EndBefore(log, k);
    if i + 1 < k {
      TiledOrder(log, cursor, i, k - 1);
    }
  }

  lemma {:induction false} TiledBelowCursor(log: seq<Entry>, cursor: nat, i: nat)
    requires Tiled(log, cursor) && i < |log|
    ensures EntryEnd(log[i]) <= cursor
  {
    assert cursor == EndBefore(log, |log|);
    if i < |log| - 1 {
      TiledOrder(log, cursor, i, |log| - 1);
    }
  }

  lemma TiledDisjoint(log: seq<Entry>, cursor: nat, i: nat, k: nat)
    requires Tiled(log, cursor) && i < |log| && k < |log| && i != k
    ensures EntryEnd(log[i]) <= log[k].start || EntryEnd(log[k]) <= log[i].start
  {
    if i < k {
      TiledOrder(log, cursor, i, k);
    } else {
      TiledOrder(log, cursor, k, i);
    }
  }

  // ----- a thread's facts survive the steps of the others --------------------------------

  /** Two threads that never work on the same reservation. */
  predicate Apart(a: Writer, b: Writer) {
    Active(a.pc) && Active(b.pc) ==> a.res != b.res
  }

  lemma GrowStable(m: Meta, file: seq<byte>, a: Writer, m': Meta, file': seq<byte>, a': Writer, b: Writer)
    requires GrowOk(m, file, b) && MetaOk(m, file)
    requires GrowGuarantee(m, file, a.pc, m', file', a'.pc)
    requires !(InExpand(a.pc) && InExpand(b.pc))
    ensures GrowOk(m', file', b)
    ensures !(InExpand(a'.pc) && InExpand(b.pc))
  {
  }

  lemma HeadStable(p: Proc, a: Writer, p': Proc, a': Writer, b: Writer)
    requires HeadOk(p, b) && ProcGuarantee(p, a.pc, p', a'.pc)
    requires !(InHead(a.pc) && InHead(b.pc))
    ensures HeadOk(p', b)
    ensures !(InHead(a'.pc) && InHead(b.pc))
  {
  }

  lemma JobStable(log: seq<Entry>, a: Writer, log': seq<Entry>, b: Writer)
    requires HasJob(log, b) && LogGuarantee(log, a, log') && Apart(a, b)
    ensures HasJob(log', b)
  {
  }

  lemma SliceStable(file: seq<byte>, file': seq<byte>, lo: nat, hi: nat, from: nat, to: nat)
    requires |file| <= |file'| && lo <= hi && from <= to <= |file|
    requires forall k :: 0 <= k < |file| && !(lo <= k < hi) ==> file'[k] == file[k]
    requires to <= lo || hi <= from
    ensures file'[from..to] == file[from..to]
  {
  }

  lemma FileGuaranteeSlice(file: seq<byte>, a: Writer, file': seq<byte>, from: nat, to: nat)
    requires FileGuarantee(file, a, file') && from <= to <= |file|
    requires CheckedOut(a.pc) ==> to <= a.start || a.start + |a.data| <= from
    ensures file'[from..to] == file[from..to]
  {
    if CheckedOut(a.pc) {
      SliceStable(file, file', a.start, a.start + |a.data|, from, to);
    } else {
      SliceStable(file, file', 0, 0, from, to);
    }
  }

  lemma DataStable(log: seq<Entry>, cursor: nat, file: seq<byte>, a: Writer, file': seq<byte>, b: Writer)
    requires Tiled(log, cursor) && HasJob(log, a) && HasJob(log, b) && Apart(a, b)
    requires DataOk(file, b) && FileGuarantee(file, a, file')
    ensures DataOk(file', b)
  {
    if CheckedOut(b.pc) {
      if CheckedOut(a.pc) {
        TiledDisjoint(log, cursor, a.res, b.res);
      }
      FileGuaranteeSlice(file, a, file', b.start, b.start + b.done);
    }
  }
}
