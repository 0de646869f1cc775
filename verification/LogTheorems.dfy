/** What the append log guarantees over whole runs of any number of processes and threads. */
module LogTheorems {
  import opened Words
  import opened LogAlign
  import opened LogModel
  import opened LogInvariant
  import opened LogHistory
  import opened LogRing
  import opened LogExpand
  import opened LogRefs
  import opened LogProgress
  import opened LogRecords
  import opened LogSteps
  import opened LogRuns

  // ----- the log holds what was inserted -------------------------------------------------

  /** Inside the bound nothing written is ever cut away. */
  lemma InvIntact(s: State)
    requires Inv(s)
    ensures Intact(s)
  {
    forall k | 0 <= k < |s.log| && s.log[k].status == Committed
      ensures Stands(s.file, s.log[k].start, s.log[k].data)
    {
      assert EntryOk(s.log[k], s.file, s.meta.fileSize);
    }
    forall j | 0 <= j < |s.writers|
      ensures PartStands(s.file, s.writers[j])
    {
      assert WriterCore(ViewOf(s, j)) && Placed(s.writers[j]);
    }
  }

  /**
    Once an insert has returned true its payload is exactly the bytes of its reserved range;
    if every insert returned true, the file up to the cursor is the concatenation of the
    payloads in fetch-add order.
  */
  lemma AppendLog(trace: seq<State>, n: nat)
    requires Run(trace) && n < |trace| && InBound(trace[n])
    ensures var s := trace[n];
            forall k :: 0 <= k < |s.log| && s.log[k].status == Committed ==> RangeOf(s, k) == s.log[k].data
    ensures var s := trace[n];
            (forall k :: 0 <= k < |s.log| ==> s.log[k].status == Committed) ==>
              s.meta.cursor <= |s.file| && s.file[..s.meta.cursor] == Payloads(s.log)
  {
    RunInv(trace, n);
    InvIntact(trace[n]);
    IntactReads(trace[n]);
  }

  /**
    The reserved ranges, of successful and failed inserts alike, tile [0, cursor) without overlap,
    as long as no range ends past 64 bits.
  */
  lemma ReservationsTile(trace: seq<State>, n: nat, i: nat, k: nat)
    requires Run(trace) && n < |trace| && InWidth(trace[n].log)
    requires i < |trace[n].log| && k < |trace[n].log|
    ensures var s := trace[n];
            (i < k ==> EntryEnd(s.log[i]) <= s.log[k].start) &&
            (i == 0 ==> s.log[i].start == 0) &&
            (i + 1 == k ==> EntryEnd(s.log[i]) == s.log[k].start) &&
            (i + 1 == |s.log| ==> EntryEnd(s.log[i]) == s.meta.cursor) &&
            s.log[i].start < EntryEnd(s.log[i]) <= s.meta.cursor
  {
    RunTiling(trace, n);
    var s := trace[n];
    assert s.log[i].start == EndBefore(s.log, i) && s.log[k].start == EndBefore(s.log, k);
    assert s.meta.cursor == EndBefore(s.log, |s.log|);
    TiledBelowCursor(s.log, s.meta.cursor, i);
    if i < k {
      TiledOrder(s.log, s.meta.cursor, i, k);
    }
  }

  // ----- what later states keep ----------------------------------------------------------

  predicate SizesLater(a: State, b: State) {
    a.meta.fileSize <= b.meta.fileSize && |a.file| <= |b.file| &&
    (a.meta.panicked ==> b.meta.panicked && b.meta.fileSize == a.meta.fileSize && |b.file| == |a.file|)
  }

  lemma StepLater(s: State, i: nat, ch: Choice, s': State)
    requires Inv(s) && StepBy(s, i, ch, s') && InBound(s')
    ensures SizesLater(s, s')
  {
    ActingThread(s, i, ch, s');
  }

  lemma {:induction false} RunLater(trace: seq<State>, m: nat, n: nat)
    requires Run(trace) && m <= n < |trace| && InBound(trace[n])
    ensures SizesLater(trace[m], trace[n])
    decreases n
  {
    if m < n {
      BoundBackwards(trace, n - 1, n);
      RunLater(trace, m, n - 1);
      RunInv(trace, n - 1);
      var i, ch := RunStep(trace, n);
      StepLater(trace[n - 1], i, ch, trace[n]);
    }
  }

  /** A record that has been committed is never changed again, in the history or in the file. */
  lemma CommittedForever(trace: seq<State>, m: nat, n: nat, k: nat)
    requires Run(trace) && m <= n < |trace| && InBound(trace[n])
    requires k < |trace[m].log| && trace[m].log[k].status == Committed
    ensures k < |trace[n].log| && trace[n].log[k] == trace[m].log[k]
    ensures RangeOf(trace[n], k) == trace[m].log[k].data
  {
    EntryForever(trace, m, n, k);
    AppendLog(trace, n);
  }

  // ----- growing the file ----------------------------------------------------------------

  /**
    The recorded size never exceeds the physical one, both only grow, they agree whenever the
    expand lock is free, and a lock held without panic has a holder. A thread whose checkout
    succeeded owns a range inside the file, in this state and in every later one.
  */
  lemma GrowthIsSafe(trace: seq<State>, m: nat, n: nat, i: nat)
    requires Run(trace) && m <= n < |trace| && InBound(trace[n])
    ensures var s := trace[m];
            s.meta.fileSize <= |s.file| && (!s.meta.locked ==> s.meta.fileSize == |s.file|) &&
            s.meta.fileSize <= trace[n].meta.fileSize && |s.file| <= |trace[n].file| &&
            (s.meta.locked && !s.meta.panicked ==> exists j :: 0 <= j < |s.writers| && InExpand(s.writers[j].pc))
    ensures var s := trace[m];
            i < |s.writers| && CheckedOut(s.writers[i].pc) ==>
              s.writers[i].start + |s.writers[i].data| <= |s.file| <= |trace[n].file|
  {
    BoundBackwards(trace, m, n);
    RunInv(trace, m);
    RunLater(trace, m, n);
    if i < |trace[m].writers| {
      assert WriterCore(ViewOf(trace[m], i));
    }
  }

  /** At most one thread of any process grows the file at a time, in every run. */
  lemma ExpandIsExclusive(trace: seq<State>, n: nat, i: nat, j: nat)
    requires Run(trace) && n < |trace|
    requires i < |trace[n].writers| && j < |trace[n].writers| && i != j
    ensures !(InExpand(trace[n].writers[i].pc) && InExpand(trace[n].writers[j].pc))
    ensures InExpand(trace[n].writers[i].pc) ==> trace[n].meta.locked
    ensures trace[n].meta.locked && !trace[n].meta.panicked ==> ExpandHeld(trace[n].writers)
  {
    RunExpand(trace, n);
    assert ExpandOk(trace[n].meta, trace[n].writers[i]);
  }

  /** Panic is final in every run: the flag stays and the recorded size is frozen. */
  lemma PanicSticks(trace: seq<State>, m: nat, n: nat)
    requires Run(trace) && m <= n < |trace| && trace[m].meta.panicked
    ensures trace[n].meta.panicked && trace[n].meta.fileSize == trace[m].meta.fileSize
  {
    RunPanic(trace, m, n);
  }

  /**
    Inside the bound a panic is absorbing altogether: the physical size is frozen too, records
    already committed stay intact, and nothing that would have needed growth is ever checked out
    or committed. A range that needs none is still handed out.
  */
  lemma PanicIsAbsorbing(trace: seq<State>, m: nat, n: nat, k: nat, i: nat)
    requires Run(trace) && m <= n < |trace| && InBound(trace[n]) && trace[m].meta.panicked
    ensures var a, b := trace[m], trace[n];
            b.meta.panicked && b.meta.fileSize == a.meta.fileSize && |b.file| == |a.file|
    ensures k < |trace[m].log| && trace[m].log[k].status == Committed ==>
              k < |trace[n].log| && RangeOf(trace[n], k) == trace[m].log[k].data
    ensures k < |trace[n].log| && EntryEnd(trace[n].log[k]) > trace[m].meta.fileSize ==>
              trace[n].log[k].status != Committed
    ensures var b := trace[n];
            i < |b.writers| && Active(b.writers[i].pc) &&
            b.writers[i].start + |b.writers[i].data| > trace[m].meta.fileSize ==>
              !CheckedOut(b.writers[i].pc)
    ensures WellFormed(trace[n])
    ensures var b := trace[n];
            i < |b.writers| && b.writers[i].pc.LoadSize? &&
            b.writers[i].start + |b.writers[i].data| <= trace[m].meta.fileSize ==>
              LocalNext(ViewOf(b, i), Go).Some? && CheckedOut(LocalNext(ViewOf(b, i), Go).value.w.pc)
  {
    RunLater(trace, m, n);
    RunInv(trace, n);
    if k < |trace[m].log| && trace[m].log[k].status == Committed {
      CommittedForever(trace, m, n, k);
    }
    if k < |trace[n].log| {
      assert EntryOk(trace[n].log[k], trace[n].file, trace[n].meta.fileSize);
    }
    if i < |trace[n].writers| {
      assert WriterCore(ViewOf(trace[n], i));
    }
  }

  /** The bytes a direct write stores: all of them, or what a failing call got out. */
  function Written(v: View, ch: Choice): seq<byte> {
    if ch.SysFail? && ch.written < |v.w.data| then v.w.data[..ch.written] else v.w.data
  }

  lemma PanickedSizeStep(v: View, ch: Choice)
    requires ValidChunkSize(v.meta.chunkSize) && |v.proc.slots| > 0 && LocalNext(v, ch).Some?
    requires v.meta.panicked && ExpandOk(v.meta, v.w)
    ensures |LocalNext(v, ch).value.file| != |v.file| <==>
            v.w.pc.DirectWrite? && Written(v, ch) != [] && v.w.start + |Written(v, ch)| > |v.file|
  {
    if v.w.pc.DirectWrite? {
    } else if IsCheckoutPc(v.w.pc) {
    } else if IsRingPc(v.w.pc) {
      RingKeepsFile(v, ch);
    } else {
    }
  }

  /**
    After a panic, bound or no bound, one kind of step changes the physical size: a `pwrite` that
    runs past the end of the file. Inside the bound no checked-out range does.
  */
  lemma PanickedSizeChangesIff(trace: seq<State>, n: nat, i: nat, ch: Choice)
    requires Run(trace) && 0 < n < |trace| && StepBy(trace[n - 1], i, ch, trace[n]) && trace[n - 1].meta.panicked
    ensures var s, v := trace[n - 1], ViewOf(trace[n - 1], i);
            |trace[n].file| != |s.file| <==>
            v.w.pc.DirectWrite? && Written(v, ch) != [] && v.w.start + |Written(v, ch)| > |s.file|
  {
    RunExpand(trace, n - 1);
    assert ExpandOk(trace[n - 1].meta, trace[n - 1].writers[i]);
    PanickedSizeStep(ViewOf(trace[n - 1], i), ch);
  }

  /** A thread in a checkout that needs growth, on a panicked log. */
  predicate Refused(m: Meta, w: Writer) {
    m.panicked && Active(w.pc) && IsCheckoutPc(w.pc) && EndOf(w) > m.fileSize
  }

  /** A step of such a thread: it waits for the lock, leaves it taken, or returns false. */
  lemma RefusedStep(v: View, ch: Choice)
    requires ValidChunkSize(v.meta.chunkSize) && |v.proc.slots| > 0 && ExpandOk(v.meta, v.w) && HasJob(v.log, v.w)
    requires Refused(v.meta, v.w) && LocalNext(v, ch).Some?
    ensures var u := LocalNext(v, ch).value;
            u.meta.panicked && u.meta.fileSize == v.meta.fileSize && u.file == v.file &&
            u.w == v.w.(pc := u.w.pc) &&
            (Refused(u.meta, u.w) || (u.w.pc.Idle? && v.w.res < |u.log| && u.log[v.w.res].status == Failed)) &&
            (v.w.pc.TryLock? && v.meta.locked ==> u == v || u.w.pc.Idle?) &&
            (v.w.pc.CheckPanic? ==> u.w.pc.TryLock? && u.meta.locked)
  {
  }

  /** The insert `w` of thread `i` is still in its checkout. */
  predicate Waits(s: State, i: nat, w: Writer) {
    i < |s.writers| && Refused(s.meta, s.writers[i]) && s.writers[i] == w.(pc := s.writers[i].pc)
  }

  /** The insert `w` of thread `i` has just returned false. */
  predicate Refuses(s: State, i: nat, w: Writer) {
    i < |s.writers| && s.writers[i] == w.(pc := Idle) && w.res < |s.log| && s.log[w.res].status == Failed
  }

  lemma WaitStep(trace: seq<State>, n: nat, i: nat, w: Writer)
    requires Run(trace) && 0 < n < |trace| && Waits(trace[n - 1], i, w)
    ensures Waits(trace[n], i, w) || Refuses(trace[n], i, w)
  {
    var k, ch := RunStep(trace, n);
    RunExpand(trace, n - 1);
    RunJobs(trace, n - 1);
    assert HasJob(trace[n - 1].log, trace[n - 1].writers[i]);
    StepExpand(trace[n - 1], k, ch, trace[n]);
    if k == i {
      RefusedStep(ViewOf(trace[n - 1], i), ch);
    }
  }

  /**
    A checkout that needs growth on a panicked log is never handed its range, in any run and whatever
    the other threads do: up to `l` it waits, and at `l` it returns false unless the run ends first.
  */
  lemma {:induction false} PanickedCheckoutFails(trace: seq<State>, m: nat, n: nat, i: nat) returns (l: nat)
    requires Run(trace) && m <= n < |trace| && i < |trace[m].writers|
    requires Refused(trace[m].meta, trace[m].writers[i])
    ensures m <= l <= n && forall q :: m <= q < l ==> Waits(trace[q], i, trace[m].writers[i])
    ensures Refuses(trace[l], i, trace[m].writers[i]) || (l == n && Waits(trace[n], i, trace[m].writers[i]))
    decreases n
  {
    l := n;
    if m < n {
      l := PanickedCheckoutFails(trace, m, n - 1, i);
      if !Refuses(trace[l], i, trace[m].writers[i]) {
        WaitStep(trace, n, i, trace[m].writers[i]);
        l := n;
      }
    }
  }

  /**
    A range that needs no growth is handed out at once and no other is, in any run: neither the panic
    flag nor the expand lock has a say.
  */
  lemma CoveredIsHandedOut(trace: seq<State>, n: nat, i: nat, ch: Choice)
    requires Run(trace) && 0 < n < |trace| && StepBy(trace[n - 1], i, ch, trace[n])
    requires trace[n - 1].writers[i].pc.LoadSize?
    requires trace[n - 1].writers[i].start + |trace[n - 1].writers[i].data| < WORD64
    ensures var s, w := trace[n - 1], trace[n - 1].writers[i];
            CheckedOut(trace[n].writers[i].pc) <==> w.start + |w.data| <= s.meta.fileSize
    ensures trace[n].meta == trace[n - 1].meta && trace[n].file == trace[n - 1].file
  {
  }

  // ----- the chunk ring ------------------------------------------------------------------

  /**
    In every run every chunk ever created is still mapped, covers its aligned window, and has a
    count of one for the ring, one for every thread between its increment and its decrement, and
    at most one for every thread that has faulted in between: it is never zero. The tail is still
    null: nothing has been reclaimed.
  */
  lemma ChunkLifetime(trace: seq<State>, n: nat, p: nat, c: nat)
    requires Run(trace) && n < |trace| && p < |trace[n].procs| && c < |trace[n].procs[p].chunks|
    ensures var chunk := trace[n].procs[p].chunks[c];
            chunk.mapped && chunk.size == trace[n].meta.chunkSize > 0 &&
            chunk.start % trace[n].meta.chunkSize == 0 && trace[n].procs[p].tail == None &&
            0 < 1 + Holders(trace[n].writers, p, c) <= chunk.refs <=
            1 + Holders(trace[n].writers, p, c) + Faulteds(trace[n].writers)
    ensures (forall i :: 0 <= i < |trace[n].writers| ==> !trace[n].writers[i].pc.Faulted?) ==>
              trace[n].procs[p].chunks[c].refs == 1 + Holders(trace[n].writers, p, c)
  {
    RunRing(trace, n);
    RunRefs(trace, n);
    var chunk, cs := trace[n].procs[p].chunks[c], trace[n].meta.chunkSize;
    assert Counted(trace[n].writers, p, c, chunk.refs);
    assert ChunkOk(chunk, cs);
    ModUnique(chunk.start, cs, chunk.start / cs, 0);
    if forall i :: 0 <= i < |trace[n].writers| ==> !trace[n].writers[i].pc.Faulted? {
      NoneFaulted(trace[n].writers);
    }
  }

  /**
    Inside the bound no thread ever faults: every copy meets a live mapping and stays inside the
    mapping and the file, also across the gap between unlocking the head and counting, and after the
    ring has wrapped over the slot of the chunk. No thread ever gets to reclaim a chunk.
  */
  lemma NoFault(trace: seq<State>, n: nat, i: nat)
    requires Run(trace) && n < |trace| && InBound(trace[n]) && i < |trace[n].writers|
    ensures var s := trace[n];
            var w := s.writers[i];
            !w.pc.Faulted? && !w.pc.CleanCas? && !w.pc.CleanUnmap? &&
            (w.pc.Copy? ==>
              w.pid < |s.procs| && w.pc.chunk < |s.procs[w.pid].chunks| && w.done < |w.data| && s.meta.chunkSize > 0 &&
              var c := s.procs[w.pid].chunks[w.pc.chunk];
              var len := PieceLen(s.meta.chunkSize, Cur(w), |w.data| - w.done);
              c.mapped && c.start <= Cur(w) && Cur(w) + len <= c.start + c.size && Cur(w) + len <= |s.file|)
  {
    RunInv(trace, n);
    ThreadGood(trace[n], i);
    var v := ViewOf(trace[n], i);
    if v.w.pc.Copy? {
      PieceFits(v.meta.chunkSize, v.proc.chunks[v.w.pc.chunk], Cur(v.w), |v.w.data| - v.w.done);
    }
  }

  lemma CopyFault(v: View)
    requires RingGood(v) && JobGood(v) && ValidChunkSize(v.meta.chunkSize) && v.w.pc.Copy?
    ensures CopyPiece(v, v.w.pc.chunk).w.pc.Faulted? <==>
            Cur(v.w) + PieceLen(v.meta.chunkSize, Cur(v.w), |v.w.data| - v.w.done) > |v.file|
  {
    PieceFits(v.meta.chunkSize, v.proc.chunks[v.w.pc.chunk], Cur(v.w), |v.w.data| - v.w.done);
  }

  lemma RingNoFault(v: View, ch: Choice)
    requires RingGood(v) && HasJob(v.log, v.w) && ValidChunkSize(v.meta.chunkSize)
    requires IsRingPc(v.w.pc) && RingStep(v, ch).Some?
    ensures !RingStep(v, ch).value.w.pc.Faulted?
  {
    RingSteps(v, ch);
  }

  lemma FaultStep(v: View, ch: Choice)
    requires RingGood(v) && JobGood(v) && ValidChunkSize(v.meta.chunkSize) && LocalNext(v, ch).Some?
    ensures LocalNext(v, ch).value.w.pc.Faulted? <==>
            v.w.pc.Copy? && Cur(v.w) + PieceLen(v.meta.chunkSize, Cur(v.w), |v.w.data| - v.w.done) > |v.file|
  {
    if v.w.pc.Copy? {
      CopyFault(v);
    } else if IsCheckoutPc(v.w.pc) {
      CheckoutNoFault(v, ch);
    } else if IsRingPc(v.w.pc) {
      RingNoFault(v, ch);
    } else if v.w.pc.DecRef? {
      DecMoves(v);
    } else if v.w.pc.DirectWrite? {
      DirectReturns(v, ch);
    } else {
      CleanLeaves(v);
    }
  }

  /** The one way to fault, in any run: a copy into a part of the chunk that the file does not reach. */
  lemma FaultIsShortFile(trace: seq<State>, n: nat, i: nat, ch: Choice)
    requires Run(trace) && 0 < n < |trace| && StepBy(trace[n - 1], i, ch, trace[n])
    ensures trace[n - 1].writers[i].pc.Copy? ==> trace[n - 1].writers[i].done < |trace[n - 1].writers[i].data|
    ensures var s, w := trace[n - 1], trace[n - 1].writers[i];
            trace[n].writers[i].pc.Faulted? <==>
            w.pc.Copy? && Cur(w) + PieceLen(s.meta.chunkSize, Cur(w), |w.data| - w.done) > |s.file|
  {
    ActingJob(trace, n, i, ch);
    FaultStep(ViewOf(trace[n - 1], i), ch);
  }

  lemma CheckoutNoFault(v: View, ch: Choice)
    requires ValidChunkSize(v.meta.chunkSize) && IsCheckoutPc(v.w.pc) && CheckoutStep(v, ch).Some? && HasJob(v.log, v.w)
    ensures !CheckoutStep(v, ch).value.w.pc.Faulted?
  {
  }

  /**
    In every run at most one thread of a process is between `lock_head` and `unlock_head`, and the
    lock is never left behind. While it is free, the head index counts the chunks modulo the
    capacity and the head slot holds the newest chunk (nothing before the first one).
  */
  lemma HeadLockDiscipline(trace: seq<State>, n: nat, i: nat, j: nat, p: nat)
    requires Run(trace) && n < |trace|
    ensures var s := trace[n];
            i < |s.writers| && j < |s.writers| && i != j && s.writers[i].pid == s.writers[j].pid ==>
              !(InHead(s.writers[i].pc) && InHead(s.writers[j].pc))
    ensures var s := trace[n];
            p < |s.procs| ==> (s.procs[p].headLocked <==> HeadHeld(s.writers, p))
    ensures var s := trace[n];
            p < |s.procs| && !s.procs[p].headLocked ==> Published(s.procs[p], |s.procs[p].chunks|)
  {
    RunRing(trace, n);
    var s := trace[n];
    if i < |s.writers| && j < |s.writers| && i != j {
      assert HeadApart(s.writers[i], s.writers[j]);
    }
    if p < |s.procs| && HeadHeld(s.writers, p) {
      var k :| 0 <= k < |s.writers| && s.writers[k].pid == p && InHead(s.writers[k].pc);
      assert ThreadFine(s, k);
    }
  }

  /** In every run the head is used when it serves the position, and only then is no chunk created. */
  lemma HeadIsReused(trace: seq<State>, n: nat, i: nat, ch: Choice)
    requires Run(trace) && 0 < n < |trace| && StepBy(trace[n - 1], i, ch, trace[n])
    requires trace[n - 1].writers[i].pc.Inspect?
    ensures var p, w := trace[n - 1].procs[trace[n - 1].writers[i].pid], trace[n - 1].writers[i];
            p.head < |p.slots| && (p.slots[p.head].At? ==> p.slots[p.head].id < |p.chunks|) &&
            trace[n].writers[i].pc ==
            if p.slots[p.head].At? && InChunk(p.chunks[p.slots[p.head].id], Cur(w)) then IncFound(p.slots[p.head].id)
            else Create(p.head)
    ensures trace[n].procs == trace[n - 1].procs
  {
    ActingJob(trace, n, i, ch);
    InspectChooses(ViewOf(trace[n - 1], i));
  }

  /** The compare-and-swap on the head never fails, in any run, and publishes the newest chunk. */
  lemma HeadCasSucceeds(trace: seq<State>, n: nat, i: nat, ch: Choice)
    requires Run(trace) && 0 < n < |trace|
    requires i < |trace[n - 1].writers| && trace[n - 1].writers[i].pc.AdvanceHead?
    requires StepBy(trace[n - 1], i, ch, trace[n])
    ensures var p := trace[n - 1].procs[trace[n - 1].writers[i].pid];
            trace[n - 1].writers[i].pc.head == p.head && |p.slots| > 0 &&
            var p' := trace[n].procs[trace[n - 1].writers[i].pid];
            p'.head == NextIndex(p, p.head) && Published(p', |p'.chunks|)
  {
    RunRing(trace, n - 1);
    ActingRing(trace[n - 1], i, ch, trace[n]);
    AdvancePublishes(ViewOf(trace[n - 1], i));
  }
}
