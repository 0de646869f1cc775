/**
  What becomes of written bytes in any run whose reservations fit 64 bits: one kind of step takes
  them away, an `ftruncate` to less than their end, and no other does.
*/
module LogRecords {
  import opened Words
  import opened LogAlign
  import opened LogModel
  import opened LogInvariant
  import opened LogHistory
  import opened LogRing
  import opened LogProgress

  // ----- what one step does to the file --------------------------------------------------

  /** The step is an `ftruncate` that leaves less than `end` bytes. */
  predicate Cuts(v: View, ch: Choice, end: nat) {
    ValidChunkSize(v.meta.chunkSize) && v.w.pc.Truncate? && ch.Go? && Align(EndOf(v.w), v.meta.chunkSize) < end
  }

  predicate Resizes(v: View, ch: Choice) {
    v.w.pc.Truncate? && ch.Go?
  }

  lemma CheckoutKeepsFile(v: View, ch: Choice)
    requires ValidChunkSize(v.meta.chunkSize) && IsCheckoutPc(v.w.pc) && CheckoutStep(v, ch).Some?
    ensures CheckoutStep(v, ch).value.file ==
            if Resizes(v, ch) then Resize(v.file, Align(EndOf(v.w), v.meta.chunkSize)) else v.file
  {
  }

  lemma RingKeepsFile(v: View, ch: Choice)
    requires v.meta.chunkSize > 0 && |v.proc.slots| > 0 && IsRingPc(v.w.pc) && RingStep(v, ch).Some?
    ensures RingStep(v, ch).value.file == v.file
  {
  }

  lemma WriteStores(v: View, ch: Choice)
    requires RingGood(v) && JobGood(v) && v.meta.chunkSize > 0 && IsWritePc(v.w.pc) && WriteStep(v, ch).Some?
    ensures FileGuarantee(v.file, v.w, WriteStep(v, ch).value.file)
  {
    if v.w.pc.Copy? {
      CopyStores(v);
      var n := PieceLen(v.meta.chunkSize, Cur(v.w), |v.w.data| - v.w.done);
      OwnStore(v.file, v.w, Cur(v.w), v.w.data[v.w.done..v.w.done + n]);
    } else if v.w.pc.DecRef? {
      DecMoves(v);
    } else {
      DirectStores(v, ch);
      OwnStore(v.file, v.w, v.w.start, if ch.Go? then v.w.data else v.w.data[..ch.written]);
    }
  }

  /** Every step but an `ftruncate` leaves the bytes outside its thread's own range. */
  lemma StepStores(v: View, ch: Choice)
    requires RingGood(v) && JobGood(v) && ValidChunkSize(v.meta.chunkSize) && LocalNext(v, ch).Some?
    ensures !Resizes(v, ch) ==> FileGuarantee(v.file, v.w, LocalNext(v, ch).value.file)
    ensures Resizes(v, ch) ==>
              LocalNext(v, ch).value.file == Resize(v.file, Align(EndOf(v.w), v.meta.chunkSize)) &&
              LocalNext(v, ch).value.log == v.log && LocalNext(v, ch).value.w.done == v.w.done
  {
    if IsCheckoutPc(v.w.pc) {
      CheckoutKeepsFile(v, ch);
    } else if IsRingPc(v.w.pc) {
      RingKeepsFile(v, ch);
    } else if IsWritePc(v.w.pc) {
      WriteStores(v, ch);
    } else {
      CleanLeaves(v);
    }
  }

  lemma ResizedStands(file: seq<byte>, size: nat, at: nat, data: seq<byte>)
    requires Stands(file, at, data)
    ensures Stands(Resize(file, size), at, data) <==> at + |data| <= size
  {
    if at + |data| <= size {
      assert Resize(file, size)[at..at + |data|] == file[at..at + |data|];
    }
  }

  /** Bytes outside the acting thread's range go exactly with an `ftruncate` below their end. */
  lemma OthersStand(v: View, ch: Choice, at: nat, data: seq<byte>)
    requires RingGood(v) && JobGood(v) && ValidChunkSize(v.meta.chunkSize) && LocalNext(v, ch).Some?
    requires Stands(v.file, at, data)
    requires CheckedOut(v.w.pc) ==> at + |data| <= v.w.start || v.w.start + |v.w.data| <= at
    ensures Stands(LocalNext(v, ch).value.file, at, data) <==> !Cuts(v, ch, at + |data|)
  {
    StepStores(v, ch);
    if Resizes(v, ch) {
      ResizedStands(v.file, Align(EndOf(v.w), v.meta.chunkSize), at, data);
    } else {
      FileGuaranteeSlice(v.file, v.w, LocalNext(v, ch).value.file, at, at + |data|);
    }
  }

  // ----- the acting thread's own bytes ---------------------------------------------------

  /** What the thread has written so far of its payload is in the file. */
  predicate PartStands(file: seq<byte>, w: Writer) {
    Active(w.pc) && w.done > 0 ==> w.done <= |w.data| && Stands(file, w.start, w.data[..w.done])
  }

  lemma PieceStands(file: seq<byte>, w: Writer, n: nat)
    requires Active(w.pc) && PartStands(file, w) && w.done + n <= |w.data| && Cur(w) + n <= |file|
    ensures Stands(Overwrite(file, Cur(w), w.data[w.done..w.done + n]), w.start, w.data[..w.done + n])
  {
    assert Stands(file, w.start, w.data[..w.done]);
    PrefixGrows(file, w.start, w.data, w.done, n);
  }

  lemma CopyPart(v: View)
    requires JobGood(v) && v.meta.chunkSize > 0 && v.w.pc.Copy? && PartStands(v.file, v.w)
    ensures PartStands(CopyPiece(v, v.w.pc.chunk).file, CopyPiece(v, v.w.pc.chunk).w)
  {
    CopyStores(v);
    if CopyPiece(v, v.w.pc.chunk) != Goto(v, Faulted) {
      PieceStands(v.file, v.w, PieceLen(v.meta.chunkSize, Cur(v.w), |v.w.data| - v.w.done));
    }
  }

  /** A step of a thread keeps its own bytes, and a record it commits stands in the file. */
  predicate OwnStands(v: View, v': View) {
    PartStands(v'.file, v'.w) &&
    (Settles(v, v') && v'.log[v.w.res].status == Committed ==> Stands(v'.file, v.w.start, v.w.data))
  }

  lemma CheckoutOwn(v: View, ch: Choice)
    requires ValidChunkSize(v.meta.chunkSize) && JobGood(v) && IsCheckoutPc(v.w.pc) && CheckoutStep(v, ch).Some?
    ensures OwnStands(v, CheckoutStep(v, ch).value)
  {
  }

  lemma RingOwn(v: View, ch: Choice)
    requires RingGood(v) && JobGood(v) && ValidChunkSize(v.meta.chunkSize) && PartStands(v.file, v.w)
    requires IsRingPc(v.w.pc) && RingStep(v, ch).Some?
    ensures OwnStands(v, RingStep(v, ch).value)
  {
    RingSteps(v, ch);
  }

  lemma DirectOwn(v: View, ch: Choice)
    requires JobGood(v) && v.meta.chunkSize > 0 && v.w.pc.DirectWrite? && WriteStep(v, ch).Some?
    ensures OwnStands(v, WriteStep(v, ch).value)
  {
    DirectStores(v, ch);
  }

  lemma CleanOwn(v: View)
    requires RingGood(v) && JobGood(v) && IsCleanPc(v.w.pc) && PartStands(v.file, v.w)
    ensures OwnStands(v, CleanGo(v))
  {
    CleanLeaves(v);
    assert v.w.data[..|v.w.data|] == v.w.data;
  }

  lemma StepOwn(v: View, ch: Choice)
    requires RingGood(v) && JobGood(v) && ValidChunkSize(v.meta.chunkSize) && LocalNext(v, ch).Some?
    requires PartStands(v.file, v.w)
    ensures OwnStands(v, LocalNext(v, ch).value)
  {
    if IsCheckoutPc(v.w.pc) {
      CheckoutOwn(v, ch);
    } else if IsRingPc(v.w.pc) {
      RingOwn(v, ch);
    } else if IsCleanPc(v.w.pc) {
      CleanOwn(v);
    } else if v.w.pc.Copy? {
      CopyPart(v);
    } else if v.w.pc.DecRef? {
      DecMoves(v);
    } else {
      DirectOwn(v, ch);
    }
  }

  // ----- one step of a run ---------------------------------------------------------------

  /** What one step of a run needs: the facts of the run, before the step. */
  ghost predicate RecordInv(s: State) {
    RingInv(s) && JobsInv(s) && ProgressInv(s) && Tiled(s.log, s.meta.cursor)
  }

  lemma RunRecordInv(trace: seq<State>, n: nat)
    requires Run(trace) && n < |trace| && InWidth(trace[n].log)
    ensures RecordInv(trace[n])
  {
    RunRing(trace, n);
    RunJobs(trace, n);
    RunProgress(trace, n);
    RunTiling(trace, n);
  }

  lemma Acting(s: State, i: nat, ch: Choice, s': State)
    requires RecordInv(s) && StepBy(s, i, ch, s')
    ensures RingGood(ViewOf(s, i)) && JobGood(ViewOf(s, i))
    ensures WellFormed(s') && ViewOf(s', i) == LocalNext(ViewOf(s, i), ch).value
  {
    ActingRing(s, i, ch, s');
    assert HasJob(s.log, s.writers[i]) && Placed(s.writers[i]);
  }

  /** Some step from one state to the other is an `ftruncate` below `end`. */
  ghost predicate CutBelow(s: State, s': State, end: nat) {
    exists i: nat, ch: Choice :: StepBy(s, i, ch, s') && Cuts(ViewOf(s, i), ch, end)
  }

  /** A settled entry of the history never changes. */
  lemma EntryStep(s: State, i: nat, ch: Choice, s': State, k: nat)
    requires JobsInv(s) && StepBy(s, i, ch, s') && k < |s.log| && s.log[k].status != Open
    ensures k < |s'.log| && s'.log[k] == s.log[k]
  {
    assert HasJob(s.log, s.writers[i]);
    JobMoves(ViewOf(s, i), ch);
  }

  /** A committed record stays in place exactly if the step is no `ftruncate` below its end. */
  lemma RecordStep(s: State, i: nat, ch: Choice, s': State, k: nat)
    requires RecordInv(s) && StepBy(s, i, ch, s') && k < |s.log| && s.log[k].status == Committed
    requires Stands(s.file, s.log[k].start, s.log[k].data)
    ensures Stands(s'.file, s.log[k].start, s.log[k].data) <==> !Cuts(ViewOf(s, i), ch, EntryEnd(s.log[k]))
  {
    Acting(s, i, ch, s');
    var v := ViewOf(s, i);
    if CheckedOut(v.w.pc) {
      TiledDisjoint(s.log, s.meta.cursor, k, v.w.res);
    }
    OthersStand(v, ch, s.log[k].start, s.log[k].data);
  }

  /** So do the written bytes of an insert under the steps of other threads. */
  lemma PartStep(s: State, i: nat, ch: Choice, s': State, j: nat)
    requires RecordInv(s) && StepBy(s, i, ch, s') && j < |s.writers| && j != i
    requires Active(s.writers[j].pc) && s.writers[j].done > 0 && PartStands(s.file, s.writers[j])
    ensures j < |s'.writers| && s'.writers[j] == s.writers[j]
    ensures PartStands(s'.file, s.writers[j]) <==>
            !Cuts(ViewOf(s, i), ch, s.writers[j].start + s.writers[j].done)
  {
    Acting(s, i, ch, s');
    var v, b := ViewOf(s, i), s.writers[j];
    assert HasJob(s.log, b) && Apart(v.w, b);
    if CheckedOut(v.w.pc) {
      TiledDisjoint(s.log, s.meta.cursor, b.res, v.w.res);
    }
    OthersStand(v, ch, b.start, b.data[..b.done]);
  }

  // ----- every record and every written byte ---------------------------------------------

  /** Every committed record, and what every open insert has written, is in the file. */
  predicate Intact(s: State) {
    (forall k :: 0 <= k < |s.log| && s.log[k].status == Committed ==> Stands(s.file, s.log[k].start, s.log[k].data)) &&
    (forall j :: 0 <= j < |s.writers| ==> PartStands(s.file, s.writers[j]))
  }

  predicate CutsRecord(s: State, v: View, ch: Choice) {
    exists k :: 0 <= k < |s.log| && s.log[k].status == Committed && Cuts(v, ch, EntryEnd(s.log[k]))
  }

  predicate CutsPart(s: State, v: View, ch: Choice) {
    exists j :: 0 <= j < |s.writers| && Active(s.writers[j].pc) && s.writers[j].done > 0 &&
                Cuts(v, ch, s.writers[j].start + s.writers[j].done)
  }

  /** The step cuts into a committed record, or into what an open insert has written. */
  predicate CutsWritten(s: State, v: View, ch: Choice) {
    CutsRecord(s, v, ch) || CutsPart(s, v, ch)
  }

  lemma RecordsIntact(s: State, i: nat, ch: Choice, s': State, k: nat)
    requires RecordInv(s) && StepBy(s, i, ch, s') && Intact(s) && !CutsRecord(s, ViewOf(s, i), ch)
    requires k < |s'.log| && s'.log[k].status == Committed
    ensures Stands(s'.file, s'.log[k].start, s'.log[k].data)
  {
    Acting(s, i, ch, s');
    var v := ViewOf(s, i);
    if k < |s.log| && s.log[k].status == Committed {
      EntryStep(s, i, ch, s', k);
      RecordStep(s, i, ch, s', k);
    } else {
      LocalMoves(v, ch);
      assert PartStands(s.file, s.writers[i]);
      StepOwn(v, ch);
    }
  }

  lemma PartsIntact(s: State, i: nat, ch: Choice, s': State, j: nat)
    requires RecordInv(s) && StepBy(s, i, ch, s') && Intact(s) && !CutsPart(s, ViewOf(s, i), ch)
    requires j < |s'.writers|
    ensures PartStands(s'.file, s'.writers[j])
  {
    Acting(s, i, ch, s');
    assert PartStands(s.file, s.writers[j]);
    if j == i {
      StepOwn(ViewOf(s, i), ch);
    } else if Active(s.writers[j].pc) && s.writers[j].done > 0 {
      PartStep(s, i, ch, s', j);
    }
  }

  /** A step leaves everything written in the file if and only if it does not cut into it. */
  lemma StepIntact(s: State, i: nat, ch: Choice, s': State)
    requires RecordInv(s) && StepBy(s, i, ch, s') && Intact(s)
    ensures Intact(s') <==> !CutsWritten(s, ViewOf(s, i), ch)
  {
    var v := ViewOf(s, i);
    Acting(s, i, ch, s');
    if CutsRecord(s, v, ch) {
      var k :| 0 <= k < |s.log| && s.log[k].status == Committed && Cuts(v, ch, EntryEnd(s.log[k]));
      EntryStep(s, i, ch, s', k);
      RecordStep(s, i, ch, s', k);
    } else if CutsPart(s, v, ch) {
      var j :| 0 <= j < |s.writers| && Active(s.writers[j].pc) && s.writers[j].done > 0 &&
               Cuts(v, ch, s.writers[j].start + s.writers[j].done);
      PartStep(s, i, ch, s', j);
    } else {
      forall k | 0 <= k < |s'.log| && s'.log[k].status == Committed
        ensures Stands(s'.file, s'.log[k].start, s'.log[k].data)
      {
        RecordsIntact(s, i, ch, s', k);
      }
      forall j | 0 <= j < |s'.writers|
        ensures PartStands(s'.file, s'.writers[j])
      {
        PartsIntact(s, i, ch, s', j);
      }
    }
  }

  // ----- every run -----------------------------------------------------------------------

  /** Some step from one state to the other cuts into something written. */
  ghost predicate CutBetween(s: State, s': State) {
    exists i: nat, ch: Choice :: StepBy(s, i, ch, s') && CutsWritten(s, ViewOf(s, i), ch)
  }

  lemma CutBreaks(s: State, i: nat, ch: Choice, s': State)
    requires RecordInv(s) && StepBy(s, i, ch, s') && Intact(s)
    ensures Intact(s') <==> !CutBetween(s, s')
  {
    StepIntact(s, i, ch, s');
    if CutBetween(s, s') {
      var j: nat, c: Choice :| StepBy(s, j, c, s') && CutsWritten(s, ViewOf(s, j), c);
      StepIntact(s, j, c, s');
    }
  }

  lemma IntactStep(trace: seq<State>, n: nat)
    requires Run(trace) && 0 < n < |trace| && InWidth(trace[n - 1].log) && Intact(trace[n - 1])
    ensures Intact(trace[n]) <==> !CutBetween(trace[n - 1], trace[n])
  {
    RunRecordInv(trace, n - 1);
    var i, ch := RunStep(trace, n);
    CutBreaks(trace[n - 1], i, ch, trace[n]);
  }

  /**
    All committed records and all written bytes are in the file at every moment of a run if and
    only if no `ftruncate` of the run cuts into one of them.
  */
  lemma {:induction false} IntactIff(trace: seq<State>, n: nat)
    requires Run(trace) && n < |trace| && InWidth(trace[n].log)
    ensures (forall q :: 0 <= q <= n ==> Intact(trace[q])) <==>
            (forall q :: 0 < q <= n ==> !CutBetween(trace[q - 1], trace[q]))
  {
    if n > 0 {
      WidthBackwards(trace, n - 1, n);
      IntactIff(trace, n - 1);
      if Intact(trace[n - 1]) {
        IntactStep(trace, n);
      }
    }
  }

  lemma RecordCut(s: State, i: nat, ch: Choice, s': State, k: nat)
    requires RecordInv(s) && StepBy(s, i, ch, s') && k < |s.log| && s.log[k].status == Committed
    requires Stands(s.file, s.log[k].start, s.log[k].data)
    ensures Stands(s'.file, s.log[k].start, s.log[k].data) <==> !CutBelow(s, s', EntryEnd(s.log[k]))
  {
    RecordStep(s, i, ch, s', k);
    if CutBelow(s, s', EntryEnd(s.log[k])) {
      var j: nat, c: Choice :| StepBy(s, j, c, s') && Cuts(ViewOf(s, j), c, EntryEnd(s.log[k]));
      RecordStep(s, j, c, s', k);
    }
  }

  /** In every run a settled entry of the history stays what it is. */
  lemma {:induction false} EntryForever(trace: seq<State>, m: nat, n: nat, k: nat)
    requires Run(trace) && m <= n < |trace| && k < |trace[m].log| && trace[m].log[k].status != Open
    ensures k < |trace[n].log| && trace[n].log[k] == trace[m].log[k]
    decreases n
  {
    if m < n {
      EntryForever(trace, m, n - 1, k);
      RunJobs(trace, n - 1);
      var i, ch := RunStep(trace, n);
      EntryStep(trace[n - 1], i, ch, trace[n], k);
    }
  }

  lemma SurvivesStep(trace: seq<State>, n: nat, k: nat)
    requires Run(trace) && 0 < n < |trace| && InWidth(trace[n - 1].log)
    requires k < |trace[n - 1].log| && trace[n - 1].log[k].status == Committed
    requires Stands(trace[n - 1].file, trace[n - 1].log[k].start, trace[n - 1].log[k].data)
    ensures var e := trace[n - 1].log[k];
            Stands(trace[n].file, e.start, e.data) <==> !CutBelow(trace[n - 1], trace[n], EntryEnd(e))
  {
    RunRecordInv(trace, n - 1);
    var i, ch := RunStep(trace, n);
    RecordCut(trace[n - 1], i, ch, trace[n], k);
  }

  /**
    A committed record that is in the file stays there for the rest of a run if and only if no
    `ftruncate` of that rest cuts below its end.
  */
  lemma {:induction false} RecordSurvivesIff(trace: seq<State>, m: nat, n: nat, k: nat)
    requires Run(trace) && m <= n < |trace| && InWidth(trace[n].log)
    requires k < |trace[m].log| && trace[m].log[k].status == Committed
    requires Stands(trace[m].file, trace[m].log[k].start, trace[m].log[k].data)
    ensures var e := trace[m].log[k];
            (forall q :: m <= q <= n ==> Stands(trace[q].file, e.start, e.data)) <==>
            (forall q :: m < q <= n ==> !CutBelow(trace[q - 1], trace[q], EntryEnd(e)))
    decreases n
  {
    var e := trace[m].log[k];
    if m < n {
      WidthBackwards(trace, n - 1, n);
      RecordSurvivesIff(trace, m, n - 1, k);
      EntryForever(trace, m, n - 1, k);
      if Stands(trace[n - 1].file, e.start, e.data) {
        SurvivesStep(trace, n, k);
      }
    }
  }

  // ----- the log as its readers see it ---------------------------------------------------

  /** The bytes of the file that belong to a reservation. */
  function RangeOf(s: State, k: nat): seq<byte>
    requires k < |s.log|
  {
    if EntryEnd(s.log[k]) <= |s.file| then s.file[s.log[k].start..EntryEnd(s.log[k])] else []
  }

  /** The payloads, in the order of the fetch-adds. */
  function Payloads(log: seq<Entry>): seq<byte> {
    if log == [] then [] else Payloads(log[..|log| - 1]) + log[|log| - 1].data
  }

  lemma {:induction false} CommittedPrefix(log: seq<Entry>, cursor: nat, file: seq<byte>, n: nat)
    requires Tiled(log, cursor) && n <= |log| && forall k :: 0 <= k < |log| ==> Stands(file, log[k].start, log[k].data)
    ensures EndBefore(log, n) <= |file| && file[..EndBefore(log, n)] == Payloads(log[..n])
  {
    if n > 0 {
      CommittedPrefix(log, cursor, file, n - 1);
      assert log[..n][..n - 1] == log[..n - 1];
      assert Stands(file, log[n - 1].start, log[n - 1].data);
      var lo := EndBefore(log, n - 1);
      assert log[n - 1].start == lo;
      assert file[..EntryEnd(log[n - 1])] == file[..lo] + file[lo..EntryEnd(log[n - 1])];
    }
  }

  /**
    Where nothing written has been cut away, a committed payload is exactly the bytes of its range;
    if all inserts returned true, the file up to the cursor is the payloads in fetch-add order.
  */
  lemma IntactReads(s: State)
    requires Intact(s) && Tiled(s.log, s.meta.cursor)
    ensures forall k :: 0 <= k < |s.log| && s.log[k].status == Committed ==> RangeOf(s, k) == s.log[k].data
    ensures (forall k :: 0 <= k < |s.log| ==> s.log[k].status == Committed) ==>
              s.meta.cursor <= |s.file| && s.file[..s.meta.cursor] == Payloads(s.log)
  {
    if forall k :: 0 <= k < |s.log| ==> s.log[k].status == Committed {
      CommittedPrefix(s.log, s.meta.cursor, s.file, |s.log|);
      assert s.log[..|s.log|] == s.log;
    }
  }
}
