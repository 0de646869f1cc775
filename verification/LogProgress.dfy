/**
  How far every thread has got with its payload, and where its stores go: facts of every run, with
  no bound on the sizes of the log.
*/
module LogProgress {
  import opened Words
  import opened LogAlign
  import opened LogModel
  import opened LogInvariant
  import opened LogHistory
  import opened LogRing

  // ----- one step ------------------------------------------------------------------------

  lemma CheckoutPlaced(v: View, ch: Choice)
    requires ValidChunkSize(v.meta.chunkSize) && JobGood(v) && IsCheckoutPc(v.w.pc) && CheckoutStep(v, ch).Some?
    ensures Placed(CheckoutStep(v, ch).value.w)
  {
  }

  /** In the ring a thread moves on, or gives up with its payload unfinished. */
  lemma RingSteps(v: View, ch: Choice)
    requires RingGood(v) && ValidChunkSize(v.meta.chunkSize) && IsRingPc(v.w.pc) && RingStep(v, ch).Some?
    ensures var v' := RingStep(v, ch).value;
            (v'.meta == v.meta && v'.file == v.file && v'.log == v.log && v'.w == v.w.(pc := v'.w.pc) &&
             (IsRingPc(v'.w.pc) || v'.w.pc.Copy?)) ||
            v' == Finish(v.(proc := v'.proc), Failed)
  {
  }

  /** A piece is never empty and never longer than what is left. */
  lemma PiecePositive(cs: nat, cur: nat, remaining: nat)
    requires cs > 0 && remaining > 0
    ensures 0 < PieceLen(cs, cur, remaining) <= remaining
  {
    ChunkEndAbove(cs, cur);
  }

  /** Storing the next piece behind what stands makes more of the payload stand. */
  lemma PrefixGrows(file: seq<byte>, at: nat, data: seq<byte>, done: nat, n: nat)
    requires done + n <= |data| && at + done + n <= |file| && Stands(file, at, data[..done])
    ensures var file' := Overwrite(file, at + done, data[done..done + n]);
            |file'| == |file| && Stands(file', at, data[..done + n])
  {
    var file' := Overwrite(file, at + done, data[done..done + n]);
    assert file'[at..at + done] == file[at..at + done];
    assert file'[at + done..at + done + n] == data[done..done + n];
    assert file'[at..at + done + n] == file'[at..at + done] + file'[at + done..at + done + n];
    assert data[..done + n] == data[..done] + data[done..done + n];
  }

  /** A store inside the thread's own range leaves all other bytes alone. */
  lemma OwnStore(file: seq<byte>, w: Writer, at: nat, data: seq<byte>)
    requires CheckedOut(w.pc) && w.start <= at && at + |data| <= w.start + |w.data|
    ensures FileGuarantee(file, w, Overwrite(file, at, data))
  {
  }

  /** The copy stores the next piece, unless it faults and changes nothing. */
  lemma CopyStores(v: View)
    requires v.meta.chunkSize > 0 && v.w.pc.Copy? && v.w.done < |v.w.data|
    ensures var n := PieceLen(v.meta.chunkSize, Cur(v.w), |v.w.data| - v.w.done);
            0 < n && v.w.done + n <= |v.w.data| &&
            (CopyPiece(v, v.w.pc.chunk) == Goto(v, Faulted) ||
             (Cur(v.w) + n <= |v.file| &&
              CopyPiece(v, v.w.pc.chunk) ==
              v.(file := Overwrite(v.file, Cur(v.w), v.w.data[v.w.done..v.w.done + n]),
                 w := v.w.(pc := DecRef(v.w.pc.chunk), done := v.w.done + n))))
  {
    PiecePositive(v.meta.chunkSize, Cur(v.w), |v.w.data| - v.w.done);
  }

  lemma DecMoves(v: View)
    requires RingGood(v) && v.meta.chunkSize > 0 && v.w.pc.DecRef?
    ensures var v' := WriteStep(v, Go).value;
            v'.meta == v.meta && v'.file == v.file && v'.log == v.log &&
            v'.w == v.w.(pc := if v.w.done < |v.w.data| then LockHead else CleanTail(FromInsert))
  {
    CountFrame(v, v.w.pc.chunk, -1, if v.w.done < |v.w.data| then LockHead else CleanTail(FromInsert));
  }

  /** `pwrite`, complete or cut short. */
  lemma DirectStores(v: View, ch: Choice)
    requires v.meta.chunkSize > 0 && v.w.pc.DirectWrite? && WriteStep(v, ch).Some?
    ensures var data := if ch.Go? then v.w.data else v.w.data[..ch.written];
            |data| <= |v.w.data| &&
            WriteStep(v, ch).value == Finish(v.(file := Overwrite(v.file, v.w.start, data)),
                                             if ch.Go? then Committed else Failed)
  {
  }

  lemma RingPlaced(v: View, ch: Choice)
    requires RingGood(v) && JobGood(v) && ValidChunkSize(v.meta.chunkSize)
    requires IsRingPc(v.w.pc) && RingStep(v, ch).Some?
    ensures Placed(RingStep(v, ch).value.w)
  {
    var v' := RingStep(v, ch).value;
    RingSteps(v, ch);
    if v' == Finish(v.(proc := v'.proc), Failed) {
      FinishIsIdle(v.(proc := v'.proc), Failed);
    } else {
      MovedOn(v.w, v'.w);
    }
  }

  lemma FinishIsIdle(v: View, status: Status)
    requires HasJob(v.log, v.w) && Active(v.w.pc)
    ensures Finish(v, status).w == v.w.(pc := Idle)
  {
  }

  lemma MovedOn(w: Writer, w': Writer)
    requires Placed(w) && IsRingPc(w.pc) && (IsRingPc(w'.pc) || w'.pc.Copy?) && w' == w.(pc := w'.pc)
    ensures Placed(w')
  {
  }

  lemma DirectReturns(v: View, ch: Choice)
    requires JobGood(v) && v.meta.chunkSize > 0 && v.w.pc.DirectWrite? && WriteStep(v, ch).Some?
    ensures WriteStep(v, ch).value.w == v.w.(pc := Idle)
  {
    DirectStores(v, ch);
    var data := if ch.Go? then v.w.data else v.w.data[..ch.written];
    FinishIsIdle(v.(file := Overwrite(v.file, v.w.start, data)), if ch.Go? then Committed else Failed);
  }

  lemma CopyPlaced(v: View)
    requires JobGood(v) && v.meta.chunkSize > 0 && v.w.pc.Copy?
    ensures Placed(CopyPiece(v, v.w.pc.chunk).w)
  {
    CopyStores(v);
  }

  lemma DecPlaced(v: View)
    requires RingGood(v) && JobGood(v) && v.meta.chunkSize > 0 && v.w.pc.DecRef?
    ensures Placed(WriteStep(v, Go).value.w)
  {
    DecMoves(v);
  }

  lemma WritePlaced(v: View, ch: Choice)
    requires RingGood(v) && JobGood(v) && ValidChunkSize(v.meta.chunkSize)
    requires IsWritePc(v.w.pc) && WriteStep(v, ch).Some?
    ensures Placed(WriteStep(v, ch).value.w)
  {
    if v.w.pc.Copy? {
      CopyPlaced(v);
    } else if v.w.pc.DecRef? {
      DecPlaced(v);
    } else {
      DirectReturns(v, ch);
    }
  }

  lemma CleanPlaced(v: View)
    requires RingGood(v) && JobGood(v) && IsCleanPc(v.w.pc)
    ensures Placed(CleanGo(v).w)
  {
    CleanLeaves(v);
  }

  /** Any step leaves its thread with its job, as far as its new place says. */
  lemma StepProgress(v: View, ch: Choice)
    requires RingGood(v) && JobGood(v) && ValidChunkSize(v.meta.chunkSize) && LocalNext(v, ch).Some?
    ensures JobGood(LocalNext(v, ch).value)
  {
    JobMoves(v, ch);
    if IsCheckoutPc(v.w.pc) {
      CheckoutPlaced(v, ch);
    } else if IsRingPc(v.w.pc) {
      RingPlaced(v, ch);
    } else if IsCleanPc(v.w.pc) {
      CleanPlaced(v);
    } else {
      WritePlaced(v, ch);
    }
  }

  // ----- every run -----------------------------------------------------------------------

  predicate ProgressInv(s: State) {
    forall i :: 0 <= i < |s.writers| ==> Placed(s.writers[i])
  }

  lemma StepPlaced(s: State, i: nat, ch: Choice, s': State)
    requires RingInv(s) && JobsInv(s) && ProgressInv(s) && StepBy(s, i, ch, s')
    ensures ProgressInv(s')
  {
    ActingRing(s, i, ch, s');
    StepProgress(ViewOf(s, i), ch);
  }

  /** In every reachable state every thread is as far with its payload as its place says. */
  lemma {:induction false} RunProgress(trace: seq<State>, n: nat)
    requires Run(trace) && n < |trace|
    ensures ProgressInv(trace[n])
  {
    if n > 0 {
      RunProgress(trace, n - 1);
      RunRing(trace, n - 1);
      RunJobs(trace, n - 1);
      var i, ch := RunStep(trace, n);
      StepPlaced(trace[n - 1], i, ch, trace[n]);
    }
  }

  /** What holds of the acting thread before any step of any run. */
  lemma ActingJob(trace: seq<State>, n: nat, i: nat, ch: Choice)
    requires Run(trace) && 0 < n < |trace| && StepBy(trace[n - 1], i, ch, trace[n])
    ensures RingGood(ViewOf(trace[n - 1], i)) && JobGood(ViewOf(trace[n - 1], i))
    ensures WellFormed(trace[n]) && ViewOf(trace[n], i) == LocalNext(ViewOf(trace[n - 1], i), ch).value
  {
    RunRing(trace, n - 1);
    RunJobs(trace, n - 1);
    RunProgress(trace, n - 1);
    ActingRing(trace[n - 1], i, ch, trace[n]);
    assert Placed(trace[n - 1].writers[i]);
  }
}
