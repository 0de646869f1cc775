/**
  Which way an insert goes and when it returns false, over every run: by `pwrite` or through the
  chunk ring, waiting for a lock, and failing only where a wait or a system call has failed.
*/
module LogVerdicts {
  import opened Words
  import opened LogAlign
  import opened LogModel
  import opened LogInvariant
  import opened LogHistory
  import opened LogRing
  import opened LogProgress
  import opened LogSplit

  // ----- directly or through the ring ----------------------------------------------------

  /** A thread is in `pwrite` or in the chunk loop as its range says. */
  predicate Routed(cs: nat, w: Writer)
    requires cs > 0
  {
    CheckedOut(w.pc) ==> (w.pc.DirectWrite? <==> WritesDirectly(cs, w.start, |w.data|))
  }

  lemma CheckoutRouted(v: View, ch: Choice)
    requires ValidChunkSize(v.meta.chunkSize) && IsCheckoutPc(v.w.pc) && CheckoutStep(v, ch).Some?
    ensures Routed(v.meta.chunkSize, CheckoutStep(v, ch).value.w)
  {
  }

  lemma RingRouted(v: View, ch: Choice)
    requires RingGood(v) && HasJob(v.log, v.w) && ValidChunkSize(v.meta.chunkSize) && Routed(v.meta.chunkSize, v.w)
    requires IsRingPc(v.w.pc) && RingStep(v, ch).Some?
    ensures Routed(v.meta.chunkSize, RingStep(v, ch).value.w)
  {
    var v' := RingStep(v, ch).value;
    RingSteps(v, ch);
    if v' == Finish(v.(proc := v'.proc), Failed) {
      FinishIsIdle(v.(proc := v'.proc), Failed);
    }
  }

  lemma CopyRouted(v: View)
    requires JobGood(v) && v.meta.chunkSize > 0 && v.w.pc.Copy? && Routed(v.meta.chunkSize, v.w)
    ensures Routed(v.meta.chunkSize, CopyPiece(v, v.w.pc.chunk).w)
  {
    CopyStores(v);
  }

  lemma DecRouted(v: View)
    requires RingGood(v) && v.meta.chunkSize > 0 && v.w.pc.DecRef? && Routed(v.meta.chunkSize, v.w)
    ensures Routed(v.meta.chunkSize, WriteStep(v, Go).value.w)
  {
    DecMoves(v);
  }

  lemma StepRouted(v: View, ch: Choice)
    requires RingGood(v) && JobGood(v) && ValidChunkSize(v.meta.chunkSize) && LocalNext(v, ch).Some?
    requires Routed(v.meta.chunkSize, v.w)
    ensures Routed(v.meta.chunkSize, LocalNext(v, ch).value.w)
  {
    if IsCheckoutPc(v.w.pc) {
      CheckoutRouted(v, ch);
    } else if IsRingPc(v.w.pc) {
      RingRouted(v, ch);
    } else if IsCleanPc(v.w.pc) {
      CleanLeaves(v);
    } else if v.w.pc.Copy? {
      CopyRouted(v);
    } else if v.w.pc.DecRef? {
      DecRouted(v);
    } else {
      DirectReturns(v, ch);
    }
  }

  predicate RoutedInv(s: State) {
    s.meta.chunkSize > 0 && forall i :: 0 <= i < |s.writers| ==> Routed(s.meta.chunkSize, s.writers[i])
  }

  lemma {:induction false} RunRouted(trace: seq<State>, n: nat)
    requires Run(trace) && n < |trace|
    ensures RoutedInv(trace[n])
  {
    if n > 0 {
      RunRouted(trace, n - 1);
      var i, ch := RunStep(trace, n);
      ActingJob(trace, n, i, ch);
      assert Routed(trace[n - 1].meta.chunkSize, trace[n - 1].writers[i]);
      StepRouted(ViewOf(trace[n - 1], i), ch);
      StepExtends(trace[n - 1], i, ch, trace[n]);
    }
  }

  /**
    In every run a payload whose crossings fit their 32 bits is written by one `pwrite` exactly if its
    range holds a whole chunk that begins after the range does, or is one whole chunk; all others go
    through the chunk ring in at most two pieces.
  */
  lemma WaysToWrite(trace: seq<State>, n: nat, i: nat)
    requires Run(trace) && n < |trace| && i < |trace[n].writers| && CheckedOut(trace[n].writers[i].pc)
    requires trace[n].meta.chunkSize > 0
    requires var w := trace[n].writers[i];
             w.start + |w.data| < WORD64 && Crossings(trace[n].meta.chunkSize, w.start, |w.data|) < WORD32
    ensures var cs, w := trace[n].meta.chunkSize, trace[n].writers[i];
            w.pc.DirectWrite? <==>
            HoldsLater(cs, w.start, w.start + |w.data|) || (|w.data| == cs && w.start % cs == 0)
    ensures var cs, w := trace[n].meta.chunkSize, trace[n].writers[i];
            !w.pc.DirectWrite? ==> 1 <= |Split(cs, w.start, |w.data|)| <= 2
  {
    RunRouted(trace, n);
    RunJobs(trace, n);
    var cs, w := trace[n].meta.chunkSize, trace[n].writers[i];
    assert Routed(cs, w) && HasJob(trace[n].log, w);
    DirectIff(cs, w.start, |w.data|);
    if !w.pc.DirectWrite? {
      AtMostTwoPieces(cs, w.start, |w.data|);
    }
  }

  // ----- waiting -------------------------------------------------------------------------

  /** The thread has come to take a lock. */
  predicate AtLock(pc: Pc) {
    pc.TryLock? || pc.LockHead?
  }

  predicate LockTaken(v: View) {
    if v.w.pc.TryLock? then v.meta.locked else v.proc.headLocked
  }

  /**
    In every run a thread at a lock waits while the lock is taken, or gives up by a timeout; a free lock
    is taken at once.
  */
  lemma LocksWait(trace: seq<State>, n: nat, i: nat, ch: Choice)
    requires Run(trace) && 0 < n < |trace| && StepBy(trace[n - 1], i, ch, trace[n])
    requires AtLock(trace[n - 1].writers[i].pc)
    ensures ch.Go? || (ch.Timeout? && LockTaken(ViewOf(trace[n - 1], i)))
    ensures ch.Go? && LockTaken(ViewOf(trace[n - 1], i)) ==> trace[n] == trace[n - 1]
    ensures ch.Go? && !LockTaken(ViewOf(trace[n - 1], i)) ==>
              (InExpand(trace[n].writers[i].pc) && trace[n].meta.locked) || InHead(trace[n].writers[i].pc)
  {
  }

  // ----- failing -------------------------------------------------------------------------

  /** On the way to returning false after a system call has failed. */
  predicate Failing(pc: Pc) {
    pc.StorePanic? || pc.ReleasePanicked? || pc.StoreNull? || pc.UnlockFailed?
  }

  /** No failure so far. */
  predicate CalmView(v: View) {
    !v.meta.panicked && !Failing(v.w.pc) && NoFailure(v.log)
  }

  predicate NoFailure(log: seq<Entry>) {
    forall k :: 0 <= k < |log| ==> log[k].status != Failed
  }

  predicate Quiet(ch: Choice) {
    ch.Go? || ch.Call?
  }

  lemma CheckoutCalm(v: View, ch: Choice)
    requires ValidChunkSize(v.meta.chunkSize) && CalmView(v) && Quiet(ch)
    requires IsCheckoutPc(v.w.pc) && CheckoutStep(v, ch).Some?
    ensures CalmView(CheckoutStep(v, ch).value)
  {
  }

  lemma InspectCalm(v: View)
    requires RingGood(v) && CalmView(v) && v.w.pc.Inspect?
    ensures CalmView(RingGo(v))
  {
    InspectChooses(v);
  }

  lemma RingCalm(v: View, ch: Choice)
    requires RingGood(v) && ValidChunkSize(v.meta.chunkSize) && CalmView(v) && Quiet(ch)
    requires IsRingPc(v.w.pc) && RingStep(v, ch).Some?
    ensures CalmView(RingStep(v, ch).value)
  {
    if v.w.pc.Inspect? {
      InspectCalm(v);
    }
  }

  lemma FinishCalm(v: View)
    requires CalmView(v)
    ensures CalmView(Finish(v, Committed))
  {
  }

  lemma WriteCalm(v: View, ch: Choice)
    requires RingGood(v) && JobGood(v) && ValidChunkSize(v.meta.chunkSize) && CalmView(v) && Quiet(ch)
    requires IsWritePc(v.w.pc) && WriteStep(v, ch).Some?
    ensures CalmView(WriteStep(v, ch).value)
  {
    if v.w.pc.Copy? {
      CopyStores(v);
    } else if v.w.pc.DecRef? {
      DecMoves(v);
    } else {
      FinishCalm(v.(file := Overwrite(v.file, v.w.start, v.w.data)));
    }
  }

  lemma CleanCalm(v: View)
    requires RingGood(v) && CalmView(v) && IsCleanPc(v.w.pc)
    ensures CalmView(CleanGo(v))
  {
    CleanLeaves(v);
    FinishCalm(v);
  }

  lemma StepCalm(v: View, ch: Choice)
    requires RingGood(v) && JobGood(v) && ValidChunkSize(v.meta.chunkSize) && CalmView(v) && Quiet(ch)
    requires LocalNext(v, ch).Some?
    ensures CalmView(LocalNext(v, ch).value)
  {
    if IsCheckoutPc(v.w.pc) {
      CheckoutCalm(v, ch);
    } else if IsRingPc(v.w.pc) {
      RingCalm(v, ch);
    } else if IsCleanPc(v.w.pc) {
      CleanCalm(v);
    } else {
      WriteCalm(v, ch);
    }
  }

  /** The step from one state to the other is neither a timeout nor a failing system call. */
  ghost predicate QuietStep(s: State, s': State) {
    exists i: nat, ch: Choice :: StepBy(s, i, ch, s') && Quiet(ch)
  }

  predicate Calm(s: State) {
    !s.meta.panicked && NoFailure(s.log) && forall i :: 0 <= i < |s.writers| ==> !Failing(s.writers[i].pc)
  }

  /**
    As long as no wait times out and no system call fails, no insert returns false and the log does
    not panic, for any number of processes and threads.
  */
  lemma {:induction false} QuietRunsSucceed(trace: seq<State>, n: nat)
    requires Run(trace) && n < |trace| && forall q :: 0 < q <= n ==> QuietStep(trace[q - 1], trace[q])
    ensures Calm(trace[n])
  {
    if n > 0 {
      QuietRunsSucceed(trace, n - 1);
      assert QuietStep(trace[n - 1], trace[n]);
      var i: nat, ch: Choice :| StepBy(trace[n - 1], i, ch, trace[n]) && Quiet(ch);
      ActingJob(trace, n, i, ch);
      StepCalm(ViewOf(trace[n - 1], i), ch);
    }
  }
}
