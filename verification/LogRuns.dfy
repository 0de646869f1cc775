/** Every reachable state of the append log, for any number of processes and threads. */
module LogRuns {
  import opened Words
  import opened LogModel
  import opened LogInvariant
  import opened LogHistory
  import opened LogRing
  import opened LogExpand
  import opened LogRefs
  import opened LogProgress
  import opened LogSteps

  predicate SharedCore(s: State) {
    WellFormed(s) && MetaOk(s.meta, s.file) && LogOk(s.log, s.file, s.meta.fileSize)
  }

  /** Sizes, records and every thread's own bytes. */
  predicate CoreInv(s: State) {
    SharedCore(s) && forall i :: 0 <= i < |s.writers| ==> WriterCore(ViewOf(s, i))
  }

  /** The layers that hold in every run, and the core that holds inside the rounding bound. */
  ghost predicate Inv(s: State) {
    RingInv(s) && JobsInv(s) && ProgressInv(s) && Tiled(s.log, s.meta.cursor) && ExpandInv(s) && RefsInv(s) &&
    CoreInv(s)
  }

  // ----- the start -----------------------------------------------------------------------

  lemma InitRefs(s: State)
    requires Init(s)
    ensures RefsInv(s)
  {
    assert forall p :: 0 <= p < |s.procs| ==> FreshProc(s.procs[p]);
  }

  lemma InitCore(s: State)
    requires Init(s) && WellFormed(s)
    ensures CoreInv(s) && JobsInv(s) && ProgressInv(s) && Tiled(s.log, s.meta.cursor) && ExpandInv(s)
  {
  }

  lemma InitInv(s: State)
    requires Init(s)
    ensures Inv(s)
  {
    InitRing(s);
    InitRefs(s);
    InitCore(s);
  }

  // ----- one step ------------------------------------------------------------------------

  lemma ThreadGood(s: State, i: nat)
    requires Inv(s) && i < |s.writers|
    ensures Good(ViewOf(s, i))
  {
    assert ThreadFine(s, i) && WriterCore(ViewOf(s, i)) && HasJob(s.log, s.writers[i]) && Placed(s.writers[i]);
  }

  lemma ActingThread(s: State, i: nat, ch: Choice, s': State)
    requires Inv(s) && StepBy(s, i, ch, s') && InBound(s')
    ensures Good(ViewOf(s, i)) && CoreStep(ViewOf(s, i), LocalNext(ViewOf(s, i), ch).value)
    ensures WellFormed(s') && ViewOf(s', i) == LocalNext(ViewOf(s, i), ch).value
  {
    ThreadGood(s, i);
    ActingRing(s, i, ch, s');
    CoreKeeps(ViewOf(s, i), ch);
  }

  lemma OtherThread(s: State, i: nat, ch: Choice, s': State, j: nat)
    requires Inv(s) && StepBy(s, i, ch, s') && InBound(s') && j < |s.writers| && j != i && WellFormed(s')
    ensures WriterCore(ViewOf(s', j)) && s'.writers[j] == s.writers[j]
  {
    ActingThread(s, i, ch, s');
    var a, a', b := s.writers[i], s'.writers[i], s.writers[j];
    assert WriterCore(ViewOf(s, j)) && Apart(a, b) && HasJob(s.log, a) && HasJob(s.log, b);
    GrowStable(s.meta, s.file, a, s'.meta, s'.file, a', b);
    DataStable(s.log, s.meta.cursor, s.file, a, s'.file, b);
  }

  lemma StepCore(s: State, i: nat, ch: Choice, s': State)
    requires Inv(s) && StepBy(s, i, ch, s') && InBound(s')
    ensures CoreInv(s')
  {
    ActingThread(s, i, ch, s');
    forall j | 0 <= j < |s'.writers| && j != i
      ensures WriterCore(ViewOf(s', j)) && s'.writers[j] == s.writers[j]
    {
      OtherThread(s, i, ch, s', j);
    }
  }

  lemma StepTiled(s: State, i: nat, ch: Choice, s': State)
    requires Inv(s) && StepBy(s, i, ch, s') && InBound(s')
    ensures Tiled(s'.log, s'.meta.cursor)
  {
    ThreadGood(s, i);
    TileKeeps(ViewOf(s, i), ch);
  }

  lemma StepInv(s: State, i: nat, ch: Choice, s': State)
    requires Inv(s) && StepBy(s, i, ch, s') && InBound(s')
    ensures Inv(s')
  {
    StepRing(s, i, ch, s');
    StepJobs(s, i, ch, s');
    StepPlaced(s, i, ch, s');
    StepTiled(s, i, ch, s');
    StepExpand(s, i, ch, s');
    StepCounts(s, i, ch, s');
    StepCore(s, i, ch, s');
  }

  // ----- whole runs ----------------------------------------------------------------------

  /** Reservations never disappear, so a bound on a state bounds every state before it. */
  lemma BoundBackwards(trace: seq<State>, m: nat, n: nat)
    requires Steps(trace) && m <= n < |trace| && InBound(trace[n])
    ensures InBound(trace[m])
  {
    RunExtends(trace, m, n);
    var a, b := trace[m], trace[n];
    forall k | 0 <= k < |a.log|
      ensures EntryEnd(a.log[k]) + a.meta.chunkSize - 1 < WORD32
    {
      assert EntryEnd(b.log[k]) + b.meta.chunkSize - 1 < WORD32;
    }
  }

  /** Every state of a run within the bound satisfies the invariant. */
  lemma {:induction false} RunInv(trace: seq<State>, n: nat)
    requires Run(trace) && n < |trace| && InBound(trace[n])
    ensures Inv(trace[n])
  {
    if n == 0 {
      InitInv(trace[0]);
    } else {
      BoundBackwards(trace, n - 1, n);
      RunInv(trace, n - 1);
      var i, ch := RunStep(trace, n);
      StepInv(trace[n - 1], i, ch, trace[n]);
    }
  }
}
