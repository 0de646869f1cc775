/**
  The history of the log over every run: reservations are never taken back or changed, and while
  their ends fit 64 bits they lie end to end.
*/
module LogHistory {
  import opened Words
  import opened LogAlign
  import opened LogModel
  import opened LogInvariant

  /** The history only grows, whatever the bound. */
  predicate Extends(a: seq<Entry>, b: seq<Entry>) {
    |a| <= |b| && forall k :: 0 <= k < |a| ==> b[k].start == a[k].start && b[k].data == a[k].data
  }

  // ----- one step ------------------------------------------------------------------------

  /** The thread moves on with the reservation it has. */
  predicate Stays(v: View, v': View) {
    v'.log == v.log && v'.w == v.w.(pc := v'.w.pc, done := v'.w.done) && Active(v'.w.pc)
  }

  /** The insert returns: its own entry gets a verdict. */
  predicate Settles(v: View, v': View) {
    v'.w == v.w.(pc := Idle) && v.w.res < |v.log| == |v'.log| && v'.log[v.w.res].status != Open &&
    v'.log == v.log[v.w.res := v.log[v.w.res].(status := v'.log[v.w.res].status)]
  }

  /** What a step does to the history and to the job of its thread. */
  predicate HistoryMoves(v: View, v': View) {
    v'.meta.chunkSize == v.meta.chunkSize &&
    if v.w.pc.Idle? then
      v'.log == v.log && v'.meta == v.meta && v'.w == v.w.(pc := Reserve, data := v'.w.data) && v'.w.data != []
    else if v.w.pc.Reserve? then
      v'.log == v.log + [Entry(v.meta.cursor, v.w.data, Open)] &&
      v'.meta.cursor == (v.meta.cursor + |v.w.data|) % WORD64 &&
      v'.w == v.w.(pc := LoadSize, res := |v.log|, start := v.meta.cursor, done := 0)
    else v'.meta.cursor == v.meta.cursor && (Stays(v, v') || Settles(v, v'))
  }

  lemma CheckoutMoves(v: View, ch: Choice)
    requires ValidChunkSize(v.meta.chunkSize) && IsCheckoutPc(v.w.pc) && CheckoutStep(v, ch).Some?
    ensures HistoryMoves(v, CheckoutStep(v, ch).value)
  {
  }

  lemma RingMoves(v: View, ch: Choice)
    requires v.meta.chunkSize > 0 && |v.proc.slots| > 0 && IsRingPc(v.w.pc) && RingStep(v, ch).Some?
    ensures HistoryMoves(v, RingStep(v, ch).value)
  {
  }

  lemma WriteMoves(v: View, ch: Choice)
    requires v.meta.chunkSize > 0 && |v.proc.slots| > 0 && IsWritePc(v.w.pc) && WriteStep(v, ch).Some?
    ensures HistoryMoves(v, WriteStep(v, ch).value)
  {
  }

  lemma CleanMoves(v: View)
    requires |v.proc.slots| > 0 && IsCleanPc(v.w.pc)
    ensures HistoryMoves(v, CleanGo(v))
  {
  }

  lemma LocalMoves(v: View, ch: Choice)
    requires ValidChunkSize(v.meta.chunkSize) && |v.proc.slots| > 0 && LocalNext(v, ch).Some?
    ensures HistoryMoves(v, LocalNext(v, ch).value)
  {
    if IsCheckoutPc(v.w.pc) {
      CheckoutMoves(v, ch);
    } else if IsRingPc(v.w.pc) {
      RingMoves(v, ch);
    } else if IsWritePc(v.w.pc) {
      WriteMoves(v, ch);
    } else {
      CleanMoves(v);
    }
  }

  lemma StepExtends(s: State, i: nat, ch: Choice, s': State)
    requires StepBy(s, i, ch, s')
    ensures Extends(s.log, s'.log) && s'.meta.chunkSize == s.meta.chunkSize && |s'.writers| == |s.writers|
  {
    LocalMoves(ViewOf(s, i), ch);
  }

  lemma ExtendsTransitive(a: seq<Entry>, b: seq<Entry>, c: seq<Entry>)
    requires Extends(a, b) && Extends(b, c)
    ensures Extends(a, c)
  {
    forall k | 0 <= k < |a|
      ensures c[k].start == a[k].start && c[k].data == a[k].data
    {
      assert b[k].start == a[k].start;
    }
  }

  lemma {:induction false} RunExtends(trace: seq<State>, m: nat, n: nat)
    requires Steps(trace) && m <= n < |trace|
    ensures Extends(trace[m].log, trace[n].log)
    ensures trace[n].meta.chunkSize == trace[m].meta.chunkSize
    decreases n
  {
    if m < n {
      RunExtends(trace, m, n - 1);
      var i, ch := RunStep(trace, n);
      StepExtends(trace[n - 1], i, ch, trace[n]);
      ExtendsTransitive(trace[m].log, trace[n - 1].log, trace[n].log);
    }
  }

  lemma RunStep(trace: seq<State>, n: nat) returns (i: nat, ch: Choice)
    requires Steps(trace) && 0 < n < |trace|
    ensures StepBy(trace[n - 1], i, ch, trace[n])
  {
    assert StepAt(trace, n);
    i, ch :| StepBy(trace[n - 1], i, ch, trace[n]);
  }

  // ----- every thread has a job of its own -----------------------------------------------

  /** A step keeps the job of its thread, and nobody else's entry changes. */
  lemma JobMoves(v: View, ch: Choice)
    requires ValidChunkSize(v.meta.chunkSize) && |v.proc.slots| > 0 && LocalNext(v, ch).Some? && HasJob(v.log, v.w)
    ensures var v' := LocalNext(v, ch).value;
            HasJob(v'.log, v'.w) && WriterGuarantee(v.log, v.w, v'.w) && LogGuarantee(v.log, v.w, v'.log)
  {
    LocalMoves(v, ch);
  }

  /** Every thread has its job, and no two threads work on one reservation. */
  predicate JobsInv(s: State) {
    (forall i :: 0 <= i < |s.writers| ==> HasJob(s.log, s.writers[i])) &&
    (forall i, j :: 0 <= i < |s.writers| && 0 <= j < |s.writers| && i != j ==> Apart(s.writers[i], s.writers[j]))
  }

  lemma StepJobs(s: State, i: nat, ch: Choice, s': State)
    requires JobsInv(s) && StepBy(s, i, ch, s')
    ensures JobsInv(s')
  {
    JobMoves(ViewOf(s, i), ch);
    forall j | 0 <= j < |s'.writers| && j != i
      ensures HasJob(s'.log, s'.writers[j]) && Apart(s'.writers[i], s'.writers[j])
    {
      assert HasJob(s.log, s.writers[j]) && Apart(s.writers[i], s.writers[j]);
      JobStable(s.log, s.writers[i], s'.log, s.writers[j]);
    }
  }

  /** In every reachable state the entry of a thread inside an insert is its own open range and payload. */
  lemma {:induction false} RunJobs(trace: seq<State>, n: nat)
    requires Run(trace) && n < |trace|
    ensures JobsInv(trace[n])
  {
    if n > 0 {
      RunJobs(trace, n - 1);
      var i, ch := RunStep(trace, n);
      StepJobs(trace[n - 1], i, ch, trace[n]);
    }
  }

  // ----- reservations lie end to end -----------------------------------------------------

  lemma TiledAppend(log: seq<Entry>, cursor: nat, data: seq<byte>)
    requires Tiled(log, cursor) && data != []
    ensures Tiled(log + [Entry(cursor, data, Open)], cursor + |data|)
  {
    var t := log + [Entry(cursor, data, Open)];
    forall k | 0 <= k < |t|
      ensures t[k].data != [] && t[k].start == EndBefore(t, k)
    {
      assert EndBefore(t, k) == EndBefore(log, k);
      if k < |log| {
        assert t[k] == log[k];
      }
    }
  }

  lemma TiledSettle(log: seq<Entry>, cursor: nat, i: nat, status: Status)
    requires Tiled(log, cursor) && i < |log|
    ensures Tiled(log[i := log[i].(status := status)], cursor)
  {
    var t := log[i := log[i].(status := status)];
    forall k | 0 <= k < |t|
      ensures t[k].data != [] && t[k].start == EndBefore(t, k)
    {
      assert EndBefore(t, k) == EndBefore(log, k);
    }
    assert EndBefore(t, |t|) == EndBefore(log, |log|);
  }

  /** The ends of all reservations are 64-bit numbers: the cursor has not wrapped. */
  predicate InWidth(log: seq<Entry>) {
    forall k :: 0 <= k < |log| ==> EntryEnd(log[k]) < WORD64
  }

  /** The fetch-add extends the tiling by the new range, whatever its size. */
  lemma ReserveTiles(v: View)
    requires ValidChunkSize(v.meta.chunkSize) && Tiled(v.log, v.meta.cursor) && HasJob(v.log, v.w)
    requires v.w.pc.Reserve? && InWidth(CheckoutGo(v).log)
    ensures Tiled(CheckoutGo(v).log, CheckoutGo(v).meta.cursor)
    ensures CheckoutGo(v).log == v.log + [Entry(v.meta.cursor, v.w.data, Open)]
    ensures CheckoutGo(v).meta == v.meta.(cursor := v.meta.cursor + |v.w.data|) && CheckoutGo(v).file == v.file
    ensures CheckoutGo(v).proc == v.proc
  {
    assert CheckoutGo(v).log[|v.log|] == Entry(v.meta.cursor, v.w.data, Open);
    TiledAppend(v.log, v.meta.cursor, v.w.data);
  }

  lemma TileKeeps(v: View, ch: Choice)
    requires ValidChunkSize(v.meta.chunkSize) && |v.proc.slots| > 0 && LocalNext(v, ch).Some?
    requires Tiled(v.log, v.meta.cursor) && HasJob(v.log, v.w) && InWidth(LocalNext(v, ch).value.log)
    ensures Tiled(LocalNext(v, ch).value.log, LocalNext(v, ch).value.meta.cursor)
  {
    var v' := LocalNext(v, ch).value;
    LocalMoves(v, ch);
    if v.w.pc.Reserve? {
      ReserveTiles(v);
    } else if v'.log != v.log {
      TiledSettle(v.log, v.meta.cursor, v.w.res, v'.log[v.w.res].status);
    }
  }

  lemma WidthBackwards(trace: seq<State>, m: nat, n: nat)
    requires Steps(trace) && m <= n < |trace| && InWidth(trace[n].log)
    ensures InWidth(trace[m].log)
  {
    RunExtends(trace, m, n);
    forall k | 0 <= k < |trace[m].log|
      ensures EntryEnd(trace[m].log[k]) < WORD64
    {
      assert EntryEnd(trace[n].log[k]) < WORD64;
    }
  }

  /** In every run whose reservations fit 64 bits they tile the log up to the cursor. */
  lemma {:induction false} RunTiling(trace: seq<State>, n: nat)
    requires Run(trace) && n < |trace| && InWidth(trace[n].log)
    ensures Tiled(trace[n].log, trace[n].meta.cursor)
  {
    if n > 0 {
      WidthBackwards(trace, n - 1, n);
      RunTiling(trace, n - 1);
      RunJobs(trace, n - 1);
      var i, ch := RunStep(trace, n);
      TileKeeps(ViewOf(trace[n - 1], i), ch);
    }
  }
}
