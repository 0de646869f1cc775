/**
  Past the rounding bound: what one growth does there, and a run in which the file of a panicked
  log changes its size.
*/
module LogBeyond {
  import opened Words
  import opened LogAlign
  import opened LogModel
  import opened LogInvariant
  import opened LogHistory
  import opened LogSteps
  import opened LogSolo

  // ----- one growth ----------------------------------------------------------------------

  /** The grow path run by one thread without interference, from `ftruncate` to the verdict. */
  function GrowAlone(v: View): View
    requires ValidChunkSize(v.meta.chunkSize) && v.w.pc.Truncate?
  {
    CheckoutGo(CheckoutGo(CheckoutGo(CheckoutStep(v, Go).value)))
  }

  /** The view after the grow path: the recorded size is the physical one, and the lock is free. */
  function AfterGrowth(v: View): View
    requires ValidChunkSize(v.meta.chunkSize)
  {
    var size := Align(EndOf(v.w), v.meta.chunkSize);
    Route(v.(meta := v.meta.(fileSize := size, locked := false), file := Resize(v.file, size)))
  }

  lemma GrowAloneIs(v: View)
    requires ValidChunkSize(v.meta.chunkSize) && v.w.pc.Truncate? && !v.meta.panicked
    ensures GrowAlone(v) == AfterGrowth(v)
  {
    var size := Align(EndOf(v.w), v.meta.chunkSize);
    var a := Goto(v.(file := Resize(v.file, size)), StoreSize(size));
    assert CheckoutStep(v, Go).value == a;
    var b := Goto(a.(meta := v.meta.(fileSize := size)), Release);
    assert CheckoutGo(a) == b;
    assert CheckoutGo(b) == Goto(b.(meta := b.meta.(locked := false)), Verdict);
  }

  /**
    A checkout that grows the file hands out a range inside the file exactly when the end of the
    range can be rounded up in 32 bits. Beyond that it still succeeds, and records a file size
    that ends before the range does.
  */
  lemma GrowthDeliversIff(v: View)
    requires ValidChunkSize(v.meta.chunkSize) && v.w.pc.Truncate? && !v.meta.panicked
    requires v.w.start + |v.w.data| < WORD64
    ensures CheckedOut(GrowAlone(v).w.pc) && |GrowAlone(v).file| == GrowAlone(v).meta.fileSize
    ensures |GrowAlone(v).file| >= v.w.start + |v.w.data| <==> v.w.start + |v.w.data| + v.meta.chunkSize - 1 < WORD32
  {
    GrowAloneIs(v);
    AfterGrowthCovers(v);
  }

  lemma AfterGrowthCovers(v: View)
    requires ValidChunkSize(v.meta.chunkSize) && v.w.start + |v.w.data| < WORD64
    ensures |AfterGrowth(v).file| == AfterGrowth(v).meta.fileSize && CheckedOut(AfterGrowth(v).w.pc)
    ensures |AfterGrowth(v).file| >= v.w.start + |v.w.data| <==> v.w.start + |v.w.data| + v.meta.chunkSize - 1 < WORD32
  {
    assert EndOf(v.w) == v.w.start + |v.w.data|;
    AlignCoversIff(EndOf(v.w), v.meta.chunkSize);
  }

  /** A log of just over 4 GiB shrinks to one page when it next grows. */
  lemma GrowthPastFourGigabytes()
    ensures Align(WORD32 + 1, 4096) == 4096
  {
    assert (WORD32 + 1 + 4096 - 1) % WORD64 == WORD32 + 4096;
    Pow2Values();
    var y := WORD32 + 4096;
    MaskSplits(32, y, WORD32 - 4096);
    assert y % WORD32 == 4096;
    assert BitAnd(y, 4095) == 0 by {
      MaskSplits(12, y, 4095);
      assert y % 4096 == 0;
      assert BitAnd(y, 0) == 0;
    }
  }

  // ----- runs put together from the steps of one thread ----------------------------------

  /** The view of a thread that has found the file too small and holds the expand lock. */
  function Short(v: View): View {
    View(v.meta.(cursor := v.meta.cursor + |v.w.data|, locked := true), v.file,
         v.log + [Entry(v.meta.cursor, v.w.data, Open)], v.proc,
         v.w.(pc := Truncate, res := |v.log|, start := v.meta.cursor, done := 0))
  }

  lemma SoloToLock(v: View)
    requires ValidChunkSize(v.meta.chunkSize) && |v.proc.slots| > 0 && v.w.pc.Reserve?
    requires !v.meta.locked && v.meta.fileSize < v.meta.cursor + |v.w.data| < WORD64
    ensures Solo(v, 5) == Solo(Goto(Short(v), CheckPanic), 2)
  {
    var c := Goto(Short(v), CheckPanic);
    var b := Goto(c.(meta := c.meta.(locked := false)), TryLock);
    var a := Goto(b, LoadSize);
    assert EndOf(a.w) == v.meta.cursor + |v.w.data|;
    assert LocalNext(v, Go) == Some(a) && LocalNext(a, Go) == Some(b) && LocalNext(b, Go) == Some(c);
    SoloFirst(v, a, 4);
    SoloFirst(a, b, 3);
    SoloFirst(b, c, 2);
  }

  lemma LockedSteps(v: View)
    requires ValidChunkSize(v.meta.chunkSize) && |v.proc.slots| > 0
    requires !v.meta.panicked && v.meta.fileSize < EndOf(v.w)
    ensures LocalNext(Goto(v, CheckPanic), Go) == Some(Goto(v, ReloadSize))
    ensures LocalNext(Goto(v, ReloadSize), Go) == Some(Goto(v, Truncate))
  {
  }

  lemma LockedRuns(v: View)
    requires ValidChunkSize(v.meta.chunkSize) && |v.proc.slots| > 0 && v.w.pc.Truncate?
    requires !v.meta.panicked && v.meta.fileSize < EndOf(v.w)
    ensures Solo(Goto(v, CheckPanic), 2) == Some(v)
  {
    LockedSteps(v);
    SoloFirst(Goto(v, CheckPanic), Goto(v, ReloadSize), 1);
    SoloFirst(Goto(v, ReloadSize), Goto(v, Truncate), 0);
  }

  lemma ShortEnds(v: View)
    requires v.meta.cursor + |v.w.data| < WORD64
    ensures EndOf(Short(v).w) == v.meta.cursor + |v.w.data|
  {
  }

  lemma SoloToTruncate(v: View)
    requires ValidChunkSize(v.meta.chunkSize) && |v.proc.slots| > 0 && v.w.pc.Reserve?
    requires !v.meta.locked && !v.meta.panicked && v.meta.fileSize < v.meta.cursor + |v.w.data| < WORD64
    ensures Solo(v, 5) == Some(Short(v))
  {
    ShortEnds(v);
    LockedRuns(Short(v));
    SoloToLock(v);
  }

  /** The four steps of the grow path. */
  lemma GrowSteps(v: View, a: View, b: View, c: View)
    requires ValidChunkSize(v.meta.chunkSize) && |v.proc.slots| > 0 && v.w.pc.Truncate? && !v.meta.panicked
    requires a == CheckoutStep(v, Go).value && IsCheckoutPc(a.w.pc) && a.w.pc.StoreSize? && b == CheckoutGo(a)
    requires b.w.pc.Release? && c == CheckoutGo(b) && c.w.pc.Verdict?
    ensures LocalNext(v, Go) == Some(a) && LocalNext(a, Go) == Some(b) && LocalNext(b, Go) == Some(c)
    ensures LocalNext(c, Go) == Some(CheckoutGo(c))
    ensures b.meta.chunkSize == c.meta.chunkSize == a.meta.chunkSize == v.meta.chunkSize
    ensures a.proc == v.proc && b.proc == v.proc && c.proc == v.proc
  {
  }

  lemma SoloGrows(v: View)
    requires ValidChunkSize(v.meta.chunkSize) && |v.proc.slots| > 0 && v.w.pc.Truncate? && !v.meta.panicked
    ensures Solo(v, 4) == Some(AfterGrowth(v))
  {
    GrowAloneIs(v);
    var a := CheckoutStep(v, Go).value;
    var b := CheckoutGo(a);
    var c := CheckoutGo(b);
    GrowSteps(v, a, b, c);
    SoloFirst(v, a, 3);
    SoloFirst(a, b, 2);
    SoloFirst(b, c, 1);
    SoloFirst(c, CheckoutGo(c), 0);
  }

  /** A state whose thread `i` sees `v`. */
  predicate Sees(s: State, i: nat, v: View) {
    WellFormed(s) && i < |s.writers| && ViewOf(s, i) == v
  }

  lemma RunToTruncate(trace: seq<State>, i: nat, data: seq<byte>, v: View) returns (longer: seq<State>)
    requires Run(trace) && Sees(Last(trace), i, v) && v.w.pc == Idle && data != []
    requires !v.meta.locked && !v.meta.panicked && v.meta.fileSize < v.meta.cursor + |data| < WORD64
    ensures Run(longer) && trace <= longer
    ensures Last(longer) == Install(Last(trace), i, Short(v.(w := v.w.(data := data))))
    ensures Sees(Last(longer), i, Short(v.(w := v.w.(data := data))))
  {
    var called := RunGoesOn(trace, i, Call(data));
    var u := v.(w := v.w.(pc := Reserve, data := data));
    assert LocalNext(v, Call(data)) == Some(u);
    SoloToTruncate(u);
    longer := SoloRun(called, i, 5, Short(u));
    InstallTwice(Last(trace), i, u, Short(u));
    assert Short(u) == Short(v.(w := v.w.(data := data)));
  }

  lemma RunGrows(trace: seq<State>, i: nat, v: View) returns (longer: seq<State>)
    requires Run(trace) && Sees(Last(trace), i, v) && v.w.pc.Truncate? && !v.meta.panicked
    ensures Run(longer) && trace <= longer
    ensures Last(longer) == Install(Last(trace), i, AfterGrowth(v)) && Sees(Last(longer), i, AfterGrowth(v))
  {
    SoloGrows(v);
    longer := SoloRun(trace, i, 4, AfterGrowth(v));
  }

  lemma RunPanics(trace: seq<State>, i: nat, v: View) returns (longer: seq<State>)
    requires Run(trace) && Sees(Last(trace), i, v) && v.w.pc.Truncate?
    ensures var u := Goto(v.(meta := v.meta.(panicked := true)), ReleasePanicked);
            Run(longer) && Last(longer) == Install(Last(trace), i, u) && Sees(Last(longer), i, u)
  {
    var failed := RunGoesOn(trace, i, SysFail(0));
    longer := RunGoesOn(failed, i, Go);
    InstallTwice(Last(trace), i, Goto(v, StorePanic), ViewOf(Last(longer), i));
  }

  // ----- a panicked log whose file grows -------------------------------------------------

  const LONG := WORD32 - 4096

  /** The ring of a process that has created no chunk, or its first one. */
  function Ring(locked: bool, head: nat, slot: Slot, chunks: seq<Chunk>): Proc {
    Proc([Null, slot], head, None, locked, chunks)
  }

  /** A fresh log of one process with three threads, in chunks of one page. */
  function Fresh(): State {
    State(Meta(4096, false, false, 4096, 0), Zeros(4096), [], [Ring(false, 0, Null, [])],
          [Writer(0, Idle, 0, 0, [], 0), Writer(0, Idle, 0, 0, [], 0), Writer(0, Idle, 0, 0, [], 0)])
  }

  lemma FreshRuns()
    ensures Run([Fresh()]) && WellFormed(Fresh())
  {
  }

  lemma LongGrowth()
    ensures Align(LONG, 4096) == LONG && WritesDirectly(4096, 0, LONG)
  {
    AlignBelowBound(LONG, 4096);
    AlignCoversIff(LONG, 4096);
  }

  /** The first thread has grown the log to just below 4 GiB and is about to write its record. */
  lemma FirstGrows() returns (trace: seq<State>, v: View)
    ensures Run(trace) && Sees(Last(trace), 0, v) && |Last(trace).writers| == 3
    ensures v.w == Writer(0, DirectWrite, 0, 0, Zeros(LONG), 0) && v.meta == Meta(4096, false, false, LONG, LONG)
    ensures v.log == [Entry(0, Zeros(LONG), Open)] && |v.file| == LONG
    ensures Last(trace).procs == [Ring(false, 0, Null, [])]
    ensures forall i :: 1 <= i < 3 ==> Last(trace).writers[i] == Writer(0, Idle, 0, 0, [], 0)
  {
    FreshRuns();
    var u := ViewOf(Fresh(), 0);
    var a := RunToTruncate([Fresh()], 0, Zeros(LONG), u);
    v := Short(u.(w := u.w.(data := Zeros(LONG))));
    assert EndOf(v.w) == LONG;
    LongGrowth();
    trace := RunGrows(a, 0, v);
    v := AfterGrowth(v);
  }

  /** A second record ends past 4 GiB: growing for it shrinks the file to one page. */
  lemma SecondShrinks() returns (trace: seq<State>, v: View)
    ensures Run(trace) && Sees(Last(trace), 0, v) && |Last(trace).writers| == 3
    ensures v.w == Writer(0, DirectWrite, 0, 0, Zeros(LONG), 0) && !v.meta.locked && !v.meta.panicked
    ensures v.meta.cursor == WORD32 + 1 && v.meta.chunkSize == 4096 && v.meta.fileSize == |v.file| == 4096
    ensures Last(trace).writers[2] == Writer(0, Idle, 0, 0, [], 0)
  {
    var a, first := FirstGrows();
    var u := ViewOf(Last(a), 1);
    var b := RunToTruncate(a, 1, Zeros(4097), u);
    var w := Short(u.(w := u.w.(data := Zeros(4097))));
    assert EndOf(w.w) == WORD32 + 1;
    GrowthPastFourGigabytes();
    trace := RunGrows(b, 1, w);
    v := ViewOf(Last(trace), 0);
  }

  /**
    A run in which the physical size of a panicked log changes: the file was shrunk past the bound,
    a growth fails, and then the first thread's `pwrite` runs past the end of the file.
  */
  lemma PanickedLogGrows() returns (trace: seq<State>)
    ensures Run(trace) && |trace| > 1
    ensures trace[|trace| - 2].meta.panicked && |trace[|trace| - 2].file| == 4096 && |Last(trace).file| == LONG
  {
    var a, first := SecondShrinks();
    var u := ViewOf(Last(a), 2);
    var b := RunToTruncate(a, 2, [0], u);
    var c := RunPanics(b, 2, Short(u.(w := u.w.(data := [0]))));
    assert ViewOf(Last(c), 0).w == first.w;
    trace := RunGoesOn(c, 0, Go);
  }

  // ----- a committed record that is lost --------------------------------------------------

  /** The first thread commits its record. */
  lemma FirstCommits() returns (trace: seq<State>)
    ensures Run(trace) && WellFormed(Last(trace)) && |Last(trace).writers| == 3
    ensures Last(trace).log == [Entry(0, Zeros(LONG), Committed)] && Stands(Last(trace).file, 0, Zeros(LONG))
    ensures |Last(trace).file| == LONG && Last(trace).meta == Meta(4096, false, false, LONG, LONG)
    ensures Last(trace).writers[1] == Writer(0, Idle, 0, 0, [], 0)
    ensures Last(trace).procs == [Ring(false, 0, Null, [])]
  {
    var a, v := FirstGrows();
    trace := RunGoesOn(a, 0, Go);
    StoredWhole(v.file, 0, Zeros(LONG));
  }

  /**
    A run in which a record reported as written is destroyed: growing for the next record leaves one
    page of it.
  */
  lemma CommittedRecordLost() returns (trace: seq<State>, m: nat)
    ensures Run(trace) && m < |trace| && InWidth(Last(trace).log)
    ensures trace[m].log == [Entry(0, Zeros(LONG), Committed)] && Stands(trace[m].file, 0, Zeros(LONG))
    ensures |Last(trace).log| == 2 && Last(trace).log[0] == trace[m].log[0]
    ensures |Last(trace).file| == 4096 && !Stands(Last(trace).file, 0, Zeros(LONG))
  {
    var a := FirstCommits();
    m := |a| - 1;
    var u := ViewOf(Last(a), 1);
    var b := RunToTruncate(a, 1, Zeros(4097), u);
    var w := Short(u.(w := u.w.(data := Zeros(4097))));
    assert EndOf(w.w) == WORD32 + 1;
    GrowthPastFourGigabytes();
    trace := RunGrows(b, 1, w);
  }

  // ----- a copy that faults ---------------------------------------------------------------

  /** A record that ends one byte into the last page below 4 GiB empties the file when it grows. */
  lemma GrowthEmpties()
    ensures Align(LONG + 1, 4096) == 0
  {
    Pow2Values();
    assert (LONG + 1 + 4096 - 1) % WORD64 == WORD32;
    MaskSplits(32, WORD32, WORD32 - 4096);
  }

  lemma LookSteps(v: View)
    requires ValidChunkSize(v.meta.chunkSize) && v.proc == Ring(true, 0, Null, [])
    ensures LocalNext(Goto(v, LoadHead), Go) == Some(Goto(v, LoadTail(0)))
    ensures LocalNext(Goto(v, LoadTail(0)), Go) == Some(Goto(v, Inspect(0, None)))
    ensures LocalNext(Goto(v, Inspect(0, None)), Go) == Some(Goto(v, Create(0)))
  {
  }

  lemma LockStep(v: View)
    requires ValidChunkSize(v.meta.chunkSize) && v.w.pc.LockHead? && v.proc == Ring(false, 0, Null, [])
    ensures LocalNext(v, Go) == Some(Goto(v.(proc := Ring(true, 0, Null, [])), LoadHead))
  {
  }

  lemma SoloToCreate(v: View)
    requires ValidChunkSize(v.meta.chunkSize) && v.w.pc.LockHead? && v.proc == Ring(false, 0, Null, [])
    ensures Solo(v, 4) == Some(Goto(v.(proc := Ring(true, 0, Null, [])), Create(0)))
  {
    var p := v.(proc := Ring(true, 0, Null, []));
    LockStep(v);
    LookSteps(p);
    SoloFirst(v, Goto(p, LoadHead), 3);
    SoloFirst(Goto(p, LoadHead), Goto(p, LoadTail(0)), 2);
    SoloFirst(Goto(p, LoadTail(0)), Goto(p, Inspect(0, None)), 1);
    SoloFirst(Goto(p, Inspect(0, None)), Goto(p, Create(0)), 0);
  }

  lemma CreateStep(v: View, c: Chunk)
    requires ValidChunkSize(v.meta.chunkSize) && v.proc == Ring(true, 0, Null, []) && v.w.pc == Create(0)
    requires c == Chunk(ChunkStart(v.meta.chunkSize, Cur(v.w)), v.meta.chunkSize, 1, true)
    ensures LocalNext(v, Go) == Some(Goto(v.(proc := Ring(true, 0, Null, [c])), StoreSlot(0, 0)))
  {
    assert v.proc.chunks + [c] == [c];
  }

  lemma SlotStep(v: View, c: Chunk)
    requires ValidChunkSize(v.meta.chunkSize) && v.proc == Ring(true, 0, Null, [c]) && v.w.pc == StoreSlot(0, 0)
    ensures LocalNext(v, Go) == Some(Goto(v.(proc := Ring(true, 0, At(0), [c])), AdvanceHead(0, 0)))
  {
    assert [Null, Null][1 := At(0)] == [Null, At(0)];
  }

  lemma HeadSteps(v: View, c: Chunk)
    requires ValidChunkSize(v.meta.chunkSize) && v.proc == Ring(true, 0, At(0), [c]) && v.w.pc == AdvanceHead(0, 0)
    ensures var u := Goto(v.(proc := Ring(true, 1, At(0), [c])), UnlockNew(0));
            LocalNext(v, Go) == Some(u) &&
            LocalNext(u, Go) == Some(Goto(v.(proc := Ring(false, 1, At(0), [c])), IncNew(0)))
  {
  }

  lemma IncStep(v: View, c: Chunk)
    requires ValidChunkSize(v.meta.chunkSize) && v.proc == Ring(false, 1, At(0), [c]) && v.w.pc == IncNew(0)
    requires c.refs == 1
    ensures LocalNext(v, Go) == Some(Goto(v.(proc := Ring(false, 1, At(0), [c.(refs := 2)])), Copy(0)))
  {
    assert [c][0 := c.(refs := 2)] == [c.(refs := 2)];
  }

  lemma SoloPublishes(v: View, c: Chunk)
    requires ValidChunkSize(v.meta.chunkSize) && v.proc == Ring(true, 0, Null, []) && v.w.pc == Create(0)
    requires c == Chunk(ChunkStart(v.meta.chunkSize, Cur(v.w)), v.meta.chunkSize, 1, true)
    ensures Solo(v, 5) == Some(Goto(v.(proc := Ring(false, 1, At(0), [c.(refs := 2)])), Copy(0)))
  {
    var p := Goto(v.(proc := Ring(true, 0, Null, [c])), StoreSlot(0, 0));
    var q := Goto(v.(proc := Ring(true, 0, At(0), [c])), AdvanceHead(0, 0));
    var r := Goto(v.(proc := Ring(true, 1, At(0), [c])), UnlockNew(0));
    var t := Goto(v.(proc := Ring(false, 1, At(0), [c])), IncNew(0));
    var u := Goto(v.(proc := Ring(false, 1, At(0), [c.(refs := 2)])), Copy(0));
    CreateStep(v, c);
    SlotStep(p, c);
    HeadSteps(q, c);
    IncStep(t, c);
    SoloFirst(v, p, 4);
    SoloFirst(p, q, 3);
    SoloFirst(q, r, 2);
    SoloFirst(r, t, 1);
    SoloFirst(t, u, 0);
  }

  lemma OneByteLoops(v: View)
    requires v.meta.chunkSize == 4096 && v.w.start == LONG && |v.w.data| == 1
    ensures Route(v) == Goto(v, LockHead)
  {
  }

  /** Growing for one more byte empties the file; the thread goes on to write. */
  lemma FileEmptied() returns (trace: seq<State>, v: View)
    ensures Run(trace) && Sees(Last(trace), 1, v) && |Last(trace).writers| == 3 && InWidth(v.log)
    ensures v.w == Writer(0, LockHead, 1, LONG, [0], 0) && v.file == [] && v.meta.chunkSize == 4096
    ensures v.proc == Ring(false, 0, Null, [])
  {
    var a := FirstCommits();
    var u := ViewOf(Last(a), 1);
    var b := RunToTruncate(a, 1, [0], u);
    v := Short(u.(w := u.w.(data := [0])));
    assert EndOf(v.w) == LONG + 1;
    GrowthEmpties();
    trace := RunGrows(b, 1, v);
    OneByteLoops(v.(meta := v.meta.(fileSize := 0, locked := false), file := []));
    v := AfterGrowth(v);
  }

  lemma RunToCreate(trace: seq<State>, i: nat, v: View) returns (longer: seq<State>)
    requires Run(trace) && Sees(Last(trace), i, v) && v.w.pc.LockHead? && v.proc == Ring(false, 0, Null, [])
    ensures Run(longer) && Sees(Last(longer), i, Goto(v.(proc := Ring(true, 0, Null, [])), Create(0)))
    ensures |Last(longer).writers| == |Last(trace).writers|
  {
    SoloToCreate(v);
    longer := SoloRun(trace, i, 4, Goto(v.(proc := Ring(true, 0, Null, [])), Create(0)));
  }

  lemma RunToCopy(trace: seq<State>, i: nat, v: View, c: Chunk) returns (longer: seq<State>)
    requires Run(trace) && Sees(Last(trace), i, v) && v.w.pc == Create(0) && v.proc == Ring(true, 0, Null, [])
    requires c == Chunk(ChunkStart(v.meta.chunkSize, Cur(v.w)), v.meta.chunkSize, 1, true)
    ensures Run(longer) && Sees(Last(longer), i, Goto(v.(proc := Ring(false, 1, At(0), [c.(refs := 2)])), Copy(0)))
    ensures |Last(longer).writers| == |Last(trace).writers|
  {
    SoloPublishes(v, c);
    longer := SoloRun(trace, i, 5, Goto(v.(proc := Ring(false, 1, At(0), [c.(refs := 2)])), Copy(0)));
  }

  /** A run in which a copy faults: the growth for one more byte has emptied the file. */
  lemma CopyFaults() returns (trace: seq<State>)
    ensures Run(trace) && |trace| > 1 && InWidth(Last(trace).log)
    ensures |Last(trace).writers| == 3 && Last(trace).writers[1].pc.Faulted? && Last(trace).file == []
  {
    var a, v := FileEmptied();
    var b := RunToCreate(a, 1, v);
    v := Goto(v.(proc := Ring(true, 0, Null, [])), Create(0));
    var c := RunToCopy(b, 1, v, Chunk(ChunkStart(4096, Cur(v.w)), 4096, 1, true));
    trace := RunGoesOn(c, 1, Go);
  }
}
