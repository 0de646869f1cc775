/**
  One thread left to run alone: from any reachable state in which the locks are free and the log
  has not panicked, an insert whose system calls succeed commits its payload, after finitely many
  steps, and frees both locks again.
*/
module LogSolo {
  import opened Words
  import opened LogAlign
  import opened LogModel
  import opened LogInvariant
  import opened LogHistory
  import opened LogRing
  import opened LogProgress
  import opened LogRecords
  import opened LogSteps
  import opened LogRuns
  import opened LogSplit
  import opened LogTheorems

  /** `n` steps of one thread with nobody else moving and nothing failing. */
  function Solo(v: View, n: nat): Option<View>
    decreases n
  {
    if n == 0 then Some(v)
    else if !ValidChunkSize(v.meta.chunkSize) || |v.proc.slots| == 0 || LocalNext(v, Go).None? then None
    else Solo(LocalNext(v, Go).value, n - 1)
  }

  /** The range is handed out, or will be without growing the file. */
  predicate Covered(v: View) {
    CheckedOut(v.w.pc) || (v.w.pc.LoadSize? && v.w.start + |v.w.data| <= v.meta.fileSize)
  }

  /**
    The head lock is free or the thread's own. So is the expand lock, with no panic, if the file may
    have to grow: a range that the file covers needs neither.
  */
  predicate Undisturbed(v: View) {
    (Covered(v) || (!v.meta.panicked && (v.meta.locked ==> InExpand(v.w.pc)))) &&
    (v.proc.headLocked ==> InHead(v.w.pc))
  }

  /** On its way to success: no failure has been met. */
  predicate Working(v: View) {
    Good(v) && Undisturbed(v) && Active(v.w.pc) && LogInBound(v.log, v.meta.chunkSize) &&
    !v.w.pc.StorePanic? && !v.w.pc.ReleasePanicked? && !v.w.pc.StoreNull? && !v.w.pc.UnlockFailed?
  }

  /** Steps to go to the next store of payload, or to the end. */
  function Rank(pc: Pc): nat {
    match pc
    case DecRef(_) => 40
    case LoadSize => 30
    case TryLock => 29
    case CheckPanic => 28
    case ReloadSize => 27
    case Truncate => 26
    case StoreSize(_) => 25
    case Release => 24
    case Verdict => 23
    case DirectWrite => 22
    case LockHead => 20
    case LoadHead => 19
    case LoadTail(_) => 18
    case Inspect(_, _) => 17
    case Create(_) => 16
    case StoreSlot(_, _) => 15
    case AdvanceHead(_, _) => 14
    case UnlockNew(_) => 13
    case IncNew(_) => 12
    case IncFound(_) => 12
    case UnlockFound(_) => 11
    case Copy(_) => 10
    case CleanTail(_) => 5
    case CleanHead(_, _) => 4
    case _ => 0
  }

  /** The file this thread is working towards: grown if need be, the rest of the payload stored. */
  function Target(v: View): seq<byte>
    requires ValidChunkSize(v.meta.chunkSize) && v.w.done <= |v.w.data|
  {
    Overwrite(Covering(v.file, v.w.start + |v.w.data|, v.meta.chunkSize), Cur(v.w), v.w.data[v.w.done..])
  }

  /** The recorded size once a range that ends at `end` is covered. */
  function SizeThen(v: View, end: nat): nat
    requires ValidChunkSize(v.meta.chunkSize)
  {
    if v.meta.fileSize < end then |Covering(v.file, end, v.meta.chunkSize)| else v.meta.fileSize
  }

  /** The shared metadata this thread is working towards: its own locks free, the size grown if need be. */
  function MetaThen(v: View): Meta
    requires ValidChunkSize(v.meta.chunkSize)
  {
    v.meta.(fileSize := SizeThen(v, v.w.start + |v.w.data|), locked := v.meta.locked && !InExpand(v.w.pc))
  }

  /** One step closer, towards the same file and the same history. */
  predicate Closer(v: View, u: View) {
    Working(v) && Working(u) && u.log == v.log && u.w.res == v.w.res && u.w.pid == v.w.pid &&
    v.w.done <= |v.w.data| && u.w.done <= |u.w.data| && u.w.data == v.w.data &&
    u.w.start == v.w.start && MetaThen(u) == MetaThen(v) && Target(u) == Target(v) &&
    (|u.w.data| - u.w.done < |v.w.data| - v.w.done ||
     (u.w.done == v.w.done && Rank(u.w.pc) < Rank(v.w.pc)))
  }

  /** The insert has returned true. */
  predicate Returned(v: View, u: View) {
    Working(v) && v.w.done <= |v.w.data| && v.w.res < |v.log| &&
    Good(u) && u.w.pc == Idle && u.w.pid == v.w.pid && !u.proc.headLocked &&
    u.log == v.log[v.w.res := v.log[v.w.res].(status := Committed)] && u.file == Target(v) && u.meta == MetaThen(v)
  }

  /** The step is possible, and leads closer or ends the insert. */
  predicate Advances(v: View)
    requires Working(v)
  {
    LocalNext(v, Go).Some? &&
    (Closer(v, LocalNext(v, Go).value) || Returned(v, LocalNext(v, Go).value))
  }

  // ----- the phases ----------------------------------------------------------------------

  lemma RankedWorks(pc: Pc)
    requires Rank(pc) > 0
    ensures Active(pc) && !pc.StorePanic? && !pc.ReleasePanicked? && !pc.StoreNull? && !pc.UnlockFailed?
  {
  }

  /** A step that stores no payload and only moves on. */
  lemma MovesCloser(v: View, u: View)
    requires Working(v) && Good(u) && Undisturbed(u)
    requires u.file == v.file && u.log == v.log && u.w == v.w.(pc := u.w.pc) && MetaThen(u) == MetaThen(v)
    requires 0 < Rank(u.w.pc) < Rank(v.w.pc) && v.w.done <= |v.w.data|
    ensures Closer(v, u)
  {
    RankedWorks(u.w.pc);
  }

  /** A step past the checkout that stores no payload and leaves the shared metadata alone. */
  lemma PassesCloser(v: View, u: View)
    requires Working(v) && Good(u) && CheckedOut(v.w.pc) && CheckedOut(u.w.pc)
    requires u == v.(proc := u.proc, w := v.w.(pc := u.w.pc)) && (u.proc.headLocked ==> InHead(u.w.pc))
    requires 0 < Rank(u.w.pc) < Rank(v.w.pc)
    ensures Closer(v, u)
  {
    RankedWorks(u.w.pc);
  }

  lemma WrittenPart(v: View)
    requires Working(v)
    ensures v.w.done <= |v.w.data| && EndOf(v.w) == v.w.start + |v.w.data|
  {
  }

  /** The step keeps all facts and is neither a call nor a failure. */
  lemma StepGood(v: View)
    requires Working(v) && LocalNext(v, Go).Some?
    ensures Good(LocalNext(v, Go).value)
  {
    LocalMoves(v, Go);
    StepKeeps(v, Go);
  }

  lemma MetaStays(v: View, u: View)
    requires ValidChunkSize(v.meta.chunkSize) && u == v.(w := v.w.(pc := u.w.pc))
    requires !InExpand(v.w.pc) && !InExpand(u.w.pc)
    ensures MetaThen(u) == MetaThen(v)
  {
  }

  lemma MetaLocked(v: View, u: View)
    requires ValidChunkSize(v.meta.chunkSize) && u == v.(meta := v.meta.(locked := true), w := v.w.(pc := u.w.pc))
    requires (v.meta.locked ==> InExpand(v.w.pc)) && InExpand(u.w.pc)
    ensures MetaThen(u) == MetaThen(v)
  {
  }

  lemma LoadSizeEffect(v: View)
    requires Working(v) && v.w.pc.LoadSize?
    ensures LocalNext(v, Go) == Some(if EndOf(v.w) > v.meta.fileSize then Goto(v, TryLock) else Route(v))
  {
  }

  lemma LoadSizeAdvances(v: View)
    requires Working(v) && v.w.pc.LoadSize?
    ensures Advances(v)
  {
    LoadSizeEffect(v);
    MetaStays(v, LocalNext(v, Go).value);
    WrittenPart(v);
    StepGood(v);
    MovesCloser(v, LocalNext(v, Go).value);
  }

  lemma VerdictEffect(v: View)
    requires Working(v) && v.w.pc.Verdict?
    ensures LocalNext(v, Go) == Some(Route(v))
  {
  }

  lemma VerdictAdvances(v: View)
    requires Working(v) && v.w.pc.Verdict?
    ensures Advances(v)
  {
    VerdictEffect(v);
    MetaStays(v, Route(v));
    WrittenPart(v);
    StepGood(v);
    MovesCloser(v, Route(v));
  }

  lemma LockedEffect(v: View)
    requires Working(v) && (v.w.pc.TryLock? || v.w.pc.CheckPanic? || v.w.pc.ReloadSize?)
    ensures LocalNext(v, Go).Some?
    ensures var u := LocalNext(v, Go).value;
            u == v.(meta := u.meta, w := v.w.(pc := u.w.pc)) && u.meta == v.meta.(locked := true) &&
            InExpand(u.w.pc) && 0 < Rank(u.w.pc) < Rank(v.w.pc)
  {
  }

  lemma LockedAdvances(v: View)
    requires Working(v) && (v.w.pc.TryLock? || v.w.pc.CheckPanic? || v.w.pc.ReloadSize?)
    ensures Advances(v)
  {
    LockedEffect(v);
    MetaLocked(v, LocalNext(v, Go).value);
    WrittenPart(v);
    StepGood(v);
    MovesCloser(v, LocalNext(v, Go).value);
  }

  lemma StoredAdvances(v: View)
    requires Working(v) && (v.w.pc.StoreSize? || v.w.pc.Release?)
    ensures Advances(v)
  {
    WrittenPart(v);
    StepGood(v);
    MovesCloser(v, LocalNext(v, Go).value);
  }

  lemma CoveringGrown(file: seq<byte>, end: nat, cs: nat)
    requires ValidChunkSize(cs) && |file| < end && end + cs - 1 < WORD32
    ensures Covering(Resize(file, Align(end, cs)), end, cs) == Resize(file, Align(end, cs)) == Covering(file, end, cs)
  {
    AlignBelowBound(end, cs);
  }

  lemma TruncateAdvances(v: View)
    requires Working(v) && v.w.pc.Truncate?
    ensures Advances(v)
  {
    WrittenPart(v);
    StepGood(v);
    TruncateCovers(v);
    CoveringGrown(v.file, EndOf(v.w), v.meta.chunkSize);
  }

  lemma LookEffect(v: View)
    requires Working(v) && (v.w.pc.LockHead? || v.w.pc.LoadHead? || v.w.pc.LoadTail? || v.w.pc.Inspect?)
    ensures LocalNext(v, Go).Some?
    ensures var u := LocalNext(v, Go).value;
            u == v.(proc := u.proc, w := v.w.(pc := u.w.pc)) && InHead(u.w.pc) && 0 < Rank(u.w.pc) < Rank(v.w.pc)
  {
    if v.w.pc.Inspect? {
      InspectChooses(v);
    }
  }

  lemma LookAdvances(v: View)
    requires Working(v) && (v.w.pc.LockHead? || v.w.pc.LoadHead? || v.w.pc.LoadTail? || v.w.pc.Inspect?)
    ensures Advances(v)
  {
    LookEffect(v);
    StepGood(v);
    PassesCloser(v, LocalNext(v, Go).value);
  }

  lemma CountEffect(v: View)
    requires Working(v) && (v.w.pc.IncFound? || v.w.pc.IncNew?)
    ensures LocalNext(v, Go).Some?
    ensures var u := LocalNext(v, Go).value;
            u == v.(proc := u.proc, w := v.w.(pc := u.w.pc)) && u.proc.headLocked == v.proc.headLocked &&
            u.w.pc == if v.w.pc.IncFound? then UnlockFound(v.w.pc.chunk) else Copy(v.w.pc.chunk)
  {
    CountFrame(v, v.w.pc.chunk, 1, if v.w.pc.IncFound? then UnlockFound(v.w.pc.chunk) else Copy(v.w.pc.chunk));
  }

  lemma CountAdvances(v: View)
    requires Working(v) && (v.w.pc.IncFound? || v.w.pc.IncNew?)
    ensures Advances(v)
  {
    CountEffect(v);
    StepGood(v);
    PassesCloser(v, LocalNext(v, Go).value);
  }

  lemma UnlockEffect(v: View)
    requires Working(v) && (v.w.pc.UnlockFound? || v.w.pc.UnlockNew?)
    ensures LocalNext(v, Go).Some?
    ensures var u := LocalNext(v, Go).value;
            u == v.(proc := u.proc, w := v.w.(pc := u.w.pc)) && !u.proc.headLocked &&
            u.w.pc == if v.w.pc.UnlockFound? then Copy(v.w.pc.chunk) else IncNew(v.w.pc.chunk)
  {
  }

  lemma UnlockAdvances(v: View)
    requires Working(v) && (v.w.pc.UnlockFound? || v.w.pc.UnlockNew?)
    ensures Advances(v)
  {
    UnlockEffect(v);
    StepGood(v);
    PassesCloser(v, LocalNext(v, Go).value);
  }

  lemma CreateEffect(v: View)
    requires RingGood(v) && ValidChunkSize(v.meta.chunkSize) && v.w.pc.Create?
    ensures LocalNext(v, Go).Some?
    ensures var u := LocalNext(v, Go).value; u == v.(proc := u.proc, w := v.w.(pc := u.w.pc)) && u.w.pc.StoreSlot?
  {
    CreateMakes(v);
  }

  lemma LinkEffect(v: View)
    requires RingGood(v) && ValidChunkSize(v.meta.chunkSize) && (v.w.pc.StoreSlot? || v.w.pc.AdvanceHead?)
    ensures LocalNext(v, Go).Some?
    ensures var u := LocalNext(v, Go).value;
            u == v.(proc := u.proc, w := v.w.(pc := u.w.pc)) &&
            u.w.pc == if v.w.pc.StoreSlot? then AdvanceHead(v.w.pc.head, v.w.pc.chunk) else UnlockNew(v.w.pc.chunk)
  {
  }

  lemma PublishAdvances(v: View)
    requires Working(v) && (v.w.pc.Create? || v.w.pc.StoreSlot? || v.w.pc.AdvanceHead?)
    ensures Advances(v)
  {
    if v.w.pc.Create? {
      CreateEffect(v);
    } else {
      LinkEffect(v);
    }
    StepGood(v);
    PassesCloser(v, LocalNext(v, Go).value);
  }

  lemma CopyTarget(v: View)
    requires Working(v) && v.w.pc.Copy?
    ensures v.w.done <= |v.w.data|
    ensures var u := CopyPiece(v, v.w.pc.chunk);
            u.w.done <= |u.w.data| && u.meta == v.meta && Target(u) == Target(v) && u.w.done > v.w.done &&
            u == v.(file := u.file, w := v.w.(pc := DecRef(v.w.pc.chunk), done := u.w.done))
  {
    CopyIsLegal(v);
    var n := PieceLen(v.meta.chunkSize, Cur(v.w), |v.w.data| - v.w.done);
    JoinAt(v.file, Cur(v.w), v.w.data, v.w.done, n);
  }

  lemma CopyAdvances(v: View)
    requires Working(v) && v.w.pc.Copy?
    ensures Advances(v)
  {
    StepGood(v);
    CopyTarget(v);
  }

  lemma DecAdvances(v: View)
    requires Working(v) && v.w.pc.DecRef?
    ensures Advances(v)
  {
    WrittenPart(v);
    StepGood(v);
    CountFrame(v, v.w.pc.chunk, -1, if v.w.done < |v.w.data| then LockHead else CleanTail(FromInsert));
    MovesCloser(v, LocalNext(v, Go).value);
  }

  /** The end of an insert whose file is as it should be. */
  lemma CommitReturns(v: View, u: View)
    requires Working(v) && v.w.done <= |v.w.data| && !InExpand(v.w.pc) && !InHead(v.w.pc)
    requires u.meta == v.meta && u.proc == v.proc && u.log == v.log && u.w == v.w && u.file == Target(v)
    requires |u.file| == |v.file| && Good(Finish(u, Committed))
    ensures Returned(v, Finish(u, Committed))
  {
  }

  lemma DirectEffect(v: View)
    requires Working(v) && v.w.pc.DirectWrite?
    ensures v.w.done == 0 && |Target(v)| == |v.file|
    ensures LocalNext(v, Go) == Some(Finish(v.(file := Target(v)), Committed))
  {
    DirectStores(v, Go);
    assert v.w.data[0..] == v.w.data;
  }

  lemma DirectCommits(v: View)
    requires Working(v) && v.w.pc.DirectWrite?
    ensures Advances(v)
  {
    StepGood(v);
    DirectEffect(v);
    CommitReturns(v, v.(file := Target(v)));
  }

  lemma CleanAdvances(v: View)
    requires Working(v) && v.w.pc.CleanTail?
    ensures Advances(v)
  {
    WrittenPart(v);
    CleanLeaves(v);
    StepGood(v);
    MovesCloser(v, LocalNext(v, Go).value);
  }

  lemma NothingLeft(file: seq<byte>, at: nat, data: seq<byte>)
    requires data == []
    ensures Overwrite(file, at, data) == file
  {
  }

  lemma CleanReturns(v: View)
    requires Working(v) && v.w.pc.CleanHead?
    ensures Advances(v)
  {
    CleanLeaves(v);
    StepGood(v);
    NothingLeft(v.file, Cur(v.w), v.w.data[v.w.done..]);
    CommitReturns(v, v);
  }

  lemma CheckoutAdvances(v: View)
    requires Working(v) && IsCheckoutPc(v.w.pc)
    ensures Advances(v)
  {
    if v.w.pc.Truncate? {
      TruncateAdvances(v);
    } else if v.w.pc.LoadSize? {
      LoadSizeAdvances(v);
    } else if v.w.pc.Verdict? {
      VerdictAdvances(v);
    } else if v.w.pc.StoreSize? || v.w.pc.Release? {
      StoredAdvances(v);
    } else {
      LockedAdvances(v);
    }
  }

  lemma RingAdvances(v: View)
    requires Working(v) && IsRingPc(v.w.pc)
    ensures Advances(v)
  {
    if v.w.pc.LockHead? || v.w.pc.LoadHead? || v.w.pc.LoadTail? || v.w.pc.Inspect? {
      LookAdvances(v);
    } else if v.w.pc.Create? || v.w.pc.StoreSlot? || v.w.pc.AdvanceHead? {
      PublishAdvances(v);
    } else if v.w.pc.IncFound? || v.w.pc.IncNew? {
      CountAdvances(v);
    } else {
      UnlockAdvances(v);
    }
  }

  lemma StepAdvances(v: View)
    requires Working(v)
    ensures Advances(v)
  {
    if IsCheckoutPc(v.w.pc) {
      CheckoutAdvances(v);
    } else if IsRingPc(v.w.pc) {
      RingAdvances(v);
    } else if v.w.pc.Copy? {
      CopyAdvances(v);
    } else if v.w.pc.DecRef? {
      DecAdvances(v);
    } else if v.w.pc.DirectWrite? {
      DirectCommits(v);
    } else if v.w.pc.CleanTail? {
      CleanAdvances(v);
    } else {
      CleanReturns(v);
    }
  }

  // ----- to the end ----------------------------------------------------------------------

  /** What a step leads to is still on the way to the same end. */
  lemma ReturnedEarlier(v: View, u: View, end: View)
    requires Closer(v, u) && Returned(u, end)
    ensures Returned(v, end)
  {
  }

  lemma SoloFirst(v: View, u: View, m: nat)
    requires ValidChunkSize(v.meta.chunkSize) && |v.proc.slots| > 0 && LocalNext(v, Go) == Some(u)
    ensures Solo(v, m + 1) == Solo(u, m)
  {
  }

  /** From anywhere inside an insert that has met no failure, the thread alone brings it to success. */
  lemma {:induction false} WorkSucceeds(v: View) returns (n: nat, end: View)
    requires Working(v)
    ensures Solo(v, n) == Some(end) && Returned(v, end)
    decreases |v.w.data| - v.w.done, Rank(v.w.pc)
  {
    StepAdvances(v);
    var u := LocalNext(v, Go).value;
    if Returned(v, u) {
      n, end := 1, u;
      assert Solo(u, 0) == Some(u);
    } else {
      n, end := WorkSucceeds(u);
      ReturnedEarlier(v, u, end);
      SoloFirst(v, u, n);
      n := n + 1;
    }
  }

  /** What the fetch-add leaves: an open reservation at the old cursor. */
  predicate Reserved(v: View, u: View) {
    u.w.pc.LoadSize? && u.w.done == 0 && u.w.res == |v.log| &&
    u.meta == v.meta.(cursor := v.meta.cursor + |v.w.data|) && u.file == v.file &&
    u.w.start == v.meta.cursor && u.w.data == v.w.data && u.w.pid == v.w.pid &&
    u.log == v.log + [Entry(v.meta.cursor, v.w.data, Open)]
  }

  /** Nothing is in the way of an insert of `data`: it needs no growth, or may grow the file. */
  predicate ReadyFor(v: View, data: seq<byte>) {
    !v.proc.headLocked &&
    (v.meta.cursor + |data| <= v.meta.fileSize || (!v.meta.locked && !v.meta.panicked))
  }

  /** Right after the fetch-add the thread is on its way to the file that holds the new record. */
  lemma ReserveWorks(v: View)
    requires Good(v) && ReadyFor(v, v.w.data) && v.w.pc.Reserve? && LogInBound(v.log, v.meta.chunkSize)
    requires v.meta.cursor + |v.w.data| + v.meta.chunkSize - 1 < WORD32
    ensures LocalNext(v, Go) == Some(CheckoutGo(v)) && Working(CheckoutGo(v)) && Reserved(v, CheckoutGo(v))
  {
    ReserveTiles(v);
    StepKeeps(v, Go);
  }

  /** What an uninterrupted insert of `data` makes of the log `v` shows. */
  predicate Inserted(v: View, data: seq<byte>, end: View)
    requires ValidChunkSize(v.meta.chunkSize)
  {
    end.w.pc == Idle && end.w.pid == v.w.pid && end.log == v.log + [Entry(v.meta.cursor, data, Committed)] &&
    end.file == WithRecord(v.file, v.meta.cursor, data, v.meta.chunkSize) && !end.proc.headLocked &&
    end.meta == v.meta.(cursor := v.meta.cursor + |data|, fileSize := SizeThen(v, v.meta.cursor + |data|))
  }

  lemma CallStarts(v: View, data: seq<byte>)
    requires Good(v) && v.w.pc == Idle && data != []
    ensures LocalNext(v, Call(data)) == Some(v.(w := v.w.(pc := Reserve, data := data)))
    ensures Good(v.(w := v.w.(pc := Reserve, data := data)))
  {
    CallKeeps(v, Call(data));
    RingKeeps(v, Call(data));
  }

  lemma ReservedThen(v: View, u: View)
    requires ValidChunkSize(v.meta.chunkSize) && Reserved(v, u)
    ensures ValidChunkSize(u.meta.chunkSize)
    ensures Target(u) == WithRecord(v.file, v.meta.cursor, v.w.data, v.meta.chunkSize)
    ensures MetaThen(u) ==
            v.meta.(cursor := v.meta.cursor + |v.w.data|, fileSize := SizeThen(v, v.meta.cursor + |v.w.data|))
  {
    assert u.w.data[0..] == v.w.data;
  }

  lemma ReservedCommits(log: seq<Entry>, start: nat, data: seq<byte>)
    ensures var l := log + [Entry(start, data, Open)];
            l[|log| := l[|log|].(status := Committed)] == log + [Entry(start, data, Committed)]
  {
  }

  lemma ReturnedInserted(v: View, u: View, end: View)
    requires ValidChunkSize(v.meta.chunkSize) && Returned(u, end) && Reserved(v, u)
    ensures Inserted(v, v.w.data, end)
  {
    ReservedThen(v, u);
    ReservedCommits(v.log, v.meta.cursor, v.w.data);
  }

  lemma ReservingSucceeds(v: View) returns (n: nat, end: View)
    requires Good(v) && ReadyFor(v, v.w.data) && v.w.pc.Reserve? && LogInBound(v.log, v.meta.chunkSize)
    requires v.meta.cursor + |v.w.data| + v.meta.chunkSize - 1 < WORD32
    ensures Solo(v, n) == Some(end) && Inserted(v, v.w.data, end)
  {
    ReserveWorks(v);
    n, end := WorkSucceeds(CheckoutGo(v));
    SoloFirst(v, CheckoutGo(v), n);
    n := n + 1;
    ReturnedInserted(v, CheckoutGo(v), end);
  }

  lemma IdleSucceeds(v: View, data: seq<byte>) returns (n: nat, start: View, end: View)
    requires Good(v) && ReadyFor(v, data) && v.w.pc == Idle && data != [] && LogInBound(v.log, v.meta.chunkSize)
    requires v.meta.cursor + |data| + v.meta.chunkSize - 1 < WORD32
    ensures LocalNext(v, Call(data)) == Some(start) && Solo(start, n) == Some(end) && Inserted(v, data, end)
    ensures start.w.pid == v.w.pid
  {
    CallStarts(v, data);
    start := v.(w := v.w.(pc := Reserve, data := data));
    n, end := ReservingSucceeds(start);
  }

  // ----- as a run ------------------------------------------------------------------------

  function Last(trace: seq<State>): State
    requires |trace| > 0
  {
    trace[|trace| - 1]
  }

  /** A run goes on with any possible step. */
  lemma RunGoesOn(trace: seq<State>, i: nat, ch: Choice) returns (longer: seq<State>)
    requires Run(trace) && WellFormed(Last(trace)) && i < |Last(trace).writers|
    requires LocalNext(ViewOf(Last(trace), i), ch).Some?
    ensures Run(longer) && longer == trace + [Install(Last(trace), i, LocalNext(ViewOf(Last(trace), i), ch).value)]
    ensures WellFormed(Last(longer)) && |Last(longer).writers| == |Last(trace).writers|
    ensures ViewOf(Last(longer), i) == LocalNext(ViewOf(Last(trace), i), ch).value
  {
    var s := Last(trace);
    var s' := Install(s, i, LocalNext(ViewOf(s, i), ch).value);
    longer := trace + [s'];
    LocalMoves(ViewOf(s, i), ch);
    assert StepBy(s, i, ch, s') && Next(s, s');
    forall n {:trigger StepAt(longer, n)} | 0 < n < |longer|
      ensures StepAt(longer, n)
    {
      if n < |trace| {
        assert StepAt(trace, n);
      }
    }
    RunRing(longer, |trace|);
  }

  lemma SoloUnfold(v: View, n: nat, end: View) returns (u: View)
    requires n > 0 && Solo(v, n) == Some(end)
    ensures ValidChunkSize(v.meta.chunkSize) && |v.proc.slots| > 0 && LocalNext(v, Go) == Some(u)
    ensures Solo(u, n - 1) == Some(end)
  {
    u := LocalNext(v, Go).value;
  }

  lemma InstallSame(s: State, i: nat)
    requires WellFormed(s) && i < |s.writers|
    ensures Install(s, i, ViewOf(s, i)) == s
  {
  }

  lemma StepRuns(trace: seq<State>, i: nat, u: View) returns (longer: seq<State>)
    requires Run(trace) && WellFormed(Last(trace)) && i < |Last(trace).writers|
    requires LocalNext(ViewOf(Last(trace), i), Go) == Some(u)
    ensures Run(longer) && trace <= longer && WellFormed(Last(longer)) && i < |Last(longer).writers|
    ensures ViewOf(Last(longer), i) == u && u.w.pid == Last(trace).writers[i].pid
    ensures Last(longer) == Install(Last(trace), i, u)
  {
    longer := RunGoesOn(trace, i, Go);
    LocalMoves(ViewOf(Last(trace), i), Go);
  }

  lemma SoloJoins(trace: seq<State>, next: seq<State>, longer: seq<State>, i: nat, end: View)
    requires |trace| > 0 && trace <= next <= longer && WellFormed(Last(trace)) && i < |Last(trace).writers|
    requires WellFormed(Last(next)) && i < |Last(next).writers|
    requires Last(next) == Install(Last(trace), i, ViewOf(Last(next), i))
    requires ViewOf(Last(next), i).w.pid == Last(trace).writers[i].pid && Last(longer) == Install(Last(next), i, end)
    ensures trace <= longer && Last(longer) == Install(Last(trace), i, end)
  {
    InstallTwice(Last(trace), i, ViewOf(Last(next), i), end);
  }

  /** Steps of one thread alone continue the run; the others have not moved. */
  lemma SoloRun(trace: seq<State>, i: nat, n: nat, end: View) returns (longer: seq<State>)
    requires Run(trace) && WellFormed(Last(trace)) && i < |Last(trace).writers|
    requires Solo(ViewOf(Last(trace), i), n) == Some(end)
    ensures Run(longer) && trace <= longer && Last(longer) == Install(Last(trace), i, end)
    ensures WellFormed(Last(longer)) && ViewOf(Last(longer), i) == end
  {
    var path := SoloPath(ViewOf(Last(trace), i), n, end);
    longer := PathRuns(trace, i, path);
  }

  /** Each view is one step of the thread behind the one before. */
  predicate IsPath(path: seq<View>) {
    |path| > 0 && (|path| > 1 ==> Moves(path[0], path[1]) && IsPath(path[1..]))
  }

  predicate Moves(v: View, u: View) {
    ValidChunkSize(v.meta.chunkSize) && |v.proc.slots| > 0 && LocalNext(v, Go) == Some(u)
  }

  lemma {:induction false} SoloPath(v: View, n: nat, end: View) returns (path: seq<View>)
    requires Solo(v, n) == Some(end)
    ensures IsPath(path) && path[0] == v && path[|path| - 1] == end
    decreases n
  {
    if n == 0 {
      path := [v];
    } else {
      var u := SoloUnfold(v, n, end);
      var rest := SoloPath(u, n - 1, end);
      path := [v] + rest;
      assert path[1..] == rest;
    }
  }

  lemma {:induction false} PathRuns(trace: seq<State>, i: nat, path: seq<View>) returns (longer: seq<State>)
    requires Run(trace) && WellFormed(Last(trace)) && i < |Last(trace).writers|
    requires IsPath(path) && path[0] == ViewOf(Last(trace), i)
    ensures Run(longer) && trace <= longer && Last(longer) == Install(Last(trace), i, path[|path| - 1])
    ensures WellFormed(Last(longer)) && ViewOf(Last(longer), i) == path[|path| - 1]
    decreases |path|
  {
    if |path| == 1 {
      InstallSame(Last(trace), i);
      longer := trace;
    } else {
      var next := StepRuns(trace, i, path[1]);
      longer := PathRuns(next, i, path[1..]);
      SoloJoins(trace, next, longer, i, path[|path| - 1]);
    }
  }

  lemma InstallTwice(s: State, i: nat, v: View, end: View)
    requires WellFormed(s) && i < |s.writers| && WellFormed(Install(s, i, v)) && v.w.pid == s.writers[i].pid
    ensures Install(Install(s, i, v), i, end) == Install(s, i, end)
  {
  }

  /** What one more record makes of a state, the other threads and processes being where they were. */
  predicate Appended(s: State, i: nat, data: seq<byte>, s': State)
    requires WellFormed(s) && WellFormed(s') && i < |s.writers| == |s'.writers|
  {
    Inserted(ViewOf(s, i), data, ViewOf(s', i)) && s' == Install(s, i, ViewOf(s', i))
  }

  lemma CallContinues(trace: seq<State>, i: nat, data: seq<byte>, n: nat, start: View, end: View)
      returns (longer: seq<State>)
    requires Run(trace) && WellFormed(Last(trace)) && i < |Last(trace).writers|
    requires LocalNext(ViewOf(Last(trace), i), Call(data)) == Some(start) && Solo(start, n) == Some(end)
    requires Inserted(ViewOf(Last(trace), i), data, end) && start.w.pid == Last(trace).writers[i].pid
    ensures Run(longer) && trace <= longer
    ensures WellFormed(Last(longer)) && |Last(longer).writers| == |Last(trace).writers|
    ensures Appended(Last(trace), i, data, Last(longer))
  {
    var called := RunGoesOn(trace, i, Call(data));
    longer := SoloRun(called, i, n, end);
    InstallTwice(Last(trace), i, start, end);
  }

  lemma AppendedInBound(s: State, i: nat, data: seq<byte>, s': State)
    requires WellFormed(s) && WellFormed(s') && i < |s.writers| == |s'.writers| && Appended(s, i, data, s')
    requires InBound(s) && s.meta.cursor + |data| + s.meta.chunkSize - 1 < WORD32
    ensures InBound(s') && s'.log == s.log + [Entry(s.meta.cursor, data, Committed)]
  {
  }

  lemma RecordReadsBack(trace: seq<State>, k: nat)
    requires Run(trace) && InBound(Last(trace)) && k < |Last(trace).log| && Last(trace).log[k].status == Committed
    ensures RangeOf(Last(trace), k) == Last(trace).log[k].data
  {
    AppendLog(trace, |trace| - 1);
  }

  /**
    A call made in any reachable state with a free head lock, for a range that needs no growth or on a
    log that has not panicked and whose expand lock is free: the thread left alone carries the run on to
    a state in which the insert has returned true, the history has gained its record at the old cursor,
    the file is the covering file with the payload stored there, and both locks are as they were.
  */
  lemma CallSucceeds(trace: seq<State>, i: nat, data: seq<byte>) returns (longer: seq<State>)
    requires Run(trace) && InBound(Last(trace)) && i < |Last(trace).writers|
    requires Last(trace).writers[i].pc == Idle && data != []
    requires Last(trace).writers[i].pid < |Last(trace).procs|
    requires !Last(trace).procs[Last(trace).writers[i].pid].headLocked
    requires Last(trace).meta.cursor + |data| <= Last(trace).meta.fileSize ||
             (!Last(trace).meta.locked && !Last(trace).meta.panicked)
    requires Last(trace).meta.cursor + |data| + Last(trace).meta.chunkSize - 1 < WORD32
    ensures Run(longer) && trace <= longer && InBound(Last(longer))
    ensures WellFormed(Last(trace)) && WellFormed(Last(longer)) && |Last(longer).writers| == |Last(trace).writers|
    ensures Appended(Last(trace), i, data, Last(longer))
    ensures |Last(longer).log| == |Last(trace).log| + 1 && RangeOf(Last(longer), |Last(trace).log|) == data
  {
    RunInv(trace, |trace| - 1);
    ThreadGood(Last(trace), i);
    var n, start, end := IdleSucceeds(ViewOf(Last(trace), i), data);
    longer := CallContinues(trace, i, data, n, start, end);
    AppendedInBound(Last(trace), i, data, Last(longer));
    RecordReadsBack(longer, |Last(trace).log|);
  }

  // ----- a range that needs no growth ----------------------------------------------------

  /** What the insert of `w` makes of a state that covers its range: it is stored and returns true. */
  predicate Finished(s: State, i: nat, s': State)
    requires i < |s.writers| == |s'.writers|
  {
    var w := s.writers[i];
    s'.meta == s.meta && s'.file == Overwrite(s.file, w.start, w.data) && s'.writers[i].pc == Idle &&
    w.res < |s.log| && s'.log == s.log[w.res := Entry(w.start, w.data, Committed)] &&
    forall j :: 0 <= j < |s.writers| && j != i ==> s'.writers[j] == s.writers[j]
  }

  lemma CoveredReturns(v: View, end: View)
    requires Working(v) && v.w.pc.LoadSize? && v.w.start + |v.w.data| <= v.meta.fileSize && Returned(v, end)
    ensures end.meta == v.meta && end.file == Overwrite(v.file, v.w.start, v.w.data)
    ensures v.w.res < |v.log| && end.log == v.log[v.w.res := Entry(v.w.start, v.w.data, Committed)]
  {
    assert v.w.data[0..] == v.w.data;
  }

  /**
    A thread that has reserved a range which needs no growth succeeds, whatever the expand lock and
    the panic flag: left alone, with the head lock of its process free, it stores its payload and
    returns true.
  */
  lemma CoveredSucceeds(trace: seq<State>, i: nat) returns (longer: seq<State>)
    requires Run(trace) && InBound(Last(trace)) && i < |Last(trace).writers| && Last(trace).writers[i].pc == LoadSize
    requires Last(trace).writers[i].pid < |Last(trace).procs|
    requires !Last(trace).procs[Last(trace).writers[i].pid].headLocked
    requires Last(trace).writers[i].start + |Last(trace).writers[i].data| <= Last(trace).meta.fileSize
    ensures Run(longer) && trace <= longer && |Last(longer).writers| == |Last(trace).writers|
    ensures Finished(Last(trace), i, Last(longer))
  {
    RunInv(trace, |trace| - 1);
    ThreadGood(Last(trace), i);
    var v := ViewOf(Last(trace), i);
    var n, end := WorkSucceeds(v);
    longer := SoloRun(trace, i, n, end);
    CoveredReturns(v, end);
  }
}
