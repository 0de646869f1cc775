/**
  One step inside the rounding bound: it keeps the sizes, the records and the thread's own bytes,
  and stays within what the other threads rely on.
*/
module LogSteps {
  import opened Words
  import opened LogAlign
  import opened LogModel
  import opened LogInvariant
  import opened LogHistory
  import opened LogRing
  import opened LogProgress

  /** What a step leaves behind, and what it does to everybody else. */
  predicate CoreStep(v: View, v': View) {
    CoreGood(v') && CoreGuarantee(v, v')
  }

  // ----- steps that only move on ---------------------------------------------------------

  lemma PassKeeps(v: View, v': View)
    requires JobGood(v) && CoreGood(v) && CheckedOut(v.w.pc) && CheckedOut(v'.w.pc)
    requires v'.meta == v.meta && v'.file == v.file && v'.log == v.log && v'.w == v.w.(pc := v'.w.pc)
    ensures CoreGood(v')
  {
  }

  lemma PassGuarantee(v: View, v': View)
    requires Active(v.w.pc) && !InExpand(v.w.pc) && !InExpand(v'.w.pc)
    requires v'.meta == v.meta && v'.file == v.file && v'.log == v.log && v'.w == v.w.(pc := v'.w.pc)
    ensures CoreGuarantee(v, v')
  {
  }

  lemma Passes(v: View, v': View)
    requires JobGood(v) && CoreGood(v) && CheckedOut(v.w.pc) && CheckedOut(v'.w.pc)
    requires v'.meta == v.meta && v'.file == v.file && v'.log == v.log && v'.w == v.w.(pc := v'.w.pc)
    ensures CoreStep(v, v')
  {
    PassKeeps(v, v');
    PassGuarantee(v, v');
  }

  /** After a successful checkout the thread may start writing. */
  lemma RouteKeeps(v: View)
    requires JobGood(v) && CoreGood(v) && Active(v.w.pc) && v.w.start + |v.w.data| <= v.meta.fileSize && v.w.done == 0
    ensures CoreGood(Route(v))
  {
  }

  lemma RouteStep(v: View)
    requires JobGood(v) && CoreGood(v) && Active(v.w.pc) && !InExpand(v.w.pc)
    requires v.w.start + |v.w.data| <= v.meta.fileSize && v.w.done == 0
    ensures CoreStep(v, Route(v))
  {
    RouteKeeps(v);
    PassGuarantee(v, Route(v));
  }

  // ----- leaving the insert --------------------------------------------------------------

  lemma FinishKeeps(v: View, status: Status)
    requires MetaOk(v.meta, v.file) && LogOk(v.log, v.file, v.meta.fileSize)
    requires Active(v.w.pc) && HasJob(v.log, v.w)
    requires EntryOk(v.log[v.w.res].(status := status), v.file, v.meta.fileSize)
    ensures CoreGood(Finish(v, status)) && Finish(v, status).w == v.w.(pc := Idle)
    ensures Finish(v, status).log == v.log[v.w.res := v.log[v.w.res].(status := status)]
  {
  }

  lemma FinishGuarantee(v: View, status: Status)
    requires Active(v.w.pc) && v.w.res < |v.log| && !InExpand(v.w.pc)
    ensures CoreGuarantee(v, Finish(v, status))
  {
  }

  lemma FailStep(v: View)
    requires JobGood(v) && CoreGood(v) && Active(v.w.pc) && !InExpand(v.w.pc)
    ensures CoreStep(v, Finish(v, Failed))
  {
    FinishKeeps(v, Failed);
    FinishGuarantee(v, Failed);
  }

  // ----- the checkout --------------------------------------------------------------------

  lemma ReserveKeeps(v: View)
    requires Tiled(v.log, v.meta.cursor) && JobGood(v) && CoreGood(v) && v.w.pc.Reserve? && InWidth(CheckoutGo(v).log)
    requires LogInBound(CheckoutGo(v).log, v.meta.chunkSize)
    ensures CoreGood(CheckoutGo(v))
  {
    ReserveTiles(v);
    assert CheckoutGo(v).log[|v.log|] == Entry(v.meta.cursor, v.w.data, Open);
  }

  lemma ReserveGuarantee(v: View)
    requires JobGood(v) && Tiled(v.log, v.meta.cursor) && v.w.pc.Reserve? && ValidChunkSize(v.meta.chunkSize)
    requires InWidth(CheckoutGo(v).log)
    ensures CoreGuarantee(v, CheckoutGo(v))
  {
    ReserveTiles(v);
  }

  /** Growing the file keeps every committed record. */
  lemma GrownLogOk(log: seq<Entry>, file: seq<byte>, fileSize: nat, file': seq<byte>, fileSize': nat)
    requires LogOk(log, file, fileSize) && |file| <= |file'| && fileSize <= fileSize'
    requires forall k :: 0 <= k < |file| ==> file'[k] == file[k]
    ensures LogOk(log, file', fileSize')
  {
    forall k | 0 <= k < |log|
      ensures EntryOk(log[k], file', fileSize')
    {
      if log[k].status == Committed {
        var e := log[k];
        assert file'[e.start..EntryEnd(e)] == file[e.start..EntryEnd(e)];
      }
    }
  }

  /** Growing covers the requested end. */
  lemma TruncateCovers(v: View)
    requires JobGood(v) && CoreGood(v) && v.w.pc.Truncate?
    ensures var v' := CheckoutStep(v, Go).value;
            var size := Align(EndOf(v.w), v.meta.chunkSize);
            v'.w == v.w.(pc := StoreSize(size)) && v'.meta == v.meta && v'.log == v.log &&
            v'.file == Resize(v.file, size) &&
            |v.file| < v.w.start + |v.w.data| <= size
  {
    assert EndOf(v.w) == v.w.start + |v.w.data|;
    AlignBelowBound(EndOf(v.w), v.meta.chunkSize);
  }

  lemma TruncateKeeps(v: View)
    requires JobGood(v) && CoreGood(v) && v.w.pc.Truncate?
    ensures CoreGood(CheckoutStep(v, Go).value)
  {
    var v' := CheckoutStep(v, Go).value;
    TruncateCovers(v);
    GrownLogOk(v.log, v.file, v.meta.fileSize, v'.file, v'.meta.fileSize);
  }

  lemma TruncateGuarantee(v: View)
    requires JobGood(v) && CoreGood(v) && v.w.pc.Truncate?
    ensures CoreGuarantee(v, CheckoutStep(v, Go).value)
  {
    TruncateCovers(v);
  }

  lemma CheckPanicKeeps(v: View)
    requires JobGood(v) && CoreGood(v) && v.w.pc.CheckPanic?
    ensures CoreStep(v, CheckoutGo(v))
  {
  }

  lemma ReloadSizeKeeps(v: View)
    requires JobGood(v) && CoreGood(v) && v.w.pc.ReloadSize?
    ensures CoreStep(v, CheckoutGo(v))
  {
    assert EndOf(v.w) == v.w.start + |v.w.data|;
  }

  /** A failed growth sets the flag and leaves both sizes equal. */
  lemma StorePanicKeeps(v: View)
    requires JobGood(v) && CoreGood(v) && v.w.pc.StorePanic?
    ensures CoreStep(v, CheckoutGo(v))
    ensures CheckoutGo(v).meta.panicked && CheckoutGo(v).meta.fileSize == v.meta.fileSize == |CheckoutGo(v).file|
  {
  }

  lemma StoreSizeKeeps(v: View)
    requires JobGood(v) && CoreGood(v) && v.w.pc.StoreSize?
    ensures CoreStep(v, CheckoutGo(v))
  {
    GrownLogOk(v.log, v.file, v.meta.fileSize, v.file, v.w.pc.newSize);
  }

  lemma ReleaseKeeps(v: View)
    requires JobGood(v) && CoreGood(v) && v.w.pc.Release?
    ensures CoreStep(v, CheckoutGo(v))
  {
  }

  lemma ReleasePanickedKeeps(v: View)
    requires JobGood(v) && CoreGood(v) && v.w.pc.ReleasePanicked?
    ensures CoreStep(v, CheckoutGo(v))
  {
  }

  lemma LoadSizeKeeps(v: View)
    requires JobGood(v) && CoreGood(v) && v.w.pc.LoadSize?
    ensures CoreStep(v, CheckoutGo(v))
  {
    assert EndOf(v.w) == v.w.start + |v.w.data|;
    if EndOf(v.w) <= v.meta.fileSize {
      RouteStep(v);
    } else {
      PassGuarantee(v, CheckoutGo(v));
    }
  }

  /** After the expand loop a thread fails or owns a range inside the recorded size. */
  lemma VerdictKeeps(v: View)
    requires JobGood(v) && CoreGood(v) && v.w.pc.Verdict?
    ensures CoreStep(v, CheckoutGo(v))
    ensures CheckoutGo(v) == if v.meta.panicked then Finish(v, Failed) else Route(v)
    ensures !v.meta.panicked ==> v.w.start + |v.w.data| <= v.meta.fileSize
  {
    if v.meta.panicked {
      FailStep(v);
    } else {
      RouteStep(v);
    }
  }

  lemma CallKeeps(v: View, ch: Choice)
    requires JobGood(v) && CoreGood(v) && v.w.pc.Idle? && CheckoutStep(v, ch).Some?
    ensures CoreStep(v, CheckoutStep(v, ch).value)
  {
  }

  lemma TryLockKeeps(v: View, ch: Choice)
    requires JobGood(v) && CoreGood(v) && v.w.pc.TryLock? && CheckoutStep(v, ch).Some?
    ensures CoreStep(v, CheckoutStep(v, ch).value)
  {
    if ch.Timeout? {
      FailStep(v);
    }
  }

  lemma GrowFailureKeeps(v: View)
    requires JobGood(v) && CoreGood(v) && v.w.pc.Truncate?
    ensures CoreStep(v, Goto(v, StorePanic))
  {
  }

  /** The steps of the checkout that a caller, a clock or the system decides. */
  lemma CheckoutChoiceKeeps(v: View, ch: Choice)
    requires JobGood(v) && CoreGood(v) && (v.w.pc.Idle? || v.w.pc.TryLock? || v.w.pc.Truncate?)
    requires CheckoutStep(v, ch).Some?
    ensures CoreStep(v, CheckoutStep(v, ch).value)
  {
    if v.w.pc.TryLock? {
      TryLockKeeps(v, ch);
    } else if v.w.pc.Idle? {
      CallKeeps(v, ch);
    } else if ch.Go? {
      TruncateKeeps(v);
      TruncateGuarantee(v);
    } else {
      GrowFailureKeeps(v);
    }
  }

  lemma ExpandKeeps(v: View)
    requires JobGood(v) && CoreGood(v) && InExpand(v.w.pc) && !v.w.pc.Truncate?
    ensures CoreStep(v, CheckoutGo(v))
  {
    if v.w.pc.CheckPanic? {
      CheckPanicKeeps(v);
    } else if v.w.pc.ReloadSize? {
      ReloadSizeKeeps(v);
    } else if v.w.pc.Release? {
      ReleaseKeeps(v);
    } else if v.w.pc.ReleasePanicked? {
      ReleasePanickedKeeps(v);
    } else if v.w.pc.StorePanic? {
      StorePanicKeeps(v);
    } else {
      StoreSizeKeeps(v);
    }
  }

  lemma CheckoutKeeps(v: View, ch: Choice)
    requires Tiled(v.log, v.meta.cursor) && JobGood(v) && CoreGood(v)
    requires IsCheckoutPc(v.w.pc) && CheckoutStep(v, ch).Some?
    requires LogInBound(CheckoutStep(v, ch).value.log, v.meta.chunkSize)
    ensures CoreStep(v, CheckoutStep(v, ch).value)
  {
    if v.w.pc.Idle? || v.w.pc.TryLock? || v.w.pc.Truncate? {
      CheckoutChoiceKeeps(v, ch);
    } else if v.w.pc.Reserve? {
      ReserveKeeps(v);
      ReserveGuarantee(v);
    } else if v.w.pc.LoadSize? {
      LoadSizeKeeps(v);
    } else if v.w.pc.Verdict? {
      VerdictKeeps(v);
    } else {
      ExpandKeeps(v);
    }
  }

  // ----- the chunk ring ------------------------------------------------------------------

  lemma RingKeepsCore(v: View, ch: Choice)
    requires RingGood(v) && JobGood(v) && CoreGood(v) && IsRingPc(v.w.pc) && RingStep(v, ch).Some?
    ensures CoreStep(v, RingStep(v, ch).value)
  {
    var v' := RingStep(v, ch).value;
    RingSteps(v, ch);
    if v' == Finish(v.(proc := v'.proc), Failed) {
      FailStep(v.(proc := v'.proc));
    } else {
      Passes(v, v');
    }
  }

  // ----- writing the payload -------------------------------------------------------------

  /** A store inside the thread's own range leaves every committed record alone. */
  lemma OwnStoreKeepsLog(v: View, at: nat, data: seq<byte>)
    requires Tiled(v.log, v.meta.cursor) && JobGood(v) && CoreGood(v) && CheckedOut(v.w.pc)
    requires v.w.start <= at && at + |data| <= v.w.start + |v.w.data|
    ensures LogOk(v.log, Overwrite(v.file, at, data), v.meta.fileSize)
    ensures |Overwrite(v.file, at, data)| == |v.file|
  {
    var file' := Overwrite(v.file, at, data);
    OwnStore(v.file, v.w, at, data);
    forall k | 0 <= k < |v.log|
      ensures EntryOk(v.log[k], file', v.meta.fileSize)
    {
      if v.log[k].status == Committed {
        TiledDisjoint(v.log, v.meta.cursor, k, v.w.res);
        FileGuaranteeSlice(v.file, v.w, file', v.log[k].start, EntryEnd(v.log[k]));
      }
    }
  }

  lemma StoreGuarantee(v: View, v': View, data: seq<byte>, at: nat)
    requires JobGood(v) && CoreGood(v) && CheckedOut(v.w.pc) && v.w.start <= at && at + |data| <= v.w.start + |v.w.data|
    requires v'.meta == v.meta && v'.file == Overwrite(v.file, at, data) && !InExpand(v'.w.pc)
    ensures CoreGuarantee(v, v')
  {
  }

  lemma StoredWhole(file: seq<byte>, at: nat, data: seq<byte>)
    requires at + |data| <= |file|
    ensures Overwrite(file, at, data)[at..at + |data|] == data
  {
  }

  lemma DirectKeeps(v: View, ch: Choice)
    requires Tiled(v.log, v.meta.cursor) && JobGood(v) && CoreGood(v) && v.w.pc.DirectWrite? && WriteStep(v, ch).Some?
    ensures CoreStep(v, WriteStep(v, ch).value)
  {
    var data := if ch.Go? then v.w.data else v.w.data[..ch.written];
    var u := v.(file := Overwrite(v.file, v.w.start, data));
    DirectStores(v, ch);
    OwnStoreKeepsLog(v, v.w.start, data);
    StoredWhole(v.file, v.w.start, data);
    FinishKeeps(u, if ch.Go? then Committed else Failed);
    StoreGuarantee(v, WriteStep(v, ch).value, data, v.w.start);
  }

  /** The chunk that serves a position holds the whole piece up to the chunk boundary. */
  lemma PieceFits(cs: nat, c: Chunk, cur: nat, remaining: nat)
    requires ChunkOk(c, cs) && InChunk(c, cur)
    ensures c.start == ChunkStart(cs, cur)
    ensures cur + PieceLen(cs, cur, remaining) <= c.start + c.size
  {
    var q := c.start / cs;
    assert c.start == q * cs;
    ModUnique(cur, cs, q, cur - c.start);
    ChunkEndAbove(cs, cur);
  }

  /** The copy meets a live mapping, stays inside it and inside the file. */
  lemma CopyIsLegal(v: View)
    requires RingGood(v) && JobGood(v) && CoreGood(v) && v.w.pc.Copy?
    ensures var n := PieceLen(v.meta.chunkSize, Cur(v.w), |v.w.data| - v.w.done);
            0 < n && v.w.done + n <= |v.w.data| &&
            CopyPiece(v, v.w.pc.chunk) ==
            v.(file := Overwrite(v.file, Cur(v.w), v.w.data[v.w.done..v.w.done + n]),
               w := v.w.(pc := DecRef(v.w.pc.chunk), done := v.w.done + n))
  {
    PieceFits(v.meta.chunkSize, v.proc.chunks[v.w.pc.chunk], Cur(v.w), |v.w.data| - v.w.done);
    PiecePositive(v.meta.chunkSize, Cur(v.w), |v.w.data| - v.w.done);
  }

  lemma PieceData(file: seq<byte>, w: Writer, w': Writer, n: nat)
    requires DataOk(file, w) && CheckedOut(w.pc) && w.done + n <= |w.data|
    requires w' == w.(pc := w'.pc, done := w.done + n)
    ensures DataOk(Overwrite(file, Cur(w), w.data[w.done..w.done + n]), w')
  {
    PrefixGrows(file, w.start, w.data, w.done, n);
  }

  /** After a store of the next piece the thread's own bytes are right. */
  lemma PieceKeeps(v: View, v': View, n: nat)
    requires Tiled(v.log, v.meta.cursor) && JobGood(v) && CoreGood(v) && CheckedOut(v.w.pc)
    requires v.w.done + n <= |v.w.data|
    requires v'.file == Overwrite(v.file, Cur(v.w), v.w.data[v.w.done..v.w.done + n])
    requires v'.meta == v.meta && v'.log == v.log
    requires v'.w == v.w.(pc := v'.w.pc, done := v.w.done + n) && v'.w.pc.DecRef?
    ensures CoreGood(v')
  {
    OwnStoreKeepsLog(v, Cur(v.w), v.w.data[v.w.done..v.w.done + n]);
    PieceData(v.file, v.w, v'.w, n);
  }

  lemma CopyKeeps(v: View)
    requires RingGood(v) && Tiled(v.log, v.meta.cursor) && JobGood(v) && CoreGood(v) && v.w.pc.Copy?
    ensures CoreGood(CopyPiece(v, v.w.pc.chunk))
  {
    CopyIsLegal(v);
    var n := PieceLen(v.meta.chunkSize, Cur(v.w), |v.w.data| - v.w.done);
    PieceKeeps(v, CopyPiece(v, v.w.pc.chunk), n);
  }

  lemma CopyGuarantee(v: View)
    requires RingGood(v) && JobGood(v) && CoreGood(v) && v.w.pc.Copy?
    ensures CoreGuarantee(v, CopyPiece(v, v.w.pc.chunk))
  {
    CopyIsLegal(v);
    var n := PieceLen(v.meta.chunkSize, Cur(v.w), |v.w.data| - v.w.done);
    StoreGuarantee(v, CopyPiece(v, v.w.pc.chunk), v.w.data[v.w.done..v.w.done + n], Cur(v.w));
  }

  lemma DecKeepsCore(v: View)
    requires RingGood(v) && JobGood(v) && CoreGood(v) && v.w.pc.DecRef?
    ensures CoreStep(v, WriteStep(v, Go).value)
  {
    var pc := if v.w.done < |v.w.data| then LockHead else CleanTail(FromInsert);
    CountFrame(v, v.w.pc.chunk, -1, pc);
    Passes(v, WriteStep(v, Go).value);
  }

  // ----- clean_chunks with a null tail ---------------------------------------------------

  /** Cleaning changes nothing, and then the insert commits its whole payload. */
  lemma CleanKeepsCore(v: View)
    requires RingGood(v) && JobGood(v) && CoreGood(v) && IsCleanPc(v.w.pc)
    ensures CoreStep(v, CleanGo(v))
    ensures CleanGo(v) == if v.w.pc.CleanTail? then Goto(v, CleanHead(FromInsert, None)) else Finish(v, Committed)
  {
    CleanLeaves(v);
    if v.w.pc.CleanTail? {
      Passes(v, CleanGo(v));
    } else {
      assert v.w.data[..|v.w.data|] == v.w.data;
      FinishKeeps(v, Committed);
      FinishGuarantee(v, Committed);
    }
  }

  // ----- any step ------------------------------------------------------------------------

  lemma CoreKeeps(v: View, ch: Choice)
    requires Good(v) && LocalNext(v, ch).Some? && LogInBound(LocalNext(v, ch).value.log, v.meta.chunkSize)
    ensures CoreStep(v, LocalNext(v, ch).value)
  {
    if IsCheckoutPc(v.w.pc) {
      CheckoutKeeps(v, ch);
    } else if IsRingPc(v.w.pc) {
      RingKeepsCore(v, ch);
    } else if IsCleanPc(v.w.pc) {
      CleanKeepsCore(v);
    } else if v.w.pc.DirectWrite? {
      DirectKeeps(v, ch);
    } else if v.w.pc.Copy? {
      CopyKeeps(v);
      CopyGuarantee(v);
    } else {
      DecKeepsCore(v);
    }
  }

  /** Any step inside the bound keeps all facts of its thread, and what the others rely on. */
  lemma StepKeeps(v: View, ch: Choice)
    requires Good(v) && LocalNext(v, ch).Some? && LogInBound(LocalNext(v, ch).value.log, v.meta.chunkSize)
    ensures Good(LocalNext(v, ch).value)
    ensures CoreGuarantee(v, LocalNext(v, ch).value)
    ensures ProcGuarantee(v.proc, v.w.pc, LocalNext(v, ch).value.proc, LocalNext(v, ch).value.w.pc)
  {
    RingKeeps(v, ch);
    StepProgress(v, ch);
    TileKeeps(v, ch);
    CoreKeeps(v, ch);
  }
}
