/**
  The chunk ring of one process, over every run: nothing here looks at the size of the log, so no
  bound on the reservations is needed. A copy may fault past the rounding bound; the head lock and
  the ring are not affected by that.
*/
module LogRing {
  import opened Words
  import opened LogAlign
  import opened LogModel
  import opened LogInvariant
  import opened LogHistory

  // ----- arithmetic of the ring ----------------------------------------------------------

  lemma NextDiffers(p: Proc)
    requires 2 <= |p.slots| && p.head < |p.slots|
    ensures NextIndex(p, p.head) != p.head
  {
    if p.head + 1 < |p.slots| {
      ModSmall(p.head + 1, |p.slots|);
    }
  }

  lemma ModSmall(x: nat, d: nat)
    requires x < d
    ensures x % d == x
  {
  }

  lemma NextModulo(n: nat, cap: nat)
    requires cap > 0
    ensures (n % cap + 1) % cap == (n + 1) % cap
  {
    var q, r := n / cap, n % cap;
    if r + 1 < cap {
      ModUnique(n + 1, cap, q, r + 1);
      ModSmall(r + 1, cap);
    } else {
      assert (q + 1) * cap == q * cap + cap;
      ModUnique(n + 1, cap, q + 1, 0);
    }
  }

  lemma ChunkStartStable(cs: nat, cur: nat)
    requires cs > 0
    ensures ChunkStart(cs, ChunkStart(cs, cur)) == ChunkStart(cs, cur)
  {
    ModUnique(ChunkStart(cs, cur), cs, cur / cs, 0);
  }

  // ----- one step of one thread ----------------------------------------------------------

  /** What a step leaves behind: the ring facts of the thread, unless it has faulted. */
  predicate RingLeft(v: View) {
    2 <= |v.proc.slots| && ProcOk(v.proc, v.meta.chunkSize) && RingOk(v.proc) && HeadFine(v.proc, v.w)
  }

  /** Nothing is known of, or asked from, the ring at these places. */
  predicate OffRing(pc: Pc) {
    pc.Faulted? || IsCheckoutPc(pc) || pc.DirectWrite? || pc.LockHead?
  }

  lemma OffRingKeeps(v: View, v': View)
    requires RingGood(v) && v'.proc == v.proc && v'.meta.chunkSize == v.meta.chunkSize
    requires !InHead(v.w.pc) && OffRing(v'.w.pc)
    ensures RingLeft(v') && ProcGuarantee(v.proc, v.w.pc, v'.proc, v'.w.pc)
  {
  }

  lemma CheckoutStaysOff(v: View, ch: Choice)
    requires ValidChunkSize(v.meta.chunkSize) && IsCheckoutPc(v.w.pc) && CheckoutStep(v, ch).Some?
    ensures var v' := CheckoutStep(v, ch).value;
            v'.proc == v.proc && v'.meta.chunkSize == v.meta.chunkSize && OffRing(v'.w.pc) && v'.w.pid == v.w.pid
  {
  }

  /** What adding to a count leaves alone. */
  lemma CountFrame(v: View, c: nat, delta: int, pc: Pc)
    requires RingGood(v) && c < |v.proc.chunks|
    ensures var v' := Count(v, c, delta, pc);
            v'.meta == v.meta && v'.file == v.file && v'.log == v.log && v'.w == v.w.(pc := pc) &&
            v'.proc == v.proc.(chunks := v'.proc.chunks) && |v'.proc.chunks| == |v.proc.chunks| &&
            ProcOk(v'.proc, v.meta.chunkSize)
    ensures forall k :: 0 <= k < |v.proc.chunks| ==>
              Count(v, c, delta, pc).proc.chunks[k].(refs := 0) == v.proc.chunks[k].(refs := 0)
  {
  }

  lemma LockHeadRing(v: View, ch: Choice)
    requires RingGood(v) && v.meta.chunkSize > 0 && v.w.pc.LockHead? && RingStep(v, ch).Some?
    ensures var v' := RingStep(v, ch).value; RingLeft(v') && ProcGuarantee(v.proc, v.w.pc, v'.proc, v'.w.pc)
  {
  }

  lemma LoadsRing(v: View)
    requires RingGood(v) && (v.w.pc.LoadHead? || v.w.pc.LoadTail?)
    ensures RingLeft(RingGo(v)) && ProcGuarantee(v.proc, v.w.pc, RingGo(v).proc, RingGo(v).w.pc)
  {
  }

  /** The head is used if it serves the position; otherwise, the tail being null, a chunk is created. */
  lemma InspectChooses(v: View)
    requires RingGood(v) && v.w.pc.Inspect?
    ensures var slot := v.proc.slots[v.proc.head];
            RingGo(v) == Goto(v, if slot.At? && InChunk(v.proc.chunks[slot.id], Cur(v.w)) then IncFound(slot.id)
                                 else Create(v.proc.head))
  {
  }

  lemma InspectRing(v: View)
    requires RingGood(v) && v.w.pc.Inspect?
    ensures RingLeft(RingGo(v)) && ProcGuarantee(v.proc, v.w.pc, RingGo(v).proc, RingGo(v).w.pc)
  {
    InspectChooses(v);
  }

  lemma IncFoundRing(v: View)
    requires RingGood(v) && v.w.pc.IncFound?
    ensures RingLeft(RingGo(v)) && ProcGuarantee(v.proc, v.w.pc, RingGo(v).proc, RingGo(v).w.pc)
  {
    CountFrame(v, v.w.pc.chunk, 1, UnlockFound(v.w.pc.chunk));
  }

  lemma IncNewRing(v: View)
    requires RingGood(v) && v.w.pc.IncNew?
    ensures RingLeft(RingGo(v)) && ProcGuarantee(v.proc, v.w.pc, RingGo(v).proc, RingGo(v).w.pc)
  {
    CountFrame(v, v.w.pc.chunk, 1, Copy(v.w.pc.chunk));
  }

  lemma UnlockFoundRing(v: View)
    requires RingGood(v) && v.w.pc.UnlockFound?
    ensures RingLeft(RingGo(v)) && ProcGuarantee(v.proc, v.w.pc, RingGo(v).proc, RingGo(v).w.pc)
  {
  }

  lemma UnlockNewRing(v: View)
    requires RingGood(v) && v.w.pc.UnlockNew?
    ensures RingLeft(RingGo(v)) && ProcGuarantee(v.proc, v.w.pc, RingGo(v).proc, RingGo(v).w.pc)
  {
  }

  lemma UnlockFailedRing(v: View)
    requires RingGood(v) && v.w.pc.UnlockFailed?
    ensures RingLeft(RingGo(v)) && ProcGuarantee(v.proc, v.w.pc, RingGo(v).proc, RingGo(v).w.pc)
  {
  }

  /** A created chunk is aligned, mapped, starts at count one and serves the position it was created for. */
  lemma CreateMakes(v: View)
    requires ValidChunkSize(v.meta.chunkSize) && |v.proc.slots| > 0 && v.w.pc.Create?
    ensures var v' := RingStep(v, Go).value;
            var c := Chunk(ChunkStart(v.meta.chunkSize, Cur(v.w)), v.meta.chunkSize, 1, true);
            v' == Goto(v.(proc := v.proc.(chunks := v.proc.chunks + [c])), StoreSlot(v.w.pc.head, |v.proc.chunks|)) &&
            ChunkOk(c, v.meta.chunkSize) && InChunk(c, Cur(v.w))
  {
    ChunkEndAbove(v.meta.chunkSize, Cur(v.w));
    ChunkStartStable(v.meta.chunkSize, Cur(v.w));
  }

  lemma CreateRing(v: View)
    requires RingGood(v) && ValidChunkSize(v.meta.chunkSize) && v.w.pc.Create?
    ensures var v' := RingStep(v, Go).value; RingLeft(v') && ProcGuarantee(v.proc, v.w.pc, v'.proc, v'.w.pc)
  {
    CreateMakes(v);
  }

  lemma CreateFailedRing(v: View, ch: Choice)
    requires RingGood(v) && v.meta.chunkSize > 0 && v.w.pc.Create? && ch.SysFail?
    ensures var v' := RingStep(v, ch).value; RingLeft(v') && ProcGuarantee(v.proc, v.w.pc, v'.proc, v'.w.pc)
  {
  }

  /** With at least two slots, the slot after the head is not the head: publishing spares it. */
  lemma StoreNullRing(v: View)
    requires RingGood(v) && v.w.pc.StoreNull?
    ensures RingLeft(RingGo(v)) && ProcGuarantee(v.proc, v.w.pc, RingGo(v).proc, RingGo(v).w.pc)
  {
    NextDiffers(v.proc);
  }

  lemma StoreSlotRing(v: View)
    requires RingGood(v) && v.w.pc.StoreSlot?
    ensures RingLeft(RingGo(v)) && ProcGuarantee(v.proc, v.w.pc, RingGo(v).proc, RingGo(v).w.pc)
  {
    NextDiffers(v.proc);
  }

  /** Advancing finds the head unmoved and publishes the newest chunk. */
  lemma AdvancePublishes(v: View)
    requires RingGood(v) && v.w.pc.AdvanceHead?
    ensures v.w.pc.head == v.proc.head && RingGo(v).proc == v.proc.(head := NextIndex(v.proc, v.proc.head))
    ensures Published(RingGo(v).proc, |v.proc.chunks|) && RingGo(v).w == v.w.(pc := UnlockNew(v.w.pc.chunk))
  {
    NextModulo(v.w.pc.chunk, |v.proc.slots|);
  }

  lemma AdvanceRing(v: View)
    requires RingGood(v) && v.w.pc.AdvanceHead?
    ensures RingLeft(RingGo(v)) && ProcGuarantee(v.proc, v.w.pc, RingGo(v).proc, RingGo(v).w.pc)
  {
    AdvancePublishes(v);
  }

  lemma UnlocksRing(v: View)
    requires RingGood(v) && (v.w.pc.UnlockFound? || v.w.pc.UnlockNew? || v.w.pc.UnlockFailed?)
    ensures RingLeft(RingGo(v)) && ProcGuarantee(v.proc, v.w.pc, RingGo(v).proc, RingGo(v).w.pc)
  {
    if v.w.pc.UnlockFound? {
      UnlockFoundRing(v);
    } else if v.w.pc.UnlockNew? {
      UnlockNewRing(v);
    } else {
      UnlockFailedRing(v);
    }
  }

  lemma StoresRing(v: View)
    requires RingGood(v) && (v.w.pc.StoreNull? || v.w.pc.StoreSlot? || v.w.pc.AdvanceHead?)
    ensures RingLeft(RingGo(v)) && ProcGuarantee(v.proc, v.w.pc, RingGo(v).proc, RingGo(v).w.pc)
  {
    if v.w.pc.StoreNull? {
      StoreNullRing(v);
    } else if v.w.pc.StoreSlot? {
      StoreSlotRing(v);
    } else {
      AdvanceRing(v);
    }
  }

  lemma RingGoRing(v: View)
    requires RingGood(v) && IsRingPc(v.w.pc) && !v.w.pc.LockHead? && !v.w.pc.Create?
    ensures RingLeft(RingGo(v)) && ProcGuarantee(v.proc, v.w.pc, RingGo(v).proc, RingGo(v).w.pc)
  {
    if v.w.pc.Inspect? {
      InspectRing(v);
    } else if v.w.pc.IncFound? {
      IncFoundRing(v);
    } else if v.w.pc.IncNew? {
      IncNewRing(v);
    } else if v.w.pc.LoadHead? || v.w.pc.LoadTail? {
      LoadsRing(v);
    } else if v.w.pc.StoreNull? || v.w.pc.StoreSlot? || v.w.pc.AdvanceHead? {
      StoresRing(v);
    } else {
      UnlocksRing(v);
    }
  }

  lemma RingStepRing(v: View, ch: Choice)
    requires RingGood(v) && ValidChunkSize(v.meta.chunkSize) && IsRingPc(v.w.pc) && RingStep(v, ch).Some?
    ensures var v' := RingStep(v, ch).value; RingLeft(v') && ProcGuarantee(v.proc, v.w.pc, v'.proc, v'.w.pc)
  {
    if v.w.pc.LockHead? {
      LockHeadRing(v, ch);
    } else if v.w.pc.Create? && ch.Go? {
      CreateRing(v);
    } else if v.w.pc.Create? {
      CreateFailedRing(v, ch);
    } else {
      RingGoRing(v);
    }
  }

  lemma CopyRing(v: View)
    requires RingGood(v) && v.meta.chunkSize > 0 && v.w.pc.Copy?
    ensures var v' := CopyPiece(v, v.w.pc.chunk); RingLeft(v') && ProcGuarantee(v.proc, v.w.pc, v'.proc, v'.w.pc)
  {
  }

  lemma DecRing(v: View)
    requires RingGood(v) && v.meta.chunkSize > 0 && v.w.pc.DecRef?
    ensures var v' := WriteStep(v, Go).value; RingLeft(v') && ProcGuarantee(v.proc, v.w.pc, v'.proc, v'.w.pc)
  {
    CountFrame(v, v.w.pc.chunk, -1, if v.w.done < |v.w.data| then LockHead else CleanTail(FromInsert));
  }

  lemma DirectRing(v: View, ch: Choice)
    requires RingGood(v) && v.meta.chunkSize > 0 && v.w.pc.DirectWrite? && WriteStep(v, ch).Some?
    ensures var v' := WriteStep(v, ch).value; RingLeft(v') && ProcGuarantee(v.proc, v.w.pc, v'.proc, v'.w.pc)
  {
    OffRingKeeps(v, WriteStep(v, ch).value);
  }

  /** With a null tail cleaning leaves the ring alone and returns to the insert. */
  lemma CleanLeaves(v: View)
    requires RingGood(v) && IsCleanPc(v.w.pc)
    ensures CleanGo(v) == if v.w.pc.CleanTail? then Goto(v, CleanHead(FromInsert, None)) else Finish(v, Committed)
  {
  }

  lemma CleanRing(v: View)
    requires RingGood(v) && IsCleanPc(v.w.pc)
    ensures RingLeft(CleanGo(v)) && ProcGuarantee(v.proc, v.w.pc, CleanGo(v).proc, CleanGo(v).w.pc)
  {
    CleanLeaves(v);
  }

  /** Any step keeps the ring facts of its thread and what the other threads of the process rely on. */
  lemma RingKeeps(v: View, ch: Choice)
    requires RingGood(v) && ValidChunkSize(v.meta.chunkSize) && LocalNext(v, ch).Some?
    ensures RingLeft(LocalNext(v, ch).value)
    ensures ProcGuarantee(v.proc, v.w.pc, LocalNext(v, ch).value.proc, LocalNext(v, ch).value.w.pc)
  {
    if IsCheckoutPc(v.w.pc) {
      CheckoutStaysOff(v, ch);
      OffRingKeeps(v, LocalNext(v, ch).value);
    } else if IsRingPc(v.w.pc) {
      RingStepRing(v, ch);
    } else if IsCleanPc(v.w.pc) {
      CleanRing(v);
    } else if v.w.pc.DirectWrite? {
      DirectRing(v, ch);
    } else if v.w.pc.Copy? {
      CopyRing(v);
    } else {
      DecRing(v);
    }
  }

  // ----- every run -----------------------------------------------------------------------

  /** Some thread of the process is between `lock_head` and `unlock_head`. */
  ghost predicate HeadHeld(ws: seq<Writer>, p: nat) {
    exists i :: 0 <= i < |ws| && ws[i].pid == p && InHead(ws[i].pc)
  }

  predicate HeadApart(a: Writer, b: Writer) {
    a.pid == b.pid ==> !(InHead(a.pc) && InHead(b.pc))
  }

  predicate ThreadFine(s: State, i: nat)
    requires WellFormed(s) && i < |s.writers|
  {
    HeadFine(s.procs[s.writers[i].pid], s.writers[i])
  }

  /** The ring facts of all processes and threads. */
  ghost predicate RingInv(s: State) {
    WellFormed(s) &&
    (forall p :: 0 <= p < |s.procs| ==> ProcOk(s.procs[p], s.meta.chunkSize) && RingOk(s.procs[p])) &&
    (forall i :: 0 <= i < |s.writers| ==> ThreadFine(s, i)) &&
    (forall i, j :: 0 <= i < |s.writers| && 0 <= j < |s.writers| && i != j ==>
      HeadApart(s.writers[i], s.writers[j])) &&
    (forall p :: 0 <= p < |s.procs| && s.procs[p].headLocked ==> HeadHeld(s.writers, p))
  }

  lemma InitRing(s: State)
    requires Init(s)
    ensures RingInv(s)
  {
    assert forall p :: 0 <= p < |s.procs| ==> FreshProc(s.procs[p]);
  }

  lemma ActingRing(s: State, i: nat, ch: Choice, s': State)
    requires RingInv(s) && StepBy(s, i, ch, s')
    ensures var v := ViewOf(s, i);
            var v' := LocalNext(v, ch).value;
            RingGood(v) && RingLeft(v') && ProcGuarantee(v.proc, v.w.pc, v'.proc, v'.w.pc)
    ensures WellFormed(s') && s'.meta.chunkSize == s.meta.chunkSize
    ensures ViewOf(s', i) == LocalNext(ViewOf(s, i), ch).value
    ensures s' == Install(s, i, LocalNext(ViewOf(s, i), ch).value) && s'.writers[i].pid == s.writers[i].pid
  {
    assert ThreadFine(s, i);
    LocalMoves(ViewOf(s, i), ch);
    RingKeeps(ViewOf(s, i), ch);
  }

  lemma OtherRing(s: State, i: nat, ch: Choice, s': State, j: nat)
    requires RingInv(s) && StepBy(s, i, ch, s') && WellFormed(s') && j < |s.writers| && j != i
    ensures ThreadFine(s', j) && HeadApart(s'.writers[i], s'.writers[j]) && s'.writers[j] == s.writers[j]
  {
    ActingRing(s, i, ch, s');
    var v := ViewOf(s, i);
    var v' := LocalNext(v, ch).value;
    var b := s.writers[j];
    assert ThreadFine(s, j) && HeadApart(v.w, b);
    if b.pid == v.w.pid && !b.pc.Faulted? {
      HeadStable(v.proc, v.w, v'.proc, v'.w, b);
    }
  }

  lemma StepHeadHeld(s: State, i: nat, ch: Choice, s': State, p: nat)
    requires RingInv(s) && StepBy(s, i, ch, s') && p < |s'.procs| && s'.procs[p].headLocked
    ensures HeadHeld(s'.writers, p)
  {
    ActingRing(s, i, ch, s');
    var w' := s'.writers[i];
    if !(p == w'.pid && InHead(w'.pc)) {
      assert s.procs[p].headLocked;
      var j :| 0 <= j < |s.writers| && s.writers[j].pid == p && InHead(s.writers[j].pc);
      assert j != i && s'.writers[j] == s.writers[j];
    }
  }

  lemma StepRing(s: State, i: nat, ch: Choice, s': State)
    requires RingInv(s) && StepBy(s, i, ch, s')
    ensures RingInv(s')
  {
    ActingRing(s, i, ch, s');
    forall j | 0 <= j < |s'.writers| && j != i
      ensures ThreadFine(s', j) && HeadApart(s'.writers[i], s'.writers[j]) && s'.writers[j] == s.writers[j]
    {
      OtherRing(s, i, ch, s', j);
    }
    assert ThreadFine(s', i);
    forall p | 0 <= p < |s'.procs| && s'.procs[p].headLocked
      ensures HeadHeld(s'.writers, p)
    {
      StepHeadHeld(s, i, ch, s', p);
    }
  }

  /** The ring facts hold in every reachable state. */
  lemma {:induction false} RunRing(trace: seq<State>, n: nat)
    requires Run(trace) && n < |trace|
    ensures RingInv(trace[n])
  {
    if n == 0 {
      InitRing(trace[0]);
    } else {
      RunRing(trace, n - 1);
      var i, ch := RunStep(trace, n);
      StepRing(trace[n - 1], i, ch, trace[n]);
    }
  }
}
