/**
  Reference counts, over every run: one for the ring, one for every thread between its increment
  and its decrement. A thread that faults in between never undoes its increment.
*/
module LogRefs {
  import opened Words
  import opened LogAlign
  import opened LogModel
  import opened LogInvariant
  import opened LogHistory
  import opened LogRing

  function Holds(w: Writer, p: nat, c: nat): nat {
    if w.pid == p && Held(w.pc) == Some(c) then 1 else 0
  }

  /** How many threads of process `p` hold chunk `c`. */
  function Holders(ws: seq<Writer>, p: nat, c: nat): nat {
    if ws == [] then 0 else Holds(ws[0], p, c) + Holders(ws[1..], p, c)
  }

  lemma {:induction false} HoldersUpdate(ws: seq<Writer>, i: nat, w: Writer, p: nat, c: nat)
    requires i < |ws|
    ensures Holders(ws[i := w], p, c) == Holders(ws, p, c) - Holds(ws[i], p, c) + Holds(w, p, c)
  {
    if i == 0 {
      assert ws[0 := w][1..] == ws[1..];
    } else {
      assert ws[i := w][1..] == ws[1..][i - 1 := w];
      HoldersUpdate(ws[1..], i - 1, w, p, c);
    }
  }

  lemma {:induction false} HoldersBounds(ws: seq<Writer>, i: nat, p: nat, c: nat)
    requires i < |ws|
    ensures Holds(ws[i], p, c) <= Holders(ws, p, c) <= |ws|
  {
    if |ws| > 1 {
      if i > 0 {
        HoldersBounds(ws[1..], i - 1, p, c);
      } else {
        HoldersBounds(ws[1..], 0, p, c);
      }
    }
  }

  lemma {:induction false} NoHolders(ws: seq<Writer>, p: nat, c: nat)
    requires forall i :: 0 <= i < |ws| ==> Holds(ws[i], p, c) == 0
    ensures Holders(ws, p, c) == 0
  {
    if ws != [] {
      assert forall i :: 0 <= i < |ws[1..]| ==> ws[1..][i] == ws[i + 1];
      NoHolders(ws[1..], p, c);
    }
  }

  function Ind(pc: Pc, c: nat): nat {
    if Held(pc) == Some(c) then 1 else 0
  }

  /** A thread that has faulted counts once, whatever it held. */
  function Faulteds(ws: seq<Writer>): nat {
    if ws == [] then 0 else (if ws[0].pc.Faulted? then 1 else 0) + Faulteds(ws[1..])
  }

  function Lost(pc: Pc): nat {
    if pc.Faulted? then 1 else 0
  }

  lemma {:induction false} FaultedsUpdate(ws: seq<Writer>, i: nat, w: Writer)
    requires i < |ws|
    ensures Faulteds(ws[i := w]) == Faulteds(ws) - Lost(ws[i].pc) + Lost(w.pc)
  {
    if i == 0 {
      assert ws[0 := w][1..] == ws[1..];
    } else {
      assert ws[i := w][1..] == ws[1..][i - 1 := w];
      FaultedsUpdate(ws[1..], i - 1, w);
    }
  }

  lemma {:induction false} NoneFaulted(ws: seq<Writer>)
    requires forall i :: 0 <= i < |ws| ==> !ws[i].pc.Faulted?
    ensures Faulteds(ws) == 0
  {
    if ws != [] {
      NoneFaulted(ws[1..]);
    }
  }

  /** Holders and faulted threads are different threads. */
  lemma {:induction false} HoldersAndFaulted(ws: seq<Writer>, p: nat, c: nat)
    ensures Holders(ws, p, c) + Faulteds(ws) <= |ws|
  {
    if ws != [] {
      HoldersAndFaulted(ws[1..], p, c);
    }
  }

  // ----- one step of one thread ----------------------------------------------------------

  /** The counts move exactly with the holder set of the acting thread; a new chunk starts at one. */
  predicate RefsMove(v: View, v': View) {
    |v.proc.chunks| <= |v'.proc.chunks| &&
    (forall c :: 0 <= c < |v.proc.chunks| ==> RefMoves(v, v', c)) &&
    (forall c :: |v.proc.chunks| <= c < |v'.proc.chunks| ==>
      v'.proc.chunks[c].refs == 1 && Ind(v'.w.pc, c) == 0 && Ind(v.w.pc, c) == 0)
  }

  /** A step into a fault changes no count. */
  predicate RefMoves(v: View, v': View, c: nat)
    requires c < |v.proc.chunks| <= |v'.proc.chunks|
  {
    v'.proc.chunks[c].refs ==
    if v'.w.pc.Faulted? then v.proc.chunks[c].refs else v.proc.chunks[c].refs + Ind(v'.w.pc, c) - Ind(v.w.pc, c)
  }

  /** The counts before a step: positive for a chunk the thread holds, and with room for one more. */
  predicate RefsReady(v: View) {
    forall c :: 0 <= c < |v.proc.chunks| ==>
      Ind(v.w.pc, c) <= v.proc.chunks[c].refs && v.proc.chunks[c].refs + 1 < WORD32
  }

  lemma SameChunks(v: View, v': View)
    requires v'.proc.chunks == v.proc.chunks && (v'.w.pc.Faulted? || Held(v'.w.pc) == Held(v.w.pc))
    ensures RefsMove(v, v')
  {
  }

  lemma CheckoutRefs(v: View, ch: Choice)
    requires ValidChunkSize(v.meta.chunkSize) && IsCheckoutPc(v.w.pc) && CheckoutStep(v, ch).Some?
    ensures RefsMove(v, CheckoutStep(v, ch).value)
  {
    CheckoutStaysOff(v, ch);
    SameChunks(v, CheckoutStep(v, ch).value);
  }

  lemma CountRefs(v: View, c: nat, delta: int, pc: Pc)
    requires RefsReady(v) && c < |v.proc.chunks| && (delta == 1 || delta == -1) && !pc.Faulted?
    requires Held(pc) == if delta == 1 then Some(c) else None
    requires Held(v.w.pc) == if delta == -1 then Some(c) else None
    ensures RefsMove(v, Count(v, c, delta, pc))
  {
    var r := v.proc.chunks[c].refs;
    assert 0 <= r + delta < WORD32;
    assert (r + delta) % WORD32 == r + delta;
  }

  lemma CreateRefs(v: View)
    requires RingGood(v) && ValidChunkSize(v.meta.chunkSize) && v.w.pc.Create?
    ensures RefsMove(v, RingStep(v, Go).value)
  {
    CreateMakes(v);
  }

  /** The steps of the ring that count nothing and create nothing. */
  lemma RingFrame(v: View, ch: Choice)
    requires RingGood(v) && ValidChunkSize(v.meta.chunkSize) && IsRingPc(v.w.pc) && RingStep(v, ch).Some?
    requires !v.w.pc.IncFound? && !v.w.pc.IncNew? && !(v.w.pc.Create? && ch.Go?)
    ensures RefsMove(v, RingStep(v, ch).value)
  {
    SameChunks(v, RingStep(v, ch).value);
  }

  lemma RingRefs(v: View, ch: Choice)
    requires RingGood(v) && RefsReady(v) && ValidChunkSize(v.meta.chunkSize)
    requires IsRingPc(v.w.pc) && RingStep(v, ch).Some?
    ensures RefsMove(v, RingStep(v, ch).value)
  {
    if v.w.pc.IncFound? {
      CountRefs(v, v.w.pc.chunk, 1, UnlockFound(v.w.pc.chunk));
    } else if v.w.pc.IncNew? {
      CountRefs(v, v.w.pc.chunk, 1, Copy(v.w.pc.chunk));
    } else if v.w.pc.Create? && ch.Go? {
      CreateRefs(v);
    } else {
      RingFrame(v, ch);
    }
  }

  lemma DecRefs(v: View)
    requires RingGood(v) && RefsReady(v) && v.meta.chunkSize > 0 && v.w.pc.DecRef?
    ensures RefsMove(v, WriteStep(v, Go).value)
  {
    CountRefs(v, v.w.pc.chunk, -1, if v.w.done < |v.w.data| then LockHead else CleanTail(FromInsert));
  }

  lemma StoreRefs(v: View, ch: Choice)
    requires v.meta.chunkSize > 0 && (v.w.pc.DirectWrite? || v.w.pc.Copy?) && WriteStep(v, ch).Some?
    ensures RefsMove(v, WriteStep(v, ch).value)
  {
    SameChunks(v, WriteStep(v, ch).value);
  }

  lemma CleanRefs(v: View)
    requires RingGood(v) && IsCleanPc(v.w.pc)
    ensures RefsMove(v, CleanGo(v))
  {
    CleanLeaves(v);
    SameChunks(v, CleanGo(v));
  }

  lemma StepRefs(v: View, ch: Choice)
    requires RingGood(v) && RefsReady(v) && ValidChunkSize(v.meta.chunkSize) && LocalNext(v, ch).Some?
    ensures RefsMove(v, LocalNext(v, ch).value)
  {
    if IsCheckoutPc(v.w.pc) {
      CheckoutRefs(v, ch);
    } else if IsRingPc(v.w.pc) {
      RingRefs(v, ch);
    } else if v.w.pc.DecRef? {
      DecRefs(v);
    } else if IsWritePc(v.w.pc) {
      StoreRefs(v, ch);
    } else {
      CleanRefs(v);
    }
  }

  // ----- every run -----------------------------------------------------------------------

  /** One for the ring, one for each holder, and at most one more for each faulted thread. */
  predicate Counted(ws: seq<Writer>, p: nat, c: nat, refs: nat) {
    1 + Holders(ws, p, c) <= refs <= 1 + Holders(ws, p, c) + Faulteds(ws)
  }

  predicate RefsInv(s: State) {
    |s.writers| + 2 < WORD32 &&
    forall p, c :: 0 <= p < |s.procs| && 0 <= c < |s.procs[p].chunks| ==>
      Counted(s.writers, p, c, s.procs[p].chunks[c].refs)
  }

  lemma ThreadRefsReady(s: State, i: nat)
    requires RefsInv(s) && WellFormed(s) && i < |s.writers|
    ensures RefsReady(ViewOf(s, i))
  {
    var v := ViewOf(s, i);
    forall c | 0 <= c < |v.proc.chunks|
      ensures Ind(v.w.pc, c) <= v.proc.chunks[c].refs && v.proc.chunks[c].refs + 1 < WORD32
    {
      assert Counted(s.writers, v.w.pid, c, v.proc.chunks[c].refs);
      HoldersBounds(s.writers, i, v.w.pid, c);
      HoldersAndFaulted(s.writers, v.w.pid, c);
    }
  }

  lemma FreshChunkUnheld(s: State, p: nat, c: nat)
    requires RingInv(s) && p < |s.procs| && |s.procs[p].chunks| <= c
    ensures Holders(s.writers, p, c) == 0
  {
    forall j | 0 <= j < |s.writers|
      ensures Holds(s.writers[j], p, c) == 0
    {
      assert ThreadFine(s, j);
    }
    NoHolders(s.writers, p, c);
  }

  lemma StepRefsAt(s: State, i: nat, v': View, s': State, p: nat, c: nat)
    requires RingInv(s) && RefsInv(s) && i < |s.writers| && s' == Install(s, i, v') && !s.writers[i].pc.Faulted?
    requires RefsMove(ViewOf(s, i), v') && v'.w.pid == s.writers[i].pid
    requires p < |s'.procs| && c < |s'.procs[p].chunks|
    ensures Counted(s'.writers, p, c, s'.procs[p].chunks[c].refs)
  {
    HoldersUpdate(s.writers, i, v'.w, p, c);
    FaultedsUpdate(s.writers, i, v'.w);
    if c >= |s.procs[p].chunks| {
      FreshChunkUnheld(s, p, c);
    } else {
      assert Counted(s.writers, p, c, s.procs[p].chunks[c].refs);
      if p == v'.w.pid {
        assert RefMoves(ViewOf(s, i), v', c);
      }
    }
  }

  lemma StepCounts(s: State, i: nat, ch: Choice, s': State)
    requires RingInv(s) && RefsInv(s) && StepBy(s, i, ch, s')
    ensures RefsInv(s')
  {
    ActingRing(s, i, ch, s');
    ThreadRefsReady(s, i);
    StepRefs(ViewOf(s, i), ch);
    forall p, c | 0 <= p < |s'.procs| && 0 <= c < |s'.procs[p].chunks|
      ensures Counted(s'.writers, p, c, s'.procs[p].chunks[c].refs)
    {
      StepRefsAt(s, i, LocalNext(ViewOf(s, i), ch).value, s', p, c);
    }
  }

  /** The counts are right in every reachable state. */
  lemma {:induction false} RunRefs(trace: seq<State>, n: nat)
    requires Run(trace) && n < |trace|
    ensures RefsInv(trace[n])
  {
    if n == 0 {
      assert forall p :: 0 <= p < |trace[0].procs| ==> FreshProc(trace[0].procs[p]);
    } else {
      RunRing(trace, n - 1);
      RunRefs(trace, n - 1);
      var i, ch := RunStep(trace, n);
      StepCounts(trace[n - 1], i, ch, trace[n]);
    }
  }
}
