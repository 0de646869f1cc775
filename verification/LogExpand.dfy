/**
  The expand lock and the panic flag, over every run: also where the rounding of sizes fails,
  growing is exclusive, and a panic is final.
*/
module LogExpand {
  import opened LogAlign
  import opened LogModel
  import opened LogInvariant
  import opened LogHistory

  /** What the other threads may rely on when a thread steps from `pc` to `pc'`. */
  predicate LockGuarantee(m: Meta, pc: Pc, m': Meta, pc': Pc) {
    (m.panicked ==> m'.panicked && m'.fileSize == m.fileSize) &&
    (!InExpand(pc) ==> m'.fileSize == m.fileSize && m'.panicked == m.panicked &&
                       (m.locked ==> m'.locked && !InExpand(pc'))) &&
    (!InExpand(pc') && m'.locked && !m'.panicked ==> m.locked && !InExpand(pc))
  }

  lemma CheckoutLocks(v: View, ch: Choice)
    requires ValidChunkSize(v.meta.chunkSize) && ExpandOk(v.meta, v.w)
    requires IsCheckoutPc(v.w.pc) && CheckoutStep(v, ch).Some?
    ensures var v' := CheckoutStep(v, ch).value;
            ExpandOk(v'.meta, v'.w) && LockGuarantee(v.meta, v.w.pc, v'.meta, v'.w.pc)
  {
  }

  /** Past the checkout nobody touches lock, flag or recorded size. */
  lemma OthersPass(v: View, ch: Choice)
    requires ValidChunkSize(v.meta.chunkSize) && |v.proc.slots| > 0 && !IsCheckoutPc(v.w.pc) && LocalNext(v, ch).Some?
    ensures var v' := LocalNext(v, ch).value; v'.meta == v.meta && !InExpand(v'.w.pc)
  {
    if IsRingPc(v.w.pc) {
      RingPasses(v, ch);
    } else if IsCleanPc(v.w.pc) {
      CleanPasses(v);
    }
  }

  lemma RingPasses(v: View, ch: Choice)
    requires v.meta.chunkSize > 0 && |v.proc.slots| > 0 && IsRingPc(v.w.pc) && RingStep(v, ch).Some?
    ensures var v' := RingStep(v, ch).value; v'.meta == v.meta && !InExpand(v'.w.pc)
  {
  }

  lemma CleanPasses(v: View)
    requires |v.proc.slots| > 0 && IsCleanPc(v.w.pc)
    ensures CleanGo(v).meta == v.meta && !InExpand(CleanGo(v).w.pc)
  {
  }

  lemma LocalLocks(v: View, ch: Choice)
    requires ValidChunkSize(v.meta.chunkSize) && |v.proc.slots| > 0 && ExpandOk(v.meta, v.w) && LocalNext(v, ch).Some?
    ensures var v' := LocalNext(v, ch).value;
            ExpandOk(v'.meta, v'.w) && LockGuarantee(v.meta, v.w.pc, v'.meta, v'.w.pc)
  {
    if IsCheckoutPc(v.w.pc) {
      CheckoutLocks(v, ch);
    } else {
      OthersPass(v, ch);
    }
  }

  ghost predicate ExpandHeld(ws: seq<Writer>) {
    exists i :: 0 <= i < |ws| && InExpand(ws[i].pc)
  }

  /** One thread of all processes grows the file; the lock is left behind by a panic alone. */
  ghost predicate ExpandInv(s: State) {
    (forall i :: 0 <= i < |s.writers| ==> ExpandOk(s.meta, s.writers[i])) &&
    (forall i, j :: 0 <= i < |s.writers| && 0 <= j < |s.writers| && i != j ==>
      !(InExpand(s.writers[i].pc) && InExpand(s.writers[j].pc))) &&
    (s.meta.locked && !s.meta.panicked ==> ExpandHeld(s.writers))
  }

  /** What the acting thread of a state does. */
  lemma ActingLocks(s: State, i: nat, ch: Choice, s': State)
    requires ExpandInv(s) && StepBy(s, i, ch, s')
    ensures i < |s'.writers| == |s.writers|
    ensures forall j :: 0 <= j < |s.writers| && j != i ==> s'.writers[j] == s.writers[j]
    ensures ExpandOk(s'.meta, s'.writers[i]) && LockGuarantee(s.meta, s.writers[i].pc, s'.meta, s'.writers[i].pc)
  {
    LocalLocks(ViewOf(s, i), ch);
  }

  lemma StepHeld(s: State, i: nat, ch: Choice, s': State)
    requires ExpandInv(s) && StepBy(s, i, ch, s') && s'.meta.locked && !s'.meta.panicked
    ensures ExpandHeld(s'.writers)
  {
    ActingLocks(s, i, ch, s');
    if !InExpand(s'.writers[i].pc) {
      var j :| 0 <= j < |s.writers| && InExpand(s.writers[j].pc);
      assert j != i && s'.writers[j] == s.writers[j];
    }
  }

  lemma StepExpand(s: State, i: nat, ch: Choice, s': State)
    requires ExpandInv(s) && StepBy(s, i, ch, s')
    ensures ExpandInv(s') && (s.meta.panicked ==> s'.meta.panicked && s'.meta.fileSize == s.meta.fileSize)
  {
    ActingLocks(s, i, ch, s');
    if s'.meta.locked && !s'.meta.panicked {
      StepHeld(s, i, ch, s');
    }
  }

  /** The lock facts hold in every reachable state. */
  lemma {:induction false} RunExpand(trace: seq<State>, n: nat)
    requires Run(trace) && n < |trace|
    ensures ExpandInv(trace[n])
  {
    if n > 0 {
      RunExpand(trace, n - 1);
      var i, ch := RunStep(trace, n);
      StepExpand(trace[n - 1], i, ch, trace[n]);
    }
  }

  /** Once set, the panic flag stays set and the recorded size stays what it is. */
  lemma {:induction false} RunPanic(trace: seq<State>, m: nat, n: nat)
    requires Run(trace) && m <= n < |trace| && trace[m].meta.panicked
    ensures trace[n].meta.panicked && trace[n].meta.fileSize == trace[m].meta.fileSize
    decreases n
  {
    if m < n {
      RunPanic(trace, m, n - 1);
      RunExpand(trace, n - 1);
      var i, ch := RunStep(trace, n);
      StepExpand(trace[n - 1], i, ch, trace[n]);
    }
  }
}
