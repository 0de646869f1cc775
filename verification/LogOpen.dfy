/**
  Racing openers of one log, starting with no metadata file: the exclusive create decides who
  initialises, everybody else waits for the file to have its size and then for `is_ready`.
*/
module LogOpen {
  import opened Words
  import opened LogAlign

  const VERSION: nat := 1

  /** The metadata file; bytes that have not been stored yet read as zero. */
  datatype MetaFile =
    | NoFile
    | MetaFile(sized: bool, version: nat, pageSize: nat, chunkSize: nat, fileSize: nat, ready: bool)

  datatype DataFile = Missing | Sized(size: nat)

  /** Program counters: `C` for the creator, `W` for those who wait. */
  datatype Pc =
    | Start
    | ExclusiveOpen
    | CSizeMeta
    | CMap
    | CVersion
    | CPageSize
    | CChunkSize
    | COpenData
    | CEmptyData
    | CSizeData
    | CFileSize
    | CReady
    | CFailed
    | Created
    | WSize
    | WMap
    | WDataSize
    | WReady
    | WVersion
    | WData
    | Opened
    | Failed
    | Crashed

  /** Arguments of `mmlog_open`; `least` is the chunk size a waiter read before the log was ready. */
  datatype Opener = Opener(chunkSize: nat, chunkCount: nat, pc: Pc, least: nat)

  datatype State = State(meta: MetaFile, data: DataFile, openers: seq<Opener>)

  datatype Choice = Go | Timeout | SysFail | GrowFile(size: nat) | GrowSize(size: nat)

  predicate IsCreator(pc: Pc) {
    pc.CSizeMeta? || pc.CMap? || pc.CVersion? || pc.CPageSize? || pc.CChunkSize? || pc.COpenData? ||
    pc.CEmptyData? || pc.CSizeData? || pc.CFileSize? || pc.CReady? || pc.CFailed? || pc.Created?
  }

  /** `mmlog_open` returned a handle. */
  predicate Succeeded(pc: Pc) {
    pc.Created? || pc.Opened?
  }

  /** The size test is on 64 bits, the one after it on the 32 bits that are kept. */
  predicate AcceptsArguments(o: Opener) {
    o.chunkSize % PAGE == 0 && o.chunkSize != 0 && o.chunkCount >= 2 && ValidChunkSize(o.chunkSize % WORD32)
  }

  /** The chunk size is a number of pages, not zero in the 32 bits that are kept, and there are two chunks. */
  predicate GoodArguments(o: Opener) {
    o.chunkSize % 4096 == 0 && o.chunkSize % 0x1_0000_0000 != 0 && o.chunkCount >= 2
  }

  lemma ArgumentsKept(o: Opener)
    ensures AcceptsArguments(o) <==> GoodArguments(o)
  {
    var q, r := o.chunkSize / WORD32, o.chunkSize % WORD32;
    assert o.chunkSize == q * WORD32 + r;
    assert r % PAGE == o.chunkSize % PAGE;
  }

  predicate MetaSized(m: MetaFile) {
    m.MetaFile? && m.sized
  }

  /** One step of one opener on the two files. */
  datatype View = View(meta: MetaFile, data: DataFile, o: Opener)

  function To(v: View, pc: Pc): View {
    v.(o := v.o.(pc := pc))
  }

  /** The creator's system calls. */
  predicate MayFail(pc: Pc) {
    pc.CSizeMeta? || pc.CMap? || pc.COpenData? || pc.CEmptyData? || pc.CSizeData?
  }

  /** The creator: stores are plain, system calls may fail. */
  function CreatorStep(v: View, ch: Choice): View
    requires IsCreator(v.o.pc)
  {
    if !v.meta.MetaFile? then To(v, Crashed)
    else if ch.SysFail? && MayFail(v.o.pc) then To(v, CFailed)
    else
      match v.o.pc
      case CSizeMeta => To(v.(meta := v.meta.(sized := true)), CMap)
      case CMap => To(v, CVersion)
      case CVersion => To(v.(meta := v.meta.(version := VERSION)), CPageSize)
      case CPageSize => To(v.(meta := v.meta.(pageSize := PAGE)), CChunkSize)
      case CChunkSize => To(v.(meta := v.meta.(chunkSize := v.o.chunkSize % WORD32)), COpenData)
      case COpenData => To(v.(data := if v.data.Missing? then Sized(0) else v.data), CEmptyData)
      case CEmptyData => To(v.(data := Sized(0)), CSizeData)
      case CSizeData => To(v.(data := Sized(v.o.chunkSize % WORD32)), CFileSize)
      case CFileSize => To(v.(meta := v.meta.(fileSize := v.o.chunkSize % WORD32)), CReady)
      case CReady => To(v.(meta := v.meta.(ready := true)), Created)
      case _ => v
  }

  /** Everybody else; a wait that sees its condition fail may be repeated or time out. */
  function WaiterStep(v: View, ch: Choice): View
    requires !IsCreator(v.o.pc)
  {
    match v.o.pc
    case Start => To(v, if AcceptsArguments(v.o) then ExclusiveOpen else Failed)
    case ExclusiveOpen =>
      if v.meta.NoFile? && !ch.SysFail? then To(v.(meta := MetaFile(false, 0, 0, 0, 0, false)), CSizeMeta)
      else To(v, WSize)
    case WSize => if MetaSized(v.meta) then To(v, WMap) else if ch.Timeout? then To(v, Failed) else v
    case WMap => if ch.SysFail? then To(v, Crashed) else To(v, WDataSize)
    case WDataSize =>
      // read before `is_ready` is checked: may still be zero
      if v.meta.MetaFile? then v.(o := v.o.(pc := WReady, least := v.meta.chunkSize)) else To(v, Crashed)
    case WReady =>
      if v.meta.MetaFile? && v.meta.ready then To(v, WVersion) else if ch.Timeout? then To(v, Failed) else v
    case WVersion =>
      if v.meta.MetaFile? && v.meta.version == VERSION then To(v, WData) else To(v, Failed)
    case WData =>
      if v.data.Sized? && v.data.size >= v.o.least then To(v, Opened) else if ch.Timeout? then To(v, Failed) else v
    case _ => v
  }

  /** A holder of a handle lets the log grow: the file first, and in a later step its recorded size. */
  predicate GrowStep(v: View, ch: Choice, v': View)
    requires ch.GrowFile? || ch.GrowSize?
  {
    Succeeded(v.o.pc) && v.meta.MetaFile? && v.data.Sized? &&
    if ch.GrowFile? then ch.size >= v.data.size && v' == v.(data := Sized(ch.size))
    else v.meta.fileSize <= ch.size <= v.data.size && v' == v.(meta := v.meta.(fileSize := ch.size))
  }

  predicate LocalStep(v: View, ch: Choice, v': View) {
    if ch.GrowFile? || ch.GrowSize? then GrowStep(v, ch, v')
    else v' == if IsCreator(v.o.pc) then CreatorStep(v, ch) else WaiterStep(v, ch)
  }

  predicate StepBy(s: State, i: nat, ch: Choice, s': State) {
    i < |s.openers| && |s'.openers| == |s.openers| &&
    LocalStep(View(s.meta, s.data, s.openers[i]), ch, View(s'.meta, s'.data, s'.openers[i])) &&
    s'.openers == s.openers[i := s'.openers[i]]
  }

  predicate Init(s: State) {
    s.meta.NoFile? && forall i :: 0 <= i < |s.openers| ==> s.openers[i].pc.Start?
  }

  ghost predicate Next(s: State, s': State) {
    exists i: nat, ch: Choice :: StepBy(s, i, ch, s')
  }

  ghost predicate StepAt(trace: seq<State>, n: nat) {
    0 < n < |trace| && Next(trace[n - 1], trace[n])
  }

  ghost predicate Run(trace: seq<State>) {
    |trace| > 0 && Init(trace[0]) &&
    forall n {:trigger StepAt(trace, n)} :: 0 < n < |trace| ==> StepAt(trace, n)
  }

  // ----- the invariant -------------------------------------------------------------------

  /** What `is_ready` promises. */
  predicate Complete(m: MetaFile, d: DataFile) {
    m.MetaFile? && m.sized && m.version == VERSION && m.pageSize == PAGE && ValidChunkSize(m.chunkSize) &&
    m.fileSize >= m.chunkSize && d.Sized? && d.size >= m.fileSize
  }

  /** How far the creator has come; until `Created` the log is not ready. */
  predicate CreatorOk(m: MetaFile, d: DataFile, o: Opener) {
    var cs := o.chunkSize % WORD32;
    IsCreator(o.pc) ==>
      m.MetaFile? && ValidChunkSize(cs) && (m.ready <==> o.pc.Created?) &&
      match o.pc
      case CMap => m.sized
      case CVersion => m.sized
      case CPageSize => m.sized && m.version == VERSION
      case CChunkSize => m.sized && m.version == VERSION && m.pageSize == PAGE
      case COpenData => m.sized && m.version == VERSION && m.pageSize == PAGE && m.chunkSize == cs
      case CEmptyData => m.sized && m.version == VERSION && m.pageSize == PAGE && m.chunkSize == cs
      case CSizeData => m.sized && m.version == VERSION && m.pageSize == PAGE && m.chunkSize == cs
      case CFileSize =>
        m.sized && m.version == VERSION && m.pageSize == PAGE && m.chunkSize == cs && d == Sized(cs)
      case CReady =>
        m.sized && m.version == VERSION && m.pageSize == PAGE && m.chunkSize == cs && m.fileSize == cs && d == Sized(cs)
      case Created => m.chunkSize == cs
      case _ => true
  }

  predicate WaiterOk(m: MetaFile, o: Opener) {
    (o.pc.ExclusiveOpen? ==> AcceptsArguments(o)) &&
    (o.pc.WMap? || o.pc.WDataSize? || o.pc.WReady? ==> MetaSized(m)) &&
    (o.pc.WVersion? || o.pc.WData? || o.pc.Opened? ==> m.MetaFile? && m.ready)
  }

  predicate FilesOk(m: MetaFile, d: DataFile) {
    m.MetaFile? && m.ready ==> Complete(m, d)
  }

  predicate OneCreator(openers: seq<Opener>) {
    forall i, j :: 0 <= i < |openers| && 0 <= j < |openers| && i != j ==>
      !(IsCreator(openers[i].pc) && IsCreator(openers[j].pc))
  }

  /** Whoever made the metadata file is among the openers. */
  ghost predicate HasCreator(s: State) {
    s.meta.MetaFile? ==> exists c :: 0 <= c < |s.openers| && IsCreator(s.openers[c].pc)
  }

  ghost predicate Inv(s: State) {
    FilesOk(s.meta, s.data) && OneCreator(s.openers) && HasCreator(s) &&
    forall i :: 0 <= i < |s.openers| ==> CreatorOk(s.meta, s.data, s.openers[i]) && WaiterOk(s.meta, s.openers[i])
  }

  /** What a step of one opener may do under the feet of another one. */
  predicate Guarantee(v: View, v': View) {
    (v.meta.MetaFile? ==> v'.meta.MetaFile? && (v.meta.sized ==> v'.meta.sized) && (v.meta.ready ==> v'.meta.ready)) &&
    (v.meta.MetaFile? && v.meta.ready ==>
      v'.meta.version == v.meta.version && v'.meta.pageSize == v.meta.pageSize &&
      v'.meta.chunkSize == v.meta.chunkSize) &&
    (IsCreator(v'.o.pc) && !IsCreator(v.o.pc) ==> v.meta.NoFile?) &&
    (IsCreator(v.o.pc) || (v.meta.NoFile? && v'.meta.MetaFile?) ==> IsCreator(v'.o.pc)) &&
    (!IsCreator(v.o.pc) && v.meta.MetaFile? && !v.meta.ready ==> v'.meta == v.meta && v'.data == v.data)
  }

  lemma CreatorKeeps(v: View, ch: Choice)
    requires IsCreator(v.o.pc) && FilesOk(v.meta, v.data) && CreatorOk(v.meta, v.data, v.o)
    ensures var v' := CreatorStep(v, ch);
            FilesOk(v'.meta, v'.data) && CreatorOk(v'.meta, v'.data, v'.o) && WaiterOk(v'.meta, v'.o) &&
            Guarantee(v, v')
  {
  }

  lemma ExclusiveKeeps(v: View, ch: Choice)
    requires v.o.pc.ExclusiveOpen? && FilesOk(v.meta, v.data) && WaiterOk(v.meta, v.o)
    ensures var v' := WaiterStep(v, ch);
            FilesOk(v'.meta, v'.data) && CreatorOk(v'.meta, v'.data, v'.o) && WaiterOk(v'.meta, v'.o) &&
            Guarantee(v, v')
  {
  }

  lemma WaitingKeeps(v: View, ch: Choice)
    requires !IsCreator(v.o.pc) && !v.o.pc.ExclusiveOpen? && WaiterOk(v.meta, v.o)
    ensures var v' := WaiterStep(v, ch);
            v'.meta == v.meta && v'.data == v.data && !IsCreator(v'.o.pc) && WaiterOk(v'.meta, v'.o)
  {
  }

  lemma WaiterKeeps(v: View, ch: Choice)
    requires !IsCreator(v.o.pc) && FilesOk(v.meta, v.data) && WaiterOk(v.meta, v.o)
    ensures var v' := WaiterStep(v, ch);
            FilesOk(v'.meta, v'.data) && CreatorOk(v'.meta, v'.data, v'.o) && WaiterOk(v'.meta, v'.o) &&
            Guarantee(v, v')
  {
    if v.o.pc.ExclusiveOpen? {
      ExclusiveKeeps(v, ch);
    } else {
      WaitingKeeps(v, ch);
    }
  }

  lemma LocalKeeps(v: View, ch: Choice, v': View)
    requires FilesOk(v.meta, v.data) && CreatorOk(v.meta, v.data, v.o) && WaiterOk(v.meta, v.o) && LocalStep(v, ch, v')
    ensures FilesOk(v'.meta, v'.data) && CreatorOk(v'.meta, v'.data, v'.o) && WaiterOk(v'.meta, v'.o)
    ensures Guarantee(v, v')
  {
    if ch.GrowFile? || ch.GrowSize? {
    } else if IsCreator(v.o.pc) {
      CreatorKeeps(v, ch);
    } else {
      WaiterKeeps(v, ch);
    }
  }

  lemma OtherKeeps(v: View, v': View, o: Opener)
    requires Guarantee(v, v') && FilesOk(v'.meta, v'.data)
    requires CreatorOk(v.meta, v.data, o) && WaiterOk(v.meta, o) && !(IsCreator(v.o.pc) && IsCreator(o.pc))
    ensures CreatorOk(v'.meta, v'.data, o) && WaiterOk(v'.meta, o) && !(IsCreator(v'.o.pc) && IsCreator(o.pc))
  {
  }

  lemma StepCreator(s: State, i: nat, ch: Choice, s': State)
    requires Inv(s) && StepBy(s, i, ch, s')
    ensures HasCreator(s')
  {
    LocalKeeps(View(s.meta, s.data, s.openers[i]), ch, View(s'.meta, s'.data, s'.openers[i]));
    if s'.meta.MetaFile? && !IsCreator(s'.openers[i].pc) {
      var c :| 0 <= c < |s.openers| && IsCreator(s.openers[c].pc);
      assert c != i && s'.openers[c] == s.openers[c];
    }
  }

  lemma StepInv(s: State, i: nat, ch: Choice, s': State)
    requires Inv(s) && StepBy(s, i, ch, s')
    ensures Inv(s')
    ensures Guarantee(View(s.meta, s.data, s.openers[i]), View(s'.meta, s'.data, s'.openers[i]))
  {
    var v, v' := View(s.meta, s.data, s.openers[i]), View(s'.meta, s'.data, s'.openers[i]);
    LocalKeeps(v, ch, v');
    StepCreator(s, i, ch, s');
    forall j | 0 <= j < |s'.openers| && j != i
      ensures CreatorOk(s'.meta, s'.data, s'.openers[j]) && WaiterOk(s'.meta, s'.openers[j])
      ensures !(IsCreator(v'.o.pc) && IsCreator(s'.openers[j].pc))
    {
      OtherKeeps(v, v', s.openers[j]);
    }
  }

  lemma {:induction false} RunInv(trace: seq<State>, n: nat)
    requires Run(trace) && n < |trace|
    ensures Inv(trace[n])
  {
    if n > 0 {
      RunInv(trace, n - 1);
      assert StepAt(trace, n);
      var i: nat, ch :| StepBy(trace[n - 1], i, ch, trace[n]);
      StepInv(trace[n - 1], i, ch, trace[n]);
    }
  }

  // ----- the handshake -------------------------------------------------------------------

  /** At most one opener is ever the creator. */
  lemma AtMostOneCreator(trace: seq<State>, n: nat, i: nat, j: nat)
    requires Run(trace) && n < |trace| && i < |trace[n].openers| && j < |trace[n].openers|
    requires IsCreator(trace[n].openers[i].pc) && IsCreator(trace[n].openers[j].pc)
    ensures i == j
  {
    RunInv(trace, n);
  }

  predicate SameFormat(m: MetaFile, m': MetaFile) {
    m.MetaFile? && m.ready ==>
      m'.MetaFile? && m'.ready && m'.version == m.version && m'.pageSize == m.pageSize && m'.chunkSize == m.chunkSize
  }

  lemma {:induction false} FormatIsFixed(trace: seq<State>, m: nat, n: nat)
    requires Run(trace) && m <= n < |trace|
    ensures SameFormat(trace[m].meta, trace[n].meta)
    decreases n
  {
    if m < n {
      FormatIsFixed(trace, m, n - 1);
      RunInv(trace, n - 1);
      assert StepAt(trace, n);
      var i: nat, ch :| StepBy(trace[n - 1], i, ch, trace[n]);
      StepInv(trace[n - 1], i, ch, trace[n]);
    }
  }

  /**
    Whoever gets a handle, whenever, finds version, page size, chunk size and file size stored
    and the data file at least that long, although the size test it made itself may have been
    against a chunk size read too early. Some opener has created the log, and the chunk size is the
    one it asked for.
  */
  lemma OpenersSeeCompleteLog(trace: seq<State>, n: nat, i: nat) returns (c: nat)
    requires Run(trace) && n < |trace| && i < |trace[n].openers| && Succeeded(trace[n].openers[i].pc)
    ensures Complete(trace[n].meta, trace[n].data) && trace[n].meta.ready
    ensures c < |trace[n].openers| && trace[n].openers[c].pc.Created?
    ensures trace[n].meta.chunkSize == trace[n].openers[c].chunkSize % WORD32
  {
    RunInv(trace, n);
    c :| 0 <= c < |trace[n].openers| && IsCreator(trace[n].openers[c].pc);
    assert CreatorOk(trace[n].meta, trace[n].data, trace[n].openers[c]);
  }

  /** An opener crashes when, and only when, the `mmap` of the metadata fails under it. */
  lemma CrashesAtMapOnly(trace: seq<State>, n: nat, i: nat, ch: Choice)
    requires Run(trace) && 0 < n < |trace| && StepBy(trace[n - 1], i, ch, trace[n])
    ensures trace[n].openers[i].pc.Crashed? <==>
            trace[n - 1].openers[i].pc.Crashed? || (trace[n - 1].openers[i].pc.WMap? && ch.SysFail?)
  {
    RunInv(trace, n - 1);
    var s := trace[n - 1];
    assert CreatorOk(s.meta, s.data, s.openers[i]) && WaiterOk(s.meta, s.openers[i]);
    CrashStep(View(s.meta, s.data, s.openers[i]), ch, View(trace[n].meta, trace[n].data, trace[n].openers[i]));
  }

  lemma CrashStep(v: View, ch: Choice, v': View)
    requires CreatorOk(v.meta, v.data, v.o) && WaiterOk(v.meta, v.o) && LocalStep(v, ch, v')
    ensures v'.o.pc.Crashed? <==> v.o.pc.Crashed? || (v.o.pc.WMap? && ch.SysFail?)
  {
  }

  /** The creator's system calls: sizing and mapping the metadata, opening, emptying and sizing the data file. */
  predicate AtSystemCall(pc: Pc) {
    pc == CSizeMeta || pc == CMap || pc == COpenData || pc == CEmptyData || pc == CSizeData
  }

  /** A waiter whose condition does not hold yet. */
  predicate Waiting(m: MetaFile, d: DataFile, o: Opener) {
    (o.pc.WSize? && !(m.MetaFile? && m.sized)) || (o.pc.WReady? && !(m.MetaFile? && m.ready)) ||
    (o.pc.WData? && !(d.Sized? && d.size >= o.least))
  }

  lemma FailStep(v: View, ch: Choice, v': View)
    requires FilesOk(v.meta, v.data) && CreatorOk(v.meta, v.data, v.o) && WaiterOk(v.meta, v.o) && LocalStep(v, ch, v')
    ensures v'.o.pc.CFailed? <==> v.o.pc.CFailed? || (AtSystemCall(v.o.pc) && ch.SysFail?)
    ensures v'.o.pc.Failed? <==>
            v.o.pc.Failed? || (v.o.pc.Start? && !GoodArguments(v.o) && !ch.GrowFile? && !ch.GrowSize?) ||
            (Waiting(v.meta, v.data, v.o) && ch.Timeout?)
  {
    ArgumentsKept(v.o);
  }

  /**
    In every run the creator fails exactly where one of its system calls does, and any other opener
    exactly with bad arguments or by a timeout of a wait whose condition does not hold; never on the
    version.
  */
  lemma FailuresHaveCauses(trace: seq<State>, n: nat, i: nat, ch: Choice)
    requires Run(trace) && 0 < n < |trace| && StepBy(trace[n - 1], i, ch, trace[n])
    ensures var s, o := trace[n - 1], trace[n - 1].openers[i];
            trace[n].openers[i].pc.CFailed? <==> o.pc.CFailed? || (AtSystemCall(o.pc) && ch.SysFail?)
    ensures var s, o := trace[n - 1], trace[n - 1].openers[i];
            trace[n].openers[i].pc.Failed? <==>
            o.pc.Failed? || (o.pc.Start? && !GoodArguments(o) && !ch.GrowFile? && !ch.GrowSize?) ||
            (Waiting(s.meta, s.data, o) && ch.Timeout?)
  {
    RunInv(trace, n - 1);
    var s, t := trace[n - 1], trace[n];
    assert CreatorOk(s.meta, s.data, s.openers[i]) && WaiterOk(s.meta, s.openers[i]);
    FailStep(View(s.meta, s.data, s.openers[i]), ch, View(t.meta, t.data, t.openers[i]));
  }

  /** Handles obtained at different times agree on the format, whatever each caller passed. */
  lemma HandlesAgree(trace: seq<State>, m: nat, i: nat, n: nat, j: nat)
    requires Run(trace) && m <= n < |trace|
    requires i < |trace[m].openers| && Succeeded(trace[m].openers[i].pc)
    requires j < |trace[n].openers| && Succeeded(trace[n].openers[j].pc)
    ensures trace[m].meta.MetaFile? && trace[n].meta.MetaFile?
    ensures trace[m].meta.chunkSize == trace[n].meta.chunkSize > 0 && trace[m].meta.version == trace[n].meta.version
  {
    var c := OpenersSeeCompleteLog(trace, m, i);
    var d := OpenersSeeCompleteLog(trace, n, j);
    FormatIsFixed(trace, m, n);
  }

  lemma FailedStays(s: State, i: nat, ch: Choice, s': State, c: nat)
    requires StepBy(s, i, ch, s') && c < |s.openers| && s.openers[c].pc.CFailed? && s.meta.MetaFile?
    ensures c < |s'.openers| && s'.openers[c].pc.CFailed?
  {
  }

  /** If the creator fails, nobody ever gets a handle: not before, not after. */
  lemma {:induction false} FailedCreatorBlocks(trace: seq<State>, m: nat, c: nat, n: nat, j: nat)
    requires Run(trace) && m <= n < |trace|
    requires c < |trace[m].openers| && trace[m].openers[c].pc.CFailed?
    ensures c < |trace[n].openers| && trace[n].openers[c].pc.CFailed?
    ensures j < |trace[n].openers| ==> !Succeeded(trace[n].openers[j].pc)
    decreases n
  {
    RunInv(trace, n);
    if m < n {
      FailedCreatorBlocks(trace, m, c, n - 1, j);
      RunInv(trace, n - 1);
      assert StepAt(trace, n);
      var i: nat, ch :| StepBy(trace[n - 1], i, ch, trace[n]);
      FailedStays(trace[n - 1], i, ch, trace[n], c);
    }
  }

  // ----- without failures ----------------------------------------------------------------

  /** One step of one opener with nothing failing. */
  function Step(v: View): View {
    if IsCreator(v.o.pc) then CreatorStep(v, Go) else WaiterStep(v, Go)
  }

  /** `n` steps with nobody else moving. */
  function Alone(v: View, n: nat): View
    decreases n
  {
    if n == 0 then v else Alone(Step(v), n - 1)
  }

  lemma Twice(v: View)
    ensures Alone(v, 2) == Step(Step(v))
  {
    assert Alone(Step(v), 1) == Alone(Step(Step(v)), 0);
  }

  lemma {:induction false} AloneJoins(v: View, m: nat, n: nat)
    ensures Alone(v, m + n) == Alone(Alone(v, m), n)
    decreases m
  {
    if m > 0 {
      AloneJoins(Step(v), m - 1, n);
    }
  }

  lemma Fourth(v: View)
    ensures Alone(v, 4) == Step(Step(Step(Step(v))))
  {
    AloneJoins(v, 2, 2);
    Twice(v);
    Twice(Step(Step(v)));
  }

  /** Other arguments are refused before any file is touched; these are not. */
  lemma ArgumentsIff(v: View, ch: Choice)
    requires v.o.pc.Start?
    ensures WaiterStep(v, ch) == v.(o := v.o.(pc := if GoodArguments(v.o) then ExclusiveOpen else Failed))
  {
    ArgumentsKept(v.o);
  }

  /** The exclusive create, and the metadata file given its size and mapped. */
  lemma CreatorBegins(v: View)
    requires v.meta.NoFile? && v.o.pc.Start? && GoodArguments(v.o)
    ensures Alone(v, 4) == View(MetaFile(true, 0, 0, 0, 0, false), v.data, v.o.(pc := CVersion))
  {
    ArgumentsKept(v.o);
    Fourth(v);
  }

  lemma CreatorStores(v: View)
    requires v.meta.MetaFile? && v.o.pc.CVersion?
    ensures Alone(v, 4) ==
            View(v.meta.(version := VERSION, pageSize := PAGE, chunkSize := v.o.chunkSize % WORD32),
                 if v.data.Missing? then Sized(0) else v.data, v.o.(pc := CEmptyData))
  {
    var a := To(v.(meta := v.meta.(version := VERSION)), CPageSize);
    var b := To(a.(meta := a.meta.(pageSize := PAGE)), CChunkSize);
    var c := To(b.(meta := b.meta.(chunkSize := v.o.chunkSize % WORD32)), COpenData);
    assert Step(v) == a;
    assert Step(a) == b;
    assert Step(b) == c;
    Fourth(v);
  }

  lemma CreatorFinishes(v: View)
    requires v.meta.MetaFile? && v.o.pc.CEmptyData?
    ensures Alone(v, 4) ==
            View(v.meta.(fileSize := v.o.chunkSize % WORD32, ready := true), Sized(v.o.chunkSize % WORD32),
                 v.o.(pc := Created))
  {
    var a := To(v.(data := Sized(0)), CSizeData);
    var b := To(a.(data := Sized(v.o.chunkSize % WORD32)), CFileSize);
    var c := To(b.(meta := b.meta.(fileSize := v.o.chunkSize % WORD32)), CReady);
    assert Step(v) == a;
    assert Step(a) == b;
    assert Step(b) == c;
    Fourth(v);
  }

  lemma CreatorGoesOn(v: View)
    requires v.meta.MetaFile? && v.o.pc.CVersion?
    ensures var cs := v.o.chunkSize % WORD32;
            Alone(v, 8) == View(MetaFile(v.meta.sized, VERSION, PAGE, cs, cs, true), Sized(cs), v.o.(pc := Created))
  {
    AloneJoins(v, 4, 4);
    CreatorStores(v);
    CreatorFinishes(Alone(v, 4));
  }

  /** The first opener with valid arguments creates a complete log, clobbering an old data file. */
  lemma FirstOpenerCreates(v: View)
    requires v.meta.NoFile? && v.o.pc.Start? && GoodArguments(v.o)
    ensures var u, cs := Alone(v, 12), v.o.chunkSize % WORD32;
            u.o.pc.Created? && Complete(u.meta, u.data) && u.meta.ready && u.meta.chunkSize == u.meta.fileSize == cs &&
            u.data == Sized(cs)
  {
    AloneJoins(v, 4, 8);
    CreatorBegins(v);
    ArgumentsKept(v.o);
    CreatorGoesOn(Alone(v, 4));
  }

  lemma WaiterMaps(v: View)
    requires MetaSized(v.meta) && v.o.pc.Start? && GoodArguments(v.o)
    ensures Alone(v, 4) == v.(o := v.o.(pc := WDataSize))
  {
    ArgumentsKept(v.o);
    assert Step(v) == To(v, ExclusiveOpen);
    assert Step(To(v, ExclusiveOpen)) == To(v, WSize);
    assert Step(To(v, WSize)) == To(v, WMap);
    Fourth(v);
  }

  /** The version decides, and then the size of the data file. */
  predicate Usable(m: MetaFile, d: DataFile) {
    m.MetaFile? && m.version == 1 && d.Sized? && d.size >= m.chunkSize
  }

  lemma WaiterChecks(v: View)
    requires v.meta.MetaFile? && v.meta.ready && v.o.pc.WDataSize?
    ensures Alone(v, 4) ==
            v.(o := v.o.(pc := if v.meta.version != 1 then Failed else if Usable(v.meta, v.data) then Opened else WData,
                         least := v.meta.chunkSize))
  {
    var a := v.(o := v.o.(pc := WReady, least := v.meta.chunkSize));
    assert Step(v) == a;
    assert Step(a) == To(a, WVersion);
    assert Step(To(a, WVersion)) == To(a, if v.meta.version == 1 then WData else Failed);
    Fourth(v);
  }

  /**
    A later opener with valid arguments gets a handle exactly if the metadata it finds has this version
    and the data file is at least a chunk long, whoever wrote them. Another version is refused, a short
    data file is waited for, and neither file is changed.
  */
  lemma LaterOpenerOpens(v: View)
    requires MetaSized(v.meta) && v.meta.ready && v.o.pc.Start? && GoodArguments(v.o)
    ensures Alone(v, 8).o.pc == if v.meta.version != 1 then Failed else if Usable(v.meta, v.data) then Opened else WData
    ensures Alone(v, 8).meta == v.meta && Alone(v, 8).data == v.data
    ensures Complete(v.meta, v.data) ==> Alone(v, 8).o.pc.Opened?
  {
    AloneJoins(v, 4, 4);
    WaiterMaps(v);
    WaiterChecks(Alone(v, 4));
  }
}
