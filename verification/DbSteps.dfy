/** Several processes on one database.  Each step is one lock call, one read or one write
    of the library; the kernel's lock table is read off the program counters. */
module DbSteps {
  import opened Basics
  import opened DbFormat

  datatype Flag = Insert | Replace | StoreAny

  datatype Op = FetchOp(key: string) | DeleteOp(key: string) | StoreOp(key: string, data: string, flag: Flag)

  datatype Result = NoResult | Data(value: Option<string>) | Code(code: int)

  const SLOTS := NHASH + 1

  /** A place that holds a pointer: the header slot k, or the front of a record. */
  datatype Slot = Head(k: nat) | Link(off: nat)

  /** Index file by offset, its length, and the bytes of the data file. */
  datatype Disk = Disk(heads: seq<nat>, recs: map<nat, Rec>, end: nat, dat: string)

  datatype Pc =
    | Idle | WantChain | ReadHead | Walk | FetchDat | StOver
    // _db_dodelete
    | WantFreeD | DelDat | DelReadFree | DelIdx | DelFreeHead | DelChain | DelUnlockFree
    // db_store of a new key, and _db_findfree
    | StReadHead | WantFreeS | SReadFree | SWalk | STake | SUnlockHit | SUnlockMiss
    // reuse of a free record
    | SDat | SIdx
    // append to both files
    | AReadHead | WantDat | ADat | AUnlockDat | WantIdx | AIdx | AUnlockIdx
    | SLink | Unlock

  /** One process: where it is, its call, and the fields of its handle. */
  datatype Proc = Proc(pc: Pc, op: Op, off: nat, ptroff: Slot, rec: Rec, ptrval: nat,
                       foff: nat, saveoff: Slot, datoff: nat, res: Result)

  datatype State = State(disk: Disk, procs: seq<Proc>)

  function Bucket(op: Op): (k: nat)
    ensures 1 <= k < SLOTS
  {
    1 + Hash(op.key)
  }

  function DataOf(op: Op): string { if op.StoreOp? then op.data else "" }

  // ---------------------------------------------------------------- locks

  predicate HoldsChain(p: Proc) { !p.pc.Idle? && !p.pc.WantChain? }

  predicate WritesChain(p: Proc) { HoldsChain(p) && !p.op.FetchOp? }

  predicate HoldsFree(p: Proc) {
    || p.pc.DelDat? || p.pc.DelReadFree? || p.pc.DelIdx? || p.pc.DelFreeHead? || p.pc.DelChain?
    || p.pc.DelUnlockFree? || p.pc.SReadFree? || p.pc.SWalk? || p.pc.STake? || p.pc.SUnlockHit?
    || p.pc.SUnlockMiss?
  }

  predicate HoldsDat(p: Proc) { p.pc.ADat? || p.pc.AUnlockDat? }

  predicate HoldsIdx(p: Proc) { p.pc.AIdx? || p.pc.AUnlockIdx? }

  predicate WantsLock(p: Proc) {
    || p.pc.WantChain? || p.pc.WantFreeD? || p.pc.WantFreeS? || p.pc.WantDat? || p.pc.WantIdx?
  }

  /** The lock that p asks for conflicts with one that q holds. */
  predicate Conflict(p: Proc, q: Proc) {
    match p.pc
    case WantChain =>
      Bucket(p.op) == Bucket(q.op) && (if p.op.FetchOp? then WritesChain(q) else HoldsChain(q))
    case WantFreeD => HoldsFree(q)
    case WantFreeS => HoldsFree(q)
    case WantDat => HoldsDat(q)
    case WantIdx => HoldsIdx(q)
    case _ => false
  }

  /** p is not waiting for a lock that some other process holds. */
  ghost predicate Enabled(s: State, i: nat)
    requires i < |s.procs|
  {
    !s.procs[i].pc.Idle? && forall j :: 0 <= j < |s.procs| && j != i ==> !Conflict(s.procs[i], s.procs[j])
  }

  // ---------------------------------------------------------------- files

  function Phys(d: Disk, slot: Slot): nat {
    match slot
    case Head(k) => if k < |d.heads| then d.heads[k] else 0
    case Link(off) => if off in d.recs then d.recs[off].ptr else 0
  }

  function SetPtr(d: Disk, slot: Slot, v: nat): Disk {
    match slot
    case Head(k) => if k < |d.heads| then d.(heads := d.heads[k := v]) else d
    case Link(off) => if off in d.recs then d.(recs := d.recs[off := d.recs[off].(ptr := v)]) else d
  }

  function SetRec(d: Disk, off: nat, r: Rec): Disk {
    d.(recs := d.recs[off := r])
  }

  function WriteData(d: Disk, off: nat, data: string): Disk {
    if off <= |d.dat| then d.(dat := Splice(d.dat, off, data + [NEWLINE])) else d
  }

  function RecordAt(d: Disk, off: nat): Rec {
    if off in d.recs then d.recs[off] else Rec(0, "", 0, 1)
  }

  function DataAt(d: Disk, r: Rec): string {
    if 1 <= r.datlen && r.datoff + r.datlen <= |d.dat| then d.dat[r.datoff..r.datoff + r.datlen - 1] else ""
  }

  // ---------------------------------------------------------------- what one process does next

  function NotFound(p: Proc): Proc {
    match p.op
    case FetchOp(_) => p.(pc := Unlock, res := Data(None))
    case DeleteOp(_) => p.(pc := Unlock, res := Code(-1))
    case StoreOp(_, _, flag) => if flag.Replace? then p.(pc := Unlock, res := Code(-1)) else p.(pc := StReadHead)
  }

  function FoundRec(p: Proc, r: Rec): Proc {
    var q := p.(rec := r);
    match p.op
    case FetchOp(_) => q.(pc := FetchDat)
    case DeleteOp(_) => q.(pc := WantFreeD)
    case StoreOp(_, data, flag) =>
      if flag.Insert? then q.(pc := Unlock, res := Code(1))
      else if |data| + 1 != r.datlen then q.(pc := WantFreeD)
      else q.(pc := StOver)
  }

  /** The process after its next step. */
  function StepProc(d: Disk, p: Proc): Proc {
    match p.pc
    case Idle => p
    case WantChain => p.(pc := ReadHead)
    case ReadHead => p.(pc := Walk, off := Phys(d, Head(Bucket(p.op))), ptroff := Head(Bucket(p.op)))
    case Walk =>
      if p.off == 0 then NotFound(p) else
      var r := RecordAt(d, p.off);
      if r.key == p.op.key then FoundRec(p, r) else p.(ptroff := Link(p.off), off := r.ptr)
    case FetchDat => p.(pc := Unlock, res := Data(Some(DataAt(d, p.rec))))
    case StOver => p.(pc := Unlock, res := Code(0))
    case WantFreeD => p.(pc := DelDat)
    case DelDat => p.(pc := DelReadFree)
    case DelReadFree => p.(pc := DelIdx, ptrval := Phys(d, Head(0)))
    case DelIdx => p.(pc := DelFreeHead)
    case DelFreeHead => p.(pc := DelChain)
    case DelChain => p.(pc := DelUnlockFree)
    case DelUnlockFree => if p.op.DeleteOp? then p.(pc := Unlock, res := Code(0)) else p.(pc := AReadHead)
    case StReadHead => p.(pc := WantFreeS, ptrval := Phys(d, Head(Bucket(p.op))))
    case WantFreeS => p.(pc := SReadFree)
    case SReadFree => p.(pc := SWalk, foff := Phys(d, Head(0)), saveoff := Head(0))
    case SWalk =>
      if p.foff == 0 then p.(pc := SUnlockMiss) else
      var r := RecordAt(d, p.foff);
      if |r.key| == |p.op.key| && r.datlen == |DataOf(p.op)| + 1
      then p.(pc := STake, off := p.foff, rec := r, datoff := r.datoff)
      else p.(saveoff := Link(p.foff), foff := r.ptr)
    case STake => p.(pc := SUnlockHit)
    case SUnlockHit => p.(pc := SDat)
    case SUnlockMiss => p.(pc := WantDat)
    case SDat => p.(pc := SIdx)
    case SIdx => p.(pc := SLink)
    case AReadHead => p.(pc := WantDat, ptrval := Phys(d, Head(Bucket(p.op))))
    case WantDat => p.(pc := ADat)
    case ADat => p.(pc := AUnlockDat, datoff := |d.dat|)
    case AUnlockDat => p.(pc := WantIdx)
    case WantIdx => p.(pc := AIdx)
    case AIdx => p.(pc := AUnlockIdx, off := d.end)
    case AUnlockIdx => p.(pc := SLink)
    case SLink => p.(pc := Unlock, res := Code(0))
    case Unlock => p.(pc := Idle)
  }

  function FreedRec(p: Proc): Rec {
    Rec(p.ptrval, Blanks(|p.rec.key|), p.rec.datoff, p.rec.datlen)
  }

  function NewRec(p: Proc): Rec {
    Rec(p.ptrval, p.op.key, p.datoff, |DataOf(p.op)| + 1)
  }

  /** The files after that step. */
  function StepDisk(d: Disk, p: Proc): Disk {
    match p.pc
    case DelDat => if 1 <= p.rec.datlen then WriteData(d, p.rec.datoff, Blanks(p.rec.datlen - 1)) else d
    case DelIdx => SetRec(d, p.off, FreedRec(p))
    case DelFreeHead => SetPtr(d, Head(0), p.off)
    case DelChain => SetPtr(d, p.ptroff, p.rec.ptr)
    case STake => SetPtr(d, p.saveoff, p.rec.ptr)
    case SLink => SetPtr(d, Head(Bucket(p.op)), p.off)
    case StOver => WriteData(d, p.rec.datoff, DataOf(p.op))
    case SDat => WriteData(d, p.datoff, DataOf(p.op))
    case ADat => WriteData(d, |d.dat|, DataOf(p.op))
    case SIdx => SetRec(d, p.off, NewRec(p))
    case AIdx => SetRec(d, d.end, NewRec(p)).(end := d.end + Size(NewRec(p)))
    case _ => d
  }

  ghost predicate Begins(s: State, s': State, i: nat)
    requires i < |s.procs|
  {
    && s.procs[i].pc.Idle?
    && exists op: Op :: s' == s.(procs := s.procs[i := s.procs[i].(pc := WantChain, op := op, res := NoResult)])
  }

  function StepOf(s: State, i: nat): State
    requires i < |s.procs|
  {
    State(StepDisk(s.disk, s.procs[i]), s.procs[i := StepProc(s.disk, s.procs[i])])
  }

  ghost predicate StepBy(s: State, s': State, i: nat) {
    && i < |s.procs|
    && (Begins(s, s', i) || (Enabled(s, i) && s' == StepOf(s, i)))
  }

  ghost predicate Step(s: State, s': State) {
    exists i :: StepBy(s, s', i)
  }

  /** A new database and any number of idle processes. */
  predicate Init(s: State) {
    && |s.disk.heads| == SLOTS
    && (forall k :: 0 <= k < SLOTS ==> s.disk.heads[k] == 0)
    && s.disk.recs == map[]
    && s.disk.end == RECS_OFF
    && s.disk.dat == ""
    && (forall i :: 0 <= i < |s.procs| ==> s.procs[i].pc.Idle?)
  }

  ghost predicate StepAt(run: seq<State>, t: nat)
    requires t < |run| - 1
  {
    Step(run[t], run[t + 1])
  }

  ghost predicate Run(run: seq<State>) {
    |run| > 0 && Init(run[0]) && forall t :: 0 <= t < |run| - 1 ==> StepAt(run, t)
  }
}
