/** The table with a lock for the lists and a lock in each object (mutex2.c), one step for
    each lock call and each access to shared memory. */
module Mutex2 {
  import opened Mutex3

  datatype Obj = Obj(count: int, id: int, next: nat)

  datatype Pc =
    | Out | Ret
    // foo_alloc
    | AMalloc | AWantHash | ASetNext | ASetHead | AWantObj | ADropHash | ADropObj
    // foo_hold
    | HWantObj | HInc | HDropObj
    // foo_find
    | FWantHash | FFirst | FWalk | FWantObj | FInc | FDropObj | FDropHash
    // foo_rele
    | RWantObj | RTest | RDropFirst | RWantHash | RWantBoth | RRetest
    | RDecBoth | RDropObjBoth | RDropHashBoth
    | RFirst | RUnlinkHead | RSearch | RUnlinkMid | RDropHash | RDropObj | RFree
    | RDec | RDropDec

  datatype Thread = Thread(pc: Pc, op: Op, fp: nat, tfp: nat, res: nat)

  /** The list heads, and the objects that are allocated. */
  datatype Mem = Mem(heads: seq<nat>, objs: map<nat, Obj>)

  /** Shared memory, the references that callers have, and the threads. */
  datatype State = State(mem: Mem, refs: multiset<nat>, threads: seq<Thread>)

  function ObjAt(m: Mem, x: nat): Obj {
    if x in m.objs then m.objs[x] else Obj(0, 0, 0)
  }

  function HeadAt(m: Mem, b: nat): nat { if b < |m.heads| then m.heads[b] else 0 }

  // ---------------------------------------------------------------- locks

  predicate HoldsHash(t: Thread) {
    || t.pc.ASetNext? || t.pc.ASetHead? || t.pc.AWantObj? || t.pc.ADropHash?
    || t.pc.FFirst? || t.pc.FWalk? || t.pc.FWantObj? || t.pc.FInc? || t.pc.FDropObj? || t.pc.FDropHash?
    || t.pc.RWantBoth? || t.pc.RRetest? || t.pc.RDecBoth? || t.pc.RDropObjBoth? || t.pc.RDropHashBoth?
    || t.pc.RFirst? || t.pc.RUnlinkHead? || t.pc.RSearch? || t.pc.RUnlinkMid? || t.pc.RDropHash?
  }

  /** The thread holds the lock of the object at its fp. */
  predicate HoldsObj(t: Thread) {
    || t.pc.ADropHash? || t.pc.ADropObj? || t.pc.HInc? || t.pc.HDropObj? || t.pc.FInc? || t.pc.FDropObj?
    || t.pc.RTest? || t.pc.RDropFirst? || t.pc.RRetest? || t.pc.RDecBoth? || t.pc.RDropObjBoth?
    || t.pc.RFirst? || t.pc.RUnlinkHead? || t.pc.RSearch? || t.pc.RUnlinkMid? || t.pc.RDropHash? || t.pc.RDropObj?
    || t.pc.RDec? || t.pc.RDropDec?
  }

  predicate WantsHash(t: Thread) { t.pc.AWantHash? || t.pc.FWantHash? || t.pc.RWantHash? }

  predicate WantsObj(t: Thread) {
    t.pc.AWantObj? || t.pc.HWantObj? || t.pc.FWantObj? || t.pc.RWantObj? || t.pc.RWantBoth?
  }

  predicate Conflict(t: Thread, u: Thread) {
    (WantsHash(t) && HoldsHash(u)) || (WantsObj(t) && HoldsObj(u) && t.fp == u.fp)
  }

  ghost predicate Enabled(s: State, i: nat)
    requires i < |s.threads|
  {
    !s.threads[i].pc.Out? && forall j :: 0 <= j < |s.threads| && j != i ==> !Conflict(s.threads[i], s.threads[j])
  }

  // ---------------------------------------------------------------- steps inside a call

  function StepThread(m: Mem, t: Thread): Thread {
    match t.pc
    case Out => t
    case Ret => t
    case AMalloc => t
    case AWantHash => t.(pc := ASetNext)
    case ASetNext => t.(pc := ASetHead)
    case ASetHead => t.(pc := AWantObj)
    case AWantObj => t.(pc := ADropHash)
    case ADropHash => t.(pc := ADropObj)
    case ADropObj => t.(pc := Ret, res := t.fp)
    case HWantObj => t.(pc := HInc)
    case HInc => t.(pc := HDropObj)
    case HDropObj => t.(pc := Ret, res := 0)
    case FWantHash => t.(pc := FFirst)
    case FFirst => t.(pc := FWalk, fp := HeadAt(m, if t.op.Find? then Hash(t.op.id) else 0))
    case FWalk =>
      if t.fp == 0 then t.(pc := FDropHash)
      else if t.op.Find? && ObjAt(m, t.fp).id == t.op.id then t.(pc := FWantObj)
      else t.(fp := ObjAt(m, t.fp).next)
    case FWantObj => t.(pc := FInc)
    case FInc => t.(pc := FDropObj)
    case FDropObj => t.(pc := FDropHash)
    case FDropHash => t.(pc := Ret, res := t.fp)
    case RWantObj => t.(pc := RTest)
    case RTest => if ObjAt(m, t.fp).count == 1 then t.(pc := RDropFirst) else t.(pc := RDec)
    case RDropFirst => t.(pc := RWantHash)
    case RWantHash => t.(pc := RWantBoth)
    case RWantBoth => t.(pc := RRetest)
    case RRetest => if ObjAt(m, t.fp).count != 1 then t.(pc := RDecBoth) else t.(pc := RFirst)
    case RDecBoth => t.(pc := RDropObjBoth)
    case RDropObjBoth => t.(pc := RDropHashBoth)
    case RDropHashBoth => t.(pc := Ret, res := 0)
    case RFirst =>
      var h := HeadAt(m, Hash(ObjAt(m, t.fp).id));
      if h == t.fp then t.(pc := RUnlinkHead, tfp := h) else t.(pc := RSearch, tfp := h)
    case RUnlinkHead => t.(pc := RDropHash)
    case RSearch => if ObjAt(m, t.tfp).next != t.fp then t.(tfp := ObjAt(m, t.tfp).next) else t.(pc := RUnlinkMid)
    case RUnlinkMid => t.(pc := RDropHash)
    case RDropHash => t.(pc := RDropObj)
    case RDropObj => t.(pc := RFree)
    case RFree => t.(pc := Ret, res := 0)
    case RDec => t.(pc := RDropDec)
    case RDropDec => t.(pc := Ret, res := 0)
  }

  function SetHead(m: Mem, b: nat, v: nat): Mem {
    if b < |m.heads| then m.(heads := m.heads[b := v]) else m
  }

  function SetObj(m: Mem, x: nat, o: Obj): Mem {
    m.(objs := m.objs[x := o])
  }

  function AddCount(m: Mem, x: nat, d: int): Mem {
    SetObj(m, x, ObjAt(m, x).(count := ObjAt(m, x).count + d))
  }

  function StepMemory(m: Mem, t: Thread): Mem {
    var o := ObjAt(m, t.fp);
    match t.pc
    case ASetNext => SetObj(m, t.fp, o.(next := HeadAt(m, Hash(o.id))))
    case ASetHead => SetHead(m, Hash(o.id), t.fp)
    case HInc => AddCount(m, t.fp, 1)
    case FInc => AddCount(m, t.fp, 1)
    case RDecBoth => AddCount(m, t.fp, -1)
    case RDec => AddCount(m, t.fp, -1)
    case RUnlinkHead => SetHead(m, Hash(o.id), o.next)
    case RUnlinkMid => SetObj(m, t.tfp, ObjAt(m, t.tfp).(next := o.next))
    case RFree => m.(objs := m.objs - {t.fp})
    case _ => m
  }

  function StepOf(s: State, i: nat): State
    requires i < |s.threads|
  {
    s.(mem := StepMemory(s.mem, s.threads[i]), threads := s.threads[i := StepThread(s.mem, s.threads[i])])
  }

  // ---------------------------------------------------------------- call, malloc, return

  function Entry(op: Op): Thread {
    match op
    case Alloc(_) => Thread(AMalloc, op, 0, 0, 0)
    case Hold(x) => Thread(HWantObj, op, x, 0, 0)
    case Find(_) => Thread(FWantHash, op, 0, 0, 0)
    case Rele(x) => Thread(RWantObj, op, x, 0, 0)
  }

  ghost predicate CallBy(s: State, s': State, i: nat, op: Op) {
    && i < |s.threads| && s.threads[i].pc.Out? && Takes(op) <= s.refs
    && s' == s.(refs := s.refs - Takes(op), threads := s.threads[i := Entry(op)])
  }

  /** malloc and the initialisation of the object; x is any address that is not in use,
      or 0 when there is no memory or the lock cannot be initialised. */
  ghost predicate MallocBy(s: State, s': State, i: nat, x: nat) {
    && i < |s.threads| && s.threads[i].pc.AMalloc? && s.threads[i].op.Alloc? && x !in s.mem.objs
    && if x == 0 then s' == s.(threads := s.threads[i := s.threads[i].(pc := Ret, res := 0)])
       else s' == s.(mem := SetObj(s.mem, x, Obj(1, s.threads[i].op.id, 0)),
                     threads := s.threads[i := s.threads[i].(pc := AWantHash, fp := x)])
  }

  ghost predicate ReturnBy(s: State, s': State, i: nat) {
    && i < |s.threads| && s.threads[i].pc.Ret?
    && s' == s.(refs := s.refs + Gives(s.threads[i].op, s.threads[i].res),
                threads := s.threads[i := s.threads[i].(pc := Out)])
  }

  predicate Inner(t: Thread) { !t.pc.Out? && !t.pc.Ret? && !t.pc.AMalloc? }

  ghost predicate StepBy(s: State, s': State, i: nat) {
    || (exists op :: CallBy(s, s', i, op))
    || (exists x :: MallocBy(s, s', i, x))
    || ReturnBy(s, s', i)
    || (i < |s.threads| && Inner(s.threads[i]) && Enabled(s, i) && s' == StepOf(s, i))
  }

  ghost predicate Step(s: State, s': State) { exists i :: StepBy(s, s', i) }

  predicate Init(s: State) {
    && s.mem.heads == seq(NHASH, _ => 0) && s.mem.objs == map[] && s.refs == multiset{}
    && forall i :: 0 <= i < |s.threads| ==> s.threads[i].pc.Out?
  }

  ghost predicate StepAt(run: seq<State>, t: nat)
    requires t < |run| - 1
  {
    Step(run[t], run[t + 1])
  }

  ghost predicate Run(run: seq<State>) {
    |run| > 0 && Init(run[0]) && forall t :: 0 <= t < |run| - 1 ==> StepAt(run, t)
  }
}
