/** Semaphores with a process counter (semaph.c): sem_create, sem_op and sem_close by any
    number of processes, one step for each system call.  A process may exit at any step;
    the kernel then applies its undo values.  A call that ends in err_sys is such an exit. */
module Semaph {

  const BIGCOUNT := 10000
  const SEMVMX := 32767

  /** A set of three semaphores with the kernel's undo values for each process.  home: the
      last value given to [0] by SETVAL.  ready: [1] has been set.  used: some sem_create
      has returned.  clamped: an undo of [0] was cut off at the range of the semaphore. */
  datatype Sem = Sem(v0: int, v1: int, v2: int, adj0: seq<int>, adj1: seq<int>, adj2: seq<int>,
                     home: int, ready: bool, used: bool, clamped: bool)

  datatype Pc =
    | Dead | Idle
    // sem_create
    | CGet | CLock | CRead | CSet0 | CSet1 | CEnd
    // sem_op
    | Op
    // sem_close
    | XClose | XRead | XRemove | XUnlock | Dump

  /** held: the sets that the process has created and not closed, as often. */
  datatype Proc = Proc(pc: Pc, key: int, id: nat, arg: int, held: multiset<nat>)

  /** The sets by identifier, the identifier of each key, the next identifier, the processes. */
  datatype State = State(sets: map<nat, Sem>, keys: map<int, nat>, next: nat, procs: seq<Proc>)

  function Put(s: State, i: nat, p: Proc): State
    requires i < |s.procs|
  {
    s.(procs := s.procs[i := p])
  }

  function PutSem(s: State, id: nat, m: Sem): State { s.(sets := s.sets[id := m]) }

  function Bump(a: seq<int>, i: nat, d: int): seq<int> {
    if i < |a| then a[i := a[i] + d] else a
  }

  function At(a: seq<int>, i: nat): int { if i < |a| then a[i] else 0 }

  function Zeros(n: nat): seq<int> { seq(n, _ => 0) }

  // ---------------------------------------------------------------- system calls

  /** IPC_CREAT gives three semaphores with value 0. */
  function NewSem(n: nat): Sem { Sem(0, 0, 0, Zeros(n), Zeros(n), Zeros(n), 0, false, false, false) }

  /** SETVAL clears the undo values of that semaphore in every process. */
  function SetVal0(m: Sem, v: int): Sem { m.(v0 := v, adj0 := Zeros(|m.adj0|), home := v, clamped := false) }

  function SetVal1(m: Sem, v: int): Sem { m.(v1 := v, adj1 := Zeros(|m.adj1|), ready := true) }

  /** op_lock, which waits for [2] to be 0. */
  function LockOp(m: Sem, i: nat): Sem { m.(v2 := m.v2 + 1, adj2 := Bump(m.adj2, i, -1)) }

  /** op_endcreate, which waits for [1] and [2] to be positive. */
  function EndCreateOp(m: Sem, i: nat): Sem {
    m.(v1 := m.v1 - 1, adj1 := Bump(m.adj1, i, 1), v2 := m.v2 - 1, adj2 := Bump(m.adj2, i, 1), used := true)
  }

  /** op_close, which waits for [2] to be 0. */
  function CloseOp(m: Sem, i: nat): Sem {
    m.(v2 := m.v2 + 1, adj2 := Bump(m.adj2, i, -1), v1 := m.v1 + 1, adj1 := Bump(m.adj1, i, -1))
  }

  /** op_unlock, which waits for [2] to be positive. */
  function UnlockOp(m: Sem, i: nat): Sem { m.(v2 := m.v2 - 1, adj2 := Bump(m.adj2, i, 1)) }

  /** op_op with the amount d. */
  function ValueOp(m: Sem, i: nat, d: int): Sem { m.(v0 := m.v0 + d, adj0 := Bump(m.adj0, i, -d)) }

  function Clamp(v: int): int { if v < 0 then 0 else if v > SEMVMX then SEMVMX else v }

  /** The undo values of an exiting process are added, within the range of a semaphore. */
  function Undo(m: Sem, i: nat): Sem {
    m.(v0 := Clamp(m.v0 + At(m.adj0, i)), v1 := Clamp(m.v1 + At(m.adj1, i)), v2 := Clamp(m.v2 + At(m.adj2, i)),
       adj0 := Bump(m.adj0, i, -At(m.adj0, i)), adj1 := Bump(m.adj1, i, -At(m.adj1, i)),
       adj2 := Bump(m.adj2, i, -At(m.adj2, i)),
       clamped := m.clamped || Clamp(m.v0 + At(m.adj0, i)) != m.v0 + At(m.adj0, i))
  }

  function UndoAll(sets: map<nat, Sem>, i: nat): map<nat, Sem> {
    map id | id in sets :: Undo(sets[id], i)
  }

  // ---------------------------------------------------------------- steps

  ghost predicate Exit(s: State, s': State, i: nat) {
    && i < |s.procs| && !s.procs[i].pc.Dead?
    && s' == State(UndoAll(s.sets, i), s.keys, s.next, s.procs[i := Proc(Dead, 0, 0, 0, multiset{})])
  }

  /** A process starts, or calls one of the functions.  A key that is IPC_PRIVATE or -1 is
      refused at once; sem_op and sem_close are for the holders of the set; an amount of 0
      is an error. */
  ghost predicate Call(s: State, s': State, i: nat, p: Proc) {
    && i < |s.procs| && s' == Put(s, i, p) && p.held == s.procs[i].held
    && if s.procs[i].pc.Dead? then p.pc.Idle?
       else
         && s.procs[i].pc.Idle?
         && ((p.pc.CGet? && p.key != 0 && p.key != -1) || (p.pc.Op? && p.arg != 0 && p.held[p.id] > 0)
             || (p.pc.XClose? && p.held[p.id] > 0))
  }

  /** semget: fails, finds the set of the key, or makes one. */
  ghost predicate Get(s: State, s': State, i: nat) {
    && i < |s.procs| && s.procs[i].pc.CGet?
    && (GetFails(s, s', i) || GetFinds(s, s', i) || GetMakes(s, s', i))
  }

  ghost predicate GetFails(s: State, s': State, i: nat)
    requires i < |s.procs|
  {
    s' == Put(s, i, s.procs[i].(pc := Idle))
  }

  ghost predicate GetFinds(s: State, s': State, i: nat)
    requires i < |s.procs|
  {
    s.procs[i].key in s.keys && s' == Put(s, i, s.procs[i].(pc := CLock, id := s.keys[s.procs[i].key]))
  }

  ghost predicate GetMakes(s: State, s': State, i: nat)
    requires i < |s.procs|
  {
    && s.procs[i].key !in s.keys
    && s' == State(s.sets[s.next := NewSem(|s.procs|)], s.keys[s.procs[i].key := s.next], s.next + 1,
                   s.procs[i := s.procs[i].(pc := CLock, id := s.next)])
  }

  /** A system call on a set that exists and that does not block. */
  predicate Enabled(m: Sem, p: Proc) {
    match p.pc
    case CLock => m.v2 == 0
    case CSet0 => 0 <= p.arg <= SEMVMX
    case CEnd => m.v1 > 0 && m.v2 > 0
    case Op => 0 <= m.v0 + p.arg <= SEMVMX
    case XClose => m.v2 == 0
    case XUnlock => m.v2 > 0
    case _ => true
  }

  function NextSem(m: Sem, p: Proc, i: nat): Sem {
    match p.pc
    case CLock => LockOp(m, i)
    case CSet0 => SetVal0(m, p.arg)
    case CSet1 => SetVal1(m, BIGCOUNT)
    case CEnd => EndCreateOp(m, i)
    case Op => ValueOp(m, i, p.arg)
    case XClose => CloseOp(m, i)
    case XUnlock => UnlockOp(m, i)
    case _ => m
  }

  function NextProc(m: Sem, p: Proc): Proc {
    match p.pc
    case CLock => p.(pc := CRead)
    case CRead => if m.v1 == 0 then p.(pc := CSet0) else p.(pc := CEnd)
    case CSet0 => p.(pc := CSet1)
    case CSet1 => p.(pc := CEnd)
    case CEnd => p.(pc := Idle, held := p.held + multiset{p.id})
    case Op => p.(pc := Idle)
    case XClose => p.(pc := XRead, held := p.held - multiset{p.id})
    case XRead =>
      if m.v1 > BIGCOUNT then p.(pc := Dump) else if m.v1 == BIGCOUNT then p.(pc := XRemove) else p.(pc := XUnlock)
    case XUnlock => p.(pc := Idle)
    case _ => p
  }

  predicate OnSet(p: Proc) {
    !p.pc.Dead? && !p.pc.Idle? && !p.pc.CGet? && !p.pc.XRemove? && !p.pc.Dump?
  }

  ghost predicate Act(s: State, s': State, i: nat) {
    && i < |s.procs| && OnSet(s.procs[i]) && s.procs[i].id in s.sets
    && var p := s.procs[i];
    && var m := s.sets[p.id];
    && Enabled(m, p) && s' == PutSem(Put(s, i, NextProc(m, p)), p.id, NextSem(m, p, i))
  }

  /** The identifier is no longer valid: sem_create starts again. */
  ghost predicate Again(s: State, s': State, i: nat) {
    && i < |s.procs| && s.procs[i].pc.CLock? && s.procs[i].id !in s.sets
    && s' == Put(s, i, s.procs[i].(pc := CGet))
  }

  /** sem_rm from sem_close. */
  ghost predicate Remove(s: State, s': State, i: nat) {
    && i < |s.procs| && s.procs[i].pc.XRemove? && s.procs[i].id in s.sets
    && s' == State(s.sets - {s.procs[i].id}, map k | k in s.keys && s.keys[k] != s.procs[i].id :: s.keys[k],
                   s.next, s.procs[i := s.procs[i].(pc := Idle)])
  }

  ghost predicate StepBy(s: State, s': State, i: nat) {
    || Exit(s, s', i) || (exists p :: Call(s, s', i, p)) || Get(s, s', i) || Act(s, s', i) || Again(s, s', i)
    || Remove(s, s', i)
  }

  ghost predicate Step(s: State, s': State) { exists i :: StepBy(s, s', i) }

  predicate Init(s: State) {
    && s.sets == map[] && s.keys == map[]
    && forall i :: 0 <= i < |s.procs| ==> s.procs[i].pc.Dead? && s.procs[i].held == multiset{}
  }

  /** The users of a set: how often it has been created and not closed, over all processes. */
  function Users(ps: seq<Proc>, id: nat): nat {
    if ps == [] then 0 else ps[0].held[id] + Users(ps[1..], id)
  }

  ghost predicate FewUsers(s: State) {
    forall id :: id in s.sets ==> Users(s.procs, id) < BIGCOUNT
  }

  ghost predicate StepAt(run: seq<State>, t: nat)
    requires t < |run| - 1
  {
    Step(run[t], run[t + 1])
  }

  ghost predicate Run(run: seq<State>) {
    && |run| > 0 && Init(run[0])
    && forall t :: 0 <= t < |run| - 1 ==> StepAt(run, t)
  }
}
