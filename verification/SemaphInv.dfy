/** The invariant of the semaphore protocol, and what it gives over whole runs. */
module SemaphInv {
  import opened Semaph

  function Sum(a: seq<int>): int { if a == [] then 0 else a[0] + Sum(a[1..]) }

  lemma {:induction false} SumUpdate(a: seq<int>, i: nat, v: int)
    requires i < |a|
    ensures Sum(a[i := v]) == Sum(a) - a[i] + v
  {
    if i == 0 {
      assert a[i := v][1..] == a[1..];
    } else {
      assert a[i := v][1..] == a[1..][i - 1 := v];
      SumUpdate(a[1..], i - 1, v);
    }
  }

  lemma {:induction false} SumBump(a: seq<int>, i: nat, d: int)
    requires i < |a|
    ensures Sum(Bump(a, i, d)) == Sum(a) + d
  {
    SumUpdate(a, i, At(a, i) + d);
  }

  lemma {:induction false} SumZeros(n: nat)
    ensures Sum(Zeros(n)) == 0
  {
    if n > 0 {
      assert Zeros(n)[1..] == Zeros(n - 1);
      SumZeros(n - 1);
    }
  }

  /** Values of one sign that add up to 0 are 0; no value is further from 0 than the sum. */
  lemma {:induction false} SumBounds(a: seq<int>, sign: int, i: nat)
    requires sign == 1 || sign == -1
    requires i < |a| && forall j :: 0 <= j < |a| ==> a[j] * sign >= 0
    ensures a[i] * sign <= Sum(a) * sign
  {
    SumSign(a[1..], sign);
    if i > 0 { SumBounds(a[1..], sign, i - 1); }
  }

  lemma {:induction false} SumSign(a: seq<int>, sign: int)
    requires sign == 1 || sign == -1
    requires forall j :: 0 <= j < |a| ==> a[j] * sign >= 0
    ensures Sum(a) * sign >= 0
  {
    if a != [] { SumSign(a[1..], sign); }
  }

  lemma {:induction false} UsersAre(a: seq<int>, ps: seq<Proc>, id: nat)
    requires |a| == |ps| && forall i :: 0 <= i < |a| ==> a[i] == ps[i].held[id]
    ensures Sum(a) == Users(ps, id)
  {
    if a != [] { UsersAre(a[1..], ps[1..], id); }
  }

  // ---------------------------------------------------------------- the invariant

  /** The process has the lock [2] of its set. */
  predicate Locks(p: Proc) {
    p.pc.CRead? || p.pc.CSet0? || p.pc.CSet1? || p.pc.CEnd? || p.pc.XRead? || p.pc.XRemove? || p.pc.XUnlock?
  }

  predicate HasLock(p: Proc, id: nat) { Locks(p) && p.id == id }

  /** The undo values of process i are its uses of the set and its lock. */
  predicate Undone(m: Sem, p: Proc, id: nat, i: nat)
    requires i < |m.adj1| && i < |m.adj2|
  {
    m.adj1[i] == p.held[id] && m.adj2[i] == if HasLock(p, id) then -1 else 0
  }

  /** Values and undo values of one set add up. */
  ghost predicate Balanced(m: Sem) {
    && m.v2 + Sum(m.adj2) == 0 && 0 <= m.v2 <= 1
    && (if m.ready then m.v1 + Sum(m.adj1) == BIGCOUNT else m.v1 == 0 && Sum(m.adj1) == 0 && !m.used)
    && m.v1 >= 0
    && (!m.clamped ==> m.v0 + Sum(m.adj0) == m.home)
  }

  ghost predicate SetInv(m: Sem, id: nat, ps: seq<Proc>) {
    && |m.adj0| == |m.adj1| == |m.adj2| == |ps|
    && Balanced(m)
    && forall i :: 0 <= i < |ps| ==> Undone(m, ps[i], id, i)
  }

  /** What a process that has the lock of a set knows of it. */
  ghost predicate Knows(p: Proc, m: Sem) {
    && (p.pc.CSet0? || p.pc.CSet1? ==> !m.ready)
    && (p.pc.CEnd? || p.pc.XRead? || p.pc.XRemove? || p.pc.XUnlock? ==> m.ready)
    && (p.pc.XRemove? ==> Sum(m.adj1) == 0)
  }

  ghost predicate Held(s: State, p: Proc, id: nat) { p.held[id] > 0 ==> id in s.sets }

  ghost predicate ProcInv(s: State, p: Proc) {
    && (forall id: nat :: Held(s, p, id))
    && !p.pc.Dump?
    && (p.pc.Op? || p.pc.XClose? ==> p.held[p.id] > 0)
    && (Locks(p) ==> p.id in s.sets && Knows(p, s.sets[p.id]))
    && (p.pc.Dead? ==> p.held == multiset{})
  }

  ghost predicate Inv(s: State) {
    && (forall id :: id in s.sets ==> id < s.next && SetInv(s.sets[id], id, s.procs))
    && (forall k :: k in s.keys ==> s.keys[k] in s.sets)
    && (forall i :: 0 <= i < |s.procs| ==> ProcInv(s, s.procs[i]))
  }

  // ---------------------------------------------------------------- the lock

  lemma Signs(m: Sem, id: nat, ps: seq<Proc>, i: nat)
    requires SetInv(m, id, ps) && i < |ps|
    ensures 0 <= m.adj1[i] <= Sum(m.adj1) && Sum(m.adj2) <= m.adj2[i] <= 0
  {
    forall j | 0 <= j < |ps| ensures m.adj1[j] * 1 >= 0 && m.adj2[j] * -1 >= 0 { assert Undone(m, ps[j], id, j); }
    assert Undone(m, ps[i], id, i);
    SumBounds(m.adj1, 1, i);
    SumBounds(m.adj2, -1, i);
  }

  /** The lock of a set excludes: while one process has it [2] is 1, and no other has it. */
  lemma OneLock(m: Sem, id: nat, ps: seq<Proc>, i: nat, j: nat)
    requires SetInv(m, id, ps) && i < |ps| && j < |ps| && i != j && HasLock(ps[i], id)
    ensures m.v2 == 1 && !HasLock(ps[j], id)
  {
    Signs(m, id, ps, i);
    assert Undone(m, ps[i], id, i) && Undone(m, ps[j], id, j);
    var rest := m.adj2[i := 0];
    SumUpdate(m.adj2, i, 0);
    forall k | 0 <= k < |ps| ensures rest[k] * -1 >= 0 { assert Undone(m, ps[k], id, k); }
    SumBounds(rest, -1, j);
  }

  /** The counter of a set in use is BIGCOUNT less its users. */
  lemma CounterIsUsers(m: Sem, id: nat, ps: seq<Proc>)
    requires SetInv(m, id, ps)
    ensures Users(ps, id) == Sum(m.adj1) && (m.ready ==> m.v1 == BIGCOUNT - Users(ps, id))
  {
    forall i | 0 <= i < |ps| ensures m.adj1[i] == ps[i].held[id] { assert Undone(m, ps[i], id, i); }
    UsersAre(m.adj1, ps, id);
  }

  // ---------------------------------------------------------------- system calls on a set

  lemma ActBalanced(m: Sem, p: Proc, id: nat, ps: seq<Proc>, i: nat)
    requires SetInv(m, id, ps) && i < |ps| && ps[i] == p && p.id == id && OnSet(p) && Enabled(m, p)
    requires (Locks(p) ==> Knows(p, m)) && (p.pc.XClose? ==> p.held[id] > 0)
    ensures Balanced(NextSem(m, p, i))
  {
    SumZeros(|ps|);
    SumBump(m.adj2, i, -1);
    SumBump(m.adj2, i, 1);
    SumBump(m.adj1, i, -1);
    SumBump(m.adj1, i, 1);
    SumBump(m.adj0, i, -p.arg);
    if p.pc.XClose? {
      Signs(m, id, ps, i);
      assert Undone(m, p, id, i);
    }
  }

  lemma ActUndone(m: Sem, p: Proc, id: nat, ps: seq<Proc>, i: nat, j: nat)
    requires SetInv(m, id, ps) && i < |ps| && ps[i] == p && p.id == id && OnSet(p) && Enabled(m, p) && j < |ps|
    requires (Locks(p) ==> Knows(p, m)) && (p.pc.XClose? ==> p.held[id] > 0)
    ensures |NextSem(m, p, i).adj1| == |NextSem(m, p, i).adj2| == |ps|
    ensures Undone(NextSem(m, p, i), if j == i then NextProc(m, p) else ps[j], id, j)
  {
    assert Undone(m, p, id, i) && Undone(m, ps[j], id, j);
    Signs(m, id, ps, j);
  }

  lemma ActSet(m: Sem, p: Proc, id: nat, ps: seq<Proc>, i: nat)
    requires SetInv(m, id, ps) && i < |ps| && ps[i] == p && p.id == id && OnSet(p) && Enabled(m, p)
    requires (Locks(p) ==> Knows(p, m)) && (p.pc.XClose? ==> p.held[id] > 0)
    ensures SetInv(NextSem(m, p, i), id, ps[i := NextProc(m, p)])
  {
    ActBalanced(m, p, id, ps, i);
    var qs := ps[i := NextProc(m, p)];
    forall j | 0 <= j < |ps| ensures Undone(NextSem(m, p, i), qs[j], id, j) {
      ActUndone(m, p, id, ps, i, j);
    }
  }

  /** A set is not concerned by a process that keeps its uses of it and its lock. */
  lemma OtherSet(m: Sem, id: nat, ps: seq<Proc>, i: nat, p: Proc)
    requires SetInv(m, id, ps) && i < |ps| && p.held[id] == ps[i].held[id] && (HasLock(p, id) <==> HasLock(ps[i], id))
    ensures SetInv(m, id, ps[i := p])
  {
    var qs := ps[i := p];
    forall j | 0 <= j < |ps| ensures Undone(m, qs[j], id, j) { assert Undone(m, ps[j], id, j); }
  }

  lemma ActSets(s: State, s': State, i: nat, id: nat)
    requires Inv(s) && Act(s, s', i) && id in s'.sets
    ensures id < s'.next && SetInv(s'.sets[id], id, s'.procs)
  {
    var p := s.procs[i];
    assert ProcInv(s, p);
    var m := s.sets[p.id];
    if id == p.id {
      ActSet(m, p, id, s.procs, i);
    } else {
      OtherSet(s.sets[id], id, s.procs, i, NextProc(m, p));
    }
  }

  lemma ActKnows(m: Sem, p: Proc, i: nat)
    requires Balanced(m) && OnSet(p) && Enabled(m, p) && (Locks(p) ==> Knows(p, m)) && (p.pc.XClose? ==> m.ready)
    requires m.ready ==> 0 <= Sum(m.adj1) < BIGCOUNT
    ensures !NextProc(m, p).pc.Dump? && (Locks(NextProc(m, p)) ==> Knows(NextProc(m, p), NextSem(m, p, i)))
  {
  }

  lemma ActOwn(s: State, s': State, i: nat)
    requires Inv(s) && Act(s, s', i) && FewUsers(s)
    ensures ProcInv(s', s'.procs[i])
  {
    var p := s.procs[i];
    var m := s.sets[p.id];
    assert ProcInv(s, p) && SetInv(m, p.id, s.procs);
    CounterIsUsers(m, p.id, s.procs);
    forall id: nat ensures Held(s', s'.procs[i], id) { assert Held(s, p, id); }
    if p.pc.XClose? { InUse(s, i, p.id); }
    ActKnows(m, p, i);
  }

  /** A set with a user has been set up. */
  lemma InUse(s: State, i: nat, id: nat)
    requires Inv(s) && i < |s.procs| && s.procs[i].held[id] > 0
    ensures id in s.sets && s.sets[id].ready
  {
    assert ProcInv(s, s.procs[i]) && Held(s, s.procs[i], id);
    Signs(s.sets[id], id, s.procs, i);
    assert Undone(s.sets[id], s.procs[i], id, i);
  }

  lemma ActOthers(s: State, s': State, i: nat, j: nat)
    requires Inv(s) && Act(s, s', i) && j < |s.procs| && j != i
    ensures ProcInv(s', s'.procs[j])
  {
    var p, q := s.procs[i], s.procs[j];
    var m := s.sets[p.id];
    assert ProcInv(s, p) && ProcInv(s, q) && SetInv(m, p.id, s.procs);
    forall id: nat ensures Held(s', q, id) { assert Held(s, q, id); }
    if HasLock(q, p.id) {
      OneLock(m, p.id, s.procs, j, i);
      assert p.pc.Op?;
    }
  }

  lemma StepAct(s: State, s': State, i: nat)
    requires Inv(s) && Act(s, s', i) && FewUsers(s)
    ensures Inv(s')
  {
    forall id | id in s'.sets ensures id < s'.next && SetInv(s'.sets[id], id, s'.procs) { ActSets(s, s', i, id); }
    forall j | 0 <= j < |s'.procs| ensures ProcInv(s', s'.procs[j]) {
      if j == i { ActOwn(s, s', i); } else { ActOthers(s, s', i, j); }
    }
  }

  // ---------------------------------------------------------------- exit

  lemma UndoSet(m: Sem, id: nat, ps: seq<Proc>, i: nat, p: Proc)
    requires SetInv(m, id, ps) && i < |ps| && p.pc.Dead? && p.held == multiset{}
    ensures SetInv(Undo(m, i), id, ps[i := p]) && Undo(m, i).ready == m.ready
    ensures Sum(m.adj1) == 0 ==> Sum(Undo(m, i).adj1) == 0
  {
    Signs(m, id, ps, i);
    SumBump(m.adj0, i, -m.adj0[i]);
    SumBump(m.adj1, i, -m.adj1[i]);
    SumBump(m.adj2, i, -m.adj2[i]);
    var qs := ps[i := p];
    forall j | 0 <= j < |ps| ensures Undone(Undo(m, i), qs[j], id, j) { assert Undone(m, ps[j], id, j); }
  }

  lemma StepExit(s: State, s': State, i: nat)
    requires Inv(s) && Exit(s, s', i)
    ensures Inv(s')
  {
    forall id | id in s'.sets ensures id < s'.next && SetInv(s'.sets[id], id, s'.procs) {
      UndoSet(s.sets[id], id, s.procs, i, s'.procs[i]);
    }
    forall j | 0 <= j < |s'.procs| ensures ProcInv(s', s'.procs[j]) {
      assert ProcInv(s, s.procs[j]);
      forall id: nat ensures Held(s', s'.procs[j], id) { assert Held(s, s.procs[j], id); }
      if j != i && Locks(s.procs[j]) {
        UndoSet(s.sets[s.procs[j].id], s.procs[j].id, s.procs, i, s'.procs[i]);
      }
    }
  }

  // ---------------------------------------------------------------- call, semget, again, remove

  /** A process moves between points at which it has no lock. */
  lemma Moves(s: State, i: nat, p: Proc)
    requires Inv(s) && i < |s.procs| && p.held == s.procs[i].held && !Locks(p) && !Locks(s.procs[i])
    requires !p.pc.Dump? && !p.pc.Dead? && (p.pc.Op? || p.pc.XClose? ==> p.held[p.id] > 0)
    ensures Inv(Put(s, i, p))
  {
    var s' := Put(s, i, p);
    forall id | id in s'.sets ensures id < s'.next && SetInv(s'.sets[id], id, s'.procs) {
      OtherSet(s.sets[id], id, s.procs, i, p);
    }
    forall j | 0 <= j < |s'.procs| ensures ProcInv(s', s'.procs[j]) {
      assert ProcInv(s, s.procs[j]);
      forall id: nat ensures Held(s', s'.procs[j], id) { assert Held(s, s.procs[j], id); }
    }
  }

  lemma FreshSet(s: State)
    requires Inv(s)
    ensures SetInv(NewSem(|s.procs|), s.next, s.procs)
  {
    SumZeros(|s.procs|);
    forall j | 0 <= j < |s.procs| ensures Undone(NewSem(|s.procs|), s.procs[j], s.next, j) {
      assert ProcInv(s, s.procs[j]) && Held(s, s.procs[j], s.next);
    }
  }

  lemma AddSet(s: State, key: int) returns (s': State)
    requires Inv(s)
    ensures s' == State(s.sets[s.next := NewSem(|s.procs|)], s.keys[key := s.next], s.next + 1, s.procs) && Inv(s')
  {
    s' := State(s.sets[s.next := NewSem(|s.procs|)], s.keys[key := s.next], s.next + 1, s.procs);
    FreshSet(s);
    forall j | 0 <= j < |s'.procs| ensures ProcInv(s', s'.procs[j]) {
      assert ProcInv(s, s.procs[j]);
      forall id: nat ensures Held(s', s'.procs[j], id) { assert Held(s, s.procs[j], id); }
    }
  }

  lemma StepGet(s: State, s': State, i: nat)
    requires Inv(s) && Get(s, s', i)
    ensures Inv(s')
  {
    var p := s.procs[i];
    if GetFails(s, s', i) {
      Moves(s, i, p.(pc := Idle));
    } else if GetFinds(s, s', i) {
      Moves(s, i, p.(pc := CLock, id := s.keys[p.key]));
    } else {
      StepMakes(s, s', i);
    }
  }

  lemma StepMakes(s: State, s': State, i: nat)
    requires Inv(s) && i < |s.procs| && s.procs[i].pc.CGet? && GetMakes(s, s', i)
    ensures Inv(s')
  {
    var t := AddSet(s, s.procs[i].key);
    Moves(t, i, s.procs[i].(pc := CLock, id := s.next));
  }

  /** sem_close removes a set only when nobody uses it or has its lock. */
  lemma RemovedUnused(s: State, s': State, i: nat, j: nat)
    requires Inv(s) && Remove(s, s', i) && j < |s.procs|
    ensures Users(s.procs, s.procs[i].id) == 0 && s.procs[j].held[s.procs[i].id] == 0
    ensures j != i ==> !HasLock(s.procs[j], s.procs[i].id)
  {
    var id := s.procs[i].id;
    assert ProcInv(s, s.procs[i]);
    CounterIsUsers(s.sets[id], id, s.procs);
    Signs(s.sets[id], id, s.procs, j);
    assert Undone(s.sets[id], s.procs[j], id, j);
    if j != i { OneLock(s.sets[id], id, s.procs, i, j); }
  }

  lemma StepRemove(s: State, s': State, i: nat)
    requires Inv(s) && Remove(s, s', i)
    ensures Inv(s')
  {
    forall id | id in s'.sets ensures id < s'.next && SetInv(s'.sets[id], id, s'.procs) {
      OtherSet(s.sets[id], id, s.procs, i, s'.procs[i]);
    }
    forall j | 0 <= j < |s'.procs| ensures ProcInv(s', s'.procs[j]) {
      assert ProcInv(s, s.procs[j]);
      RemovedUnused(s, s', i, j);
      forall id: nat ensures Held(s', s'.procs[j], id) { assert Held(s, s.procs[j], id); }
    }
  }

  lemma StepInv(s: State, s': State, i: nat)
    requires Inv(s) && FewUsers(s) && StepBy(s, s', i)
    ensures Inv(s')
  {
    if Exit(s, s', i) { StepExit(s, s', i); }
    else if p :| Call(s, s', i, p) { Moves(s, i, p); }
    else if Get(s, s', i) { StepGet(s, s', i); }
    else if Act(s, s', i) { StepAct(s, s', i); }
    else if Again(s, s', i) { Moves(s, i, s.procs[i].(pc := CGet)); }
    else { StepRemove(s, s', i); }
  }

  // ---------------------------------------------------------------- runs

  ghost predicate Few(run: seq<State>, t: nat)
    requires t < |run|
  {
    FewUsers(run[t])
  }

  lemma {:induction false} RunInv(run: seq<State>, t: nat)
    requires Run(run) && t < |run| && forall k :: 0 <= k < t ==> Few(run, k)
    ensures Inv(run[t])
  {
    if t > 0 {
      RunInv(run, t - 1);
      assert Few(run, t - 1) && StepAt(run, t - 1);
      var i :| StepBy(run[t - 1], run[t], i);
      StepInv(run[t - 1], run[t], i);
    }
  }

  /** In every state of a run with fewer than BIGCOUNT users of each set: [1] of a set that
      has been set up is BIGCOUNT less its users; a user's set exists; no two processes have
      the lock of a set; no sem_close finds [1] above BIGCOUNT; and, unless an undo was cut
      off, [0] is its initial value less the undo values of the live processes. */
  lemma RunSafe(run: seq<State>, t: nat, id: nat, i: nat, j: nat)
    requires Run(run) && t < |run| && forall k :: 0 <= k < t ==> Few(run, k)
    requires i < |run[t].procs| && j < |run[t].procs|
    ensures var s := run[t];
            && (id in s.sets && s.sets[id].ready ==> s.sets[id].v1 == BIGCOUNT - Users(s.procs, id))
            && (s.procs[i].held[id] > 0 ==> id in s.sets && s.sets[id].ready)
            && (i != j ==> !(HasLock(s.procs[i], id) && HasLock(s.procs[j], id)))
            && !s.procs[i].pc.Dump?
            && (id in s.sets && !s.sets[id].clamped ==> s.sets[id].v0 == s.sets[id].home - Sum(s.sets[id].adj0))
  {
    var s := run[t];
    RunInv(run, t);
    assert ProcInv(s, s.procs[i]);
    if id in s.sets { CounterIsUsers(s.sets[id], id, s.procs); }
    if s.procs[i].held[id] > 0 { InUse(s, i, id); }
    if i != j && HasLock(s.procs[i], id) { OneLock(s.sets[id], id, s.procs, i, j); }
  }

  /** In every run with fewer than BIGCOUNT users of each set, a sem_close that removes a set
      finds nobody registered with it and nobody else with its lock. */
  lemma RunRemovesUnused(run: seq<State>, t: nat, i: nat, j: nat)
    requires Run(run) && t + 1 < |run| && (forall k :: 0 <= k < t ==> Few(run, k))
    requires Remove(run[t], run[t + 1], i) && j < |run[t].procs|
    ensures var id := run[t].procs[i].id;
            && Users(run[t].procs, id) == 0 && run[t].procs[j].held[id] == 0
            && (j != i ==> !HasLock(run[t].procs[j], id))
            && id !in run[t + 1].sets && run[t + 1].sets == run[t].sets - {id}
  {
    RunInv(run, t);
    RemovedUnused(run[t], run[t + 1], i, j);
  }

  /** A step leaves the initial value of a set that is ready, and the set stays ready. */
  lemma StepKeepsHome(s: State, s': State, i: nat, id: nat)
    requires Inv(s) && FewUsers(s) && StepBy(s, s', i) && id in s.sets && id in s'.sets && s.sets[id].ready
    ensures s'.sets[id].ready && s'.sets[id].home == s.sets[id].home && (s.sets[id].clamped ==> s'.sets[id].clamped)
  {
    if Act(s, s', i) {
      assert ProcInv(s, s.procs[i]);
    } else if Get(s, s', i) {
      assert id < s.next;
    }
  }

  /** [0] of a set is never set again once the set is ready, in particular after a
      sem_create of it has returned. */
  lemma {:induction false} HomeIsKept(run: seq<State>, t: nat, u: nat, id: nat)
    requires Run(run) && t <= u < |run| && forall k :: 0 <= k < u ==> Few(run, k)
    requires id in run[t].sets && id in run[u].sets && run[t].sets[id].ready
    ensures run[u].sets[id].ready && run[u].sets[id].home == run[t].sets[id].home
    decreases u
  {
    if t < u {
      RunInv(run, u - 1);
      assert Few(run, u - 1) && StepAt(run, u - 1);
      var i :| StepBy(run[u - 1], run[u], i);
      RunInv(run, t);
      NextGrows(run, t, u - 1);
      StepNext(run[u - 1], run[u], i, id);
      HomeIsKept(run, t, u - 1, id);
      StepKeepsHome(run[u - 1], run[u], i, id);
    }
  }

  /** An identifier is used once: a set that is gone does not come back. */
  lemma StepNext(s: State, s': State, i: nat, id: nat)
    requires StepBy(s, s', i) && id < s.next
    ensures s.next <= s'.next && (id in s'.sets ==> id in s.sets)
  {
  }

  lemma {:induction false} NextGrows(run: seq<State>, t: nat, u: nat)
    requires Run(run) && t <= u < |run|
    ensures run[t].next <= run[u].next
    decreases u
  {
    if t < u {
      NextGrows(run, t, u - 1);
      assert StepAt(run, u - 1);
      var i :| StepBy(run[u - 1], run[u], i);
      if run[t].next > 0 { StepNext(run[u - 1], run[u], i, run[t].next - 1); }
    }
  }

  // ---------------------------------------------------------------- the bound on users

  /** sem_create sets [0] of a set that is ready again exactly if it has BIGCOUNT users. */
  lemma ReinitIff(s: State, i: nat)
    requires Inv(s) && i < |s.procs| && s.procs[i].pc.CRead? && s.procs[i].id in s.sets && s.sets[s.procs[i].id].ready
    ensures var p := s.procs[i];
            NextProc(s.sets[p.id], p).pc.CSet0? <==> Users(s.procs, p.id) == BIGCOUNT
  {
    CounterIsUsers(s.sets[s.procs[i].id], s.procs[i].id, s.procs);
  }

  /** One process and the set of key 1. */
  function One(m: Sem, p: Proc): State { State(map[0 := m], map[1 := 0], 1, [p]) }

  lemma OneStep(run: seq<State>, s: State) returns (more: seq<State>)
    requires Run(run) && StepBy(run[|run| - 1], s, 0)
    ensures Run(more) && more[|more| - 1] == s
  {
    more := run + [s];
    forall t | 0 <= t < |more| - 1 ensures StepAt(more, t) {
      if t < |run| - 1 { assert StepAt(run, t); }
    }
  }

  lemma ActOne(run: seq<State>, m: Sem, p: Proc) returns (more: seq<State>)
    requires Run(run) && run[|run| - 1] == One(m, p) && OnSet(p) && p.id == 0 && Enabled(m, p)
    ensures Run(more) && more[|more| - 1] == One(NextSem(m, p, 0), NextProc(m, p))
  {
    var s' := One(NextSem(m, p, 0), NextProc(m, p));
    assert s'.procs == One(m, p).procs[0 := NextProc(m, p)] && s'.sets == One(m, p).sets[0 := NextSem(m, p, 0)];
    assert Act(One(m, p), s', 0);
    more := OneStep(run, s');
  }

  /** The process is outside and has created the set n times, the first time with value 5. */
  predicate Steady(m: Sem, p: Proc, n: nat) {
    && p.pc.Idle? && p.held[0] == n && m.v1 == BIGCOUNT - n && m.v2 == 0
    && m.ready && m.used && m.home == 5
  }

  /** The process calls sem_create with value 7 and comes to read the counter. */
  lemma CreateAgain(run: seq<State>, m: Sem, p: Proc, n: nat) returns (more: seq<State>, m': Sem, p': Proc)
    requires Run(run) && run[|run| - 1] == One(m, p) && Steady(m, p, n)
    ensures Run(more) && more[|more| - 1] == One(m', p')
    ensures m' == LockOp(m, 0) && p' == Proc(CRead, 1, 0, 7, p.held)
  {
    var q := Proc(CGet, 1, 0, 7, p.held);
    assert One(m, q).procs == One(m, p).procs[0 := q];
    assert Call(One(m, p), One(m, q), 0, q);
    more := OneStep(run, One(m, q));
    var r := q.(pc := CLock);
    assert One(m, r).procs == One(m, q).procs[0 := r];
    assert Get(One(m, q), One(m, r), 0);
    more := OneStep(more, One(m, r));
    more := ActOne(more, m, r);
    m', p' := NextSem(m, r, 0), NextProc(m, r);
  }

  lemma FirstLock() returns (run: seq<State>, m: Sem, p: Proc)
    ensures Run(run) && run[|run| - 1] == One(m, p)
    ensures p == Proc(CLock, 1, 0, 5, multiset{}) && m == NewSem(1)
  {
    var s := State(map[], map[], 0, [Proc(Dead, 0, 0, 0, multiset{})]);
    run := [s];
    p := Proc(Idle, 1, 0, 5, multiset{});
    var s1 := Put(s, 0, p);
    assert Call(s, s1, 0, p);
    run := OneStep(run, s1);
    p := p.(pc := CGet);
    var s2 := Put(s1, 0, p);
    assert Call(s1, s2, 0, p);
    run := OneStep(run, s2);
    m, p := NewSem(1), p.(pc := CLock);
    assert One(m, p).procs == s2.procs[0 := p];
    assert GetMakes(s2, One(m, p), 0);
    run := OneStep(run, One(m, p));
  }

  lemma {:induction false} ReachUsers(n: nat) returns (run: seq<State>, m: Sem, p: Proc)
    requires 1 <= n <= BIGCOUNT
    ensures Run(run) && run[|run| - 1] == One(m, p) && Steady(m, p, n)
  {
    if n == 1 {
      run, m, p := FirstLock();
      run := ActOne(run, m, p);
      m, p := NextSem(m, p, 0), NextProc(m, p);
      run := ActOne(run, m, p);
      m, p := NextSem(m, p, 0), NextProc(m, p);
      run := ActOne(run, m, p);
      m, p := NextSem(m, p, 0), NextProc(m, p);
      run := ActOne(run, m, p);
      m, p := NextSem(m, p, 0), NextProc(m, p);
    } else {
      run, m, p := ReachUsers(n - 1);
      run, m, p := CreateAgain(run, m, p, n - 1);
      run := ActOne(run, m, p);
      m, p := NextSem(m, p, 0), NextProc(m, p);
    }
    run := ActOne(run, m, p);
    m, p := NextSem(m, p, 0), NextProc(m, p);
  }

  /** The bound is needed: there is a run in which, with BIGCOUNT users, a sem_create gives
      [0] of a set in use a new value. */
  lemma TooManyUsers() returns (run: seq<State>, m: Sem, p: Proc)
    ensures Run(run) && run[|run| - 1] == One(m, p) && m.used && m.home == 5 && p.held[0] == BIGCOUNT
    ensures StepBy(One(m, p), One(NextSem(m, p, 0), NextProc(m, p)), 0) && NextSem(m, p, 0).home == 7
  {
    run, m, p := ReachUsers(BIGCOUNT);
    run, m, p := CreateAgain(run, m, p, BIGCOUNT);
    run := ActOne(run, m, p);
    m, p := NextSem(m, p, 0), NextProc(m, p);
    var s' := One(NextSem(m, p, 0), NextProc(m, p));
    assert s'.procs == One(m, p).procs[0 := NextProc(m, p)] && s'.sets == One(m, p).sets[0 := NextSem(m, p, 0)];
    assert Act(One(m, p), s', 0);
  }
}
