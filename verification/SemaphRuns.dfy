/** What the value of a semaphore is over a run, from the arguments of the calls. */
module SemaphRuns {
  import opened Semaph
  import opened SemaphInv

  // ---------------------------------------------------------------- what a step does, by the points of the processes

  /** Process i exits. */
  predicate Exits(s: State, s': State, i: nat) {
    i < |s.procs| == |s'.procs| && !s.procs[i].pc.Dead? && s'.procs[i].pc.Dead?
  }

  /** Process i returns from sem_op on set id. */
  predicate OpDone(s: State, s': State, i: nat, id: nat) {
    i < |s.procs| == |s'.procs| && s.procs[i].pc.Op? && s.procs[i].id == id && s'.procs[i].pc.Idle?
  }

  /** Process i sets [0] of set id. */
  predicate Sets(s: State, s': State, i: nat, id: nat) {
    i < |s.procs| == |s'.procs| && s.procs[i].pc.CSet0? && s.procs[i].id == id && s'.procs[i].pc.CSet1?
  }

  /** Only the stepping process moves. */
  lemma OneMoves(s: State, s': State, i: nat, j: nat)
    requires StepBy(s, s', i) && j < |s.procs|
    ensures |s'.procs| == |s.procs| && (j != i ==> s'.procs[j] == s.procs[j])
  {
  }

  /** A step other than an exit changes a set only by a system call on it. */
  lemma StepEffect(s: State, s': State, j: nat, id: nat)
    requires StepBy(s, s', j) && id in s.sets && id in s'.sets && id < s.next
    ensures Exit(s, s', j) || s'.sets[id] == s.sets[id] || (Act(s, s', j) && s.procs[j].id == id)
  {
  }

  lemma OpActs(s: State, s': State, i: nat, id: nat)
    requires Step(s, s') && OpDone(s, s', i, id)
    ensures Act(s, s', i) && id in s.sets && s'.sets.Keys == s.sets.Keys
    ensures Enabled(s.sets[id], s.procs[i]) && s'.sets == s.sets[id := NextSem(s.sets[id], s.procs[i], i)]
  {
    var j: nat :| StepBy(s, s', j);
    OneMoves(s, s', j, i);
  }

  lemma OpSem(m: Sem, p: Proc, i: nat)
    requires p.pc.Op? && Enabled(m, p)
    ensures var m' := NextSem(m, p, i);
            && 0 <= m'.v0 == m.v0 + p.arg <= SEMVMX && m'.v1 == m.v1 && m'.v2 == m.v2
            && (i < |m.adj0| ==> m'.adj0 == m.adj0[i := m.adj0[i] - p.arg])
            && m'.adj1 == m.adj1 && m'.adj2 == m.adj2
  {
  }

  /** sem_op with amount d waits exactly while [0] would leave its range, then adds d to [0]
      of its set and -d to what its exit will add, and changes no other value or set. */
  lemma OpAdds(s: State, s': State, i: nat, id: nat)
    requires Step(s, s') && OpDone(s, s', i, id)
    ensures id in s.sets && s'.sets.Keys == s.sets.Keys
    ensures var m, m', d := s.sets[id], s'.sets[id], s.procs[i].arg;
            && 0 <= m'.v0 == m.v0 + d <= SEMVMX && m'.v1 == m.v1 && m'.v2 == m.v2
            && (i < |m.adj0| ==> m'.adj0 == m.adj0[i := m.adj0[i] - d])
            && m'.adj1 == m.adj1 && m'.adj2 == m.adj2
    ensures forall k :: k in s.sets && k != id ==> s'.sets[k] == s.sets[k]
  {
    OpActs(s, s', i, id);
    OpSem(s.sets[id], s.procs[i], i);
  }

  /** A process at sem_op can go on exactly if [0] stays in its range: a wait for 1 exactly if
      [0] is positive. */
  lemma OpWaitsIff(s: State, i: nat)
    requires i < |s.procs| && s.procs[i].pc.Op? && s.procs[i].id in s.sets
    ensures (exists s' :: StepBy(s, s', i) && OpDone(s, s', i, s.procs[i].id))
            <==> 0 <= s.sets[s.procs[i].id].v0 + s.procs[i].arg <= SEMVMX
  {
    var p := s.procs[i];
    var m := s.sets[p.id];
    if Enabled(m, p) {
      var s' := PutSem(Put(s, i, NextProc(m, p)), p.id, NextSem(m, p, i));
      assert Act(s, s', i) && StepBy(s, s', i) && OpDone(s, s', i, p.id);
    }
  }

  /** The first sem_create gives [0] the value of its argument. */
  lemma CreateSets(s: State, s': State, i: nat, id: nat)
    requires Step(s, s') && Sets(s, s', i, id)
    ensures id in s.sets && s'.sets.Keys == s.sets.Keys && 0 <= s'.sets[id].v0 == s.procs[i].arg <= SEMVMX
    ensures s'.sets[id].v1 == s.sets[id].v1 && s'.sets[id].v2 == s.sets[id].v2
    ensures forall k :: k in s.sets && k != id ==> s'.sets[k] == s.sets[k]
  {
    var j: nat :| StepBy(s, s', j);
    OneMoves(s, s', j, i);
  }

  /** sem_create gets the set of its key, which is new exactly if the key had none. */
  lemma CreateFinds(s: State, s': State, i: nat)
    requires Step(s, s') && i < |s.procs| == |s'.procs| && s.procs[i].pc.CGet? && s'.procs[i].pc.CLock?
    ensures var key, id := s.procs[i].key, s'.procs[i].id;
            && key in s'.keys && s'.keys[key] == id
            && (if key in s.keys then s'.keys == s.keys && s'.sets == s.sets
                else s'.keys == s.keys[key := id] && id == s.next && s'.sets == s.sets[id := NewSem(|s.procs|)])
  {
    var j: nat :| StepBy(s, s', j);
    OneMoves(s, s', j, i);
  }

  /** With fewer than BIGCOUNT users, a sem_close that reads the counter goes on to remove the
      set exactly if nobody uses it any more, and else gives back the lock. */
  lemma CloseRemovesIff(s: State, s': State, i: nat)
    requires Inv(s) && FewUsers(s) && Act(s, s', i) && s.procs[i].pc.XRead?
    ensures s'.procs[i].pc.XRemove? <==> Users(s.procs, s.procs[i].id) == 0
    ensures s'.procs[i].pc.XUnlock? <==> Users(s.procs, s.procs[i].id) > 0
  {
    var p := s.procs[i];
    assert ProcInv(s, p);
    CounterIsUsers(s.sets[p.id], p.id, s.procs);
  }

  /** A removal takes away the set and the keys that lead to it, and nothing else. */
  lemma RemovesOne(s: State, s': State, i: nat)
    requires Remove(s, s', i)
    ensures var id := s.procs[i].id;
            && id !in s'.sets && s'.sets == s.sets - {id}
            && (forall k :: k in s'.keys <==> k in s.keys && s.keys[k] != id)
            && (forall k :: k in s'.keys ==> s'.keys[k] == s.keys[k])
  {
  }

  /** An exit gives back what the process took by sem_op, as far as the range allows. */
  lemma ExitUndoes(s: State, s': State, i: nat, id: nat)
    requires Step(s, s') && Exits(s, s', i) && id in s.sets && i < |s.sets[id].adj0|
    ensures id in s'.sets && 0 <= s'.sets[id].v0 <= SEMVMX && s'.sets[id].adj0 == s.sets[id].adj0[i := 0]
    ensures var v := s.sets[id].v0 + s.sets[id].adj0[i];
            s'.sets[id].v0 == if v < 0 then 0 else if v > SEMVMX then SEMVMX else v
  {
    var j: nat :| StepBy(s, s', j);
    OneMoves(s, s', j, i);
  }

  /** Neither an exit nor a value set in set id. */
  ghost predicate Calm(s: State, s': State, id: nat) {
    forall i: nat :: !Exits(s, s', i) && !Sets(s, s', i, id)
  }

  /** Which system calls change [0] or the undo values for it. */
  lemma CallKeeps(m: Sem, p: Proc, i: nat)
    requires !p.pc.Op? && !p.pc.CSet0?
    ensures NextSem(m, p, i).v0 == m.v0 && NextSem(m, p, i).adj0 == m.adj0
  {
  }

  lemma ActEnds(s: State, s': State, i: nat)
    requires Act(s, s', i)
    ensures s.procs[i].pc.Op? ==> OpDone(s, s', i, s.procs[i].id)
    ensures s.procs[i].pc.CSet0? ==> Sets(s, s', i, s.procs[i].id)
  {
  }

  /** No other step changes [0] or what an exit will add to it. */
  lemma OthersKeep(s: State, s': State, id: nat)
    requires Step(s, s') && id in s.sets && id in s'.sets && id < s.next && Calm(s, s', id)
    requires forall i: nat :: !OpDone(s, s', i, id)
    ensures s'.sets[id].v0 == s.sets[id].v0 && s'.sets[id].adj0 == s.sets[id].adj0
  {
    var j: nat :| StepBy(s, s', j);
    assert !Exits(s, s', j) && !Sets(s, s', j, id) && !OpDone(s, s', j, id);
    StepEffect(s, s', j, id);
    if Act(s, s', j) && s.procs[j].id == id {
      ActEnds(s, s', j);
      CallKeeps(s.sets[id], s.procs[j], j);
    }
  }

  // ---------------------------------------------------------------- sums over runs

  /** The amount of the sem_op on set id that returns in this step, 0 if none does. */
  ghost function Amount(s: State, s': State, id: nat): int {
    if i: nat :| OpDone(s, s', i, id) then s.procs[i].arg else 0
  }

  ghost function AmountAt(run: seq<State>, t: nat, id: nat): int
    requires t + 1 < |run|
  {
    Amount(run[t], run[t + 1], id)
  }

  /** All that the calls of sem_op from t to u add, and take. */
  ghost function Signalled(run: seq<State>, t: nat, u: nat, id: nat): nat
    requires t <= u < |run|
    decreases u
  {
    if t == u then 0
    else Signalled(run, t, u - 1, id) + if AmountAt(run, u - 1, id) > 0 then AmountAt(run, u - 1, id) else 0
  }

  ghost function Waited(run: seq<State>, t: nat, u: nat, id: nat): nat
    requires t <= u < |run|
    decreases u
  {
    if t == u then 0
    else Waited(run, t, u - 1, id) + if AmountAt(run, u - 1, id) < 0 then -AmountAt(run, u - 1, id) else 0
  }

  ghost predicate CalmAt(run: seq<State>, t: nat, id: nat)
    requires t + 1 < |run|
  {
    Calm(run[t], run[t + 1], id)
  }

  lemma StepAmount(s: State, s': State, id: nat)
    requires Step(s, s') && id in s.sets && id in s'.sets && id < s.next && Calm(s, s', id)
    ensures s'.sets[id].v0 == s.sets[id].v0 + Amount(s, s', id)
  {
    if i: nat :| OpDone(s, s', i, id) {
      OneReturns(s, s', i, id);
      OpAdds(s, s', i, id);
    } else {
      OthersKeep(s, s', id);
    }
  }

  lemma OneReturns(s: State, s': State, i: nat, id: nat)
    requires Step(s, s') && OpDone(s, s', i, id)
    ensures Amount(s, s', id) == s.procs[i].arg
  {
    var j: nat :| StepBy(s, s', j);
    forall k: nat | OpDone(s, s', k, id) ensures k == j { OneMoves(s, s', j, k); }
  }

  // ---------------------------------------------------------------- sets over runs

  ghost predicate Ranged(s: State) {
    forall id :: id in s.sets ==> id < s.next && InRange(s.sets[id])
  }

  predicate InRange(m: Sem) { 0 <= m.v0 <= SEMVMX }

  lemma CallRanged(m: Sem, p: Proc, i: nat)
    requires InRange(m) && Enabled(m, p)
    ensures InRange(NextSem(m, p, i))
  {
    if !p.pc.Op? && !p.pc.CSet0? { CallKeeps(m, p, i); }
  }

  lemma SetRanged(s: State, s': State, i: nat, id: nat)
    requires StepBy(s, s', i) && Ranged(s) && id in s'.sets && id in s.sets
    ensures id < s'.next && InRange(s'.sets[id])
  {
    assert InRange(s.sets[id]) && id < s.next;
    StepEffect(s, s', i, id);
    StepNext(s, s', i, id);
    if Act(s, s', i) && s.procs[i].id == id { CallRanged(s.sets[id], s.procs[i], i); }
  }

  lemma StepRanged(s: State, s': State, i: nat)
    requires StepBy(s, s', i) && Ranged(s)
    ensures Ranged(s')
  {
    forall id | id in s'.sets ensures id < s'.next && InRange(s'.sets[id]) {
      if id in s.sets { SetRanged(s, s', i, id); }
    }
  }

  /** In every state of every run the value of every semaphore is in its range. */
  lemma {:induction false} RunRanged(run: seq<State>, t: nat)
    requires Run(run) && t < |run|
    ensures Ranged(run[t])
  {
    if t > 0 {
      RunRanged(run, t - 1);
      assert StepAt(run, t - 1);
      var i :| StepBy(run[t - 1], run[t], i);
      StepRanged(run[t - 1], run[t], i);
    }
  }

  /** A set that is there at t and at u is there in between. */
  lemma StaysBetween(run: seq<State>, t: nat, u: nat, id: nat)
    requires Run(run) && t < u < |run| && id in run[t].sets && id in run[u].sets
    ensures id in run[u - 1].sets && id < run[u - 1].next
  {
    RunRanged(run, t);
    NextGrows(run, t, u - 1);
    assert StepAt(run, u - 1);
    var i :| StepBy(run[u - 1], run[u], i);
    StepNext(run[u - 1], run[u], i, id);
  }

  /** Between two states of a run without exit and without a new initial value, [0] changes by
      exactly the amounts of the calls of sem_op that return. */
  lemma {:induction false} RunAdds(run: seq<State>, t: nat, u: nat, id: nat)
    requires Run(run) && t <= u < |run| && id in run[t].sets && id in run[u].sets
    requires forall k :: t <= k < u ==> CalmAt(run, k, id)
    ensures run[u].sets[id].v0 == run[t].sets[id].v0 + Signalled(run, t, u, id) - Waited(run, t, u, id)
    decreases u
  {
    if t < u {
      StaysBetween(run, t, u, id);
      RunAdds(run, t, u - 1, id);
      assert StepAt(run, u - 1) && CalmAt(run, u - 1, id);
      StepAmount(run[u - 1], run[u], id);
    }
  }

  /** What has been waited for never exceeds the initial value and what has been signalled. */
  lemma WaitsBounded(run: seq<State>, t: nat, u: nat, id: nat, i: nat)
    requires Run(run) && t < u < |run| && Sets(run[t], run[t + 1], i, id) && id in run[u].sets
    requires forall k :: t + 1 <= k < u ==> CalmAt(run, k, id)
    ensures Waited(run, t + 1, u, id) <= run[t].procs[i].arg + Signalled(run, t + 1, u, id)
  {
    assert StepAt(run, t);
    CreateSets(run[t], run[t + 1], i, id);
    RunAdds(run, t + 1, u, id);
    RunRanged(run, u);
  }

  // ---------------------------------------------------------------- one process

  /** The amounts of process i on set id from t to u. */
  ghost function Own(run: seq<State>, t: nat, u: nat, id: nat, i: nat): int
    requires t <= u < |run|
    decreases u
  {
    if t == u then 0 else Own(run, t, u - 1, id, i) + OwnAt(run, u - 1, id, i)
  }

  ghost function OwnAt(run: seq<State>, t: nat, id: nat, i: nat): int
    requires t + 1 < |run|
  {
    if OpDone(run[t], run[t + 1], i, id) then run[t].procs[i].arg else 0
  }

  lemma ExitKeepsOthers(s: State, s': State, j: nat, id: nat, i: nat)
    requires Exit(s, s', j) && id in s.sets && i < |s.sets[id].adj0| && !Exits(s, s', i)
    ensures |s'.sets[id].adj0| == |s.sets[id].adj0| && s'.sets[id].adj0[i] == s.sets[id].adj0[i]
    ensures !OpDone(s, s', i, id)
  {
    assert s'.sets[id].adj0 == Bump(s.sets[id].adj0, j, -At(s.sets[id].adj0, j));
  }

  lemma UnmovedOp(s: State, s': State, j: nat, id: nat, i: nat)
    requires StepBy(s, s', j) && OpDone(s, s', i, id)
    ensures Act(s, s', j) && j == i
  {
    OneMoves(s, s', j, i);
  }

  lemma StepOwn(s: State, s': State, id: nat, i: nat)
    requires Step(s, s') && id in s.sets && id in s'.sets && id < s.next && i < |s.sets[id].adj0|
    requires NotSet(s, s', id) && !Exits(s, s', i)
    ensures |s'.sets[id].adj0| == |s.sets[id].adj0|
    ensures s'.sets[id].adj0[i] == s.sets[id].adj0[i] - if OpDone(s, s', i, id) then s.procs[i].arg else 0
  {
    var j: nat :| StepBy(s, s', j);
    StepEffect(s, s', j, id);
    if OpDone(s, s', i, id) { UnmovedOp(s, s', j, id, i); }
    if Exit(s, s', j) {
      ExitKeepsOthers(s, s', j, id, i);
    } else if Act(s, s', j) && s.procs[j].id == id {
      assert !Sets(s, s', j, id);
      ActOwnAmount(s, s', j, id, i);
    }
  }

  lemma ActOwnAmount(s: State, s': State, j: nat, id: nat, i: nat)
    requires Act(s, s', j) && s.procs[j].id == id && i < |s.sets[id].adj0| && !Sets(s, s', j, id)
    ensures |s'.sets[id].adj0| == |s.sets[id].adj0|
    ensures s'.sets[id].adj0[i] == s.sets[id].adj0[i] - if OpDone(s, s', i, id) then s.procs[i].arg else 0
  {
    ActEnds(s, s', j);
    if !s.procs[j].pc.Op? { CallKeeps(s.sets[id], s.procs[j], j); }
  }

  ghost predicate NotSet(s: State, s': State, id: nat) {
    forall k: nat :: !Sets(s, s', k, id)
  }

  ghost predicate NotSetAt(run: seq<State>, t: nat, id: nat)
    requires t + 1 < |run|
  {
    NotSet(run[t], run[t + 1], id)
  }

  ghost predicate LivesAt(run: seq<State>, t: nat, i: nat)
    requires t + 1 < |run|
  {
    !Exits(run[t], run[t + 1], i)
  }

  /** What an exit of process i will add to [0] is what its calls of sem_op took since, whatever
      other processes do. */
  lemma {:induction false} RunOwn(run: seq<State>, t: nat, u: nat, id: nat, i: nat)
    requires Run(run) && t <= u < |run| && id in run[t].sets && id in run[u].sets && i < |run[t].sets[id].adj0|
    requires forall k :: t <= k < u ==> NotSetAt(run, k, id) && LivesAt(run, k, i)
    ensures |run[u].sets[id].adj0| == |run[t].sets[id].adj0|
    ensures run[u].sets[id].adj0[i] == run[t].sets[id].adj0[i] - Own(run, t, u, id, i)
    decreases u
  {
    if t < u {
      StaysBetween(run, t, u, id);
      RunOwn(run, t, u - 1, id, i);
      assert StepAt(run, u - 1) && NotSetAt(run, u - 1, id) && LivesAt(run, u - 1, i);
      StepOwn(run[u - 1], run[u], id, i);
    }
  }
}
