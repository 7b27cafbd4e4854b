/** One order of all calls: in every run, the calls of all processes have the results and the
    effects of the same operations done one at a time, each at the moment it unlocks. */
module DbLinear {
  import opened DbFormat
  import opened DbSteps
  import opened DbInvariant
  import opened DbFrame
  import opened DbSafety
  import opened DbRuns

  type Table = map<string, string>

  predicate SameAt(m: Table, n: Table, key: string) {
    (key in m <==> key in n) && (key in m ==> m[key] == n[key])
  }

  /** An operation reads and writes its own key only. */
  lemma ApplyAt(op: Op, m: Table, n: Table, key: string)
    requires SameAt(m, n, op.key) && SameAt(m, n, key)
    ensures Apply(op, m).1 == Apply(op, n).1 && SameAt(Apply(op, m).0, Apply(op, n).0, key)
    ensures key != op.key ==> SameAt(Apply(op, m).0, m, key)
  {
  }

  predicate UsesChain(p: Proc, k: nat) { HoldsChain(p) && Bucket(p.op) == k }

  predicate WritingChain(p: Proc, k: nat) { WritesChain(p) && Bucket(p.op) == k }

  ghost predicate BeingWritten(s: State, k: nat) {
    exists i :: 0 <= i < |s.procs| && WritingChain(s.procs[i], k)
  }

  /** The table agrees at key with what process i found when it locked its chain. */
  ghost predicate AgreesWith(m: Table, s: State, a: Aux, key: string, i: nat)
    requires i < |s.procs| == |a.info|
  {
    UsesChain(s.procs[i], 1 + Hash(key)) ==> SameAt(m, a.info[i].base, key)
  }

  /** The table agrees at key with every process that has the chain of key locked, and with
      the chain itself unless a process is writing it. */
  ghost predicate Agrees(m: Table, s: State, a: Aux, key: string)
    requires |s.procs| == |a.info| && |a.view| == SLOTS
  {
    && (forall i :: 0 <= i < |s.procs| ==> AgreesWith(m, s, a, key, i))
    && (!BeingWritten(s, 1 + Hash(key)) ==> SameAt(m, a.view[1 + Hash(key)], key))
  }

  ghost predicate Ends(s: State, s': State, i: nat) {
    i < |s.procs| == |s'.procs| && s.procs[i].pc.Unlock? && s'.procs[i].pc.Idle?
  }

  /** The table after a step: a call that unlocks does its operation there. */
  function Next(m: Table, s: State, i: nat): Table
    requires i < |s.procs|
  {
    if s.procs[i].pc.Unlock? then Apply(s.procs[i].op, m).0 else m
  }

  // ---------------------------------------------------------------- one step

  /** A step other than a lock or an unlock leaves the holders of chains alone. */
  lemma SameHolder(d: Disk, p: Proc)
    requires !p.pc.Idle? && !p.pc.WantChain? && !p.pc.Unlock?
    ensures HoldsChain(p) && HoldsChain(StepProc(d, p)) && StepProc(d, p).op == p.op
  {
  }

  /** The stepping process, by what its step does to the locks. */
  lemma HolderOf(s: State, a: Aux, s': State, a': Aux, i: nat)
    requires Inv(s, a) && Advances(s, a, s', a', i)
    ensures var p, p' := s.procs[i], s'.procs[i];
            || (p.pc.Idle? && p'.pc.WantChain?)
            || (p.pc.WantChain? && HoldsChain(p') && p'.op == p.op && Enabled(s, i))
            || (p.pc.Unlock? && p'.pc.Idle?)
            || (HoldsChain(p) && HoldsChain(p') && p'.op == p.op && !p.pc.Unlock?)
  {
    var p := s.procs[i];
    if !p.pc.Idle? && !p.pc.WantChain? && !p.pc.Unlock? { SameHolder(s.disk, p); }
  }

  lemma LocksChain(s: State, a: Aux, s': State, a': Aux, i: nat, k: nat)
    requires Inv(s, a) && Advances(s, a, s', a', i) && s.procs[i].pc.WantChain? && UsesChain(s'.procs[i], k)
    ensures !BeingWritten(s, k) && a'.info[i].base == a.view[k]
  {
    HolderOf(s, a, s', a', i);
    forall j | 0 <= j < |s.procs| ensures !WritingChain(s.procs[j], k) {
      assert j != i ==> !Conflict(s.procs[i], s.procs[j]);
    }
  }

  lemma ViewStays(s: State, a: Aux, s': State, a': Aux, i: nat, k: nat)
    requires Inv(s, a) && Advances(s, a, s', a', i) && 1 <= k < SLOTS && !WritingChain(s.procs[i], k)
    ensures a'.view[k] == a.view[k]
  {
    assert ListKept(s.procs[i], a, a', k);
  }

  /** Until a call unlocks, the table stays. */
  lemma StepAgrees(m: Table, s: State, a: Aux, s': State, a': Aux, i: nat, key: string)
    requires Inv(s, a) && Advances(s, a, s', a', i) && !s.procs[i].pc.Unlock? && Agrees(m, s, a, key)
    ensures Agrees(m, s', a', key)
  {
    var k := 1 + Hash(key);
    assert OthersKept(s, a, s', a', i);
    HolderOf(s, a, s', a', i);
    forall j | 0 <= j < |s'.procs| ensures AgreesWith(m, s', a', key, j) {
      assert AgreesWith(m, s, a, key, j);
      if j == i && s.procs[i].pc.WantChain? && UsesChain(s'.procs[i], k) { LocksChain(s, a, s', a', i, k); }
    }
    if !BeingWritten(s', k) {
      assert !WritingChain(s'.procs[i], k);
      StepFrees(s, a, s', a', i, k);
      ViewStays(s, a, s', a', i, k);
    }
  }

  lemma StepFrees(s: State, a: Aux, s': State, a': Aux, i: nat, k: nat)
    requires Inv(s, a) && Advances(s, a, s', a', i) && !s.procs[i].pc.Unlock? && !BeingWritten(s', k)
    ensures !BeingWritten(s, k) && !WritingChain(s.procs[i], k)
  {
    assert OthersKept(s, a, s', a', i);
    HolderOf(s, a, s', a', i);
    forall j | 0 <= j < |s.procs| ensures !WritingChain(s.procs[j], k) {
      assert !WritingChain(s'.procs[j], k);
    }
  }

  /** A call that unlocks has the result of its operation on the table. */
  lemma UnlockResult(m: Table, s: State, a: Aux, i: nat)
    requires Inv(s, a) && i < |s.procs| && s.procs[i].pc.Unlock? && Agrees(m, s, a, s.procs[i].op.key)
    ensures Means(s.procs[i].op, m, Apply(s.procs[i].op, m).0, s.procs[i].res)
  {
    var op := s.procs[i].op;
    assert Local(s, a, i) && AgreesWith(m, s, a, op.key, i);
    ApplyAt(op, m, a.info[i].base, op.key);
    ApplyMeans(op, m);
  }

  /** At another key, or after a fetch, the table is as it was. */
  lemma UnlockElsewhere(m: Table, op: Op, key: string)
    requires key != op.key || op.FetchOp?
    ensures SameAt(Apply(op, m).0, m, key)
  {
  }

  /** After it unlocks, the table agrees with the chain again. */
  lemma UnlockAgrees(m: Table, s: State, a: Aux, s': State, a': Aux, i: nat, key: string)
    requires Inv(s, a) && Advances(s, a, s', a', i) && s.procs[i].pc.Unlock? && Agrees(m, s, a, key)
    requires Agrees(m, s, a, s.procs[i].op.key)
    ensures Agrees(Apply(s.procs[i].op, m).0, s', a', key)
  {
    var k, op := 1 + Hash(key), s.procs[i].op;
    assert OthersKept(s, a, s', a', i);
    HolderOf(s, a, s', a', i);
    forall j | 0 <= j < |s'.procs| ensures AgreesWith(Apply(op, m).0, s', a', key, j) {
      UnlockOthers(m, s, a, s', a', i, key, j);
    }
    if !BeingWritten(s', k) { UnlockView(m, s, a, s', a', i, key); }
  }

  lemma UnlockOthers(m: Table, s: State, a: Aux, s': State, a': Aux, i: nat, key: string, j: nat)
    requires Inv(s, a) && Advances(s, a, s', a', i) && s.procs[i].pc.Unlock? && Agrees(m, s, a, key)
    requires j < |s.procs|
    ensures AgreesWith(Apply(s.procs[i].op, m).0, s', a', key, j)
  {
    assert OthersKept(s, a, s', a', i);
    HolderOf(s, a, s', a', i);
    assert AgreesWith(m, s, a, key, j);
    if j != i && UsesChain(s.procs[j], 1 + Hash(key)) {
      assert Exclusive(s, i, j);
      UnlockElsewhere(m, s.procs[i].op, key);
    }
  }

  lemma UnlockView(m: Table, s: State, a: Aux, s': State, a': Aux, i: nat, key: string)
    requires Inv(s, a) && Advances(s, a, s', a', i) && s.procs[i].pc.Unlock? && Agrees(m, s, a, key)
    requires Agrees(m, s, a, s.procs[i].op.key) && !BeingWritten(s', 1 + Hash(key))
    ensures SameAt(Apply(s.procs[i].op, m).0, a'.view[1 + Hash(key)], key)
  {
    var k, op := 1 + Hash(key), s.procs[i].op;
    if WritingChain(s.procs[i], k) {
      assert Local(s, a, i) && AgreesWith(m, s, a, key, i) && AgreesWith(m, s, a, op.key, i);
      ApplyAt(op, m, a.info[i].base, key);
    } else {
      forall j | 0 <= j < |s.procs| ensures !WritingChain(s.procs[j], k) {
        assert OthersKept(s, a, s', a', i) && !WritingChain(s'.procs[j], k);
      }
      UnlockElsewhere(m, op, key);
    }
  }

  ghost predicate AgreesAll(m: Table, s: State, a: Aux) {
    |s.procs| == |a.info| && |a.view| == SLOTS && forall key :: Agrees(m, s, a, key)
  }

  lemma NextAgrees(m: Table, s: State, a: Aux, s': State, a': Aux, i: nat)
    requires Inv(s, a) && Advances(s, a, s', a', i) && AgreesAll(m, s, a)
    ensures AgreesAll(Next(m, s, i), s', a')
  {
    forall key ensures Agrees(Next(m, s, i), s', a', key) {
      assert Agrees(m, s, a, key);
      if s.procs[i].pc.Unlock? {
        assert Agrees(m, s, a, s.procs[i].op.key);
        UnlockAgrees(m, s, a, s', a', i, key);
      } else {
        StepAgrees(m, s, a, s', a', i, key);
      }
    }
  }

  // ---------------------------------------------------------------- every run

  /** A step changes the table only by the operation of a call that unlocks in it, and that
      call has the result of its operation. */
  ghost predicate SerialStep(s: State, m: Table, s': State, m': Table) {
    && (forall i: nat :: Ends(s, s', i) ==> Means(s.procs[i].op, m, m', s.procs[i].res))
    && ((forall i: nat :: !Ends(s, s', i)) ==> m' == m)
  }

  ghost predicate SerialAt(run: seq<State>, ms: seq<Table>, t: nat)
    requires t + 1 < |ms| <= |run|
  {
    SerialStep(run[t], ms[t], run[t + 1], ms[t + 1])
  }

  /** The tables of the first states of the run, from the empty one. */
  ghost predicate Serial(run: seq<State>, ms: seq<Table>) {
    0 < |ms| <= |run| && ms[0] == map[] && forall t :: 0 <= t < |ms| - 1 ==> SerialAt(run, ms, t)
  }

  lemma OneEnds(m: Table, s: State, a: Aux, s': State, a': Aux, i: nat, j: nat)
    requires Inv(s, a) && Advances(s, a, s', a', i) && AgreesAll(m, s, a)
    ensures Ends(s, s', j) <==> j == i && s.procs[i].pc.Unlock?
    ensures Ends(s, s', j) ==> Means(s.procs[j].op, m, Next(m, s, i), s.procs[j].res)
  {
    assert OthersKept(s, a, s', a', i);
    HolderOf(s, a, s', a', i);
    if Ends(s, s', j) {
      assert Agrees(m, s, a, s.procs[i].op.key);
      UnlockResult(m, s, a, i);
    }
  }

  lemma StepSerial(m: Table, s: State, a: Aux, s': State, a': Aux, i: nat)
    requires Inv(s, a) && Advances(s, a, s', a', i) && AgreesAll(m, s, a)
    ensures SerialStep(s, m, s', Next(m, s, i))
  {
    forall j: nat
      ensures Ends(s, s', j) <==> j == i && s.procs[i].pc.Unlock?
      ensures Ends(s, s', j) ==> Means(s.procs[j].op, m, Next(m, s, i), s.procs[j].res)
    {
      OneEnds(m, s, a, s', a', i, j);
    }
    assert Ends(s, s', i) <==> s.procs[i].pc.Unlock?;
  }

  lemma Snoc(run: seq<State>, ms: seq<Table>, m: Table)
    requires Serial(run, ms) && |ms| < |run| && SerialStep(run[|ms| - 1], ms[|ms| - 1], run[|ms|], m)
    ensures Serial(run, ms + [m])
  {
    forall t | 0 <= t < |ms| ensures SerialAt(run, ms + [m], t) {
      if t < |ms| - 1 { assert SerialAt(run, ms, t); }
    }
  }

  lemma InitAgrees(s: State)
    requires Init(s)
    ensures AgreesAll(map[], s, InitAux(|s.procs|))
  {
    var a := InitAux(|s.procs|);
    forall key ensures Agrees(map[], s, a, key) {
      forall i | 0 <= i < |s.procs| ensures AgreesWith(map[], s, a, key, i) {}
    }
  }

  lemma {:induction false} Linearize(run: seq<State>, t: nat) returns (ms: seq<Table>, a: Aux)
    requires Run(run) && t < |run|
    ensures |ms| == t + 1 && Serial(run, ms) && Inv(run[t], a) && AgreesAll(ms[t], run[t], a)
  {
    if t == 0 {
      InitInv(run[0]);
      InitAgrees(run[0]);
      ms, a := [map[]], InitAux(|run[0].procs|);
    } else {
      var ns, b := Linearize(run, t - 1);
      var i;
      a, i := NextSafe(run, t - 1, b);
      var m := Next(ns[t - 1], run[t - 1], i);
      StepSerial(ns[t - 1], run[t - 1], b, run[t], a, i);
      NextAgrees(ns[t - 1], run[t - 1], b, run[t], a, i);
      Snoc(run, ns, m);
      ms := ns + [m];
    }
  }

  // ---------------------------------------------------------------- the files

  /** The entries of the table that belong to chain k. */
  function Part(m: Table, k: nat): Table {
    map key | key in m && 1 + Hash(key) == k :: m[key]
  }

  lemma SameTables(m: Table, n: Table)
    requires forall key :: SameAt(m, n, key)
    ensures m == n
  {
    forall key ensures (key in m <==> key in n) && (key in m ==> m[key] == n[key]) { assert SameAt(m, n, key); }
  }

  lemma ViewKeys(s: State, a: Aux, k: nat, key: string)
    requires Inv(s, a) && 1 <= k < SLOTS && key in a.view[k]
    ensures 1 + Hash(key) == k
  {
    assert View(s, a, k) && Stored(s, a, k, key);
    var j :| 0 <= j < |a.chains[k]| && HasKey(s, a, k, j, key);
    assert Entry(s, a, k, j);
  }

  lemma ViewIsPart(m: Table, s: State, a: Aux, k: nat)
    requires Inv(s, a) && 1 <= k < SLOTS && !BeingWritten(s, k) && AgreesAll(m, s, a)
    ensures a.view[k] == Part(m, k)
  {
    forall key ensures SameAt(a.view[k], Part(m, k), key) {
      if key in a.view[k] { ViewKeys(s, a, k, key); }
      assert Agrees(m, s, a, key);
    }
    SameTables(a.view[k], Part(m, k));
  }

  lemma NoUnlinking(s: State, a: Aux, k: nat)
    requires Inv(s, a) && !BeingWritten(s, k)
    ensures forall i: nat :: !Unlinking(s, i, k)
  {
    forall i: nat | i < |s.procs| && Pending(s.procs[i]) ensures Bucket(s.procs[i].op) != k {
      assert Local(s, a, i) && !WritingChain(s.procs[i], k);
    }
  }

  /** Each chain that no process is writing holds, in the files, its part of the table. */
  ghost predicate Holds(s: State, m: Table) {
    forall k :: 1 <= k < SLOTS && !BeingWritten(s, k) ==> ChainIs(s.disk, k, Part(m, k))
  }

  lemma TableOnDisk(m: Table, s: State, a: Aux)
    requires Inv(s, a) && AgreesAll(m, s, a)
    ensures Holds(s, m)
  {
    forall k | 1 <= k < SLOTS && !BeingWritten(s, k) ensures ChainIs(s.disk, k, Part(m, k)) {
      NoUnlinking(s, a, k);
      ListOnDisk(s, a, k);
      ViewCarried(s, a, k);
      ViewIsPart(m, s, a, k);
    }
  }

  /** The whole database is one table with atomic operations: every run has a table for each
      of its states, at first empty, such that a call that unlocks changes the table by its
      operation and has the result of that operation, and nothing else changes it.  At the
      end, the files hold the table in the chains that no process is writing. */
  lemma Linearizable(run: seq<State>) returns (ms: seq<Table>)
    requires Run(run)
    ensures |ms| == |run| && Serial(run, ms) && Holds(run[|run| - 1], ms[|run| - 1])
  {
    var a;
    ms, a := Linearize(run, |run| - 1);
    TableOnDisk(ms[|run| - 1], run[|run| - 1], a);
  }
}
