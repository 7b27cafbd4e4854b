/** Safety of every interleaving of fetch, store and delete by any number of processes. */
module DbSafety {
  import opened DbFormat
  import opened DbSteps
  import opened DbInvariant
  import opened DbFrame
  import opened DbQuiet
  import opened DbWriteSteps
  import opened DbLinkSteps

  // ---------------------------------------------------------------- the invariant over runs

  lemma EnabledStep(s: State, a: Aux, i: nat)
    requires Inv(s, a) && i < |s.procs| && Enabled(s, i)
    ensures Keeps(s, a, StepOf(s, i), NextAux(s, a, i), i)
  {
    match s.procs[i].pc
    case Idle => assert false;
    case WantChain => StepWantChain(s, a, i);
    case ReadHead => StepReadHead(s, a, i);
    case Walk => StepWalk(s, a, i);
    case FetchDat => StepFetchDat(s, a, i);
    case StOver => StepStOver(s, a, i);
    case WantFreeD => StepWantFreeD(s, a, i);
    case DelDat => StepDelDat(s, a, i);
    case DelReadFree => StepDelReadFree(s, a, i);
    case DelIdx => StepDelIdx(s, a, i);
    case DelFreeHead => StepDelFreeHead(s, a, i);
    case DelChain => StepDelChain(s, a, i);
    case DelUnlockFree => StepDelUnlockFree(s, a, i);
    case StReadHead => StepStReadHead(s, a, i);
    case WantFreeS => StepWantFreeS(s, a, i);
    case SReadFree => StepSReadFree(s, a, i);
    case SWalk => StepSWalk(s, a, i);
    case STake => StepSTake(s, a, i);
    case SUnlockHit => StepSUnlockHit(s, a, i);
    case SUnlockMiss => StepSUnlockMiss(s, a, i);
    case SDat => StepSDat(s, a, i);
    case SIdx => StepSIdx(s, a, i);
    case AReadHead => StepAReadHead(s, a, i);
    case WantDat => StepWantDat(s, a, i);
    case ADat => StepADat(s, a, i);
    case AUnlockDat => StepAUnlockDat(s, a, i);
    case WantIdx => StepWantIdx(s, a, i);
    case AIdx => StepAIdx(s, a, i);
    case AUnlockIdx => StepAUnlockIdx(s, a, i);
    case SLink => StepSLink(s, a, i);
    case Unlock => StepUnlock(s, a, i);
  }

  /** The entries that a process saw when it locked its chain are remembered, and unlocking
      leaves all entries alone. */
  ghost predicate Remembers(s: State, a: Aux, a': Aux, i: nat)
    requires i < |s.procs| && Shapes(s, a) && |a'.info| == |a.info|
  {
    && a'.info[i].base == (if s.procs[i].pc.WantChain? then a.view[Bucket(s.procs[i].op)] else a.info[i].base)
    && (s.procs[i].pc.Unlock? ==> a'.view == a.view)
  }

  ghost predicate Advances(s: State, a: Aux, s': State, a': Aux, i: nat) {
    StepBy(s, s', i) && Shapes(s, a) && Keeps(s, a, s', a', i) && Remembers(s, a, a', i)
  }

  lemma NextRemembers(s: State, a: Aux, i: nat)
    requires i < |s.procs| && Shapes(s, a)
    ensures |NextAux(s, a, i).info| == |a.info| && Remembers(s, a, NextAux(s, a, i), i)
  {
  }

  lemma AnyStep(s: State, a: Aux, s': State, i: nat) returns (a': Aux)
    requires Inv(s, a) && StepBy(s, s', i)
    ensures Advances(s, a, s', a', i)
  {
    if Begins(s, s', i) {
      var op: Op :| s' == s.(procs := s.procs[i := s.procs[i].(pc := WantChain, op := op, res := NoResult)]);
      StepBegin(s, a, i, op);
      a' := a;
    } else {
      EnabledStep(s, a, i);
      NextRemembers(s, a, i);
      a' := NextAux(s, a, i);
    }
  }

  function InitAux(n: nat): Aux {
    Aux(seq(SLOTS, _ => []), map[], map[], seq(SLOTS, _ => map[]), seq(n, _ => Info(0, 0, map[])))
  }

  lemma InitInv(s: State)
    requires Init(s)
    ensures Inv(s, InitAux(|s.procs|))
  {
    var a := InitAux(|s.procs|);
    forall k | 0 <= k < |a.chains| ensures Chain(s, a, k) && View(s, a, k) {}
    forall i | 0 <= i < |s.procs| ensures Local(s, a, i) && Claimed(s, i) {}
    forall i, j | 0 <= i < |s.procs| && 0 <= j < |s.procs| && i != j
      ensures Exclusive(s, i, j) && ClaimsApart(s, i, j)
    {
    }
  }

  /** Every state of every run, with any number of processes, satisfies the invariant. */
  lemma {:induction false} RunSafe(run: seq<State>, t: nat) returns (a: Aux)
    requires Run(run) && t < |run|
    ensures Inv(run[t], a)
  {
    if t == 0 {
      InitInv(run[0]);
      a := InitAux(|run[0].procs|);
    } else {
      var b := RunSafe(run, t - 1);
      var i;
      a, i := NextSafe(run, t - 1, b);
    }
  }

  lemma NextSafe(run: seq<State>, t: nat, b: Aux) returns (a: Aux, i: nat)
    requires Run(run) && t + 1 < |run| && Inv(run[t], b)
    ensures Advances(run[t], b, run[t + 1], a, i) && Inv(run[t + 1], a)
  {
    assert StepAt(run, t);
    i :| StepBy(run[t], run[t + 1], i);
    a := AnyStep(run[t], b, run[t + 1], i);
  }

  // ---------------------------------------------------------------- one place for each record

  /** Position j of list k is the only place where the lists name x. */
  ghost predicate OnlyAt(a: Aux, x: nat, k: nat, j: nat) {
    && k < |a.chains| && j < |a.chains[k]| && a.chains[k][j] == x
    && forall m, b :: 0 <= m < |a.chains| && 0 <= b < |a.chains[m]| && a.chains[m][b] == x ==> m == k && b == j
  }

  /** Process i holds x, no list names it, and i has the write lock of its chain. */
  ghost predicate HeldOnly(s: State, a: Aux, x: nat, i: nat) {
    && i < |s.procs| && HasRecord(s.procs[i]) && s.procs[i].off == x && WritesChain(s.procs[i])
    && (forall m, b :: 0 <= m < |a.chains| && 0 <= b < |a.chains[m]| ==> a.chains[m][b] != x)
    && (forall j :: 0 <= j < |s.procs| && HasRecord(s.procs[j]) && s.procs[j].off == x ==> j == i)
  }

  lemma OnceInList(s: State, a: Aux, m: nat, b: nat, k: nat, j: nat)
    requires Inv(s, a) && m < SLOTS && k < SLOTS && b < |a.chains[m]| && j < |a.chains[k]|
    requires a.chains[m][b] == a.chains[k][j]
    ensures m == k && b == j
  {
    assert Chain(s, a, m) && Node(s, a, m, b) && Chain(s, a, k) && Node(s, a, k, j);
    assert b < j ==> Differ(a.chains[k], b, j);
    assert j < b ==> Differ(a.chains[k], j, b);
  }

  /** Each index record is on exactly one list, once, or in the hands of exactly one
      process that holds a chain write lock. */
  lemma EachRecordOnce(s: State, a: Aux, x: nat)
    requires Inv(s, a) && x in s.disk.recs
    ensures (exists k, j :: OnlyAt(a, x, k, j)) || (exists i :: HeldOnly(s, a, x, i))
  {
    assert Owned(s, a, x);
    match a.own[x]
    case Listed(k) =>
      var j :| 0 <= j < |a.chains[k]| && a.chains[k][j] == x;
      forall m, b | 0 <= m < |a.chains| && 0 <= b < |a.chains[m]| && a.chains[m][b] == x ensures m == k && b == j {
        OnceInList(s, a, m, b, k, j);
      }
      assert OnlyAt(a, x, k, j);
    case HeldBy(i) =>
      assert Local(s, a, i);
      forall m, b | 0 <= m < |a.chains| && 0 <= b < |a.chains[m]| ensures a.chains[m][b] != x {
        assert Chain(s, a, m) && Node(s, a, m, b);
      }
      forall j | 0 <= j < |s.procs| && HasRecord(s.procs[j]) && s.procs[j].off == x ensures j == i {
        assert Local(s, a, j);
      }
      assert HeldOnly(s, a, x, i);
  }

  /** In every reachable state each index record has one place, and any two have separate
      index records and separate data. */
  lemma RunPlaces(run: seq<State>, t: nat, x: nat, y: nat) returns (a: Aux)
    requires Run(run) && t < |run| && x in run[t].disk.recs && y in run[t].disk.recs
    ensures Inv(run[t], a) && ((exists k, j :: OnlyAt(a, x, k, j)) || (exists i :: HeldOnly(run[t], a, x, i)))
    ensures Placed(run[t].disk, x) && (x != y ==> Separate(run[t].disk, x, y))
  {
    a := RunSafe(run, t);
    EachRecordOnce(run[t], a, x);
  }

  // ---------------------------------------------------------------- chains change only under their lock

  /** The index record at x or its data differs after the step. */
  ghost predicate Rewritten(s: State, s': State, x: nat) {
    || RecordAt(s'.disk, x) != RecordAt(s.disk, x)
    || DataAt(s'.disk, RecordAt(s.disk, x)) != DataAt(s.disk, RecordAt(s.disk, x))
  }

  /** The step changes list m, its pointer in the header of the index file, one of its
      records or the data of one. */
  ghost predicate Touched(s: State, a: Aux, s': State, a': Aux, m: nat)
    requires m < |a.chains| == |a'.chains| == |s.disk.heads| == |s'.disk.heads|
  {
    || a'.chains[m] != a.chains[m]
    || s'.disk.heads[m] != s.disk.heads[m]
    || exists j :: 0 <= j < |a.chains[m]| && Rewritten(s, s', a.chains[m][j])
  }

  lemma HeadWrite(d: Disk, p: Proc, m: nat)
    requires m < |d.heads| == SLOTS && !MayChange(p, m) && PcFits(p)
    requires p.pc.DelChain? ==> p.ptroff.Link? || p.ptroff == Head(Bucket(p.op))
    requires p.pc.STake? ==> p.saveoff.Link? || p.saveoff == Head(0)
    ensures |StepDisk(d, p).heads| == SLOTS && StepDisk(d, p).heads[m] == d.heads[m]
  {
  }

  lemma HeadUntouched(s: State, a: Aux, s': State, a': Aux, i: nat, m: nat)
    requires Inv(s, a) && Advances(s, a, s', a', i) && m < SLOTS && !MayChange(s.procs[i], m)
    ensures s'.disk.heads[m] == s.disk.heads[m]
  {
    if !Begins(s, s', i) {
      assert Local(s, a, i);
      HeadWrite(s.disk, s.procs[i], m);
    }
  }

  lemma RecordUntouched(s: State, a: Aux, s': State, a': Aux, i: nat, m: nat, j: nat)
    requires Inv(s, a) && Foot(s, a, s', a', i) && m < SLOTS && j < |a.chains[m]| && !MayChange(s.procs[i], m)
    ensures !Rewritten(s, s', a.chains[m][j])
  {
    assert Chain(s, a, m) && Node(s, a, m, j);
    assert RecKept(s, a, s', a', i, a.chains[m][j]);
  }

  /** A step touches list m only in a process that write-locks chain m, or holds the
      free-list lock when m is the free list. */
  lemma OnlyUnderLock(s: State, a: Aux, s': State, a': Aux, i: nat, m: nat)
    requires Inv(s, a) && Advances(s, a, s', a', i) && m < SLOTS && Touched(s, a, s', a', m)
    ensures (WritesChain(s.procs[i]) && Bucket(s.procs[i].op) == m) || (HoldsFree(s.procs[i]) && m == 0)
  {
    if !MayChange(s.procs[i], m) {
      assert ListKept(s.procs[i], a, a', m);
      HeadUntouched(s, a, s', a', i, m);
      forall j | 0 <= j < |a.chains[m]| ensures !Rewritten(s, s', a.chains[m][j]) {
        RecordUntouched(s, a, s', a', i, m, j);
      }
      assert false;
    }
  }

  // ---------------------------------------------------------------- who waits for a chain

  /** A fetch waits for its chain exactly while a store or delete has it, any other call while
      any call has it. */
  lemma ChainWaitsIff(s: State, i: nat)
    requires i < |s.procs| && s.procs[i].pc.WantChain?
    ensures !Enabled(s, i) <==>
      exists j :: 0 <= j < |s.procs| && j != i && HoldsChain(s.procs[j])
        && Bucket(s.procs[j].op) == Bucket(s.procs[i].op) && !(s.procs[i].op.FetchOp? && s.procs[j].op.FetchOp?)
  {
    if !Enabled(s, i) {
      var j :| 0 <= j < |s.procs| && j != i && Conflict(s.procs[i], s.procs[j]);
    }
  }

  // ---------------------------------------------------------------- no deadlock

  /** Whenever some process is inside a call, some process inside a call can take a step. */
  lemma NoDeadlock(s: State, i: nat) returns (j: nat, s': State)
    requires i < |s.procs| && !s.procs[i].pc.Idle?
    ensures j < |s.procs| && !s.procs[j].pc.Idle? && StepBy(s, s', j)
  {
    j := Unblocked(s, i);
    s' := StepOf(s, j);
  }

  /** Follow the lock: the holder of a free-list or append lock waits for nothing, and a
      process that holds a chain waits only for one of those. */
  lemma Unblocked(s: State, i: nat) returns (j: nat)
    requires i < |s.procs| && !s.procs[i].pc.Idle?
    ensures j < |s.procs| && Enabled(s, j)
  {
    if Enabled(s, i) {
      j := i;
    } else {
      var h :| 0 <= h < |s.procs| && h != i && Conflict(s.procs[i], s.procs[h]);
      if Enabled(s, h) {
        j := h;
      } else {
        j :| 0 <= j < |s.procs| && j != h && Conflict(s.procs[h], s.procs[j]);
      }
    }
  }

  // ---------------------------------------------------------------- operations are atomic

  ghost predicate LinkAt(d: Disk, c: seq<nat>, j: nat)
    requires j < |c|
  {
    c[j] > 0 && c[j] in d.recs && d.recs[c[j]].ptr == PtrTo(c, j + 1)
  }

  /** Following the pointers of the files from chain k gives the records c. */
  ghost predicate Follows(d: Disk, k: nat, c: seq<nat>) {
    && k < |d.heads| && d.heads[k] == PtrTo(c, 0)
    && forall j :: 0 <= j < |c| ==> LinkAt(d, c, j)
  }

  ghost predicate PairAt(d: Disk, c: seq<nat>, j: nat, m: map<string, string>)
    requires j < |c|
  {
    var r := RecordAt(d, c[j]);
    r.key in m && m[r.key] == DataAt(d, r)
  }

  ghost predicate KeyIn(d: Disk, c: seq<nat>, key: string) {
    exists j :: 0 <= j < |c| && HasKeyAt(d, c, j, key)
  }

  ghost predicate HasKeyAt(d: Disk, c: seq<nat>, j: nat, key: string)
    requires j < |c|
  {
    RecordAt(d, c[j]).key == key
  }

  /** The records c carry exactly the entries of m. */
  ghost predicate Carry(d: Disk, c: seq<nat>, m: map<string, string>) {
    && (forall j :: 0 <= j < |c| ==> PairAt(d, c, j, m))
    && (forall key :: key in m ==> KeyIn(d, c, key))
  }

  /** Chain k of the files, as they stand, is the map m. */
  ghost predicate ChainIs(d: Disk, k: nat, m: map<string, string>) {
    exists c: seq<nat> :: Follows(d, k, c) && Carry(d, c, m)
  }

  lemma {:induction false} FollowsUnique(d: Disk, k: nat, c: seq<nat>, e: seq<nat>, n: nat)
    requires Follows(d, k, c) && Follows(d, k, e) && n <= |c|
    ensures n <= |e| && c[..n] == e[..n]
  {
    if n > 0 {
      FollowsUnique(d, k, c, e, n - 1);
      assert LinkAt(d, c, n - 1);
      if n > 1 {
        assert LinkAt(d, c, n - 2) && LinkAt(d, e, n - 2);
        assert c[..n - 1][n - 2] == e[..n - 1][n - 2];
      }
      assert PtrTo(c, n - 1) == PtrTo(e, n - 1);
    }
  }

  /** The files determine the map of a chain. */
  lemma ChainIsUnique(d: Disk, k: nat, m: map<string, string>, m': map<string, string>)
    requires ChainIs(d, k, m) && ChainIs(d, k, m')
    ensures m == m'
  {
    var c: seq<nat> :| Follows(d, k, c) && Carry(d, c, m);
    var e: seq<nat> :| Follows(d, k, e) && Carry(d, e, m');
    FollowsUnique(d, k, c, e, |c|);
    FollowsUnique(d, k, e, c, |e|);
    assert c == e;
    CarryAgrees(d, c, m, m');
    CarryAgrees(d, c, m', m);
  }

  lemma CarryAgrees(d: Disk, c: seq<nat>, m: map<string, string>, m': map<string, string>)
    requires Carry(d, c, m) && Carry(d, c, m')
    ensures forall key :: key in m ==> key in m' && m'[key] == m[key]
  {
    forall key | key in m ensures key in m' && m'[key] == m[key] {
      assert KeyIn(d, c, key);
      var j :| 0 <= j < |c| && HasKeyAt(d, c, j, key);
      assert PairAt(d, c, j, m) && PairAt(d, c, j, m');
    }
  }

  /** A list that the files hold carries its view. */
  lemma ViewCarried(s: State, a: Aux, k: nat)
    requires Inv(s, a) && 1 <= k < SLOTS && Follows(s.disk, k, a.chains[k])
    ensures ChainIs(s.disk, k, a.view[k])
  {
    var c := a.chains[k];
    assert View(s, a, k);
    forall j | 0 <= j < |c| ensures PairAt(s.disk, c, j, a.view[k]) {
      assert Entry(s, a, k, j);
    }
    forall key | key in a.view[k] ensures KeyIn(s.disk, c, key) {
      assert Stored(s, a, k, key);
      var j :| 0 <= j < |c| && HasKey(s, a, k, j, key);
      assert HasKeyAt(s.disk, c, j, key);
    }
    assert Follows(s.disk, k, c) && Carry(s.disk, c, a.view[k]);
  }

  /** While a process holds its chain with no rewrite due, the files hold its view. */
  lemma ViewOnDisk(s: State, a: Aux, i: nat)
    requires Inv(s, a) && i < |s.procs| && HoldsChain(s.procs[i]) && !Pending(s.procs[i])
    ensures ChainIs(s.disk, Bucket(s.procs[i].op), a.view[Bucket(s.procs[i].op)])
  {
    var k := Bucket(s.procs[i].op);
    var c := a.chains[k];
    HeadRead(s, a, i, k);
    forall j | 0 <= j < |c| ensures LinkAt(s.disk, c, j) {
      NodeRead(s, a, i, k, j);
    }
    ViewCarried(s, a, k);
  }

  /** Process i is inside one call, with its chain locked, from t0 to t1. */
  ghost predicate Within(run: seq<State>, i: nat, t0: nat, t1: nat) {
    && 0 < t0 <= t1 < |run|
    && (forall t :: t0 <= t <= t1 ==> i < |run[t].procs| && HoldsChain(run[t].procs[i]))
    && i < |run[t0 - 1].procs| && run[t0 - 1].procs[i].pc.WantChain?
  }

  lemma LockTaken(s: State, a: Aux, s': State, a': Aux, j: nat, i: nat)
    requires Inv(s, a) && Advances(s, a, s', a', j) && i < |s.procs| && i < |s'.procs|
    requires s.procs[i].pc.WantChain? && HoldsChain(s'.procs[i])
    ensures j == i && s'.procs[i].pc.ReadHead? && s'.procs[i].op == s.procs[i].op
    ensures a'.info[i].base == a'.view[Bucket(s'.procs[i].op)]
  {
    assert Local(s', a', i);
  }

  lemma StillInside(s: State, a: Aux, s': State, a': Aux, j: nat, i: nat)
    requires Inv(s, a) && Advances(s, a, s', a', j) && i < |s.procs| && i < |s'.procs|
    requires HoldsChain(s.procs[i]) && HoldsChain(s'.procs[i])
    ensures s'.procs[i].op == s.procs[i].op && a'.info[i].base == a.info[i].base
  {
    CallKept(s.disk, s.procs[j]);
    assert OthersKept(s, a, s', a', j);
  }

  lemma CallKept(d: Disk, p: Proc)
    ensures StepProc(d, p).op == p.op
  {
  }

  lemma {:induction false} Inside(run: seq<State>, i: nat, t0: nat, t: nat) returns (b: Aux, a: Aux)
    requires Run(run) && Within(run, i, t0, t)
    ensures Inv(run[t0], b) && Inv(run[t], a)
    ensures var k := Bucket(run[t].procs[i].op);
            && run[t0].procs[i].pc.ReadHead? && run[t0].procs[i].op == run[t].procs[i].op
            && a.info[i].base == b.view[k]
    decreases t
  {
    var j;
    if t == t0 {
      var z := RunSafe(run, t0 - 1);
      a, j := NextSafe(run, t0 - 1, z);
      LockTaken(run[t0 - 1], z, run[t0], a, j, i);
      b := a;
    } else {
      var y;
      b, y := Inside(run, i, t0, t - 1);
      a, j := NextSafe(run, t - 1, y);
      StillInside(run[t - 1], y, run[t], a, j, i);
    }
  }

  /** In every run, a call acts on its chain in one step: if m is what the files hold for
      the chain when the call has locked it, then when the call is about to unlock it has
      the result, and the files hold the entries, of the operation applied to m. */
  lemma AtomicOperation(run: seq<State>, i: nat, t0: nat, t1: nat)
    requires Run(run) && Within(run, i, t0, t1) && run[t1].procs[i].pc.Unlock?
    ensures run[t0].procs[i].op == run[t1].procs[i].op
    ensures var op := run[t1].procs[i].op; var k := Bucket(op);
            && (exists m :: ChainIs(run[t0].disk, k, m))
            && (forall m :: ChainIs(run[t0].disk, k, m) ==>
                  ChainIs(run[t1].disk, k, Apply(op, m).0) && Means(op, m, Apply(op, m).0, run[t1].procs[i].res))
  {
    var b, a := Inside(run, i, t0, t1);
    var op := run[t1].procs[i].op;
    var k := Bucket(op);
    ViewOnDisk(run[t0], b, i);
    ViewOnDisk(run[t1], a, i);
    assert Local(run[t1], a, i);
    forall m | ChainIs(run[t0].disk, k, m)
      ensures ChainIs(run[t1].disk, k, Apply(op, m).0) && Means(op, m, Apply(op, m).0, run[t1].procs[i].res)
    {
      ApplyMeans(op, m);
      ChainIsUnique(run[t0].disk, k, m, b.view[k]);
    }
  }
}
