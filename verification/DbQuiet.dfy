/** Steps that change neither file: taking and releasing locks, and reading. */
module DbQuiet {
  import opened Basics
  import opened DbFormat
  import opened DbSteps
  import opened DbInvariant
  import opened DbLists
  import opened DbFrame

  /** How the auxiliary state follows the step of process i. */
  function NextAux(s: State, a: Aux, i: nat): Aux
    requires i < |s.procs| && Shapes(s, a)
  {
    var p := s.procs[i];
    var k := Bucket(p.op);
    var inf := a.info[i];
    match p.pc
    case WantChain => a.(info := a.info[i := inf.(base := a.view[k])])
    case ReadHead => a.(info := a.info[i := inf.(pos := 0)])
    case Walk =>
      if p.off == 0 || RecordAt(s.disk, p.off).key == p.op.key then a
      else a.(info := a.info[i := inf.(pos := inf.pos + 1)])
    case DelDat =>
      if inf.pos < |a.chains[k]|
      then a.(chains := a.chains[k := Without(a.chains[k], inf.pos)], own := a.own[p.off := HeldBy(i)],
              fix := a.fix[p.ptroff := i], view := a.view[k := a.view[k] - {p.op.key}])
      else a
    case DelFreeHead => a.(chains := a.chains[0 := [p.off] + a.chains[0]], own := a.own[p.off := Listed(0)])
    case DelChain => a.(fix := a.fix - {p.ptroff})
    case SReadFree => a.(info := a.info[i := inf.(fpos := 0)])
    case SWalk =>
      if p.foff == 0 || StepProc(s.disk, p).pc.STake? then a
      else a.(info := a.info[i := inf.(fpos := inf.fpos + 1)])
    case STake =>
      if inf.fpos < |a.chains[0]|
      then a.(chains := a.chains[0 := Without(a.chains[0], inf.fpos)], own := a.own[p.off := HeldBy(i)])
      else a
    case AIdx => a.(own := a.own[s.disk.end := HeldBy(i)])
    case SLink =>
      a.(chains := a.chains[k := [p.off] + a.chains[k]], own := a.own[p.off := Listed(k)],
         view := a.view[k := a.view[k][p.op.key := DataOf(p.op)]])
    case StOver => a.(view := a.view[k := a.view[k][p.op.key := DataOf(p.op)]])
    case _ => a
  }

  /** What process i has in hand is still in hand. */
  predicate Hands(p: Proc, q: Proc) {
    && (HasRecord(p) ==> HasRecord(q) && q.off == p.off)
    && (Pending(p) ==> Pending(q) && q.ptroff == p.ptroff && q.rec == p.rec)
  }

  predicate Carries(p: Proc, q: Proc) {
    Hands(p, q) && (HasClaim(q) ==> HasClaim(p) && q.datoff == p.datoff && q.op == p.op)
  }

  lemma EffSame(s: State, a: Aux, i: nat, q: Proc, inf: Info, slot: Slot)
    requires Lists(s, a) && i < |s.procs| && i < |a.info| && Carries(s.procs[i], q)
    ensures Eff(s.(procs := s.procs[i := q]), a.(info := a.info[i := inf]), slot) == Eff(s, a, slot)
  {
    if slot in a.fix { assert Fixed(s, a, slot); }
  }

  lemma QuietLists(s: State, a: Aux, i: nat, q: Proc, inf: Info)
    requires Lists(s, a) && Shapes(s, a) && i < |s.procs| && Carries(s.procs[i], q)
    ensures Lists(s.(procs := s.procs[i := q]), a.(info := a.info[i := inf]))
  {
    var s', a' := s.(procs := s.procs[i := q]), a.(info := a.info[i := inf]);
    forall x | x in s'.disk.recs ensures x in a'.own && (a'.own[x].HeldBy? ==> Owned(s', a', x)) {
      assert Owned(s, a, x);
    }
    forall slot | slot in a'.fix ensures Fixed(s', a', slot) {
      assert Fixed(s, a, slot);
    }
    forall k | 0 <= k < |a.chains| ensures KeptHead(s, a, s', a', k) {
      EffSame(s, a, i, q, inf, Head(k));
    }
    forall y | OnList(a, y) ensures KeptNode(s, a, s', a', y) {
      EffSame(s, a, i, q, inf, Link(y));
    }
    forall x | x in s'.disk.recs && OnList(a', x) ensures OnList(a, x) && x in s.disk.recs {
    }
    ListsSame(s, a, s', a');
  }

  lemma QuietFoot(s: State, a: Aux, i: nat, q: Proc, inf: Info)
    requires Shapes(s, a) && i < |s.procs|
    ensures Foot(s, a, s.(procs := s.procs[i := q]), a.(info := a.info[i := inf]), i)
  {
    var s', a' := s.(procs := s.procs[i := q]), a.(info := a.info[i := inf]);
    forall m | 0 <= m < SLOTS ensures ListKept(s.procs[i], a, a', m) {}
    forall x | x in s.disk.recs ensures RecKept(s, a, s', a', i, x) {}
    forall slot | slot in a.fix ensures FixKept(a, a', i, slot) {}
  }

  lemma QuietViews(s: State, a: Aux, i: nat, q: Proc, inf: Info)
    requires Views(s, a) && i < |s.procs| && i < |a.info|
    ensures Views(s.(procs := s.procs[i := q]), a.(info := a.info[i := inf]))
  {
    var s', a' := s.(procs := s.procs[i := q]), a.(info := a.info[i := inf]);
    forall k | 1 <= k < |a'.chains| ensures View(s', a', k) {
      assert View(s, a, k);
      forall j | 0 <= j < |a.chains[k]| ensures SameEntry(s, s', a.chains[k][j]) {}
      ViewSame(s, a, s', a', k);
    }
  }

  lemma QuietExtents(s: State, i: nat, q: Proc)
    requires Extents(s) && i < |s.procs| && Carries(s.procs[i], q)
    ensures Extents(s.(procs := s.procs[i := q]))
  {
    var s' := s.(procs := s.procs[i := q]);
    forall x | x in s.disk.recs ensures SamePlace(s.disk, s'.disk, x) {}
    forall j | 0 <= j < |s.procs| ensures Claimed(s', j) {
      assert Claimed(s, j);
    }
    ExtentsSame(s, s', i);
  }

  /** A step that changes only process i and its positions keeps the invariant. */
  lemma Quiet(s: State, a: Aux, i: nat, q: Proc, inf: Info)
    requires Inv(s, a) && i < |s.procs| && Carries(s.procs[i], q)
    requires forall j :: 0 <= j < |s.procs| && j != i ==> Excludes(q, s.procs[j])
    requires LocalOf(s.disk, q, i, a, inf)
    ensures Keeps(s, a, s.(procs := s.procs[i := q]), a.(info := a.info[i := inf]), i)
  {
    var s', a' := s.(procs := s.procs[i := q]), a.(info := a.info[i := inf]);
    QuietFoot(s, a, i, q, inf);
    QuietLists(s, a, i, q, inf);
    QuietViews(s, a, i, q, inf);
    QuietExtents(s, i, q);
    LocksFrom(s, s', i);
    LocalsFrom(s, a, s', a', i);
  }

  // ---------------------------------------------------------------- pointers as they are read

  /** A pointer still due for rewriting is on the chain of the process that deletes. */
  lemma FixedOn(s: State, a: Aux, slot: Slot) returns (j: nat)
    requires Inv(s, a) && slot in a.fix
    ensures j == a.fix[slot] && j < |s.procs| && Pending(s.procs[j]) && WritesChain(s.procs[j])
    ensures var k := Bucket(s.procs[j].op);
            slot == Head(k) || (slot.Link? && slot.off in a.own && a.own[slot.off] == Listed(k))
  {
    j := a.fix[slot];
    assert Fixed(s, a, slot) && Local(s, a, j);
    var k := Bucket(s.procs[j].op);
    var pos := a.info[j].pos;
    if 0 < pos <= |a.chains[k]| {
      assert Chain(s, a, k) && Node(s, a, k, pos - 1);
    }
  }

  /** Process i walks list m: its own chain with no rewrite due, or the free list. */
  predicate Walks(p: Proc, m: nat) {
    m == 0 || (m == Bucket(p.op) && HoldsChain(p) && !Pending(p))
  }

  lemma HeadRead(s: State, a: Aux, i: nat, m: nat)
    requires Inv(s, a) && i < |s.procs| && m < SLOTS && Walks(s.procs[i], m)
    ensures Head(m) !in a.fix && Phys(s.disk, Head(m)) == PtrTo(a.chains[m], 0)
  {
    if Head(m) in a.fix {
      var j := FixedOn(s, a, Head(m));
      assert j != i;
      HoldersApart(s, a, j, i);
      assert false;
    }
    assert Chain(s, a, m);
  }

  lemma NodeRead(s: State, a: Aux, i: nat, m: nat, j: nat)
    requires Inv(s, a) && i < |s.procs| && m < SLOTS && Walks(s.procs[i], m) && j < |a.chains[m]|
    ensures var x := a.chains[m][j];
            x > 0 && x in s.disk.recs && Link(x) !in a.fix && a.own[x] == Listed(m)
            && RecordAt(s.disk, x).ptr == PtrTo(a.chains[m], j + 1)
  {
    assert Chain(s, a, m) && Node(s, a, m, j);
    var x := a.chains[m][j];
    if Link(x) in a.fix {
      var n := FixedOn(s, a, Link(x));
      assert n != i;
      HoldersApart(s, a, n, i);
      assert false;
    }
  }

  // ---------------------------------------------------------------- locks

  predicate SameOrFewer(p: Proc, q: Proc) {
    && q.op == p.op
    && (HoldsChain(q) ==> HoldsChain(p))
    && (HoldsFree(q) ==> HoldsFree(p))
    && (HoldsDat(q) ==> HoldsDat(p))
    && (HoldsIdx(q) ==> HoldsIdx(p))
  }

  lemma FewerLocks(s: State, i: nat, q: Proc)
    requires Locks(s) && i < |s.procs| && SameOrFewer(s.procs[i], q)
    ensures forall j :: 0 <= j < |s.procs| && j != i ==> Excludes(q, s.procs[j])
  {
    forall j | 0 <= j < |s.procs| && j != i ensures Excludes(q, s.procs[j]) {
      assert Exclusive(s, i, j);
    }
  }

  lemma LockGranted(s: State, i: nat)
    requires Locks(s) && i < |s.procs| && Enabled(s, i) && WantsLock(s.procs[i])
    ensures forall j :: 0 <= j < |s.procs| && j != i ==> Excludes(StepProc(s.disk, s.procs[i]), s.procs[j])
  {
    var q := StepProc(s.disk, s.procs[i]);
    forall j | 0 <= j < |s.procs| && j != i ensures Excludes(q, s.procs[j]) {
      assert Exclusive(s, i, j) && !Conflict(s.procs[i], s.procs[j]);
    }
  }

  // ---------------------------------------------------------------- the steps

  /** Process i goes from p to q without a change of the files. */
  ghost predicate Moves(d: Disk, p: Proc, q: Proc, i: nat, a: Aux, inf: Info)
    requires |a.chains| == |a.view| == SLOTS
  {
    Carries(p, q) && (WantsLock(p) || SameOrFewer(p, q)) && LocalOf(d, q, i, a, inf)
  }

  /** A step to process state q and positions inf that releases or keeps locks. */
  lemma QuietStep(s: State, a: Aux, i: nat, q: Proc, inf: Info)
    requires Inv(s, a) && i < |s.procs| && !WantsLock(s.procs[i])
    requires q == StepProc(s.disk, s.procs[i]) && StepDisk(s.disk, s.procs[i]) == s.disk
    requires NextAux(s, a, i) == a.(info := a.info[i := inf])
    requires Moves(s.disk, s.procs[i], q, i, a, inf)
    ensures Keeps(s, a, StepOf(s, i), NextAux(s, a, i), i)
  {
    FewerLocks(s, i, q);
    Quiet(s, a, i, q, inf);
  }

  /** The same for a step that takes a lock. */
  lemma LockStep(s: State, a: Aux, i: nat, q: Proc, inf: Info)
    requires Inv(s, a) && i < |s.procs| && Enabled(s, i) && WantsLock(s.procs[i])
    requires q == StepProc(s.disk, s.procs[i]) && StepDisk(s.disk, s.procs[i]) == s.disk
    requires NextAux(s, a, i) == a.(info := a.info[i := inf])
    requires Moves(s.disk, s.procs[i], q, i, a, inf)
    ensures Keeps(s, a, StepOf(s, i), NextAux(s, a, i), i)
  {
    LockGranted(s, i);
    Quiet(s, a, i, q, inf);
  }

  /** Auxiliary state and files stay as they are. */
  predicate Still(p: Proc) {
    || p.pc.WantFreeD? || p.pc.WantFreeS? || p.pc.WantDat? || p.pc.WantIdx? || p.pc.DelUnlockFree?
    || p.pc.SUnlockHit? || p.pc.SUnlockMiss? || p.pc.AUnlockDat? || p.pc.AUnlockIdx? || p.pc.Unlock?
    || p.pc.FetchDat? || p.pc.DelReadFree? || p.pc.StReadHead? || p.pc.AReadHead?
  }

  lemma StillAux(s: State, a: Aux, i: nat)
    requires i < |s.procs| && Shapes(s, a) && Still(s.procs[i])
    ensures NextAux(s, a, i) == a.(info := a.info[i := a.info[i]]) && StepDisk(s.disk, s.procs[i]) == s.disk
  {
    assert a.info[i := a.info[i]] == a.info;
  }

  lemma MoveWantChain(d: Disk, p: Proc, i: nat, a: Aux, inf: Info)
    requires |a.chains| == |a.view| == SLOTS && LocalOf(d, p, i, a, inf) && p.pc.WantChain?
    ensures Moves(d, p, p.(pc := ReadHead), i, a, inf.(base := a.view[Bucket(p.op)]))
  {
  }

  lemma StepWantChain(s: State, a: Aux, i: nat)
    requires Inv(s, a) && i < |s.procs| && s.procs[i].pc.WantChain? && Enabled(s, i)
    ensures Keeps(s, a, StepOf(s, i), NextAux(s, a, i), i)
  {
    var p := s.procs[i];
    assert Local(s, a, i);
    MoveWantChain(s.disk, p, i, a, a.info[i]);
    LockStep(s, a, i, p.(pc := ReadHead), a.info[i].(base := a.view[Bucket(p.op)]));
  }

  lemma MoveWantFreeD(d: Disk, p: Proc, i: nat, a: Aux, inf: Info)
    requires |a.chains| == |a.view| == SLOTS && LocalOf(d, p, i, a, inf) && p.pc.WantFreeD?
    ensures Moves(d, p, p.(pc := DelDat), i, a, inf)
  {
  }

  lemma StepWantFreeD(s: State, a: Aux, i: nat)
    requires Inv(s, a) && i < |s.procs| && s.procs[i].pc.WantFreeD? && Enabled(s, i)
    ensures Keeps(s, a, StepOf(s, i), NextAux(s, a, i), i)
  {
    var p := s.procs[i];
    assert Local(s, a, i);
    StillAux(s, a, i);
    MoveWantFreeD(s.disk, p, i, a, a.info[i]);
    LockStep(s, a, i, p.(pc := DelDat), a.info[i]);
  }

  lemma MoveWantFreeS(d: Disk, p: Proc, i: nat, a: Aux, inf: Info)
    requires |a.chains| == |a.view| == SLOTS && LocalOf(d, p, i, a, inf) && p.pc.WantFreeS?
    ensures Moves(d, p, p.(pc := SReadFree), i, a, inf)
  {
  }

  lemma StepWantFreeS(s: State, a: Aux, i: nat)
    requires Inv(s, a) && i < |s.procs| && s.procs[i].pc.WantFreeS? && Enabled(s, i)
    ensures Keeps(s, a, StepOf(s, i), NextAux(s, a, i), i)
  {
    var p := s.procs[i];
    assert Local(s, a, i);
    StillAux(s, a, i);
    MoveWantFreeS(s.disk, p, i, a, a.info[i]);
    LockStep(s, a, i, p.(pc := SReadFree), a.info[i]);
  }

  lemma MoveWantDat(d: Disk, p: Proc, i: nat, a: Aux, inf: Info)
    requires |a.chains| == |a.view| == SLOTS && LocalOf(d, p, i, a, inf) && p.pc.WantDat?
    ensures Moves(d, p, p.(pc := ADat), i, a, inf)
  {
  }

  lemma StepWantDat(s: State, a: Aux, i: nat)
    requires Inv(s, a) && i < |s.procs| && s.procs[i].pc.WantDat? && Enabled(s, i)
    ensures Keeps(s, a, StepOf(s, i), NextAux(s, a, i), i)
  {
    var p := s.procs[i];
    assert Local(s, a, i);
    StillAux(s, a, i);
    MoveWantDat(s.disk, p, i, a, a.info[i]);
    LockStep(s, a, i, p.(pc := ADat), a.info[i]);
  }

  lemma MoveWantIdx(d: Disk, p: Proc, i: nat, a: Aux, inf: Info)
    requires |a.chains| == |a.view| == SLOTS && LocalOf(d, p, i, a, inf) && p.pc.WantIdx?
    ensures Moves(d, p, p.(pc := AIdx), i, a, inf)
  {
  }

  lemma StepWantIdx(s: State, a: Aux, i: nat)
    requires Inv(s, a) && i < |s.procs| && s.procs[i].pc.WantIdx? && Enabled(s, i)
    ensures Keeps(s, a, StepOf(s, i), NextAux(s, a, i), i)
  {
    var p := s.procs[i];
    assert Local(s, a, i);
    StillAux(s, a, i);
    MoveWantIdx(s.disk, p, i, a, a.info[i]);
    LockStep(s, a, i, p.(pc := AIdx), a.info[i]);
  }

  lemma MoveSUnlockHit(d: Disk, p: Proc, i: nat, a: Aux, inf: Info)
    requires |a.chains| == |a.view| == SLOTS && LocalOf(d, p, i, a, inf) && p.pc.SUnlockHit?
    ensures Moves(d, p, p.(pc := SDat), i, a, inf)
  {
  }

  lemma StepSUnlockHit(s: State, a: Aux, i: nat)
    requires Inv(s, a) && i < |s.procs| && s.procs[i].pc.SUnlockHit?
    ensures Keeps(s, a, StepOf(s, i), NextAux(s, a, i), i)
  {
    var p := s.procs[i];
    assert Local(s, a, i);
    StillAux(s, a, i);
    MoveSUnlockHit(s.disk, p, i, a, a.info[i]);
    QuietStep(s, a, i, p.(pc := SDat), a.info[i]);
  }

  lemma MoveSUnlockMiss(d: Disk, p: Proc, i: nat, a: Aux, inf: Info)
    requires |a.chains| == |a.view| == SLOTS && LocalOf(d, p, i, a, inf) && p.pc.SUnlockMiss?
    ensures Moves(d, p, p.(pc := WantDat), i, a, inf)
  {
  }

  lemma StepSUnlockMiss(s: State, a: Aux, i: nat)
    requires Inv(s, a) && i < |s.procs| && s.procs[i].pc.SUnlockMiss?
    ensures Keeps(s, a, StepOf(s, i), NextAux(s, a, i), i)
  {
    var p := s.procs[i];
    assert Local(s, a, i);
    StillAux(s, a, i);
    MoveSUnlockMiss(s.disk, p, i, a, a.info[i]);
    QuietStep(s, a, i, p.(pc := WantDat), a.info[i]);
  }

  lemma MoveAUnlockDat(d: Disk, p: Proc, i: nat, a: Aux, inf: Info)
    requires |a.chains| == |a.view| == SLOTS && LocalOf(d, p, i, a, inf) && p.pc.AUnlockDat?
    ensures Moves(d, p, p.(pc := WantIdx), i, a, inf)
  {
  }

  lemma StepAUnlockDat(s: State, a: Aux, i: nat)
    requires Inv(s, a) && i < |s.procs| && s.procs[i].pc.AUnlockDat?
    ensures Keeps(s, a, StepOf(s, i), NextAux(s, a, i), i)
  {
    var p := s.procs[i];
    assert Local(s, a, i);
    StillAux(s, a, i);
    MoveAUnlockDat(s.disk, p, i, a, a.info[i]);
    QuietStep(s, a, i, p.(pc := WantIdx), a.info[i]);
  }

  lemma MoveAUnlockIdx(d: Disk, p: Proc, i: nat, a: Aux, inf: Info)
    requires |a.chains| == |a.view| == SLOTS && LocalOf(d, p, i, a, inf) && p.pc.AUnlockIdx?
    ensures Moves(d, p, p.(pc := SLink), i, a, inf)
  {
  }

  lemma StepAUnlockIdx(s: State, a: Aux, i: nat)
    requires Inv(s, a) && i < |s.procs| && s.procs[i].pc.AUnlockIdx?
    ensures Keeps(s, a, StepOf(s, i), NextAux(s, a, i), i)
  {
    var p := s.procs[i];
    assert Local(s, a, i);
    StillAux(s, a, i);
    MoveAUnlockIdx(s.disk, p, i, a, a.info[i]);
    QuietStep(s, a, i, p.(pc := SLink), a.info[i]);
  }

  lemma MoveUnlock(d: Disk, p: Proc, i: nat, a: Aux, inf: Info)
    requires |a.chains| == |a.view| == SLOTS && LocalOf(d, p, i, a, inf) && p.pc.Unlock?
    ensures Moves(d, p, p.(pc := Idle), i, a, inf)
  {
  }

  lemma StepUnlock(s: State, a: Aux, i: nat)
    requires Inv(s, a) && i < |s.procs| && s.procs[i].pc.Unlock?
    ensures Keeps(s, a, StepOf(s, i), NextAux(s, a, i), i)
  {
    var p := s.procs[i];
    assert Local(s, a, i);
    StillAux(s, a, i);
    MoveUnlock(s.disk, p, i, a, a.info[i]);
    QuietStep(s, a, i, p.(pc := Idle), a.info[i]);
  }

  lemma MoveDelDone(d: Disk, p: Proc, i: nat, a: Aux, inf: Info)
    requires |a.chains| == |a.view| == SLOTS && LocalOf(d, p, i, a, inf) && p.pc.DelUnlockFree? && p.op.DeleteOp?
    ensures Moves(d, p, p.(pc := Unlock, res := Code(0)), i, a, inf)
  {
    DeletedView(p, a.view[Bucket(p.op)], inf.base);
  }

  lemma MoveDelStore(d: Disk, p: Proc, i: nat, a: Aux, inf: Info)
    requires |a.chains| == |a.view| == SLOTS && LocalOf(d, p, i, a, inf) && p.pc.DelUnlockFree? && p.op.StoreOp?
    ensures Moves(d, p, p.(pc := AReadHead), i, a, inf)
  {
    DeletedView(p, a.view[Bucket(p.op)], inf.base);
  }

  lemma StepDelUnlockFree(s: State, a: Aux, i: nat)
    requires Inv(s, a) && i < |s.procs| && s.procs[i].pc.DelUnlockFree?
    ensures Keeps(s, a, StepOf(s, i), NextAux(s, a, i), i)
  {
    var p := s.procs[i];
    assert Local(s, a, i);
    StillAux(s, a, i);
    if p.op.DeleteOp? {
      MoveDelDone(s.disk, p, i, a, a.info[i]);
      QuietStep(s, a, i, p.(pc := Unlock, res := Code(0)), a.info[i]);
    } else {
      MoveDelStore(s.disk, p, i, a, a.info[i]);
      QuietStep(s, a, i, p.(pc := AReadHead), a.info[i]);
    }
  }

  lemma DeletedView(p: Proc, view: map<string, string>, base: map<string, string>)
    requires p.pc.DelUnlockFree? && OnView(p, view, base) && !p.op.FetchOp?
    ensures p.op.DeleteOp? ==> OnView(p.(pc := Unlock, res := Code(0)), view, base)
    ensures p.op.StoreOp? ==> OnView(p.(pc := AReadHead), view, base)
  {
  }

  lemma MoveStReadHead(d: Disk, p: Proc, i: nat, a: Aux, inf: Info)
    requires |a.chains| == |a.view| == SLOTS && LocalOf(d, p, i, a, inf) && p.pc.StReadHead?
    ensures Moves(d, p, p.(pc := WantFreeS, ptrval := PtrTo(a.chains[Bucket(p.op)], 0)), i, a, inf)
  {
  }

  lemma StepStReadHead(s: State, a: Aux, i: nat)
    requires Inv(s, a) && i < |s.procs| && s.procs[i].pc.StReadHead?
    ensures Keeps(s, a, StepOf(s, i), NextAux(s, a, i), i)
  {
    var p := s.procs[i];
    assert Local(s, a, i);
    HeadRead(s, a, i, Bucket(p.op));
    StillAux(s, a, i);
    MoveStReadHead(s.disk, p, i, a, a.info[i]);
    QuietStep(s, a, i, p.(pc := WantFreeS, ptrval := PtrTo(a.chains[Bucket(p.op)], 0)), a.info[i]);
  }

  lemma MoveAReadHead(d: Disk, p: Proc, i: nat, a: Aux, inf: Info)
    requires |a.chains| == |a.view| == SLOTS && LocalOf(d, p, i, a, inf) && p.pc.AReadHead?
    ensures Moves(d, p, p.(pc := WantDat, ptrval := PtrTo(a.chains[Bucket(p.op)], 0)), i, a, inf)
  {
  }

  lemma StepAReadHead(s: State, a: Aux, i: nat)
    requires Inv(s, a) && i < |s.procs| && s.procs[i].pc.AReadHead?
    ensures Keeps(s, a, StepOf(s, i), NextAux(s, a, i), i)
  {
    var p := s.procs[i];
    assert Local(s, a, i);
    HeadRead(s, a, i, Bucket(p.op));
    StillAux(s, a, i);
    MoveAReadHead(s.disk, p, i, a, a.info[i]);
    QuietStep(s, a, i, p.(pc := WantDat, ptrval := PtrTo(a.chains[Bucket(p.op)], 0)), a.info[i]);
  }

  lemma MoveReadHead(d: Disk, p: Proc, i: nat, a: Aux, inf: Info)
    requires |a.chains| == |a.view| == SLOTS && LocalOf(d, p, i, a, inf) && p.pc.ReadHead?
    ensures Moves(d, p, p.(pc := Walk, off := PtrTo(a.chains[Bucket(p.op)], 0), ptroff := Head(Bucket(p.op))), i, a,
        inf.(pos := 0))
  {
  }

  lemma StepReadHead(s: State, a: Aux, i: nat)
    requires Inv(s, a) && i < |s.procs| && s.procs[i].pc.ReadHead?
    ensures Keeps(s, a, StepOf(s, i), NextAux(s, a, i), i)
  {
    var p := s.procs[i];
    assert Local(s, a, i);
    HeadRead(s, a, i, Bucket(p.op));
    MoveReadHead(s.disk, p, i, a, a.info[i]);
    QuietStep(s, a, i, p.(pc := Walk, off := PtrTo(a.chains[Bucket(p.op)], 0), ptroff := Head(Bucket(p.op))),
      a.info[i].(pos := 0));
  }

  lemma MoveDelReadFree(d: Disk, p: Proc, i: nat, a: Aux, inf: Info)
    requires |a.chains| == |a.view| == SLOTS && LocalOf(d, p, i, a, inf) && p.pc.DelReadFree?
    ensures Moves(d, p, p.(pc := DelIdx, ptrval := PtrTo(a.chains[0], 0)), i, a, inf)
  {
  }

  lemma StepDelReadFree(s: State, a: Aux, i: nat)
    requires Inv(s, a) && i < |s.procs| && s.procs[i].pc.DelReadFree?
    ensures Keeps(s, a, StepOf(s, i), NextAux(s, a, i), i)
  {
    var p := s.procs[i];
    assert Local(s, a, i);
    HeadRead(s, a, i, 0);
    StillAux(s, a, i);
    MoveDelReadFree(s.disk, p, i, a, a.info[i]);
    QuietStep(s, a, i, p.(pc := DelIdx, ptrval := PtrTo(a.chains[0], 0)), a.info[i]);
  }

  lemma MoveSReadFree(d: Disk, p: Proc, i: nat, a: Aux, inf: Info)
    requires |a.chains| == |a.view| == SLOTS && LocalOf(d, p, i, a, inf) && p.pc.SReadFree?
    ensures Moves(d, p, p.(pc := SWalk, foff := PtrTo(a.chains[0], 0), saveoff := Head(0)), i, a, inf.(fpos := 0))
  {
  }

  lemma StepSReadFree(s: State, a: Aux, i: nat)
    requires Inv(s, a) && i < |s.procs| && s.procs[i].pc.SReadFree?
    ensures Keeps(s, a, StepOf(s, i), NextAux(s, a, i), i)
  {
    var p := s.procs[i];
    assert Local(s, a, i);
    HeadRead(s, a, i, 0);
    MoveSReadFree(s.disk, p, i, a, a.info[i]);
    QuietStep(s, a, i, p.(pc := SWalk, foff := PtrTo(a.chains[0], 0), saveoff := Head(0)), a.info[i].(fpos := 0));
  }

  lemma MoveFetchDat(d: Disk, p: Proc, i: nat, a: Aux, inf: Info)
    requires |a.chains| == |a.view| == SLOTS && LocalOf(d, p, i, a, inf) && p.pc.FetchDat?
    requires p.op.key in a.view[Bucket(p.op)] && a.view[Bucket(p.op)][p.op.key] == DataAt(d, p.rec)
    ensures Moves(d, p, p.(pc := Unlock, res := Data(Some(DataAt(d, p.rec)))), i, a, inf)
  {
    FetchedView(p, a.view[Bucket(p.op)], DataAt(d, p.rec));
  }

  lemma FetchedView(p: Proc, m: map<string, string>, v: string)
    requires p.op.FetchOp? && p.op.key in m && m[p.op.key] == v
    ensures OnView(p.(pc := Unlock, res := Data(Some(v))), m, m)
  {
  }

  lemma StepFetchDat(s: State, a: Aux, i: nat)
    requires Inv(s, a) && i < |s.procs| && s.procs[i].pc.FetchDat?
    ensures Keeps(s, a, StepOf(s, i), NextAux(s, a, i), i)
  {
    var p := s.procs[i];
    assert Local(s, a, i);
    assert View(s, a, Bucket(p.op)) && Entry(s, a, Bucket(p.op), a.info[i].pos);
    StillAux(s, a, i);
    MoveFetchDat(s.disk, p, i, a, a.info[i]);
    QuietStep(s, a, i, p.(pc := Unlock, res := Data(Some(DataAt(s.disk, p.rec)))), a.info[i]);
  }

  lemma NotStored(s: State, a: Aux, k: nat, key: string)
    requires 1 <= k < SLOTS && |a.chains| == |a.view| == SLOTS && View(s, a, k)
    requires NoneMatch(s.disk, a.chains[k], |a.chains[k]|, key)
    ensures key !in a.view[k]
  {
    if key in a.view[k] {
      assert Stored(s, a, k, key);
      var j :| 0 <= j < |a.chains[k]| && HasKey(s, a, k, j, key);
      MismatchOf(s.disk, a.chains[k], |a.chains[k]|, key, j);
      assert false;
    }
  }

  lemma MismatchOf(d: Disk, c: seq<nat>, n: nat, key: string, b: nat)
    requires NoneMatch(d, c, n, key) && b < n
    ensures RecordAt(d, c[b]).key != key
  {
    assert KeyMismatch(d, c, b, key);
  }

  /** The walk along the hash chain. */
  lemma StepWalk(s: State, a: Aux, i: nat)
    requires Inv(s, a) && i < |s.procs| && s.procs[i].pc.Walk?
    ensures Keeps(s, a, StepOf(s, i), NextAux(s, a, i), i)
  {
    var p := s.procs[i];
    var k := Bucket(p.op);
    assert Local(s, a, i) && View(s, a, k);
    if a.info[i].pos < |a.chains[k]| {
      NodeRead(s, a, i, k, a.info[i].pos);
      assert Entry(s, a, k, a.info[i].pos);
      if RecordAt(s.disk, p.off).key == p.op.key { StepWalkFound(s, a, i); } else { StepWalkOn(s, a, i); }
    } else {
      NotStored(s, a, k, p.op.key);
      WalkMiss(s.disk, p, i, a, a.info[i]);
      assert a.info[i := a.info[i]] == a.info;
      QuietStep(s, a, i, NotFound(p), a.info[i]);
    }
  }

  lemma StepWalkFound(s: State, a: Aux, i: nat)
    requires Inv(s, a) && i < |s.procs| && s.procs[i].pc.Walk? && Local(s, a, i)
    requires a.info[i].pos < |a.chains[Bucket(s.procs[i].op)]| && s.procs[i].off > 0
    requires RecordAt(s.disk, s.procs[i].off).key == s.procs[i].op.key
    requires s.procs[i].op.key in a.view[Bucket(s.procs[i].op)]
    ensures Keeps(s, a, StepOf(s, i), NextAux(s, a, i), i)
  {
    var p := s.procs[i];
    var r := RecordAt(s.disk, p.off);
    WalkFound(s.disk, p, i, a, a.info[i]);
    assert a.info[i := a.info[i]] == a.info;
    QuietStep(s, a, i, FoundRec(p, r), a.info[i]);
  }

  lemma FoundCarries(p: Proc, r: Rec)
    requires p.pc.Walk?
    ensures SameOrFewer(p, FoundRec(p, r)) && Carries(p, FoundRec(p, r))
  {
  }

  lemma StepWalkOn(s: State, a: Aux, i: nat)
    requires Inv(s, a) && i < |s.procs| && s.procs[i].pc.Walk? && Local(s, a, i)
    requires var p := s.procs[i]; var c := a.chains[Bucket(p.op)]; var pos := a.info[i].pos;
             && pos < |c| && p.off > 0 && RecordAt(s.disk, p.off).ptr == PtrTo(c, pos + 1)
             && RecordAt(s.disk, p.off).key != p.op.key
    ensures Keeps(s, a, StepOf(s, i), NextAux(s, a, i), i)
  {
    var p := s.procs[i];
    WalkOn(s.disk, p, i, a, a.info[i]);
    QuietStep(s, a, i, p.(ptroff := Link(p.off), off := RecordAt(s.disk, p.off).ptr),
      a.info[i].(pos := a.info[i].pos + 1));
  }

  lemma WalkOn(d: Disk, p: Proc, i: nat, a: Aux, inf: Info)
    requires |a.chains| == |a.view| == SLOTS && LocalOf(d, p, i, a, inf) && p.pc.Walk?
    requires inf.pos < |a.chains[Bucket(p.op)]| && RecordAt(d, p.off).key != p.op.key
    requires RecordAt(d, p.off).ptr == PtrTo(a.chains[Bucket(p.op)], inf.pos + 1)
    ensures Moves(d, p, p.(ptroff := Link(p.off), off := RecordAt(d, p.off).ptr), i, a, inf.(pos := inf.pos + 1))
  {
    WalkOnChain(d, p, a.chains[Bucket(p.op)], inf);
  }

  lemma WalkOnChain(d: Disk, p: Proc, c: seq<nat>, inf: Info)
    requires OnChain(d, p, c, inf) && p.pc.Walk?
    requires inf.pos < |c| && RecordAt(d, p.off).key != p.op.key && RecordAt(d, p.off).ptr == PtrTo(c, inf.pos + 1)
    ensures OnChain(d, p.(ptroff := Link(p.off), off := RecordAt(d, p.off).ptr), c, inf.(pos := inf.pos + 1))
  {
    assert KeyMismatch(d, c, inf.pos, p.op.key);
  }

  lemma WalkFound(d: Disk, p: Proc, i: nat, a: Aux, inf: Info)
    requires |a.chains| == |a.view| == SLOTS && LocalOf(d, p, i, a, inf) && p.pc.Walk?
    requires inf.pos < |a.chains[Bucket(p.op)]| && RecordAt(d, p.off).key == p.op.key
      && p.op.key in a.view[Bucket(p.op)]
    ensures Moves(d, p, FoundRec(p, RecordAt(d, p.off)), i, a, inf)
  {
    FoundView(p, RecordAt(d, p.off), a.view[Bucket(p.op)]);
    FoundCarries(p, RecordAt(d, p.off));
  }

  lemma FoundView(p: Proc, r: Rec, m: map<string, string>)
    requires p.pc.Walk? && p.op.key in m
    ensures OnView(FoundRec(p, r), m, m)
  {
  }

  lemma WalkMiss(d: Disk, p: Proc, i: nat, a: Aux, inf: Info)
    requires |a.chains| == |a.view| == SLOTS && LocalOf(d, p, i, a, inf) && p.pc.Walk?
    requires p.op.key !in a.view[Bucket(p.op)]
    ensures Moves(d, p, NotFound(p), i, a, inf)
  {
    MissView(p, a.view[Bucket(p.op)]);
  }

  lemma MissView(p: Proc, m: map<string, string>)
    requires p.pc.Walk? && p.op.key !in m
    ensures OnView(NotFound(p), m, m)
  {
    assert m - {p.op.key} == m;
  }

  /** The walk along the free list. */
  lemma StepSWalk(s: State, a: Aux, i: nat)
    requires Inv(s, a) && i < |s.procs| && s.procs[i].pc.SWalk?
    ensures Keeps(s, a, StepOf(s, i), NextAux(s, a, i), i)
  {
    var p := s.procs[i];
    assert Local(s, a, i);
    if a.info[i].fpos < |a.chains[0]| {
      NodeRead(s, a, i, 0, a.info[i].fpos);
      if |RecordAt(s.disk, p.foff).key| == |p.op.key| && RecordAt(s.disk, p.foff).datlen == |DataOf(p.op)| + 1 {
        StepFreeHit(s, a, i);
      } else {
        StepFreeOn(s, a, i);
      }
    } else {
      StepFreeMiss(s, a, i);
    }
  }

  lemma MoveFreeMiss(d: Disk, p: Proc, i: nat, a: Aux, inf: Info)
    requires |a.chains| == |a.view| == SLOTS && LocalOf(d, p, i, a, inf) && p.pc.SWalk?
    ensures Moves(d, p, p.(pc := SUnlockMiss), i, a, inf)
  {
  }

  lemma StepFreeMiss(s: State, a: Aux, i: nat)
    requires Inv(s, a) && i < |s.procs| && s.procs[i].pc.SWalk? && s.procs[i].foff == 0 && Local(s, a, i)
    ensures Keeps(s, a, StepOf(s, i), NextAux(s, a, i), i)
  {
    assert a.info[i := a.info[i]] == a.info;
    MoveFreeMiss(s.disk, s.procs[i], i, a, a.info[i]);
    QuietStep(s, a, i, s.procs[i].(pc := SUnlockMiss), a.info[i]);
  }

  lemma MoveFreeHit(d: Disk, p: Proc, i: nat, a: Aux, inf: Info)
    requires |a.chains| == |a.view| == SLOTS && LocalOf(d, p, i, a, inf) && p.pc.SWalk? && inf.fpos < |a.chains[0]|
    requires |RecordAt(d, p.foff).key| == |p.op.key| && RecordAt(d, p.foff).datlen == |DataOf(p.op)| + 1
    ensures var r := RecordAt(d, p.foff);
            Moves(d, p, p.(pc := STake, off := p.foff, rec := r, datoff := r.datoff), i, a, inf)
  {
  }

  lemma StepFreeHit(s: State, a: Aux, i: nat)
    requires Inv(s, a) && i < |s.procs| && s.procs[i].pc.SWalk? && s.procs[i].foff > 0 && Local(s, a, i)
    requires a.info[i].fpos < |a.chains[0]|
    requires var p := s.procs[i]; var r := RecordAt(s.disk, p.foff);
             |r.key| == |p.op.key| && r.datlen == |DataOf(p.op)| + 1
    ensures Keeps(s, a, StepOf(s, i), NextAux(s, a, i), i)
  {
    var p := s.procs[i];
    var r := RecordAt(s.disk, p.foff);
    assert a.info[i := a.info[i]] == a.info;
    MoveFreeHit(s.disk, p, i, a, a.info[i]);
    QuietStep(s, a, i, p.(pc := STake, off := p.foff, rec := r, datoff := r.datoff), a.info[i]);
  }

  lemma MoveFreeOn(d: Disk, p: Proc, i: nat, a: Aux, inf: Info)
    requires |a.chains| == |a.view| == SLOTS && LocalOf(d, p, i, a, inf) && p.pc.SWalk? && inf.fpos < |a.chains[0]|
    requires RecordAt(d, p.foff).ptr == PtrTo(a.chains[0], inf.fpos + 1)
    ensures Moves(d, p, p.(saveoff := Link(p.foff), foff := RecordAt(d, p.foff).ptr), i, a, inf.(fpos := inf.fpos + 1))
  {
  }

  lemma StepFreeOn(s: State, a: Aux, i: nat)
    requires Inv(s, a) && i < |s.procs| && s.procs[i].pc.SWalk? && s.procs[i].foff > 0 && Local(s, a, i)
    requires a.info[i].fpos < |a.chains[0]|
    requires var p := s.procs[i]; var r := RecordAt(s.disk, p.foff);
             && r.ptr == PtrTo(a.chains[0], a.info[i].fpos + 1)
             && !(|r.key| == |p.op.key| && r.datlen == |DataOf(p.op)| + 1)
    ensures Keeps(s, a, StepOf(s, i), NextAux(s, a, i), i)
  {
    var p := s.procs[i];
    MoveFreeOn(s.disk, p, i, a, a.info[i]);
    QuietStep(s, a, i, p.(saveoff := Link(p.foff), foff := RecordAt(s.disk, p.foff).ptr),
      a.info[i].(fpos := a.info[i].fpos + 1));
  }

  /** A call begins. */
  lemma StepBegin(s: State, a: Aux, i: nat, op: Op)
    requires Inv(s, a) && i < |s.procs| && s.procs[i].pc.Idle?
    ensures Keeps(s, a, s.(procs := s.procs[i := s.procs[i].(pc := WantChain, op := op, res := NoResult)]), a, i)
  {
    var q := s.procs[i].(pc := WantChain, op := op, res := NoResult);
    assert Local(s, a, i);
    assert a.info[i := a.info[i]] == a.info;
    forall j | 0 <= j < |s.procs| && j != i ensures Excludes(q, s.procs[j]) {}
    Quiet(s, a, i, q, a.info[i]);
  }
}
