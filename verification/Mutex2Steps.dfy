/** Every step of the two-level table keeps the invariant. */
module Mutex2Steps {
  import opened Mutex3
  import opened Mutex2
  import opened Mutex2Inv
  import opened Mutex2Frame

  function SetPos(a: Aux, i: nat, v: nat): Aux
    requires i < |a.pos|
  {
    a.(pos := a.pos[i := v])
  }

  function ListOf(m: Mem, x: nat): nat { Hash(ObjAt(m, x).id) }

  function NextAux(s: State, a: Aux, i: nat): Aux
    requires i < |s.threads| == |a.pos| && |a.lists| == NHASH
  {
    var t := s.threads[i];
    var b := ListOf(s.mem, t.fp);
    match t.pc
    case FFirst => SetPos(a, i, 0)
    case FWalk => if StepThread(s.mem, t).pc.FWalk? then SetPos(a, i, a.pos[i] + 1) else a
    case RFirst => SetPos(a, i, 0)
    case RSearch => if StepThread(s.mem, t).pc.RSearch? then SetPos(a, i, a.pos[i] + 1) else a
    case ASetHead => a.(lists := a.lists[b := [t.fp] + a.lists[b]], own := a.own[t.fp := Linked(b)])
    case RUnlinkHead =>
      if 0 < |a.lists[b]|
      then a.(lists := a.lists[b := Without(a.lists[b], 0)], own := a.own[t.fp := Private(i)])
      else a
    case RUnlinkMid =>
      if a.pos[i] + 1 < |a.lists[b]|
      then a.(lists := a.lists[b := Without(a.lists[b], a.pos[i] + 1)], own := a.own[t.fp := Private(i)]) else a
    case RFree => a.(own := a.own - {t.fp})
    case _ => a
  }

  // ---------------------------------------------------------------- steps that change no memory

  ghost predicate SameHand(t: Thread, u: Thread, x: nat) { InHand(u, x) == InHand(t, x) }

  /** Thread i goes from t to u and keeps its references and its private object. */
  ghost predicate Moves(m: Mem, a: Aux, i: nat, t: Thread, u: Thread, pos: nat)
    requires |a.lists| == NHASH
  {
    && (forall x :: SameHand(t, u, x))
    && (Fresh(t) ==> Fresh(u) && u.fp == t.fp) && (Dying(t) <==> Dying(u)) && (Dying(t) ==> u.fp == t.fp)
    && LocalOf(m, a, i, u, pos)
  }

  lemma QuietCounts(s: State, a: Aux, i: nat, u: Thread, pos: nat)
    requires Inv(s, a) && i < |s.threads| && Moves(s.mem, a, i, s.threads[i], u, pos)
    ensures Counts(s.(threads := s.threads[i := u]), SetPos(a, i, pos))
  {
    var s', a' := s.(threads := s.threads[i := u]), SetPos(a, i, pos);
    forall x: nat ensures Counted(s', a', x) {
      assert Counted(s, a, x) && SameHand(s.threads[i], u, x);
      HandsUpdate(s.threads, i, u, x);
    }
  }

  lemma QuietLists(s: State, a: Aux, i: nat, u: Thread, pos: nat)
    requires Inv(s, a) && i < |s.threads| && Moves(s.mem, a, i, s.threads[i], u, pos)
    ensures Lists(s.(threads := s.threads[i := u]), SetPos(a, i, pos))
  {
    var s', a' := s.(threads := s.threads[i := u]), SetPos(a, i, pos);
    forall x | x in s.mem.objs && a.own[x].Linked? ensures LinkKept(s, a, s', a', x) {}
    forall x | x in s'.mem.objs ensures Owned(s', a', x) { assert Owned(s, a, x); }
    ListsSame(s, a, s', a');
  }

  lemma QuietFoot(s: State, a: Aux, i: nat, u: Thread, pos: nat)
    requires Inv(s, a) && i < |s.threads|
    ensures Foot(s, a, s.(threads := s.threads[i := u]), SetPos(a, i, pos), i)
  {
    forall x | x in s.mem.objs ensures ObjKept(s, a, s.(threads := s.threads[i := u]), SetPos(a, i, pos), i, x) {}
  }

  lemma Quiet(s: State, a: Aux, i: nat, u: Thread, pos: nat)
    requires Inv(s, a) && i < |s.threads| && Moves(s.mem, a, i, s.threads[i], u, pos)
    requires forall j :: 0 <= j < |s.threads| && j != i ==> Excludes(u, s.threads[j])
    ensures Inv(s.(threads := s.threads[i := u]), SetPos(a, i, pos))
  {
    var s', a' := s.(threads := s.threads[i := u]), SetPos(a, i, pos);
    QuietFoot(s, a, i, u, pos);
    QuietCounts(s, a, i, u, pos);
    QuietLists(s, a, i, u, pos);
    LocksFrom(s, s', i);
    LocalsFrom(s, a, s', a', i);
  }

  predicate Simple(t: Thread) {
    || t.pc.AWantHash? || t.pc.AWantObj? || t.pc.ADropHash? || t.pc.ADropObj? || t.pc.HWantObj? || t.pc.HDropObj?
    || t.pc.FWantHash? || t.pc.FWantObj? || t.pc.FDropObj? || t.pc.FDropHash?
    || t.pc.RWantObj? || t.pc.RDropFirst? || t.pc.RWantHash? || t.pc.RWantBoth?
    || t.pc.RDropObjBoth? || t.pc.RDropHashBoth? || t.pc.RDropHash? || t.pc.RDropObj? || t.pc.RDropDec?
  }

  /** Lock and unlock steps. */
  lemma StepSimple(s: State, a: Aux, i: nat)
    requires Inv(s, a) && i < |s.threads| && Simple(s.threads[i]) && Enabled(s, i)
    ensures Inv(StepOf(s, i), NextAux(s, a, i))
  {
    var t := s.threads[i];
    var u := StepThread(s.mem, t);
    assert Local(s, a, i);
    SimpleMoves(s.mem, a, i, t, a.pos[i]);
    SimpleLocks(s.mem, t);
    TakesLock(s, i, u);
    assert SetPos(a, i, a.pos[i]) == a;
    Quiet(s, a, i, u, a.pos[i]);
  }

  lemma SimpleLocks(m: Mem, t: Thread)
    requires Simple(t)
    ensures var u := StepThread(m, t);
            u.fp == t.fp && (HoldsHash(u) ==> HoldsHash(t) || WantsHash(t))
            && (HoldsObj(u) ==> HoldsObj(t) || WantsObj(t))
  {
  }

  lemma SimpleMoves(m: Mem, a: Aux, i: nat, t: Thread, pos: nat)
    requires |a.lists| == NHASH && LocalOf(m, a, i, t, pos) && Simple(t)
    ensures Moves(m, a, i, t, StepThread(m, t), pos)
  {
    match t.op
    case Alloc(_) => MovesAlloc(m, a, i, t, pos);
    case Hold(_) => MovesHold(m, a, i, t, pos);
    case Find(_) => MovesFind(m, a, i, t, pos);
    case Rele(_) => MovesRele(m, a, i, t, pos);
  }

  lemma MovesAlloc(m: Mem, a: Aux, i: nat, t: Thread, pos: nat)
    requires |a.lists| == NHASH && LocalOf(m, a, i, t, pos) && Simple(t) && t.op.Alloc?
    ensures Moves(m, a, i, t, StepThread(m, t), pos)
  {
    forall x ensures SameHand(t, StepThread(m, t), x) {}
  }

  lemma MovesHold(m: Mem, a: Aux, i: nat, t: Thread, pos: nat)
    requires |a.lists| == NHASH && LocalOf(m, a, i, t, pos) && Simple(t) && t.op.Hold?
    ensures Moves(m, a, i, t, StepThread(m, t), pos)
  {
    forall x ensures SameHand(t, StepThread(m, t), x) {}
  }

  lemma MovesFind(m: Mem, a: Aux, i: nat, t: Thread, pos: nat)
    requires |a.lists| == NHASH && LocalOf(m, a, i, t, pos) && Simple(t) && t.op.Find?
    ensures Moves(m, a, i, t, StepThread(m, t), pos)
  {
    FindHands(m, t);
  }

  lemma FindHands(m: Mem, t: Thread)
    requires Simple(t) && t.op.Find? && Finds(t) && (t.pc.FDropObj? ==> t.fp != 0)
    ensures forall x :: SameHand(t, StepThread(m, t), x)
  {
    forall x ensures SameHand(t, StepThread(m, t), x) {}
  }

  lemma MovesRele(m: Mem, a: Aux, i: nat, t: Thread, pos: nat)
    requires |a.lists| == NHASH && LocalOf(m, a, i, t, pos) && Simple(t) && t.op.Rele?
    ensures Moves(m, a, i, t, StepThread(m, t), pos)
  {
    forall x ensures SameHand(t, StepThread(m, t), x) {}
  }

  /** The tests of foo_rele. */
  lemma StepTest(s: State, a: Aux, i: nat)
    requires Inv(s, a) && i < |s.threads| && (s.threads[i].pc.RTest? || s.threads[i].pc.RRetest?)
    ensures Inv(StepOf(s, i), NextAux(s, a, i))
  {
    var t := s.threads[i];
    var u := StepThread(s.mem, t);
    assert Local(s, a, i);
    forall x ensures SameHand(t, u, x) {}
    KeepsLocks(s, i, u);
    assert SetPos(a, i, a.pos[i]) == a;
    Quiet(s, a, i, u, a.pos[i]);
  }

  lemma StepFFirst(s: State, a: Aux, i: nat)
    requires Inv(s, a) && i < |s.threads| && s.threads[i].pc.FFirst?
    ensures Inv(StepOf(s, i), NextAux(s, a, i))
  {
    var t := s.threads[i];
    assert Local(s, a, i);
    var b := Hash(t.op.id);
    assert Chain(s, a, b);
    var u := t.(pc := FWalk, fp := s.mem.heads[b]);
    forall x ensures SameHand(t, u, x) {}
    KeepsLocks(s, i, u);
    Quiet(s, a, i, u, 0);
  }

  lemma StepFWalk(s: State, a: Aux, i: nat)
    requires Inv(s, a) && i < |s.threads| && s.threads[i].pc.FWalk?
    ensures Inv(StepOf(s, i), NextAux(s, a, i))
  {
    var t := s.threads[i];
    assert Local(s, a, i);
    var b := Hash(t.op.id);
    var c := a.lists[b];
    var pos := a.pos[i];
    assert Chain(s, a, b) && SetPos(a, i, pos) == a;
    var u := StepThread(s.mem, t);
    forall x ensures SameHand(t, u, x) {}
    KeepsLocks(s, i, u);
    if pos < |c| {
      assert Node(s, a, b, pos);
      if ObjAt(s.mem, t.fp).id != t.op.id { assert Mismatch(s.mem, c, pos, t.op.id); }
    }
    Quiet(s, a, i, u, if u.pc.FWalk? then pos + 1 else pos);
  }

  lemma RFirstMoves(s: State, a: Aux, i: nat)
    requires Inv(s, a) && i < |s.threads| && s.threads[i].pc.RFirst?
    ensures var u := StepThread(s.mem, s.threads[i]);
            Moves(s.mem, a, i, s.threads[i], u, 0) && FewerLocks(s.threads[i], u)
  {
    var t := s.threads[i];
    assert Local(s, a, i);
    RefLinked(s, a, i);
    var b := Hash(ObjAt(s.mem, t.fp).id);
    assert Chain(s, a, b);
    var u := StepThread(s.mem, t);
    forall x ensures SameHand(t, u, x) {}
    if u.pc.RSearch? { assert NotAt(a.lists[b], 0, t.fp); }
  }

  lemma StepRFirst(s: State, a: Aux, i: nat)
    requires Inv(s, a) && i < |s.threads| && s.threads[i].pc.RFirst?
    ensures Inv(StepOf(s, i), NextAux(s, a, i))
  {
    var u := StepThread(s.mem, s.threads[i]);
    RFirstMoves(s, a, i);
    KeepsLocks(s, i, u);
    Quiet(s, a, i, u, 0);
  }

  lemma RSearchMoves(s: State, a: Aux, i: nat)
    requires Inv(s, a) && i < |s.threads| && s.threads[i].pc.RSearch?
    ensures var u := StepThread(s.mem, s.threads[i]);
            Moves(s.mem, a, i, s.threads[i], u, if u.pc.RSearch? then a.pos[i] + 1 else a.pos[i])
            && FewerLocks(s.threads[i], u)
  {
    var t := s.threads[i];
    assert Local(s, a, i);
    RefLinked(s, a, i);
    var b := Hash(ObjAt(s.mem, t.fp).id);
    var c := a.lists[b];
    var pos := a.pos[i];
    assert Chain(s, a, b) && Node(s, a, b, pos);
    var u := StepThread(s.mem, t);
    forall x ensures SameHand(t, u, x) {}
    if u.pc.RSearch? {
      var q :| 0 <= q < |c| && c[q] == t.fp;
      LaterThan(c, pos, t.fp, q);
      assert NotAt(c, pos + 1, t.fp);
    }
  }

  lemma StepRSearch(s: State, a: Aux, i: nat)
    requires Inv(s, a) && i < |s.threads| && s.threads[i].pc.RSearch?
    ensures Inv(StepOf(s, i), NextAux(s, a, i))
  {
    var u := StepThread(s.mem, s.threads[i]);
    RSearchMoves(s, a, i);
    KeepsLocks(s, i, u);
    assert SetPos(a, i, a.pos[i]) == a;
    Quiet(s, a, i, u, if u.pc.RSearch? then a.pos[i] + 1 else a.pos[i]);
  }

  lemma LaterThan(c: seq<nat>, pos: nat, x: nat, q: nat)
    requires NotUpTo(c, pos, x) && q < |c| && c[q] == x
    ensures q > pos
  {
    assert q <= pos ==> NotAt(c, q, x);
  }
}
