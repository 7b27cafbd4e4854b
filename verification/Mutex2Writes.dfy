/** The steps of the two-level table that change memory, and call and return. */
module Mutex2Writes {
  import opened Mutex3
  import opened Mutex2
  import opened Mutex2Inv
  import opened Mutex2Frame
  import opened Mutex2Steps

  lemma Assemble(s: State, a: Aux, s': State, a': Aux, i: nat)
    requires Inv(s, a) && Foot(s, a, s', a', i) && Lists(s', a') && Counts(s', a')
    requires FewerLocks(s.threads[i], s'.threads[i]) && LocalOf(s'.mem, a', i, s'.threads[i], a'.pos[i])
    ensures Inv(s', a')
  {
    KeepsLocks(s, i, s'.threads[i]);
    LocksFrom(s, s', i);
    LocalsFrom(s, a, s', a', i);
  }

  // ---------------------------------------------------------------- counts

  ghost predicate HandBy(t: Thread, u: Thread, y: nat, d: int, x: nat) {
    InHand(u, x) == InHand(t, x) + if x == y then d else 0
  }

  /** Thread i changes the count of its object by d, and what it has in hand with it. */
  ghost predicate Counting(s: State, a: Aux, s': State, i: nat, d: int) {
    && i < |s.threads| && HoldsObj(s.threads[i]) && !Fresh(s.threads[i]) && !Dying(s.threads[i])
    && var t, u := s.threads[i], if i < |s'.threads| then s'.threads[i] else s.threads[i];
    && u.fp == t.fp && FewerLocks(t, u) && !Fresh(u) && !Dying(u)
    && t.fp in s.mem.objs && t.fp in a.own && a.own[t.fp].Linked?
    && s' == s.(mem := AddCount(s.mem, t.fp, d), threads := s.threads[i := u])
    && forall x :: HandBy(t, u, t.fp, d, x)
  }

  lemma CountingFoot(s: State, a: Aux, s': State, i: nat, d: int)
    requires Inv(s, a) && Counting(s, a, s', i, d)
    ensures Foot(s, a, s', a, i)
  {
    forall x | x in s.mem.objs ensures ObjKept(s, a, s', a, i, x) {}
    assert a.pos == a.pos[i := a.pos[i]];
  }

  lemma CountingLists(s: State, a: Aux, s': State, i: nat, d: int)
    requires Inv(s, a) && Counting(s, a, s', i, d)
    ensures Lists(s', a)
  {
    forall x | x in s.mem.objs && a.own[x].Linked? ensures LinkKept(s, a, s', a, x) {}
    forall x | x in s'.mem.objs ensures Owned(s', a, x) { assert Owned(s, a, x); }
    ListsSame(s, a, s', a);
  }

  lemma CountingCounts(s: State, a: Aux, s': State, i: nat, d: int)
    requires Inv(s, a) && Counting(s, a, s', i, d)
    ensures Counts(s', a)
  {
    forall x: nat ensures Counted(s', a, x) {
      assert Counted(s, a, x) && HandBy(s.threads[i], s'.threads[i], s.threads[i].fp, d, x);
      HandsUpdate(s.threads, i, s'.threads[i], x);
    }
  }

  lemma DoCount(s: State, a: Aux, s': State, i: nat, d: int)
    requires Inv(s, a) && Counting(s, a, s', i, d) && LocalOf(s'.mem, a, i, s'.threads[i], a.pos[i])
    ensures Inv(s', a)
  {
    CountingFoot(s, a, s', i, d);
    CountingLists(s, a, s', i, d);
    CountingCounts(s, a, s', i, d);
    Assemble(s, a, s', a, i);
  }

  predicate Recounts(t: Thread) { t.pc.HInc? || t.pc.FInc? || t.pc.RDecBoth? || t.pc.RDec? }

  function Change(t: Thread): int { if t.pc.HInc? || t.pc.FInc? then 1 else -1 }

  lemma StepCount(s: State, a: Aux, i: nat)
    requires Inv(s, a) && i < |s.threads| && Recounts(s.threads[i])
    ensures Inv(StepOf(s, i), NextAux(s, a, i))
    ensures Counting(s, a, StepOf(s, i), i, Change(s.threads[i]))
  {
    var t := s.threads[i];
    assert Local(s, a, i);
    if t.pc.FInc? { FoundLinked(s, a, i); } else { RefLinked(s, a, i); }
    CountStarts(s, a, i);
    DoCount(s, a, StepOf(s, i), i, Change(t));
  }

  lemma FoundLinked(s: State, a: Aux, i: nat)
    requires Inv(s, a) && i < |s.threads| && s.threads[i].pc.FInc?
    ensures var t := s.threads[i];
            t.op.Find? && t.fp in s.mem.objs && t.fp in a.own && a.own[t.fp] == Linked(Hash(t.op.id))
  {
    assert Local(s, a, i);
    var b := Hash(s.threads[i].op.id);
    assert Chain(s, a, b) && Node(s, a, b, a.pos[i]);
  }

  lemma CountStarts(s: State, a: Aux, i: nat)
    requires i < |s.threads| && |a.lists| == NHASH && i < |a.pos| && Recounts(s.threads[i]) && Local(s, a, i)
    requires var x := s.threads[i].fp; x in s.mem.objs && x in a.own && a.own[x].Linked?
    ensures Counting(s, a, StepOf(s, i), i, Change(s.threads[i]))
    ensures LocalOf(StepOf(s, i).mem, a, i, StepOf(s, i).threads[i], a.pos[i])
  {
    var t := s.threads[i];
    var u := StepThread(s.mem, t);
    forall x ensures HandBy(t, u, t.fp, Change(t), x) {}
  }

  // ---------------------------------------------------------------- foo_alloc

  lemma StepASetNext(s: State, a: Aux, i: nat)
    requires Inv(s, a) && i < |s.threads| && s.threads[i].pc.ASetNext?
    ensures Inv(StepOf(s, i), NextAux(s, a, i))
  {
    assert Local(s, a, i) && Owned(s, a, s.threads[i].fp);
    DoASetNext(s, a, StepOf(s, i), i);
  }

  ghost predicate Pointing(s: State, a: Aux, s': State, i: nat) {
    && i < |s.threads| && s.threads[i].pc.ASetNext? && |s.mem.heads| == NHASH
    && var t := s.threads[i];
    && t.fp in s.mem.objs && t.fp in a.own && a.own[t.fp] == Private(i)
    && s' == s.(mem := s.mem.(objs :=
                  s.mem.objs[t.fp := s.mem.objs[t.fp].(next := s.mem.heads[Hash(ObjAt(s.mem, t.fp).id)])]),
                threads := s.threads[i := t.(pc := ASetHead)])
  }

  lemma PointingLists(s: State, a: Aux, s': State, i: nat)
    requires Inv(s, a) && Pointing(s, a, s', i)
    ensures Lists(s', a) && Foot(s, a, s', a, i)
  {
    forall x | x in s.mem.objs ensures ObjKept(s, a, s', a, i, x) {}
    forall x | x in s.mem.objs && a.own[x].Linked? ensures LinkKept(s, a, s', a, x) {}
    forall x | x in s'.mem.objs ensures Owned(s', a, x) { assert Owned(s, a, x); }
    ListsSame(s, a, s', a);
    assert a.pos == a.pos[i := a.pos[i]];
  }

  lemma DoASetNext(s: State, a: Aux, s': State, i: nat)
    requires Inv(s, a) && Pointing(s, a, s', i) && Local(s, a, i)
    ensures Inv(s', a)
  {
    PointingLists(s, a, s', i);
    forall x: nat ensures Counted(s', a, x) {
      assert Counted(s, a, x);
      HandsUpdate(s.threads, i, s'.threads[i], x);
    }
    Assemble(s, a, s', a, i);
  }

  /** The object is linked: from here on foo_find can see it. */
  lemma StepASetHead(s: State, a: Aux, i: nat)
    requires Inv(s, a) && i < |s.threads| && s.threads[i].pc.ASetHead?
    ensures Linking(s, a, StepOf(s, i), NextAux(s, a, i), i) && Inv(StepOf(s, i), NextAux(s, a, i))
  {
    assert Local(s, a, i) && Owned(s, a, s.threads[i].fp);
    DoASetHead(s, a, StepOf(s, i), NextAux(s, a, i), i);
  }

  ghost predicate Linking(s: State, a: Aux, s': State, a': Aux, i: nat) {
    && i < |s.threads| && s.threads[i].pc.ASetHead? && |a.lists| == |s.mem.heads| == NHASH
    && var t := s.threads[i];
    && var b := Hash(ObjAt(s.mem, t.fp).id);
    && t.fp > 0 && t.fp in s.mem.objs && t.fp in a.own && a.own[t.fp] == Private(i)
    && s.mem.objs[t.fp].next == s.mem.heads[b]
    && s' == s.(mem := s.mem.(heads := s.mem.heads[b := t.fp]), threads := s.threads[i := t.(pc := AWantObj)])
    && a' == a.(lists := a.lists[b := [t.fp] + a.lists[b]], own := a.own[t.fp := Linked(b)])
  }

  lemma LinkingLists(s: State, a: Aux, s': State, a': Aux, i: nat)
    requires Inv(s, a) && Linking(s, a, s', a', i)
    ensures Lists(s', a') && Foot(s, a, s', a', i)
  {
    var t := s.threads[i];
    forall x | x in s.mem.objs ensures ObjKept(s, a, s', a', i, x) {}
    forall x | x in s'.mem.objs ensures Owned(s', a', x) { assert Owned(s, a, x); }
    ListsPush(s, a, s', a', Hash(ObjAt(s.mem, t.fp).id), t.fp);
    assert a.pos == a.pos[i := a.pos[i]];
  }

  lemma LinkingCounts(s: State, a: Aux, s': State, a': Aux, i: nat)
    requires Inv(s, a) && Linking(s, a, s', a', i)
    ensures Counts(s', a')
  {
    forall x: nat ensures Counted(s', a', x) {
      assert Counted(s, a, x);
      HandsUpdate(s.threads, i, s'.threads[i], x);
    }
  }

  lemma DoASetHead(s: State, a: Aux, s': State, a': Aux, i: nat)
    requires Inv(s, a) && Linking(s, a, s', a', i)
    ensures Inv(s', a')
  {
    LinkingLists(s, a, s', a', i);
    LinkingCounts(s, a, s', a', i);
    assert Local(s, a, i);
    Assemble(s, a, s', a', i);
  }

  /** malloc. */
  lemma StepMalloc(s: State, a: Aux, s': State, i: nat, x: nat) returns (a': Aux)
    requires Inv(s, a) && MallocBy(s, s', i, x)
    ensures Inv(s', a') && a' == if x == 0 then a else a.(own := a.own[x := Private(i)])
  {
    var t := s.threads[i];
    assert Local(s, a, i);
    if x == 0 {
      var u := t.(pc := Ret, res := 0);
      forall y ensures SameHand(t, u, y) {}
      KeepsLocks(s, i, u);
      assert SetPos(a, i, a.pos[i]) == a;
      Quiet(s, a, i, u, a.pos[i]);
      a' := a;
    } else {
      a' := a.(own := a.own[x := Private(i)]);
      DoMalloc(s, a, s', a', i, x);
    }
  }

  lemma DoMalloc(s: State, a: Aux, s': State, a': Aux, i: nat, x: nat)
    requires Inv(s, a) && MallocBy(s, s', i, x) && x != 0 && a' == a.(own := a.own[x := Private(i)])
    ensures Inv(s', a')
  {
    forall y | y in s.mem.objs ensures ObjKept(s, a, s', a', i, y) {}
    forall y | y in s.mem.objs && a.own[y].Linked? ensures LinkKept(s, a, s', a', y) {}
    forall y | y in s'.mem.objs ensures Owned(s', a', y) { if y != x { assert Owned(s, a, y); } }
    ListsSame(s, a, s', a');
    MallocCounts(s, a, s', a', i, x);
    assert Local(s, a, i) && a.pos == a.pos[i := a.pos[i]];
    Assemble(s, a, s', a', i);
  }

  lemma MallocCounts(s: State, a: Aux, s': State, a': Aux, i: nat, x: nat)
    requires Inv(s, a) && MallocBy(s, s', i, x) && x != 0 && a' == a.(own := a.own[x := Private(i)])
    ensures Counts(s', a')
  {
    forall y: nat ensures Counted(s', a', y) {
      assert Counted(s, a, y);
      HandsUpdate(s.threads, i, s'.threads[i], y);
      if y in a.own { assert Owned(s, a, y); }
    }
  }

  // ---------------------------------------------------------------- foo_rele

  /** Thread i unlinks its object, found at position j, and lets go of its reference. */
  ghost predicate Unlinking(s: State, a: Aux, s': State, a': Aux, i: nat, j: nat) {
    && i < |s.threads| && (s.threads[i].pc.RUnlinkHead? || s.threads[i].pc.RUnlinkMid?) && |a.lists| == NHASH
    && var t := s.threads[i];
    && var b := Hash(ObjAt(s.mem, t.fp).id);
    && |s.mem.heads| == NHASH && j < |a.lists[b]| && a.lists[b][j] == t.fp
    && t.fp in s.mem.objs && t.fp in a.own && a.own[t.fp] == Linked(b) && Total(s, t.fp) == 1
    && s'.threads == s.threads[i := t.(pc := RDropHash)] && s'.refs == s.refs
    && a' == a.(lists := a.lists[b := Without(a.lists[b], j)], own := a.own[t.fp := Private(i)])
    && if j == 0 then s'.mem == s.mem.(heads := s.mem.heads[b := s.mem.objs[t.fp].next]) else
       && a.lists[b][j - 1] in s.mem.objs && a.lists[b][j - 1] in a.own && a.own[a.lists[b][j - 1]] == Linked(b)
       && s'.mem == s.mem.(objs :=
            s.mem.objs[a.lists[b][j - 1] := s.mem.objs[a.lists[b][j - 1]].(next := s.mem.objs[t.fp].next)])
  }

  lemma UnlinkFoot(s: State, a: Aux, s': State, a': Aux, i: nat, j: nat)
    requires Inv(s, a) && Unlinking(s, a, s', a', i, j)
    ensures Foot(s, a, s', a', i)
  {
    forall x | x in s.mem.objs ensures ObjKept(s, a, s', a', i, x) {}
    assert a.pos == a.pos[i := a.pos[i]];
  }

  lemma UnlinkOwned(s: State, a: Aux, s': State, a': Aux, i: nat, j: nat, y: nat)
    requires Inv(s, a) && Unlinking(s, a, s', a', i, j) && y in s'.mem.objs
    ensures Owned(s', a', y)
  {
    var x := s.threads[i].fp;
    var b := Hash(ObjAt(s.mem, x).id);
    assert Owned(s, a, y);
    if y != x && a.own[y] == Linked(b) {
      var n :| 0 <= n < |a.lists[b]| && a.lists[b][n] == y;
      assert a'.lists[b][if n < j then n else n - 1] == y;
    }
  }

  lemma UnlinkLists(s: State, a: Aux, s': State, a': Aux, i: nat, j: nat)
    requires Inv(s, a) && Unlinking(s, a, s', a', i, j)
    ensures Lists(s', a')
  {
    var t := s.threads[i];
    var b := Hash(ObjAt(s.mem, t.fp).id);
    assert Chain(s, a, b) && Node(s, a, b, j);
    var z := if j == 0 then 0 else a.lists[b][j - 1];
    if j > 0 { assert Node(s, a, b, j - 1) && Differ(a.lists[b], j - 1, j); }
    forall y | y in s.mem.objs ensures Unmoved(s, s', z, y) {}
    forall y | y in s'.mem.objs ensures Owned(s', a', y) { UnlinkOwned(s, a, s', a', i, j, y); }
    ListsRemove(s, a, s', a', b, j, i);
  }

  lemma UnlinkCounts(s: State, a: Aux, s': State, a': Aux, i: nat, j: nat)
    requires Inv(s, a) && Unlinking(s, a, s', a', i, j)
    ensures Counts(s', a')
  {
    forall x: nat ensures Counted(s', a', x) {
      assert Counted(s, a, x);
      HandsUpdate(s.threads, i, s'.threads[i], x);
    }
  }

  lemma UnlinkLocal(s: State, a: Aux, s': State, a': Aux, i: nat, j: nat)
    requires Inv(s, a) && Unlinking(s, a, s', a', i, j)
    ensures s.threads[i].op == Rele(s.threads[i].fp) && s.mem.objs[s.threads[i].fp].count == 1
    ensures FewerLocks(s.threads[i], s'.threads[i]) && LocalOf(s'.mem, a', i, s'.threads[i], a'.pos[i])
  {
    assert Local(s, a, i);
  }

  lemma DoUnlink(s: State, a: Aux, s': State, a': Aux, i: nat, j: nat)
    requires Inv(s, a) && Unlinking(s, a, s', a', i, j)
    ensures Inv(s', a')
  {
    UnlinkFoot(s, a, s', a', i, j);
    UnlinkLists(s, a, s', a', i, j);
    UnlinkCounts(s, a, s', a', i, j);
    UnlinkLocal(s, a, s', a', i, j);
    Assemble(s, a, s', a', i);
  }

  lemma StepUnlinkHead(s: State, a: Aux, i: nat)
    requires Inv(s, a) && i < |s.threads| && s.threads[i].pc.RUnlinkHead?
    ensures Unlinking(s, a, StepOf(s, i), NextAux(s, a, i), i, 0) && Inv(StepOf(s, i), NextAux(s, a, i))
  {
    var t := s.threads[i];
    assert Local(s, a, i);
    RefLinked(s, a, i);
    var b := Hash(ObjAt(s.mem, t.fp).id);
    assert Chain(s, a, b) && Owned(s, a, t.fp);
    DoUnlink(s, a, StepOf(s, i), NextAux(s, a, i), i, 0);
  }

  lemma StepUnlinkMid(s: State, a: Aux, i: nat)
    requires Inv(s, a) && i < |s.threads| && s.threads[i].pc.RUnlinkMid?
    ensures Unlinking(s, a, StepOf(s, i), NextAux(s, a, i), i, a.pos[i] + 1) && Inv(StepOf(s, i), NextAux(s, a, i))
  {
    var t := s.threads[i];
    assert Local(s, a, i);
    RefLinked(s, a, i);
    var b := Hash(ObjAt(s.mem, t.fp).id);
    assert Chain(s, a, b) && Node(s, a, b, a.pos[i]);
    DoUnlink(s, a, StepOf(s, i), NextAux(s, a, i), i, a.pos[i] + 1);
  }

  /** free: the object is this thread's alone and has no reference left. */
  lemma StepRFree(s: State, a: Aux, i: nat)
    requires Inv(s, a) && i < |s.threads| && s.threads[i].pc.RFree?
    ensures Inv(StepOf(s, i), NextAux(s, a, i))
  {
    var t := s.threads[i];
    assert Local(s, a, i);
    DoRFree(s, a, StepOf(s, i), NextAux(s, a, i), i);
  }

  ghost predicate Freeing(s: State, a: Aux, s': State, a': Aux, i: nat) {
    && i < |s.threads| && s.threads[i].pc.RFree?
    && var t := s.threads[i];
    && t.fp in s.mem.objs && t.fp in a.own && a.own[t.fp] == Private(i)
    && s' == s.(mem := s.mem.(objs := s.mem.objs - {t.fp}), threads := s.threads[i := t.(pc := Ret, res := 0)])
    && a' == a.(own := a.own - {t.fp})
  }

  lemma FreeingLists(s: State, a: Aux, s': State, a': Aux, i: nat)
    requires Inv(s, a) && Freeing(s, a, s', a', i)
    ensures Lists(s', a') && Foot(s, a, s', a', i)
  {
    forall x | x in s.mem.objs ensures ObjKept(s, a, s', a', i, x) {}
    forall x | x in s.mem.objs && a.own[x].Linked? ensures LinkKept(s, a, s', a', x) {}
    forall x | x in s'.mem.objs ensures Owned(s', a', x) { assert Owned(s, a, x); }
    ListsSame(s, a, s', a');
    assert a.pos == a.pos[i := a.pos[i]];
  }

  lemma DoRFree(s: State, a: Aux, s': State, a': Aux, i: nat)
    requires Inv(s, a) && Freeing(s, a, s', a', i)
    ensures Inv(s', a')
  {
    FreeingLists(s, a, s', a', i);
    assert Local(s, a, i);
    forall x: nat ensures Counted(s', a', x) {
      assert Counted(s, a, x);
      HandsUpdate(s.threads, i, s'.threads[i], x);
      if x in s'.mem.objs { assert Owned(s, a, x); }
    }
    Assemble(s, a, s', a', i);
  }

  // ---------------------------------------------------------------- call and return

  ghost predicate Passes(s: State, s': State, i: nat, x: nat)
    requires i < |s.threads| && i < |s'.threads|
  {
    s'.refs[x] + InHand(s'.threads[i], x) == s.refs[x] + InHand(s.threads[i], x)
  }

  /** References pass between the caller and the call. */
  lemma DoPass(s: State, a: Aux, s': State, i: nat)
    requires Inv(s, a) && i < |s.threads| == |s'.threads| && s'.threads == s.threads[i := s'.threads[i]]
      && s'.mem == s.mem
    requires forall x :: Passes(s, s', i, x)
    requires var t, u := s.threads[i], s'.threads[i];
             !Fresh(t) && !Dying(t) && !Fresh(u) && !Dying(u) && !HoldsHash(u) && !HoldsObj(u) && PcFits(u)
             && !u.pc.AWantObj? && !u.pc.FWantObj?
    ensures Inv(s', a)
  {
    var u := s'.threads[i];
    forall x | x in s.mem.objs ensures ObjKept(s, a, s', a, i, x) {}
    forall x | x in s.mem.objs && a.own[x].Linked? ensures LinkKept(s, a, s', a, x) {}
    forall x | x in s'.mem.objs ensures Owned(s', a, x) { assert Owned(s, a, x); }
    ListsSame(s, a, s', a);
    forall x: nat ensures Counted(s', a, x) {
      assert Counted(s, a, x) && Passes(s, s', i, x);
      HandsUpdate(s.threads, i, u, x);
    }
    assert a.pos == a.pos[i := a.pos[i]];
    Assemble(s, a, s', a, i);
  }

  lemma StepCall(s: State, a: Aux, s': State, i: nat, op: Op)
    requires Inv(s, a) && CallBy(s, s', i, op)
    ensures Inv(s', a)
  {
    forall x ensures Passes(s, s', i, x) {
      assert s.refs[x] >= Takes(op)[x];
    }
    DoPass(s, a, s', i);
  }

  lemma StepReturn(s: State, a: Aux, s': State, i: nat)
    requires Inv(s, a) && ReturnBy(s, s', i)
    ensures Inv(s', a)
  {
    forall x ensures Passes(s, s', i, x) {}
    DoPass(s, a, s', i);
  }
}
