/** Every run of the two-level table is a run of the single-lock table, in which steps that
    only move locks are invisible; what that gives callers; freedom from deadlock. */
module Mutex2Refines {
  import opened Mutex3
  import opened Mutex2
  import opened Mutex2Inv
  import opened Mutex2Frame
  import opened Mutex2Steps
  import opened Mutex2Writes

  // ---------------------------------------------------------------- invisible steps

  predicate Visible(s: State, a: Aux, x: nat) { x in s.mem.objs && x in a.own && a.own[x].Linked? }

  /** The table's view of x is the same. */
  predicate SameView(s: State, a: Aux, s': State, a': Aux, x: nat) {
    && Visible(s', a', x) == Visible(s, a, x)
    && (Visible(s, a, x) ==> s'.mem.objs[x].count == s.mem.objs[x].count && s'.mem.objs[x].id == s.mem.objs[x].id)
  }

  lemma PhaseAt(ts: seq<Thread>, i: nat, u: Thread)
    requires i < |ts|
    ensures Phases(ts[i := u]) == Phases(ts)[i := PhaseOf(u)]
  {
  }

  lemma Invisible(s: State, a: Aux, s': State, a': Aux, i: nat)
    requires i < |s.threads| == |s'.threads| && s'.threads == s.threads[i := s'.threads[i]]
    requires s'.refs == s.refs && a'.lists == a.lists && PhaseOf(s'.threads[i]) == PhaseOf(s.threads[i])
    requires forall x :: SameView(s, a, s', a', x)
    ensures Abs(s', a') == Abs(s, a)
  {
    PhaseAt(s.threads, i, s'.threads[i]);
    assert Phases(s'.threads) == Phases(s.threads);
    forall x ensures x in Abs(s', a').count <==> x in Abs(s, a).count { assert SameView(s, a, s', a', x); }
    forall x | x in Abs(s, a).count
      ensures Abs(s', a').count[x] == Abs(s, a).count[x] && Abs(s', a').ident[x] == Abs(s, a).ident[x]
    { assert SameView(s, a, s', a', x); }
    assert Abs(s', a').count == Abs(s, a).count;
    assert Abs(s', a').ident == Abs(s, a).ident;
  }

  /** The steps that the single-lock table does not see. */
  predicate Hidden(t: Thread) {
    || Simple(t) || t.pc.RTest? || t.pc.RRetest? || t.pc.FFirst? || (t.pc.FWalk? && t.fp != 0)
    || t.pc.RFirst? || t.pc.RSearch? || t.pc.ASetNext? || t.pc.RFree?
  }

  lemma HiddenPhase(m: Mem, t: Thread)
    requires Hidden(t)
    ensures PhaseOf(StepThread(m, t)) == PhaseOf(t)
  {
  }

  lemma HiddenAbs(s: State, a: Aux, i: nat)
    requires Inv(s, a) && i < |s.threads| && Hidden(s.threads[i])
    ensures Abs(StepOf(s, i), NextAux(s, a, i)) == Abs(s, a)
  {
    var t := s.threads[i];
    var s', a' := StepOf(s, i), NextAux(s, a, i);
    assert Local(s, a, i);
    forall x ensures SameView(s, a, s', a', x) {}
    HiddenPhase(s.mem, t);
    Invisible(s, a, s', a', i);
  }

  // ---------------------------------------------------------------- visible steps

  lemma {:induction false} FirstAt(m: Mem, c: seq<nat>, ident: map<nat, int>, id: int, n: nat)
    requires NoneMatch(m, c, n, id)
    requires forall j :: 0 <= j < |c| ==> Agrees(m, c, ident, j)
    ensures n == |c| || !Mismatch(m, c, n, id) ==> First(c, ident, id) == n
  {
    if n > 0 {
      assert Mismatch(m, c, 0, id) && Agrees(m, c, ident, 0);
      forall j | 0 <= j < n - 1 ensures Mismatch(m, c[1..], j, id) { assert Mismatch(m, c, j + 1, id); }
      forall j | 0 <= j < |c| - 1 ensures Agrees(m, c[1..], ident, j) { assert Agrees(m, c, ident, j + 1); }
      FirstAt(m, c[1..], ident, id, n - 1);
    } else if c != [] {
      assert Agrees(m, c, ident, 0);
    }
  }

  predicate Agrees(m: Mem, c: seq<nat>, ident: map<nat, int>, j: nat)
    requires j < |c|
  {
    c[j] in ident && ident[c[j]] == ObjAt(m, c[j]).id
  }

  lemma ListAgrees(s: State, a: Aux, b: nat)
    requires Inv(s, a) && b < NHASH
    ensures forall j :: 0 <= j < |a.lists[b]| ==> Agrees(s.mem, a.lists[b], Abs(s, a).ident, j)
  {
    forall j | 0 <= j < |a.lists[b]| ensures Agrees(s.mem, a.lists[b], Abs(s, a).ident, j) {
      assert Chain(s, a, b) && Node(s, a, b, j);
    }
  }

  /** foo_find reaches the end of the list: no object has the id. */
  lemma MissAbs(s: State, a: Aux, i: nat)
    requires Inv(s, a) && i < |s.threads| && s.threads[i].pc.FWalk? && s.threads[i].fp == 0
    ensures Acts(Abs(s, a), Abs(StepOf(s, i), NextAux(s, a, i)), i)
  {
    var t := s.threads[i];
    assert Local(s, a, i);
    var b := Hash(t.op.id);
    ListAgrees(s, a, b);
    assert Chain(s, a, b) && (a.pos[i] < |a.lists[b]| ==> Node(s, a, b, a.pos[i]));
    FirstAt(s.mem, a.lists[b], Abs(s, a).ident, t.op.id, a.pos[i]);
    var u := StepThread(s.mem, t);
    PhaseAt(s.threads, i, u);
    assert DoFind(Abs(s, a), Abs(StepOf(s, i), NextAux(s, a, i)), i, t.op.id);
  }

  lemma CountAbs(s: State, a: Aux, s': State, i: nat, d: int)
    requires Inv(s, a) && Counting(s, a, s', i, d)
    ensures var x := s.threads[i].fp;
            x in Abs(s, a).count
            && Abs(s', a) == Abs(s, a).(count := Abs(s, a).count[x := Abs(s, a).count[x] + d],
                                        phase := Abs(s, a).phase[i := PhaseOf(s'.threads[i])])
  {
    PhaseAt(s.threads, i, s'.threads[i]);
    var x := s.threads[i].fp;
    assert Abs(s', a).count == Abs(s, a).count[x := Abs(s, a).count[x] + d];
    assert Abs(s', a).ident == Abs(s, a).ident;
  }

  lemma RecountAbs(s: State, a: Aux, s': State, i: nat)
    requires Inv(s, a) && i < |s.threads| && Recounts(s.threads[i]) && Counting(s, a, s', i, Change(s.threads[i]))
    requires PhaseOf(s'.threads[i]) == Done(s.threads[i].op, if s.threads[i].pc.FInc? then s.threads[i].fp else 0)
    ensures Acts(Abs(s, a), Abs(s', a), i)
  {
    var t := s.threads[i];
    CountAbs(s, a, s', i, Change(t));
    assert Local(s, a, i);
    if t.pc.FInc? {
      FindAbs(s, a, i);
      assert DoFind(Abs(s, a), Abs(s', a), i, t.op.id);
    } else if t.pc.HInc? {
      assert DoHold(Abs(s, a), Abs(s', a), i, t.fp);
    } else {
      assert DoRele(Abs(s, a), Abs(s', a), i, t.fp, 0);
    }
  }

  lemma FindAbs(s: State, a: Aux, i: nat)
    requires Inv(s, a) && i < |s.threads| && s.threads[i].pc.FInc?
    ensures var t := s.threads[i];
            t.op.Find? && var c := a.lists[Hash(t.op.id)];
            First(c, Abs(s, a).ident, t.op.id) == a.pos[i] < |c| && c[a.pos[i]] == t.fp
  {
    var t := s.threads[i];
    assert Local(s, a, i);
    var b := Hash(t.op.id);
    ListAgrees(s, a, b);
    FirstAt(s.mem, a.lists[b], Abs(s, a).ident, t.op.id, a.pos[i]);
  }

  lemma LinkAbs(s: State, a: Aux, s': State, a': Aux, i: nat)
    requires Inv(s, a) && Linking(s, a, s', a', i)
    ensures Acts(Abs(s, a), Abs(s', a'), i)
  {
    var t := s.threads[i];
    assert Local(s, a, i);
    PhaseAt(s.threads, i, s'.threads[i]);
    var g, g' := Abs(s, a), Abs(s', a');
    assert g'.count == g.count[t.fp := 1];
    assert g'.ident == g.ident[t.fp := t.op.id];
    assert DoAlloc(g, g', i, t.op.id, t.fp);
  }

  lemma UnlinkViews(s: State, a: Aux, s': State, a': Aux, i: nat, j: nat)
    requires Inv(s, a) && Unlinking(s, a, s', a', i, j)
    ensures Abs(s', a').count == Abs(s, a).count - {s.threads[i].fp}
    ensures Abs(s', a').ident == Abs(s, a).ident - {s.threads[i].fp}
  {
  }

  lemma UnlinkAbs(s: State, a: Aux, s': State, a': Aux, i: nat, j: nat)
    requires Inv(s, a) && Unlinking(s, a, s', a', i, j)
    ensures Acts(Abs(s, a), Abs(s', a'), i)
  {
    UnlinkLocal(s, a, s', a', i, j);
    PhaseAt(s.threads, i, s'.threads[i]);
    UnlinkViews(s, a, s', a', i, j);
    assert Abs(s, a).count[s.threads[i].fp] == 1;
    assert DoRele(Abs(s, a), Abs(s', a'), i, s.threads[i].fp, j);
  }

  lemma MallocAbs(s: State, a: Aux, s': State, a': Aux, i: nat, x: nat)
    requires Inv(s, a) && MallocBy(s, s', i, x) && a' == if x == 0 then a else a.(own := a.own[x := Private(i)])
    ensures if x == 0 then Acts(Abs(s, a), Abs(s', a'), i) else Abs(s', a') == Abs(s, a)
  {
    PhaseAt(s.threads, i, s'.threads[i]);
    if x == 0 {
      assert DoAlloc(Abs(s, a), Abs(s', a'), i, s.threads[i].op.id, 0);
    } else {
      forall y ensures SameView(s, a, s', a', y) {}
      Invisible(s, a, s', a', i);
    }
  }

  // ---------------------------------------------------------------- any step

  ghost predicate Matches(g: Table, g': Table, i: nat) {
    g' == g || (exists op :: Calls(g, g', i, op)) || Acts(g, g', i) || Returns(g, g', i)
  }

  lemma InnerStep(s: State, a: Aux, i: nat)
    requires Inv(s, a) && i < |s.threads| && Inner(s.threads[i]) && Enabled(s, i)
    ensures Inv(StepOf(s, i), NextAux(s, a, i))
    ensures Matches(Abs(s, a), Abs(StepOf(s, i), NextAux(s, a, i)), i)
  {
    var t := s.threads[i];
    if Hidden(t) {
      HiddenAbs(s, a, i);
      HiddenStep(s, a, i);
    } else if Recounts(t) {
      StepCount(s, a, i);
      RecountAbs(s, a, StepOf(s, i), i);
    } else {
      ListStep(s, a, i);
    }
  }

  lemma HiddenStep(s: State, a: Aux, i: nat)
    requires Inv(s, a) && i < |s.threads| && Hidden(s.threads[i]) && Enabled(s, i)
    ensures Inv(StepOf(s, i), NextAux(s, a, i))
  {
    var t := s.threads[i];
    if Simple(t) { StepSimple(s, a, i); }
    else if t.pc.RTest? || t.pc.RRetest? { StepTest(s, a, i); }
    else if t.pc.FFirst? { StepFFirst(s, a, i); }
    else if t.pc.FWalk? { StepFWalk(s, a, i); }
    else if t.pc.RFirst? { StepRFirst(s, a, i); }
    else if t.pc.RSearch? { StepRSearch(s, a, i); }
    else if t.pc.ASetNext? { StepASetNext(s, a, i); }
    else { StepRFree(s, a, i); }
  }

  lemma ListStep(s: State, a: Aux, i: nat)
    requires Inv(s, a) && i < |s.threads| && Inner(s.threads[i]) && !Hidden(s.threads[i]) && !Recounts(s.threads[i])
    ensures Inv(StepOf(s, i), NextAux(s, a, i))
    ensures Acts(Abs(s, a), Abs(StepOf(s, i), NextAux(s, a, i)), i)
  {
    var t := s.threads[i];
    if t.pc.FWalk? {
      StepFWalk(s, a, i);
      MissAbs(s, a, i);
    } else if t.pc.ASetHead? {
      StepASetHead(s, a, i);
      LinkAbs(s, a, StepOf(s, i), NextAux(s, a, i), i);
    } else if t.pc.RUnlinkHead? {
      StepUnlinkHead(s, a, i);
      UnlinkAbs(s, a, StepOf(s, i), NextAux(s, a, i), i, 0);
    } else {
      StepUnlinkMid(s, a, i);
      UnlinkAbs(s, a, StepOf(s, i), NextAux(s, a, i), i, a.pos[i] + 1);
    }
  }

  /** Refinement, one step: the invariant is kept, and the single-lock table makes the
      same call, return or action of the same thread, or stands still. */
  lemma StepRefines(s: State, a: Aux, s': State, i: nat) returns (a': Aux)
    requires Inv(s, a) && StepBy(s, s', i)
    ensures Inv(s', a') && Matches(Abs(s, a), Abs(s', a'), i)
  {
    a' := a;
    if op :| CallBy(s, s', i, op) {
      StepCall(s, a, s', i, op);
      PhaseAt(s.threads, i, s'.threads[i]);
      assert Calls(Abs(s, a), Abs(s', a'), i, op);
    } else if x :| MallocBy(s, s', i, x) {
      a' := StepMalloc(s, a, s', i, x);
      MallocAbs(s, a, s', a', i, x);
    } else if ReturnBy(s, s', i) {
      StepReturn(s, a, s', i);
      PhaseAt(s.threads, i, s'.threads[i]);
      assert Returns(Abs(s, a), Abs(s', a'), i);
    } else {
      a' := NextAux(s, a, i);
      InnerStep(s, a, i);
    }
  }

  // ---------------------------------------------------------------- runs

  lemma InitInv(s: State) returns (a: Aux)
    requires Mutex2.Init(s)
    ensures Inv(s, a) && Mutex3.Init(Abs(s, a))
  {
    a := Aux(seq(NHASH, _ => []), map[], seq(|s.threads|, _ => 0));
    forall x: nat ensures Counted(s, a, x) { NoHands(s.threads, x); }
    forall b | 0 <= b < NHASH ensures Chain(s, a, b) {}
    forall i, j | 0 <= i < |s.threads| && 0 <= j < |s.threads| && i != j ensures Exclusive(s, i, j) {}
    forall i | 0 <= i < |s.threads| ensures Local(s, a, i) {}
  }

  lemma {:induction false} NoHands(ts: seq<Thread>, x: nat)
    requires forall i :: 0 <= i < |ts| ==> ts[i].pc.Out?
    ensures Hands(ts, x) == 0
  {
    if ts != [] { NoHands(ts[1..], x); }
  }

  ghost predicate Follows(g: Table, g': Table) { g' == g || Mutex3.Step(g, g') }

  /** The table at time k shows what callers of the run see at time k. */
  ghost predicate Shows(run: seq<State>, gs: seq<Table>, k: nat)
    requires k < |run| && k < |gs|
  {
    && gs[k].refs == run[k].refs && gs[k].phase == Phases(run[k].threads)
    && (k > 0 ==> Follows(gs[k - 1], gs[k]))
  }

  lemma RunPrefix(run: seq<State>, n: nat)
    requires Run(run) && 1 <= n <= |run|
    ensures Run(run[..n])
  {
    var was := run[..n];
    forall t | 0 <= t < |was| - 1 ensures StepAt(was, t) { assert StepAt(run, t); }
  }

  lemma ShowsMore(run: seq<State>, n: nat, gs: seq<Table>, g: Table)
    requires 1 <= n == |gs| == |run| - 1 && forall k :: 0 <= k < n ==> Shows(run[..n], gs, k)
    requires g.refs == run[n].refs && g.phase == Phases(run[n].threads) && Follows(gs[n - 1], g)
    ensures forall k :: 0 <= k < n + 1 ==> Shows(run, gs + [g], k)
  {
    var gs1 := gs + [g];
    forall k | 0 <= k < n + 1 ensures Shows(run, gs1, k) {
      if k < n { assert Shows(run[..n], gs, k); }
    }
  }

  lemma LastStep(run: seq<State>, n: nat, a: Aux) returns (a': Aux)
    requires Run(run) && 1 <= n == |run| - 1 && Inv(run[n - 1], a)
    ensures Inv(run[n], a') && Follows(Abs(run[n - 1], a), Abs(run[n], a'))
  {
    assert StepAt(run, n - 1);
    var i :| StepBy(run[n - 1], run[n], i);
    a' := StepRefines(run[n - 1], a, run[n], i);
    MatchFollows(Abs(run[n - 1], a), Abs(run[n], a'), i);
  }

  lemma MatchFollows(g: Table, g': Table, i: nat)
    requires Matches(g, g', i)
    ensures Follows(g, g')
  {
    if g' != g { assert Mutex3.MovedBy(g, g', i); }
  }

  /** Refinement, whole runs: there is a run of the single-lock table in which, at every
      time, callers have the same references and every call the same state and result. */
  lemma {:induction false} RunRefines(run: seq<State>) returns (gs: seq<Table>, a: Aux)
    requires Run(run)
    ensures |gs| == |run| && Mutex3.Init(gs[0]) && forall k :: 0 <= k < |run| ==> Shows(run, gs, k)
    ensures Inv(run[|run| - 1], a) && gs[|run| - 1] == Abs(run[|run| - 1], a)
  {
    var n := |run| - 1;
    if n == 0 {
      a := InitInv(run[0]);
      gs := [Abs(run[0], a)];
    } else {
      RunPrefix(run, n);
      gs, a := RunRefines(run[..n]);
      var g := Abs(run[n - 1], a);
      a := LastStep(run, n, a);
      ShowsMore(run, n, gs, Abs(run[n], a));
      gs := gs + [Abs(run[n], a)];
    }
  }

  // ---------------------------------------------------------------- what it gives

  predicate LinkAt(m: Mem, c: seq<nat>, j: nat)
    requires j < |c|
  {
    c[j] > 0 && c[j] in m.objs && m.objs[c[j]].next == PtrTo(c, j + 1)
  }

  /** Following the pointers in memory from list b gives the objects c. */
  ghost predicate Links(m: Mem, b: nat, c: seq<nat>) {
    b < |m.heads| && m.heads[b] == PtrTo(c, 0) && forall j :: 0 <= j < |c| ==> LinkAt(m, c, j)
  }

  lemma {:induction false} LinksUnique(m: Mem, b: nat, c: seq<nat>, d: seq<nat>, n: nat)
    requires Links(m, b, c) && Links(m, b, d) && n <= |c|
    ensures n <= |d| && c[..n] == d[..n]
  {
    if n > 0 {
      LinksUnique(m, b, c, d, n - 1);
      assert LinkAt(m, c, n - 1);
      if n > 1 {
        assert LinkAt(m, c, n - 2) && LinkAt(m, d, n - 2);
        assert c[..n - 1][n - 2] == d[..n - 1][n - 2];
      }
      assert PtrTo(c, n - 1) == PtrTo(d, n - 1);
    }
  }

  /** In every reachable state the pointers of every list come to an end, over objects that are
      all different and that have the hash of the list. */
  lemma ListsEnd(run: seq<State>, b: nat) returns (c: seq<nat>, a: Aux)
    requires Run(run) && b < NHASH
    ensures Links(run[|run| - 1].mem, b, c) && forall i, j :: 0 <= i < j < |c| ==> Differ(c, i, j)
    ensures Inv(run[|run| - 1], a) && c == a.lists[b]
  {
    var gs;
    gs, a := RunRefines(run);
    var s := run[|run| - 1];
    c := a.lists[b];
    assert Chain(s, a, b);
    forall j | 0 <= j < |c| ensures LinkAt(s.mem, c, j) { assert Node(s, a, b, j); }
  }

  /** In every reachable state the count of every object that the lists lead to is the number
      of references to it: those of callers and those inside calls. */
  lemma LinkedIsCounted(run: seq<State>, b: nat, c: seq<nat>, j: nat)
    requires Run(run) && b < NHASH && Links(run[|run| - 1].mem, b, c) && j < |c|
    ensures var s := run[|run| - 1];
            c[j] in s.mem.objs && s.mem.objs[c[j]].count == Total(s, c[j]) && Hash(s.mem.objs[c[j]].id) == b
  {
    var s := run[|run| - 1];
    var d, a := ListsEnd(run, b);
    LinksUnique(s.mem, b, c, d, |c|);
    assert c[..|c|] == c && c[j] == d[..|c|][j];
    assert Chain(s, a, b) && Node(s, a, b, j) && Counted(s, a, c[j]);
  }

  /** In every reachable state: an object to which a caller has a reference is allocated,
      on the list of its id, and its count is the number of references to it. */
  lemma HeldIsCounted(run: seq<State>, x: nat) returns (a: Aux)
    requires Run(run) && run[|run| - 1].refs[x] > 0
    ensures var s := run[|run| - 1];
            x in s.mem.objs && s.mem.objs[x].count == Total(s, x)
            && Inv(s, a) && x in a.lists[Hash(s.mem.objs[x].id)]
  {
    var gs;
    gs, a := RunRefines(run);
    var s := run[|run| - 1];
    assert Counted(s, a, x) && Owned(s, a, x);
    match a.own[x]
    case Linked(b) =>
      var j :| 0 <= j < |a.lists[b]| && a.lists[b][j] == x;
      assert Chain(s, a, b) && Node(s, a, b, j);
    case Private(k) =>
      assert Local(s, a, k);
      HandsAt(s.threads, k, x);
      assert false;
  }

  /** The thread's next step reads, writes, locks or unlocks the object at fp. */
  predicate Uses(t: Thread) { HoldsObj(t) || WantsObj(t) || Fresh(t) || Dying(t) || (t.pc.FWalk? && t.fp != 0) }

  lemma UsesFound(s: State, a: Aux, i: nat)
    requires Inv(s, a) && i < |s.threads| && Finding(s.threads[i]) && s.threads[i].fp != 0
    ensures s.threads[i].fp in s.mem.objs
  {
    assert Local(s, a, i);
    var b := Hash(s.threads[i].op.id);
    assert Chain(s, a, b) && Node(s, a, b, a.pos[i]);
  }

  /** No access after free: in every reachable state, an object that some thread is about
      to read, write, lock or unlock is allocated; so is the one its search has reached. */
  lemma AccessesLive(run: seq<State>, i: nat)
    requires Run(run) && i < |run[|run| - 1].threads|
    ensures var s := run[|run| - 1]; var t := s.threads[i];
            (Uses(t) ==> t.fp in s.mem.objs) && (t.pc.RSearch? || t.pc.RUnlinkMid? ==> t.tfp in s.mem.objs)
  {
    var gs, a := RunRefines(run);
    var s := run[|run| - 1];
    var t := s.threads[i];
    assert Local(s, a, i);
    if t.pc.RSearch? || t.pc.RUnlinkMid? { TrailLive(s, a, i); }
    if Uses(t) && !Fresh(t) && !Dying(t) && !Unlocking(t) {
      if Finding(t) { UsesFound(s, a, i); } else { RefLinked(s, a, i); }
    }
  }

  lemma TrailLive(s: State, a: Aux, i: nat)
    requires Inv(s, a) && i < |s.threads| && (s.threads[i].pc.RSearch? || s.threads[i].pc.RUnlinkMid?)
    ensures s.threads[i].tfp in s.mem.objs
  {
    assert Local(s, a, i);
    var b := Hash(ObjAt(s.mem, s.threads[i].fp).id);
    assert Chain(s, a, b) && Node(s, a, b, a.pos[i]);
  }

  lemma Listed(s: State, a: Aux, b: nat, j: nat)
    requires Inv(s, a) && b < NHASH && j < |a.lists[b]|
    ensures a.lists[b][j] in a.own && a.own[a.lists[b][j]] == Linked(b)
  {
    assert Chain(s, a, b) && Node(s, a, b, j);
  }

  /** When an object is freed nobody refers to it: no caller, no other call, no list, and no
      other thread is about to use it. */
  lemma FreedIsUnused(run: seq<State>, i: nat, k: nat) returns (a: Aux)
    requires Run(run) && i < |run[|run| - 1].threads| && k < |run[|run| - 1].threads|
    requires run[|run| - 1].threads[i].pc.RFree?
    ensures var s := run[|run| - 1]; var x := s.threads[i].fp;
            Inv(s, a) && Total(s, x) == 0 && (k != i ==> !(Uses(s.threads[k]) && s.threads[k].fp == x))
            && forall b :: 0 <= b < NHASH ==> x !in a.lists[b]
  {
    var gs;
    gs, a := RunRefines(run);
    var s := run[|run| - 1];
    var x := s.threads[i].fp;
    assert Local(s, a, i) && Counted(s, a, x);
    forall b | 0 <= b < NHASH ensures x !in a.lists[b] {
      forall j | 0 <= j < |a.lists[b]| ensures a.lists[b][j] != x { Listed(s, a, b, j); }
    }
    if k != i { NoOtherUse(s, a, i, k); }
  }

  lemma NoOtherUse(s: State, a: Aux, i: nat, k: nat)
    requires Inv(s, a) && i < |s.threads| && k < |s.threads| && k != i && s.threads[i].pc.RFree?
    ensures !(Uses(s.threads[k]) && s.threads[k].fp == s.threads[i].fp)
  {
    var t, u := s.threads[i], s.threads[k];
    assert Local(s, a, i) && Local(s, a, k) && Counted(s, a, t.fp);
    HandsAt(s.threads, k, t.fp);
    assert Owned(s, a, t.fp);
    if Finding(u) && u.fp != 0 { Listed(s, a, Hash(u.op.id), a.pos[k]); }
  }

  // ---------------------------------------------------------------- deadlock

  lemma Blocked(s: State, i: nat) returns (j: nat)
    requires i < |s.threads| && !s.threads[i].pc.Out? && !Enabled(s, i)
    ensures j < |s.threads| && j != i && Conflict(s.threads[i], s.threads[j])
  {
    j :| 0 <= j < |s.threads| && j != i && Conflict(s.threads[i], s.threads[j]);
  }

  /** A thread that waits, or any thread inside a call, leads to one that can go on. */
  lemma SomeEnabled(s: State, i: nat) returns (j: nat)
    requires i < |s.threads| && !s.threads[i].pc.Out?
    ensures j < |s.threads| && !s.threads[j].pc.Out? && Enabled(s, j)
  {
    j := i;
    if !Enabled(s, j) { j := Blocked(s, j); }
    if !Enabled(s, j) { j := Blocked(s, j); }
  }

  /** No deadlock: in every reachable state, if some thread is inside a call then some
      thread inside a call can take a step. */
  lemma NoDeadlock(run: seq<State>, i: nat) returns (j: nat, s': State)
    requires Run(run) && i < |run[|run| - 1].threads| && !run[|run| - 1].threads[i].pc.Out?
    ensures j < |run[|run| - 1].threads| && !run[|run| - 1].threads[j].pc.Out? && StepBy(run[|run| - 1], s', j)
  {
    var s := run[|run| - 1];
    var gs, a := RunRefines(run);
    j := SomeEnabled(s, i);
    var t := s.threads[j];
    assert Local(s, a, j);
    if t.pc.AMalloc? {
      forall x | x in s.mem.objs ensures x > 0 { assert Owned(s, a, x); }
      s' := s.(threads := s.threads[j := t.(pc := Ret, res := 0)]);
      assert MallocBy(s, s', j, 0);
    } else if t.pc.Ret? {
      s' := s.(refs := s.refs + Gives(t.op, t.res), threads := s.threads[j := t.(pc := Out)]);
    } else {
      s' := StepOf(s, j);
    }
  }
}
