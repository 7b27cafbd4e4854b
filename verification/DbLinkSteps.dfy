/** Writing steps on the index file: rewriting a held record, taking a record off a list,
    putting one on, and appending. */
module DbLinkSteps {
  import opened DbFormat
  import opened DbSteps
  import opened DbInvariant
  import opened DbLists
  import opened DbFrame
  import opened DbQuiet
  import opened DbWrites
  import opened DbWriteSteps

  // ---------------------------------------------------------------- a held record is rewritten in place

  ghost predicate Rewriting(s: State, a: Aux, s': State, i: nat, r: Rec) {
    && Shapes(s, a) && i < |s.procs| == |s'.procs| && s'.procs == s.procs[i := s'.procs[i]]
    && Carries(s.procs[i], s'.procs[i]) && SameOrFewer(s.procs[i], s'.procs[i])
    && !HasClaim(s.procs[i]) && !HasClaim(s'.procs[i])
    && var x := s.procs[i].off;
    && HeldAt(s, a, i, x) && Link(x) !in a.fix
    && s'.disk == SetRec(s.disk, x, r) && SamePlace(s.disk, s'.disk, x)
  }

  lemma RewriteFoot(s: State, a: Aux, s': State, i: nat, r: Rec)
    requires Rewriting(s, a, s', i, r)
    ensures Foot(s, a, s', a, i)
  {
    forall m | 0 <= m < SLOTS ensures ListKept(s.procs[i], a, a, m) {}
    forall y | y in s.disk.recs ensures RecKept(s, a, s', a, i, y) {}
    forall slot | slot in a.fix ensures FixKept(a, a, i, slot) {}
  }

  lemma RewriteLists(s: State, a: Aux, s': State, i: nat, r: Rec)
    requires Lists(s, a) && Rewriting(s, a, s', i, r)
    ensures Lists(s', a)
  {
    forall x | x in s'.disk.recs ensures x in a.own && (a.own[x].HeldBy? ==> Owned(s', a, x)) {
      assert Owned(s, a, x);
    }
    forall slot | slot in a.fix ensures Fixed(s', a, slot) {
      assert Fixed(s, a, slot);
    }
    forall k | 0 <= k < |a.chains| ensures KeptHead(s, a, s', a, k) {
      if Head(k) in a.fix { assert Fixed(s, a, Head(k)); }
    }
    forall y | OnList(a, y) ensures KeptNode(s, a, s', a, y) {
      if Link(y) in a.fix { assert Fixed(s, a, Link(y)); }
    }
    ListsSame(s, a, s', a);
  }

  lemma RewriteExtents(s: State, a: Aux, s': State, i: nat, r: Rec)
    requires Extents(s) && Rewriting(s, a, s', i, r)
    ensures Extents(s')
  {
    forall y | y in s.disk.recs ensures SamePlace(s.disk, s'.disk, y) {}
    forall j | 0 <= j < |s.procs| ensures Claimed(s', j) { RewriteClaim(s, a, s', i, r, j); }
    ExtentsSame(s, s', i);
  }

  lemma RewriteClaim(s: State, a: Aux, s': State, i: nat, r: Rec, j: nat)
    requires Extents(s) && Rewriting(s, a, s', i, r) && j < |s.procs|
    ensures j < |s'.procs| && Claimed(s', j)
  {
    assert Claimed(s, j);
  }

  lemma RewriteView(s: State, a: Aux, s': State, i: nat, r: Rec, k: nat)
    requires Rewriting(s, a, s', i, r) && k < SLOTS && Chain(s, a, k) && View(s, a, k)
    ensures View(s', a, k)
  {
    forall b | 0 <= b < |a.chains[k]| ensures SameEntry(s, s', a.chains[k][b]) {
      HeldOffList(s, a, i, s.procs[i].off, k, b);
    }
    ViewSame(s, a, s', a, k);
  }

  lemma DoRewrite(s: State, a: Aux, s': State, i: nat, r: Rec)
    requires Inv(s, a) && Rewriting(s, a, s', i, r)
    requires LocalOf(s'.disk, s'.procs[i], i, a, a.info[i])
    ensures Keeps(s, a, s', a, i)
  {
    var k := Bucket(s.procs[i].op);
    assert Chain(s, a, k) && View(s, a, k);
    RewriteFoot(s, a, s', i, r);
    RewriteLists(s, a, s', i, r);
    RewriteExtents(s, a, s', i, r);
    RewriteView(s, a, s', i, r, k);
    Assemble(s, a, s', a, i);
  }

  /** _db_dodelete: the record gets its blank key and the old head of the free list. */
  lemma StepDelIdx(s: State, a: Aux, i: nat)
    requires Inv(s, a) && i < |s.procs| && s.procs[i].pc.DelIdx?
    ensures Keeps(s, a, StepOf(s, i), NextAux(s, a, i), i)
  {
    DoDelIdx(s, a, StepOf(s, i), i);
  }

  lemma DoDelIdx(s: State, a: Aux, s': State, i: nat)
    requires Inv(s, a) && i < |s.procs| && s.procs[i].pc.DelIdx?
    requires s' == State(SetRec(s.disk, s.procs[i].off, FreedRec(s.procs[i])),
        s.procs[i := s.procs[i].(pc := DelFreeHead)])
    ensures Keeps(s, a, s', a, i)
  {
    HeldFacts(s, a, i);
    DelIdxRewrites(s, a, s', i);
    DelIdxLocal(s.disk, s.procs[i], i, a, a.info[i]);
    DoRewrite(s, a, s', i, FreedRec(s.procs[i]));
  }

  lemma DelIdxRewrites(s: State, a: Aux, s': State, i: nat)
    requires Shapes(s, a) && i < |s.procs| && s.procs[i].pc.DelIdx? && HeldAt(s, a, i, s.procs[i].off)
    requires s.procs[i].rec == RecordAt(s.disk, s.procs[i].off) && Link(s.procs[i].off) !in a.fix
    requires s' == State(SetRec(s.disk, s.procs[i].off, FreedRec(s.procs[i])),
        s.procs[i := s.procs[i].(pc := DelFreeHead)])
    ensures Rewriting(s, a, s', i, FreedRec(s.procs[i]))
  {
  }

  lemma DelIdxLocal(d: Disk, p: Proc, i: nat, a: Aux, inf: Info)
    requires |a.chains| == |a.view| == SLOTS && LocalOf(d, p, i, a, inf) && p.pc.DelIdx?
    ensures LocalOf(SetRec(d, p.off, FreedRec(p)), p.(pc := DelFreeHead), i, a, inf)
  {
  }

  /** db_store, reuse: the record gets its new key and the head of its chain. */
  lemma StepSIdx(s: State, a: Aux, i: nat)
    requires Inv(s, a) && i < |s.procs| && s.procs[i].pc.SIdx?
    ensures Keeps(s, a, StepOf(s, i), NextAux(s, a, i), i)
  {
    DoSIdx(s, a, StepOf(s, i), i);
  }

  lemma DoSIdx(s: State, a: Aux, s': State, i: nat)
    requires Inv(s, a) && i < |s.procs| && s.procs[i].pc.SIdx?
    requires s' == State(SetRec(s.disk, s.procs[i].off, NewRec(s.procs[i])), s.procs[i := s.procs[i].(pc := SLink)])
    ensures Keeps(s, a, s', a, i)
  {
    HeldFacts(s, a, i);
    SIdxRewrites(s, a, s', i);
    SIdxLocal(s.disk, s.procs[i], i, a, a.info[i]);
    DoRewrite(s, a, s', i, NewRec(s.procs[i]));
  }

  lemma SIdxRewrites(s: State, a: Aux, s': State, i: nat)
    requires Shapes(s, a) && i < |s.procs| && s.procs[i].pc.SIdx? && HeldAt(s, a, i, s.procs[i].off)
    requires ReuseFits(s.procs[i], RecordAt(s.disk, s.procs[i].off)) && Link(s.procs[i].off) !in a.fix
    requires s' == State(SetRec(s.disk, s.procs[i].off, NewRec(s.procs[i])), s.procs[i := s.procs[i].(pc := SLink)])
    ensures Rewriting(s, a, s', i, NewRec(s.procs[i]))
  {
  }

  lemma SIdxLocal(d: Disk, p: Proc, i: nat, a: Aux, inf: Info)
    requires |a.chains| == |a.view| == SLOTS && LocalOf(d, p, i, a, inf) && p.pc.SIdx?
    ensures LocalOf(SetRec(d, p.off, NewRec(p)), p.(pc := SLink), i, a, inf)
  {
  }

  // ---------------------------------------------------------------- a held record goes first on a list

  ghost predicate Pushing(s: State, a: Aux, s': State, a': Aux, i: nat, k: nat) {
    && Shapes(s, a) && Shapes(s', a') && i < |s.procs| && Repoints(s, s', i, Head(k), s.procs[i].off)
    && SameOrFewer(s.procs[i], s'.procs[i])
    && (Pending(s.procs[i]) ==>
          Pending(s'.procs[i]) && s'.procs[i].ptroff == s.procs[i].ptroff && s'.procs[i].rec == s.procs[i].rec)
    && k < SLOTS && MayChange(s.procs[i], k) && Head(k) !in a.fix
    && var x := s.procs[i].off;
    && HeldAt(s, a, i, x) && Link(x) !in a.fix && s.disk.recs[x].ptr == PtrTo(a.chains[k], 0)
    && a'.chains == a.chains[k := [x] + a.chains[k]] && a'.own == a.own[x := Listed(k)]
    && a'.fix == a.fix && a'.info == a.info
    && (forall m :: 0 <= m < SLOTS && m != k ==> a'.view[m] == a.view[m])
  }

  lemma PushFoot(s: State, a: Aux, s': State, a': Aux, i: nat, k: nat)
    requires Pushing(s, a, s', a', i, k)
    ensures Foot(s, a, s', a', i)
  {
    forall m | 0 <= m < SLOTS ensures ListKept(s.procs[i], a, a', m) {}
    forall y | y in s.disk.recs ensures RecKept(s, a, s', a', i, y) {
      RepointKeeps(s, s', i, Head(k), s.procs[i].off, y);
    }
    forall slot | slot in a.fix ensures FixKept(a, a', i, slot) {}
  }

  lemma PushLists(s: State, a: Aux, s': State, a': Aux, i: nat, k: nat)
    requires Lists(s, a) && Pushing(s, a, s', a', i, k)
    ensures Lists(s', a')
  {
    var x := s.procs[i].off;
    forall y | y in s'.disk.recs ensures y in a'.own && (a'.own[y].HeldBy? ==> Owned(s', a', y)) {
      assert Owned(s, a, y);
    }
    forall slot | slot in a'.fix ensures Fixed(s', a', slot) {
      assert Fixed(s, a, slot);
    }
    RepointPhys(s, s', i, Head(k), x, Head(k));
    RepointPhys(s, s', i, Head(k), x, Link(x));
    forall m | 0 <= m < |a.chains| && m != k ensures KeptHead(s, a, s', a', m) {
      if Head(m) in a.fix { assert Fixed(s, a, Head(m)); }
    }
    forall y | OnList(a, y) ensures KeptNode(s, a, s', a', y) {
      if Link(y) in a.fix { assert Fixed(s, a, Link(y)); }
    }
    ListsPush(s, a, s', a', k, x);
  }

  /** _db_dodelete: the free-list pointer. */
  lemma StepDelFreeHead(s: State, a: Aux, i: nat)
    requires Inv(s, a) && i < |s.procs| && s.procs[i].pc.DelFreeHead?
    ensures Keeps(s, a, StepOf(s, i), NextAux(s, a, i), i)
  {
    DoDelFreeHead(s, a, StepOf(s, i), NextAux(s, a, i), i);
  }

  lemma DoDelFreeHead(s: State, a: Aux, s': State, a': Aux, i: nat)
    requires Inv(s, a) && i < |s.procs| && s.procs[i].pc.DelFreeHead?
    requires s' == State(SetPtr(s.disk, Head(0), s.procs[i].off), s.procs[i := s.procs[i].(pc := DelChain)])
    requires a' == a.(chains := a.chains[0 := [s.procs[i].off] + a.chains[0]],
        own := a.own[s.procs[i].off := Listed(0)])
    ensures Keeps(s, a, s', a', i)
  {
    var p := s.procs[i];
    var k := Bucket(p.op);
    HeldFacts(s, a, i);
    HeadRead(s, a, i, 0);
    FreePushes(s, a, s', a', i);
    PushFoot(s, a, s', a', i, 0);
    PushLists(s, a, s', a', i, 0);
    RepointExtents(s, s', i, Head(0), p.off);
    RepointView(s, a, s', a', i, Head(0), p.off, k);
    FreeHeadLocal(s.disk, s'.disk, p, i, a, a', a.info[i]);
    Assemble(s, a, s', a', i);
  }

  lemma FreePushes(s: State, a: Aux, s': State, a': Aux, i: nat)
    requires Shapes(s, a) && i < |s.procs| && s.procs[i].pc.DelFreeHead? && HeldAt(s, a, i, s.procs[i].off)
    requires LocalOf(s.disk, s.procs[i], i, a, a.info[i]) && Link(s.procs[i].off) !in a.fix && Head(0) !in a.fix
    requires s' == State(SetPtr(s.disk, Head(0), s.procs[i].off), s.procs[i := s.procs[i].(pc := DelChain)])
    requires a' == a.(chains := a.chains[0 := [s.procs[i].off] + a.chains[0]],
        own := a.own[s.procs[i].off := Listed(0)])
    ensures Pushing(s, a, s', a', i, 0)
  {
  }

  /** Entries of a chain whose list is as before, after a pointer write. */
  lemma RepointView(s: State, a: Aux, s': State, a': Aux, i: nat, slot: Slot, v: nat, k: nat)
    requires Repoints(s, s', i, slot, v) && k < |a.chains| == |a'.chains| == |a.view| == |a'.view|
    requires a'.chains[k] == a.chains[k] && a'.view[k] == a.view[k]
    requires Lists(s, a) && View(s, a, k)
    ensures View(s', a', k)
  {
    assert Chain(s, a, k);
    forall b | 0 <= b < |a.chains[k]| ensures SameEntry(s, s', a.chains[k][b]) {
      assert Node(s, a, k, b);
      RepointKeeps(s, s', i, slot, v, a.chains[k][b]);
    }
    ViewSame(s, a, s', a', k);
  }

  lemma FreeHeadLocal(d: Disk, d': Disk, p: Proc, i: nat, a: Aux, a': Aux, inf: Info)
    requires |a.chains| == |a.view| == |a'.chains| == |a'.view| == SLOTS && LocalOf(d, p, i, a, inf)
      && p.pc.DelFreeHead?
    requires a'.chains[Bucket(p.op)] == a.chains[Bucket(p.op)] && a'.view == a.view && a'.fix == a.fix
    ensures LocalOf(d', p.(pc := DelChain), i, a', inf)
  {
  }

  /** db_store: the record goes first on its chain. */
  lemma StepSLink(s: State, a: Aux, i: nat)
    requires Inv(s, a) && i < |s.procs| && s.procs[i].pc.SLink?
    ensures Keeps(s, a, StepOf(s, i), NextAux(s, a, i), i)
  {
    DoSLink(s, a, StepOf(s, i), NextAux(s, a, i), i);
  }

  ghost predicate Linking(s: State, a: Aux, s': State, a': Aux, i: nat) {
    && Shapes(s, a) && i < |s.procs| && s.procs[i].pc.SLink?
    && var p, k := s.procs[i], Bucket(s.procs[i].op);
    && s' == State(SetPtr(s.disk, Head(k), p.off), s.procs[i := p.(pc := Unlock, res := Code(0))])
    && a' == a.(chains := a.chains[k := [p.off] + a.chains[k]], own := a.own[p.off := Listed(k)],
                view := a.view[k := a.view[k][p.op.key := DataOf(p.op)]])
  }

  lemma DoSLink(s: State, a: Aux, s': State, a': Aux, i: nat)
    requires Inv(s, a) && Linking(s, a, s', a', i)
    ensures Keeps(s, a, s', a', i)
  {
    var p := s.procs[i];
    var k := Bucket(p.op);
    HeldFacts(s, a, i);
    HeadRead(s, a, i, k);
    LinkPushes(s, a, s', a', i);
    PushFoot(s, a, s', a', i, k);
    PushLists(s, a, s', a', i, k);
    RepointExtents(s, s', i, Head(k), p.off);
    assert View(s, a, k);
    LinkView(s, a, s', a', i);
    InsertedView(p, a.view[k], a.info[i].base);
    UnlockLocal(s'.disk, s'.procs[i], i, a', a.info[i]);
    Assemble(s, a, s', a', i);
  }

  lemma LinkPushes(s: State, a: Aux, s': State, a': Aux, i: nat)
    requires Linking(s, a, s', a', i) && HeldAt(s, a, i, s.procs[i].off)
    requires LocalOf(s.disk, s.procs[i], i, a, a.info[i]) && Link(s.procs[i].off) !in a.fix
      && Head(Bucket(s.procs[i].op)) !in a.fix
    ensures Pushing(s, a, s', a', i, Bucket(s.procs[i].op))
  {
  }

  lemma LinkView(s: State, a: Aux, s': State, a': Aux, i: nat)
    requires Linking(s, a, s', a', i) && Lists(s, a) && View(s, a, Bucket(s.procs[i].op))
    requires Repoints(s, s', i, Head(Bucket(s.procs[i].op)), s.procs[i].off)
    requires LocalOf(s.disk, s.procs[i], i, a, a.info[i])
    ensures View(s', a', Bucket(s.procs[i].op))
  {
    var p, k := s.procs[i], Bucket(s.procs[i].op);
    assert Chain(s, a, k);
    forall b | 0 <= b < |a.chains[k]| ensures SameEntry(s, s', a.chains[k][b]) {
      assert Node(s, a, k, b);
      RepointKeeps(s, s', i, Head(k), p.off, a.chains[k][b]);
    }
    RepointKeeps(s, s', i, Head(k), p.off, p.off);
    ViewPush(s, a, s', a', k, p.off, p.op.key, DataOf(p.op));
  }

  lemma InsertedView(p: Proc, view: map<string, string>, base: map<string, string>)
    requires p.pc.SLink? && OnView(p, view, base)
    ensures OnView(p.(pc := Unlock, res := Code(0)), view[p.op.key := DataOf(p.op)], base)
  {
    assert (base - {p.op.key})[p.op.key := DataOf(p.op)] == base[p.op.key := DataOf(p.op)];
  }

  // ---------------------------------------------------------------- the rewrite that was due

  /** _db_dodelete: the pointer that led to the deleted record. */
  lemma StepDelChain(s: State, a: Aux, i: nat)
    requires Inv(s, a) && i < |s.procs| && s.procs[i].pc.DelChain?
    ensures Keeps(s, a, StepOf(s, i), NextAux(s, a, i), i)
  {
    DoDelChain(s, a, StepOf(s, i), NextAux(s, a, i), i);
  }

  ghost predicate Settling(s: State, a: Aux, s': State, a': Aux, i: nat) {
    && Shapes(s, a) && i < |s.procs| && s.procs[i].pc.DelChain? && PcFits(s.procs[i])
    && var p, k := s.procs[i], Bucket(s.procs[i].op);
    && s' == State(SetPtr(s.disk, p.ptroff, p.rec.ptr), s.procs[i := p.(pc := DelUnlockFree)])
    && a' == a.(fix := a.fix - {p.ptroff})
    && p.ptroff in a.fix && a.fix[p.ptroff] == i
    && (p.ptroff.Link? ==> p.ptroff.off in s.disk.recs && p.ptroff.off in a.own && a.own[p.ptroff.off] == Listed(k))
    && (p.ptroff.Head? ==> p.ptroff.k == k)
  }

  lemma StartSettling(s: State, a: Aux, s': State, a': Aux, i: nat)
    requires Inv(s, a) && i < |s.procs| && s.procs[i].pc.DelChain?
    requires s' == State(SetPtr(s.disk, s.procs[i].ptroff, s.procs[i].rec.ptr),
        s.procs[i := s.procs[i].(pc := DelUnlockFree)])
    requires a' == a.(fix := a.fix - {s.procs[i].ptroff})
    ensures Settling(s, a, s', a', i) && Local(s, a, i)
  {
    assert Local(s, a, i);
    var k, pos := Bucket(s.procs[i].op), a.info[i].pos;
    assert Chain(s, a, k);
    if pos > 0 { assert Node(s, a, k, pos - 1); }
  }

  lemma DoDelChain(s: State, a: Aux, s': State, a': Aux, i: nat)
    requires Inv(s, a) && i < |s.procs| && s.procs[i].pc.DelChain?
    requires s' == State(SetPtr(s.disk, s.procs[i].ptroff, s.procs[i].rec.ptr),
        s.procs[i := s.procs[i].(pc := DelUnlockFree)])
    requires a' == a.(fix := a.fix - {s.procs[i].ptroff})
    ensures Keeps(s, a, s', a', i)
  {
    var p := s.procs[i];
    var k := Bucket(p.op);
    StartSettling(s, a, s', a', i);
    SettleFoot(s, a, s', a', i);
    SettleLists(s, a, s', a', i);
    RepointExtents(s, s', i, p.ptroff, p.rec.ptr);
    assert View(s, a, k);
    RepointView(s, a, s', a', i, p.ptroff, p.rec.ptr, k);
    SettleLocal(s.disk, s'.disk, p, i, a, a', a.info[i]);
    Assemble(s, a, s', a', i);
  }

  lemma SettleFoot(s: State, a: Aux, s': State, a': Aux, i: nat)
    requires Settling(s, a, s', a', i)
    ensures Foot(s, a, s', a', i) && Repoints(s, s', i, s.procs[i].ptroff, s.procs[i].rec.ptr)
    ensures SameOrFewer(s.procs[i], s'.procs[i])
  {
    var p := s.procs[i];
    assert Repoints(s, s', i, p.ptroff, p.rec.ptr);
    forall m | 0 <= m < SLOTS ensures ListKept(p, a, a', m) {}
    forall y | y in s.disk.recs ensures RecKept(s, a, s', a', i, y) {
      RepointKeeps(s, s', i, p.ptroff, p.rec.ptr, y);
    }
    forall slot | slot in a.fix ensures FixKept(a, a', i, slot) {}
  }

  lemma SettleLists(s: State, a: Aux, s': State, a': Aux, i: nat)
    requires Lists(s, a) && Settling(s, a, s', a', i)
    requires Repoints(s, s', i, s.procs[i].ptroff, s.procs[i].rec.ptr)
    ensures Lists(s', a')
  {
    var p := s.procs[i];
    forall x | x in s'.disk.recs ensures x in a'.own && (a'.own[x].HeldBy? ==> Owned(s', a', x)) {
      assert Owned(s, a, x);
    }
    forall slot | slot in a'.fix ensures Fixed(s', a', slot) {
      assert Fixed(s, a, slot);
    }
    forall k | 0 <= k < |a.chains| ensures KeptHead(s, a, s', a', k) {
      if Head(k) in a.fix { assert Fixed(s, a, Head(k)); }
      RepointPhys(s, s', i, p.ptroff, p.rec.ptr, Head(k));
    }
    forall y | OnList(a, y) ensures KeptNode(s, a, s', a', y) {
      if Link(y) in a.fix { assert Fixed(s, a, Link(y)); }
      RepointPhys(s, s', i, p.ptroff, p.rec.ptr, Link(y));
    }
    ListsSame(s, a, s', a');
  }

  lemma SettleLocal(d: Disk, d': Disk, p: Proc, i: nat, a: Aux, a': Aux, inf: Info)
    requires |a.chains| == |a.view| == |a'.chains| == |a'.view| == SLOTS && LocalOf(d, p, i, a, inf) && p.pc.DelChain?
    requires a'.chains == a.chains && a'.view == a.view
    ensures LocalOf(d', p.(pc := DelUnlockFree), i, a', inf)
  {
  }

  // ---------------------------------------------------------------- a record off the free list

  /** _db_findfree: the record that fits is unlinked. */
  lemma StepSTake(s: State, a: Aux, i: nat)
    requires Inv(s, a) && i < |s.procs| && s.procs[i].pc.STake?
    ensures Keeps(s, a, StepOf(s, i), NextAux(s, a, i), i)
  {
    assert Local(s, a, i);
    StartTaking(s, a, StepOf(s, i), NextAux(s, a, i), i);
    DoSTake(s, a, StepOf(s, i), NextAux(s, a, i), i);
  }

  ghost predicate Taking(s: State, a: Aux, s': State, a': Aux, i: nat) {
    && Shapes(s, a) && i < |s.procs| && s.procs[i].pc.STake? && PcFits(s.procs[i])
    && var p, pos, f := s.procs[i], a.info[i].fpos, a.chains[0];
    && s' == State(SetPtr(s.disk, p.saveoff, p.rec.ptr), s.procs[i := p.(pc := SUnlockHit)])
    && pos < |f| && f[pos] == p.off && HasOff(s, a, p.off)
    && a' == a.(chains := a.chains[0 := Without(f, pos)], own := a.own[p.off := HeldBy(i)])
    && p.saveoff == SlotOf(0, f, pos) && p.saveoff !in a.fix && p.rec.ptr == PtrTo(f, pos + 1)
    && (p.saveoff.Link? ==> HasOff(s, a, p.saveoff.off) && p.saveoff.off != p.off)
  }

  /** A record of the free list. */
  ghost predicate HasOff(s: State, a: Aux, x: nat) {
    x > 0 && x in s.disk.recs && x in a.own && a.own[x] == Listed(0)
  }

  lemma StartTaking(s: State, a: Aux, s': State, a': Aux, i: nat)
    requires Inv(s, a) && i < |s.procs| && s.procs[i].pc.STake? && a.info[i].fpos < |a.chains[0]|
    requires s' == State(SetPtr(s.disk, s.procs[i].saveoff, s.procs[i].rec.ptr),
        s.procs[i := s.procs[i].(pc := SUnlockHit)])
    requires a' == a.(chains := a.chains[0 := Without(a.chains[0], a.info[i].fpos)],
        own := a.own[s.procs[i].off := HeldBy(i)])
    ensures Taking(s, a, s', a', i)
  {
    var pos := a.info[i].fpos;
    assert Local(s, a, i) && Chain(s, a, 0);
    NodeRead(s, a, i, 0, pos);
    SlotFree(s, a, i, 0, pos);
    if pos > 0 { OthersDiffer(s, a, 0, pos, pos - 1); NodeRead(s, a, i, 0, pos - 1); }
  }

  lemma DoSTake(s: State, a: Aux, s': State, a': Aux, i: nat)
    requires Inv(s, a) && Taking(s, a, s', a', i)
    ensures Keeps(s, a, s', a', i)
  {
    var p := s.procs[i];
    var k := Bucket(p.op);
    TakeFoot(s, a, s', a', i);
    TakeLists(s, a, s', a', i);
    RepointExtents(s, s', i, p.saveoff, p.rec.ptr);
    assert View(s, a, k) && Local(s, a, i);
    RepointView(s, a, s', a', i, p.saveoff, p.rec.ptr, k);
    TakeLocal(s, a, s', a', i);
    Assemble(s, a, s', a', i);
  }

  lemma TakeFoot(s: State, a: Aux, s': State, a': Aux, i: nat)
    requires Taking(s, a, s', a', i)
    ensures Foot(s, a, s', a', i) && Repoints(s, s', i, s.procs[i].saveoff, s.procs[i].rec.ptr)
    ensures SameOrFewer(s.procs[i], s'.procs[i])
  {
    var p := s.procs[i];
    assert Repoints(s, s', i, p.saveoff, p.rec.ptr);
    forall m | 0 <= m < SLOTS ensures ListKept(p, a, a', m) {}
    forall y | y in s.disk.recs ensures RecKept(s, a, s', a', i, y) {
      RepointKeeps(s, s', i, p.saveoff, p.rec.ptr, y);
    }
    forall slot | slot in a.fix ensures FixKept(a, a', i, slot) {}
  }

  lemma TakeLists(s: State, a: Aux, s': State, a': Aux, i: nat)
    requires Lists(s, a) && Taking(s, a, s', a', i)
    requires Repoints(s, s', i, s.procs[i].saveoff, s.procs[i].rec.ptr)
    ensures Lists(s', a')
  {
    var p := s.procs[i];
    forall x | x in s'.disk.recs ensures x in a'.own && (a'.own[x].HeldBy? ==> Owned(s', a', x)) {
      assert Owned(s, a, x);
    }
    forall slot | slot in a'.fix ensures Fixed(s', a', slot) {
      assert Fixed(s, a, slot);
    }
    RepointPhys(s, s', i, p.saveoff, p.rec.ptr, p.saveoff);
    forall m | 0 <= m < |a.chains| && (m != 0 || a.info[i].fpos > 0) ensures KeptHead(s, a, s', a', m) {
      if Head(m) in a.fix { assert Fixed(s, a, Head(m)); }
      RepointPhys(s, s', i, p.saveoff, p.rec.ptr, Head(m));
    }
    forall y | OnList(a, y) && y != p.off && Link(y) != p.saveoff ensures KeptNode(s, a, s', a', y) {
      if Link(y) in a.fix { assert Fixed(s, a, Link(y)); }
      RepointPhys(s, s', i, p.saveoff, p.rec.ptr, Link(y));
    }
    ListsRemove(s, a, s', a', 0, a.info[i].fpos);
  }

  lemma TakeLocal(s: State, a: Aux, s': State, a': Aux, i: nat)
    requires Taking(s, a, s', a', i) && Local(s, a, i)
    requires Repoints(s, s', i, s.procs[i].saveoff, s.procs[i].rec.ptr)
    ensures LocalOf(s'.disk, s'.procs[i], i, a', a'.info[i])
  {
    RepointKeeps(s, s', i, s.procs[i].saveoff, s.procs[i].rec.ptr, s.procs[i].off);
  }

  // ---------------------------------------------------------------- the ends of the files

  /** _db_writedat at the end of the data file. */
  lemma StepADat(s: State, a: Aux, i: nat)
    requires Inv(s, a) && i < |s.procs| && s.procs[i].pc.ADat?
    ensures Keeps(s, a, StepOf(s, i), NextAux(s, a, i), i)
  {
    DoADat(s, a, StepOf(s, i), i);
  }

  ghost predicate Extending(s: State, s': State, i: nat) {
    && i < |s.procs| && s.procs[i].pc.ADat?
    && s' == State(WriteData(s.disk, |s.disk.dat|, DataOf(s.procs[i].op)),
                   s.procs[i := s.procs[i].(pc := AUnlockDat, datoff := |s.disk.dat|)])
  }

  lemma DoADat(s: State, a: Aux, s': State, i: nat)
    requires Inv(s, a) && Extending(s, s', i)
    ensures Keeps(s, a, s', a, i)
  {
    var k := Bucket(s.procs[i].op);
    assert Local(s, a, i) && Chain(s, a, k) && View(s, a, k);
    ExtendFoot(s, a, s', i);
    ListsCarried(s, a, s', a, i);
    ExtendExtents(s, s', i);
    ExtendView(s, a, s', i, k);
    ExtendLocal(s.disk, s'.disk, s.procs[i], i, a, a.info[i]);
    Assemble(s, a, s', a, i);
  }

  lemma ExtendKeeps(s: State, s': State, i: nat, x: nat)
    requires Extents(s) && Extending(s, s', i) && x in s.disk.recs
    ensures SameEntry(s, s', x) && RecordAt(s'.disk, x) == RecordAt(s.disk, x)
  {
    assert Placed(s.disk, x);
    DataKept(s.disk, |s.disk.dat|, DataOf(s.procs[i].op), s.disk.recs[x]);
  }

  lemma ExtendFoot(s: State, a: Aux, s': State, i: nat)
    requires Shapes(s, a) && Extents(s) && Extending(s, s', i)
    ensures Foot(s, a, s', a, i) && SameOrFewer(s.procs[i], s'.procs[i]) && Hands(s.procs[i], s'.procs[i])
  {
    forall m | 0 <= m < SLOTS ensures ListKept(s.procs[i], a, a, m) {}
    forall y | y in s.disk.recs ensures RecKept(s, a, s', a, i, y) {
      ExtendKeeps(s, s', i, y);
    }
    forall slot | slot in a.fix ensures FixKept(a, a, i, slot) {}
  }

  lemma ExtendView(s: State, a: Aux, s': State, i: nat, k: nat)
    requires Extents(s) && Extending(s, s', i) && k < |a.chains| == |a.view| && Chain(s, a, k) && View(s, a, k)
    ensures View(s', a, k)
  {
    forall b | 0 <= b < |a.chains[k]| ensures SameEntry(s, s', a.chains[k][b]) {
      assert Node(s, a, k, b);
      ExtendKeeps(s, s', i, a.chains[k][b]);
    }
    ViewSame(s, a, s', a, k);
  }

  lemma ExtendExtents(s: State, s': State, i: nat)
    requires Extents(s) && Extending(s, s', i)
    ensures Extents(s')
  {
    var data := DataOf(s.procs[i].op);
    forall x | x in s'.disk.recs ensures Placed(s'.disk, x) { assert Placed(s.disk, x); }
    forall x, y | x in s'.disk.recs && y in s'.disk.recs && x != y ensures Separate(s'.disk, x, y) {
      assert Separate(s.disk, x, y);
    }
    forall j | 0 <= j < |s'.procs| ensures Claimed(s', j) {
      if j == i {
        DataWritten(s.disk, Rec(0, "", |s.disk.dat|, |data| + 1), data);
      } else {
        assert Claimed(s, j);
        ClaimKept(s, s', j, |s.disk.dat|, data);
      }
    }
    forall j, x | 0 <= j < |s'.procs| && x in s'.disk.recs ensures ClaimApart(s', j, x) {
      assert Placed(s.disk, x) && ClaimApart(s, j, x);
    }
    forall j, m | 0 <= j < |s'.procs| && 0 <= m < |s'.procs| && j != m ensures ClaimsApart(s', j, m) {
      assert ClaimsApart(s, j, m) && Claimed(s, j) && Claimed(s, m);
    }
  }

  lemma ExtendLocal(d: Disk, d': Disk, p: Proc, i: nat, a: Aux, inf: Info)
    requires |a.chains| == |a.view| == SLOTS && LocalOf(d, p, i, a, inf) && p.pc.ADat?
    ensures LocalOf(d', p.(pc := AUnlockDat, datoff := |d.dat|), i, a, inf)
  {
  }

  /** _db_writeidx at the end of the index file. */
  lemma StepAIdx(s: State, a: Aux, i: nat)
    requires Inv(s, a) && i < |s.procs| && s.procs[i].pc.AIdx?
    ensures Keeps(s, a, StepOf(s, i), NextAux(s, a, i), i)
  {
    DoAIdx(s, a, StepOf(s, i), NextAux(s, a, i), i);
  }

  ghost predicate Growing(s: State, a: Aux, s': State, a': Aux, i: nat) {
    && Shapes(s, a) && i < |s.procs| && s.procs[i].pc.AIdx?
    && var r := NewRec(s.procs[i]);
    && s'.disk == SetRec(s.disk, s.disk.end, r).(end := s.disk.end + Size(r))
    && s'.procs == s.procs[i := s.procs[i].(pc := AUnlockIdx, off := s.disk.end)]
    && a' == a.(own := a.own[s.disk.end := HeldBy(i)])
  }

  lemma DoAIdx(s: State, a: Aux, s': State, a': Aux, i: nat)
    requires Inv(s, a) && Growing(s, a, s', a', i)
    ensures Keeps(s, a, s', a', i)
  {
    var k := Bucket(s.procs[i].op);
    assert Local(s, a, i) && Chain(s, a, k) && View(s, a, k) && Claimed(s, i);
    EndFresh(s);
    GrowFoot(s, a, s', a', i);
    GrowLists(s, a, s', a', i);
    GrowExtents(s, a, s', a', i);
    GrowView(s, a, s', a', i, k);
    GrowLocal(s, a, s', a', i);
    Assemble(s, a, s', a', i);
  }

  lemma EndFresh(s: State)
    requires Extents(s)
    ensures s.disk.end !in s.disk.recs && s.disk.end > 0
  {
    if s.disk.end in s.disk.recs {
      BeforeEnd(s, s.disk.end);
      assert false;
    }
  }

  lemma BeforeEnd(s: State, x: nat)
    requires Extents(s) && x in s.disk.recs
    ensures x < s.disk.end
  {
    assert Placed(s.disk, x);
  }

  lemma GrowFoot(s: State, a: Aux, s': State, a': Aux, i: nat)
    requires Growing(s, a, s', a', i) && s.disk.end !in s.disk.recs
    ensures Foot(s, a, s', a', i) && SameOrFewer(s.procs[i], s'.procs[i])
  {
    forall m | 0 <= m < SLOTS ensures ListKept(s.procs[i], a, a', m) {}
    forall y | y in s.disk.recs ensures RecKept(s, a, s', a', i, y) {}
    forall slot | slot in a.fix ensures FixKept(a, a', i, slot) {}
  }

  lemma GrowLists(s: State, a: Aux, s': State, a': Aux, i: nat)
    requires Lists(s, a) && Growing(s, a, s', a', i) && s.disk.end !in s.disk.recs
    ensures Lists(s', a')
  {
    forall x | x in s'.disk.recs ensures x in a'.own && (a'.own[x].HeldBy? ==> Owned(s', a', x)) {
      if x != s.disk.end { assert Owned(s, a, x); }
    }
    forall slot | slot in a'.fix ensures Fixed(s', a', slot) {
      assert Fixed(s, a, slot);
    }
    forall k | 0 <= k < |a.chains| ensures KeptHead(s, a, s', a', k) {
      if Head(k) in a.fix { assert Fixed(s, a, Head(k)); }
    }
    forall y | OnList(a, y) ensures KeptNode(s, a, s', a', y) {
      if Link(y) in a.fix { assert Fixed(s, a, Link(y)); }
    }
    ListsSame(s, a, s', a');
  }

  lemma GrowExtents(s: State, a: Aux, s': State, a': Aux, i: nat)
    requires Extents(s) && Growing(s, a, s', a', i) && Claimed(s, i) && s.disk.end !in s.disk.recs
    ensures Extents(s')
  {
    var e := s.disk.end;
    forall x | x in s'.disk.recs ensures Placed(s'.disk, x) { if x != e { assert Placed(s.disk, x); } }
    forall x, y | x in s'.disk.recs && y in s'.disk.recs && x != y ensures Separate(s'.disk, x, y) {
      if x != e { assert Placed(s.disk, x) && ClaimApart(s, i, x); }
      if y != e { assert Placed(s.disk, y) && ClaimApart(s, i, y); }
      if x != e && y != e { assert Separate(s.disk, x, y); }
    }
    forall j | 0 <= j < |s'.procs| ensures Claimed(s', j) { assert Claimed(s, j); }
    forall j, x | 0 <= j < |s'.procs| && x in s'.disk.recs ensures ClaimApart(s', j, x) {
      if x == e { if j != i { assert ClaimsApart(s, j, i); } } else { assert ClaimApart(s, j, x); }
    }
    forall j, m | 0 <= j < |s'.procs| && 0 <= m < |s'.procs| && j != m ensures ClaimsApart(s', j, m) {
      assert ClaimsApart(s, j, m);
    }
  }

  lemma GrowView(s: State, a: Aux, s': State, a': Aux, i: nat, k: nat)
    requires Growing(s, a, s', a', i) && k < SLOTS && Chain(s, a, k) && View(s, a, k) && s.disk.end !in s.disk.recs
    ensures View(s', a', k)
  {
    forall b | 0 <= b < |a.chains[k]| ensures SameEntry(s, s', a.chains[k][b]) {
      assert Node(s, a, k, b);
    }
    ViewSame(s, a, s', a', k);
  }

  lemma GrowLocal(s: State, a: Aux, s': State, a': Aux, i: nat)
    requires Growing(s, a, s', a', i) && Local(s, a, i) && Claimed(s, i) && s.disk.end > 0
    ensures LocalOf(s'.disk, s'.procs[i], i, a', a'.info[i])
  {
  }
}
