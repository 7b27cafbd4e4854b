/** Each writing step of the library keeps the invariant. */
module DbWriteSteps {
  import opened DbFormat
  import opened DbSteps
  import opened DbInvariant
  import opened DbLists
  import opened DbFrame
  import opened DbQuiet
  import opened DbWrites

  // ---------------------------------------------------------------- data over a record's own extent

  /** Pointers, lists and hands are as before. */
  lemma ListsCarried(s: State, a: Aux, s': State, a': Aux, i: nat)
    requires Lists(s, a) && Shapes(s, a) && i < |s.procs| == |s'.procs| && s'.procs == s.procs[i := s'.procs[i]]
    requires Hands(s.procs[i], s'.procs[i])
    requires s'.disk.heads == s.disk.heads && s'.disk.recs == s.disk.recs
    requires a'.chains == a.chains && a'.own == a.own && a'.fix == a.fix
    ensures Lists(s', a')
  {
    forall x | x in s'.disk.recs ensures x in a'.own && (a'.own[x].HeldBy? ==> Owned(s', a', x)) {
      assert Owned(s, a, x);
    }
    forall slot | slot in a'.fix ensures Fixed(s', a', slot) {
      assert Fixed(s, a, slot);
    }
    forall k | 0 <= k < |a.chains| ensures KeptHead(s, a, s', a', k) {
      if Head(k) in a.fix { assert Fixed(s, a, Head(k)); }
    }
    forall y | OnList(a, y) ensures KeptNode(s, a, s', a', y) {
      if Link(y) in a.fix { assert Fixed(s, a, Link(y)); }
    }
    ListsSame(s, a, s', a');
  }

  lemma OverwriteFoot(s: State, a: Aux, s': State, a': Aux, i: nat, x: nat, data: string)
    requires Shapes(s, a) && Extents(s) && Overwrites(s, s', i, x, data)
    requires Shapes(s', a') && a'.own == a.own && a'.fix == a.fix && a'.info == a.info && a'.chains == a.chains
    requires x in a.own && !NotMine(s.procs[i], i, a.own[x])
    requires forall m :: 0 <= m < SLOTS && !MayChange(s.procs[i], m) ==> a'.view[m] == a.view[m]
    ensures Foot(s, a, s', a', i)
  {
    forall m | 0 <= m < SLOTS ensures ListKept(s.procs[i], a, a', m) {}
    forall y | y in s.disk.recs ensures RecKept(s, a, s', a', i, y) {
      if y != x { OverwriteKeeps(s, s', i, x, data, y); }
    }
    forall slot | slot in a.fix ensures FixKept(a, a', i, slot) {}
  }

  /** The records of chain k other than position j are not x. */
  lemma OthersDiffer(s: State, a: Aux, k: nat, j: nat, b: nat)
    requires k < |a.chains| && Chain(s, a, k) && j < |a.chains[k]| && b < |a.chains[k]| && b != j
    ensures a.chains[k][b] != a.chains[k][j] && a.chains[k][b] in s.disk.recs
  {
    assert Node(s, a, k, b);
    assert if b < j then Differ(a.chains[k], b, j) else Differ(a.chains[k], j, b);
  }

  /** Process i goes to q while the files and the auxiliary state become those of s', a'. */
  ghost predicate Goes(s: State, a: Aux, s': State, a': Aux, i: nat, q: Proc) {
    && Shapes(s, a) && i < |s.procs| && s'.procs == s.procs[i := q] && a'.info == a.info
    && |a'.chains| == |a'.view| == |s'.disk.heads| == SLOTS && a'.own.Keys == s'.disk.recs.Keys
  }

  /** db_store, same length: the data record is rewritten. */
  lemma StepStOver(s: State, a: Aux, i: nat)
    requires Inv(s, a) && i < |s.procs| && s.procs[i].pc.StOver?
    ensures Keeps(s, a, StepOf(s, i), NextAux(s, a, i), i)
  {
    DoStOver(s, a, StepOf(s, i), NextAux(s, a, i), i);
  }

  /** The record that a process found on its chain. */
  ghost predicate FoundAt(s: State, a: Aux, p: Proc, k: nat, pos: nat) {
    && k < |a.chains| == |a.view| && pos < |a.chains[k]| && a.chains[k][pos] == p.off
    && p.off > 0 && p.off in s.disk.recs && s.disk.recs[p.off] == p.rec && p.rec.key == p.op.key
    && p.off in a.own && a.own[p.off] == Listed(k)
    && Chain(s, a, k) && View(s, a, k)
  }

  lemma FoundFacts(s: State, a: Aux, i: nat)
    requires Inv(s, a) && i < |s.procs| && AtRecord(s.procs[i])
    ensures FoundAt(s, a, s.procs[i], Bucket(s.procs[i].op), a.info[i].pos)
    ensures Local(s, a, i)
  {
    var k := Bucket(s.procs[i].op);
    assert Local(s, a, i) && Chain(s, a, k) && Node(s, a, k, a.info[i].pos) && View(s, a, k);
  }

  lemma DoStOver(s: State, a: Aux, s': State, a': Aux, i: nat)
    requires Inv(s, a) && i < |s.procs| && s.procs[i].pc.StOver?
    requires Goes(s, a, s', a', i, s.procs[i].(pc := Unlock, res := Code(0)))
    requires s'.disk == WriteData(s.disk, s.procs[i].rec.datoff, DataOf(s.procs[i].op))
    requires var k := Bucket(s.procs[i].op);
             a' == a.(view := a.view[k := a.view[k][s.procs[i].op.key := DataOf(s.procs[i].op)]])
    ensures Keeps(s, a, s', a', i)
  {
    var p := s.procs[i];
    FoundFacts(s, a, i);
    OverFacts(s, s', i, p.(pc := Unlock, res := Code(0)));
    OverwriteExtents(s, s', i, p.off, DataOf(p.op));
    OverwriteFoot(s, a, s', a', i, p.off, DataOf(p.op));
    ListsCarried(s, a, s', a', i);
    OverChain(s, a, s', a', i, Bucket(p.op), a.info[i].pos);
    OverView(p, a.view[Bucket(p.op)], a.info[i].base);
    UnlockLocal(s'.disk, s'.procs[i], i, a', a.info[i]);
    Assemble(s, a, s', a', i);
  }

  lemma OverFacts(s: State, s': State, i: nat, q: Proc)
    requires i < |s.procs| && s.procs[i].pc.StOver? && s'.procs == s.procs[i := q]
    requires q == s.procs[i].(pc := Unlock, res := Code(0))
    requires s.procs[i].off in s.disk.recs && s.disk.recs[s.procs[i].off] == s.procs[i].rec
    requires s.procs[i].rec.datlen == |DataOf(s.procs[i].op)| + 1
    requires s'.disk == WriteData(s.disk, s.procs[i].rec.datoff, DataOf(s.procs[i].op))
    ensures Overwrites(s, s', i, s.procs[i].off, DataOf(s.procs[i].op))
    ensures Carries(s.procs[i], q) && SameOrFewer(s.procs[i], q)
  {
  }

  /** A process about to release its chain. */
  lemma UnlockLocal(d: Disk, q: Proc, i: nat, a: Aux, inf: Info)
    requires |a.chains| == |a.view| == SLOTS && q.pc.Unlock? && OnView(q, a.view[Bucket(q.op)], inf.base)
    ensures LocalOf(d, q, i, a, inf)
  {
  }

  lemma OverChain(s: State, a: Aux, s': State, a': Aux, i: nat, k: nat, pos: nat)
    requires i < |s.procs| && FoundAt(s, a, s.procs[i], k, pos) && Extents(s)
    requires Overwrites(s, s', i, s.procs[i].off, DataOf(s.procs[i].op))
    requires DataAt(s'.disk, s.procs[i].rec) == DataOf(s.procs[i].op)
    requires a' == a.(view := a.view[k := a.view[k][s.procs[i].op.key := DataOf(s.procs[i].op)]])
    ensures View(s', a', k)
  {
    forall b | 0 <= b < |a.chains[k]| && b != pos ensures SameEntry(s, s', a.chains[k][b]) {
      OthersDiffer(s, a, k, pos, b);
      OverwriteKeeps(s, s', i, s.procs[i].off, DataOf(s.procs[i].op), a.chains[k][b]);
    }
    ViewUpdate(s, a, s', a', k, pos, DataOf(s.procs[i].op));
  }

  lemma OverView(p: Proc, view: map<string, string>, base: map<string, string>)
    requires p.pc.StOver? && PcFits(p) && OnView(p, view, base)
    ensures OnView(p.(pc := Unlock, res := Code(0)), view[p.op.key := DataOf(p.op)], base)
  {
  }

  /** The record in the hands of a process. */
  ghost predicate HeldAt(s: State, a: Aux, i: nat, x: nat) {
    x > 0 && x in s.disk.recs && x in a.own && a.own[x] == HeldBy(i)
  }

  lemma HeldFacts(s: State, a: Aux, i: nat)
    requires Inv(s, a) && i < |s.procs| && HasRecord(s.procs[i])
    ensures HeldAt(s, a, i, s.procs[i].off) && Local(s, a, i) && Link(s.procs[i].off) !in a.fix
  {
    assert Local(s, a, i);
    if Link(s.procs[i].off) in a.fix {
      var j := FixedOn(s, a, Link(s.procs[i].off));
      assert false;
    }
  }

  /** A held record is on no list. */
  lemma HeldOffList(s: State, a: Aux, i: nat, x: nat, k: nat, b: nat)
    requires HeldAt(s, a, i, x) && k < |a.chains| && Chain(s, a, k) && b < |a.chains[k]|
    ensures a.chains[k][b] != x && a.chains[k][b] in s.disk.recs
  {
    assert Node(s, a, k, b);
  }

  /** The data of a held record is written. */
  lemma StepSDat(s: State, a: Aux, i: nat)
    requires Inv(s, a) && i < |s.procs| && s.procs[i].pc.SDat?
    ensures Keeps(s, a, StepOf(s, i), NextAux(s, a, i), i)
  {
    DoSDat(s, a, StepOf(s, i), i);
  }

  lemma DoSDat(s: State, a: Aux, s': State, i: nat)
    requires Inv(s, a) && i < |s.procs| && s.procs[i].pc.SDat?
    requires Goes(s, a, s', a, i, s.procs[i].(pc := SIdx))
    requires s'.disk == WriteData(s.disk, s.procs[i].datoff, DataOf(s.procs[i].op))
    ensures Keeps(s, a, s', a, i)
  {
    var p := s.procs[i];
    HeldFacts(s, a, i);
    SDatFacts(s, a, s', i, p.(pc := SIdx));
    OverwriteExtents(s, s', i, p.off, DataOf(p.op));
    OverwriteFoot(s, a, s', a, i, p.off, DataOf(p.op));
    ListsCarried(s, a, s', a, i);
    HeldChain(s, a, s', i, p.off, DataOf(p.op), Bucket(p.op));
    SDatLocal(s.disk, s'.disk, p, i, a, a.info[i]);
    Assemble(s, a, s', a, i);
  }

  lemma SDatFacts(s: State, a: Aux, s': State, i: nat, q: Proc)
    requires i < |s.procs| && s.procs[i].pc.SDat? && s'.procs == s.procs[i := q] && q == s.procs[i].(pc := SIdx)
    requires HeldAt(s, a, i, s.procs[i].off) && ReuseFits(s.procs[i], s.disk.recs[s.procs[i].off])
    requires s'.disk == WriteData(s.disk, s.procs[i].datoff, DataOf(s.procs[i].op))
    ensures Overwrites(s, s', i, s.procs[i].off, DataOf(s.procs[i].op))
    ensures Carries(s.procs[i], q) && SameOrFewer(s.procs[i], q)
  {
  }

  lemma HeldChain(s: State, a: Aux, s': State, i: nat, x: nat, data: string, k: nat)
    requires k < |a.chains| == |a.view| && Chain(s, a, k) && View(s, a, k) && Extents(s) && HeldAt(s, a, i, x)
    requires Overwrites(s, s', i, x, data)
    ensures View(s', a, k)
  {
    forall b | 0 <= b < |a.chains[k]| ensures SameEntry(s, s', a.chains[k][b]) {
      HeldOffList(s, a, i, x, k, b);
      OverwriteKeeps(s, s', i, x, data, a.chains[k][b]);
    }
    ViewSame(s, a, s', a, k);
  }

  lemma SDatLocal(d: Disk, d': Disk, p: Proc, i: nat, a: Aux, inf: Info)
    requires |a.chains| == |a.view| == SLOTS && LocalOf(d, p, i, a, inf) && p.pc.SDat?
    requires d'.recs == d.recs && DataAt(d', RecordAt(d, p.off)) == DataOf(p.op)
    ensures LocalOf(d', p.(pc := SIdx), i, a, inf)
  {
  }

  /** _db_dodelete: the data record is blanked; from here on the record is off its chain. */
  lemma StepDelDat(s: State, a: Aux, i: nat)
    requires Inv(s, a) && i < |s.procs| && s.procs[i].pc.DelDat?
    ensures Keeps(s, a, StepOf(s, i), NextAux(s, a, i), i)
  {
    FoundFacts(s, a, i);
    assert Placed(s.disk, s.procs[i].off);
    StartBlanking(s, a, StepOf(s, i), NextAux(s, a, i), i);
    DoDelDat(s, a, StepOf(s, i), NextAux(s, a, i), i);
  }

  /** The auxiliary state when record at position pos of chain k leaves it. */
  function TakenOff(a: Aux, i: nat, p: Proc, k: nat, pos: nat): Aux
    requires k < |a.chains| && k < |a.view| && pos < |a.chains[k]|
  {
    a.(chains := a.chains[k := Without(a.chains[k], pos)], own := a.own[p.off := HeldBy(i)],
       fix := a.fix[p.ptroff := i], view := a.view[k := a.view[k] - {p.op.key}])
  }

  /** The blanking step, in full. */
  ghost predicate Blanking(s: State, a: Aux, s': State, a': Aux, i: nat) {
    && i < |s.procs| == |a.info| && s.procs[i].pc.DelDat? && PcFits(s.procs[i])
    && Goes(s, a, s', a', i, s.procs[i].(pc := DelReadFree))
    && var p, k, pos := s.procs[i], Bucket(s.procs[i].op), a.info[i].pos;
    && FoundAt(s, a, p, k, pos) && 1 <= p.rec.datlen
    && Overwrites(s, s', i, p.off, Blanks(p.rec.datlen - 1))
    && a' == TakenOff(a, i, p, k, pos)
    && p.ptroff !in a.fix && p.ptroff == SlotOf(k, a.chains[k], pos) && p.rec.ptr == PtrTo(a.chains[k], pos + 1)
  }

  lemma StartBlanking(s: State, a: Aux, s': State, a': Aux, i: nat)
    requires Inv(s, a) && i < |s.procs| && s.procs[i].pc.DelDat?
    requires FoundAt(s, a, s.procs[i], Bucket(s.procs[i].op), a.info[i].pos) && 1 <= s.procs[i].rec.datlen
    requires Goes(s, a, s', a', i, s.procs[i].(pc := DelReadFree))
    requires s'.disk == WriteData(s.disk, s.procs[i].rec.datoff, Blanks(s.procs[i].rec.datlen - 1))
    requires a' == TakenOff(a, i, s.procs[i], Bucket(s.procs[i].op), a.info[i].pos)
    ensures Blanking(s, a, s', a', i)
  {
    var k, pos := Bucket(s.procs[i].op), a.info[i].pos;
    assert Local(s, a, i);
    SlotFree(s, a, i, k, pos);
    NodeRead(s, a, i, k, pos);
  }

  lemma DoDelDat(s: State, a: Aux, s': State, a': Aux, i: nat)
    requires Inv(s, a) && Blanking(s, a, s', a', i)
    ensures Keeps(s, a, s', a', i)
  {
    var p := s.procs[i];
    OverwriteExtents(s, s', i, p.off, Blanks(p.rec.datlen - 1));
    BlankingFoot(s, a, s', a', i);
    BlankingLists(s, a, s', a', i);
    BlankingView(s, a, s', a', i);
    assert Local(s, a, i);
    BlankingLocal(s, a, s', a', i);
    Assemble(s, a, s', a', i);
  }

  lemma BlankingFoot(s: State, a: Aux, s': State, a': Aux, i: nat)
    requires Extents(s) && Blanking(s, a, s', a', i)
    ensures Foot(s, a, s', a', i) && SameOrFewer(s.procs[i], s'.procs[i])
  {
    var p := s.procs[i];
    forall m | 0 <= m < SLOTS ensures ListKept(p, a, a', m) {}
    forall y | y in s.disk.recs ensures RecKept(s, a, s', a', i, y) { BlankingRec(s, a, s', a', i, y); }
    forall slot | slot in a.fix ensures FixKept(a, a', i, slot) {}
  }

  lemma BlankingRec(s: State, a: Aux, s': State, a': Aux, i: nat, y: nat)
    requires Extents(s) && Blanking(s, a, s', a', i) && y in s.disk.recs
    ensures RecKept(s, a, s', a', i, y)
  {
    var p := s.procs[i];
    if y != p.off { OverwriteKeeps(s, s', i, p.off, Blanks(p.rec.datlen - 1), y); }
  }

  lemma BlankingLists(s: State, a: Aux, s': State, a': Aux, i: nat)
    requires Lists(s, a) && Blanking(s, a, s', a', i)
    ensures Lists(s', a')
  {
    var p := s.procs[i];
    var k, pos := Bucket(p.op), a.info[i].pos;
    forall x | x in s'.disk.recs ensures x in a'.own && (a'.own[x].HeldBy? ==> Owned(s', a', x)) {
      assert Owned(s, a, x);
    }
    forall slot | slot in a'.fix ensures Fixed(s', a', slot) {
      if slot != p.ptroff { assert Fixed(s, a, slot); }
    }
    forall m | 0 <= m < |a.chains| && (m != k || pos > 0) ensures KeptHead(s, a, s', a', m) {
      if Head(m) in a.fix { assert Fixed(s, a, Head(m)); }
    }
    forall y | OnList(a, y) && y != p.off && Link(y) != p.ptroff ensures KeptNode(s, a, s', a', y) {
      if Link(y) in a.fix { assert Fixed(s, a, Link(y)); }
    }
    if pos > 0 { OthersDiffer(s, a, k, pos, pos - 1); assert Node(s, a, k, pos - 1); }
    ListsRemove(s, a, s', a', k, pos);
  }

  lemma BlankingView(s: State, a: Aux, s': State, a': Aux, i: nat)
    requires Extents(s) && Blanking(s, a, s', a', i)
    ensures View(s', a', Bucket(s.procs[i].op))
  {
    var p := s.procs[i];
    var k, pos := Bucket(p.op), a.info[i].pos;
    forall b | 0 <= b < |a.chains[k]| && b != pos ensures SameEntry(s, s', a.chains[k][b]) {
      OthersDiffer(s, a, k, pos, b);
      OverwriteKeeps(s, s', i, p.off, Blanks(p.rec.datlen - 1), a.chains[k][b]);
    }
    ViewRemove(s, a, s', a', k, pos, p.op.key);
  }

  lemma BlankingLocal(s: State, a: Aux, s': State, a': Aux, i: nat)
    requires Blanking(s, a, s', a', i) && Local(s, a, i)
    ensures LocalOf(s'.disk, s'.procs[i], i, a', a'.info[i])
  {
    var p := s.procs[i];
    var k, pos := Bucket(p.op), a.info[i].pos;
    var c, c' := a.chains[k], a'.chains[k];
    assert pos > 0 ==> c'[pos - 1] == c[pos - 1];
    assert PtrTo(c', pos) == PtrTo(c, pos + 1);
  }
}
