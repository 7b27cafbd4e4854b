/** What one process's step leaves alone for the others. */
module DbFrame {
  import opened DbFormat
  import opened DbSteps
  import opened DbInvariant

  /** Process i may change list m only under the lock that guards it. */
  predicate MayChange(p: Proc, m: nat) {
    (WritesChain(p) && Bucket(p.op) == m) || (HoldsFree(p) && m == 0)
  }

  ghost predicate ListKept(p: Proc, a: Aux, a': Aux, m: nat)
    requires |a.chains| == |a'.chains| == |a.view| == |a'.view| && m < |a.chains|
  {
    !MayChange(p, m) ==> a'.chains[m] == a.chains[m] && a'.view[m] == a.view[m]
  }

  /** Record x belongs to a list that i may not change, or to another process. */
  predicate NotMine(p: Proc, i: nat, o: Owner) {
    match o
    case Listed(m) => !MayChange(p, m)
    case HeldBy(j) => j != i
  }

  ghost predicate RecKept(s: State, a: Aux, s': State, a': Aux, i: nat, x: nat)
    requires i < |s.procs|
  {
    x in a.own && NotMine(s.procs[i], i, a.own[x]) ==>
      && x in s'.disk.recs && RecordAt(s'.disk, x) == RecordAt(s.disk, x)
      && x in a'.own && a'.own[x] == a.own[x]
      && DataAt(s'.disk, RecordAt(s.disk, x)) == DataAt(s.disk, RecordAt(s.disk, x))
  }

  ghost predicate FixKept(a: Aux, a': Aux, i: nat, slot: Slot) {
    slot in a.fix && a.fix[slot] != i ==> slot in a'.fix && a'.fix[slot] == a.fix[slot]
  }

  ghost predicate OthersKept(s: State, a: Aux, s': State, a': Aux, i: nat) {
    && i < |s.procs| == |s'.procs| == |a.info| == |a'.info|
    && s'.procs == s.procs[i := s'.procs[i]]
    && a'.info == a.info[i := a'.info[i]]
  }

  /** The step of process i changes only what its locks guard and what it holds. */
  ghost predicate Foot(s: State, a: Aux, s': State, a': Aux, i: nat) {
    && OthersKept(s, a, s', a', i)
    && Shapes(s', a') && |a.chains| == |a.view| == SLOTS
    && (forall m :: 0 <= m < SLOTS ==> ListKept(s.procs[i], a, a', m))
    && (forall x :: x in s.disk.recs ==> RecKept(s, a, s', a', i, x))
    && (forall slot :: slot in a.fix ==> FixKept(a, a', i, slot))
  }

  /** The step keeps the invariant and its footprint. */
  ghost predicate Keeps(s: State, a: Aux, s': State, a': Aux, i: nat) {
    Inv(s', a') && Foot(s, a, s', a', i)
  }

  lemma ChainRecordsKept(s: State, a: Aux, s': State, a': Aux, i: nat, m: nat)
    requires Shapes(s, a) && Lists(s, a) && Foot(s, a, s', a', i) && m < SLOTS && !MayChange(s.procs[i], m)
    ensures a'.chains[m] == a.chains[m]
    ensures forall b :: 0 <= b < |a.chains[m]| ==> RecordAt(s'.disk, a.chains[m][b]) == RecordAt(s.disk, a.chains[m][b])
    ensures forall b :: 0 <= b < |a.chains[m]| ==> SameEntry(s, s', a.chains[m][b])
  {
    assert ListKept(s.procs[i], a, a', m) && Chain(s, a, m);
    forall b | 0 <= b < |a.chains[m]|
      ensures RecordAt(s'.disk, a.chains[m][b]) == RecordAt(s.disk, a.chains[m][b]) && SameEntry(s, s', a.chains[m][b])
    {
      assert Node(s, a, m, b);
      assert RecKept(s, a, s', a', i, a.chains[m][b]);
    }
  }

  lemma HoldersApart(s: State, a: Aux, i: nat, j: nat)
    requires Locks(s) && i < |s.procs| && j < |s.procs| && i != j
    ensures HoldsChain(s.procs[j]) ==> !MayChange(s.procs[i], Bucket(s.procs[j].op))
    ensures HoldsFree(s.procs[j]) ==> !MayChange(s.procs[i], 0)
  {
    assert Exclusive(s, i, j);
  }

  lemma ChainPart(d: Disk, d': Disk, p: Proc, c: seq<nat>, inf: Info)
    requires OnChain(d, p, c, inf)
    requires forall b :: 0 <= b < |c| ==> RecordAt(d', c[b]) == RecordAt(d, c[b])
    ensures OnChain(d', p, c, inf)
  {
    if p.pc.Walk? {
      forall b | 0 <= b < inf.pos ensures KeyMismatch(d', c, b, p.op.key) {
        assert KeyMismatch(d, c, b, p.op.key);
      }
    }
  }

  lemma FreePart(d: Disk, d': Disk, p: Proc, f: seq<nat>, inf: Info)
    requires OnFree(d, p, f, inf)
    requires forall b :: 0 <= b < |f| ==> RecordAt(d', f[b]) == RecordAt(d, f[b])
    ensures OnFree(d', p, f, inf)
  {
  }

  lemma HeldPart(s: State, a: Aux, s': State, a': Aux, i: nat, j: nat)
    requires Foot(s, a, s', a', i) && j < |s.procs| && j != i
    requires OnHeld(s.disk, s.procs[j], j, a.own)
    ensures OnHeld(s'.disk, s.procs[j], j, a'.own)
  {
    assert RecKept(s, a, s', a', i, s.procs[j].off);
  }

  /** Another process's part of the invariant survives the step. */
  lemma FrameLocal(s: State, a: Aux, s': State, a': Aux, i: nat, j: nat)
    requires Inv(s, a) && Foot(s, a, s', a', i) && j < |s.procs| && j != i
    ensures Local(s', a', j)
  {
    var p := s.procs[j];
    assert Local(s, a, j);
    assert s'.procs[j] == p && a'.info[j] == a.info[j];
    HoldersApart(s, a, i, j);
    if HasRecord(p) { HeldPart(s, a, s', a', i, j); }
    var k := Bucket(p.op);
    if HoldsChain(p) {
      ChainRecordsKept(s, a, s', a', i, k);
      assert ListKept(s.procs[i], a, a', k);
      ChainPart(s.disk, s'.disk, p, a.chains[k], a.info[j]);
    }
    if HoldsFree(p) {
      ChainRecordsKept(s, a, s', a', i, 0);
      FreePart(s.disk, s'.disk, p, a.chains[0], a.info[j]);
    }
    if Pending(p) {
      assert FixKept(a, a', i, p.ptroff);
    }
  }

  lemma LocalsFrom(s: State, a: Aux, s': State, a': Aux, i: nat)
    requires Inv(s, a) && Foot(s, a, s', a', i)
    requires Local(s', a', i)
    ensures Locals(s', a')
  {
    forall j | 0 <= j < |s'.procs| ensures Local(s', a', j) {
      if j != i { FrameLocal(s, a, s', a', i, j); }
    }
  }

  // ---------------------------------------------------------------- entries

  ghost predicate SameEntry(s: State, s': State, x: nat) {
    var r, r' := RecordAt(s.disk, x), RecordAt(s'.disk, x);
    r'.key == r.key && DataAt(s'.disk, r') == DataAt(s.disk, r)
  }

  lemma ViewSame(s: State, a: Aux, s': State, a': Aux, k: nat)
    requires k < |a.chains| == |a'.chains| == |a.view| == |a'.view| && View(s, a, k)
    requires a'.chains[k] == a.chains[k] && a'.view[k] == a.view[k]
    requires forall j :: 0 <= j < |a.chains[k]| ==> SameEntry(s, s', a.chains[k][j])
    ensures View(s', a', k)
  {
    var c := a.chains[k];
    forall j | 0 <= j < |c| ensures Entry(s', a', k, j) {
      assert Entry(s, a, k, j) && SameEntry(s, s', c[j]);
    }
    forall i, j | 0 <= i < j < |c| ensures KeysDiffer(s', a', k, i, j) {
      assert KeysDiffer(s, a, k, i, j) && SameEntry(s, s', c[i]) && SameEntry(s, s', c[j]);
    }
    forall key | key in a.view[k] ensures Stored(s', a', k, key) {
      assert Stored(s, a, k, key);
      var j :| 0 <= j < |c| && HasKey(s, a, k, j, key);
      assert SameEntry(s, s', c[j]);
      assert HasKey(s', a', k, j, key);
    }
  }

  /** Views of all chains but the process's own. */
  lemma OtherViews(s: State, a: Aux, s': State, a': Aux, i: nat, k: nat)
    requires Inv(s, a) && Foot(s, a, s', a', i) && 1 <= k < SLOTS && !MayChange(s.procs[i], k)
    ensures View(s', a', k)
  {
    ChainRecordsKept(s, a, s', a', i, k);
    assert ListKept(s.procs[i], a, a', k) && View(s, a, k);
    ViewSame(s, a, s', a', k);
  }

  lemma ViewsFrom(s: State, a: Aux, s': State, a': Aux, i: nat)
    requires Inv(s, a) && Foot(s, a, s', a', i)
    requires MayChange(s.procs[i], Bucket(s.procs[i].op)) ==> View(s', a', Bucket(s.procs[i].op))
    ensures Views(s', a')
  {
    forall k | 1 <= k < |a'.chains| ensures View(s', a', k) {
      if !MayChange(s.procs[i], k) { OtherViews(s, a, s', a', i, k); }
    }
  }

  // ---------------------------------------------------------------- locks

  lemma LocksFrom(s: State, s': State, i: nat)
    requires Locks(s) && i < |s.procs| == |s'.procs| && s'.procs == s.procs[i := s'.procs[i]]
    requires forall j :: 0 <= j < |s.procs| && j != i ==> Excludes(s'.procs[i], s.procs[j])
    ensures Locks(s')
  {
    forall j, m | 0 <= j < |s'.procs| && 0 <= m < |s'.procs| && j != m ensures Exclusive(s', j, m) {
      if j != i && m != i { assert Exclusive(s, j, m); }
      if m == i { assert Excludes(s'.procs[i], s.procs[j]); }
    }
  }

  // ---------------------------------------------------------------- extents

  ghost predicate SamePlace(d: Disk, d': Disk, x: nat) {
    x in d.recs && x in d'.recs && Size(d'.recs[x]) == Size(d.recs[x])
    && d'.recs[x].datoff == d.recs[x].datoff && d'.recs[x].datlen == d.recs[x].datlen
  }

  lemma ExtentsSame(s: State, s': State, i: nat)
    requires Extents(s) && i < |s.procs| == |s'.procs| && s'.procs == s.procs[i := s'.procs[i]]
    requires s'.disk.recs.Keys == s.disk.recs.Keys && s'.disk.end == s.disk.end && |s'.disk.dat| >= |s.disk.dat|
    requires forall x :: x in s.disk.recs ==> SamePlace(s.disk, s'.disk, x)
    requires HasClaim(s'.procs[i]) ==>
      HasClaim(s.procs[i]) && s'.procs[i].datoff == s.procs[i].datoff && s'.procs[i].op == s.procs[i].op
    requires forall j :: 0 <= j < |s.procs| ==> Claimed(s', j)
    ensures Extents(s')
  {
    forall x | x in s'.disk.recs ensures Placed(s'.disk, x) {
      assert Placed(s.disk, x) && SamePlace(s.disk, s'.disk, x);
    }
    forall x, y | x in s'.disk.recs && y in s'.disk.recs && x != y ensures Separate(s'.disk, x, y) {
      assert Separate(s.disk, x, y) && SamePlace(s.disk, s'.disk, x) && SamePlace(s.disk, s'.disk, y);
    }
    forall j, x | 0 <= j < |s'.procs| && x in s'.disk.recs ensures ClaimApart(s', j, x) {
      assert ClaimApart(s, j, x) && SamePlace(s.disk, s'.disk, x);
    }
    forall j, m | 0 <= j < |s'.procs| && 0 <= m < |s'.procs| && j != m ensures ClaimsApart(s', j, m) {
      assert ClaimsApart(s, j, m);
    }
  }

  /** A write outside a byte range keeps the range. */
  lemma SpliceKeeps(dat: string, lo: nat, w: string, off: nat, len: nat)
    requires lo <= |dat| && 1 <= len && off + len <= |dat| && Apart(lo, |w|, off, len)
    ensures |Splice(dat, lo, w)| >= |dat|
    ensures Splice(dat, lo, w)[off..off + len - 1] == dat[off..off + len - 1]
  {
    SpliceOutside(dat, lo, w, off, off + len - 1);
  }

  lemma DataKept(d: Disk, off: nat, data: string, r: Rec)
    requires off <= |d.dat| && InData(d, r.datoff, r.datlen) && Apart(off, |data| + 1, r.datoff, r.datlen)
    ensures DataAt(WriteData(d, off, data), r) == DataAt(d, r)
  {
    SpliceKeeps(d.dat, off, data + [NEWLINE], r.datoff, r.datlen);
  }

  lemma DataWritten(d: Disk, r: Rec, data: string)
    requires r.datoff <= |d.dat| && r.datlen == |data| + 1
    ensures DataAt(WriteData(d, r.datoff, data), r) == data
  {
    var w := data + [NEWLINE];
    var e := Splice(d.dat, r.datoff, w);
    assert e[r.datoff..r.datoff + |data|] == e[r.datoff..r.datoff + |w|][..|data|];
    assert w[..|data|] == data;
  }

  lemma ClaimKept(s: State, s': State, j: nat, off: nat, data: string)
    requires j < |s.procs| == |s'.procs| && s'.procs[j] == s.procs[j] && Claimed(s, j) && off <= |s.disk.dat|
    requires s'.disk.dat == WriteData(s.disk, off, data).dat
    requires HasClaim(s.procs[j]) ==> Apart(off, |data| + 1, s.procs[j].datoff, ClaimLen(s.procs[j]))
    ensures Claimed(s', j)
  {
    if HasClaim(s.procs[j]) {
      SpliceKeeps(s.disk.dat, off, data + [NEWLINE], s.procs[j].datoff, ClaimLen(s.procs[j]));
    }
  }
}
