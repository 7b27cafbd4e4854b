/** What the invariant of the concurrent database says of every run. */
module DbRuns {
  import opened DbFormat
  import opened DbSteps
  import opened DbInvariant
  import opened DbFrame
  import opened DbQuiet
  import opened DbSafety

  /** Process i may change every list that its step touches. */
  ghost predicate UnderLock(s: State, a: Aux, s': State, a': Aux, i: nat)
    requires i < |s.procs| && |a.chains| == |a'.chains| == |s.disk.heads| == |s'.disk.heads|
  {
    forall m :: 0 <= m < |a.chains| && Touched(s, a, s', a', m) ==> MayChange(s.procs[i], m)
  }

  lemma StepUnderLock(s: State, a: Aux, s': State, a': Aux, i: nat)
    requires Inv(s, a) && Advances(s, a, s', a', i) && Shapes(s, a) && Shapes(s', a')
    ensures UnderLock(s, a, s', a', i)
  {
    forall m | 0 <= m < |a.chains| && Touched(s, a, s', a', m) ensures MayChange(s.procs[i], m) {
      OnlyUnderLock(s, a, s', a', i, m);
    }
  }

  /** At every time of every run, a step that touches a list is a step of a process with the
      write lock of that chain, or with the free-list lock when it is the free list. */
  lemma RunUnderLock(run: seq<State>, t: nat) returns (a: Aux, a': Aux, i: nat)
    requires Run(run) && t + 1 < |run|
    ensures Inv(run[t], a) && Inv(run[t + 1], a') && StepBy(run[t], run[t + 1], i) && i < |run[t].procs|
    ensures Shapes(run[t], a) && Shapes(run[t + 1], a') && UnderLock(run[t], a, run[t + 1], a', i)
  {
    a := RunSafe(run, t);
    a', i := NextSafe(run, t, a);
    StepUnderLock(run[t], a, run[t + 1], a', i);
  }

  // ---------------------------------------------------------------- the pointers of the files

  /** The pointer that a delete has yet to rewrite leads to the record it takes out, and so
      does the head of the free list once that is rewritten. */
  ghost predicate Detaches(s: State, i: nat)
    requires i < |s.procs|
  {
    var p := s.procs[i];
    && (Pending(p) ==> Phys(s.disk, p.ptroff) == p.off > 0)
    && (p.pc.DelChain? ==> Phys(s.disk, Head(0)) == p.off)
  }

  ghost predicate AllDetach(s: State) {
    forall i :: 0 <= i < |s.procs| ==> Detaches(s, i)
  }

  lemma DetachBegins(s: State, a: Aux, s': State, a': Aux, i: nat)
    requires Inv(s, a) && Advances(s, a, s', a', i) && s.procs[i].pc.DelDat?
    ensures Detaches(s', i)
  {
    var p := s.procs[i];
    var k, pos := Bucket(p.op), a.info[i].pos;
    assert Local(s, a, i);
    HeadRead(s, a, i, k);
    NodeRead(s, a, i, k, pos);
    if pos > 0 { NodeRead(s, a, i, k, pos - 1); }
  }

  /** The slot with the pointer to rewrite is not the record in hand, nor the free list's. */
  lemma SlotApart(s: State, a: Aux, i: nat)
    requires Inv(s, a) && i < |s.procs| && Pending(s.procs[i])
    ensures s.procs[i].ptroff != Head(0)
    ensures HasRecord(s.procs[i]) ==> s.procs[i].ptroff != Link(s.procs[i].off)
  {
    var k, pos := Bucket(s.procs[i].op), a.info[i].pos;
    assert Local(s, a, i);
    if pos > 0 { assert Chain(s, a, k) && Node(s, a, k, pos - 1); }
  }

  lemma DetachStep(d: Disk, p: Proc)
    requires Pending(p) && |d.heads| == SLOTS && Phys(d, p.ptroff) == p.off > 0
    requires p.ptroff != Head(0) && (HasRecord(p) ==> p.ptroff != Link(p.off))
    ensures var d', p' := StepDisk(d, p), StepProc(d, p);
            && p'.off == p.off && p'.ptroff == p.ptroff
            && (Pending(p') ==> Phys(d', p.ptroff) == p.off)
            && (p'.pc.DelChain? ==> Phys(d', Head(0)) == p.off)
  {
  }

  lemma NotPending(d: Disk, p: Proc)
    requires !Pending(p) && !p.pc.DelDat?
    ensures !Pending(StepProc(d, p))
  {
  }

  lemma DetachOwn(s: State, a: Aux, s': State, a': Aux, i: nat)
    requires Inv(s, a) && Advances(s, a, s', a', i) && Detaches(s, i)
    ensures Detaches(s', i)
  {
    if Begins(s, s', i) {
    } else if s.procs[i].pc.DelDat? {
      DetachBegins(s, a, s', a', i);
    } else if Pending(s.procs[i]) {
      SlotApart(s, a, i);
      DetachStep(s.disk, s.procs[i]);
    } else {
      NotPending(s.disk, s.procs[i]);
    }
  }

  /** Process i is between taking a record out of chain k and rewriting the pointer to it. */
  ghost predicate Unlinking(s: State, i: nat, k: nat) {
    i < |s.procs| && Pending(s.procs[i]) && Bucket(s.procs[i].op) == k
  }

  lemma SlotIs(s: State, a: Aux, i: nat, k: nat)
    requires Inv(s, a) && Unlinking(s, i, k)
    ensures a.info[i].pos <= |a.chains[k]| && s.procs[i].ptroff == SlotOf(k, a.chains[k], a.info[i].pos)
  {
    assert Local(s, a, i);
  }

  /** What one process is to rewrite, another leaves alone. */
  lemma SlotKept(s: State, a: Aux, s': State, a': Aux, i: nat, j: nat)
    requires Inv(s, a) && Advances(s, a, s', a', i) && j < |s.procs| && j != i && Pending(s.procs[j])
    ensures Phys(s'.disk, s.procs[j].ptroff) == Phys(s.disk, s.procs[j].ptroff)
  {
    var k, pos := Bucket(s.procs[j].op), a.info[j].pos;
    SlotIs(s, a, j, k);
    HoldersApart(s, a, i, j);
    if pos == 0 {
      HeadUntouched(s, a, s', a', i, k);
    } else {
      assert Chain(s, a, k) && Node(s, a, k, pos - 1);
      assert RecKept(s, a, s', a', i, a.chains[k][pos - 1]);
    }
  }

  lemma DetachOther(s: State, a: Aux, s': State, a': Aux, i: nat, j: nat)
    requires Inv(s, a) && Advances(s, a, s', a', i) && j < |s.procs| && j != i && Detaches(s, j)
    ensures j < |s'.procs| && Detaches(s', j)
  {
    assert OthersKept(s, a, s', a', i);
    if Pending(s.procs[j]) { SlotKept(s, a, s', a', i, j); }
    if s.procs[j].pc.DelChain? {
      HoldersApart(s, a, i, j);
      HeadUntouched(s, a, s', a', i, 0);
    }
  }

  lemma {:induction false} RunDetaches(run: seq<State>, t: nat) returns (a: Aux)
    requires Run(run) && t < |run|
    ensures Inv(run[t], a) && AllDetach(run[t])
  {
    if t == 0 {
      a := RunSafe(run, 0);
    } else {
      var b := RunDetaches(run, t - 1);
      var i;
      a, i := NextSafe(run, t - 1, b);
      forall j | 0 <= j < |run[t].procs| ensures Detaches(run[t], j) {
        assert Detaches(run[t - 1], j);
        if j == i { DetachOwn(run[t - 1], b, run[t], a, i); } else { DetachOther(run[t - 1], b, run[t], a, i, j); }
      }
    }
  }

  /** A slot of list k. */
  ghost predicate SlotOn(a: Aux, k: nat, slot: Slot) {
    slot == Head(k) || (slot.Link? && slot.off in a.own && a.own[slot.off] == Listed(k))
  }

  lemma NoFix(s: State, a: Aux, k: nat, slot: Slot)
    requires Inv(s, a) && k < SLOTS && SlotOn(a, k, slot) && forall i: nat :: !Unlinking(s, i, k)
    ensures slot !in a.fix
  {
    if slot in a.fix {
      var j := FixedOn(s, a, slot);
      assert Unlinking(s, j, k);
      assert false;
    }
  }

  lemma OneFix(s: State, a: Aux, i: nat, k: nat, slot: Slot)
    requires Inv(s, a) && k < SLOTS && Unlinking(s, i, k) && SlotOn(a, k, slot) && slot in a.fix
    ensures slot == s.procs[i].ptroff
  {
    var j := FixedOn(s, a, slot);
    assert Local(s, a, i) && Fixed(s, a, slot);
    if j != i {
      HoldersApart(s, a, j, i);
      assert false;
    }
  }

  /** The records c are linked one to the next up to the null pointer. */
  ghost predicate Linked(d: Disk, c: seq<nat>) {
    forall j :: 0 <= j < |c| ==> LinkAt(d, c, j)
  }

  ghost predicate AllDiffer(c: seq<nat>) {
    forall i, j :: 0 <= i < j < |c| ==> Differ(c, i, j)
  }

  /** Where no rewrite is due, the files hold the list. */
  lemma ListOnDisk(s: State, a: Aux, k: nat)
    requires Inv(s, a) && k < SLOTS && forall i: nat :: !Unlinking(s, i, k)
    ensures Follows(s.disk, k, a.chains[k]) && Linked(s.disk, a.chains[k]) && AllDiffer(a.chains[k])
  {
    assert Chain(s, a, k);
    NoFix(s, a, k, Head(k));
    forall j | 0 <= j < |a.chains[k]| ensures LinkAt(s.disk, a.chains[k], j) {
      assert Node(s, a, k, j);
      NoFix(s, a, k, Link(a.chains[k][j]));
    }
  }

  lemma FreeOnDisk(s: State, a: Aux)
    requires Inv(s, a)
    ensures Follows(s.disk, 0, a.chains[0]) && Linked(s.disk, a.chains[0]) && AllDiffer(a.chains[0])
  {
    forall i: nat ensures !Unlinking(s, i, 0) {}
    ListOnDisk(s, a, 0);
  }

  /** On a chain that a delete unlinks from, every pointer but the one to rewrite. */
  lemma NodeNotFixed(s: State, a: Aux, i: nat, k: nat, j: nat)
    requires Inv(s, a) && k < SLOTS && Unlinking(s, i, k) && j < |a.chains[k]| && j + 1 != a.info[i].pos
    requires Node(s, a, k, j)
    ensures Link(a.chains[k][j]) !in a.fix
  {
    var c, pos := a.chains[k], a.info[i].pos;
    SlotIs(s, a, i, k);
    if Link(c[j]) in a.fix {
      OneFix(s, a, i, k, Link(c[j]));
      OnceInList(s, a, k, j, k, pos - 1);
      assert false;
    }
  }

  lemma NodeOnDisk(s: State, a: Aux, i: nat, k: nat, j: nat)
    requires Inv(s, a) && k < SLOTS && Unlinking(s, i, k) && j < |a.chains[k]|
    ensures Unfixed(s.disk, a.chains[k], a.info[i].pos, j)
  {
    assert Chain(s, a, k) && Node(s, a, k, j);
    if j + 1 != a.info[i].pos { NodeNotFixed(s, a, i, k, j); }
  }

  ghost predicate Unfixed(d: Disk, c: seq<nat>, pos: nat, j: nat)
    requires j < |c|
  {
    c[j] > 0 && c[j] in d.recs && (j + 1 != pos ==> d.recs[c[j]].ptr == PtrTo(c, j + 1))
  }

  /** What the pointer to rewrite leads to: the record in hand and the rest of the chain, and
      once that record points into the free list, the free list. */
  function Rest(p: Proc, c: seq<nat>, f: seq<nat>, pos: nat): seq<nat>
    requires pos <= |c|
  {
    if p.pc.DelChain? then f else [p.off] + if p.pc.DelFreeHead? then f else c[pos..]
  }

  lemma TailLinked(d: Disk, c: seq<nat>, pos: nat)
    requires pos <= |c| && forall j :: 0 <= j < |c| ==> Unfixed(d, c, pos, j)
    ensures Linked(d, c[pos..])
  {
    forall j | 0 <= j < |c| - pos ensures LinkAt(d, c[pos..], j) {
      assert Unfixed(d, c, pos, pos + j);
    }
  }

  lemma ConsLinked(d: Disk, x: nat, c: seq<nat>)
    requires x > 0 && x in d.recs && d.recs[x].ptr == PtrTo(c, 0) && Linked(d, c)
    ensures Linked(d, [x] + c)
  {
    var e := [x] + c;
    forall j | 0 <= j < |e| ensures LinkAt(d, e, j) {
      if j > 0 { assert LinkAt(d, c, j - 1); }
    }
  }

  lemma RestLinked(s: State, a: Aux, i: nat, k: nat)
    requires Inv(s, a) && k < SLOTS && Unlinking(s, i, k) && Detaches(s, i) && a.info[i].pos <= |a.chains[k]|
    ensures var e := Rest(s.procs[i], a.chains[k], a.chains[0], a.info[i].pos);
            Linked(s.disk, e) && PtrTo(e, 0) == s.procs[i].off
  {
    var p := s.procs[i];
    assert Local(s, a, i);
    FreeOnDisk(s, a);
    forall j | 0 <= j < |a.chains[k]| ensures Unfixed(s.disk, a.chains[k], a.info[i].pos, j) {
      NodeOnDisk(s, a, i, k, j);
    }
    TailLinked(s.disk, a.chains[k], a.info[i].pos);
    if p.pc.DelFreeHead? {
      ConsLinked(s.disk, p.off, a.chains[0]);
    } else if !p.pc.DelChain? {
      ConsLinked(s.disk, p.off, a.chains[k][a.info[i].pos..]);
    }
  }

  lemma FollowsThrough(d: Disk, k: nat, c: seq<nat>, n: nat, e: seq<nat>)
    requires k < |d.heads| && n <= |c| && Linked(d, e)
    requires d.heads[k] == if n == 0 then PtrTo(e, 0) else c[0]
    requires forall j :: 0 <= j < n ==> Joins(d, c, n, e, j)
    ensures Follows(d, k, c[..n] + e)
  {
    var g := c[..n] + e;
    forall j | 0 <= j < |g| ensures LinkAt(d, g, j) {
      if j < n { assert Joins(d, c, n, e, j); } else { assert LinkAt(d, e, j - n); }
    }
  }

  ghost predicate Joins(d: Disk, c: seq<nat>, n: nat, e: seq<nat>, j: nat)
    requires j < n <= |c|
  {
    c[j] > 0 && c[j] in d.recs && d.recs[c[j]].ptr == if j + 1 == n then PtrTo(e, 0) else c[j + 1]
  }

  /** Where a delete is unlinking, the files lead through the chain up to its record and then
      to what the pointer to rewrite leads to. */
  lemma UnlinkingOnDisk(s: State, a: Aux, i: nat, k: nat)
    requires Inv(s, a) && k < SLOTS && Unlinking(s, i, k) && Detaches(s, i)
    ensures a.info[i].pos <= |a.chains[k]|
    ensures var c, pos := a.chains[k], a.info[i].pos;
            Follows(s.disk, k, c[..pos] + Rest(s.procs[i], c, a.chains[0], pos))
  {
    var c, pos := a.chains[k], a.info[i].pos;
    assert Local(s, a, i) && Chain(s, a, k);
    RestLinked(s, a, i, k);
    var e := Rest(s.procs[i], c, a.chains[0], pos);
    forall j | 0 <= j < pos ensures Joins(s.disk, c, pos, e, j) {
      NodeOnDisk(s, a, i, k, j);
    }
    if pos > 0 && Head(k) in a.fix {
      OneFix(s, a, i, k, Head(k));
      assert false;
    }
    FollowsThrough(s.disk, k, c, pos, e);
  }

  lemma JoinDiffers(c: seq<nat>, e: seq<nat>)
    requires AllDiffer(c) && AllDiffer(e) && forall j :: 0 <= j < |e| ==> e[j] !in c
    ensures AllDiffer(c + e)
  {
    var g := c + e;
    forall i, j | 0 <= i < j < |g| ensures Differ(g, i, j) {
      if j < |c| {
        assert Differ(c, i, j);
      } else if i < |c| {
        assert e[j - |c|] !in c;
      } else {
        assert Differ(e, i - |c|, j - |c|);
      }
    }
  }

  /** No list or process has a record of another. */
  lemma OwnersDiffer(s: State, a: Aux, k: nat, x: nat)
    requires Inv(s, a) && k < SLOTS && x in a.own && a.own[x] != Listed(k)
    ensures x !in a.chains[k]
  {
    forall j | 0 <= j < |a.chains[k]| ensures a.chains[k][j] != x {
      assert Chain(s, a, k) && Node(s, a, k, j);
    }
  }

  lemma ListDiffers(s: State, a: Aux, k: nat)
    requires Inv(s, a) && k < SLOTS
    ensures AllDiffer(a.chains[k])
    ensures forall j :: 0 <= j < |a.chains[k]| ==> a.chains[k][j] in a.own && a.own[a.chains[k][j]] == Listed(k)
  {
    assert Chain(s, a, k);
    forall j | 0 <= j < |a.chains[k]| ensures a.chains[k][j] in a.own && a.own[a.chains[k][j]] == Listed(k) {
      assert Node(s, a, k, j);
    }
  }

  lemma SliceDiffers(c: seq<nat>, n: nat)
    requires AllDiffer(c) && n <= |c|
    ensures AllDiffer(c[..n]) && AllDiffer(c[n..]) && forall j :: 0 <= j < |c[n..]| ==> c[n..][j] !in c[..n]
  {
    forall i, j | 0 <= i < j < n ensures Differ(c[..n], i, j) { assert Differ(c, i, j); }
    forall i, j | 0 <= i < j < |c| - n ensures Differ(c[n..], i, j) { assert Differ(c, n + i, n + j); }
    forall j | 0 <= j < |c[n..]| ensures c[n..][j] !in c[..n] {
      forall i | 0 <= i < n ensures c[..n][i] != c[n..][j] { assert Differ(c, i, n + j); }
    }
  }

  lemma UnlinkingDiffers(s: State, a: Aux, i: nat, k: nat)
    requires Inv(s, a) && 1 <= k < SLOTS && Unlinking(s, i, k) && a.info[i].pos <= |a.chains[k]|
    ensures var c, pos := a.chains[k], a.info[i].pos;
            AllDiffer(c[..pos] + Rest(s.procs[i], c, a.chains[0], pos))
  {
    var p := s.procs[i];
    var c, f, pos := a.chains[k], a.chains[0], a.info[i].pos;
    assert Local(s, a, i);
    ListDiffers(s, a, k);
    ListDiffers(s, a, 0);
    SliceDiffers(c, pos);
    forall j | 0 <= j < |f| ensures f[j] !in c[..pos] { OwnersDiffer(s, a, k, f[j]); }
    if p.pc.DelChain? {
      JoinDiffers(c[..pos], f);
    } else {
      OwnersDiffer(s, a, k, p.off);
      OwnersDiffer(s, a, 0, p.off);
      var e := if p.pc.DelFreeHead? then f else c[pos..];
      ConsDiffers(p.off, e);
      JoinDiffers(c[..pos], [p.off] + e);
    }
  }

  lemma ConsDiffers(x: nat, c: seq<nat>)
    requires AllDiffer(c) && x !in c
    ensures AllDiffer([x] + c)
  {
    forall j | 0 <= j < |c| ensures c[j] !in [x] {}
    JoinDiffers([x], c);
  }

  /** In every reachable state, following the pointers in the index file from any chain or
      from the free list comes to an end, over records that are all different: from a chain
      that a delete is unlinking from, they may lead into the free list. */
  lemma RunAcyclic(run: seq<State>, t: nat, k: nat) returns (c: seq<nat>)
    requires Run(run) && t < |run| && k < SLOTS
    ensures Follows(run[t].disk, k, c) && AllDiffer(c)
  {
    var s := run[t];
    var a := RunDetaches(run, t);
    if i: nat :| Unlinking(s, i, k) {
      assert Detaches(s, i);
      UnlinkingOnDisk(s, a, i, k);
      UnlinkingDiffers(s, a, i, k);
      c := a.chains[k][..a.info[i].pos] + Rest(s.procs[i], a.chains[k], a.chains[0], a.info[i].pos);
    } else {
      ListOnDisk(s, a, k);
      c := a.chains[k];
    }
  }
}
