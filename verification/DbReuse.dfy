/** Which free record a store takes, in every interleaving: the first with its lengths, and
    none exactly if no free record has them. */
module DbReuse {
  import opened DbFormat
  import opened DbSteps
  import opened DbInvariant
  import opened DbFrame
  import opened DbSafety
  import opened DbRuns

  /** The record at x has the lengths of the key and data to store. */
  predicate Suits(d: Disk, op: Op, x: nat) {
    |RecordAt(d, x).key| == |op.key| && RecordAt(d, x).datlen == |DataOf(op)| + 1
  }

  predicate Unsuited(d: Disk, op: Op, c: seq<nat>, b: nat)
    requires b < |c|
  {
    !Suits(d, op, c[b])
  }

  predicate NoneSuits(d: Disk, op: Op, c: seq<nat>, n: nat) {
    n <= |c| && forall b :: 0 <= b < n ==> Unsuited(d, op, c, b)
  }

  predicate Scanning(p: Proc) { p.pc.SWalk? || p.pc.STake? || p.pc.SUnlockMiss? }

  /** The free list is c, its first n records do not suit, and the process is there. */
  ghost predicate Scan(d: Disk, p: Proc, c: seq<nat>, n: nat) {
    && Follows(d, 0, c) && NoneSuits(d, p.op, c, n)
    && (p.pc.SWalk? ==> p.foff == PtrTo(c, n))
    && (p.pc.STake? ==> n < |c| && p.off == c[n] && Suits(d, p.op, c[n]))
    && (p.pc.SUnlockMiss? ==> n == |c|)
  }

  ghost predicate Scans(s: State, i: nat)
    requires i < |s.procs|
  {
    Scanning(s.procs[i]) ==> exists c: seq<nat>, n: nat :: Scan(s.disk, s.procs[i], c, n)
  }

  ghost predicate AllScan(s: State) { forall i :: 0 <= i < |s.procs| ==> Scans(s, i) }

  // ---------------------------------------------------------------- the process's own steps

  lemma ScanStarts(s: State, a: Aux, s': State, i: nat)
    requires Inv(s, a) && i < |s.procs| && s' == StepOf(s, i) && s.procs[i].pc.SReadFree?
    ensures Scans(s', i)
  {
    FreeOnDisk(s, a);
    assert Scan(s'.disk, s'.procs[i], a.chains[0], 0);
  }

  lemma ScanGoesOn(d: Disk, p: Proc, c: seq<nat>, n: nat) returns (m: nat)
    requires Scan(d, p, c, n) && p.pc.SWalk?
    ensures Scan(d, StepProc(d, p), c, m)
  {
    m := n;
    if n < |c| {
      assert LinkAt(d, c, n);
      if !Suits(d, p.op, c[n]) { m := n + 1; }
    }
  }

  lemma NotScanning(d: Disk, p: Proc)
    requires !p.pc.SReadFree? && !p.pc.SWalk?
    ensures !Scanning(StepProc(d, p))
  {
  }

  lemma ScanOwn(s: State, a: Aux, s': State, a': Aux, i: nat)
    requires Inv(s, a) && Advances(s, a, s', a', i) && Scans(s, i)
    ensures Scans(s', i)
  {
    var p := s.procs[i];
    if Begins(s, s', i) {
    } else if p.pc.SReadFree? {
      ScanStarts(s, a, s', i);
    } else if p.pc.SWalk? {
      var c: seq<nat>, n: nat :| Scan(s.disk, p, c, n);
      var m := ScanGoesOn(s.disk, p, c, n);
    } else {
      NotScanning(s.disk, p);
    }
  }

  // ---------------------------------------------------------------- steps of others

  lemma FollowsKept(d: Disk, d': Disk, c: seq<nat>)
    requires Follows(d, 0, c) && |d'.heads| > 0 && d'.heads[0] == d.heads[0]
    requires forall b :: 0 <= b < |c| ==> c[b] in d'.recs && RecordAt(d', c[b]) == RecordAt(d, c[b])
    ensures Follows(d', 0, c)
  {
    forall j | 0 <= j < |c| ensures LinkAt(d', c, j) { assert LinkAt(d, c, j) && c[j] in d'.recs; }
  }

  lemma ScanKept(d: Disk, d': Disk, p: Proc, c: seq<nat>, n: nat)
    requires Scan(d, p, c, n) && Follows(d', 0, c)
    requires forall b :: 0 <= b < |c| ==> RecordAt(d', c[b]) == RecordAt(d, c[b])
    ensures Scan(d', p, c, n)
  {
    forall b | 0 <= b < n ensures Unsuited(d', p.op, c, b) { assert Unsuited(d, p.op, c, b); }
  }

  lemma FreeIsList(s: State, a: Aux, c: seq<nat>)
    requires Inv(s, a) && Follows(s.disk, 0, c)
    ensures c == a.chains[0]
  {
    FreeOnDisk(s, a);
    FollowsUnique(s.disk, 0, c, a.chains[0], |c|);
    FollowsUnique(s.disk, 0, a.chains[0], c, |a.chains[0]|);
  }

  lemma FreeUntouched(s: State, a: Aux, s': State, a': Aux, i: nat, b: nat)
    requires Inv(s, a) && Advances(s, a, s', a', i) && !MayChange(s.procs[i], 0) && b < |a.chains[0]|
    ensures var x := a.chains[0][b]; x in s'.disk.recs && RecordAt(s'.disk, x) == RecordAt(s.disk, x)
  {
    assert Chain(s, a, 0) && Node(s, a, 0, b);
    assert RecKept(s, a, s', a', i, a.chains[0][b]);
  }

  lemma ScanOther(s: State, a: Aux, s': State, a': Aux, i: nat, j: nat)
    requires Inv(s, a) && Advances(s, a, s', a', i) && j < |s.procs| && j != i && Scans(s, j)
    ensures j < |s'.procs| && Scans(s', j)
  {
    assert OthersKept(s, a, s', a', i);
    if Scanning(s.procs[j]) {
      var c: seq<nat>, n: nat :| Scan(s.disk, s.procs[j], c, n);
      FreeIsList(s, a, c);
      HoldersApart(s, a, i, j);
      HeadUntouched(s, a, s', a', i, 0);
      forall b | 0 <= b < |c| ensures c[b] in s'.disk.recs && RecordAt(s'.disk, c[b]) == RecordAt(s.disk, c[b]) {
        FreeUntouched(s, a, s', a', i, b);
      }
      FollowsKept(s.disk, s'.disk, c);
      ScanKept(s.disk, s'.disk, s.procs[j], c, n);
    }
  }

  // ---------------------------------------------------------------- every run

  lemma {:induction false} RunScans(run: seq<State>, t: nat) returns (a: Aux)
    requires Run(run) && t < |run|
    ensures Inv(run[t], a) && AllScan(run[t])
  {
    if t == 0 {
      a := RunSafe(run, 0);
    } else {
      var b := RunScans(run, t - 1);
      var i;
      a, i := NextSafe(run, t - 1, b);
      forall j | 0 <= j < |run[t].procs| ensures Scans(run[t], j) {
        assert Scans(run[t - 1], j);
        if j == i { ScanOwn(run[t - 1], b, run[t], a, i); } else { ScanOther(run[t - 1], b, run[t], a, i, j); }
      }
    }
  }

  /** In every reachable state a store that is about to take a record off the free list takes
      the first one with its lengths, and a store that gives up the search has no such record
      on the free list of the files. */
  lemma FirstSuited(run: seq<State>, t: nat, i: nat) returns (c: seq<nat>, n: nat)
    requires Run(run) && t < |run| && i < |run[t].procs|
    ensures Follows(run[t].disk, 0, c)
    ensures run[t].procs[i].pc.STake? ==>
      && n < |c| && run[t].procs[i].off == c[n] && Suits(run[t].disk, run[t].procs[i].op, c[n])
      && NoneSuits(run[t].disk, run[t].procs[i].op, c, n)
    ensures run[t].procs[i].pc.SUnlockMiss? ==> NoneSuits(run[t].disk, run[t].procs[i].op, c, |c|)
  {
    var a := RunScans(run, t);
    assert Scans(run[t], i);
    if Scanning(run[t].procs[i]) {
      c, n :| Scan(run[t].disk, run[t].procs[i], c, n);
    } else {
      FreeOnDisk(run[t], a);
      c, n := a.chains[0], 0;
    }
  }
}
