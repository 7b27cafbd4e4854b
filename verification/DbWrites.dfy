/** Steps that write to the files. */
module DbWrites {
  import opened DbFormat
  import opened DbSteps
  import opened DbInvariant
  import opened DbLists
  import opened DbFrame
  import opened DbQuiet

  /** The parts of the invariant after a step of process i. */
  lemma Assemble(s: State, a: Aux, s': State, a': Aux, i: nat)
    requires Inv(s, a) && Foot(s, a, s', a', i) && SameOrFewer(s.procs[i], s'.procs[i])
    requires Lists(s', a') && Extents(s')
    requires MayChange(s.procs[i], Bucket(s.procs[i].op)) ==> View(s', a', Bucket(s.procs[i].op))
    requires LocalOf(s'.disk, s'.procs[i], i, a', a'.info[i])
    ensures Keeps(s, a, s', a', i)
  {
    FewerLocks(s, i, s'.procs[i]);
    LocksFrom(s, s', i);
    ViewsFrom(s, a, s', a', i);
    LocalsFrom(s, a, s', a', i);
  }

  // ---------------------------------------------------------------- entries of the process's own chain

  lemma ViewRemove(s: State, a: Aux, s': State, a': Aux, k: nat, j: nat, key: string)
    requires k < |a.chains| == |a'.chains| == |a.view| == |a'.view| && View(s, a, k) && j < |a.chains[k]|
    requires a'.chains[k] == Without(a.chains[k], j) && a'.view[k] == a.view[k] - {key}
    requires RecordAt(s.disk, a.chains[k][j]).key == key
    requires forall b :: 0 <= b < |a.chains[k]| && b != j ==> SameEntry(s, s', a.chains[k][b])
    ensures View(s', a', k)
  {
    var c, c' := a.chains[k], a'.chains[k];
    assert forall b :: 0 <= b < |c'| ==> c'[b] == c[if b < j then b else b + 1];
    forall b | 0 <= b < |c'| ensures Entry(s', a', k, b) {
      var b0 := if b < j then b else b + 1;
      assert Entry(s, a, k, b0) && SameEntry(s, s', c[b0]);
      assert if b0 < j then KeysDiffer(s, a, k, b0, j) else KeysDiffer(s, a, k, j, b0);
    }
    forall b, e | 0 <= b < e < |c'| ensures KeysDiffer(s', a', k, b, e) {
      var b0, e0 := if b < j then b else b + 1, if e < j then e else e + 1;
      assert KeysDiffer(s, a, k, b0, e0) && SameEntry(s, s', c[b0]) && SameEntry(s, s', c[e0]);
    }
    forall x | x in a'.view[k] ensures Stored(s', a', k, x) {
      assert Stored(s, a, k, x);
      var b :| 0 <= b < |c| && HasKey(s, a, k, b, x);
      assert SameEntry(s, s', c[b]);
      assert HasKey(s', a', k, if b < j then b else b - 1, x);
    }
  }

  lemma ViewPush(s: State, a: Aux, s': State, a': Aux, k: nat, x: nat, key: string, data: string)
    requires k < |a.chains| == |a'.chains| == |a.view| == |a'.view| && View(s, a, k)
    requires a'.chains[k] == [x] + a.chains[k] && a'.view[k] == a.view[k][key := data] && key !in a.view[k]
    requires var r := RecordAt(s'.disk, x); r.key == key && 1 + Hash(key) == k && DataAt(s'.disk, r) == data
    requires forall b :: 0 <= b < |a.chains[k]| ==> SameEntry(s, s', a.chains[k][b])
    ensures View(s', a', k)
  {
    var c, c' := a.chains[k], a'.chains[k];
    forall b | 0 <= b < |c'| ensures Entry(s', a', k, b) {
      if b > 0 { assert Entry(s, a, k, b - 1) && SameEntry(s, s', c[b - 1]); }
    }
    forall b, e | 0 <= b < e < |c'| ensures KeysDiffer(s', a', k, b, e) {
      assert Entry(s, a, k, e - 1) && SameEntry(s, s', c[e - 1]);
      if b > 0 { assert KeysDiffer(s, a, k, b - 1, e - 1) && SameEntry(s, s', c[b - 1]); }
    }
    forall y | y in a'.view[k] ensures Stored(s', a', k, y) {
      if y == key {
        assert HasKey(s', a', k, 0, y);
      } else {
        assert Stored(s, a, k, y);
        var b :| 0 <= b < |c| && HasKey(s, a, k, b, y);
        assert SameEntry(s, s', c[b]);
        assert HasKey(s', a', k, b + 1, y);
      }
    }
  }

  lemma ViewUpdate(s: State, a: Aux, s': State, a': Aux, k: nat, j: nat, data: string)
    requires k < |a.chains| == |a'.chains| == |a.view| == |a'.view| && View(s, a, k) && j < |a.chains[k]|
    requires var r := RecordAt(s.disk, a.chains[k][j]);
             && a'.chains[k] == a.chains[k] && a'.view[k] == a.view[k][r.key := data]
             && RecordAt(s'.disk, a.chains[k][j]) == r && DataAt(s'.disk, r) == data
    requires forall b :: 0 <= b < |a.chains[k]| && b != j ==> SameEntry(s, s', a.chains[k][b])
    ensures View(s', a', k)
  {
    var c := a.chains[k];
    assert Entry(s, a, k, j);
    forall b | 0 <= b < |c| ensures Entry(s', a', k, b) {
      if b != j {
        assert Entry(s, a, k, b) && SameEntry(s, s', c[b]);
        assert if b < j then KeysDiffer(s, a, k, b, j) else KeysDiffer(s, a, k, j, b);
      }
    }
    forall b, e | 0 <= b < e < |c| ensures KeysDiffer(s', a', k, b, e) {
      assert KeysDiffer(s, a, k, b, e);
      assert b != j ==> SameEntry(s, s', c[b]);
      assert e != j ==> SameEntry(s, s', c[e]);
    }
    forall y | y in a'.view[k] ensures Stored(s', a', k, y) {
      if y == RecordAt(s.disk, c[j]).key {
        assert HasKey(s', a', k, j, y);
      } else {
        assert Stored(s, a, k, y);
        var b :| 0 <= b < |c| && HasKey(s, a, k, b, y);
        assert SameEntry(s, s', c[b]);
        assert HasKey(s', a', k, b, y);
      }
    }
  }

  // ---------------------------------------------------------------- data written over a record's own extent

  ghost predicate Overwrites(s: State, s': State, i: nat, x: nat, data: string) {
    && i < |s.procs| == |s'.procs| && s'.procs == s.procs[i := s'.procs[i]]
    && x in s.disk.recs && s.disk.recs[x].datlen == |data| + 1
    && s'.disk == WriteData(s.disk, s.disk.recs[x].datoff, data)
    && !HasClaim(s.procs[i]) && !HasClaim(s'.procs[i])
  }

  lemma OverwriteKeeps(s: State, s': State, i: nat, x: nat, data: string, y: nat)
    requires Extents(s) && Overwrites(s, s', i, x, data) && y in s.disk.recs && y != x
    ensures SameEntry(s, s', y) && RecordAt(s'.disk, y) == RecordAt(s.disk, y)
  {
    assert Placed(s.disk, x) && Placed(s.disk, y) && Separate(s.disk, x, y);
    DataKept(s.disk, s.disk.recs[x].datoff, data, s.disk.recs[y]);
  }

  lemma OverwriteExtents(s: State, s': State, i: nat, x: nat, data: string)
    requires Extents(s) && Overwrites(s, s', i, x, data)
    ensures Extents(s') && DataAt(s'.disk, RecordAt(s.disk, x)) == data
  {
    assert Placed(s.disk, x);
    var off := s.disk.recs[x].datoff;
    forall y | y in s.disk.recs ensures SamePlace(s.disk, s'.disk, y) {}
    forall j | 0 <= j < |s.procs| ensures Claimed(s', j) {
      if j != i {
        assert Claimed(s, j) && ClaimApart(s, j, x);
        ClaimKept(s, s', j, off, data);
      }
    }
    ExtentsSame(s, s', i);
    DataWritten(s.disk, s.disk.recs[x], data);
  }

  // ---------------------------------------------------------------- pointers

  ghost predicate Repoints(s: State, s': State, i: nat, slot: Slot, v: nat) {
    && i < |s.procs| == |s'.procs| && s'.procs == s.procs[i := s'.procs[i]]
    && (slot.Head? ==> slot.k < |s.disk.heads|) && (slot.Link? ==> slot.off in s.disk.recs)
    && s'.disk == SetPtr(s.disk, slot, v)
    && !HasClaim(s.procs[i]) && !HasClaim(s'.procs[i])
  }

  lemma RepointKeeps(s: State, s': State, i: nat, slot: Slot, v: nat, y: nat)
    requires Repoints(s, s', i, slot, v) && y in s.disk.recs
    ensures y in s'.disk.recs && SameEntry(s, s', y) && SamePlace(s.disk, s'.disk, y)
    ensures slot != Link(y) ==> RecordAt(s'.disk, y) == RecordAt(s.disk, y)
    ensures slot == Link(y) ==> RecordAt(s'.disk, y) == RecordAt(s.disk, y).(ptr := v)
  {
  }

  lemma RepointExtents(s: State, s': State, i: nat, slot: Slot, v: nat)
    requires Extents(s) && Repoints(s, s', i, slot, v)
    ensures Extents(s')
  {
    forall y | y in s.disk.recs ensures SamePlace(s.disk, s'.disk, y) { RepointKeeps(s, s', i, slot, v, y); }
    forall j | 0 <= j < |s.procs| ensures Claimed(s', j) {
      assert Claimed(s, j);
    }
    ExtentsSame(s, s', i);
  }

  lemma RepointPhys(s: State, s': State, i: nat, slot: Slot, v: nat, t: Slot)
    requires Repoints(s, s', i, slot, v)
    ensures Phys(s'.disk, t) == if t == slot then v else Phys(s.disk, t)
  {
  }

  /** No rewrite is due on a slot of a list that process i walks. */
  lemma SlotFree(s: State, a: Aux, i: nat, m: nat, j: nat)
    requires Inv(s, a) && i < |s.procs| && m < SLOTS && Walks(s.procs[i], m) && j <= |a.chains[m]|
    ensures SlotOf(m, a.chains[m], j) !in a.fix
    ensures j > 0 ==> a.chains[m][j - 1] in s.disk.recs && a.own[a.chains[m][j - 1]] == Listed(m)
  {
    if j == 0 { HeadRead(s, a, i, m); } else { NodeRead(s, a, i, m, j - 1); }
  }
}
