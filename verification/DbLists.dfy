/** How a step may change the lists: not at all, one record off, or one record on. */
module DbLists {
  import opened DbFormat
  import opened DbSteps
  import opened DbInvariant

  ghost predicate KeptHead(s: State, a: Aux, s': State, a': Aux, k: nat) {
    Eff(s', a', Head(k)) == Eff(s, a, Head(k))
  }

  ghost predicate KeptNode(s: State, a: Aux, s': State, a': Aux, y: nat) {
    && y in s'.disk.recs && y in a'.own && y in a.own && a'.own[y] == a.own[y]
    && Eff(s', a', Link(y)) == Eff(s, a, Link(y))
  }

  ghost predicate OnList(a: Aux, y: nat) { y in a.own && a.own[y].Listed? }

  ghost predicate HeldOrFixed(s: State, a: Aux) {
    && (forall x :: x in s.disk.recs ==> x in a.own && (a.own[x].HeldBy? ==> Owned(s, a, x)))
    && (forall slot :: slot in a.fix ==> Fixed(s, a, slot))
  }

  lemma ChainSame(s: State, a: Aux, s': State, a': Aux, k: nat)
    requires k < |a.chains| == |a'.chains| && a'.chains[k] == a.chains[k] && Chain(s, a, k)
    requires KeptHead(s, a, s', a', k)
    requires forall j :: 0 <= j < |a.chains[k]| ==> KeptNode(s, a, s', a', a.chains[k][j])
    ensures Chain(s', a', k)
  {
    forall j | 0 <= j < |a.chains[k]| ensures Node(s', a', k, j) {
      assert Node(s, a, k, j) && KeptNode(s, a, s', a', a.chains[k][j]);
    }
  }

  /** The chains themselves are as before. */
  lemma ListsSame(s: State, a: Aux, s': State, a': Aux)
    requires Lists(s, a) && a'.chains == a.chains && HeldOrFixed(s', a')
    requires forall k :: 0 <= k < |a.chains| ==> KeptHead(s, a, s', a', k)
    requires forall y :: OnList(a, y) ==> KeptNode(s, a, s', a', y)
    requires forall x :: x in s'.disk.recs && OnList(a', x) ==> OnList(a, x) && x in s.disk.recs
    ensures Lists(s', a')
  {
    forall k | 0 <= k < |a.chains| ensures Chain(s', a', k) {
      assert Chain(s, a, k);
      forall j | 0 <= j < |a.chains[k]| ensures KeptNode(s, a, s', a', a.chains[k][j]) {
        assert Node(s, a, k, j);
        assert OnList(a, a.chains[k][j]);
      }
      ChainSame(s, a, s', a', k);
    }
    forall x | x in s'.disk.recs ensures Owned(s', a', x) {
      if OnList(a', x) {
        assert OnList(a, x) && Owned(s, a, x) && KeptNode(s, a, s', a', x);
      }
    }
  }

  /** Position j of list k taken off; the record is now held. */
  lemma ListsRemove(s: State, a: Aux, s': State, a': Aux, k: nat, j: nat)
    requires Lists(s, a) && HeldOrFixed(s', a')
    requires k < |a.chains| && j < |a.chains[k]| && s'.disk.recs.Keys == s.disk.recs.Keys
    requires a'.chains == a.chains[k := Without(a.chains[k], j)]
    requires a.chains[k][j] in a'.own && a'.own[a.chains[k][j]].HeldBy?
    requires a'.own == a.own[a.chains[k][j] := a'.own[a.chains[k][j]]]
    requires Eff(s', a', SlotOf(k, a.chains[k], j)) == PtrTo(a.chains[k], j + 1)
    requires forall m :: 0 <= m < |a.chains| && (m != k || j > 0) ==> KeptHead(s, a, s', a', m)
    requires forall y :: OnList(a, y) && y != a.chains[k][j] && Link(y) != SlotOf(k, a.chains[k], j) ==>
      KeptNode(s, a, s', a', y)
    requires j > 0 ==>
      var y := a.chains[k][j - 1];
      y in s'.disk.recs && y in a'.own && y in a.own && a'.own[y] == a.own[y]
    ensures Lists(s', a')
  {
    var c := a.chains[k];
    var x := c[j];
    assert Chain(s, a, k) && Node(s, a, k, j);
    RemoveSame(s, a, s', a', k, j);
    forall m | 0 <= m < |a.chains| ensures Chain(s', a', m) {
      if m != k {
        assert Chain(s, a, m) && KeptHead(s, a, s', a', m);
        forall b | 0 <= b < |a.chains[m]| ensures KeptNode(s, a, s', a', a.chains[m][b]) {
          assert Node(s, a, m, b);
          assert j > 0 ==> Node(s, a, k, j - 1);
          assert OnList(a, a.chains[m][b]);
        }
        ChainSame(s, a, s', a', m);
      }
    }
    forall y | y in s'.disk.recs ensures Owned(s', a', y) {
      assert Owned(s, a, y);
      if y != x && a'.own[y].Listed? {
        RemoveOwned(s, a, s', a', k, j, y);
      }
    }
  }

  lemma RemoveSame(s: State, a: Aux, s': State, a': Aux, k: nat, j: nat)
    requires k < |a.chains| && j < |a.chains[k]| && Chain(s, a, k) && Node(s, a, k, j)
    requires a'.chains == a.chains[k := Without(a.chains[k], j)]
    requires Eff(s', a', SlotOf(k, a.chains[k], j)) == PtrTo(a.chains[k], j + 1)
    requires j > 0 ==> KeptHead(s, a, s', a', k)
    requires forall y :: OnList(a, y) && y != a.chains[k][j] && Link(y) != SlotOf(k, a.chains[k], j) ==>
      KeptNode(s, a, s', a', y)
    requires j > 0 ==>
      var y := a.chains[k][j - 1];
      y in s'.disk.recs && y in a'.own && y in a.own && a'.own[y] == a.own[y]
    ensures Chain(s', a', k)
  {
    var c := a.chains[k];
    var c' := a'.chains[k];
    assert forall b :: 0 <= b < |c'| ==> c'[b] == if b < j then c[b] else c[b + 1];
    forall b | 0 <= b < |c'| ensures Node(s', a', k, b) {
      var b0 := if b < j then b else b + 1;
      assert Node(s, a, k, b0) && OnList(a, c[b0]);
      assert b0 < j ==> Differ(c, b0, j);
      assert j < b0 ==> Differ(c, j, b0);
      if b + 1 != j {
        assert j > 0 && b0 < j - 1 ==> Differ(c, b0, j - 1);
        assert j > 0 && j - 1 < b0 ==> Differ(c, j - 1, b0);
        assert KeptNode(s, a, s', a', c[b0]);
      }
    }
    forall b, d | 0 <= b < d < |c'| ensures Differ(c', b, d) {
      assert Differ(c, if b < j then b else b + 1, if d < j then d else d + 1);
    }
  }

  lemma RemoveOwned(s: State, a: Aux, s': State, a': Aux, k: nat, j: nat, y: nat)
    requires k < |a.chains| && j < |a.chains[k]| && y != a.chains[k][j]
    requires a'.chains == a.chains[k := Without(a.chains[k], j)]
    requires Owned(s, a, y) && y in a'.own && a'.own[y].Listed?
    requires a'.own[y] == a.own[y]
    ensures Owned(s', a', y)
  {
    if a.own[y].k == k {
      var b :| 0 <= b < |a.chains[k]| && a.chains[k][b] == y;
      assert a'.chains[k][if b < j then b else b - 1] == y;
    }
  }

  /** A held record put first on list k. */
  lemma ListsPush(s: State, a: Aux, s': State, a': Aux, k: nat, x: nat)
    requires Lists(s, a) && HeldOrFixed(s', a')
    requires k < |a.chains| && x > 0 && x in s.disk.recs && s'.disk.recs.Keys == s.disk.recs.Keys
    requires x in a.own && a.own[x].HeldBy?
    requires a'.chains == a.chains[k := [x] + a.chains[k]] && a'.own == a.own[x := Listed(k)]
    requires Eff(s', a', Head(k)) == x && Eff(s', a', Link(x)) == PtrTo(a.chains[k], 0)
    requires forall m :: 0 <= m < |a.chains| && m != k ==> KeptHead(s, a, s', a', m)
    requires forall y :: OnList(a, y) ==> KeptNode(s, a, s', a', y)
    ensures Lists(s', a')
  {
    forall m | 0 <= m < |a.chains| ensures Chain(s', a', m) {
      assert Chain(s, a, m);
      forall b | 0 <= b < |a.chains[m]| ensures KeptNode(s, a, s', a', a.chains[m][b]) && a.chains[m][b] != x {
        assert Node(s, a, m, b) && OnList(a, a.chains[m][b]);
      }
      if m == k {
        PushChain(s, a, s', a', k, x);
      } else {
        assert KeptHead(s, a, s', a', m);
        ChainSame(s, a, s', a', m);
      }
    }
    forall y | y in s'.disk.recs ensures Owned(s', a', y) {
      assert Owned(s, a, y);
    }
  }

  lemma PushChain(s: State, a: Aux, s': State, a': Aux, k: nat, x: nat)
    requires k < |a.chains| && Chain(s, a, k) && x > 0 && x in s'.disk.recs && x in a'.own && a'.own[x] == Listed(k)
    requires a'.chains == a.chains[k := [x] + a.chains[k]]
    requires Eff(s', a', Head(k)) == x && Eff(s', a', Link(x)) == PtrTo(a.chains[k], 0)
    requires forall b :: 0 <= b < |a.chains[k]| ==> KeptNode(s, a, s', a', a.chains[k][b]) && a.chains[k][b] != x
    ensures Chain(s', a', k)
  {
    var c, c' := a.chains[k], a'.chains[k];
    forall b | 0 <= b < |c'| ensures Node(s', a', k, b) {
      if b > 0 { assert Node(s, a, k, b - 1) && KeptNode(s, a, s', a', c[b - 1]); }
    }
    forall b, d | 0 <= b < d < |c'| ensures Differ(c', b, d) {
      if b > 0 { assert Differ(c, b - 1, d - 1); } else { assert c[d - 1] != x; }
    }
  }
}
