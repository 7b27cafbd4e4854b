/** What the calls on the reference-counted table mean for their callers, in every run of the
    one-lock table, and so in every run of the two-lock table. */
module MutexLaws {
  import opened Mutex3
  import M2 = Mutex2
  import R = Mutex2Refines

  // ---------------------------------------------------------------- the table

  ghost predicate ListedAt(t: Table, b: nat, j: nat)
    requires b < |t.lists| && j < |t.lists[b]|
  {
    t.lists[b][j] != 0 && t.lists[b][j] in t.ident && Hash(t.ident[t.lists[b][j]]) == b
  }

  predicate Apart(c: seq<nat>, i: nat, j: nat)
    requires i < |c| && j < |c|
  {
    c[i] != c[j]
  }

  ghost predicate ListOk(t: Table, b: nat)
    requires b < |t.lists|
  {
    && (forall j :: 0 <= j < |t.lists[b]| ==> ListedAt(t, b, j))
    && (forall i, j :: 0 <= i < j < |t.lists[b]| ==> Apart(t.lists[b], i, j))
  }

  ghost predicate Linked(t: Table, x: nat)
    requires |t.lists| == NHASH && x in t.ident
  {
    x in t.lists[Hash(t.ident[x])]
  }

  /** Every object of the table is once on the list of its id, and nothing else is on a list. */
  ghost predicate TableOk(t: Table) {
    && |t.lists| == NHASH && t.count.Keys == t.ident.Keys
    && (forall b :: 0 <= b < NHASH ==> ListOk(t, b))
    && (forall x :: x in t.ident ==> Linked(t, x))
  }

  lemma AllocOk(t: Table, t': Table, i: nat, id: int, x: nat)
    requires TableOk(t) && DoAlloc(t, t', i, id, x)
    ensures TableOk(t')
  {
    if x != 0 {
      forall b | 0 <= b < NHASH ensures ListOk(t', b) {
        assert ListOk(t, b);
        var c := t.lists[b];
        forall j | 0 <= j < |t'.lists[b]| ensures ListedAt(t', b, j) {
          if b != Hash(id) { assert ListedAt(t, b, j); } else if j > 0 { assert ListedAt(t, b, j - 1); }
        }
        forall m, j | 0 <= m < j < |t'.lists[b]| ensures Apart(t'.lists[b], m, j) {
          if b != Hash(id) {
            assert Apart(c, m, j);
          } else {
            assert ListedAt(t, b, j - 1);
            if m > 0 { assert Apart(c, m - 1, j - 1); }
          }
        }
      }
      forall y | y in t'.ident ensures Linked(t', y) {
        if y != x {
          assert Linked(t, y);
        } else {
          assert t'.lists[Hash(id)][0] == x;
        }
      }
    } else {
      CountOk(t, t');
    }
  }

  lemma UnlinkOk(t: Table, t': Table, i: nat, x: nat, j: nat)
    requires TableOk(t) && DoRele(t, t', i, x, j) && t.count[x] == 1
    ensures TableOk(t')
  {
    var h := Hash(t.ident[x]);
    assert ListOk(t, h);
    forall b | 0 <= b < NHASH ensures ListOk(t', b) { UnlinkList(t, t', i, x, j, b); }
    forall y | y in t'.ident ensures Linked(t', y) {
      assert Linked(t, y);
      var b := Hash(t.ident[y]);
      var k :| 0 <= k < |t.lists[b]| && t.lists[b][k] == y;
      if b == h { assert t'.lists[b][if k < j then k else k - 1] == y; }
    }
  }

  lemma UnlinkList(t: Table, t': Table, i: nat, x: nat, j: nat, b: nat)
    requires TableOk(t) && DoRele(t, t', i, x, j) && t.count[x] == 1 && b < NHASH
    ensures ListOk(t', b)
  {
    var h := Hash(t.ident[x]);
    assert ListOk(t, b);
    var c, c' := t.lists[b], t'.lists[b];
    forall k | 0 <= k < |c'| ensures ListedAt(t', b, k) {
      var k0 := if b == h && k >= j then k + 1 else k;
      assert ListedAt(t, b, k0) && c'[k] == c[k0];
      if b == h { assert if k0 < j then Apart(c, k0, j) else Apart(c, j, k0); }
    }
    forall m, k | 0 <= m < k < |c'| ensures Apart(c', m, k) {
      var m0, k0 := if b == h && m >= j then m + 1 else m, if b == h && k >= j then k + 1 else k;
      assert Apart(c, m0, k0);
    }
  }

  lemma CountOk(t: Table, t': Table)
    requires TableOk(t) && t'.lists == t.lists && t'.ident == t.ident && t'.count.Keys == t.count.Keys
    ensures TableOk(t')
  {
    forall b | 0 <= b < NHASH ensures ListOk(t', b) {
      assert ListOk(t, b);
      forall j | 0 <= j < |t'.lists[b]| ensures ListedAt(t', b, j) { assert ListedAt(t, b, j); }
      forall i, j | 0 <= i < j < |t'.lists[b]| ensures Apart(t'.lists[b], i, j) { assert Apart(t.lists[b], i, j); }
    }
    forall x | x in t'.ident ensures Linked(t', x) { assert Linked(t, x); }
  }

  lemma StepOk(t: Table, t': Table)
    requires TableOk(t) && Step(t, t')
    ensures TableOk(t')
  {
    var i: nat :| MovedBy(t, t', i);
    if Acts(t, t', i) {
      match t.phase[i].op
      case Alloc(id) =>
        var x :| DoAlloc(t, t', i, id, x);
        AllocOk(t, t', i, id, x);
      case Hold(x) => CountOk(t, t');
      case Find(id) => CountOk(t, t');
      case Rele(x) =>
        var j :| DoRele(t, t', i, x, j);
        if t.count[x] == 1 { UnlinkOk(t, t', i, x, j); } else { CountOk(t, t'); }
    } else {
      CountOk(t, t');
    }
  }

  // ---------------------------------------------------------------- the calls

  /** foo_find returns nothing exactly if no object of the table has the id; else the newest
      one that has it, with one reference more. */
  predicate Finds(t: Table, t': Table, id: int, res: nat) {
    && t'.lists == t.lists && t'.ident == t.ident
    && if res == 0 then t'.count == t.count && forall x :: x in t.ident ==> t.ident[x] != id
       else
         && res in t.count && res in t.ident && t.ident[res] == id && t'.count == t.count[res := t.count[res] + 1]
         && Hash(id) < |t.lists| && Newest(t.lists[Hash(id)], t.ident, id, res)
  }

  predicate Newest(c: seq<nat>, ident: map<nat, int>, id: int, res: nat) {
    exists j :: 0 <= j < |c| && c[j] == res && NoneBefore(c, ident, id, j)
  }

  predicate NoneBefore(c: seq<nat>, ident: map<nat, int>, id: int, j: nat) {
    forall k :: 0 <= k < j && k < |c| ==> !(c[k] in ident && ident[c[k]] == id)
  }

  lemma FindFinds(t: Table, t': Table, i: nat, id: int)
    requires TableOk(t) && DoFind(t, t', i, id)
    ensures t'.phase[i].Done? && Finds(t, t', id, t'.phase[i].res)
  {
    var c := t.lists[Hash(id)];
    var j := First(c, t.ident, id);
    assert ListOk(t, Hash(id));
    if j == |c| {
      forall x | x in t.ident ensures t.ident[x] != id { assert Linked(t, x); }
    } else {
      assert ListedAt(t, Hash(id), j);
      assert NoneBefore(c, t.ident, id, j);
    }
  }

  /** What a call does to the table and what it returns, by its argument. */
  ghost predicate Means(t: Table, t': Table, op: Op, res: nat) {
    match op
    case Alloc(id) =>
      if res == 0 then t'.lists == t.lists && t'.count == t.count && t'.ident == t.ident
      else
        && res !in t.count && t'.count == t.count[res := 1] && t'.ident == t.ident[res := id]
        && |t.lists| == NHASH && t'.lists == t.lists[Hash(id) := [res] + t.lists[Hash(id)]]
    case Hold(x) =>
      x in t.count && t'.count == t.count[x := t.count[x] + 1] && t'.ident == t.ident && t'.lists == t.lists
    case Find(id) => Finds(t, t', id, res)
    case Rele(x) =>
      && x in t.count && x in t.ident
      && if t.count[x] != 1 then t'.count == t.count[x := t.count[x] - 1] && t'.ident == t.ident && t'.lists == t.lists
         else t'.count == t.count - {x} && t'.ident == t.ident - {x} && Gone(t, t', x)
  }

  /** x is on no list any more. */
  ghost predicate Gone(t: Table, t': Table, x: nat) {
    |t'.lists| == |t.lists| && forall b :: 0 <= b < |t'.lists| ==> x !in t'.lists[b]
  }

  lemma ActMeans(t: Table, t': Table, i: nat)
    requires TableOk(t) && Acts(t, t', i)
    ensures i < |t'.phase| && t'.phase[i].Done? && t'.phase[i].op == t.phase[i].op
    ensures Means(t, t', t.phase[i].op, t'.phase[i].res)
  {
    match t.phase[i].op
    case Alloc(id) =>
    case Hold(x) =>
    case Find(id) => FindFinds(t, t', i, id);
    case Rele(x) =>
      var j :| DoRele(t, t', i, x, j);
      if t.count[x] == 1 {
        UnlinkOk(t, t', i, x, j);
        forall b | 0 <= b < |t'.lists| ensures x !in t'.lists[b] {
          assert ListOk(t', b);
          forall k | 0 <= k < |t'.lists[b]| ensures t'.lists[b][k] != x { assert ListedAt(t', b, k); }
        }
      }
  }

  // ---------------------------------------------------------------- every run of the two-lock table

  /** A call acts between time k and time k + 1. */
  ghost predicate ActsAt(gs: seq<Table>, k: nat, i: nat)
    requires k + 1 < |gs|
  {
    i < |gs[k].phase| && gs[k].phase[i].Called? && i < |gs[k + 1].phase| && gs[k + 1].phase[i].Done?
  }

  lemma {:induction false} TablesOk(run: seq<M2.State>, gs: seq<Table>, k: nat)
    requires |gs| == |run| && k < |run| && Init(gs[0]) && forall n :: 0 <= n < |run| ==> R.Shows(run, gs, n)
    ensures TableOk(gs[k])
  {
    if k > 0 {
      TablesOk(run, gs, k - 1);
      assert R.Shows(run, gs, k);
      if gs[k] != gs[k - 1] { StepOk(gs[k - 1], gs[k]); }
    }
  }

  lemma ActsAlone(t: Table, t': Table, n: nat, i: nat)
    requires Acts(t, t', n) && i < |t.phase|
    ensures |t'.phase| == |t.phase| && (i != n ==> t'.phase[i] == t.phase[i])
  {
    match t.phase[n].op
    case Alloc(id) => var x :| DoAlloc(t, t', n, id, x);
    case Rele(x) => var j :| DoRele(t, t', n, x, j);
    case _ =>
  }

  lemma OneActs(t: Table, t': Table, i: nat)
    requires Step(t, t') && i < |t.phase| && i < |t'.phase| && t.phase[i].Called? && t'.phase[i].Done?
    ensures Acts(t, t', i)
  {
    var n: nat :| MovedBy(t, t', n);
    if Acts(t, t', n) { ActsAlone(t, t', n, i); }
  }

  /** In every run of the two-lock table, each call acts at one moment and there does what its
      argument says: a find gives nothing exactly if no object in the table has the id. */
  lemma RunMeans(run: seq<M2.State>) returns (gs: seq<Table>)
    requires M2.Run(run)
    ensures |gs| == |run| && Init(gs[0]) && forall n :: 0 <= n < |run| ==> R.Shows(run, gs, n) && TableOk(gs[n])
    ensures forall k, i: nat :: 0 <= k < |run| - 1 && ActsAt(gs, k, i) ==> MeansAt(gs, k, i)
  {
    var a;
    gs, a := R.RunRefines(run);
    forall n | 0 <= n < |run| ensures TableOk(gs[n]) { TablesOk(run, gs, n); }
    forall k, i: nat | 0 <= k < |run| - 1 && ActsAt(gs, k, i) ensures MeansAt(gs, k, i) {
      assert R.Shows(run, gs, k + 1);
      OneActs(gs[k], gs[k + 1], i);
      ActMeans(gs[k], gs[k + 1], i);
    }
  }

  ghost predicate MeansAt(gs: seq<Table>, k: nat, i: nat)
    requires k + 1 < |gs| && ActsAt(gs, k, i)
  {
    Means(gs[k], gs[k + 1], gs[k].phase[i].op, gs[k + 1].phase[i].res)
  }
}
