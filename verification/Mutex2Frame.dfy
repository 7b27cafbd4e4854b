/** Counting references, and what a step of one thread leaves alone for the others. */
module Mutex2Frame {
  import opened Mutex3
  import opened Mutex2
  import opened Mutex2Inv

  // ---------------------------------------------------------------- references

  lemma {:induction false} HandsUpdate(ts: seq<Thread>, i: nat, t: Thread, x: nat)
    requires i < |ts|
    ensures Hands(ts[i := t], x) == Hands(ts, x) - InHand(ts[i], x) + InHand(t, x)
  {
    if i == 0 {
      assert ts[i := t][1..] == ts[1..];
    } else {
      HandsUpdate(ts[1..], i - 1, t, x);
      assert ts[i := t][1..] == ts[1..][i - 1 := t];
    }
  }

  lemma {:induction false} HandsAt(ts: seq<Thread>, i: nat, x: nat)
    requires i < |ts|
    ensures Hands(ts, x) >= InHand(ts[i], x)
  {
    if i > 0 { HandsAt(ts[1..], i - 1, x); }
  }

  lemma {:induction false} HandsTwo(ts: seq<Thread>, i: nat, j: nat, x: nat)
    requires i < j < |ts|
    ensures Hands(ts, x) >= InHand(ts[i], x) + InHand(ts[j], x)
  {
    if i > 0 { HandsTwo(ts[1..], i - 1, j - 1, x); } else { HandsAt(ts[1..], j - 1, x); }
  }

  /** A thread with a reference in hand, past malloc, has an object of the table. */
  lemma RefLinked(s: State, a: Aux, i: nat)
    requires Inv(s, a) && i < |s.threads| && InHand(s.threads[i], s.threads[i].fp) > 0
    requires Inside(s.threads[i]) && !Fresh(s.threads[i])
    ensures var x := s.threads[i].fp;
            x in s.mem.objs && x in a.own && a.own[x] == Linked(Hash(s.mem.objs[x].id))
            && x in a.lists[Hash(s.mem.objs[x].id)]
            && s.mem.objs[x].count == Total(s, x) >= 1
  {
    var x := s.threads[i].fp;
    HandsAt(s.threads, i, x);
    assert Counted(s, a, x) && Owned(s, a, x);
    match a.own[x]
    case Linked(b) =>
      var j :| 0 <= j < |a.lists[b]| && a.lists[b][j] == x;
      assert Chain(s, a, b) && Node(s, a, b, j);
    case Private(k) =>
      assert Local(s, a, k);
      if i < k { HandsTwo(s.threads, i, k, x); } else { HandsTwo(s.threads, k, i, x); }
      assert false;
  }

  // ---------------------------------------------------------------- the footprint of a step

  ghost predicate ObjKept(s: State, a: Aux, s': State, a': Aux, i: nat, x: nat)
    requires i < |s.threads|
  {
    x in s.mem.objs && x in a.own ==>
      && (a.own[x].Private? && a.own[x].i != i ==>
            x in s'.mem.objs && s'.mem.objs[x] == s.mem.objs[x] && x in a'.own && a'.own[x] == a.own[x])
      && (a.own[x].Linked? ==> x in s'.mem.objs && s'.mem.objs[x].id == s.mem.objs[x].id)
      && (a.own[x].Linked? && !HoldsHash(s.threads[i]) ==>
            x in a'.own && a'.own[x] == a.own[x] && s'.mem.objs[x].next == s.mem.objs[x].next)
      && (a.own[x].Linked? && !(HoldsObj(s.threads[i]) && s.threads[i].fp == x) ==>
            s'.mem.objs[x].count == s.mem.objs[x].count && x in a'.own && a'.own[x].Linked?)
  }

  ghost predicate Foot(s: State, a: Aux, s': State, a': Aux, i: nat) {
    && i < |s.threads| == |s'.threads| == |a.pos| == |a'.pos|
    && |a.lists| == |a'.lists| == |s.mem.heads| == |s'.mem.heads| == NHASH
    && s'.threads == s.threads[i := s'.threads[i]] && a'.pos == a.pos[i := a'.pos[i]]
    && (!HoldsHash(s.threads[i]) ==> a'.lists == a.lists && s'.mem.heads == s.mem.heads)
    && forall x :: x in s.mem.objs ==> ObjKept(s, a, s', a', i, x)
  }

  lemma NodesKept(s: State, a: Aux, s': State, a': Aux, i: nat, b: nat)
    requires Inv(s, a) && Foot(s, a, s', a', i) && !HoldsHash(s.threads[i]) && b < NHASH
    ensures forall j :: 0 <= j < |a.lists[b]| ==> ObjAt(s'.mem, a.lists[b][j]).id == ObjAt(s.mem, a.lists[b][j]).id
  {
    assert Chain(s, a, b);
    forall j | 0 <= j < |a.lists[b]| ensures ObjAt(s'.mem, a.lists[b][j]).id == ObjAt(s.mem, a.lists[b][j]).id {
      assert Node(s, a, b, j) && ObjKept(s, a, s', a', i, a.lists[b][j]);
    }
  }

  lemma NoneMatchKept(s: State, s': State, c: seq<nat>, n: nat, id: int)
    requires NoneMatch(s.mem, c, n, id) && forall j :: 0 <= j < |c| ==> ObjAt(s'.mem, c[j]).id == ObjAt(s.mem, c[j]).id
    ensures NoneMatch(s'.mem, c, n, id)
  {
    forall j | 0 <= j < n ensures Mismatch(s'.mem, c, j, id) {
      assert Mismatch(s.mem, c, j, id);
    }
  }

  /** The list part of another thread, which holds hashlock. */
  lemma FrameList(s: State, a: Aux, s': State, a': Aux, i: nat, j: nat)
    requires Inv(s, a) && Foot(s, a, s', a', i) && j < |s.threads| && j != i && HoldsHash(s.threads[j])
    ensures OnList(s'.mem, a', s.threads[j], a.pos[j])
  {
    var t := s.threads[j];
    assert Local(s, a, j) && Exclusive(s, i, j);
    if t.pc.ASetHead? {
      assert ObjKept(s, a, s', a', i, t.fp);
    } else if Finding(t) {
      var b := Hash(t.op.id);
      NodesKept(s, a, s', a', i, b);
      NoneMatchKept(s, s', a.lists[b], a.pos[j], t.op.id);
    } else if Removing(t) {
      RefLinked(s, a, j);
      assert ObjKept(s, a, s', a', i, t.fp);
    }
  }

  lemma FrameCount(s: State, a: Aux, s': State, a': Aux, i: nat, j: nat)
    requires Inv(s, a) && Foot(s, a, s', a', i) && j < |s.threads| && j != i && HoldsObj(s.threads[j])
    ensures OnCount(s'.mem, s.threads[j])
  {
    var t := s.threads[j];
    assert Local(s, a, j) && Exclusive(s, i, j);
    if t.pc.RDec? || t.pc.RDecBoth? || Removing(t) {
      RefLinked(s, a, j);
      assert ObjKept(s, a, s', a', i, t.fp);
    }
  }

  /** Another thread's part of the invariant survives the step. */
  lemma FrameLocal(s: State, a: Aux, s': State, a': Aux, i: nat, j: nat)
    requires Inv(s, a) && Foot(s, a, s', a', i) && j < |s.threads| && j != i
    ensures Local(s', a', j)
  {
    var t := s.threads[j];
    assert Local(s, a, j);
    if HoldsHash(t) { FrameList(s, a, s', a', i, j); }
    if HoldsObj(t) { FrameCount(s, a, s', a', i, j); }
    if Fresh(t) || Dying(t) { assert ObjKept(s, a, s', a', i, t.fp); }
    if Unlocking(t) { assert Exclusive(s, i, j) && ObjKept(s, a, s', a', i, t.fp); }
  }

  lemma LocalsFrom(s: State, a: Aux, s': State, a': Aux, i: nat)
    requires Inv(s, a) && Foot(s, a, s', a', i) && LocalOf(s'.mem, a', i, s'.threads[i], a'.pos[i])
    ensures Locals(s', a')
  {
    forall j | 0 <= j < |s'.threads| ensures Local(s', a', j) {
      if j != i { FrameLocal(s, a, s', a', i, j); }
    }
  }

  lemma LocksFrom(s: State, s': State, i: nat)
    requires Locks(s) && i < |s.threads| == |s'.threads| && s'.threads == s.threads[i := s'.threads[i]]
    requires forall j :: 0 <= j < |s.threads| && j != i ==> Excludes(s'.threads[i], s.threads[j])
    ensures Locks(s')
  {
    forall j, m | 0 <= j < |s'.threads| && 0 <= m < |s'.threads| && j != m ensures Exclusive(s', j, m) {
      if j != i && m != i { assert Exclusive(s, j, m); }
      if m == i { assert Excludes(s'.threads[i], s.threads[j]); }
    }
  }

  predicate FewerLocks(t: Thread, u: Thread) {
    (HoldsHash(u) ==> HoldsHash(t)) && (HoldsObj(u) ==> HoldsObj(t) && u.fp == t.fp)
  }

  lemma KeepsLocks(s: State, i: nat, u: Thread)
    requires Locks(s) && i < |s.threads| && FewerLocks(s.threads[i], u)
    ensures forall j :: 0 <= j < |s.threads| && j != i ==> Excludes(u, s.threads[j])
  {
    forall j | 0 <= j < |s.threads| && j != i ensures Excludes(u, s.threads[j]) {
      assert Exclusive(s, i, j);
    }
  }

  /** A lock that was free is taken. */
  lemma TakesLock(s: State, i: nat, u: Thread)
    requires Locks(s) && i < |s.threads| && Enabled(s, i) && u.fp == s.threads[i].fp
    requires HoldsHash(u) ==> HoldsHash(s.threads[i]) || WantsHash(s.threads[i])
    requires HoldsObj(u) ==> HoldsObj(s.threads[i]) || WantsObj(s.threads[i])
    ensures forall j :: 0 <= j < |s.threads| && j != i ==> Excludes(u, s.threads[j])
  {
    forall j | 0 <= j < |s.threads| && j != i ensures Excludes(u, s.threads[j]) {
      assert Exclusive(s, i, j) && !Conflict(s.threads[i], s.threads[j]);
    }
  }

  // ---------------------------------------------------------------- lists

  /** Lists as before; linked objects keep their links. */
  lemma ListsSame(s: State, a: Aux, s': State, a': Aux)
    requires Lists(s, a) && s'.mem.heads == s.mem.heads && a'.lists == a.lists && a'.own.Keys == s'.mem.objs.Keys
    requires forall x :: x in s.mem.objs && a.own[x].Linked? ==> LinkKept(s, a, s', a', x)
    requires forall x :: x in s'.mem.objs ==> Owned(s', a', x)
    ensures Lists(s', a')
  {
    forall b | 0 <= b < NHASH ensures Chain(s', a', b) {
      assert Chain(s, a, b);
      forall j | 0 <= j < |a.lists[b]| ensures Node(s', a', b, j) {
        assert Node(s, a, b, j) && LinkKept(s, a, s', a', a.lists[b][j]);
      }
    }
  }

  ghost predicate LinkKept(s: State, a: Aux, s': State, a': Aux, x: nat) {
    x in s.mem.objs && x in s'.mem.objs && x in a.own && x in a'.own && a'.own[x] == a.own[x]
    && s'.mem.objs[x].next == s.mem.objs[x].next && s'.mem.objs[x].id == s.mem.objs[x].id
  }

  lemma ListsPush(s: State, a: Aux, s': State, a': Aux, b: nat, x: nat)
    requires Lists(s, a) && b < NHASH && x > 0 && x in s.mem.objs && a.own[x].Private? && s'.mem.objs == s.mem.objs
    requires s.mem.objs[x].next == s.mem.heads[b] && Hash(s.mem.objs[x].id) == b
    requires s'.mem.heads == s.mem.heads[b := x] && a'.lists == a.lists[b := [x] + a.lists[b]]
      && a'.own == a.own[x := Linked(b)]
    requires forall y :: y in s'.mem.objs ==> Owned(s', a', y)
    ensures Lists(s', a')
  {
    forall m | 0 <= m < NHASH ensures Chain(s', a', m) {
      assert Chain(s, a, m);
      var c, c' := a.lists[m], a'.lists[m];
      forall j | 0 <= j < |c'| ensures Node(s', a', m, j) {
        if m != b { assert Node(s, a, m, j); } else if j > 0 { assert Node(s, a, m, j - 1); }
      }
      forall j, n | 0 <= j < n < |c'| ensures Differ(c', j, n) {
        if m != b { assert Differ(c, j, n); } else {
          assert Node(s, a, m, n - 1);
          if j > 0 { assert Differ(c, j - 1, n - 1); }
        }
      }
    }
  }

  /** Object y keeps its id and, unless it is z, its link. */
  ghost predicate Unmoved(s: State, s': State, z: nat, y: nat) {
    y in s.mem.objs && y in s'.mem.objs && s'.mem.objs[y].id == s.mem.objs[y].id
    && ((y == z && z != 0) || s'.mem.objs[y].next == s.mem.objs[y].next)
  }

  /** Object at position j of list b is unlinked: the pointer to it becomes its next. */
  lemma ListsRemove(s: State, a: Aux, s': State, a': Aux, b: nat, j: nat, i: nat)
    requires Lists(s, a) && b < NHASH && j < |a.lists[b]| && s'.mem.objs.Keys == s.mem.objs.Keys
      && |s'.mem.heads| == NHASH
    requires a'.lists == a.lists[b := Without(a.lists[b], j)] && a'.own == a.own[a.lists[b][j] := Private(i)]
    requires forall m :: 0 <= m < NHASH ==>
      s'.mem.heads[m] == if m == b && j == 0 then PtrTo(a.lists[b], 1) else s.mem.heads[m]
    requires forall y :: y in s.mem.objs ==> Unmoved(s, s', if j == 0 then 0 else a.lists[b][j - 1], y)
    requires j > 0 ==>
      a.lists[b][j - 1] in s.mem.objs && s'.mem.objs[a.lists[b][j - 1]].next == PtrTo(a.lists[b], j + 1)
    requires forall y :: y in s'.mem.objs ==> Owned(s', a', y)
    ensures Lists(s', a')
  {
    var x := a.lists[b][j];
    assert Chain(s, a, b) && Node(s, a, b, j);
    forall m | 0 <= m < NHASH ensures Chain(s', a', m) {
      assert Chain(s, a, m);
      if m != b {
        forall n | 0 <= n < |a.lists[m]| ensures Node(s', a', m, n) {
          assert Node(s, a, m, n);
          assert j > 0 ==> Node(s, a, b, j - 1);
          assert Unmoved(s, s', if j == 0 then 0 else a.lists[b][j - 1], a.lists[m][n]);
        }
      } else {
        RemoveChain(s, a, s', a', b, j, i);
      }
    }
  }

  lemma RemoveChain(s: State, a: Aux, s': State, a': Aux, b: nat, j: nat, i: nat)
    requires |a.lists| == NHASH && b < NHASH && |s.mem.heads| == |s'.mem.heads| == NHASH && Chain(s, a, b)
      && j < |a.lists[b]|
    requires s'.mem.objs.Keys == s.mem.objs.Keys
    requires a'.lists == a.lists[b := Without(a.lists[b], j)] && a'.own == a.own[a.lists[b][j] := Private(i)]
    requires s'.mem.heads[b] == if j == 0 then PtrTo(a.lists[b], 1) else s.mem.heads[b]
    requires forall y :: y in s.mem.objs ==> Unmoved(s, s', if j == 0 then 0 else a.lists[b][j - 1], y)
    requires j > 0 ==>
      a.lists[b][j - 1] in s.mem.objs && s'.mem.objs[a.lists[b][j - 1]].next == PtrTo(a.lists[b], j + 1)
    ensures Chain(s', a', b)
  {
    var c, c' := a.lists[b], a'.lists[b];
    assert forall n :: 0 <= n < |c'| ==> c'[n] == if n < j then c[n] else c[n + 1];
    forall n | 0 <= n < |c'| ensures Node(s', a', b, n) {
      var n0 := if n < j then n else n + 1;
      assert Node(s, a, b, n0) && Unmoved(s, s', if j == 0 then 0 else c[j - 1], c[n0]);
      assert n0 < j ==> Differ(c, n0, j);
      assert j < n0 ==> Differ(c, j, n0);
      if n + 1 != j && j > 0 {
        assert n0 < j - 1 ==> Differ(c, n0, j - 1);
        assert j - 1 < n0 ==> Differ(c, j - 1, n0);
      }
    }
    forall n, m | 0 <= n < m < |c'| ensures Differ(c', n, m) {
      assert Differ(c, if n < j then n else n + 1, if m < j then m else m + 1);
    }
  }
}
