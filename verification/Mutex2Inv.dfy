/** The invariant of the two-level table, and the single-lock table that a state stands for. */
module Mutex2Inv {
  import opened Mutex3
  import opened Mutex2

  /** An object is on list b of the table, or private to thread i: not yet linked, or
      unlinked and about to be freed. */
  datatype Owner = Linked(b: nat) | Private(i: nat)

  /** The lists in link order, the owners, and each thread's position in its list. */
  datatype Aux = Aux(lists: seq<seq<nat>>, own: map<nat, Owner>, pos: seq<nat>)

  predicate Fresh(t: Thread) { t.pc.AWantHash? || t.pc.ASetNext? || t.pc.ASetHead? }

  predicate Dying(t: Thread) { t.pc.RDropHash? || t.pc.RDropObj? || t.pc.RFree? }

  /** The thread has let go of its reference but not yet of the object's lock. */
  predicate Unlocking(t: Thread) { t.pc.RDropObjBoth? || t.pc.RDropDec? }

  /** References to x that the thread has in hand inside a call. */
  function InHand(t: Thread, x: nat): nat {
    match t.pc
    case Out => 0
    case Ret => Gives(t.op, t.res)[x]
    case AMalloc => 0
    case HDropObj => if t.fp == x then 2 else 0
    case FWantHash => 0
    case FFirst => 0
    case FWalk => 0
    case FWantObj => 0
    case FInc => 0
    case FDropHash => if t.fp == x && x != 0 then 1 else 0
    case RDropObjBoth => 0
    case RDropHashBoth => 0
    case RDropHash => 0
    case RDropObj => 0
    case RFree => 0
    case RDropDec => 0
    case _ => if t.fp == x then 1 else 0
  }

  function Hands(ts: seq<Thread>, x: nat): nat {
    if ts == [] then 0 else InHand(ts[0], x) + Hands(ts[1..], x)
  }

  /** All references to x: those of callers and those inside calls. */
  function Total(s: State, x: nat): nat { s.refs[x] + Hands(s.threads, x) }

  // ---------------------------------------------------------------- lists and owners

  function PtrTo(c: seq<nat>, j: nat): nat { if j < |c| then c[j] else 0 }

  ghost predicate Node(s: State, a: Aux, b: nat, j: nat)
    requires b < |a.lists| && j < |a.lists[b]|
  {
    var x := a.lists[b][j];
    && x > 0 && x in s.mem.objs && x in a.own && a.own[x] == Linked(b)
    && s.mem.objs[x].next == PtrTo(a.lists[b], j + 1)
    && Hash(s.mem.objs[x].id) == b
  }

  predicate Differ(c: seq<nat>, i: nat, j: nat)
    requires i < |c| && j < |c|
  {
    c[i] != c[j]
  }

  ghost predicate Chain(s: State, a: Aux, b: nat)
    requires b < |a.lists| && b < |s.mem.heads|
  {
    && s.mem.heads[b] == PtrTo(a.lists[b], 0)
    && (forall j :: 0 <= j < |a.lists[b]| ==> Node(s, a, b, j))
    && (forall i, j :: 0 <= i < j < |a.lists[b]| ==> Differ(a.lists[b], i, j))
  }

  ghost predicate Owned(s: State, a: Aux, x: nat) {
    x > 0 && x in a.own &&
    match a.own[x]
    case Linked(b) => b < |a.lists| && x in a.lists[b]
    case Private(i) => i < |s.threads| && (Fresh(s.threads[i]) || Dying(s.threads[i])) && s.threads[i].fp == x
  }

  ghost predicate Lists(s: State, a: Aux) {
    && |s.mem.heads| == |a.lists| == NHASH
    && a.own.Keys == s.mem.objs.Keys
    && (forall b :: 0 <= b < NHASH ==> Chain(s, a, b))
    && (forall x :: x in s.mem.objs ==> Owned(s, a, x))
  }

  // ---------------------------------------------------------------- counts

  predicate IsDying(s: State, a: Aux, x: nat) {
    x in a.own && a.own[x].Private? && a.own[x].i < |s.threads| && Dying(s.threads[a.own[x].i])
  }

  /** The count of an object is the number of references to it; an object that is gone or
      about to be freed has none. */
  ghost predicate Counted(s: State, a: Aux, x: nat) {
    if x in s.mem.objs && !IsDying(s, a, x) then s.mem.objs[x].count == Total(s, x) else Total(s, x) == 0
  }

  ghost predicate Counts(s: State, a: Aux) { forall x: nat :: Counted(s, a, x) }

  // ---------------------------------------------------------------- threads

  predicate Excludes(t: Thread, u: Thread) {
    && !(HoldsHash(t) && HoldsHash(u))
    && !(HoldsObj(t) && HoldsObj(u) && t.fp == u.fp)
  }

  ghost predicate Exclusive(s: State, i: nat, j: nat)
    requires i < |s.threads| && j < |s.threads|
  {
    Excludes(s.threads[i], s.threads[j])
  }

  ghost predicate Locks(s: State) {
    forall i, j :: 0 <= i < |s.threads| && 0 <= j < |s.threads| && i != j ==> Exclusive(s, i, j)
  }

  predicate Mismatch(m: Mem, c: seq<nat>, j: nat, id: int)
    requires j < |c|
  {
    ObjAt(m, c[j]).id != id
  }

  ghost predicate NoneMatch(m: Mem, c: seq<nat>, n: nat, id: int) {
    n <= |c| && forall j :: 0 <= j < n ==> Mismatch(m, c, j, id)
  }

  predicate NotAt(c: seq<nat>, j: nat, x: nat)
    requires j < |c|
  {
    c[j] != x
  }

  ghost predicate NotUpTo(c: seq<nat>, n: nat, x: nat) {
    n < |c| && forall j :: 0 <= j <= n ==> NotAt(c, j, x)
  }

  predicate Finding(t: Thread) { t.pc.FWalk? || t.pc.FWantObj? || t.pc.FInc? }

  predicate Removing(t: Thread) { t.pc.RFirst? || t.pc.RUnlinkHead? || t.pc.RSearch? || t.pc.RUnlinkMid? }

  predicate Finds(t: Thread) {
    t.pc.FWantHash? || t.pc.FFirst? || Finding(t) || t.pc.FDropObj? || t.pc.FDropHash?
  }

  predicate Holding(t: Thread) { t.pc.HWantObj? || t.pc.HInc? || t.pc.HDropObj? }

  predicate Allocs(t: Thread) {
    Fresh(t) || t.pc.AMalloc? || t.pc.AWantObj? || t.pc.ADropHash? || t.pc.ADropObj?
  }

  predicate Inside(t: Thread) { !t.pc.Out? && !t.pc.Ret? }

  predicate PcFits(t: Thread) {
    Inside(t) ==>
      match t.op
      case Alloc(_) => Allocs(t)
      case Hold(x) => Holding(t) && t.fp == x
      case Find(_) => Finds(t)
      case Rele(x) => !Allocs(t) && !Holding(t) && !Finds(t) && t.fp == x
  }

  /** Where the thread is in its list; it holds hashlock. */
  ghost predicate OnList(m: Mem, a: Aux, t: Thread, pos: nat)
    requires |a.lists| == NHASH
  {
    && (t.pc.ASetHead? ==> ObjAt(m, t.fp).next == HeadAt(m, Hash(ObjAt(m, t.fp).id)))
    && (Finding(t) && t.op.Find? ==>
          NoneMatch(m, a.lists[Hash(t.op.id)], pos, t.op.id) && t.fp == PtrTo(a.lists[Hash(t.op.id)], pos))
    && ((t.pc.FWantObj? || t.pc.FInc?) && t.op.Find? ==>
          pos < |a.lists[Hash(t.op.id)]| && ObjAt(m, t.fp).id == t.op.id)
    && (t.pc.RUnlinkHead? ==> HeadAt(m, Hash(ObjAt(m, t.fp).id)) == t.fp)
    && (t.pc.RSearch? || t.pc.RUnlinkMid? ==>
          var c := a.lists[Hash(ObjAt(m, t.fp).id)];
          NotUpTo(c, pos, t.fp) && t.tfp == c[pos])
    && (t.pc.RUnlinkMid? ==>
          var c := a.lists[Hash(ObjAt(m, t.fp).id)];
          pos + 1 < |c| && c[pos + 1] == t.fp)
  }

  /** What the thread knows of the count of its object; it holds the object's lock. */
  predicate OnCount(m: Mem, t: Thread) {
    && (t.pc.RDec? || t.pc.RDecBoth? ==> ObjAt(m, t.fp).count != 1)
    && (Removing(t) ==> ObjAt(m, t.fp).count == 1)
  }

  /** What holds of thread i in state t at position pos. */
  ghost predicate LocalOf(m: Mem, a: Aux, i: nat, t: Thread, pos: nat)
    requires |a.lists| == NHASH
  {
    && PcFits(t)
    && (HoldsHash(t) ==> OnList(m, a, t, pos))
    && (HoldsObj(t) ==> OnCount(m, t))
    && (Fresh(t) || Dying(t) ==> t.fp in m.objs && t.fp in a.own && a.own[t.fp] == Private(i))
    && (Unlocking(t) ==> t.fp in m.objs && t.fp in a.own && a.own[t.fp].Linked?)
    && (Fresh(t) && t.op.Alloc? ==> ObjAt(m, t.fp).id == t.op.id && ObjAt(m, t.fp).count == 1)
    && (t.pc.FDropObj? || t.pc.FWantObj? || t.pc.FInc? || t.pc.AWantObj? || t.pc.ADropHash? || t.pc.ADropObj?
      ==> t.fp != 0)
  }

  ghost predicate Local(s: State, a: Aux, i: nat)
    requires i < |s.threads| && i < |a.pos| && |a.lists| == NHASH
  {
    LocalOf(s.mem, a, i, s.threads[i], a.pos[i])
  }

  ghost predicate Locals(s: State, a: Aux) {
    |a.pos| == |s.threads| && |a.lists| == NHASH && forall i :: 0 <= i < |s.threads| ==> Local(s, a, i)
  }

  ghost predicate Inv(s: State, a: Aux) {
    Lists(s, a) && Counts(s, a) && Locks(s) && Locals(s, a)
  }

  // ---------------------------------------------------------------- the single-lock table

  function PhaseOf(t: Thread): Phase {
    match t.pc
    case Out => Idle
    case Ret => Done(t.op, t.res)
    case AWantObj => Done(t.op, t.fp)
    case ADropHash => Done(t.op, t.fp)
    case ADropObj => Done(t.op, t.fp)
    case HDropObj => Done(t.op, 0)
    case FDropObj => Done(t.op, t.fp)
    case FDropHash => Done(t.op, t.fp)
    case RDropObjBoth => Done(t.op, 0)
    case RDropHashBoth => Done(t.op, 0)
    case RDropHash => Done(t.op, 0)
    case RDropObj => Done(t.op, 0)
    case RFree => Done(t.op, 0)
    case RDropDec => Done(t.op, 0)
    case _ => Called(t.op)
  }

  function Phases(ts: seq<Thread>): (r: seq<Phase>)
    ensures |r| == |ts| && forall i :: 0 <= i < |ts| ==> r[i] == PhaseOf(ts[i])
  {
    seq(|ts|, i requires 0 <= i < |ts| => PhaseOf(ts[i]))
  }

  function Abs(s: State, a: Aux): Table {
    Table(a.lists,
          map x | x in s.mem.objs && x in a.own && a.own[x].Linked? :: s.mem.objs[x].count,
          map x | x in s.mem.objs && x in a.own && a.own[x].Linked? :: s.mem.objs[x].id,
          s.refs, Phases(s.threads))
  }
}
