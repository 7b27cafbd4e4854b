/** The reference-counted table with one lock (mutex3.c).  hashlock covers the whole of
    every operation, so that each operation acts in one step between call and return. */
module Mutex3 {

  const NHASH := 29

  /** HASH(id): the id converted to unsigned long, modulo the table size. */
  function Hash(id: int): (b: nat)
    ensures b < NHASH
  {
    (id % 0x1_0000_0000_0000_0000) % NHASH
  }

  datatype Op = Alloc(id: int) | Hold(obj: nat) | Find(id: int) | Rele(obj: nat)

  datatype Phase = Idle | Called(op: Op) | Done(op: Op, res: nat)

  /** The lists of the table, newest first; the count and id of every object in it; the
      references that callers have; where each thread is. */
  datatype Table = Table(lists: seq<seq<nat>>, count: map<nat, int>, ident: map<nat, int>,
                         refs: multiset<nat>, phase: seq<Phase>)

  /** Position of the first object with this id, or the length. */
  function First(c: seq<nat>, ident: map<nat, int>, id: int): (j: nat)
    ensures j <= |c| && (j < |c| ==> c[j] in ident && ident[c[j]] == id)
    ensures forall k :: 0 <= k < j ==> !(c[k] in ident && ident[c[k]] == id)
  {
    if c == [] then 0
    else if c[0] in ident && ident[c[0]] == id then 0
    else 1 + First(c[1..], ident, id)
  }

  function Without(c: seq<nat>, j: nat): seq<nat>
    requires j < |c|
  {
    c[..j] + c[j + 1..]
  }

  /** References that the call takes from its caller: hold and release are for callers
      that have one. */
  function Takes(op: Op): multiset<nat> {
    match op
    case Hold(x) => multiset{x}
    case Rele(x) => multiset{x}
    case _ => multiset{}
  }

  /** References that the caller has after the call. */
  function Gives(op: Op, res: nat): multiset<nat> {
    match op
    case Alloc(_) => if res == 0 then multiset{} else multiset{res}
    case Find(_) => if res == 0 then multiset{} else multiset{res}
    case Hold(x) => multiset{x, x}
    case Rele(_) => multiset{}
  }

  ghost predicate Calls(t: Table, t': Table, i: nat, op: Op) {
    && i < |t.phase| && t.phase[i].Idle? && Takes(op) <= t.refs
    && t' == t.(refs := t.refs - Takes(op), phase := t.phase[i := Called(op)])
  }

  ghost predicate Returns(t: Table, t': Table, i: nat) {
    && i < |t.phase| && t.phase[i].Done?
    && t' == t.(refs := t.refs + Gives(t.phase[i].op, t.phase[i].res), phase := t.phase[i := Idle])
  }

  /** foo_alloc: no memory, or a new object at the front of its list with count 1. */
  ghost predicate DoAlloc(t: Table, t': Table, i: nat, id: int, x: nat) {
    && |t.lists| == NHASH && i < |t.phase|
    && if x == 0 then t' == t.(phase := t.phase[i := Done(Alloc(id), 0)]) else
       && x !in t.count
       && t' == t.(lists := t.lists[Hash(id) := [x] + t.lists[Hash(id)]], count := t.count[x := 1],
                   ident := t.ident[x := id], phase := t.phase[i := Done(Alloc(id), x)])
  }

  ghost predicate DoHold(t: Table, t': Table, i: nat, x: nat) {
    && i < |t.phase| && x in t.count
    && t' == t.(count := t.count[x := t.count[x] + 1], phase := t.phase[i := Done(Hold(x), 0)])
  }

  /** foo_find: the first object with the id gets one more reference. */
  ghost predicate DoFind(t: Table, t': Table, i: nat, id: int) {
    && |t.lists| == NHASH && i < |t.phase|
    && var c := t.lists[Hash(id)];
    && var j := First(c, t.ident, id);
    && if j == |c| then t' == t.(phase := t.phase[i := Done(Find(id), 0)]) else
       && c[j] in t.count
       && t' == t.(count := t.count[c[j] := t.count[c[j]] + 1], phase := t.phase[i := Done(Find(id), c[j])])
  }

  /** foo_rele: one reference less; the last one takes the object out of the table. */
  ghost predicate DoRele(t: Table, t': Table, i: nat, x: nat, j: nat) {
    && |t.lists| == NHASH && i < |t.phase| && x in t.count && x in t.ident
    && if t.count[x] != 1 then
         t' == t.(count := t.count[x := t.count[x] - 1], phase := t.phase[i := Done(Rele(x), 0)])
       else
         var b := Hash(t.ident[x]);
         && j < |t.lists[b]| && t.lists[b][j] == x
         && t' == t.(lists := t.lists[b := Without(t.lists[b], j)], count := t.count - {x}, ident := t.ident - {x},
                     phase := t.phase[i := Done(Rele(x), 0)])
  }

  ghost predicate Acts(t: Table, t': Table, i: nat) {
    i < |t.phase| && t.phase[i].Called? &&
    match t.phase[i].op
    case Alloc(id) => exists x :: DoAlloc(t, t', i, id, x)
    case Hold(x) => DoHold(t, t', i, x)
    case Find(id) => DoFind(t, t', i, id)
    case Rele(x) => exists j :: DoRele(t, t', i, x, j)
  }

  ghost predicate MovedBy(t: Table, t': Table, i: nat) {
    (exists op :: Calls(t, t', i, op)) || Acts(t, t', i) || Returns(t, t', i)
  }

  ghost predicate Step(t: Table, t': Table) { exists i :: MovedBy(t, t', i) }

  predicate Init(t: Table) {
    && t.lists == seq(NHASH, _ => [])
    && t.count == map[] && t.ident == map[] && t.refs == multiset{}
    && forall i :: 0 <= i < |t.phase| ==> t.phase[i].Idle?
  }
}
