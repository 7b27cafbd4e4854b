/** The invariant of the concurrent database: which record is where, in terms of lists and
    maps that the files only imply. */
module DbInvariant {
  import opened Basics
  import opened DbFormat
  import opened DbSteps

  /** A record is on one list (0 is the free list) or in the hands of one process. */
  datatype Owner = Listed(k: nat) | HeldBy(i: nat)

  /** Positions of a process in its chain and in the free list, and the entries of its
      chain when it locked it. */
  datatype Info = Info(pos: nat, fpos: nat, base: map<string, string>)

  /** The lists in link order; the owner of each record; the pointers that a delete has
      yet to rewrite, with the deleting process; the entries of each chain. */
  datatype Aux = Aux(chains: seq<seq<nat>>, own: map<nat, Owner>, fix: map<Slot, nat>,
                     view: seq<map<string, string>>, info: seq<Info>)

  ghost predicate Shapes(s: State, a: Aux) {
    && |s.disk.heads| == |a.chains| == |a.view| == SLOTS
    && |a.info| == |s.procs|
    && a.own.Keys == s.disk.recs.Keys
  }

  function PtrTo(c: seq<nat>, j: nat): nat { if j < |c| then c[j] else 0 }

  /** Where the pointer to position j of list k is kept. */
  function SlotOf(k: nat, c: seq<nat>, j: nat): Slot {
    if 0 < j <= |c| then Link(c[j - 1]) else Head(k)
  }

  function Without(c: seq<nat>, j: nat): seq<nat>
    requires j < |c|
  {
    c[..j] + c[j + 1..]
  }

  // ---------------------------------------------------------------- what the program counters mean

  /** The process has the record at its off in its hands. */
  predicate HasRecord(p: Proc) {
    || p.pc.DelReadFree? || p.pc.DelIdx? || p.pc.DelFreeHead? || p.pc.SUnlockHit? || p.pc.SDat?
    || p.pc.SIdx? || p.pc.AUnlockIdx? || p.pc.SLink?
  }

  /** The pointer that led to a deleted record still has to be rewritten. */
  predicate Pending(p: Proc) {
    p.pc.DelReadFree? || p.pc.DelIdx? || p.pc.DelFreeHead? || p.pc.DelChain?
  }

  /** The process has appended a data record that no index record names yet. */
  predicate HasClaim(p: Proc) {
    p.pc.AUnlockDat? || p.pc.WantIdx? || p.pc.AIdx?
  }

  predicate Deleting(p: Proc) {
    || p.pc.WantFreeD? || p.pc.DelDat? || p.pc.DelReadFree? || p.pc.DelIdx? || p.pc.DelFreeHead?
    || p.pc.DelChain? || p.pc.DelUnlockFree?
  }

  predicate Inserting(p: Proc) {
    || p.pc.StReadHead? || p.pc.WantFreeS? || p.pc.SReadFree? || p.pc.SWalk? || p.pc.STake?
    || p.pc.SUnlockHit? || p.pc.SUnlockMiss? || p.pc.SDat? || p.pc.SIdx? || p.pc.AReadHead?
    || p.pc.WantDat? || p.pc.ADat? || p.pc.AUnlockDat? || p.pc.WantIdx? || p.pc.AIdx?
    || p.pc.AUnlockIdx? || p.pc.SLink?
  }

  predicate AtRecord(p: Proc) {
    p.pc.FetchDat? || p.pc.StOver? || p.pc.WantFreeD? || p.pc.DelDat?
  }

  /** ptrval is the head of the process's chain. */
  predicate KnowsHead(p: Proc) {
    Inserting(p) && !p.pc.StReadHead? && !p.pc.AReadHead?
  }

  predicate PcFits(p: Proc) {
    && (p.pc.FetchDat? ==> p.op.FetchOp?)
    && (p.pc.StOver? || Inserting(p) ==> p.op.StoreOp?)
    && (Deleting(p) ==> !p.op.FetchOp?)
  }

  // ---------------------------------------------------------------- lists

  /** The pointer in a slot, with the rewrites that are still due taken as done. */
  function Eff(s: State, a: Aux, slot: Slot): nat {
    if slot in a.fix && a.fix[slot] < |s.procs| then s.procs[a.fix[slot]].rec.ptr else Phys(s.disk, slot)
  }

  ghost predicate Node(s: State, a: Aux, k: nat, j: nat)
    requires k < |a.chains| && j < |a.chains[k]|
  {
    var x := a.chains[k][j];
    && x > 0
    && x in s.disk.recs
    && x in a.own && a.own[x] == Listed(k)
    && Eff(s, a, Link(x)) == PtrTo(a.chains[k], j + 1)
  }

  predicate Differ(c: seq<nat>, i: nat, j: nat)
    requires i < |c| && j < |c|
  {
    c[i] != c[j]
  }

  ghost predicate Chain(s: State, a: Aux, k: nat)
    requires k < |a.chains|
  {
    && Eff(s, a, Head(k)) == PtrTo(a.chains[k], 0)
    && (forall j :: 0 <= j < |a.chains[k]| ==> Node(s, a, k, j))
    && (forall i, j :: 0 <= i < j < |a.chains[k]| ==> Differ(a.chains[k], i, j))
  }

  ghost predicate Owned(s: State, a: Aux, x: nat) {
    x in a.own &&
    match a.own[x]
    case Listed(k) => k < |a.chains| && x in a.chains[k]
    case HeldBy(i) => i < |s.procs| && HasRecord(s.procs[i]) && s.procs[i].off == x
  }

  ghost predicate Fixed(s: State, a: Aux, slot: Slot)
    requires slot in a.fix
  {
    a.fix[slot] < |s.procs| && Pending(s.procs[a.fix[slot]]) && s.procs[a.fix[slot]].ptroff == slot
  }

  /** Every record is on exactly one acyclic list or held by exactly one process. */
  ghost predicate Lists(s: State, a: Aux) {
    && (forall k :: 0 <= k < |a.chains| ==> Chain(s, a, k))
    && (forall x :: x in s.disk.recs ==> Owned(s, a, x))
    && (forall slot :: slot in a.fix ==> Fixed(s, a, slot))
  }

  // ---------------------------------------------------------------- extents

  predicate Apart(lo: nat, n: nat, lo': nat, n': nat) { lo + n <= lo' || lo' + n' <= lo }

  predicate InData(d: Disk, off: nat, len: nat) { 1 <= len && off + len <= |d.dat| }

  /** Record x lies before the end of the index file, and its data record in the data file. */
  ghost predicate Placed(d: Disk, x: nat)
    requires x in d.recs
  {
    && RECS_OFF <= x && x + Size(d.recs[x]) <= d.end
    && InData(d, d.recs[x].datoff, d.recs[x].datlen)
  }

  /** Records x and y share no byte in either file. */
  ghost predicate Separate(d: Disk, x: nat, y: nat)
    requires x in d.recs && y in d.recs
  {
    && Apart(d.recs[x].datoff, d.recs[x].datlen, d.recs[y].datoff, d.recs[y].datlen)
    && Apart(x, Size(d.recs[x]), y, Size(d.recs[y]))
  }

  function ClaimLen(p: Proc): nat { |DataOf(p.op)| + 1 }

  ghost predicate Claimed(s: State, i: nat)
    requires i < |s.procs|
  {
    HasClaim(s.procs[i]) ==>
      && InData(s.disk, s.procs[i].datoff, ClaimLen(s.procs[i]))
      && s.disk.dat[s.procs[i].datoff..s.procs[i].datoff + ClaimLen(s.procs[i]) - 1] == DataOf(s.procs[i].op)
  }

  ghost predicate ClaimApart(s: State, i: nat, x: nat)
    requires i < |s.procs| && x in s.disk.recs
  {
    HasClaim(s.procs[i]) ==>
      Apart(s.procs[i].datoff, ClaimLen(s.procs[i]), s.disk.recs[x].datoff, s.disk.recs[x].datlen)
  }

  ghost predicate ClaimsApart(s: State, i: nat, j: nat)
    requires i < |s.procs| && j < |s.procs|
  {
    HasClaim(s.procs[i]) && HasClaim(s.procs[j]) ==>
      Apart(s.procs[i].datoff, ClaimLen(s.procs[i]), s.procs[j].datoff, ClaimLen(s.procs[j]))
  }

  ghost predicate Extents(s: State) {
    && RECS_OFF <= s.disk.end
    && (forall x :: x in s.disk.recs ==> Placed(s.disk, x))
    && (forall x, y :: x in s.disk.recs && y in s.disk.recs && x != y ==> Separate(s.disk, x, y))
    && (forall i :: 0 <= i < |s.procs| ==> Claimed(s, i))
    && (forall i, x :: 0 <= i < |s.procs| && x in s.disk.recs ==> ClaimApart(s, i, x))
    && (forall i, j :: 0 <= i < |s.procs| && 0 <= j < |s.procs| && i != j ==> ClaimsApart(s, i, j))
  }

  // ---------------------------------------------------------------- entries

  ghost predicate Entry(s: State, a: Aux, k: nat, j: nat)
    requires k < |a.chains| && k < |a.view| && j < |a.chains[k]|
  {
    var r := RecordAt(s.disk, a.chains[k][j]);
    && 1 + Hash(r.key) == k
    && r.key in a.view[k]
    && a.view[k][r.key] == DataAt(s.disk, r)
  }

  ghost predicate KeysDiffer(s: State, a: Aux, k: nat, i: nat, j: nat)
    requires k < |a.chains| && i < |a.chains[k]| && j < |a.chains[k]|
  {
    RecordAt(s.disk, a.chains[k][i]).key != RecordAt(s.disk, a.chains[k][j]).key
  }

  ghost predicate HasKey(s: State, a: Aux, k: nat, j: nat, key: string)
    requires k < |a.chains| && j < |a.chains[k]|
  {
    RecordAt(s.disk, a.chains[k][j]).key == key
  }

  ghost predicate Stored(s: State, a: Aux, k: nat, key: string)
    requires k < |a.chains|
  {
    exists j :: 0 <= j < |a.chains[k]| && HasKey(s, a, k, j, key)
  }

  /** Chain k represents view[k]. */
  ghost predicate View(s: State, a: Aux, k: nat)
    requires k < |a.chains| && k < |a.view|
  {
    && (forall j :: 0 <= j < |a.chains[k]| ==> Entry(s, a, k, j))
    && (forall i, j :: 0 <= i < j < |a.chains[k]| ==> KeysDiffer(s, a, k, i, j))
    && (forall key :: key in a.view[k] ==> Stored(s, a, k, key))
  }

  ghost predicate Views(s: State, a: Aux) {
    |a.view| == |a.chains| && forall k :: 1 <= k < |a.chains| ==> View(s, a, k)
  }

  // ---------------------------------------------------------------- processes

  predicate Excludes(p: Proc, q: Proc) {
    && (HoldsChain(p) && HoldsChain(q) && Bucket(p.op) == Bucket(q.op) ==> p.op.FetchOp? && q.op.FetchOp?)
    && !(HoldsFree(p) && HoldsFree(q))
    && !(HoldsDat(p) && HoldsDat(q))
    && !(HoldsIdx(p) && HoldsIdx(q))
  }

  ghost predicate Exclusive(s: State, i: nat, j: nat)
    requires i < |s.procs| && j < |s.procs|
  {
    Excludes(s.procs[i], s.procs[j])
  }

  ghost predicate Locks(s: State) {
    forall i, j :: 0 <= i < |s.procs| && 0 <= j < |s.procs| && i != j ==> Exclusive(s, i, j)
  }

  predicate KeyMismatch(d: Disk, c: seq<nat>, b: nat, key: string)
    requires b < |c|
  {
    RecordAt(d, c[b]).key != key
  }

  predicate NoneMatch(d: Disk, c: seq<nat>, n: nat, key: string) {
    n <= |c| && forall b :: 0 <= b < n ==> KeyMismatch(d, c, b, key)
  }

  /** The part of the invariant about the chain of process p. */
  ghost predicate OnChain(d: Disk, p: Proc, c: seq<nat>, inf: Info) {
    var k := Bucket(p.op);
    && (p.pc.Walk? ==>
          NoneMatch(d, c, inf.pos, p.op.key) && p.off == PtrTo(c, inf.pos) && p.ptroff == SlotOf(k, c, inf.pos))
    && (AtRecord(p) ==>
          && inf.pos < |c| && p.off == c[inf.pos] && p.ptroff == SlotOf(k, c, inf.pos)
          && p.rec == RecordAt(d, p.off) && p.rec.key == p.op.key)
    && (p.pc.StOver? ==> p.rec.datlen == |DataOf(p.op)| + 1)
    && (Pending(p) ==> inf.pos <= |c| && p.ptroff == SlotOf(k, c, inf.pos) && p.rec.ptr == PtrTo(c, inf.pos))
    && (KnowsHead(p) ==> p.ptrval == PtrTo(c, 0))
  }

  /** The part about the free list. */
  ghost predicate OnFree(d: Disk, p: Proc, f: seq<nat>, inf: Info) {
    && (p.pc.SWalk? ==> inf.fpos <= |f| && p.foff == PtrTo(f, inf.fpos) && p.saveoff == SlotOf(0, f, inf.fpos))
    && (p.pc.STake? ==>
          && inf.fpos < |f| && p.off == f[inf.fpos] && p.saveoff == SlotOf(0, f, inf.fpos)
          && p.rec == RecordAt(d, p.off) && ReuseFits(p, p.rec))
    && (p.pc.DelIdx? || p.pc.DelFreeHead? ==> p.ptrval == PtrTo(f, 0))
  }

  predicate ReuseFits(p: Proc, r: Rec) {
    |r.key| == |p.op.key| && r.datlen == |DataOf(p.op)| + 1 && r.datoff == p.datoff
  }

  /** The part about the record that the process holds. */
  ghost predicate OnHeld(d: Disk, p: Proc, i: nat, own: map<nat, Owner>) {
    && p.off > 0 && p.off in d.recs && p.off in own && own[p.off] == HeldBy(i)
    && (p.pc.DelReadFree? || p.pc.DelIdx? ==> p.rec == RecordAt(d, p.off))
    && (p.pc.DelFreeHead? ==> RecordAt(d, p.off) == FreedRec(p))
    && (p.pc.SUnlockHit? || p.pc.SDat? || p.pc.SIdx? ==> ReuseFits(p, RecordAt(d, p.off)))
    && (p.pc.SIdx? ==> DataAt(d, RecordAt(d, p.off)) == DataOf(p.op))
    && (p.pc.AUnlockIdx? || p.pc.SLink? ==>
          RecordAt(d, p.off) == NewRec(p) && DataAt(d, NewRec(p)) == DataOf(p.op))
  }

  /** What the operation does to the entries of its chain, done in one step. */
  function Apply(op: Op, m: map<string, string>): (map<string, string>, Result) {
    match op
    case FetchOp(key) => (m, Data(if key in m then Some(m[key]) else None))
    case DeleteOp(key) => if key in m then (m - {key}, Code(0)) else (m, Code(-1))
    case StoreOp(key, data, flag) =>
      if key in m && flag.Insert? then (m, Code(1))
      else if key !in m && flag.Replace? then (m, Code(-1))
      else (m[key := data], Code(0))
  }

  /** The entries before and after a call of op with result res, by its arguments. */
  predicate Means(op: Op, m: map<string, string>, m': map<string, string>, res: Result) {
    match op
    case FetchOp(key) => m' == m && res == Data(if key in m then Some(m[key]) else None)
    case DeleteOp(key) => if key in m then m' == m - {key} && res == Code(0) else m' == m && res == Code(-1)
    case StoreOp(key, data, flag) =>
      match flag
      case Insert => if key in m then m' == m && res == Code(1) else m' == m[key := data] && res == Code(0)
      case Replace => if key in m then m' == m[key := data] && res == Code(0) else m' == m && res == Code(-1)
      case StoreAny => m' == m[key := data] && res == Code(0)
  }

  lemma ApplyMeans(op: Op, m: map<string, string>)
    ensures Means(op, m, Apply(op, m).0, Apply(op, m).1)
  {
  }

  /** The entries of the chain now against those when it was locked. */
  ghost predicate OnView(p: Proc, view: map<string, string>, base: map<string, string>) {
    && (p.pc.ReadHead? || p.pc.Walk? || AtRecord(p) ==> view == base)
    && (AtRecord(p) ==> p.op.key in base)
    && (Pending(p) || p.pc.DelUnlockFree? ==> view == base - {p.op.key} && p.op.key in base)
    && (p.pc.StOver? || Deleting(p) ==> p.op.StoreOp? ==> !p.op.flag.Insert?)
    && (Inserting(p) ==>
          p.op.StoreOp? && view == base - {p.op.key} && Apply(p.op, base) == (base[p.op.key := p.op.data], Code(0)))
    && (p.pc.Unlock? ==> (view, p.res) == Apply(p.op, base))
  }

  /** All of it for process i in state p. */
  ghost predicate LocalOf(d: Disk, p: Proc, i: nat, a: Aux, inf: Info)
    requires |a.chains| == |a.view| == SLOTS
  {
    var k := Bucket(p.op);
    && PcFits(p)
    && (HoldsChain(p) ==> OnChain(d, p, a.chains[k], inf) && OnView(p, a.view[k], inf.base))
    && (HoldsFree(p) ==> OnFree(d, p, a.chains[0], inf))
    && (HasRecord(p) ==> OnHeld(d, p, i, a.own))
    && (Pending(p) ==> p.ptroff in a.fix && a.fix[p.ptroff] == i)
  }

  ghost predicate Local(s: State, a: Aux, i: nat)
    requires i < |s.procs| && i < |a.info| && |a.chains| == |a.view| == SLOTS
  {
    LocalOf(s.disk, s.procs[i], i, a, a.info[i])
  }

  ghost predicate Locals(s: State, a: Aux) {
    |a.info| == |s.procs| && |a.chains| == |a.view| == SLOTS &&
    forall i :: 0 <= i < |s.procs| ==> Local(s, a, i)
  }

  /** The whole invariant. */
  ghost predicate Inv(s: State, a: Aux) {
    Shapes(s, a) && Lists(s, a) && Extents(s) && Views(s, a) && Locks(s) && Locals(s, a)
  }
}
