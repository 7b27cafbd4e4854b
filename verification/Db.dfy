/** The database handle: fetch, store, delete and sequential reading over the two files. */
module Db {
  import opened Basics
  import opened DbFormat
  import opened DbImage
  import opened DbContents

  datatype Flag = Insert | Replace | StoreAny | OtherFlag

  /** Ok is 0, Exists is 1, Missing and Invalid are -1 (ENOENT and EINVAL); Fatal means
      that err_dump or err_quit ended the process. */
  datatype StoreResult = Ok | Exists | Missing | Invalid | Fatal

  /** The image after record i was unlinked from position a of chain k and put first on
      the free list under a blank key, in the order in which the code writes. */
  function FreedRec(img: Image, i: nat): Rec
    requires i < |img.recs| && |img.heads| > 0
  {
    var r := img.recs[i];
    Rec(img.heads[0], Blanks(|r.key|), r.datoff, r.datlen)
  }

  function Freed(img: Image, ls: Lists, k: nat, a: nat): Image
    requires k < |ls.chains| && k < |img.heads| && a < |ls.chains[k]|
    requires |img.heads| > 0 && ls.chains[k][a] < |img.recs| && ls.chains[k][a] < |img.offs|
    requires a > 0 ==> ls.chains[k][a - 1] < |img.recs|
  {
    var i := ls.chains[k][a];
    Relink(SetHead(SetRec(img, i, FreedRec(img, i)), 0, img.offs[i]), ls, k, a, img.recs[i].ptr)
  }

  function FreedLists(ls: Lists, k: nat, a: nat): Lists
    requires 0 < k < |ls.chains| && a < |ls.chains[k]| && ls.chains[k][a] < |ls.own|
  {
    Push(Remove(ls, k, a), 0, ls.chains[k][a])
  }

  lemma FreedLinked(img: Image, ls: Lists, k: nat, a: nat)
    requires Linked(img, ls) && 0 < k < SLOTS && a < |ls.chains[k]|
    ensures Member(img, ls, k, a) && (a > 0 ==> Member(img, ls, k, a - 1) && ls.chains[k][a - 1] != ls.chains[k][a])
    ensures Linked(Freed(img, ls, k, a), FreedLists(ls, k, a))
  {
    RemoveLinked(img, ls, k, a);
    assert Chain(img, ls, k);
    assert a > 0 ==> Differ(ls.chains[k], a - 1, a);
    var i := ls.chains[k][a];
    var img' := Relink(img, ls, k, a, img.recs[i].ptr);
    var r := FreedRec(img, i);
    PushLinked(img', Remove(ls, k, a), 0, i, r);
    var f := Freed(img, ls, k, a);
    var g := SetHead(SetRec(img', i, r), 0, img'.offs[i]);
    assert f.heads == g.heads;
    assert f.recs == g.recs;
  }

  /** Both files and what they stand for. */
  datatype State = State(idx: string, dat: string, img: Image, ls: Lists, m: map<string, string>)

  /** The files represent the map m; some records may be loose. */
  ghost predicate Sound(s: State) {
    && Layout(s.idx, s.img)
    && Linked(s.img, s.ls)
    && Extents(s.img.recs, s.dat)
    && Represents(s.img.recs, s.ls.own, s.dat, s.m)
  }

  ghost predicate AllLinked(ls: Lists) {
    forall i :: 0 <= i < |ls.own| ==> ls.own[i] < SLOTS
  }

  /** Offset of the pointer that leads to position a of list k. */
  function PtrSlot(s: State, k: nat, a: nat): nat
    requires k < |s.ls.chains| && a <= |s.ls.chains[k]|
    requires a > 0 ==> s.ls.chains[k][a - 1] < |s.img.offs|
  {
    if a == 0 then SlotOff(k) else s.img.offs[s.ls.chains[k][a - 1]]
  }

  /** The record at position a of list k. */
  lemma ChainRecord(s: State, k: nat, a: nat)
    requires Sound(s) && k < SLOTS && a < |s.ls.chains[k]|
    ensures Member(s.img, s.ls, k, a)
    ensures RecAt(s.idx, s.img.offs[s.ls.chains[k][a]], s.img.recs[s.ls.chains[k][a]])
    ensures PtrTo(s.img.offs, s.ls.chains[k], a) == s.img.offs[s.ls.chains[k][a]] >= RECS_OFF
  {
    assert Chain(s.img, s.ls, k);
    assert Member(s.img, s.ls, k, a);
    assert ImageRec(s.idx, s.img, s.ls.chains[k][a]);
    OffsetAtLeast(s.img, s.ls.chains[k][a]);
  }

  lemma LiveRecord(s: State, i: nat)
    requires Sound(s) && i < |s.img.recs| && Live(s.ls.own[i])
    ensures Holds(s.img.recs[i], s.ls.own[i], s.dat, s.m)
  {
    assert Entry(s.img.recs, s.ls.own, s.dat, s.m, i);
  }

  lemma RecordOf(s: State, key: string) returns (i: nat)
    requires Sound(s) && key in s.m
    ensures i < |s.img.recs| && Live(s.ls.own[i]) && s.img.recs[i].key == key
  {
    assert Stored(s.img.recs, s.ls.own, key);
    i :| 0 <= i < |s.img.recs| && HasKey(s.img.recs, s.ls.own, i, key);
  }

  lemma InItsChain(s: State, i: nat)
    requires Sound(s) && i < |s.img.recs| && s.ls.own[i] < SLOTS
    ensures i in s.ls.chains[s.ls.own[i]]
  {
    assert Owned(s.ls, i);
  }

  lemma HeadPtr(s: State, k: nat)
    requires Sound(s) && k < SLOTS
    ensures SlotOff(k) + PTR_SZ <= |s.idx|
    ensures Atol(s.idx[SlotOff(k)..SlotOff(k) + PTR_SZ]) == s.img.heads[k] == PtrTo(s.img.offs, s.ls.chains[k], 0)
  {
    ReadHead(s.idx, s.img, k);
    assert Chain(s.img, s.ls, k);
  }

  // ---------------------------------------------------------------- walking a list

  /** Record at position a of list k; any record when there is none. */
  function RecordAt(s: State, k: nat, a: nat): Rec {
    if k < |s.ls.chains| && a < |s.ls.chains[k]| && s.ls.chains[k][a] < |s.img.recs|
    then s.img.recs[s.ls.chains[k][a]] else Rec(0, "", 0, 0)
  }

  /** Position a of list k exists and is linked as the invariant says. */
  ghost predicate OnList(s: State, k: nat, a: nat) {
    && k < SLOTS && |s.ls.chains| == |s.img.heads| == SLOTS && |s.ls.own| == |s.img.recs| < |s.img.offs|
    && a < |s.ls.chains[k]|
    && Member(s.img, s.ls, k, a)
    && (a > 0 ==> Member(s.img, s.ls, k, a - 1))
  }

  /** The walk along list k stands before position a: offset is the pointer to it and
      ptroff the place where that pointer is kept. */
  ghost predicate Walk(s: State, k: nat, a: nat, offset: int, ptroff: nat) {
    && |s.ls.chains| == SLOTS && k < SLOTS
    && a <= |s.ls.chains[k]|
    && offset == PtrTo(s.img.offs, s.ls.chains[k], a)
    && (a > 0 ==> OnList(s, k, a - 1))
    && ptroff == PtrSlot(s, k, a)
  }

  /** The handle has reached position a of list k. */
  ghost predicate Reached(s: State, k: nat, a: nat, offset: nat, ptroff: nat) {
    && OnList(s, k, a)
    && offset == s.img.offs[s.ls.chains[k][a]]
    && ptroff == PtrSlot(s, k, a)
  }

  lemma WalkStart(s: State, k: nat)
    requires Sound(s) && k < SLOTS
    ensures SlotOff(k) + PTR_SZ <= |s.idx|
    ensures Walk(s, k, 0, Atol(s.idx[SlotOff(k)..SlotOff(k) + PTR_SZ]), SlotOff(k))
  {
    HeadPtr(s, k);
  }

  lemma WalkNext(s: State, k: nat, a: nat, offset: int, ptroff: nat) returns (r: Rec)
    requires Sound(s) && Walk(s, k, a, offset, ptroff) && offset != 0
    ensures offset > 0 && r == RecordAt(s, k, a)
    ensures RecAt(s.idx, offset, r)
    ensures Reached(s, k, a, offset, ptroff)
    ensures Walk(s, k, a + 1, r.ptr, offset)
  {
    ChainRecord(s, k, a);
    r := s.img.recs[s.ls.chains[k][a]];
  }

  lemma WalkEnd(s: State, k: nat, a: nat, ptroff: nat)
    requires Sound(s) && Walk(s, k, a, 0, ptroff)
    ensures a == |s.ls.chains[k]|
  {
    if a < |s.ls.chains[k]| { ChainRecord(s, k, a); }
  }

  ghost predicate KeyMismatch(s: State, k: nat, b: nat, key: string) {
    RecordAt(s, k, b).key != key
  }

  /** None of the first a records of list k has that key. */
  ghost predicate NoneMatch(s: State, k: nat, key: string, a: nat) {
    forall b :: 0 <= b < a ==> KeyMismatch(s, k, b, key)
  }

  lemma NotStored(s: State, key: string, a: nat, ptroff: nat)
    requires Sound(s) && Walk(s, 1 + Hash(key), a, 0, ptroff) && NoneMatch(s, 1 + Hash(key), key, a)
    ensures key !in s.m
  {
    WalkEnd(s, 1 + Hash(key), a, ptroff);
    if key in s.m {
      var i := RecordOf(s, key);
      LiveRecord(s, i);
      InItsChain(s, i);
      var c := s.ls.chains[1 + Hash(key)];
      var b :| 0 <= b < |c| && c[b] == i;
      MismatchOf(s, 1 + Hash(key), key, a, b);
      assert false;
    }
  }

  lemma MismatchOf(s: State, k: nat, key: string, a: nat, b: nat)
    requires NoneMatch(s, k, key, a) && b < a
    ensures RecordAt(s, k, b).key != key
  {
    assert KeyMismatch(s, k, b, key);
  }

  lemma FoundKey(s: State, key: string, a: nat, offset: nat, ptroff: nat)
    requires Sound(s) && Reached(s, 1 + Hash(key), a, offset, ptroff) && RecordAt(s, 1 + Hash(key), a).key == key
    ensures key in s.m
  {
    LiveRecord(s, s.ls.chains[1 + Hash(key)][a]);
  }

  lemma ValueAt(s: State, key: string, a: nat, offset: nat, ptroff: nat)
    requires Sound(s) && Reached(s, 1 + Hash(key), a, offset, ptroff) && RecordAt(s, 1 + Hash(key), a).key == key
    ensures var r := RecordAt(s, 1 + Hash(key), a);
            InFile(r, s.dat) && key in s.m && CStr(Value(s.dat, r)) == s.m[key] && r.datlen == |s.m[key]| + 1
  {
    LiveRecord(s, s.ls.chains[1 + Hash(key)][a]);
  }

  // ---------------------------------------------------------------- whole operations on the files

  /** Both files after _db_dodelete on position a of chain k. */
  function DeletedState(s: State, k: nat, a: nat): State
    requires k < |s.ls.chains| == |s.img.heads| && 0 < k && a < |s.ls.chains[k]|
    requires s.ls.chains[k][a] < |s.img.recs| == |s.ls.own| && |s.img.recs| < |s.img.offs|
    requires a > 0 ==> s.ls.chains[k][a - 1] < |s.img.recs|
    requires DeletedRoom(s, s.ls.chains[k][a], PtrSlot(s, k, a))
  {
    var i := s.ls.chains[k][a];
    var r := s.img.recs[i];
    State(DeletedIdx(s, i, PtrSlot(s, k, a)), Splice(s.dat, r.datoff, Blanks(r.datlen - 1) + [NEWLINE]),
          Freed(s.img, s.ls, k, a), FreedLists(s.ls, k, a), s.m - {r.key})
  }

  /** The writes of a delete fall inside the files. */
  predicate DeletedRoom(s: State, i: nat, slot: nat) {
    && i < |s.img.recs| && i < |s.img.offs| && 0 < |s.img.heads|
    && s.img.offs[i] <= |s.idx| && slot <= |s.idx|
    && s.img.recs[i].datoff <= |s.dat| && 1 <= s.img.recs[i].datlen
  }

  function DeletedIdx(s: State, i: nat, slot: nat): string
    requires DeletedRoom(s, i, slot)
  {
    var f := Splice(s.idx, s.img.offs[i], Encode(FreedRec(s.img, i)));
    var g := Splice(f, FREE_OFF, Pad(s.img.offs[i], PTR_SZ));
    Splice(g, slot, Pad(s.img.recs[i].ptr, PTR_SZ))
  }

  /** The same writes, from the fields of the handle. */
  function MovedIdx(idx: string, off: nat, key: string, datoff: nat, datlen: nat, slot: nat, next: nat): string
    requires PTR_SZ <= |idx| && off <= |idx| && slot <= |idx|
    requires 0 <= Atol(idx[FREE_OFF..FREE_OFF + PTR_SZ])
  {
    var f := Splice(idx, off, Encode(Rec(Atol(idx[FREE_OFF..FREE_OFF + PTR_SZ]), key, datoff, datlen)));
    var g := Splice(f, FREE_OFF, Pad(off, PTR_SZ));
    Splice(g, slot, Pad(next, PTR_SZ))
  }

  lemma FreedRecValid(img: Image, i: nat)
    requires i < |img.recs| && |img.heads| > 0 && ValidRec(img.recs[i]) && img.heads[0] <= PTR_MAX
    ensures ValidRec(FreedRec(img, i)) && Size(FreedRec(img, i)) == Size(img.recs[i])
  {
  }

  lemma DeleteLayout(s: State, k: nat, a: nat)
    requires Sound(s) && 0 < k < SLOTS && a < |s.ls.chains[k]|
    ensures Member(s.img, s.ls, k, a) && (a > 0 ==> Member(s.img, s.ls, k, a - 1))
    ensures var i := s.ls.chains[k][a]; DeletedRoom(s, i, PtrSlot(s, k, a)) && PtrSlot(s, k, a) + PTR_SZ <= |s.idx|
    ensures var i := s.ls.chains[k][a]; Layout(DeletedIdx(s, i, PtrSlot(s, k, a)), Freed(s.img, s.ls, k, a))
  {
    ChainRecord(s, k, a);
    if a > 0 { ChainRecord(s, k, a - 1); }
    var i := s.ls.chains[k][a];
    var r := s.img.recs[i];
    assert DataAt(s.img.recs, s.dat, i);
    ReadHead(s.idx, s.img, 0);
    FreedRecValid(s.img, i);
    WriteRec(s.idx, s.img, i, FreedRec(s.img, i));
    var f := Splice(s.idx, s.img.offs[i], Encode(FreedRec(s.img, i)));
    var img1 := SetRec(s.img, i, FreedRec(s.img, i));
    WriteHead(f, img1, 0, s.img.offs[i]);
    var g := Splice(f, FREE_OFF, Pad(s.img.offs[i], PTR_SZ));
    var img2 := SetHead(img1, 0, s.img.offs[i]);
    if a == 0 {
      WriteHead(g, img2, k, r.ptr);
    } else {
      WritePtrField(g, img2, s.ls.chains[k][a - 1], r.ptr);
    }
    HeadRoom(s, k);
  }

  lemma HeadRoom(s: State, k: nat)
    requires Sound(s) && k < SLOTS
    ensures SlotOff(k) + PTR_SZ <= |s.idx|
  {
    ReadHead(s.idx, s.img, k);
  }

  lemma FreedPayload(img: Image, ls: Lists, k: nat, a: nat)
    requires Linked(img, ls) && 0 < k < SLOTS && a < |ls.chains[k]|
    requires Member(img, ls, k, a) && (a > 0 ==> Member(img, ls, k, a - 1) && ls.chains[k][a - 1] != ls.chains[k][a])
    ensures var recs' := Freed(img, ls, k, a).recs; var i := ls.chains[k][a];
            |recs'| == |img.recs| && OthersSame(img.recs, recs', i) && recs'[i] == FreedRec(img, i)
  {
    var recs' := Freed(img, ls, k, a).recs;
    var i := ls.chains[k][a];
    forall j | 0 <= j < |img.recs| && j != i ensures SameAt(img.recs, recs', j) {
    }
  }

  /** Deleting the record of a key leaves sound files for the map without that key. */
  lemma DeleteSound(s: State, k: nat, a: nat)
    requires Sound(s) && 0 < k < SLOTS && a < |s.ls.chains[k]|
    ensures Member(s.img, s.ls, k, a) && (a > 0 ==> Member(s.img, s.ls, k, a - 1))
    ensures DeletedRoom(s, s.ls.chains[k][a], PtrSlot(s, k, a)) && PtrSlot(s, k, a) + PTR_SZ <= |s.idx|
    ensures Sound(DeletedState(s, k, a))
  {
    DeleteLayout(s, k, a);
    FreedLinked(s.img, s.ls, k, a);
    FreedPayload(s.img, s.ls, k, a);
    var i := s.ls.chains[k][a];
    RepresentsDeleted(s.img.recs, s.ls.own, s.dat, s.m, i, Freed(s.img, s.ls, k, a).recs,
      Blanks(s.img.recs[i].datlen - 1));
    assert s.ls.own[i := LOOSE][i := 0] == s.ls.own[i := 0];
  }

  /** The reads and writes of a delete of record r at off, with its pointer at slot, are in range. */
  predicate InReach(idx: string, dat: string, off: nat, slot: nat, r: Rec) {
    && off <= |idx| && slot <= |idx| && PTR_SZ <= |idx| && r.datoff <= |dat| && 1 <= r.datlen
    && 0 <= Atol(idx[FREE_OFF..FREE_OFF + PTR_SZ]) <= PTR_MAX && r.ptr <= PTR_MAX && off <= PTR_MAX
    && IDXLEN_MIN <= |Body(Blanks(|r.key|), r.datoff, r.datlen)| <= IDXLEN_MAX
  }

  /** What they leave in the two files. */
  predicate Wiped(idx: string, dat: string, off: nat, slot: nat, r: Rec, idx': string, dat': string)
    requires InReach(idx, dat, off, slot, r)
  {
    && idx' == MovedIdx(idx, off, Blanks(|r.key|), r.datoff, r.datlen, slot, r.ptr)
    && dat' == Splice(dat, r.datoff, Blanks(r.datlen - 1) + [NEWLINE])
  }

  /** Every read and write that _db_dodelete makes is in range, and together they give
      the state of DeletedState. */
  lemma DeletePlan(s: State, k: nat, a: nat, off: nat, slot: nat) returns (t: State)
    requires Sound(s) && AllLinked(s.ls) && 0 < k && Reached(s, k, a, off, slot)
    ensures InReach(s.idx, s.dat, off, slot, RecordAt(s, k, a))
    ensures Wiped(s.idx, s.dat, off, slot, RecordAt(s, k, a), t.idx, t.dat)
    ensures t.m == s.m - {RecordAt(s, k, a).key} && |t.idx| == |s.idx| && |t.dat| == |s.dat|
    ensures Sound(t) && AllLinked(t.ls)
  {
    var i := s.ls.chains[k][a];
    DeleteSound(s, k, a);
    DeletedSizes(s, i, slot);
    HeadPtr(s, 0);
    t := DeletedState(s, k, a);
  }

  lemma DeletedSizes(s: State, i: nat, slot: nat)
    requires Sound(s) && i < |s.img.recs| && DeletedRoom(s, i, slot)
    requires slot + PTR_SZ <= |s.idx|
    ensures var r := s.img.recs[i]; var q := FreedRec(s.img, i);
            && ValidRec(q) && r.ptr <= PTR_MAX && s.img.offs[i] <= PTR_MAX
            && |Splice(s.idx, s.img.offs[i], Encode(q))| == |s.idx|
            && |DeletedIdx(s, i, slot)| == |s.idx|
            && |Splice(s.dat, r.datoff, Blanks(r.datlen - 1) + [NEWLINE])| == |s.dat|
  {
    assert ImageRec(s.idx, s.img, i) && DataAt(s.img.recs, s.dat, i);
    ReadHead(s.idx, s.img, 0);
    FreedRecValid(s.img, i);
    EncodeSize(FreedRec(s.img, i));
    PadWidth(s.img.offs[i]);
    PadWidth(s.img.recs[i].ptr);
  }

  /** The files after position a of the free list was unlinked. */
  function TakenState(s: State, a: nat): State
    requires 0 < |s.ls.chains| && 0 < |s.img.heads| && a < |s.ls.chains[0]|
    requires s.ls.chains[0][a] < |s.img.recs| == |s.ls.own| && |s.img.recs| < |s.img.offs|
    requires a > 0 ==> s.ls.chains[0][a - 1] < |s.img.recs|
    requires PtrSlot(s, 0, a) <= |s.idx|
  {
    var p := s.img.recs[s.ls.chains[0][a]].ptr;
    State(Splice(s.idx, PtrSlot(s, 0, a), Pad(p, PTR_SZ)), s.dat,
          Relink(s.img, s.ls, 0, a, p), Remove(s.ls, 0, a), s.m)
  }

  lemma TakeSound(s: State, a: nat)
    requires Sound(s) && a < |s.ls.chains[0]|
    ensures Member(s.img, s.ls, 0, a) && (a > 0 ==> Member(s.img, s.ls, 0, a - 1))
    ensures PtrSlot(s, 0, a) <= |s.idx|
    ensures Sound(TakenState(s, a))
  {
    ChainRecord(s, 0, a);
    if a > 0 { ChainRecord(s, 0, a - 1); }
    var i := s.ls.chains[0][a];
    var p := s.img.recs[i].ptr;
    RemoveLinked(s.img, s.ls, 0, a);
    HeadRoom(s, 0);
    if a == 0 {
      WriteHead(s.idx, s.img, 0, p);
    } else {
      WritePtrField(s.idx, s.img, s.ls.chains[0][a - 1], p);
    }
    var recs' := Relink(s.img, s.ls, 0, a, p).recs;
    forall j | 0 <= j < |recs'| ensures SameAt(s.img.recs, recs', j) {
    }
    RepresentsRelinked(s.img.recs, s.ls.own, s.dat, s.m, recs');
    RepresentsLoosened(recs', s.ls.own, s.dat, s.m, i);
  }

  ghost predicate FreeFit(s: State, i: nat, keylen: nat, datlen: nat) {
    && i < |s.img.recs| && i < |s.ls.own|
    && s.ls.own[i] == 0
    && |s.img.recs[i].key| == keylen && s.img.recs[i].datlen == datlen
  }

  /** A free record has exactly these lengths. */
  ghost predicate HasFree(s: State, keylen: nat, datlen: nat) {
    exists i :: FreeFit(s, i, keylen, datlen)
  }

  ghost predicate Unfit(s: State, b: nat, keylen: nat, datlen: nat) {
    var r := RecordAt(s, 0, b);
    |r.key| != keylen || r.datlen != datlen
  }

  ghost predicate NoneFit(s: State, keylen: nat, datlen: nat, a: nat) {
    forall b :: 0 <= b < a ==> Unfit(s, b, keylen, datlen)
  }

  lemma FitOf(s: State, keylen: nat, datlen: nat, a: nat, b: nat)
    requires NoneFit(s, keylen, datlen, a) && b < a
    ensures |RecordAt(s, 0, b).key| != keylen || RecordAt(s, 0, b).datlen != datlen
  {
    assert Unfit(s, b, keylen, datlen);
  }

  lemma NoFree(s: State, keylen: nat, datlen: nat, a: nat, slot: nat)
    requires Sound(s) && Walk(s, 0, a, 0, slot) && NoneFit(s, keylen, datlen, a)
    ensures !HasFree(s, keylen, datlen)
  {
    WalkEnd(s, 0, a, slot);
    forall i ensures !FreeFit(s, i, keylen, datlen) {
      if FreeFit(s, i, keylen, datlen) {
        InItsChain(s, i);
        var c := s.ls.chains[0];
        var b :| 0 <= b < |c| && c[b] == i;
        FitOf(s, keylen, datlen, a, b);
        assert false;
      }
    }
  }

  /** t is s with record i taken off the free list: same map, and the hash chains as
      they were. */
  ghost predicate Taken(s: State, t: State, i: nat) {
    && i < |t.img.recs| && |t.img.recs| < |t.img.offs| && |t.ls.own| == |t.img.recs|
    && t.ls.own[i] == LOOSE
    && (forall j :: 0 <= j < |t.ls.own| && j != i ==> t.ls.own[j] < SLOTS)
    && t.m == s.m && t.dat == s.dat && |t.idx| == |s.idx|
    && |t.img.heads| == |s.img.heads| > 0 && t.img.heads[1..] == s.img.heads[1..]
  }

  /** Record i starts at off, has its data at datoff, and has these lengths. */
  ghost predicate FitsAt(s: State, i: nat, off: nat, datoff: nat, keylen: nat, datlen: nat) {
    && i < |s.img.recs| < |s.img.offs|
    && s.img.offs[i] == off
    && s.img.recs[i].datoff == datoff
    && |s.img.recs[i].key| == keylen && s.img.recs[i].datlen == datlen
  }

  lemma TakePlan(s: State, a: nat, off: nat, slot: nat) returns (t: State)
    requires Sound(s) && AllLinked(s.ls) && Reached(s, 0, a, off, slot)
    ensures slot <= |s.idx| && RecordAt(s, 0, a).ptr <= PTR_MAX
    ensures t.idx == Splice(s.idx, slot, Pad(RecordAt(s, 0, a).ptr, PTR_SZ))
    ensures Sound(t) && Taken(s, t, s.ls.chains[0][a])
    ensures t.dat == s.dat && t.m == s.m
    ensures var r := RecordAt(s, 0, a); FitsAt(t, s.ls.chains[0][a], off, r.datoff, |r.key|, r.datlen)
    ensures FreeFit(s, s.ls.chains[0][a], |RecordAt(s, 0, a).key|, RecordAt(s, 0, a).datlen)
  {
    TakeSound(s, a);
    ChainRecord(s, 0, a);
    t := TakenState(s, a);
    PadWidth(RecordAt(s, 0, a).ptr);
    if a > 0 { ChainRecord(s, 0, a - 1); } else { HeadRoom(s, 0); }
  }

  /** The files after record r was written over the loose record i and pushed on chain k. */
  function ReusedState(s: State, i: nat, r: Rec, data: string): State
    requires i < |s.img.recs| == |s.ls.own| && |s.img.recs| < |s.img.offs|
    requires 1 + Hash(r.key) < |s.img.heads| == |s.ls.chains|
    requires s.img.offs[i] <= |s.idx| && SlotOff(1 + Hash(r.key)) <= |s.idx| && s.img.recs[i].datoff <= |s.dat|
  {
    var k := 1 + Hash(r.key);
    State(Splice(Splice(s.idx, s.img.offs[i], Encode(r)), SlotOff(k), Pad(s.img.offs[i], PTR_SZ)),
          Splice(s.dat, s.img.recs[i].datoff, data + [NEWLINE]),
          SetHead(SetRec(s.img, i, r), k, s.img.offs[i]), Push(s.ls, k, i), s.m[r.key := data])
  }

  lemma ReuseSound(s: State, i: nat, r: Rec, data: string)
    requires Sound(s) && i < |s.img.recs| && s.ls.own[i] == LOOSE
    requires ValidRec(r) && r.ptr == s.img.heads[1 + Hash(r.key)] && Size(r) == Size(s.img.recs[i])
    requires r.datoff == s.img.recs[i].datoff && r.datlen == s.img.recs[i].datlen == |data| + 1
    requires r.key !in s.m && NoNul(data)
    ensures s.img.offs[i] <= |s.idx| && SlotOff(1 + Hash(r.key)) <= |s.idx| && s.img.recs[i].datoff <= |s.dat|
    ensures Sound(ReusedState(s, i, r, data))
  {
    var k := 1 + Hash(r.key);
    assert ImageRec(s.idx, s.img, i);
    WriteRec(s.idx, s.img, i, r);
    WriteHead(Splice(s.idx, s.img.offs[i], Encode(r)), SetRec(s.img, i, r), k, s.img.offs[i]);
    HeadRoom(s, k);
    PushLinked(s.img, s.ls, k, i, r);
    var recs' := SetRec(s.img, i, r).recs;
    forall j | 0 <= j < |recs'| && j != i ensures SameAt(s.img.recs, recs', j) {
    }
    RepresentsReused(s.img.recs, s.ls.own, s.dat, s.m, i, recs', r.key, data);
  }

  /** The files after a record was appended to both and pushed on its chain. */
  function AppendedState(s: State, r: Rec, data: string): State
    requires |s.img.offs| == |s.img.recs| + 1 && 1 + Hash(r.key) < |s.img.heads| == |s.ls.chains|
    requires SlotOff(1 + Hash(r.key)) <= |s.idx|
  {
    var k := 1 + Hash(r.key);
    var ls1 := Lists(s.ls.own + [LOOSE], s.ls.chains);
    State(Splice(Splice(s.idx, |s.idx|, Encode(r)), SlotOff(k), Pad(|s.idx|, PTR_SZ)),
          Splice(s.dat, |s.dat|, data + [NEWLINE]),
          SetHead(AddRec(s.img, r), k, |s.idx|), Push(ls1, k, |s.ls.own|), s.m[r.key := data])
  }

  lemma AppendSound(s: State, r: Rec, data: string)
    requires Sound(s) && ValidRec(r) && |s.idx| <= PTR_MAX && r.ptr == s.img.heads[1 + Hash(r.key)]
    requires r.datoff == |s.dat| && r.datlen == |data| + 1 && r.key !in s.m && NoNul(data)
    ensures SlotOff(1 + Hash(r.key)) <= |s.idx|
    ensures Sound(AppendedState(s, r, data))
  {
    var k := 1 + Hash(r.key);
    var n := |s.img.recs|;
    var ls1 := Lists(s.ls.own + [LOOSE], s.ls.chains);
    HeadRoom(s, k);
    AppendRec(s.idx, s.img, r);
    var img1 := AddRec(s.img, r);
    WriteHead(Splice(s.idx, |s.idx|, Encode(r)), img1, k, |s.idx|);
    AppendLinked(s.img, s.ls, r);
    PushLinked(img1, ls1, k, n, r);
    assert SetRec(img1, n, r) == img1;
    RepresentsAppended(s.img.recs, s.ls.own, s.dat, s.m, r, data);
    assert (s.ls.own + [LOOSE])[n := k] == s.ls.own + [k];
  }

  /** Key and data that the record formats can hold. */
  predicate CleanPair(key: string, data: string) {
    NoNul(key) && NoSep(key) && NoNul(data) && |data| + 1 <= DATLEN_MAX
  }

  /** A record of this key and data length may go to the end of files this long. */
  predicate CanAppend(idxlen: nat, datlen: nat, key: string, len: nat) {
    idxlen <= PTR_MAX && IDXLEN_MIN <= |Body(key, datlen, len)| <= IDXLEN_MAX
  }

  /** Bytes of the index record for this key and this place of its data. */
  function RecSize(key: string, datoff: nat, datlen: nat): nat {
    PTR_SZ + IDXLEN_SZ + |Body(key, datoff, datlen)|
  }

  lemma AppendRanges(s: State, key: string)
    requires Sound(s)
    ensures SlotOff(1 + Hash(key)) <= |s.idx| && s.img.heads[1 + Hash(key)] <= PTR_MAX
  {
    HeadPtr(s, 1 + Hash(key));
    ReadHead(s.idx, s.img, 1 + Hash(key));
  }

  lemma AppendPlan(s: State, key: string, data: string) returns (t: State)
    requires Sound(s) && AllLinked(s.ls) && CleanPair(key, data) && key !in s.m
    requires CanAppend(|s.idx|, |s.dat|, key, |data| + 1)
    ensures SlotOff(1 + Hash(key)) <= |s.idx|
    ensures var r := Rec(s.img.heads[1 + Hash(key)], key, |s.dat|, |data| + 1);
            t.idx == Splice(Splice(s.idx, |s.idx|, Encode(r)), SlotOff(1 + Hash(key)), Pad(|s.idx|, PTR_SZ))
    ensures t.dat == Splice(s.dat, |s.dat|, data + [NEWLINE]) && t.m == s.m[key := data]
    ensures Sound(t) && AllLinked(t.ls)
    ensures |t.idx| == |s.idx| + RecSize(key, |s.dat|, |data| + 1) && |t.dat| == |s.dat| + |data| + 1
  {
    var k := 1 + Hash(key);
    AppendRanges(s, key);
    var r := Rec(s.img.heads[k], key, |s.dat|, |data| + 1);
    AppendSound(s, r, data);
    t := AppendedState(s, r, data);
    assert |t.idx| == t.img.offs[|t.img.recs|] && |s.idx| == s.img.offs[|s.img.recs|];
  }

  /** Record i is on no list, every other record on one. */
  ghost predicate Loose(s: State, i: nat) {
    && i < |s.ls.own| && s.ls.own[i] == LOOSE
    && forall j :: 0 <= j < |s.ls.own| && j != i ==> s.ls.own[j] < SLOTS
  }

  lemma ReusePlan(s: State, key: string, data: string, i: nat) returns (t: State)
    requires Sound(s) && Loose(s, i) && CleanPair(key, data) && key !in s.m
    requires i < |s.img.recs| && |s.img.recs[i].key| == |key| && s.img.recs[i].datlen == |data| + 1
    ensures var q := s.img.recs[i]; var off := s.img.offs[i]; var k := 1 + Hash(key);
            && off <= |s.idx| && off <= PTR_MAX && q.datoff <= |s.dat|
            && SlotOff(k) <= |s.idx| && s.img.heads[k] <= PTR_MAX
            && IDXLEN_MIN <= |Body(key, q.datoff, |data| + 1)| <= IDXLEN_MAX
            && t.idx == Splice(Splice(s.idx, off, Encode(Rec(s.img.heads[k], key, q.datoff, |data| + 1))), SlotOff(k),
              Pad(off, PTR_SZ))
            && t.dat == Splice(s.dat, q.datoff, data + [NEWLINE])
    ensures t.m == s.m[key := data] && Sound(t) && AllLinked(t.ls)
    ensures |t.idx| == |s.idx| && |t.dat| == |s.dat|
  {
    var k := 1 + Hash(key);
    AppendRanges(s, key);
    var q := s.img.recs[i];
    assert ImageRec(s.idx, s.img, i);
    assert |RecBody(q)| == |Body(key, q.datoff, q.datlen)|;
    var r := Rec(s.img.heads[k], key, q.datoff, |data| + 1);
    ReuseSound(s, i, r, data);
    t := ReusedState(s, i, r, data);
    assert |t.idx| == t.img.offs[|t.img.recs|] && |s.idx| == s.img.offs[|s.img.recs|];
    assert DataAt(s.img.recs, s.dat, i);
  }

  lemma SameChainHead(s: State, t: State, i: nat, k: nat)
    requires Taken(s, t, i) && 0 < k < |s.img.heads|
    ensures t.img.heads[k] == s.img.heads[k]
  {
    assert t.img.heads[1..][k - 1] == s.img.heads[1..][k - 1];
  }

  lemma OverwritePlan(s: State, key: string, data: string, a: nat, off: nat, slot: nat)
    requires Sound(s) && CleanPair(key, data) && Reached(s, 1 + Hash(key), a, off, slot)
    requires RecordAt(s, 1 + Hash(key), a).key == key && RecordAt(s, 1 + Hash(key), a).datlen == |data| + 1
    ensures var r := RecordAt(s, 1 + Hash(key), a);
            r.datoff <= |s.dat|
            && Sound(s.(dat := Splice(s.dat, r.datoff, data + [NEWLINE]), m := s.m[key := data]))
            && |Splice(s.dat, r.datoff, data + [NEWLINE])| == |s.dat|
  {
    RepresentsOverwritten(s.img.recs, s.ls.own, s.dat, s.m, s.ls.chains[1 + Hash(key)][a], data);
    assert DataAt(s.img.recs, s.dat, s.ls.chains[1 + Hash(key)][a]);
  }

  // ---------------------------------------------------------------- a store that stops

  /** The files are no longer than with one more record in each. */
  ghost predicate Grown(s: State, t: State, key: string, data: string) {
    && |t.idx| <= |s.idx| + RecSize(key, |s.dat|, |data| + 1)
    && |t.dat| <= |s.dat| + |data| + 1
  }

  /** Bytes that a store adds: none when it overwrites data of the same length or reuses a free
      record, else one record in each file. */
  ghost predicate GrownBy(s: State, t: State, key: string, data: string) {
    var same := if key in s.m then |s.m[key]| == |data| else HasFree(s, |key|, |data| + 1);
    && |t.idx| == |s.idx| + (if same then 0 else RecSize(key, |s.dat|, |data| + 1))
    && |t.dat| == |s.dat| + (if same then 0 else |data| + 1)
  }

  lemma DataGrows(s: State, w: string)
    requires Sound(s)
    ensures Sound(s.(dat := s.dat + w))
  {
    var d := s.dat + w;
    forall i | 0 <= i < |s.img.recs| ensures DataAt(s.img.recs, d, i) && Entry(s.img.recs, s.ls.own, d, s.m, i) {
      var r := s.img.recs[i];
      assert DataAt(s.img.recs, s.dat, i) && Entry(s.img.recs, s.ls.own, s.dat, s.m, i);
      assert Value(d, r) == Value(s.dat, r);
    }
  }

  /** The index file up to byte n, with the data file, represents the map; what follows it
      is on no list. */
  ghost predicate Upto(s: State, n: nat) {
    n <= |s.idx| && Sound(s.(idx := s.idx[..n])) && AllLinked(s.ls)
  }

  /** What the append path leaves when it stops: a data record, and an index record if that
      can be printed, both on no list. */
  ghost predicate Stopped(s: State, t: State, key: string, data: string)
    requires 1 + Hash(key) < |s.img.heads|
  {
    var r := Rec(s.img.heads[1 + Hash(key)], key, |s.dat|, |data| + 1);
    && t.img == s.img && t.ls == s.ls && t.m == s.m
    && t.dat == s.dat + (data + [NEWLINE])
    && t.idx == s.idx + if IDXLEN_MIN <= |RecBody(r)| <= IDXLEN_MAX then Encode(r) else ""
  }

  lemma StoppedUpto(s: State, t: State, key: string, data: string)
    requires Sound(s) && AllLinked(s.ls) && 1 + Hash(key) < |s.img.heads| && Stopped(s, t, key, data)
    ensures Upto(t, |s.idx|)
    ensures |s.idx| <= PTR_MAX && !CanAppend(|s.idx|, |s.dat|, key, |data| + 1) ==> Sound(t)
  {
    DataGrows(s, data + [NEWLINE]);
    var u := s.(dat := s.dat + (data + [NEWLINE]));
    assert t.(idx := t.idx[..|s.idx|]) == u;
    if |s.idx| <= PTR_MAX && !CanAppend(|s.idx|, |s.dat|, key, |data| + 1) {
      assert t.idx == s.idx;
      assert t == u;
    }
  }

  /** The map after db_store stopped the process: a replacement of other length has deleted
      the old entry before it finds no room for the new one. */
  function StoppedMap(m: map<string, string>, key: string, data: string): map<string, string> {
    if DATLEN_MIN <= |data| + 1 <= DATLEN_MAX then m - {key} else m
  }

  /** What db_store returns, by flag, presence and room. */
  ghost function StoreOutcome(s: State, key: string, data: string, flag: Flag): StoreResult {
    var len := |data| + 1;
    if flag.OtherFlag? then Invalid
    else if len < DATLEN_MIN || len > DATLEN_MAX then Fatal
    else if key in s.m then
      if flag.Insert? then Exists
      else if |s.m[key]| == |data| || CanAppend(|s.idx|, |s.dat|, key, len) then Ok else Fatal
    else if flag.Replace? then Missing
    else if HasFree(s, |key|, len) || CanAppend(|s.idx|, |s.dat|, key, len) then Ok else Fatal
  }

  // ---------------------------------------------------------------- sequential reading

  ghost predicate Skipped(s: State, j: nat) {
    j < |s.img.recs| && AllBlank(s.img.recs[j].key)
  }

  ghost predicate AllSkipped(s: State, n: nat, n': nat) {
    forall j :: n <= j < n' ==> Skipped(s, j)
  }

  /** p is the key and data of the live record i, and its key is not blank. */
  ghost predicate Reports(s: State, i: nat, p: (string, string)) {
    && i < |s.img.recs| && i < |s.ls.own| && Live(s.ls.own[i])
    && s.img.recs[i].key == p.0 && !AllBlank(p.0)
    && p.0 in s.m && s.m[p.0] == p.1
  }

  lemma NextHere(s: State, n: nat)
    requires Sound(s) && n <= |s.img.recs| && s.img.offs[n] < |s.idx|
    ensures n < |s.img.recs| && RecAt(s.idx, s.img.offs[n], s.img.recs[n])
    ensures s.img.offs[n + 1] == s.img.offs[n] + Size(s.img.recs[n])
  {
    assert ImageRec(s.idx, s.img, n) && OffAt(s.img, n);
  }

  lemma NextEnd(s: State, n: nat)
    requires Sound(s) && n <= |s.img.recs| && s.img.offs[n] >= |s.idx|
    ensures n == |s.img.recs|
  {
    if n < |s.img.recs| { OffsetsGrow(s.img, n, |s.img.recs|); }
  }

  lemma NextLive(s: State, i: nat)
    requires Sound(s) && AllLinked(s.ls) && i < |s.img.recs| && !AllBlank(s.img.recs[i].key)
    ensures var r := s.img.recs[i];
            InFile(r, s.dat) && Reports(s, i, (r.key, CStr(Value(s.dat, r))))
  {
    assert Entry(s.img.recs, s.ls.own, s.dat, s.m, i);
  }

  predicate GoodPair(m: map<string, string>, p: (string, string)) {
    !AllBlank(p.0) && p.0 in m && m[p.0] == p.1
  }

  ghost predicate Listed(out: seq<(string, string)>, key: string) {
    exists a :: 0 <= a < |out| && out[a].0 == key
  }

  ghost predicate Given(s: State, out: seq<(string, string)>, at: seq<nat>, n: nat, a: nat)
    requires a < |out| == |at|
  {
    at[a] < n && Reports(s, at[a], out[a])
  }

  predicate Before(at: seq<nat>, a: nat, b: nat)
    requires a < |at| && b < |at|
  {
    at[a] < at[b]
  }

  ghost predicate Covered(s: State, j: nat, at: seq<nat>) {
    j in at || Skipped(s, j)
  }

  /** After n records: out reports records at, in file order, and every other record so
      far has a blank key. */
  ghost predicate Progress(s: State, n: nat, out: seq<(string, string)>, at: seq<nat>) {
    && |at| == |out|
    && (forall a :: 0 <= a < |out| ==> Given(s, out, at, n, a))
    && (forall a, b :: 0 <= a < b < |at| ==> Before(at, a, b))
    && (forall j :: 0 <= j < n ==> Covered(s, j, at))
  }

  lemma ProgressStep(s: State, n: nat, n': nat, out: seq<(string, string)>, at: seq<nat>, p: (string, string))
    requires Progress(s, n, out, at) && n < n' && AllSkipped(s, n, n' - 1) && Reports(s, n' - 1, p)
    ensures Progress(s, n', out + [p], at + [n' - 1])
  {
    var out', at' := out + [p], at + [n' - 1];
    forall a | 0 <= a < |out'| ensures Given(s, out', at', n', a) {
      if a < |out| { assert Given(s, out, at, n, a); }
    }
    forall a, b | 0 <= a < b < |at'| ensures Before(at', a, b) {
      if b < |at| { assert Before(at, a, b); } else { assert Given(s, out, at, n, a); }
    }
    forall j | 0 <= j < n' ensures Covered(s, j, at') {
      if j < n {
        assert Covered(s, j, at);
      } else if j < n' - 1 {
        assert Skipped(s, j);
      } else {
        assert at'[|at|] == j;
      }
    }
  }

  lemma SkippedOf(s: State, n: nat, n': nat, j: nat)
    requires AllSkipped(s, n, n') && n <= j < n'
    ensures j < |s.img.recs| && AllBlank(s.img.recs[j].key)
  {
    assert Skipped(s, j);
  }

  lemma ProgressDone(s: State, n: nat, out: seq<(string, string)>, at: seq<nat>)
    requires Sound(s) && n <= |s.img.recs| && Progress(s, n, out, at) && AllSkipped(s, n, |s.img.recs|)
    ensures forall a :: 0 <= a < |out| ==> GoodPair(s.m, out[a])
    ensures forall a, b :: 0 <= a < b < |out| ==> out[a].0 != out[b].0
    ensures forall key :: key in s.m && !AllBlank(key) ==> Listed(out, key)
  {
    forall a | 0 <= a < |out| ensures GoodPair(s.m, out[a]) {
      assert Given(s, out, at, n, a);
    }
    forall a, b | 0 <= a < b < |out| ensures out[a].0 != out[b].0 {
      assert Given(s, out, at, n, a) && Given(s, out, at, n, b) && Before(at, a, b);
      assert KeysDiffer(s.img.recs, s.ls.own, at[a], at[b]);
    }
    forall key | key in s.m && !AllBlank(key) ensures Listed(out, key) {
      var j := RecordOf(s, key);
      if j < n {
        assert Covered(s, j, at);
        var a :| 0 <= a < |at| && at[a] == j;
        assert Given(s, out, at, n, a);
        assert out[a].0 == key;
      } else {
        SkippedOf(s, n, |s.img.recs|, j);
        assert false;
      }
    }
  }

  // ---------------------------------------------------------------- a new database

  ghost predicate ZeroAt(hash: string, k: nat) {
    PTR_SZ * k + PTR_SZ <= |hash| && hash[PTR_SZ * k..PTR_SZ * k + PTR_SZ] == Pad(0, PTR_SZ)
  }

  ghost function EmptyImage(): Image {
    Image(seq(SLOTS, _ => 0), [], [RECS_OFF])
  }

  ghost function EmptyLists(): Lists {
    Lists([], seq(SLOTS, _ => []))
  }

  lemma EmptySound(hash: string)
    requires |hash| == PTR_SZ * SLOTS && forall k :: 0 <= k < SLOTS ==> ZeroAt(hash, k)
    ensures Sound(State(hash + [NEWLINE], "", EmptyImage(), EmptyLists(), map[]))
  {
    var idx := hash + [NEWLINE];
    forall k | 0 <= k < SLOTS ensures HeadAt(idx, EmptyImage(), k) && Chain(EmptyImage(), EmptyLists(), k) {
      assert ZeroAt(hash, k);
      assert idx[PTR_SZ * k..PTR_SZ * k + PTR_SZ] == hash[PTR_SZ * k..PTR_SZ * k + PTR_SZ];
    }
  }

  /** The index file and the data file, with what they stand for. */
  class Files {
    var idx: string
    var dat: string
    ghost var img: Image
    ghost var ls: Lists
    ghost var contents: map<string, string>

    ghost function Snapshot(): State
      reads this
    {
      State(idx, dat, img, ls, contents)
    }

    /** Every record is on a hash chain or on the free list. */
    ghost predicate Valid()
      reads this
    {
      Sound(Snapshot()) && AllLinked(ls)
    }

    /** db_open of a new database: a zero pointer for the free list and for each chain. */
    constructor ()
      ensures Valid() && contents == map[]
    {
      var hash := "";
      var i := 0;
      while i < NHASH + 1
        invariant 0 <= i <= NHASH + 1 && |hash| == PTR_SZ * i
        invariant forall k :: 0 <= k < i ==> ZeroAt(hash, k)
      {
        PadWidth(0);
        ghost var h := hash;
        hash := hash + Pad(0, PTR_SZ);
        forall k | 0 <= k < i + 1 ensures ZeroAt(hash, k) {
          if k < i {
            assert ZeroAt(h, k);
            assert hash[PTR_SZ * k..PTR_SZ * k + PTR_SZ] == h[PTR_SZ * k..PTR_SZ * k + PTR_SZ];
          }
        }
        i := i + 1;
      }
      idx := hash + [NEWLINE];
      dat := "";
      img := EmptyImage();
      ls := EmptyLists();
      contents := map[];
      new;
      EmptySound(hash);
    }
  }

  /** A handle on an open database. */
  class Handle {
    const files: Files
    var idxbuf: string
    var datbuf: string
    var idxoff: nat
    var idxlen: nat
    var datoff: nat
    var datlen: nat
    var ptrval: nat
    var ptroff: nat
    var chainoff: nat
    /** File offset of the index descriptor, as left by the last read or write. */
    var idxpos: nat

    constructor (files: Files)
      ensures this.files == files
    {
      this.files := files;
    }

    /** The handle's fields describe record r found at offset off. */
    ghost predicate Cursor(off: nat, r: Rec)
      reads this
    {
      && idxoff == off
      && ptrval == r.ptr
      && idxbuf == r.key
      && idxlen == |RecBody(r)|
      && datoff == r.datoff
      && datlen == r.datlen
    }

    // -------------------------------------------------------------- reading

    /** _db_hash: the loop over the key's characters. */
    method HashOf(key: string) returns (h: nat)
      ensures h == Hash(key) == Weighted(key, |key|) % 0x1_0000_0000_0000_0000 % NHASH
    {
      HashIs(key);
      var hval: nat := 0;
      var i := 1;
      while i <= |key|
        invariant 1 <= i <= |key| + 1
        invariant HashFrom(key, 1, 0) == HashFrom(key[i - 1..], i, hval)
      {
        assert key[i - 1..][1..] == key[i..];
        hval := (hval + SignedChar(key[i - 1]) * i) % 0x1_0000_0000_0000_0000;
        i := i + 1;
      }
      return hval % NHASH;
    }

    method ReadPtr(off: nat) returns (p: int)
      requires off + PTR_SZ <= |files.idx|
      modifies this`idxpos
      ensures p == Atol(files.idx[off..off + PTR_SZ])
    {
      idxpos := off + PTR_SZ;
      p := Atol(files.idx[off..off + PTR_SZ]);
    }

    /** _db_readidx where the file holds record r. */
    method ReadIdx(offset: nat, ghost r: Rec) returns (next: nat)
      requires RecAt(files.idx, offset, r)
      modifies this`idxoff, this`idxpos, this`ptrval, this`idxlen, this`idxbuf, this`datoff, this`datlen
      ensures Cursor(offset, r) && next == r.ptr
      ensures idxpos == offset + Size(r)
    {
      ReadBack(files.idx, offset, r, false);
      var q := ParseRecord(files.idx, offset, false);
      idxoff := offset;
      ptrval, idxlen, idxbuf := q.rec.ptr, q.idxlen, q.rec.key;
      datoff, datlen := q.rec.datoff, q.rec.datlen;
      idxpos := offset + PTR_SZ + IDXLEN_SZ + idxlen;
      next := ptrval;
    }

    method ReadDat() returns (s: string)
      requires 1 <= datlen && datoff + datlen <= |files.dat|
      modifies this`datbuf
      ensures s == CStr(files.dat[datoff..datoff + datlen - 1])
    {
      datbuf := files.dat[datoff..datoff + datlen - 1];
      s := CStr(datbuf);
    }

    /** _db_find_and_lock: walk the chain of key. */
    method Locate(key: string) returns (found: bool, ghost a: nat)
      requires Sound(files.Snapshot())
      modifies this
      ensures chainoff == SlotOff(1 + Hash(key))
      ensures found <==> key in files.contents
      ensures found ==> Reached(files.Snapshot(), 1 + Hash(key), a, idxoff, ptroff)
      ensures found ==> Cursor(idxoff, RecordAt(files.Snapshot(), 1 + Hash(key), a)) && idxbuf == key
    {
      ghost var s := files.Snapshot();
      var h := HashOf(key);
      ghost var k := 1 + h;
      chainoff := h * PTR_SZ + HASH_OFF;
      ptroff := chainoff;
      WalkStart(s, k);
      var offset := ReadPtr(ptroff);
      a := 0;
      while offset != 0
        invariant Walk(s, k, a, offset, ptroff) && NoneMatch(s, k, key, a)
        invariant chainoff == SlotOff(k)
        decreases |s.ls.chains[k]| - a
      {
        ghost var r := WalkNext(s, k, a, offset, ptroff);
        var nextoffset := ReadIdx(offset, r);
        if idxbuf == key {
          FoundKey(s, key, a, offset, ptroff);
          return true, a;
        }
        assert KeyMismatch(s, k, a, key);
        ptroff, offset, a := offset, nextoffset, a + 1;
      }
      NotStored(s, key, a, ptroff);
      found := false;
    }

    /** db_fetch. */
    method Fetch(key: string) returns (r: Option<string>)
      requires files.Valid()
      modifies this
      ensures r == if key in files.contents then Some(files.contents[key]) else None
    {
      var found, a := Locate(key);
      if !found {
        r := None;
      } else {
        ValueAt(files.Snapshot(), key, a, idxoff, ptroff);
        var s := ReadDat();
        r := Some(s);
      }
    }

    // -------------------------------------------------------------- writing

    /** _db_writedat; at the end of the file when append is set. */
    method WriteDat(data: string, offset: nat, append: bool)
      requires append || offset <= |files.dat|
      modifies this`datoff, this`datlen, files`dat
      ensures datoff == (if append then |old(files.dat)| else offset) && datlen == |data| + 1
      ensures files.dat == Splice(old(files.dat), datoff, data + [NEWLINE])
    {
      datoff := if append then |files.dat| else offset;
      datlen := |data| + 1;
      files.dat := Splice(files.dat, datoff, data + [NEWLINE]);
    }

    /** _db_writeidx; ok is false where the source ends the process. */
    method WriteIdx(key: string, offset: nat, append: bool, ptr: nat) returns (ok: bool)
      requires append || offset <= |files.idx|
      modifies this`idxoff, this`idxbuf, this`ptrval, this`idxpos, files`idx
      ensures ok <==> ptr <= PTR_MAX && IDXLEN_MIN <= |Body(key, datoff, datlen)| <= IDXLEN_MAX
      ensures ok ==> idxoff == if append then |old(files.idx)| else offset
      ensures ok ==> files.idx == Splice(old(files.idx), idxoff, Encode(Rec(ptr, key, datoff, datlen)))
      ensures !ok ==> files.idx == old(files.idx)
    {
      ptrval := ptr;
      if ptr > PTR_MAX {
        return false;
      }
      idxbuf := Body(key, datoff, datlen);
      var len := |idxbuf|;
      if len < IDXLEN_MIN || len > IDXLEN_MAX {
        return false;
      }
      idxoff := if append then |files.idx| else offset;
      files.idx := Splice(files.idx, idxoff, Pad(ptr, PTR_SZ) + Pad(len, IDXLEN_SZ) + idxbuf);
      idxpos := idxoff + PTR_SZ + IDXLEN_SZ + len;
      return true;
    }

    /** _db_writeptr; ok is false where the source ends the process. */
    method WritePtr(offset: nat, ptr: nat) returns (ok: bool)
      requires offset <= |files.idx|
      modifies this`idxpos, files`idx
      ensures ok <==> ptr <= PTR_MAX
      ensures ok ==> files.idx == Splice(old(files.idx), offset, Pad(ptr, PTR_SZ))
      ensures !ok ==> files.idx == old(files.idx)
    {
      if ptr > PTR_MAX {
        return false;
      }
      files.idx := Splice(files.idx, offset, Pad(ptr, PTR_SZ));
      idxpos := offset + PTR_SZ;
      return true;
    }

    /** The index writes of _db_dodelete: the record under its blanked key, the free-list
        pointer, and the pointer that led to the record. */
    method MoveToFree()
      requires PTR_SZ <= |files.idx| && idxoff <= |files.idx| && ptroff <= |files.idx|
      requires 0 <= Atol(files.idx[FREE_OFF..FREE_OFF + PTR_SZ]) <= PTR_MAX && ptrval <= PTR_MAX && idxoff <= PTR_MAX
      requires IDXLEN_MIN <= |Body(idxbuf, datoff, datlen)| <= IDXLEN_MAX
      modifies this`idxoff, this`idxbuf, this`ptrval, this`idxpos, files`idx
      ensures files.idx == MovedIdx(old(files.idx), old(idxoff), old(idxbuf), datoff, datlen, ptroff, old(ptrval))
    {
      var freeptr := ReadPtr(FREE_OFF);
      var saveptr := ptrval;
      var ok := WriteIdx(idxbuf, idxoff, false, freeptr);
      ok := WritePtr(FREE_OFF, idxoff);
      ok := WritePtr(ptroff, saveptr);
    }

    /** The writes of _db_dodelete on the record that the handle describes. */
    method Wipe(ghost r: Rec)
      requires Cursor(idxoff, r) && InReach(files.idx, files.dat, idxoff, ptroff, r)
      modifies this, files`idx, files`dat
      ensures Wiped(old(files.idx), old(files.dat), old(idxoff), old(ptroff), r, files.idx, files.dat)
      ensures chainoff == old(chainoff)
    {
      datbuf := Blanks(datlen - 1);
      idxbuf := Blanks(|idxbuf|);
      WriteDat(datbuf, datoff, false);
      MoveToFree();
    }

    /** _db_dodelete: move the located record to the free list. */
    method DoDelete(ghost k: nat, ghost a: nat)
      requires files.Valid() && 0 < k
      requires Reached(files.Snapshot(), k, a, idxoff, ptroff)
      requires Cursor(idxoff, RecordAt(files.Snapshot(), k, a))
      modifies this, files
      ensures files.Valid() && chainoff == old(chainoff)
      ensures files.contents == old(files.contents) - {old(idxbuf)}
      ensures |files.idx| == |old(files.idx)| && |files.dat| == |old(files.dat)|
    {
      ghost var s := files.Snapshot();
      ghost var t := DeletePlan(s, k, a, idxoff, ptroff);
      Wipe(RecordAt(s, k, a));
      files.img, files.ls, files.contents := t.img, t.ls, t.m;
      assert files.Snapshot() == t;
    }

    /** db_delete. */
    method Delete(key: string) returns (found: bool)
      requires files.Valid()
      modifies this, files
      ensures files.Valid()
      ensures found <==> key in old(files.contents)
      ensures files.contents == old(files.contents) - {key}
      ensures |files.idx| == |old(files.idx)| && |files.dat| == |old(files.dat)|
    {
      ghost var a;
      found, a := Locate(key);
      if found {
        DoDelete(1 + Hash(key), a);
      }
    }

    /** The loop of _db_findfree: stop at the first free record with these lengths;
        saveoffset is then the place of the pointer to it. */
    method ScanFree(keylen: nat, datlen: nat) returns (found: bool, saveoffset: nat, ghost a: nat)
      requires Sound(files.Snapshot())
      modifies this
      ensures chainoff == old(chainoff)
      ensures !found ==> !HasFree(files.Snapshot(), keylen, datlen)
      ensures found ==> Reached(files.Snapshot(), 0, a, idxoff, saveoffset)
      ensures found ==> Cursor(idxoff, RecordAt(files.Snapshot(), 0, a))
      ensures found ==> |idxbuf| == keylen && this.datlen == datlen && NoneFit(files.Snapshot(), keylen, datlen, a)
    {
      ghost var s := files.Snapshot();
      a := 0;
      saveoffset := FREE_OFF;
      WalkStart(s, 0);
      var offset := ReadPtr(saveoffset);
      while offset != 0
        invariant Walk(s, 0, a, offset, saveoffset) && NoneFit(s, keylen, datlen, a)
        invariant chainoff == old(chainoff)
        decreases |s.ls.chains[0]| - a
      {
        ghost var r := WalkNext(s, 0, a, offset, saveoffset);
        var nextoffset := ReadIdx(offset, r);
        if |idxbuf| == keylen && this.datlen == datlen {
          return true, saveoffset, a;
        }
        assert Unfit(s, a, keylen, datlen);
        saveoffset, offset, a := offset, nextoffset, a + 1;
      }
      NoFree(s, keylen, datlen, a, saveoffset);
      found := false;
    }

    /** _db_findfree: take the first free record with these lengths off the free list. */
    method FindFree(keylen: nat, datlen: nat) returns (found: bool, ghost i: nat)
      requires files.Valid()
      modifies this, files
      ensures Sound(files.Snapshot()) && chainoff == old(chainoff)
      ensures found <==> HasFree(old(files.Snapshot()), keylen, datlen)
      ensures !found ==> files.Snapshot() == old(files.Snapshot())
      ensures found ==> Taken(old(files.Snapshot()), files.Snapshot(), i)
      ensures found ==> FitsAt(files.Snapshot(), i, idxoff, datoff, keylen, datlen)
    {
      ghost var s := files.Snapshot();
      var saveoffset;
      ghost var a;
      i := 0;
      found, saveoffset, a := ScanFree(keylen, datlen);
      if found {
        i := s.ls.chains[0][a];
        ghost var t := TakePlan(s, a, idxoff, saveoffset);
        var ok := WritePtr(saveoffset, ptrval);
        files.img, files.ls := t.img, t.ls;
        assert files.idx == t.idx;
        assert files.Snapshot() == t;
      }
    }

    /** The writes of the append path, up to where one of them ends the process. */
    method WriteBoth(key: string, data: string, ptr: nat) returns (ok: bool)
      requires chainoff <= |files.idx| && ptr <= PTR_MAX
      modifies this, files`idx, files`dat
      ensures ok <==> CanAppend(|old(files.idx)|, |old(files.dat)|, key, |data| + 1)
      ensures files.dat == Splice(old(files.dat), |old(files.dat)|, data + [NEWLINE])
      ensures var r := Rec(ptr, key, |old(files.dat)|, |data| + 1);
              files.idx ==
                if ok then Splice(Splice(old(files.idx), |old(files.idx)|, Encode(r)), old(chainoff),
                                  Pad(|old(files.idx)|, PTR_SZ))
                else if IDXLEN_MIN <= |RecBody(r)| <= IDXLEN_MAX
                then Splice(old(files.idx), |old(files.idx)|, Encode(r)) else old(files.idx)
    {
      WriteDat(data, 0, true);
      ok := WriteIdx(key, 0, true, ptr);
      if ok {
        ok := WritePtr(chainoff, idxoff);
      }
    }

    /** The append path of db_store: new records at the end of both files, first on the
        chain of key. */
    method StoreAppend(key: string, data: string, ptr: nat) returns (ok: bool)
      requires files.Valid() && CleanPair(key, data) && key !in files.contents
      requires chainoff == SlotOff(1 + Hash(key)) && ptr == files.img.heads[1 + Hash(key)]
      modifies this, files
      ensures ok <==> CanAppend(|old(files.idx)|, |old(files.dat)|, key, |data| + 1)
      ensures ok ==> files.Valid() && files.contents == old(files.contents)[key := data]
      ensures ok ==> |files.idx| == |old(files.idx)| + RecSize(key, |old(files.dat)|, |data| + 1)
      ensures ok ==> |files.dat| == |old(files.dat)| + |data| + 1
      ensures !ok ==> Stopped(old(files.Snapshot()), files.Snapshot(), key, data)
    {
      ghost var s := files.Snapshot();
      AppendRanges(s, key);
      ok := WriteBoth(key, data, ptr);
      if ok {
        ghost var t := AppendPlan(s, key, data);
        files.img, files.ls, files.contents := t.img, t.ls, t.m;
        assert files.Snapshot() == t;
      }
    }

    /** The reuse path of db_store: a record taken off the free list gets the new key
        and data and goes first on the chain of key. */
    method StoreReuse(key: string, data: string, ptr: nat, ghost i: nat)
      requires Sound(files.Snapshot()) && Loose(files.Snapshot(), i) && CleanPair(key, data) && key !in files.contents
      requires FitsAt(files.Snapshot(), i, idxoff, datoff, |key|, |data| + 1)
      requires chainoff == SlotOff(1 + Hash(key)) && ptr == files.img.heads[1 + Hash(key)]
      modifies this, files
      ensures files.Valid() && files.contents == old(files.contents)[key := data]
      ensures |files.idx| == |old(files.idx)| && |files.dat| == |old(files.dat)|
    {
      ghost var s := files.Snapshot();
      ghost var t := ReusePlan(s, key, data, i);
      WriteDat(data, datoff, false);
      var ok := WriteIdx(key, idxoff, false, ptr);
      ok := WritePtr(chainoff, idxoff);
      files.img, files.ls, files.contents := t.img, t.ls, t.m;
      assert files.dat == t.dat;
      assert files.idx == t.idx;
      assert files.Snapshot() == t;
    }

    /** The same-length path of db_store: only the data record is rewritten. */
    method StoreOver(key: string, data: string, ghost a: nat)
      requires files.Valid() && CleanPair(key, data)
      requires Reached(files.Snapshot(), 1 + Hash(key), a, idxoff, ptroff)
      requires Cursor(idxoff, RecordAt(files.Snapshot(), 1 + Hash(key), a)) && idxbuf == key && datlen == |data| + 1
      modifies this, files
      ensures files.Valid() && files.contents == old(files.contents)[key := data]
      ensures |files.idx| == |old(files.idx)| && |files.dat| == |old(files.dat)|
    {
      ghost var s := files.Snapshot();
      OverwritePlan(s, key, data, a, idxoff, ptroff);
      WriteDat(data, datoff, false);
      files.contents := files.contents[key := data];
      assert files.Snapshot() == s.(dat := files.dat, m := files.contents);
    }

    /** The not-found half of db_store. */
    method StoreNew(key: string, data: string) returns (ok: bool)
      requires files.Valid() && CleanPair(key, data) && key !in files.contents
      requires chainoff == SlotOff(1 + Hash(key))
      modifies this, files
      ensures ok <==> HasFree(old(files.Snapshot()), |key|, |data| + 1)
                      || CanAppend(|old(files.idx)|, |old(files.dat)|, key, |data| + 1)
      ensures ok ==> files.Valid() && files.contents == old(files.contents)[key := data]
      ensures ok ==> GrownBy(old(files.Snapshot()), files.Snapshot(), key, data)
      ensures !ok ==> Stopped(old(files.Snapshot()), files.Snapshot(), key, data)
    {
      ghost var s := files.Snapshot();
      HeadPtr(s, 1 + Hash(key));
      var ptr := ReadPtr(chainoff);
      var found, i := FindFree(|key|, |data| + 1);
      if !found {
        ok := StoreAppend(key, data, ptr);
      } else {
        SameChainHead(s, files.Snapshot(), i, 1 + Hash(key));
        StoreReuse(key, data, ptr, i);
        ok := true;
      }
    }

    /** The replacing half of db_store when the lengths differ. */
    method StoreMove(key: string, data: string, ghost a: nat) returns (ok: bool)
      requires files.Valid() && CleanPair(key, data)
      requires Reached(files.Snapshot(), 1 + Hash(key), a, idxoff, ptroff)
      requires Cursor(idxoff, RecordAt(files.Snapshot(), 1 + Hash(key), a)) && idxbuf == key
      requires chainoff == SlotOff(1 + Hash(key))
      modifies this, files
      ensures ok <==> CanAppend(|old(files.idx)|, |old(files.dat)|, key, |data| + 1)
      ensures ok ==> files.Valid() && files.contents == old(files.contents)[key := data]
      ensures ok ==> |files.idx| == |old(files.idx)| + RecSize(key, |old(files.dat)|, |data| + 1)
      ensures ok ==> |files.dat| == |old(files.dat)| + |data| + 1
      ensures !ok ==> Upto(files.Snapshot(), |old(files.idx)|) && files.contents == old(files.contents) - {key}
      ensures !ok && |old(files.idx)| <= PTR_MAX ==> files.Valid()
    {
      ghost var m := files.contents;
      DoDelete(1 + Hash(key), a);
      ghost var s := files.Snapshot();
      HeadPtr(files.Snapshot(), 1 + Hash(key));
      var ptr := ReadPtr(chainoff);
      ok := StoreAppend(key, data, ptr);
      assert (m - {key})[key := data] == m[key := data];
      if !ok { StoppedUpto(s, files.Snapshot(), key, data); }
    }

    /** db_store. */
    method Store(key: string, data: string, flag: Flag) returns (rc: StoreResult)
      requires files.Valid() && NoNul(key) && NoSep(key) && NoNul(data)
      modifies this, files
      ensures rc == StoreOutcome(old(files.Snapshot()), key, data, flag)
      ensures rc == Ok ==> files.Valid() && files.contents == old(files.contents)[key := data]
      ensures rc != Ok && rc != Fatal ==> files.Valid() && files.contents == old(files.contents)
      ensures rc == Fatal ==> files.contents == StoppedMap(old(files.contents), key, data)
      ensures rc == Fatal ==> Upto(files.Snapshot(), |old(files.idx)|)
      ensures rc == Fatal && |old(files.idx)| <= PTR_MAX ==> files.Valid()
      ensures rc != Fatal ==> Grown(old(files.Snapshot()), files.Snapshot(), key, data)
      ensures rc == Ok ==> GrownBy(old(files.Snapshot()), files.Snapshot(), key, data)
      ensures rc != Ok && rc != Fatal ==> files.Snapshot() == old(files.Snapshot())
    {
      ghost var s := files.Snapshot();
      if flag.OtherFlag? {
        return Invalid;
      }
      var len := |data| + 1;
      if len < DATLEN_MIN || len > DATLEN_MAX {
        assert s.(idx := s.idx[..|s.idx|]) == s;
        return Fatal;
      }
      var found, a := Locate(key);
      var ok := true;
      if !found {
        if flag.Replace? {
          return Missing;
        }
        ok := StoreNew(key, data);
        if !ok { StoppedUpto(s, files.Snapshot(), key, data); }
      } else {
        if flag.Insert? {
          return Exists;
        }
        ValueAt(files.Snapshot(), key, a, idxoff, ptroff);
        if len != datlen {
          ok := StoreMove(key, data, a);
        } else {
          StoreOver(key, data, a);
        }
      }
      rc := if ok then Ok else Fatal;
    }

    // -------------------------------------------------------------- sequential reading

    /** db_rewind. */
    method Rewind()
      modifies this`idxoff, this`idxpos
      ensures idxpos == RECS_OFF
    {
      idxoff := (NHASH + 1) * PTR_SZ + 1;
      idxpos := idxoff;
    }

    /** db_nextrec, with n records read so far: the next record whose key is not blank,
        skipping only records with blank keys. */
    method NextRec(ghost n: nat) returns (r: Option<(string, string)>, ghost n': nat)
      requires files.Valid() && n <= |files.img.recs| && idxpos == files.img.offs[n]
      modifies this
      ensures n <= n' <= |files.img.recs| && idxpos == files.img.offs[n']
      ensures r.None? ==> n' == |files.img.recs| && AllSkipped(files.Snapshot(), n, n')
      ensures r.Some? ==> n < n' && AllSkipped(files.Snapshot(), n, n' - 1)
      ensures r.Some? ==> Reports(files.Snapshot(), n' - 1, r.value)
    {
      ghost var s := files.Snapshot();
      n' := n;
      while idxpos < |files.idx|
        invariant n <= n' <= |s.img.recs| && idxpos == s.img.offs[n'] && AllSkipped(s, n, n')
        decreases |s.img.recs| - n'
      {
        NextHere(s, n');
        var next := ReadIdx(idxpos, s.img.recs[n']);
        n' := n' + 1;
        if !AllBlank(idxbuf) {
          NextLive(s, n' - 1);
          var key := idxbuf;
          var data := ReadDat();
          return Some((key, data)), n';
        }
        assert Skipped(s, n' - 1);
      }
      NextEnd(s, n');
      r := None;
    }

    /** A client: rewind and read to the end. */
    method ReadAll() returns (out: seq<(string, string)>)
      requires files.Valid()
      modifies this
      ensures forall a :: 0 <= a < |out| ==> GoodPair(files.contents, out[a])
      ensures forall a, b :: 0 <= a < b < |out| ==> out[a].0 != out[b].0
      ensures forall key :: key in files.contents && !AllBlank(key) ==> Listed(out, key)
    {
      ghost var s := files.Snapshot();
      ghost var n := 0;
      out := [];
      Rewind();
      OffsetAtLeast(s.img, 0);
      ghost var at: seq<nat> := [];
      var r := None;
      while true
        invariant n <= |s.img.recs| && idxpos == s.img.offs[n]
        invariant Progress(s, n, out, at)
        decreases |s.img.recs| - n
      {
        ghost var n';
        r, n' := NextRec(n);
        if r.None? {
          ProgressDone(s, n, out, at);
          return out;
        }
        ProgressStep(s, n, n', out, at, r.value);
        out := out + [r.value];
        at := at + [n' - 1];
        n := n';
      }
    }
  }
}
