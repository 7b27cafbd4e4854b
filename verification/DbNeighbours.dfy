/** A delete or a reuse of a record leaves every other record where it is, as it is. */
module DbNeighbours {
  import opened DbFormat
  import opened DbImage
  import opened DbContents
  import opened Db

  /** _db_readidx at the offset of record j gives record j. */
  lemma ReadsAs(s: State, j: nat)
    requires Sound(s) && j < |s.img.recs|
    ensures j < |s.img.offs|
      && ParseRecord(s.idx, s.img.offs[j], false) == Found(s.img.recs[j], |RecBody(s.img.recs[j])|)
  {
    assert ImageRec(s.idx, s.img, j);
    ReadBack(s.idx, s.img.offs[j], s.img.recs[j], false);
  }

  /** At the offset of record j both index files have a record with the same key, data offset
      and data length, and the data files have the same bytes for it. */
  ghost predicate Untouched(s: State, t: State, j: nat) {
    && j < |s.img.recs| && j < |s.img.offs|
    && var r := s.img.recs[j];
    && var off := s.img.offs[j];
    && ParseRecord(s.idx, off, false) == Found(r, |RecBody(r)|)
    && (exists p :: ParseRecord(t.idx, off, false) == Found(r.(ptr := p), |RecBody(r)|))
    && r.datoff + r.datlen <= |s.dat| == |t.dat|
    && t.dat[r.datoff..r.datoff + r.datlen] == s.dat[r.datoff..r.datoff + r.datlen]
  }

  lemma SameFields(recs: seq<Rec>, recs': seq<Rec>, j: nat)
    requires j < |recs| == |recs'| && SameAt(recs, recs', j)
    ensures recs'[j] == recs[j].(ptr := recs'[j].ptr) && |RecBody(recs'[j])| == |RecBody(recs[j])|
  {
  }

  lemma DataOutside(s: State, i: nat, j: nat, w: string)
    requires Sound(s) && i < |s.img.recs| && j < |s.img.recs| && i != j && |w| == s.img.recs[i].datlen
    ensures var r, q := s.img.recs[i], s.img.recs[j];
            && r.datoff + r.datlen <= |s.dat| && q.datoff + q.datlen <= |s.dat| == |Splice(s.dat, r.datoff, w)|
            && Splice(s.dat, r.datoff, w)[q.datoff..q.datoff + q.datlen] == s.dat[q.datoff..q.datoff + q.datlen]
  {
    var r, q := s.img.recs[i], s.img.recs[j];
    assert DataAt(s.img.recs, s.dat, i) && DataAt(s.img.recs, s.dat, j) && DbContents.Apart(s.img.recs, i, j);
    SpliceOutside(s.dat, r.datoff, w, q.datoff, q.datoff + q.datlen);
  }

  lemma UntouchedFrom(s: State, t: State, i: nat, j: nat, w: string)
    requires Sound(s) && Sound(t) && i < |s.img.recs| && j < |s.img.recs| && i != j
    requires t.img.offs == s.img.offs && |t.img.recs| == |s.img.recs| && SameAt(s.img.recs, t.img.recs, j)
    requires |w| == s.img.recs[i].datlen && s.img.recs[i].datoff <= |s.dat|
      && t.dat == Splice(s.dat, s.img.recs[i].datoff, w)
    ensures Untouched(s, t, j)
  {
    ReadsAs(s, j);
    ReadsAs(t, j);
    SameFields(s.img.recs, t.img.recs, j);
    DataOutside(s, i, j, w);
  }

  /** The state after the delete of position a of chain k, the record deleted, its offset. */
  lemma Deleted(s: State, k: nat, a: nat) returns (t: State, i: nat)
    requires Sound(s) && 0 < k < SLOTS && a < |s.ls.chains[k]|
    ensures Member(s.img, s.ls, k, a) && (a > 0 ==> Member(s.img, s.ls, k, a - 1))
    ensures DeletedRoom(s, s.ls.chains[k][a], PtrSlot(s, k, a)) && t == DeletedState(s, k, a) && Sound(t)
    ensures i == s.ls.chains[k][a] < |s.img.recs| == |t.img.recs| && t.img.offs == s.img.offs
    ensures |s.img.heads| > 0 && t.img.recs[i] == FreedRec(s.img, i) && OthersSame(s.img.recs, t.img.recs, i)
    ensures 1 <= s.img.recs[i].datlen && s.img.recs[i].datoff <= |s.dat|
    ensures |t.idx| == |s.idx| && |t.dat| == |s.dat|
    ensures t.dat == Splice(s.dat, s.img.recs[i].datoff, Blanks(s.img.recs[i].datlen - 1) + [NEWLINE])
  {
    DeleteSound(s, k, a);
    i := s.ls.chains[k][a];
    t := DeletedState(s, k, a);
    PredecessorDiffers(s, k, a);
    FreedPayload(s.img, s.ls, k, a);
    DeletedSizes(s, i, PtrSlot(s, k, a));
  }

  lemma PredecessorDiffers(s: State, k: nat, a: nat)
    requires Sound(s) && k < SLOTS && a < |s.ls.chains[k]|
    ensures a > 0 ==> s.ls.chains[k][a - 1] != s.ls.chains[k][a]
  {
    assert DbImage.Chain(s.img, s.ls, k) && (a > 0 ==> Differ(s.ls.chains[k], a - 1, a));
  }

  /** _db_dodelete keeps the length of both files, rewrites its record with a blank key of the
      same length and the same data extent, and leaves every other record and its data. */
  lemma DeleteNeighbours(s: State, k: nat, a: nat, j: nat) returns (t: State, i: nat)
    requires Sound(s) && 0 < k < SLOTS && a < |s.ls.chains[k]| && j < |s.img.recs|
    ensures Member(s.img, s.ls, k, a) && (a > 0 ==> Member(s.img, s.ls, k, a - 1))
    ensures DeletedRoom(s, s.ls.chains[k][a], PtrSlot(s, k, a)) && t == DeletedState(s, k, a)
    ensures i == s.ls.chains[k][a] < |s.img.recs| < |s.img.offs| && |s.img.heads| > 0
    ensures |t.idx| == |s.idx| && |t.dat| == |s.dat|
    ensures var r := s.img.recs[i];
            ParseRecord(t.idx, s.img.offs[i], false)
            == Found(Rec(s.img.heads[0], Blanks(|r.key|), r.datoff, r.datlen), |RecBody(r)|)
    ensures var r := s.img.recs[i];
            && 1 <= r.datlen && r.datoff + r.datlen <= |t.dat|
            && t.dat[r.datoff..r.datoff + r.datlen] == Blanks(r.datlen - 1) + [NEWLINE]
    ensures j != i ==> Untouched(s, t, j)
  {
    t, i := Deleted(s, k, a);
    ReadsAs(t, i);
    assert DataAt(t.img.recs, t.dat, i);
    BlankBody(s.img.recs[i], FreedRec(s.img, i));
    if j != i { UntouchedFrom(s, t, i, j, Blanks(s.img.recs[i].datlen - 1) + [NEWLINE]); }
  }

  lemma BlankBody(r: Rec, q: Rec)
    requires |q.key| == |r.key| && q.datoff == r.datoff && q.datlen == r.datlen
    ensures |RecBody(q)| == |RecBody(r)|
  {
  }

  /** The reuse path of db_store writes its key and data over a record with the same lengths
      and leaves every other record and its data. */
  lemma ReuseNeighbours(s: State, i: nat, r: Rec, data: string, j: nat)
    requires Sound(s) && i < |s.img.recs| && s.ls.own[i] == LOOSE && j < |s.img.recs|
    requires ValidRec(r) && r.ptr == s.img.heads[1 + Hash(r.key)] && Size(r) == Size(s.img.recs[i])
    requires r.datoff == s.img.recs[i].datoff && r.datlen == s.img.recs[i].datlen == |data| + 1
    requires r.key !in s.m && NoNul(data)
    ensures s.img.offs[i] <= |s.idx| && SlotOff(1 + Hash(r.key)) <= |s.idx| && s.img.recs[i].datoff <= |s.dat|
    ensures var t := ReusedState(s, i, r, data);
            && |t.dat| == |s.dat| && ParseRecord(t.idx, s.img.offs[i], false) == Found(r, |RecBody(r)|)
            && (j != i ==> Untouched(s, t, j))
  {
    ReuseSound(s, i, r, data);
    var t := ReusedState(s, i, r, data);
    ReadsAs(t, i);
    assert DataAt(s.img.recs, s.dat, i);
    if j != i { UntouchedFrom(s, t, i, j, data + [NEWLINE]); }
  }
}
