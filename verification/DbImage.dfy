/** What the index file means: index records at byte offsets, linked into hash chains
    and a free list.  Each quantified condition is a predicate of its own, so that a
    proof names the instances it uses. */
module DbImage {
  import opened DbFormat

  const SLOTS := NHASH + 1
  /** Owner of a record that is on no list. */
  const LOOSE := NHASH + 1

  /** The index file as numbers: heads[0] is the free-list pointer, heads[1 + h] the
      pointer of hash chain h; record i occupies bytes offs[i] to offs[i + 1]. */
  datatype Image = Image(heads: seq<nat>, recs: seq<Rec>, offs: seq<nat>)

  /** Which list each record is on, and each list's records in link order. */
  datatype Lists = Lists(own: seq<nat>, chains: seq<seq<nat>>)

  // ---------------------------------------------------------------- bytes and image

  predicate OffAt(img: Image, i: nat)
    requires i < |img.recs| && |img.offs| == |img.recs| + 1
  {
    img.offs[i + 1] == img.offs[i] + Size(img.recs[i])
  }

  ghost predicate Offsets(img: Image) {
    && |img.heads| == SLOTS
    && |img.offs| == |img.recs| + 1
    && img.offs[0] == RECS_OFF
    && forall i :: 0 <= i < |img.recs| ==> OffAt(img, i)
  }

  ghost predicate HeadAt(idx: string, img: Image, k: nat)
    requires |img.heads| == SLOTS && k < SLOTS
  {
    && PTR_SZ * k + PTR_SZ <= |idx|
    && img.heads[k] <= PTR_MAX
    && idx[PTR_SZ * k..PTR_SZ * k + PTR_SZ] == Pad(img.heads[k], PTR_SZ)
  }

  ghost predicate RecAt(idx: string, off: nat, r: Rec) {
    && ValidRec(r)
    && off <= PTR_MAX
    && off + Size(r) <= |idx|
    && idx[off..off + Size(r)] == Encode(r)
  }

  ghost predicate ImageRec(idx: string, img: Image, i: nat)
    requires i < |img.recs| < |img.offs|
  {
    RecAt(idx, img.offs[i], img.recs[i])
  }

  /** The index file holds exactly this image: the records tile it to its end. */
  ghost predicate Layout(idx: string, img: Image) {
    && Offsets(img)
    && (forall k :: 0 <= k < SLOTS ==> HeadAt(idx, img, k))
    && (forall i :: 0 <= i < |img.recs| ==> ImageRec(idx, img, i))
    && |idx| == img.offs[|img.recs|]
  }

  /** Byte offset of the pointer slot k of the header. */
  function SlotOff(k: nat): nat { PTR_SZ * k }

  lemma {:induction false} OffsetAtLeast(img: Image, i: nat)
    requires Offsets(img) && i <= |img.recs|
    ensures RECS_OFF <= img.offs[i]
  {
    if i > 0 {
      OffsetAtLeast(img, i - 1);
      assert OffAt(img, i - 1);
    }
  }

  lemma {:induction false} OffsetsGrow(img: Image, i: nat, j: nat)
    requires Offsets(img) && i < j <= |img.recs|
    ensures RECS_OFF <= img.offs[i] && img.offs[i] + Size(img.recs[i]) <= img.offs[j]
    decreases j
  {
    assert OffAt(img, j - 1);
    if i + 1 < j {
      OffsetsGrow(img, i, j - 1);
    } else {
      OffsetAtLeast(img, i);
    }
  }

  function SetHead(img: Image, k: nat, p: nat): Image
    requires k < |img.heads|
  {
    img.(heads := img.heads[k := p])
  }

  function SetRec(img: Image, i: nat, r: Rec): Image
    requires i < |img.recs|
  {
    img.(recs := img.recs[i := r])
  }

  function SetPtr(img: Image, i: nat, p: nat): Image
    requires i < |img.recs|
  {
    SetRec(img, i, img.recs[i].(ptr := p))
  }

  function AddRec(img: Image, r: Rec): Image
    requires |img.offs| == |img.recs| + 1
  {
    img.(recs := img.recs + [r], offs := img.offs + [img.offs[|img.recs|] + Size(r)])
  }

  lemma ReadHead(idx: string, img: Image, k: nat)
    requires Layout(idx, img) && k < SLOTS
    ensures PTR_SZ * k + PTR_SZ <= |idx|
    ensures Atol(idx[PTR_SZ * k..PTR_SZ * k + PTR_SZ]) == img.heads[k] <= PTR_MAX
  {
    assert HeadAt(idx, img, k);
    AtolPad(img.heads[k], PTR_SZ);
  }

  lemma WriteHead(idx: string, img: Image, k: nat, p: nat)
    requires Layout(idx, img) && k < SLOTS && p <= PTR_MAX
    ensures PTR_SZ * k <= |idx|
    ensures Layout(Splice(idx, PTR_SZ * k, Pad(p, PTR_SZ)), SetHead(img, k, p))
  {
    var w := Pad(p, PTR_SZ);
    PadWidth(p);
    assert HeadAt(idx, img, k);
    var f := Splice(idx, PTR_SZ * k, w);
    var img' := SetHead(img, k, p);
    forall j | 0 <= j < SLOTS ensures HeadAt(f, img', j) {
      assert HeadAt(idx, img, j);
      if j != k { SpliceOutside(idx, PTR_SZ * k, w, PTR_SZ * j, PTR_SZ * j + PTR_SZ); }
    }
    forall i | 0 <= i < |img.recs| ensures ImageRec(f, img', i) && OffAt(img', i) {
      assert ImageRec(idx, img, i) && OffAt(img, i);
      OffsetAtLeast(img, i);
      SpliceOutside(idx, PTR_SZ * k, w, img.offs[i], img.offs[i] + Size(img.recs[i]));
    }
  }

  /** Overwriting one record by one of the same size touches no neighbour. */
  lemma WriteRec(idx: string, img: Image, i: nat, r: Rec)
    requires Layout(idx, img) && i < |img.recs|
    requires ValidRec(r) && Size(r) == Size(img.recs[i])
    ensures img.offs[i] <= |idx|
    ensures Layout(Splice(idx, img.offs[i], Encode(r)), SetRec(img, i, r))
  {
    EncodeSize(r);
    OffsetAtLeast(img, i);
    assert ImageRec(idx, img, i);
    var f := Splice(idx, img.offs[i], Encode(r));
    var img' := SetRec(img, i, r);
    forall k | 0 <= k < SLOTS ensures HeadAt(f, img', k) {
      assert HeadAt(idx, img, k);
      SpliceOutside(idx, img.offs[i], Encode(r), PTR_SZ * k, PTR_SZ * k + PTR_SZ);
    }
    forall j | 0 <= j < |img.recs| ensures ImageRec(f, img', j) && OffAt(img', j) {
      assert ImageRec(idx, img, j) && OffAt(img, j);
      if j != i {
        if j < i { OffsetsGrow(img, j, i); } else { OffsetsGrow(img, i, j); }
        SpliceOutside(idx, img.offs[i], Encode(r), img.offs[j], img.offs[j] + Size(img.recs[j]));
      }
    }
  }

  /** Rewriting only the pointer field is the same as rewriting the whole record. */
  lemma WritePtrField(idx: string, img: Image, i: nat, p: nat)
    requires Layout(idx, img) && i < |img.recs| && p <= PTR_MAX
    ensures img.offs[i] <= |idx|
    ensures Layout(Splice(idx, img.offs[i], Pad(p, PTR_SZ)), SetPtr(img, i, p))
  {
    var r := img.recs[i];
    assert ImageRec(idx, img, i);
    WriteRec(idx, img, i, r.(ptr := p));
    SamePtrField(idx, img.offs[i], r, p);
  }

  lemma SamePtrField(idx: string, off: nat, r: Rec, p: nat)
    requires RecAt(idx, off, r) && p <= PTR_MAX
    ensures Splice(idx, off, Pad(p, PTR_SZ)) == Splice(idx, off, Encode(r.(ptr := p)))
  {
    PadWidth(p);
    PadWidth(r.ptr);
    var e := Pad(|RecBody(r)|, IDXLEN_SZ) + RecBody(r);
    assert Encode(r.(ptr := p)) == Pad(p, PTR_SZ) + e;
    assert Encode(r) == Pad(r.ptr, PTR_SZ) + e;
    EncodeSize(r);
    SpliceFront(idx, off, Pad(r.ptr, PTR_SZ), Pad(p, PTR_SZ), e);
  }

  lemma SpliceFront(file: string, off: nat, a: string, a': string, e: string)
    requires |a| == |a'| && off + |a + e| <= |file| && file[off..off + |a + e|] == a + e
    ensures Splice(file, off, a') == Splice(file, off, a' + e)
  {
    var n := |a + e|;
    SubSlice(file, off, n, |a|, n);
    assert (a + e)[|a|..n] == e;
    assert file[off + |a|..] == file[off + |a|..off + n] + file[off + n..];
  }

  lemma AppendRec(idx: string, img: Image, r: Rec)
    requires Layout(idx, img) && ValidRec(r) && |idx| <= PTR_MAX
    ensures Layout(Splice(idx, |idx|, Encode(r)), AddRec(img, r))
  {
    EncodeSize(r);
    var f := Splice(idx, |idx|, Encode(r));
    var img' := AddRec(img, r);
    forall k | 0 <= k < SLOTS ensures HeadAt(f, img', k) {
      assert HeadAt(idx, img, k);
      SpliceOutside(idx, |idx|, Encode(r), PTR_SZ * k, PTR_SZ * k + PTR_SZ);
    }
    forall j | 0 <= j < |img'.recs| ensures ImageRec(f, img', j) && OffAt(img', j) {
      if j < |img.recs| {
        assert ImageRec(idx, img, j) && OffAt(img, j);
        SpliceOutside(idx, |idx|, Encode(r), img.offs[j], img.offs[j] + Size(img.recs[j]));
      }
    }
  }

  // ---------------------------------------------------------------- lists

  /** Value of the pointer that leads to position a of a list; 0 past its end. */
  function PtrTo(offs: seq<nat>, chain: seq<nat>, a: nat): nat {
    if a < |chain| && chain[a] < |offs| then offs[chain[a]] else 0
  }

  ghost predicate Member(img: Image, ls: Lists, k: nat, a: nat)
    requires k < |ls.chains| && a < |ls.chains[k]|
  {
    && ls.chains[k][a] < |img.recs|
    && ls.chains[k][a] < |ls.own|
    && ls.own[ls.chains[k][a]] == k
    && img.recs[ls.chains[k][a]].ptr == PtrTo(img.offs, ls.chains[k], a + 1)
  }

  predicate Differ(c: seq<nat>, a: nat, b: nat)
    requires a < |c| && b < |c|
  {
    c[a] != c[b]
  }

  ghost predicate Chain(img: Image, ls: Lists, k: nat)
    requires k < |ls.chains| && k < |img.heads|
  {
    && img.heads[k] == PtrTo(img.offs, ls.chains[k], 0)
    && (forall a :: 0 <= a < |ls.chains[k]| ==> Member(img, ls, k, a))
    && (forall a, b :: 0 <= a < b < |ls.chains[k]| ==> Differ(ls.chains[k], a, b))
  }

  ghost predicate Owned(ls: Lists, i: nat)
    requires i < |ls.own| && |ls.chains| == SLOTS
  {
    ls.own[i] <= LOOSE && (ls.own[i] < SLOTS ==> i in ls.chains[ls.own[i]])
  }

  /** Every list is well linked and acyclic, and every record is on exactly the list
      that own names, or on none when it is loose. */
  ghost predicate Linked(img: Image, ls: Lists) {
    && Offsets(img)
    && |ls.own| == |img.recs|
    && |ls.chains| == SLOTS
    && (forall k :: 0 <= k < SLOTS ==> Chain(img, ls, k))
    && (forall i :: 0 <= i < |img.recs| ==> Owned(ls, i))
  }

  function Without(c: seq<nat>, a: nat): seq<nat>
    requires a < |c|
  {
    c[..a] + c[a + 1..]
  }

  /** Image after the pointer to position a of list k was set to p. */
  function Relink(img: Image, ls: Lists, k: nat, a: nat, p: nat): Image
    requires k < |ls.chains| && k < |img.heads| && a < |ls.chains[k]|
    requires a > 0 ==> ls.chains[k][a - 1] < |img.recs|
  {
    if a == 0 then SetHead(img, k, p) else SetPtr(img, ls.chains[k][a - 1], p)
  }

  function Remove(ls: Lists, k: nat, a: nat): Lists
    requires k < |ls.chains| && a < |ls.chains[k]| && ls.chains[k][a] < |ls.own|
  {
    Lists(ls.own[ls.chains[k][a] := LOOSE], ls.chains[k := Without(ls.chains[k], a)])
  }

  function Push(ls: Lists, k: nat, i: nat): Lists
    requires k < |ls.chains| && i < |ls.own|
  {
    Lists(ls.own[i := k], ls.chains[k := [i] + ls.chains[k]])
  }

  lemma {:induction false} SameOffsets(img: Image, img': Image)
    requires Offsets(img) && img'.offs == img.offs && |img'.recs| == |img.recs| && |img'.heads| == SLOTS
    requires forall i :: 0 <= i < |img.recs| ==> Size(img'.recs[i]) == Size(img.recs[i])
    ensures Offsets(img')
  {
    forall i | 0 <= i < |img.recs| ensures OffAt(img', i) {
      assert OffAt(img, i);
    }
  }

  lemma RemoveChain(img: Image, ls: Lists, k: nat, a: nat)
    requires Linked(img, ls) && k < SLOTS && a < |ls.chains[k]|
    requires Member(img, ls, k, a)
    requires a > 0 ==> Member(img, ls, k, a - 1)
    ensures Chain(Relink(img, ls, k, a, img.recs[ls.chains[k][a]].ptr), Remove(ls, k, a), k)
  {
    var i := ls.chains[k][a];
    var img' := Relink(img, ls, k, a, img.recs[i].ptr);
    var ls' := Remove(ls, k, a);
    var c, c' := ls.chains[k], ls'.chains[k];
    assert Chain(img, ls, k);
    assert forall b :: 0 <= b < |c'| ==> c'[b] == if b < a then c[b] else c[b + 1];
    forall b | 0 <= b < |c'| ensures Member(img', ls', k, b) {
      var b0 := if b < a then b else b + 1;
      assert Member(img, ls, k, b0);
      assert b0 < a ==> Differ(c, b0, a);
      assert a < b0 ==> Differ(c, a, b0);
      if b + 1 != a && a > 0 {
        assert b0 < a - 1 ==> Differ(c, b0, a - 1);
        assert a - 1 < b0 ==> Differ(c, a - 1, b0);
      }
    }
    forall b, d | 0 <= b < d < |c'| ensures Differ(c', b, d) {
      var b0, d0 := if b < a then b else b + 1, if d < a then d else d + 1;
      assert Differ(c, b0, d0);
    }
  }

  /** Unlinking a record leaves every list well formed and the record loose. */
  lemma RemoveLinked(img: Image, ls: Lists, k: nat, a: nat)
    requires Linked(img, ls) && k < SLOTS && a < |ls.chains[k]|
    ensures Member(img, ls, k, a) && (a > 0 ==> Member(img, ls, k, a - 1))
    ensures Linked(Relink(img, ls, k, a, img.recs[ls.chains[k][a]].ptr), Remove(ls, k, a))
  {
    assert Chain(img, ls, k) && Member(img, ls, k, a) && (a > 0 ==> Member(img, ls, k, a - 1));
    RemoveChain(img, ls, k, a);
    var i := ls.chains[k][a];
    var img' := Relink(img, ls, k, a, img.recs[i].ptr);
    var ls' := Remove(ls, k, a);
    SameOffsets(img, img');
    forall m | 0 <= m < SLOTS ensures Chain(img', ls', m) {
      if m != k {
        OtherChain(img, ls, k, a, m);
      }
    }
    forall j | 0 <= j < |img.recs| ensures Owned(ls', j) {
      assert Owned(ls, j);
      if j != i && ls.own[j] == k {
        var b :| 0 <= b < |ls.chains[k]| && ls.chains[k][b] == j;
        var b' := if b < a then b else b - 1;
        assert ls'.chains[k][b'] == j;
      }
    }
  }

  lemma OtherChain(img: Image, ls: Lists, k: nat, a: nat, m: nat)
    requires Linked(img, ls) && k < SLOTS && a < |ls.chains[k]| && m < SLOTS && m != k
    requires Member(img, ls, k, a)
    requires a > 0 ==> Member(img, ls, k, a - 1)
    ensures Chain(Relink(img, ls, k, a, img.recs[ls.chains[k][a]].ptr), Remove(ls, k, a), m)
  {
    var img' := Relink(img, ls, k, a, img.recs[ls.chains[k][a]].ptr);
    var ls' := Remove(ls, k, a);
    assert Chain(img, ls, m);
    forall b | 0 <= b < |ls.chains[m]| ensures Member(img', ls', m, b) {
      assert Member(img, ls, m, b);
    }
  }

  /** Putting a loose record at the front of a list. */
  lemma PushLinked(img: Image, ls: Lists, k: nat, i: nat, r: Rec)
    requires Linked(img, ls) && k < SLOTS && i < |img.recs| && ls.own[i] == LOOSE
    requires r.ptr == img.heads[k] && Size(r) == Size(img.recs[i])
    ensures Linked(SetHead(SetRec(img, i, r), k, img.offs[i]), Push(ls, k, i))
  {
    var img' := SetHead(SetRec(img, i, r), k, img.offs[i]);
    var ls' := Push(ls, k, i);
    SameOffsets(img, img');
    forall m | 0 <= m < SLOTS ensures Chain(img', ls', m) {
      assert Chain(img, ls, m);
      forall b | 0 <= b < |ls'.chains[m]| ensures Member(img', ls', m, b) {
        if m == k && b > 0 { assert Member(img, ls, k, b - 1); }
        if m != k { assert Member(img, ls, m, b); }
      }
      forall b, d | 0 <= b < d < |ls'.chains[m]| ensures Differ(ls'.chains[m], b, d) {
        if m == k {
          assert Member(img, ls, k, d - 1);
          assert b > 0 ==> Differ(ls.chains[k], b - 1, d - 1);
        } else {
          assert Differ(ls.chains[m], b, d);
        }
      }
    }
    forall j | 0 <= j < |img.recs| ensures Owned(ls', j) {
      assert Owned(ls, j);
    }
  }

  /** A new record at the end of the file, on no list yet. */
  lemma AppendLinked(img: Image, ls: Lists, r: Rec)
    requires Linked(img, ls)
    ensures Linked(AddRec(img, r), Lists(ls.own + [LOOSE], ls.chains))
  {
    var img' := AddRec(img, r);
    var ls' := Lists(ls.own + [LOOSE], ls.chains);
    forall m | 0 <= m < SLOTS ensures Chain(img', ls', m) {
      assert Chain(img, ls, m);
      forall b | 0 <= b < |ls.chains[m]| ensures Member(img', ls', m, b) {
        assert Member(img, ls, m, b);
        if b + 1 < |ls.chains[m]| { assert Member(img, ls, m, b + 1); }
      }
      if |ls.chains[m]| > 0 { assert Member(img, ls, m, 0); }
    }
    forall j | 0 <= j < |img'.recs| ensures Owned(ls', j) && OffAt(img', j) {
      if j < |img.recs| { assert Owned(ls, j) && OffAt(img, j); }
    }
  }
}
