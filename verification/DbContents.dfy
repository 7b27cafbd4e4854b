/** The data file, and the map from keys to data that the two files represent. */
module DbContents {
  import opened DbFormat
  import opened DbImage

  ghost predicate InFile(r: Rec, dat: string) {
    && 1 <= r.datlen
    && r.datoff + r.datlen <= |dat|
    && dat[r.datoff + r.datlen - 1] == NEWLINE
  }

  ghost predicate DataAt(recs: seq<Rec>, dat: string, i: nat)
    requires i < |recs|
  {
    InFile(recs[i], dat)
  }

  ghost predicate Apart(recs: seq<Rec>, i: nat, j: nat)
    requires i < |recs| && j < |recs|
  {
    var r, q := recs[i], recs[j];
    r.datoff + r.datlen <= q.datoff || q.datoff + q.datlen <= r.datoff
  }

  /** Every data record lies in the file and no two overlap. */
  ghost predicate Extents(recs: seq<Rec>, dat: string) {
    && (forall i :: 0 <= i < |recs| ==> DataAt(recs, dat, i))
    && (forall i, j :: 0 <= i < |recs| && 0 <= j < |recs| && i != j ==> Apart(recs, i, j))
  }

  function Value(dat: string, r: Rec): string
    requires 1 <= r.datlen && r.datoff + r.datlen <= |dat|
  {
    dat[r.datoff..r.datoff + r.datlen - 1]
  }

  predicate Live(own: nat) { own != 0 && own < SLOTS }

  ghost predicate Holds(r: Rec, own: nat, dat: string, m: map<string, string>) {
    && own == 1 + Hash(r.key)
    && InFile(r, dat)
    && r.key in m
    && m[r.key] == Value(dat, r)
    && NoNul(Value(dat, r))
  }

  /** A live record is an entry of m on the chain of its key; a free one has a blank key. */
  ghost predicate Entry(recs: seq<Rec>, own: seq<nat>, dat: string, m: map<string, string>, i: nat)
    requires i < |recs| == |own|
  {
    && (own[i] == 0 ==> AllBlank(recs[i].key))
    && (Live(own[i]) ==> Holds(recs[i], own[i], dat, m))
  }

  ghost predicate KeysDiffer(recs: seq<Rec>, own: seq<nat>, i: nat, j: nat)
    requires i < |recs| == |own| && j < |recs|
  {
    Live(own[i]) && Live(own[j]) ==> recs[i].key != recs[j].key
  }

  ghost predicate HasKey(recs: seq<Rec>, own: seq<nat>, i: nat, key: string)
    requires i < |recs| == |own|
  {
    Live(own[i]) && recs[i].key == key
  }

  ghost predicate Stored(recs: seq<Rec>, own: seq<nat>, key: string)
    requires |recs| == |own|
  {
    exists i :: 0 <= i < |recs| && HasKey(recs, own, i, key)
  }

  /** The records on the hash chains are exactly the entries of m. */
  ghost predicate Represents(recs: seq<Rec>, own: seq<nat>, dat: string, m: map<string, string>) {
    && |own| == |recs|
    && (forall i :: 0 <= i < |recs| ==> Entry(recs, own, dat, m, i))
    && (forall i, j :: 0 <= i < |recs| && 0 <= j < |recs| && i != j ==> KeysDiffer(recs, own, i, j))
    && (forall key :: key in m ==> Stored(recs, own, key))
  }

  /** Records j are equal except for the chain pointer. */
  predicate SameAt(recs: seq<Rec>, recs': seq<Rec>, j: nat)
    requires j < |recs| <= |recs'|
  {
    var r, q := recs[j], recs'[j];
    r.key == q.key && r.datoff == q.datoff && r.datlen == q.datlen
  }

  ghost predicate OthersSame(recs: seq<Rec>, recs': seq<Rec>, i: nat) {
    && |recs| <= |recs'|
    && forall j :: 0 <= j < |recs| && j != i ==> SameAt(recs, recs', j)
  }

  lemma StoredStays(recs: seq<Rec>, own: seq<nat>, recs': seq<Rec>, own': seq<nat>, i: nat, key: string)
    requires |own| == |recs| <= |recs'| == |own'|
    requires Stored(recs, own, key) && OthersSame(recs, recs', i)
    requires forall j :: 0 <= j < |recs| && j != i ==> own'[j] == own[j]
    requires i < |recs| ==> !Live(own[i]) || recs[i].key != key
    ensures Stored(recs', own', key)
  {
    var j :| 0 <= j < |recs| && HasKey(recs, own, j, key);
    assert SameAt(recs, recs', j);
    assert HasKey(recs', own', j, key);
  }

  // ---------------------------------------------------------------- data writes

  lemma LastOf(f: string, g: string, lo: nat, hi: nat)
    requires lo < hi <= |f| && hi <= |g| && f[lo..hi] == g[lo..hi]
    ensures f[hi - 1] == g[hi - 1] && f[lo..hi - 1] == g[lo..hi - 1]
  {
    assert f[lo..hi][hi - 1 - lo] == g[lo..hi][hi - 1 - lo];
    assert f[lo..hi - 1] == f[lo..hi][..hi - 1 - lo];
    assert g[lo..hi - 1] == g[lo..hi][..hi - 1 - lo];
  }

  lemma WrittenValue(dat: string, r: Rec, data: string)
    requires r.datoff <= |dat| && r.datlen == |data| + 1
    ensures var d := Splice(dat, r.datoff, data + [NEWLINE]); InFile(r, d) && Value(d, r) == data
  {
    var w := data + [NEWLINE];
    var d := Splice(dat, r.datoff, w);
    var e := d[r.datoff..r.datoff + |w|];
    assert e == w;
    assert e[|data|] == d[r.datoff + |data|];
    assert d[r.datoff..r.datoff + |data|] == e[..|data|] == data;
  }

  /** Record j's data is the same in both data files. */
  ghost predicate DataSame(recs: seq<Rec>, dat: string, d: string, j: nat)
    requires j < |recs|
  {
    InFile(recs[j], dat) && InFile(recs[j], d) && Value(d, recs[j]) == Value(dat, recs[j])
  }

  /** Writing record i's data record leaves every other data record as it was. */
  lemma ExtentsWrite(recs: seq<Rec>, dat: string, i: nat, recs': seq<Rec>, data: string)
    requires Extents(recs, dat) && i < |recs| && |recs'| == |recs|
    requires OthersSame(recs, recs', i)
    requires recs'[i].datoff == recs[i].datoff && recs'[i].datlen == recs[i].datlen == |data| + 1
    ensures recs[i].datoff <= |dat|
    ensures var d := Splice(dat, recs[i].datoff, data + [NEWLINE]);
            && Extents(recs', d)
            && (forall j :: 0 <= j < |recs| && j != i ==> DataSame(recs, dat, d, j))
            && InFile(recs'[i], d) && Value(d, recs'[i]) == data
  {
    var w := data + [NEWLINE];
    assert DataAt(recs, dat, i);
    var d := Splice(dat, recs[i].datoff, w);
    forall j | 0 <= j < |recs| && j != i ensures DataSame(recs, dat, d, j) && DataAt(recs', d, j) {
      assert Apart(recs, i, j) && DataAt(recs, dat, j) && SameAt(recs, recs', j);
      var lo, hi := recs[j].datoff, recs[j].datoff + recs[j].datlen;
      SpliceOutside(dat, recs[i].datoff, w, lo, hi);
      LastOf(dat, d, lo, hi);
    }
    WrittenValue(dat, recs'[i], data);
    assert DataAt(recs', d, i);
    StillApart(recs, recs', i, dat);
  }

  lemma StillApart(recs: seq<Rec>, recs': seq<Rec>, i: nat, dat: string)
    requires Extents(recs, dat) && |recs'| == |recs| && OthersSame(recs, recs', i)
    requires i < |recs| ==> recs'[i].datoff == recs[i].datoff && recs'[i].datlen == recs[i].datlen
    ensures forall j, m :: 0 <= j < |recs| && 0 <= m < |recs| && j != m ==> Apart(recs', j, m)
  {
    forall j, m | 0 <= j < |recs| && 0 <= m < |recs| && j != m ensures Apart(recs', j, m) {
      assert Apart(recs, j, m);
      assert j != i ==> SameAt(recs, recs', j);
      assert m != i ==> SameAt(recs, recs', m);
    }
  }

  // ---------------------------------------------------------------- effects on the map

  /** Only chain pointers changed. */
  lemma RepresentsRelinked(recs: seq<Rec>, own: seq<nat>, dat: string, m: map<string, string>, recs': seq<Rec>)
    requires Represents(recs, own, dat, m) && Extents(recs, dat)
    requires |recs'| == |recs| && OthersSame(recs, recs', |recs|)
    ensures Represents(recs', own, dat, m) && Extents(recs', dat)
  {
    StillApart(recs, recs', |recs|, dat);
    forall i | 0 <= i < |recs| ensures DataAt(recs', dat, i) && Entry(recs', own, dat, m, i) {
      assert DataAt(recs, dat, i) && Entry(recs, own, dat, m, i) && SameAt(recs, recs', i);
    }
    forall i, j | 0 <= i < |recs| && 0 <= j < |recs| && i != j ensures KeysDiffer(recs', own, i, j) {
      assert KeysDiffer(recs, own, i, j) && SameAt(recs, recs', i) && SameAt(recs, recs', j);
    }
    forall key | key in m ensures Stored(recs', own, key) {
      StoredStays(recs, own, recs', own, |recs|, key);
    }
  }

  /** A record taken off the free list. */
  lemma RepresentsLoosened(recs: seq<Rec>, own: seq<nat>, dat: string, m: map<string, string>, i: nat)
    requires Represents(recs, own, dat, m) && i < |recs| && own[i] == 0
    ensures Represents(recs, own[i := LOOSE], dat, m)
  {
    var own' := own[i := LOOSE];
    forall j | 0 <= j < |recs| ensures Entry(recs, own', dat, m, j) {
      assert Entry(recs, own, dat, m, j);
    }
    forall j, n | 0 <= j < |recs| && 0 <= n < |recs| && j != n ensures KeysDiffer(recs, own', j, n) {
      assert KeysDiffer(recs, own, j, n);
    }
    assert OthersSame(recs, recs, i);
    forall key | key in m ensures Stored(recs, own', key) {
      StoredStays(recs, own, recs, own', i, key);
    }
  }

  lemma OtherEntry(recs: seq<Rec>, own: seq<nat>, dat: string, m: map<string, string>, i: nat, j: nat,
                   recs': seq<Rec>, own': seq<nat>, d: string, m': map<string, string>)
    requires Represents(recs, own, dat, m) && j < |recs| && i != j && |own| == |recs| <= |recs'| == |own'|
    requires SameAt(recs, recs', j) && own'[j] == own[j] && DataSame(recs, dat, d, j)
    requires Live(own[j]) ==> (recs[j].key in m ==> recs[j].key in m' && m'[recs[j].key] == m[recs[j].key])
    ensures Entry(recs', own', d, m', j)
  {
    assert Entry(recs, own, dat, m, j);
  }

  /** Record i deleted: its key blanked and its data overwritten. */
  lemma RepresentsDeleted(recs: seq<Rec>, own: seq<nat>, dat: string, m: map<string, string>, i: nat,
                          recs': seq<Rec>, data: string)
    requires Represents(recs, own, dat, m) && Extents(recs, dat)
    requires i < |recs| == |recs'| && Live(own[i]) && OthersSame(recs, recs', i)
    requires AllBlank(recs'[i].key)
    requires recs'[i].datoff == recs[i].datoff && recs'[i].datlen == recs[i].datlen == |data| + 1
    ensures recs[i].datoff <= |dat|
    ensures var d := Splice(dat, recs[i].datoff, data + [NEWLINE]);
            Extents(recs', d) && Represents(recs', own[i := 0], d, m - {recs[i].key})
  {
    ExtentsWrite(recs, dat, i, recs', data);
    var d := Splice(dat, recs[i].datoff, data + [NEWLINE]);
    var own' := own[i := 0];
    var m' := m - {recs[i].key};
    forall j | 0 <= j < |recs| ensures Entry(recs', own', d, m', j) {
      if j != i {
        assert SameAt(recs, recs', j) && DataSame(recs, dat, d, j) && KeysDiffer(recs, own, i, j);
        OtherEntry(recs, own, dat, m, i, j, recs', own', d, m');
      }
    }
    forall j, n | 0 <= j < |recs| && 0 <= n < |recs| && j != n ensures KeysDiffer(recs', own', j, n) {
      assert KeysDiffer(recs, own, j, n);
      assert j != i ==> SameAt(recs, recs', j);
      assert n != i ==> SameAt(recs, recs', n);
    }
    forall key | key in m' ensures Stored(recs', own', key) {
      StoredStays(recs, own, recs', own', i, key);
    }
  }

  lemma NewKeyDiffers(recs: seq<Rec>, own: seq<nat>, dat: string, m: map<string, string>, i: nat,
                      recs': seq<Rec>, own': seq<nat>, key: string)
    requires Represents(recs, own, dat, m) && |recs'| == |own'| && i < |recs'|
    requires |recs'| == |recs| || (|recs'| == |recs| + 1 && i == |recs|)
    requires recs'[i].key == key && key !in m && OthersSame(recs, recs', i)
    requires forall j :: 0 <= j < |recs| && j != i ==> own'[j] == own[j]
    ensures forall j, n :: 0 <= j < |recs'| && 0 <= n < |recs'| && j != n ==> KeysDiffer(recs', own', j, n)
  {
    forall j, n | 0 <= j < |recs'| && 0 <= n < |recs'| && j != n ensures KeysDiffer(recs', own', j, n) {
      if j != i { assert Entry(recs, own, dat, m, j) && SameAt(recs, recs', j); }
      if n != i { assert Entry(recs, own, dat, m, n) && SameAt(recs, recs', n); }
      if j != i && n != i { assert KeysDiffer(recs, own, j, n); }
    }
  }

  /** A dead record i given a new key and data. */
  lemma RepresentsReused(recs: seq<Rec>, own: seq<nat>, dat: string, m: map<string, string>, i: nat,
                         recs': seq<Rec>, key: string, data: string)
    requires Represents(recs, own, dat, m) && Extents(recs, dat)
    requires i < |recs| == |recs'| && !Live(own[i]) && OthersSame(recs, recs', i)
    requires recs'[i].key == key && key !in m && NoNul(data)
    requires recs'[i].datoff == recs[i].datoff && recs'[i].datlen == recs[i].datlen == |data| + 1
    ensures recs[i].datoff <= |dat|
    ensures var d := Splice(dat, recs[i].datoff, data + [NEWLINE]);
            Extents(recs', d) && Represents(recs', own[i := 1 + Hash(key)], d, m[key := data])
  {
    ExtentsWrite(recs, dat, i, recs', data);
    var d := Splice(dat, recs[i].datoff, data + [NEWLINE]);
    var own' := own[i := 1 + Hash(key)];
    var m' := m[key := data];
    forall j | 0 <= j < |recs| ensures Entry(recs', own', d, m', j) {
      if j != i {
        assert SameAt(recs, recs', j) && DataSame(recs, dat, d, j);
        OtherEntry(recs, own, dat, m, i, j, recs', own', d, m');
      }
    }
    NewKeyDiffers(recs, own, dat, m, i, recs', own', key);
    forall x | x in m' ensures Stored(recs', own', x) {
      if x == key { assert HasKey(recs', own', i, key); } else { StoredStays(recs, own, recs', own', i, x); }
    }
  }

  /** A record appended to both files. */
  lemma RepresentsAppended(recs: seq<Rec>, own: seq<nat>, dat: string, m: map<string, string>, r: Rec, data: string)
    requires Represents(recs, own, dat, m) && Extents(recs, dat)
    requires r.key !in m && NoNul(data)
    requires r.datoff == |dat| && r.datlen == |data| + 1
    ensures var d := Splice(dat, |dat|, data + [NEWLINE]);
            Extents(recs + [r], d) && Represents(recs + [r], own + [1 + Hash(r.key)], d, m[r.key := data])
  {
    var w := data + [NEWLINE];
    var d := Splice(dat, |dat|, w);
    var recs', own', m' := recs + [r], own + [1 + Hash(r.key)], m[r.key := data];
    WrittenValue(dat, r, data);
    forall j | 0 <= j < |recs'| ensures DataAt(recs', d, j) && Entry(recs', own', d, m', j) {
      if j < |recs| {
        AppendKeeps(recs, dat, j, w);
        assert SameAt(recs, recs', j) && Entry(recs, own, dat, m, j);
        OtherEntry(recs, own, dat, m, |recs|, j, recs', own', d, m');
      }
    }
    forall j, n | 0 <= j < |recs'| && 0 <= n < |recs'| && j != n ensures Apart(recs', j, n) {
      if j < |recs| { assert DataAt(recs, dat, j); }
      if n < |recs| { assert DataAt(recs, dat, n); }
      if j < |recs| && n < |recs| { assert Apart(recs, j, n); }
    }
    assert forall j :: 0 <= j < |recs| ==> SameAt(recs, recs', j);
    NewKeyDiffers(recs, own, dat, m, |recs|, recs', own', r.key);
    forall x | x in m' ensures Stored(recs', own', x) {
      if x == r.key {
        assert HasKey(recs', own', |recs|, r.key);
      } else {
        StoredStays(recs, own, recs', own', |recs|, x);
      }
    }
  }

  lemma AppendKeeps(recs: seq<Rec>, dat: string, j: nat, w: string)
    requires Extents(recs, dat) && j < |recs|
    ensures DataSame(recs, dat, Splice(dat, |dat|, w), j)
  {
    assert DataAt(recs, dat, j);
    var lo, hi := recs[j].datoff, recs[j].datoff + recs[j].datlen;
    SpliceOutside(dat, |dat|, w, lo, hi);
    LastOf(dat, Splice(dat, |dat|, w), lo, hi);
  }

  /** The data of a live record overwritten in place. */
  lemma RepresentsOverwritten(recs: seq<Rec>, own: seq<nat>, dat: string, m: map<string, string>, i: nat, data: string)
    requires Represents(recs, own, dat, m) && Extents(recs, dat)
    requires i < |recs| && Live(own[i]) && recs[i].datlen == |data| + 1 && NoNul(data)
    ensures recs[i].datoff <= |dat|
    ensures var d := Splice(dat, recs[i].datoff, data + [NEWLINE]);
            Extents(recs, d) && Represents(recs, own, d, m[recs[i].key := data])
  {
    assert OthersSame(recs, recs, i);
    ExtentsWrite(recs, dat, i, recs, data);
    var d := Splice(dat, recs[i].datoff, data + [NEWLINE]);
    var m' := m[recs[i].key := data];
    assert Entry(recs, own, dat, m, i);
    forall j | 0 <= j < |recs| ensures Entry(recs, own, d, m', j) {
      if j != i {
        assert SameAt(recs, recs, j) && DataSame(recs, dat, d, j) && KeysDiffer(recs, own, i, j);
        OtherEntry(recs, own, dat, m, i, j, recs, own, d, m');
      }
    }
    assert Stored(recs, own, recs[i].key);
  }
}
