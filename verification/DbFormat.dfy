/** The text format of the index file of the hash database: decimal fields, index
    records, and reading and writing at a byte offset. */
module DbFormat {

  const PTR_SZ := 7
  const IDXLEN_SZ := 4
  const PTR_MAX := 9999999
  const NHASH := 137
  const FREE_OFF := 0
  const HASH_OFF := 7
  const IDXLEN_MIN := 6
  const IDXLEN_MAX := 1024
  const DATLEN_MIN := 2
  const DATLEN_MAX := 1024
  /** First byte after the free-list pointer, the hash table and its newline. */
  const RECS_OFF := 967

  const SEP := ':'
  const SPACE := ' '
  const NEWLINE := '\n'
  const NUL := '\0'

  // ---------------------------------------------------------------- decimal text

  predicate IsDigit(c: char) { '0' <= c <= '9' }

  function Digit(d: nat): (c: char)
    requires d < 10
    ensures IsDigit(c) && c as int - '0' as int == d
  {
    (d + '0' as int) as char
  }

  /** "%lld" of a non-negative number. */
  function Dec(n: nat): (s: string)
    ensures |s| >= 1
    ensures forall i :: 0 <= i < |s| ==> IsDigit(s[i])
  {
    if n < 10 then [Digit(n)] else Dec(n / 10) + [Digit(n % 10)]
  }

  function Blanks(n: nat): (s: string)
    ensures |s| == n
    ensures forall i :: 0 <= i < n ==> s[i] == SPACE
  {
    seq(n, _ => SPACE)
  }

  /** "%*lld": right-justified in at least w columns. */
  function Pad(n: nat, w: nat): string {
    var s := Dec(n);
    if |s| < w then Blanks(w - |s|) + s else s
  }

  predicate IsSpace(c: char) {
    c == ' ' || c == '\t' || c == '\n' || c == '\r' || c as int == 11 || c as int == 12
  }

  function SkipSpace(s: string): string {
    if s != [] && IsSpace(s[0]) then SkipSpace(s[1..]) else s
  }

  function DigitsValue(s: string, acc: nat): nat {
    if s != [] && IsDigit(s[0]) then DigitsValue(s[1..], 10 * acc + (s[0] as int - '0' as int)) else acc
  }

  /** atol, without overflow: leading white space, a sign, digits. */
  function Atol(s: string): int {
    var t := SkipSpace(s);
    if t != [] && t[0] == '-' then 0 - DigitsValue(t[1..], 0) as int
    else if t != [] && t[0] == '+' then DigitsValue(t[1..], 0)
    else DigitsValue(t, 0)
  }

  lemma {:induction false} DigitsValueSnoc(s: string, d: char, acc: nat)
    requires forall i :: 0 <= i < |s| ==> IsDigit(s[i])
    requires IsDigit(d)
    ensures DigitsValue(s + [d], acc) == 10 * DigitsValue(s, acc) + (d as int - '0' as int)
  {
    if s == [] {
      assert [d][1..] == [];
    } else {
      assert (s + [d])[1..] == s[1..] + [d];
      DigitsValueSnoc(s[1..], d, 10 * acc + (s[0] as int - '0' as int));
    }
  }

  lemma {:induction false} DigitsValueDec(n: nat)
    ensures DigitsValue(Dec(n), 0) == n
  {
    if n >= 10 {
      DigitsValueDec(n / 10);
      DigitsValueSnoc(Dec(n / 10), Digit(n % 10), 0);
    } else {
      assert Dec(n)[1..] == [];
    }
  }

  lemma {:induction false} SkipBlanks(n: nat, s: string)
    requires s != [] && IsDigit(s[0])
    ensures SkipSpace(Blanks(n) + s) == s
  {
    if n == 0 {
      assert Blanks(0) + s == s;
    } else {
      assert (Blanks(n) + s)[1..] == Blanks(n - 1) + s;
      SkipBlanks(n - 1, s);
    }
  }

  /** Reading back a printed field, padded or not, gives the number. */
  lemma AtolPad(n: nat, w: nat)
    ensures Atol(Pad(n, w)) == n
  {
    var s := Dec(n);
    DigitsValueDec(n);
    if |s| < w {
      SkipBlanks(w - |s|, s);
    } else {
      SkipBlanks(0, s);
      assert Blanks(0) + s == s;
    }
  }

  lemma AtolDec(n: nat)
    ensures Atol(Dec(n)) == n
  {
    AtolPad(n, 0);
  }

  lemma PadWidth(n: nat)
    ensures n <= PTR_MAX ==> |Pad(n, PTR_SZ)| == PTR_SZ
    ensures n <= 9999 ==> |Pad(n, IDXLEN_SZ)| == IDXLEN_SZ
  {
    if n <= PTR_MAX { DecWidth(n, 7, 10000000); }
    if n <= 9999 { DecWidth(n, 4, 10000); }
  }

  lemma {:induction false} DecWidth(n: nat, w: nat, p: nat)
    requires w >= 1 && p == Pow10(w) && n < p
    ensures |Dec(n)| <= w
  {
    if n >= 10 {
      DecWidth(n / 10, w - 1, Pow10(w - 1));
    }
  }

  function Pow10(w: nat): nat {
    if w == 0 then 1 else 10 * Pow10(w - 1)
  }

  // ---------------------------------------------------------------- C strings

  predicate NoNul(s: string) { forall i :: 0 <= i < |s| ==> s[i] != NUL }

  predicate NoSep(s: string) { forall i :: 0 <= i < |s| ==> s[i] != SEP }

  predicate AllBlank(s: string) { forall i :: 0 <= i < |s| ==> s[i] == SPACE }

  /** Position of the first c in s, or |s|. */
  function Find(s: string, c: char): (k: nat)
    ensures k <= |s|
    ensures k < |s| ==> s[k] == c
    ensures forall i :: 0 <= i < k ==> s[i] != c
  {
    if s == [] || s[0] == c then 0 else 1 + Find(s[1..], c)
  }

  /** The C string held in a buffer: everything before the first NUL. */
  function CStr(s: string): (r: string)
    ensures NoNul(s) ==> r == s
  {
    s[..Find(s, NUL)]
  }

  lemma FindAt(s: string, c: char, k: nat)
    requires k <= |s|
    requires forall i :: 0 <= i < k ==> s[i] != c
    requires k < |s| ==> s[k] == c
    ensures Find(s, c) == k
  {
  }

  // ---------------------------------------------------------------- index records

  /** One index record: its chain pointer, key, and the place of its data record. */
  datatype Rec = Rec(ptr: nat, key: string, datoff: nat, datlen: nat)

  function Body(key: string, datoff: nat, datlen: nat): string {
    key + [SEP] + Dec(datoff) + [SEP] + Dec(datlen) + [NEWLINE]
  }

  function RecBody(r: Rec): string { Body(r.key, r.datoff, r.datlen) }

  /** What _db_writeidx puts in the file. */
  function Encode(r: Rec): string {
    Pad(r.ptr, PTR_SZ) + Pad(|RecBody(r)|, IDXLEN_SZ) + RecBody(r)
  }

  function Size(r: Rec): (n: nat)
    ensures n > 11
  {
    PTR_SZ + IDXLEN_SZ + |RecBody(r)|
  }

  predicate ValidRec(r: Rec) {
    && r.ptr <= PTR_MAX
    && NoSep(r.key) && NoNul(r.key)
    && IDXLEN_MIN <= |RecBody(r)| <= IDXLEN_MAX
    && 1 <= r.datlen <= DATLEN_MAX
  }

  datatype ReadResult = Eof | Corrupt | Found(rec: Rec, idxlen: nat)

  /** The separators and numbers of an index record, after its newline was cut off. */
  function ParseBody(ptr: nat, idxlen: nat, text: string): ReadResult {
    var i := Find(text, SEP);
    if i == |text| then Corrupt else
    var rest := text[i + 1..];
    var j := Find(rest, SEP);
    if j == |rest| then Corrupt else
    var last := rest[j + 1..];
    if Find(last, SEP) < |last| then Corrupt else
    var datoff := Atol(rest[..j]);
    var datlen := Atol(last);
    if datoff < 0 || datlen <= 0 || datlen > DATLEN_MAX then Corrupt
    else Found(Rec(ptr, text[..i], datoff, datlen), idxlen)
  }

  /** _db_readidx at a byte offset of an arbitrary file; Eof only for sequential reads. */
  function ParseRecord(file: string, off: nat, sequential: bool): ReadResult {
    if off + 11 > |file| then (if sequential && off >= |file| then Eof else Corrupt) else
    var ptr := Atol(file[off..off + 7]);
    var idxlen := Atol(file[off + 7..off + 11]);
    if ptr < 0 || idxlen < IDXLEN_MIN || idxlen > IDXLEN_MAX || off + 11 + idxlen > |file| then Corrupt else
    var buf := file[off + 11..off + 11 + idxlen];
    if buf[idxlen - 1] != NEWLINE then Corrupt
    else ParseBody(ptr, idxlen, CStr(buf[..idxlen - 1]))
  }

  lemma EncodeSize(r: Rec)
    requires ValidRec(r)
    ensures |Encode(r)| == Size(r)
    ensures Encode(r)[..7] == Pad(r.ptr, PTR_SZ)
    ensures Encode(r)[7..11] == Pad(|RecBody(r)|, IDXLEN_SZ)
    ensures Encode(r)[11..] == RecBody(r)
  {
    PadWidth(r.ptr);
    PadWidth(|RecBody(r)|);
  }

  lemma DigitsClean(n: nat)
    ensures NoSep(Dec(n)) && NoNul(Dec(n))
  {
  }

  /** A text of three fields is cut at its separators. */
  lemma ParseFields(ptr: nat, idxlen: nat, key: string, a: string, d: string)
    requires NoSep(key) && NoSep(a) && NoSep(d)
    ensures var datoff, datlen := Atol(a), Atol(d);
            ParseBody(ptr, idxlen, key + [SEP] + (a + [SEP] + d)) ==
            if datoff < 0 || datlen <= 0 || datlen > DATLEN_MAX then Corrupt
            else Found(Rec(ptr, key, datoff, datlen), idxlen)
  {
    var rest := a + [SEP] + d;
    var text := key + [SEP] + rest;
    FindAt(text, SEP, |key|);
    assert text[|key| + 1..] == rest && text[..|key|] == key;
    FindAt(rest, SEP, |a|);
    assert rest[|a| + 1..] == d && rest[..|a|] == a;
    FindAt(d, SEP, |d|);
  }

  lemma BodyFields(r: Rec)
    requires ValidRec(r)
    ensures var b := RecBody(r); var text := r.key + [SEP] + (Dec(r.datoff) + [SEP] + Dec(r.datlen));
            b == text + [NEWLINE] && b[..|b| - 1] == text && NoNul(text)
  {
    DigitsClean(r.datoff);
    DigitsClean(r.datlen);
    var b, text := RecBody(r), r.key + [SEP] + (Dec(r.datoff) + [SEP] + Dec(r.datlen));
    assert b == text + [NEWLINE];
    assert b[..|b| - 1] == text;
  }

  lemma ParseBodyEncoded(r: Rec)
    requires ValidRec(r)
    ensures var b := RecBody(r); b[|b| - 1] == NEWLINE
    ensures var b := RecBody(r); NoNul(b[..|b| - 1])
    ensures var b := RecBody(r); ParseBody(r.ptr, |b|, b[..|b| - 1]) == Found(r, |b|)
  {
    BodyFields(r);
    DigitsClean(r.datoff);
    DigitsClean(r.datlen);
    AtolDec(r.datoff);
    AtolDec(r.datlen);
    ParseFields(r.ptr, |RecBody(r)|, r.key, Dec(r.datoff), Dec(r.datlen));
  }

  lemma SubSlice(file: string, off: nat, n: nat, a: nat, b: nat)
    requires off + n <= |file| && a <= b <= n
    ensures file[off..off + n][a..b] == file[off + a..off + b]
  {
    var f := file[off..off + n];
    assert forall i :: 0 <= i < b - a ==> f[a..b][i] == f[a + i] == file[off + a + i];
  }

  lemma RecordSlices(file: string, off: nat, r: Rec)
    requires ValidRec(r)
    requires off + Size(r) <= |file|
    requires file[off..off + Size(r)] == Encode(r)
    ensures file[off..off + 7] == Pad(r.ptr, PTR_SZ)
    ensures file[off + 7..off + 11] == Pad(|RecBody(r)|, IDXLEN_SZ)
    ensures file[off + 11..off + Size(r)] == RecBody(r)
  {
    EncodeSize(r);
    var n := Size(r);
    SubSlice(file, off, n, 0, 7);
    SubSlice(file, off, n, 7, 11);
    SubSlice(file, off, n, 11, n);
    assert Encode(r)[11..n] == Encode(r)[11..];
  }

  /** _db_readidx recovers exactly what _db_writeidx printed. */
  lemma ReadBack(file: string, off: nat, r: Rec, sequential: bool)
    requires ValidRec(r)
    requires off + Size(r) <= |file|
    requires file[off..off + Size(r)] == Encode(r)
    ensures ParseRecord(file, off, sequential) == Found(r, |RecBody(r)|)
  {
    RecordSlices(file, off, r);
    AtolPad(r.ptr, PTR_SZ);
    AtolPad(|RecBody(r)|, IDXLEN_SZ);
    ParseBodyEncoded(r);
    ParseRecordOf(file, off, r.ptr, RecBody(r), sequential);
  }

  lemma ParseRecordOf(file: string, off: nat, ptr: nat, body: string, sequential: bool)
    requires IDXLEN_MIN <= |body| <= IDXLEN_MAX && off + 11 + |body| <= |file|
    requires Atol(file[off..off + 7]) == ptr && Atol(file[off + 7..off + 11]) == |body|
    requires file[off + 11..off + 11 + |body|] == body
    requires body[|body| - 1] == NEWLINE && NoNul(body[..|body| - 1])
    ensures ParseRecord(file, off, sequential) == ParseBody(ptr, |body|, body[..|body| - 1])
  {
  }

  // ---------------------------------------------------------------- files as byte strings

  /** write(2) of w at offset off, inside the file or at its end. */
  function Splice(file: string, off: nat, w: string): (f: string)
    requires off <= |file|
    ensures |f| == if off + |w| <= |file| then |file| else off + |w|
    ensures f[off..off + |w|] == w
  {
    file[..off] + w + (if off + |w| <= |file| then file[off + |w|..] else [])
  }

  /** A write changes nothing outside its own byte range. */
  lemma SpliceOutside(file: string, off: nat, w: string, lo: nat, hi: nat)
    requires off <= |file|
    requires lo <= hi <= |file|
    requires hi <= off || off + |w| <= lo
    ensures hi <= |Splice(file, off, w)| && Splice(file, off, w)[lo..hi] == file[lo..hi]
  {
  }

  // ---------------------------------------------------------------- hashing

  /** A plain char of the source's platform is signed. */
  function SignedChar(c: char): int {
    var b := c as int % 256;
    if b < 128 then b else b - 256
  }

  function HashFrom(key: string, i: nat, hval: nat): nat {
    if key == [] then hval
    else HashFrom(key[1..], i + 1, (hval + SignedChar(key[0]) * i) % 0x1_0000_0000_0000_0000)
  }

  /** _db_hash: characters times their 1-based index, in unsigned long arithmetic. */
  function Hash(key: string): (h: nat)
    ensures h < NHASH
  {
    HashFrom(key, 1, 0) % NHASH
  }

  /** The eight bits of a character as a number from -128 to 127. */
  lemma SignedCharIs(c: char)
    ensures -128 <= SignedChar(c) < 128 && (c as int - SignedChar(c)) % 256 == 0
  {
  }

  /** The sum over the first n characters of the character times its index from 1. */
  function Weighted(key: string, n: nat): int
    requires n <= |key|
  {
    if n == 0 then 0 else Weighted(key, n - 1) + SignedChar(key[n - 1]) * n
  }

  lemma ModAdd(x: int, y: int)
    ensures (x % 0x1_0000_0000_0000_0000 + y) % 0x1_0000_0000_0000_0000 == (x + y) % 0x1_0000_0000_0000_0000
  {
  }

  lemma {:induction false} HashFromIs(key: string, n: nat)
    requires n <= |key|
    ensures HashFrom(key[n..], n + 1, Weighted(key, n) % 0x1_0000_0000_0000_0000)
         == Weighted(key, |key|) % 0x1_0000_0000_0000_0000
    decreases |key| - n
  {
    if n < |key| {
      assert key[n..][1..] == key[n + 1..];
      ModAdd(Weighted(key, n), SignedChar(key[n]) * (n + 1));
      HashFromIs(key, n + 1);
    }
  }

  /** The hash is the weighted sum of the characters, modulo the range of unsigned long and
      the size of the table. */
  lemma HashIs(key: string)
    ensures Hash(key) == Weighted(key, |key|) % 0x1_0000_0000_0000_0000 % NHASH
  {
    HashFromIs(key, 0);
    assert key[0..] == key;
  }
}
