/** inet_ntop.c and inet_pton.c: the loops over buffers, against the text of an address. */
module Inet {
  import opened Basics
  import opened InetText
  import opened InetParse
  import G = InetGrammar

  // ---------------------------------------------------------------- the run of zeros

  /** The leftmost longest run of zero words inside ws[..lim]; none if b is -1. */
  ghost predicate BestUpTo(ws: seq<nat>, lim: int, b: int, n: int) {
    && 0 <= lim <= |ws|
    && if b == -1 then forall k :: 0 <= k < lim ==> ws[k] != 0
       else
         && ZeroRun(ws, b, n) && n >= 1 && b + n <= lim
         && forall b', n' :: ZeroRun(ws, b', n') && n' >= 1 && b' + n' <= lim ==> NoBetter(b, n, b', n')
  }

  predicate NoBetter(b: int, n: int, b': int, n': int) { n' < n || (n' == n && b <= b') }

  /** A run that begins at cb after a nonzero word. */
  predicate Current(ws: seq<nat>, cb: int, cl: int) {
    ZeroRun(ws, cb, cl) && cl >= 1 && (cb > 0 ==> ws[cb - 1] != 0)
  }

  lemma SkipWord(ws: seq<nat>, lim: nat, b: int, n: int)
    requires BestUpTo(ws, lim, b, n) && lim < |ws| && ws[lim] != 0
    ensures BestUpTo(ws, lim + 1, b, n)
  {
    if b != -1 {
      forall b', n' | ZeroRun(ws, b', n') && n' >= 1 && b' + n' <= lim + 1 ensures NoBetter(b, n, b', n') {
        assert ws[b' + n' - 1] == 0;
      }
    }
  }

  lemma ZeroAt(ws: seq<nat>, b: int, n: int, k: nat)
    requires ZeroRun(ws, b, n) && k < |ws|
    ensures b <= k < b + n ==> ws[k] == 0
  {
  }

  lemma CloseRun(ws: seq<nat>, cb: int, cl: int, b: int, n: int)
    requires Current(ws, cb, cl) && BestUpTo(ws, cb, b, n)
    ensures if b == -1 || cl > n then BestUpTo(ws, cb + cl, cb, cl) else BestUpTo(ws, cb + cl, b, n)
  {
    var b1, n1 := if b == -1 || cl > n then cb else b, if b == -1 || cl > n then cl else n;
    forall b', n' | ZeroRun(ws, b', n') && n' >= 1 && b' + n' <= cb + cl ensures NoBetter(b1, n1, b', n') {
      assert ws[b'] == 0;
      if cb > 0 { ZeroAt(ws, b', n', cb - 1); }
      if b != -1 && b' < cb { assert NoBetter(b, n, b', n'); }
    }
  }

  /** The search loop of inet_ntop6. */
  method FindRun(words: array<nat>) returns (base: int, len: int)
    requires words.Length == 8
    ensures Best(words[..], base, len)
    ensures len >= 0 && (base == -1 || (ZeroRun(words[..], base, len) && len >= 2))
  {
    ghost var ws := words[..];
    var bestBase, bestLen := -1, 0;
    var curBase, curLen := -1, 0;
    var i := 0;
    while i < 8
      invariant 0 <= i <= 8 && words[..] == ws
      invariant curBase == -1 ==> BestUpTo(ws, i, bestBase, bestLen) && (i > 0 ==> ws[i - 1] != 0)
      invariant curBase != -1 ==>
        Current(ws, curBase, curLen) && curBase + curLen == i && BestUpTo(ws, curBase, bestBase, bestLen)
      invariant bestBase >= -1 && curBase >= -1
    {
      if words[i] == 0 {
        if curBase == -1 {
          curBase, curLen := i, 1;
        } else {
          curLen := curLen + 1;
        }
      } else {
        if curBase != -1 {
          CloseRun(ws, curBase, curLen, bestBase, bestLen);
          if bestBase == -1 || curLen > bestLen {
            bestBase, bestLen := curBase, curLen;
          }
          curBase := -1;
        }
        SkipWord(ws, i, bestBase, bestLen);
      }
      i := i + 1;
    }
    if curBase != -1 {
      CloseRun(ws, curBase, curLen, bestBase, bestLen);
      if bestBase == -1 || curLen > bestLen {
        bestBase, bestLen := curBase, curLen;
      }
    }
    base, len := bestBase, bestLen;
    if base != -1 && len < 2 {
      base := -1;
    }
    BestOfAll(ws, bestBase, bestLen, base);
  }

  lemma BestOfAll(ws: seq<nat>, b: int, n: int, base: int)
    requires BestUpTo(ws, |ws|, b, n) && b >= -1 && base == if b != -1 && n < 2 then -1 else b
    ensures Best(ws, base, n)
  {
    forall b', n' | ZeroRun(ws, b', n') && n' >= 1 ensures b != -1 && NoBetter(b, n, b', n') {
      assert ws[b'] == 0;
    }
  }

  // ---------------------------------------------------------------- printing

  /** What iteration i of the format loop prints when it does not embed. */
  function Emit(ws: seq<nat>, base: int, len: int, i: nat): string
    requires i < |ws|
  {
    if base != -1 && base <= i < base + len then (if i == base then ":" else "")
    else (if i != 0 then ":" else "") + Numeral(ws[i], 16)
  }

  /** The text after i words. */
  function Printed(ws: seq<nat>, base: int, len: int, i: nat): string
    requires i <= |ws| && -1 <= base && 0 <= len
  {
    if base == -1 || i <= base then Joined(ws, 0, i)
    else if i <= base + len then Joined(ws, 0, base) + ":"
    else Gap(Joined(ws, 0, base), Joined(ws, base + len, i))
  }

  lemma GapMore(p: string, m: string, w: string)
    ensures Gap(p, m) + w == Gap(p, m + w)
  {
  }

  lemma PrintedNext(ws: seq<nat>, base: int, len: int, i: nat)
    requires i < |ws| && -1 <= base && 0 <= len && (base >= 0 ==> len >= 1)
    ensures Printed(ws, base, len, i + 1) == Printed(ws, base, len, i) + Emit(ws, base, len, i)
  {
    if base != -1 && i == base + len {
      Regroup(Joined(ws, 0, base), ":", ":" + Numeral(ws[i], 16));
    } else if base != -1 && i > base + len {
      GapMore(Joined(ws, 0, base), Joined(ws, base + len, i), ":" + Numeral(ws[i], 16));
    }
  }

  /** The text after the loop, which does not embed. */
  lemma PrintedText(src: seq<byte>, base: int, len: int)
    requires |src| == 16 && Compresses(Words(src), base, len) && !Embeds(Words(src), base, len) && len >= 0
    ensures Text6(src, base, len)
         == Printed(Words(src), base, len, 8) + if base != -1 && base + len == 8 then ":" else ""
  {
    if base != -1 && base + len == 8 {
      Regroup(Joined(Words(src), 0, base), ":", ":");
    }
  }

  lemma PrintedEmbedded(src: seq<byte>, base: int, len: int)
    requires |src| == 16 && Compresses(Words(src), base, len) && Embeds(Words(src), base, len)
    ensures Text6(src, base, len) == Printed(Words(src), base, len, 6) + (":" + Text4(src[12..]))
  {
    var t := Text4(src[12..]);
    if len == 6 {
      Regroup("", ":", ":" + t);
      assert "" + t == t;
    } else {
      Mapped();
      GapMore("", "ffff", ":" + t);
      Regroup("ffff", ":", t);
    }
  }

  /** sprintf at tp: the characters and a null byte. */
  method Sprintf(tmp: array<char>, tp: nat, s: string) returns (tq: nat)
    requires tp + |s| < tmp.Length
    modifies tmp
    ensures tq == tp + |s| && tmp[..tq] == old(tmp[..tp]) + s
    ensures tmp[tq] == '\0' && tmp[tq + 1..] == old(tmp[tq + 1..])
  {
    var i := 0;
    while i < |s|
      invariant 0 <= i <= |s|
      invariant tmp[..tp] == old(tmp[..tp]) && tmp[tp..tp + i] == s[..i]
      invariant tmp[tp + |s| + 1..] == old(tmp[tp + |s| + 1..])
    {
      tmp[tp + i] := s[i];
      assert tmp[tp..tp + i + 1] == tmp[tp..tp + i] + [s[i]];
      i := i + 1;
    }
    tq := tp + |s|;
    tmp[tq] := '\0';
    assert tmp[tp..tq] == s;
    assert tmp[..tq] == tmp[..tp] + tmp[tp..tq];
  }

  /** How many bytes inet_ntop4 stores: the text and its null byte, though only the text has
      been compared with size. */
  function Stored4(src: seq<byte>, size: nat): nat
    requires |src| == 4
  {
    if |Text4(src)| > size then 0 else |Text4(src)| + 1
  }

  /** inet_ntop4 stores more than size bytes exactly if the text is size bytes long. */
  lemma OverrunIff(src: seq<byte>, size: nat)
    requires |src| == 4
    ensures Stored4(src, size) > size <==> |Text4(src)| == size
    ensures size >= 16 ==> 0 < Stored4(src, size) <= size
  {
    Text4Length(src);
  }

  /** 1.1.1.1 with size 7. */
  lemma OverrunExample()
    ensures |Text4([1, 1, 1, 1])| == 7 && Stored4([1, 1, 1, 1], 7) == 8
  {
    assert Numeral(1, 10) == "1";
  }

  /** inet_ntop4: refused exactly if the text is longer than size; else the text and a null
      byte are stored at dst, and parsing the text gives the address.  The byte after the
      first size is written exactly if the text is size bytes long. */
  method Ntop4(src: seq<byte>, dst: array<char>, at: nat, size: nat) returns (ok: bool)
    requires |src| == 4 && at + Stored4(src, size) <= dst.Length
    modifies dst
    ensures ok <==> |Text4(src)| <= size
    ensures !ok ==> dst[..] == old(dst[..])
    ensures ok ==> var n := at + |Text4(src)|;
      && n < dst.Length && dst[..n] == old(dst[..at]) + Text4(src) && dst[n] == '\0'
      && dst[n + 1..] == old(dst[n + 1..])
    ensures ok ==> Parse4(Text4(src)) == Some(src)
    ensures at + size < dst.Length && ok ==>
      dst[at + size] == if |Text4(src)| == size then '\0' else old(dst[at + size])
  {
    RoundTrip4(src);
    Text4Length(src);
    var tmp := new char[16];
    var n := Sprintf(tmp, 0, Text4(src));
    assert tmp[..n] == Text4(src);
    if n > size { return false; }
    ghost var after := dst[at + n + 1..];
    var end := Sprintf(dst, at, tmp[..n]);
    ok := true;
    if at + size < dst.Length && n < size {
      assert dst[end + 1..][size - n - 1] == after[size - n - 1];
    }
  }

  method Fill(src: seq<byte>) returns (words: array<nat>)
    requires |src| == 16
    ensures fresh(words) && words[..] == Words(src)
  {
    words := new nat[8](_ => 0);
    var i := 0;
    while i < 16
      invariant 0 <= i <= 16
      invariant forall k :: 0 <= k < 8 ==>
        words[k] == (if 2 * k < i then src[2 * k] as int * 256 else 0) + (if 2 * k + 1 < i then src[2 * k + 1] else 0)
    {
      // The bits of the two bytes are apart, so that | is addition.
      words[i / 2] := words[i / 2] + src[i] as int * (if i % 2 == 0 then 256 else 1);
      i := i + 1;
    }
    forall k | 0 <= k < 8 ensures words[..][k] == Words(src)[k] { WordAt(src, k); }
  }

  /** The length of i words and the colons between them, at most. */
  function Room(i: nat): nat { if i == 0 then 0 else 5 * i - 1 }

  /** One iteration of the format loop; done: the rest was printed as an IPv4 address. */
  method FormatWord(src: seq<byte>, words: array<nat>, base: int, len: int, i: nat, tmp: array<char>, tp: nat)
    returns (tq: nat, done: bool)
    requires |src| == 16 && words.Length == 8 && i < 8 && base >= -1 && words[i] < 0x1_0000
    requires tmp.Length == 46 && tp <= Room(i)
    modifies tmp
    ensures done <==> i == 6 && Embeds(words[..], base, len)
    ensures !done ==> tq <= Room(i + 1) && tmp[..tq] == old(tmp[..tp]) + Emit(words[..], base, len, i)
    ensures done ==> tq < 46 && tmp[..tq] == old(tmp[..tp]) + (":" + Text4(src[12..]))
  {
    tq, done := tp, false;
    if base != -1 && i >= base && i < base + len {
      if i == base { tq := Sprintf(tmp, tq, ":"); }
    } else {
      if i != 0 { tq := Sprintf(tmp, tq, ":"); }
      ghost var colon := if i != 0 then ":" else "";
      assert tmp[..tq] == old(tmp[..tp]) + colon;
      if i == 6 && base == 0 && (len == 6 || (len == 5 && words[5] == 0xffff)) {
        tq := FormatDotted(src, tmp, tq);
        done := true;
      } else {
        WordLength(words[i]);
        tq := Sprintf(tmp, tq, Numeral(words[i], 16));
        assert tmp[..tq] == old(tmp[..tp]) + (colon + Numeral(words[i], 16));
      }
    }
  }

  method FormatDotted(src: seq<byte>, tmp: array<char>, tp: nat) returns (tq: nat)
    requires |src| == 16 && tmp.Length == 46 && tp <= 30
    modifies tmp
    ensures tq < 46 && tmp[..tq] == old(tmp[..tp]) + Text4(src[12..])
  {
    Text4Length(src[12..]);
    var ok := Ntop4(src[12..], tmp, tp, 46 - tp);
    tq := tp + |Text4(src[12..])|;
  }

  /** The format loop: writes the text to tmp. */
  method Format(src: seq<byte>, words: array<nat>, base: int, len: int, tmp: array<char>) returns (tp: nat)
    requires |src| == 16 && words.Length == 8 && words[..] == Words(src) && Compresses(words[..], base, len)
    requires tmp.Length == 46 && len >= 0
    modifies tmp
    ensures tp < 46 && tmp[..tp] == Text6(src, base, len)
  {
    ghost var ws := Words(src);
    tp := 0;
    var i := 0;
    while i < 8
      invariant 0 <= i <= 8 && tp <= Room(i) && (Embeds(ws, base, len) ==> i <= 6)
      invariant words[..] == ws && tmp[..tp] == Printed(ws, base, len, i)
    {
      assert words[i] == ws[i];
      PrintedNext(ws, base, len, i);
      var done: bool;
      tp, done := FormatWord(src, words, base, len, i, tmp, tp);
      if done {
        PrintedEmbedded(src, base, len);
        return;
      }
      i := i + 1;
    }
    PrintedText(src, base, len);
    if base != -1 && base + len == 8 { tp := Sprintf(tmp, tp, ":"); }
  }

  /** The text in the buffer of inet_ntop6. */
  method Print6(src: seq<byte>, tmp: array<char>) returns (tp: nat, ghost base: int, ghost len: int)
    requires |src| == 16 && tmp.Length == 46
    modifies tmp
    ensures Best(Words(src), base, len) && Compresses(Words(src), base, len)
    ensures tp == |Text6(src, base, len)| < 46 && tmp[..tp] == Text6(src, base, len)
  {
    var words := Fill(src);
    var b, n := FindRun(words);
    base, len := b, n;
    Text6Length(src, b, n);
    tp := Format(src, words, b, n, tmp);
  }

  /** inet_ntop6: the leftmost longest run of at least two zero words is compressed.  Refused
      exactly if the text and its null byte do not fit size, which 46 bytes always do; else
      they are stored at dst, and parsing the text gives the address. */
  method Ntop6(src: seq<byte>, dst: array<char>, size: nat) returns (ok: bool, ghost base: int, ghost len: int)
    requires |src| == 16 && size <= dst.Length
    modifies dst
    ensures Best(Words(src), base, len) && Compresses(Words(src), base, len)
    ensures ok <==> |Text6(src, base, len)| < size
    ensures size >= 46 ==> ok
    ensures !ok ==> dst[..] == old(dst[..])
    ensures ok ==> var n := |Text6(src, base, len)|;
      && n < dst.Length && dst[..n] == Text6(src, base, len) && dst[n] == '\0' && dst[n + 1..] == old(dst[n + 1..])
      && Parse6(dst[..n]) == Some(src)
  {
    var tmp := new char[46];
    var tp;
    tp, base, len := Print6(src, tmp);
    RoundTrip6(src, base, len);
    ok := tp + 1 <= size;
    if ok {
      var end := Sprintf(dst, 0, tmp[..tp]);
      assert dst[..end] == tmp[..tp];
    }
  }

  // ---------------------------------------------------------------- parsing

  /** inet_pton4: dst is written only on success. */
  method Pton4(src: string, dst: array<byte>, at: nat) returns (ok: bool)
    requires at + 4 <= dst.Length
    modifies dst
    ensures ok <==> Parse4(src).Some?
    ensures ok ==> |Parse4(src).value| == 4 && dst[..] == old(dst[..at]) + Parse4(src).value + old(dst[at + 4..])
    ensures !ok ==> dst[..] == old(dst[..])
  {
    var saw, octets, tp := false, 0, 0;
    var tmp := new byte[4](_ => 0);
    var k := 0;
    assert src[0..] == src && tmp[..0] == [];
    while k < |src|
      invariant 0 <= k <= |src| && 0 <= tp <= 3 && octets == tp + (if saw then 1 else 0)
      invariant Run4(src[k..], tmp[..tp], tmp[tp], saw) == Parse4(src)
      invariant dst[..] == old(dst[..])
    {
      var ch := src[k];
      assert src[k..][1..] == src[k + 1..];
      ghost var done := tmp[..tp];
      if IsDec(ch) {
        var new_ := tmp[tp] as int * 10 + DecValue(ch);
        if new_ > 255 { return false; }
        tmp[tp] := new_;
        assert tmp[..tp] == done;
        if !saw {
          octets := octets + 1;
          if octets > 4 { return false; }
          saw := true;
        }
      } else if ch == '.' && saw {
        if octets == 4 { return false; }
        tp := tp + 1;
        tmp[tp] := 0;
        assert tmp[..tp] == done + [tmp[tp - 1]];
        saw := false;
      } else {
        return false;
      }
      k := k + 1;
    }
    if octets < 4 { return false; }
    assert tmp[..] == tmp[..3] + [tmp[3]];
    ghost var before, octs := dst[..], tmp[..];
    assert src[|src|..] == "" && Parse4(src) == Some(octs);
    for i := 0 to 4
      invariant tmp[..] == octs
      invariant dst[..at] == before[..at] && dst[at + 4..] == before[at + 4..] && dst[at..at + i] == tmp[..i]
    {
      dst[at + i] := tmp[i];
      assert dst[at..at + i + 1] == dst[at..at + i] + [tmp[i]];
    }
    assert tmp[..4] == octs;
    assert dst[..] == dst[..at] + dst[at..at + 4] + dst[at + 4..];
    ok := true;
  }

  /** The bytes after n - m turns of the shift loop, of which m are left: what has moved is
      at the end, zeros before it. */
  predicate Shifted(was: seq<byte>, now: seq<byte>, colon: nat, tp: nat, m: nat)
    requires |was| == |now| == 16 && colon + m <= tp < 16
  {
    var gap := 16 - tp;
    && (forall k :: 0 <= k < colon + m ==> now[k] == was[k])
    && (forall k :: colon + m <= k < colon + m + gap ==> now[k] == 0)
    && (forall k :: colon + m + gap <= k < 16 ==> now[k] == was[k - gap])
  }

  lemma ShiftedAll(was: seq<byte>, now: seq<byte>, colon: nat, tp: nat)
    requires |was| == |now| == 16 && colon <= tp < 16 && Shifted(was, now, colon, tp, 0)
    ensures now == Spread(was[..tp], colon)
  {
    var r := Spread(was[..tp], colon);
    forall k | 0 <= k < 16 ensures now[k] == r[k] {
      assert k >= colon + 16 - tp ==> r[k] == was[..tp][colon..][k - colon - (16 - tp)] == was[k - (16 - tp)];
    }
  }

  lemma ZeroedAll(was: seq<byte>, now: seq<byte>, colon: nat)
    requires |was| == |now| == 16 && colon <= 16
    requires (forall k :: 0 <= k < colon ==> now[k] == was[k]) && forall k :: colon <= k < 16 ==> now[k] == 0
    ensures now == Spread(was[..16], colon)
  {
    assert was[..16] == was;
  }

  /** The shift loop of inet_pton6, in place and overlapping. */
  method Shift(tmp: array<byte>, colon: nat, tp: nat)
    requires tmp.Length == 16 && colon <= tp <= 16 && tmp[tp..] == Zeros(16 - tp)
    modifies tmp
    ensures tmp[..] == Spread(old(tmp[..tp]), colon)
  {
    ghost var was := tmp[..];
    assert tp < 16 ==> forall k :: tp <= k < 16 ==> was[k] == tmp[tp..][k - tp];
    var n := tp - colon;
    var i := 1;
    while i <= n
      invariant 1 <= i <= n + 1
      invariant tp < 16 ==> Shifted(was, tmp[..], colon, tp, n + 1 - i)
      invariant tp == 16 ==> forall k :: 0 <= k < colon ==> tmp[k] == was[k]
      invariant tp == 16 ==> forall k :: 17 - i <= k < 16 ==> tmp[k] == 0
    {
      tmp[16 - i] := tmp[colon + n - i];
      tmp[colon + n - i] := 0;
      i := i + 1;
    }
    if tp < 16 { ShiftedAll(was, tmp[..], colon, tp); } else { ZeroedAll(was, tmp[..], colon); }
  }

  /** A group is stored. */
  method StoreWord(tmp: array<byte>, tp: nat, val: nat)
    requires tmp.Length == 16 && tp + 2 <= 16 && val < 0x1_0000
    modifies tmp
    ensures tmp[..tp + 2] == old(tmp[..tp]) + [val / 256, val % 256]
    ensures tmp[tp + 2..] == old(tmp[tp + 2..])
  {
    tmp[tp] := val / 256;
    tmp[tp + 1] := val % 256;
    assert tmp[..tp + 2] == tmp[..tp] + [tmp[tp], tmp[tp + 1]];
  }

  lemma ZerosDrop(n: nat, k: nat)
    requires k <= n
    ensures Zeros(n)[k..] == Zeros(n - k)
  {
  }

  /** One character of the loop of inet_pton6.  tok is where the current group begins. */
  method ScanChar(src: string, k: nat, tmp: array<byte>, tp0: nat, colon0: int, tok0: nat, saw0: bool, val0: nat)
    returns (ok: bool, stop: bool, tp: nat, colon: int, tok: nat, saw: bool, val: nat)
    requires k < |src| && tok0 <= k && tmp.Length == 16 && -1 <= colon0 <= tp0 <= 16 && val0 <= 0xffff
    requires tmp[tp0..] == Zeros(16 - tp0)
    modifies tmp
    ensures -1 <= colon <= tp <= 16 && val <= 0xffff && tok <= k + 1 && (ok ==> tmp[tp..] == Zeros(16 - tp))
    ensures var n := Step6(src[k..], Scan(old(tmp[..tp0]), colon0, src[tok0..], saw0, val0));
            if !ok then n.Fail?
            else n == if stop then Stop(Scan(tmp[..tp], colon, src[tok..], saw, val))
                      else Go(Scan(tmp[..tp], colon, src[tok..], saw, val))
  {
    ok, stop := true, false;
    tp, colon, tok, saw, val := tp0, colon0, tok0, saw0, val0;
    var ch := src[k];
    assert src[k..][1..] == src[k + 1..];
    if IsHex(ch) {
      if val * 16 + HexValue(ch) > 0xffff { ok := false; return; }
      val := val * 16 + HexValue(ch);
      saw := true;
    } else if ch == ':' {
      tok := k + 1;
      if !saw {
        if colon != -1 { ok := false; return; }
        colon := tp;
      } else {
        if tp + 2 > 16 { ok := false; return; }
        StoreWord(tmp, tp, val);
        ZerosDrop(16 - tp, 2);
        assert tmp[tp + 2..] == old(tmp[tp0..])[2..];
        tp := tp + 2;
        saw, val := false, 0;
      }
    } else {
      ok := false;
      if ch == '.' && tp + 4 <= 16 { ok := Pton4(src[tok..], tmp, tp); }
      if ok {
        assert tmp[..tp + 4] == old(tmp[..tp0]) + Parse4(src[tok..]).value;
        ZerosDrop(16 - tp, 4);
        assert tmp[tp + 4..] == old(tmp[tp0..])[4..];
        tp, saw, stop := tp + 4, false, true;
      }
    }
  }

  /** inet_pton6: dst is written only on success. */
  method Pton6(src: string, dst: array<byte>) returns (ok: bool)
    requires dst.Length == 16
    modifies dst
    ensures ok <==> Parse6(src).Some?
    ensures dst[..] == if ok then Parse6(src).value else old(dst[..])
  {
    var tmp := new byte[16](_ => 0);
    var tp: nat, colon, k: nat := 0, -1, 0;
    if |src| > 0 && src[0] == ':' {
      k := 1;
      if |src| == 1 || src[1] != ':' { return false; }
    }
    var tok: nat, saw, val: nat, stop := k, false, 0, false;
    assert src[0..] == src && tmp[..0] == [];
    while k < |src| && !stop
      invariant tok <= k <= |src| && -1 <= colon <= tp <= 16 && val <= 0xffff
      invariant fresh(tmp) && tmp != dst && dst[..] == old(dst[..]) && tmp[tp..] == Zeros(16 - tp)
      invariant var st := Scan(tmp[..tp], colon, src[tok..], saw, val);
                (if stop then Finish(st) else Run6(src[k..], st)) == Parse6(src)
      decreases |src| - k
    {
      assert src[k..][1..] == src[k + 1..];
      ok, stop, tp, colon, tok, saw, val := ScanChar(src, k, tmp, tp, colon, tok, saw, val);
      if !ok { return; }
      k := k + 1;
    }
    FinishToken(Scan(tmp[..tp], colon, src[tok..], saw, val));
    ok := Conclude(tmp, tp, colon, saw, val, dst);
  }

  lemma FinishToken(st: Scan)
    requires ValidScan(st)
    ensures Finish(st) == Finish(st.(tok := ""))
  {
  }

  /** What follows the loop of inet_pton6. */
  method Conclude(tmp: array<byte>, tp0: nat, colon: int, saw: bool, val: nat, dst: array<byte>) returns (ok: bool)
    requires tmp.Length == dst.Length == 16 && tmp != dst && -1 <= colon <= tp0 <= 16 && val <= 0xffff
    requires tmp[tp0..] == Zeros(16 - tp0)
    modifies tmp, dst
    ensures var r := Finish(Scan(old(tmp[..tp0]), colon, "", saw, val));
            (ok <==> r.Some?) && dst[..] == if ok then r.value else old(dst[..])
  {
    var tp := tp0;
    if saw {
      if tp + 2 > 16 { return false; }
      StoreWord(tmp, tp, val);
      ZerosDrop(16 - tp, 2);
      assert tmp[tp + 2..] == old(tmp[tp0..])[2..];
      tp := tp + 2;
    }
    if colon != -1 {
      Shift(tmp, colon, tp);
      tp := 16;
    }
    if tp != 16 { return false; }
    forall i | 0 <= i < 16 { dst[i] := tmp[i]; }
    assert dst[..] == tmp[..];
    ok := true;
  }

  // ---------------------------------------------------------------- the two calls

  datatype Family = AfInet | AfInet6 | AfOther

  /** inet_pton: 1 with the address that the text denotes, 0 exactly if it denotes none, and -1
      for another family; dst is written only with 1. */
  method Pton(af: Family, src: string, dst: array<byte>) returns (rc: int)
    requires (af.AfInet? ==> dst.Length >= 4) && (af.AfInet6? ==> dst.Length == 16)
    modifies dst
    ensures rc == (if af.AfOther? then -1
                   else if (if af.AfInet? then exists fs :: G.Dotted(src, fs) else exists f :: G.Denotes(src, f)) then 1
                   else 0)
    ensures rc != 1 ==> dst[..] == old(dst[..])
    ensures rc == 1 && af.AfInet? ==>
      forall fs :: G.Dotted(src, fs) ==> dst[..] == G.Values(fs) + old(dst[4..])
    ensures rc == 1 && af.AfInet6? ==> forall f :: G.Denotes(src, f) ==> dst[..] == G.Value(f)
  {
    var ok;
    match af {
      case AfInet =>
        ghost var rest := dst[4..];
        G.Parse4Iff(src);
        ok := Pton4(src, dst, 0);
        assert ok ==> dst[..] == Parse4(src).value + rest;
        rc := if ok then 1 else 0;
      case AfInet6 =>
        G.Parse6Iff(src);
        ok := Pton6(src, dst);
        rc := if ok then 1 else 0;
      case AfOther => rc := -1;
    }
  }
}
