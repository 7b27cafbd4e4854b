/** Parsing the text of an address (inet_pton.c) as a function of the text, and its inverse
    relation to printing. */
module InetParse {
  import opened Basics
  import opened InetText

  // ---------------------------------------------------------------- dotted decimal

  predicate IsDec(c: char) { '0' <= c <= '9' }

  function DecValue(c: char): nat
    requires IsDec(c)
  {
    (c - '0') as nat
  }

  /** inet_pton4 with the text rest to come: the octets that are complete, the one that is
      open, and whether it has a digit. */
  function Run4(rest: string, done: seq<byte>, cur: byte, saw: bool): (r: Option<seq<byte>>)
    ensures r.Some? && |done| <= 3 ==> |r.value| == 4
  {
    if rest == "" then (if |done| == 3 && saw then Some(done + [cur]) else None)
    else if IsDec(rest[0]) then
      var v := cur as int * 10 + DecValue(rest[0]);
      if v > 255 || (!saw && |done| >= 4) then None else Run4(rest[1..], done, v, true)
    else if rest[0] == '.' && saw then
      if |done| >= 3 then None else Run4(rest[1..], done + [cur], 0, false)
    else None
  }

  function Parse4(s: string): Option<seq<byte>> { Run4(s, [], 0, false) }

  /** The decimal numeral of a byte is read back. */
  lemma {:induction false} NumeralRun4(n: nat, rest: string, done: seq<byte>, saw: bool)
    requires n < 256 && |done| <= 3
    ensures Run4(Numeral(n, 10) + rest, done, 0, saw) == Run4(rest, done, n, true)
  {
    var d := [Digit(n % 10)];
    if n < 10 {
      assert (d + rest)[1..] == rest;
    } else {
      assert Numeral(n, 10) + rest == Numeral(n / 10, 10) + (d + rest);
      NumeralRun4(n / 10, d + rest, done, saw);
      assert (d + rest)[1..] == rest;
    }
  }

  lemma DotRun4(rest: string, done: seq<byte>, cur: byte)
    requires |done| < 3
    ensures Run4("." + rest, done, cur, true) == Run4(rest, done + [cur], 0, false)
  {
    assert ("." + rest)[1..] == rest;
  }

  lemma LastOctets(b: seq<byte>, done: seq<byte>)
    requires |b| == 4 && done == b[..2]
    ensures Run4(Numeral(b[2], 10) + ("." + Numeral(b[3], 10)), done, 0, false) == Some(b)
  {
    OctetRun4(b[2], Numeral(b[3], 10), done);
    assert Numeral(b[3], 10) + "" == Numeral(b[3], 10);
    NumeralRun4(b[3], "", done + [b[2]], false);
    assert b == done + [b[2]] + [b[3]];
  }

  /** Printing and parsing an IPv4 address gives the address. */
  lemma RoundTrip4(b: seq<byte>)
    requires |b| == 4
    ensures Parse4(Text4(b)) == Some(b)
  {
    var t2 := Numeral(b[2], 10) + ("." + Numeral(b[3], 10));
    OctetRun4(b[0], Numeral(b[1], 10) + ("." + t2), []);
    OctetRun4(b[1], t2, [] + [b[0]]);
    LastOctets(b, [] + [b[0]] + [b[1]]);
  }

  lemma OctetRun4(n: byte, rest: string, done: seq<byte>)
    requires |done| < 3
    ensures Run4(Numeral(n, 10) + ("." + rest), done, 0, false) == Run4(rest, done + [n], 0, false)
  {
    NumeralRun4(n, "." + rest, done, false);
    DotRun4(rest, done, n);
  }

  // ---------------------------------------------------------------- colons and hexadecimal

  predicate IsHex(c: char) { IsDec(c) || 'a' <= c <= 'f' || 'A' <= c <= 'F' }

  function HexValue(c: char): (v: nat)
    requires IsHex(c)
    ensures v < 16
  {
    if IsDec(c) then DecValue(c) else if 'a' <= c <= 'f' then (c - 'a') as nat + 10 else (c - 'A') as nat + 10
  }

  /** The bytes stored so far; where the double colon was, or -1; the text of the current
      group; whether it has a digit; its value. */
  datatype Scan = Scan(out: seq<byte>, colon: int, tok: string, saw: bool, val: nat)

  predicate ValidScan(st: Scan) { |st.out| <= 16 && -1 <= st.colon <= |st.out| && st.val < 0x1_0000 }

  function Store(st: Scan): Scan
    requires ValidScan(st)
  {
    st.(out := st.out + [st.val / 256, st.val % 256], saw := false, val := 0)
  }

  /** The shift loop: the bytes from the double colon move to the end, zeros take their
      place.  In a full address it sets the bytes after the double colon to zero. */
  function Spread(out: seq<byte>, colon: nat): (r: seq<byte>)
    requires colon <= |out| <= 16
    ensures |r| == 16
  {
    if |out| < 16 then out[..colon] + Zeros(16 - |out|) + out[colon..] else out[..colon] + Zeros(16 - colon)
  }

  function Finish(st: Scan): (r: Option<seq<byte>>)
    requires ValidScan(st)
    ensures r.Some? ==> |r.value| == 16
  {
    if st.saw && |st.out| + 2 > 16 then None
    else
      var out := if st.saw then Store(st).out else st.out;
      if st.colon >= 0 then Some(Spread(out, st.colon)) else if |out| == 16 then Some(out) else None
  }

  /** What the loop of inet_pton6 does with one character: fail, go on, or stop. */
  datatype Next = Fail | Go(st: Scan) | Stop(st: Scan)

  function Step6(rest: string, st: Scan): (n: Next)
    requires ValidScan(st) && rest != ""
    ensures !n.Fail? ==> ValidScan(n.st)
  {
    if IsHex(rest[0]) then
      var v := st.val * 16 + HexValue(rest[0]);
      if v > 0xffff then Fail else Go(st.(val := v, saw := true))
    else if rest[0] == ':' then
      if !st.saw then (if st.colon >= 0 then Fail else Go(st.(tok := rest[1..], colon := |st.out|)))
      else if |st.out| + 2 > 16 then Fail
      else Go(Store(st.(tok := rest[1..])))
    else if rest[0] == '.' && |st.out| + 4 <= 16 && Parse4(st.tok).Some? then
      Stop(st.(out := st.out + Parse4(st.tok).value, saw := false))
    else Fail
  }

  /** inet_pton6 with the text rest to come. */
  function Run6(rest: string, st: Scan): (r: Option<seq<byte>>)
    requires ValidScan(st)
    ensures r.Some? ==> |r.value| == 16
  {
    if rest == "" then Finish(st)
    else
      match Step6(rest, st)
      case Fail => None
      case Go(next) => Run6(rest[1..], next)
      case Stop(next) => Finish(next)
  }

  function Parse6(s: string): (r: Option<seq<byte>>)
    ensures r.Some? ==> |r.value| == 16
  {
    if s != "" && s[0] == ':' then
      if |s| < 2 || s[1] != ':' then None else Run6(s[1..], Scan([], -1, s[1..], false, 0))
    else Run6(s, Scan([], -1, s, false, 0))
  }

  // ---------------------------------------------------------------- reading what was printed

  lemma DigitIsHex(d: nat)
    requires d < 16
    ensures IsHex(Digit(d)) && HexValue(Digit(d)) == d && Digit(d) != ':' && Digit(d) != '.'
    ensures d < 10 ==> IsDec(Digit(d)) && DecValue(Digit(d)) == d
  {
  }

  predicate AllHex(ds: string) { forall i :: 0 <= i < |ds| ==> IsHex(ds[i]) }

  /** The value of hexadecimal digits after acc. */
  function HexFold(acc: nat, ds: string): (v: nat)
    requires AllHex(ds)
    ensures v >= acc
    decreases ds
  {
    if ds == "" then acc else HexFold(acc * 16 + HexValue(ds[0]), ds[1..])
  }

  lemma {:induction false} FoldAppend(acc: nat, ds: string, c: char)
    requires AllHex(ds) && IsHex(c)
    ensures AllHex(ds + [c]) && HexFold(acc, ds + [c]) == HexFold(acc, ds) * 16 + HexValue(c)
    decreases ds
  {
    if ds == "" {
      assert HexFold(acc * 16 + HexValue(c), (ds + [c])[1..]) == acc * 16 + HexValue(c);
    } else {
      FoldAppend(acc * 16 + HexValue(ds[0]), ds[1..], c);
      assert (ds + [c])[1..] == ds[1..] + [c];
    }
  }

  lemma {:induction false} FoldNumeral(n: nat)
    ensures AllHex(Numeral(n, 16)) && HexFold(0, Numeral(n, 16)) == n
  {
    DigitIsHex(n % 16);
    if n < 16 {
      assert HexFold(n, Numeral(n, 16)[1..]) == n;
    } else {
      FoldNumeral(n / 16);
      FoldAppend(0, Numeral(n / 16, 16), Digit(n % 16));
    }
  }

  /** The digits of a decimal numeral, read as hexadecimal, stay below the limit of a group. */
  lemma FoldByte(n: byte)
    ensures AllHex(Numeral(n, 10)) && HexFold(0, Numeral(n, 10)) < 0x1000
  {
    FoldDecimal(n, 4096);
  }

  lemma {:induction false} FoldDecimal(n: nat, limit: nat)
    requires (n < 10 && limit >= 16) || (n < 100 && limit >= 256) || (n < 1000 && limit >= 4096)
    ensures AllHex(Numeral(n, 10)) && HexFold(0, Numeral(n, 10)) < limit
  {
    DigitIsHex(n % 10);
    if n < 10 {
      assert HexFold(n, Numeral(n, 10)[1..]) == n;
    } else {
      FoldDecimal(n / 10, if n < 100 then 16 else 256);
      FoldAppend(0, Numeral(n / 10, 10), Digit(n % 10));
    }
  }

  lemma {:induction false} DigitsRun(ds: string, rest: string, st: Scan)
    requires ValidScan(st) && ds != "" && AllHex(ds) && HexFold(st.val, ds) <= 0xffff
    ensures Run6(ds + rest, st) == Run6(rest, st.(val := HexFold(st.val, ds), saw := true))
  {
    var st1 := st.(val := st.val * 16 + HexValue(ds[0]), saw := true);
    assert (ds + rest)[1..] == ds[1..] + rest;
    if |ds| == 1 {
      assert ds[1..] + rest == rest;
    } else {
      DigitsRun(ds[1..], rest, st1);
    }
  }

  lemma WordRun(w: nat, rest: string, st: Scan)
    requires ValidScan(st) && st.val == 0 && w < 0x1_0000
    ensures Run6(Numeral(w, 16) + rest, st) == Run6(rest, st.(val := w, saw := true))
  {
    FoldNumeral(w);
    DigitsRun(Numeral(w, 16), rest, st);
  }

  lemma ColonRun(rest: string, st: Scan)
    requires ValidScan(st) && st.saw && |st.out| + 2 <= 16
    ensures Run6(":" + rest, st) == Run6(rest, Store(st.(tok := rest)))
  {
    assert (":" + rest)[1..] == rest;
  }

  lemma DoubleRun(rest: string, st: Scan)
    requires ValidScan(st) && !st.saw && st.colon == -1
    ensures Run6(":" + rest, st) == Run6(rest, st.(tok := rest, colon := |st.out|))
  {
    assert (":" + rest)[1..] == rest;
  }

  lemma GroupRun(w: nat, rest: string, st: Scan)
    requires ValidScan(st) && !st.saw && st.val == 0 && w < 0x1_0000 && |st.out| + 2 <= 16
    ensures Run6(Numeral(w, 16) + (":" + rest), st)
         == Run6(rest, Scan(st.out + [w / 256, w % 256], st.colon, rest, false, 0))
  {
    WordRun(w, ":" + rest, st);
    ColonRun(rest, st.(val := w, saw := true));
  }

  /** The scan when the groups ws[a..b] have been stored. */
  function After(ws: seq<nat>, a: nat, b: nat, rest: string, st: Scan): Scan
    requires a <= b <= |ws| && AllWords(ws)
  {
    Scan(st.out + Bytes(ws[a..b]), st.colon, if a == b then st.tok else rest, st.saw, st.val)
  }

  lemma AfterMore(ws: seq<nat>, a: nat, b: nat, rest: string, more: string, st: Scan)
    requires a < b <= |ws| && AllWords(ws)
    ensures After(ws, a, b, rest, st)
         == After(ws, a, b - 1, more, st).(
              out := After(ws, a, b - 1, more, st).out + [ws[b - 1] / 256, ws[b - 1] % 256], tok := rest)
  {
    assert ws[a..b][..b - a - 1] == ws[a..b - 1];
    BytesSnoc(ws[a..b]);
  }

  lemma {:induction false} ClosedRun(ws: seq<nat>, a: nat, b: nat, rest: string, st: Scan)
    requires a <= b <= |ws| && AllWords(ws)
    requires ValidScan(st) && !st.saw && st.val == 0 && |st.out| + 2 * (b - a) <= 16
    ensures Run6(Closed(ws, a, b) + rest, st) == Run6(rest, After(ws, a, b, rest, st))
  {
    if a == b {
      AfterNone(ws, a, rest, st);
    } else {
      var more := Numeral(ws[b - 1], 16) + (":" + rest);
      ClosedMore(ws, a, b, rest);
      ClosedRun(ws, a, b - 1, more, st);
      GroupRun(ws[b - 1], rest, After(ws, a, b - 1, more, st));
      AfterMore(ws, a, b, rest, more, st);
    }
  }

  lemma AfterNone(ws: seq<nat>, a: nat, rest: string, st: Scan)
    requires a <= |ws| && AllWords(ws)
    ensures Closed(ws, a, a) + rest == rest && After(ws, a, a, rest, st) == st
  {
    assert "" + rest == rest && st.out + Bytes(ws[a..a]) == st.out;
  }

  lemma ClosedMore(ws: seq<nat>, a: nat, b: nat, rest: string)
    requires a < b <= |ws|
    ensures Closed(ws, a, b) + rest == Closed(ws, a, b - 1) + (Numeral(ws[b - 1], 16) + (":" + rest))
  {
    var c, v := Closed(ws, a, b - 1), Numeral(ws[b - 1], 16);
    Regroup(c, v + ":", rest);
    Regroup(v, ":", rest);
  }

  lemma LastRun(w: nat, st: Scan)
    requires ValidScan(st) && !st.saw && st.val == 0 && w < 0x1_0000 && |st.out| + 2 <= 16
    ensures Run6(Numeral(w, 16), st) == Finish(Scan(st.out + [w / 256, w % 256], st.colon, "", false, 0))
  {
    assert Numeral(w, 16) + "" == Numeral(w, 16);
    WordRun(w, "", st);
  }

  /** Groups to the end of the text. */
  lemma JoinedRun(ws: seq<nat>, a: nat, b: nat, st: Scan)
    requires a <= b <= |ws| && AllWords(ws)
    requires ValidScan(st) && !st.saw && st.val == 0 && |st.out| + 2 * (b - a) <= 16
    ensures Run6(Joined(ws, a, b), st) == Finish(Scan(st.out + Bytes(ws[a..b]), st.colon, "", false, 0))
  {
    if a == b {
      assert st.out + Bytes(ws[a..b]) == st.out;
    } else {
      JoinedClosed(ws, a, b);
      JoinedRunAt(ws, a, b, st);
    }
  }

  lemma JoinedRunAt(ws: seq<nat>, a: nat, b: nat, st: Scan)
    requires a < b <= |ws| && AllWords(ws)
    requires ValidScan(st) && !st.saw && st.val == 0 && |st.out| + 2 * (b - a) <= 16
    ensures Run6(Closed(ws, a, b - 1) + Numeral(ws[b - 1], 16), st)
         == Finish(Scan(st.out + Bytes(ws[a..b]), st.colon, "", false, 0))
  {
    var v := Numeral(ws[b - 1], 16);
    AfterMore(ws, a, b, "", v, st);
    ClosedRun(ws, a, b - 1, v, st);
    LastRun(ws[b - 1], After(ws, a, b - 1, v, st));
  }

  lemma BytesSnoc(ws: seq<nat>)
    requires ws != [] && AllWords(ws)
    ensures var n := |ws| - 1; Bytes(ws) == Bytes(ws[..n]) + [ws[n] / 256, ws[n] % 256]
  {
    var n := |ws| - 1;
    assert ws == ws[..n] + [ws[n]];
    BytesAppend(ws[..n], [ws[n]]);
    assert Bytes([ws[n]]) == [ws[n] / 256, ws[n] % 256];
  }

  lemma {:induction false} ClosedStart(ws: seq<nat>, a: nat, b: nat)
    requires a < b <= |ws|
    ensures Joined(ws, a, b) != "" && Joined(ws, a, b)[0] != ':'
  {
    if a + 1 == b { NumeralStart(ws[a], 16); } else { ClosedStart(ws, a, b - 1); }
  }

  lemma {:induction false} NumeralStart(n: nat, base: nat)
    requires 2 <= base <= 16
    ensures Numeral(n, base)[0] != ':'
  {
    if n < base { DigitIsHex(n); } else { NumeralStart(n / base, base); }
  }

  /** No double colon. */
  lemma RoundTripPlain(src: seq<byte>)
    requires |src| == 16
    ensures Parse6(Text6(src, -1, 0)) == Some(src)
  {
    var ws := Words(src);
    ClosedStart(ws, 0, 8);
    JoinedRun(ws, 0, 8, Scan([], -1, Joined(ws, 0, 8), false, 0));
    BytesOfWords(src);
    assert ws[0..8] == ws && [] + Bytes(ws) == src;
  }

  /** The groups around the double colon, the zeros between them. */
  lemma Spreads(ws: seq<nat>, base: nat, len: nat)
    requires |ws| == 8 && AllWords(ws) && ZeroRun(ws, base, len) && len > 0
    ensures Spread(Bytes(ws[..base]) + Bytes(ws[base + len..]), 2 * base) == Bytes(ws)
  {
    var pre, zs, post := ws[..base], ws[base..base + len], ws[base + len..];
    assert ws == pre + zs + post;
    BytesAppend(pre + zs, post);
    BytesAppend(pre, zs);
    BytesOfZeros(zs);
    var out := Bytes(pre) + Bytes(post);
    assert out[..2 * base] == Bytes(pre) && out[2 * base..] == Bytes(post);
  }

  lemma DoubleColonRun(ws: seq<nat>, n: nat, tail: string, tok: string)
    requires AllWords(ws) && 0 < n <= |ws| && n <= 8
    ensures Run6(Closed(ws, 0, n) + (":" + tail), Scan([], -1, tok, false, 0))
         == Run6(tail, Scan(Bytes(ws[..n]), 2 * n, tail, false, 0))
  {
    ClosedRun(ws, 0, n, ":" + tail, Scan([], -1, tok, false, 0));
    assert ws[0..n] == ws[..n] && [] + Bytes(ws[..n]) == Bytes(ws[..n]);
    DoubleRun(tail, Scan(Bytes(ws[..n]), -1, ":" + tail, false, 0));
  }

  /** Groups, a double colon, and the text after it. */
  lemma DoubleColon(ws: seq<nat>, n: nat, tail: string)
    requires AllWords(ws) && n <= |ws| && n <= 8
    ensures Parse6(Gap(Joined(ws, 0, n), tail)) == Run6(tail, Scan(Bytes(ws[..n]), 2 * n, tail, false, 0))
  {
    var text := Gap(Joined(ws, 0, n), tail);
    if n == 0 {
      assert text == ":" + (":" + tail) && text[1..] == ":" + tail;
      DoubleRun(tail, Scan([], -1, ":" + tail, false, 0));
    } else {
      ClosedStart(ws, 0, n);
      JoinedColon(ws, 0, n);
      Regroup(Joined(ws, 0, n), ":", ":" + tail);
      DoubleColonRun(ws, n, tail, text);
    }
  }

  /** Groups on both sides of a double colon. */
  lemma ParseCompressed(ws: seq<nat>, n: nat, m: nat)
    requires AllWords(ws) && n <= m <= |ws| == 8
    ensures Parse6(Gap(Joined(ws, 0, n), Joined(ws, m, 8))) == Some(Spread(Bytes(ws[..n]) + Bytes(ws[m..]), 2 * n))
  {
    DoubleColon(ws, n, Joined(ws, m, 8));
    JoinedRun(ws, m, 8, Scan(Bytes(ws[..n]), 2 * n, Joined(ws, m, 8), false, 0));
    assert ws[m..8] == ws[m..];
  }

  lemma SpreadsBack(src: seq<byte>, base: nat, len: nat)
    requires |src| == 16 && ZeroRun(Words(src), base, len) && len > 0
    ensures Spread(Bytes(Words(src)[..base]) + Bytes(Words(src)[base + len..]), 2 * base) == src
  {
    Spreads(Words(src), base, len);
    BytesOfWords(src);
  }

  lemma RoundTripCompressed(src: seq<byte>, base: nat, len: nat)
    requires |src| == 16 && ZeroRun(Words(src), base, len) && len >= 2 && !Embeds(Words(src), base, len)
    ensures Parse6(Text6(src, base, len)) == Some(src)
  {
    SpreadsBack(src, base, len);
    ParseCompressed(Words(src), base, base + len);
  }

  lemma DottedRun(b: seq<byte>, st: Scan)
    requires |b| == 4 && ValidScan(st) && st.val == 0 && |st.out| + 4 <= 16 && st.tok == Text4(b) && st.colon >= 0
    ensures Run6(Text4(b), st) == Some(Spread(st.out + b, st.colon))
  {
    var more := "." + (Numeral(b[1], 10) + ("." + (Numeral(b[2], 10) + ("." + Numeral(b[3], 10)))));
    FoldByte(b[0]);
    DigitsRun(Numeral(b[0], 10), more, st);
    RoundTrip4(b);
  }

  /** A double colon, groups, and an IPv4 address. */
  lemma ParseEmbedded(ws: seq<nat>, n: nat, b: seq<byte>)
    requires AllWords(ws) && n <= 6 == |ws| - 2 && |b| == 4
    ensures Parse6(Gap("", Closed(ws, n, 6) + Text4(b))) == Some(Spread(Bytes(ws[n..6]) + b, 0))
  {
    var tail := Closed(ws, n, 6) + Text4(b);
    DoubleColon([], 0, tail);
    assert Bytes([][..0]) == [];
    ClosedRun(ws, n, 6, Text4(b), Scan([], 0, tail, false, 0));
    assert n == 6 ==> tail == Text4(b);
    assert [] + Bytes(ws[n..6]) == Bytes(ws[n..6]);
    DottedRun(b, Scan(Bytes(ws[n..6]), 0, Text4(b), false, 0));
  }

  lemma EmbeddedText(src: seq<byte>, len: nat)
    requires |src| == 16 && ZeroRun(Words(src), 0, len) && Embeds(Words(src), 0, len)
    ensures Text6(src, 0, len) == Gap("", Closed(Words(src), len, 6) + Text4(src[12..]))
  {
    MiddleText(Words(src));
  }

  lemma EmbeddedBytes(src: seq<byte>, len: nat)
    requires |src| == 16 && ZeroRun(Words(src), 0, len) && 0 < len <= 6
    ensures Spread(Bytes(Words(src)[len..6]) + src[12..], 0) == src
  {
    var ws := Words(src);
    TailBytes(src, len);
    SpreadsBack(src, 0, len);
    assert Bytes(ws[..0]) + Bytes(ws[len..]) == Bytes(ws[len..]);
  }

  lemma RoundTripEmbedded(src: seq<byte>, len: nat)
    requires |src| == 16 && ZeroRun(Words(src), 0, len) && Embeds(Words(src), 0, len)
    ensures Parse6(Text6(src, 0, len)) == Some(src)
  {
    EmbeddedText(src, len);
    ParseEmbedded(Words(src), len, src[12..]);
    EmbeddedBytes(src, len);
  }

  lemma TailBytes(src: seq<byte>, len: nat)
    requires |src| == 16 && len <= 6
    ensures Bytes(Words(src)[len..]) == Bytes(Words(src)[len..6]) + src[12..]
  {
    var ws := Words(src);
    BytesOfWords(src[12..]);
    WordsDrop(src, 6);
    BytesAppend(ws[len..6], ws[6..]);
    assert ws[len..6] + ws[6..] == ws[len..];
  }

  lemma Mapped()
    ensures Numeral(0xffff, 16) == "ffff"
  {
    assert Numeral(0xfff, 16) == Numeral(0xff, 16) + "f" && Numeral(0xff, 16) == Numeral(0xf, 16) + "f";
  }

  lemma MiddleText(ws: seq<nat>)
    requires |ws| == 8
    ensures Closed(ws, 6, 6) == "" && (ws[5] == 0xffff ==> Closed(ws, 5, 6) == "ffff:")
  {
    Mapped();
    assert Closed(ws, 5, 5) == "";
  }

  /** Printing and parsing an IPv6 address gives the address, whichever run of zeros is
      compressed. */
  lemma RoundTrip6(src: seq<byte>, base: int, len: int)
    requires |src| == 16 && Compresses(Words(src), base, len)
    ensures Parse6(Text6(src, base, len)) == Some(src)
  {
    if base == -1 { RoundTripPlain(src); }
    else if Embeds(Words(src), base, len) { RoundTripEmbedded(src, len); }
    else { RoundTripCompressed(src, base, len); }
  }

  // ---------------------------------------------------------------- the double colon

  /** The bytes around the double colon with zeros between them come out of the shift loop
      exactly if some byte is left out or there is nothing but zeros after the double colon. */
  lemma SpreadIff(out: seq<byte>, colon: nat)
    requires colon <= |out| <= 16
    ensures Spread(out, colon) == out[..colon] + Zeros(16 - |out|) + out[colon..]
            <==> |out| < 16 || out[colon..] == Zeros(|out| - colon)
  {
    if |out| == 16 {
      var full := out[..colon] + Zeros(0) + out[colon..];
      assert full[colon..] == out[colon..];
      assert Spread(out, colon)[colon..] == Zeros(16 - colon);
    }
  }

  /** A double colon among eight groups is not ignored: it zeroes every group after it. */
  lemma FullAddress(ws: seq<nat>, k: nat)
    requires |ws| == 8 && AllWords(ws) && k <= 8
    ensures Parse6(Gap(Joined(ws, 0, k), Joined(ws, k, 8))) == Some(Bytes(ws[..k]) + Zeros(16 - 2 * k))
  {
    ParseCompressed(ws, k, k);
    var out := Bytes(ws[..k]) + Bytes(ws[k..]);
    assert out[..2 * k] == Bytes(ws[..k]);
  }

  lemma CutIff(ws: seq<nat>, k: nat)
    requires |ws| == 8 && AllWords(ws) && k <= 8
    ensures Bytes(ws[..k]) + Zeros(16 - 2 * k) == Bytes(ws) <==> ZeroRun(ws, k, 8 - k)
  {
    var a, z, b := Bytes(ws[..k]), Zeros(16 - 2 * k), Bytes(ws[k..]);
    assert ws == ws[..k] + ws[k..];
    BytesAppend(ws[..k], ws[k..]);
    assert (a + z)[2 * k..] == z && (a + b)[2 * k..] == b;
    ZeroBytes(ws[k..]);
  }

  lemma ZeroBytes(ws: seq<nat>)
    requires AllWords(ws)
    ensures Bytes(ws) == Zeros(2 * |ws|) <==> ZeroRun(ws, 0, |ws|)
  {
    if ZeroRun(ws, 0, |ws|) {
      BytesOfZeros(ws);
    } else {
      var i :| 0 <= i < |ws| && ws[i] != 0;
      BytesAt(ws, i);
    }
  }

  /** It is harmless exactly if every group after it is zero. */
  lemma FullAddressIff(ws: seq<nat>, k: nat)
    requires |ws| == 8 && AllWords(ws) && k <= 8
    ensures Parse6(Gap(Joined(ws, 0, k), Joined(ws, k, 8))) == Some(Bytes(ws)) <==> ZeroRun(ws, k, 8 - k)
  {
    FullAddress(ws, k);
    CutIff(ws, k);
  }

  lemma {:induction false} BytesAt(ws: seq<nat>, i: nat)
    requires AllWords(ws) && i < |ws|
    ensures Bytes(ws)[2 * i] == ws[i] / 256 && Bytes(ws)[2 * i + 1] == ws[i] % 256
  {
    if i > 0 { BytesAt(ws[1..], i - 1); }
  }

  /** 1:1:1:1:1:1:1::1 is read as 1:1:1:1:1:1:1:0. */
  lemma FullAddressExample()
    ensures var ones := seq(8, _ => 1);
            Parse6(Gap(Joined(ones, 0, 7), Joined(ones, 7, 8))) == Some(Bytes(ones[..7]) + Zeros(2))
            && Bytes(ones[..7]) + Zeros(2) != Bytes(ones)
  {
    var ones := seq(8, _ => 1);
    FullAddress(ones, 7);
    FullAddressIff(ones, 7);
    assert ones[7] == 1;
  }
}
