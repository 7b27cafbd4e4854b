/** What inet_ntop prints, in terms of the grammars of inet_pton: the shortest numerals, the
    run of zeros that is left out, and when an IPv4 address is embedded. */
module InetPrint {
  import opened Basics
  import opened InetText
  import opened InetParse
  import opened InetGrammar

  // ---------------------------------------------------------------- numerals

  predicate LowerDigit(c: char) { Place(LOWER, c, 0) < 16 }

  /** Digits in lower case without leading zeros. */
  predicate Shortest(ds: string) {
    ds != "" && (ds[0] == '0' ==> |ds| == 1) && AllLower(ds)
  }

  lemma DigitLower(d: nat)
    requires d < 16
    ensures LowerDigit(Digit(d)) && (d > 0 ==> Digit(d) != '0')
  {
    DigitIsHex(d);
    LowerPlace(Digit(d));
  }

  predicate AllLower(ds: string) {
    ds == "" || (AllLower(ds[..|ds| - 1]) && LowerDigit(ds[|ds| - 1]))
  }

  lemma LowerAppend(ds: string, d: nat)
    requires AllLower(ds) && d < 16
    ensures AllLower(ds + [Digit(d)])
  {
    DigitLower(d);
    assert (ds + [Digit(d)])[..|ds|] == ds;
  }

  lemma {:induction false} NumeralLower(n: nat, base: nat)
    requires 2 <= base <= 16
    ensures AllLower(Numeral(n, base))
  {
    if n < base {
      LowerAppend("", n);
      assert "" + [Digit(n)] == [Digit(n)];
    } else {
      NumeralLower(n / base, base);
      LowerAppend(Numeral(n / base, base), n % base);
    }
  }

  lemma {:induction false} NumeralFirst(n: nat, base: nat)
    requires 2 <= base <= 16
    ensures n > 0 ==> Numeral(n, base)[0] != '0'
    ensures n == 0 ==> |Numeral(n, base)| == 1
  {
    if n < base {
      DigitLower(n);
    } else {
      assert n / base > 0;
      NumeralFirst(n / base, base);
    }
  }

  lemma NumeralShortest(n: nat, base: nat)
    requires 2 <= base <= 16
    ensures Shortest(Numeral(n, base))
  {
    NumeralLower(n, base);
    NumeralFirst(n, base);
  }

  lemma DecimalAppend(ds: string, d: nat)
    requires AllDigits(ds, 10) && d < 10
    ensures AllDigits(ds + [Digit(d)], 10) && Decimal(ds + [Digit(d)]) == 10 * Decimal(ds) + d
  {
    PrintsTable(d);
    assert (ds + [Digit(d)])[..|ds|] == ds;
  }

  lemma {:induction false} NumeralDecimal(n: nat)
    ensures AllDigits(Numeral(n, 10), 10) && Decimal(Numeral(n, 10)) == n
  {
    if n < 10 {
      DecimalAppend("", n);
      assert "" + [Digit(n)] == [Digit(n)];
    } else {
      NumeralDecimal(n / 10);
      DecimalAppend(Numeral(n / 10, 10), n % 10);
    }
  }

  lemma NumeralOctet(b: byte)
    ensures Octet(Numeral(b, 10)) && Decimal(Numeral(b, 10)) == b && Shortest(Numeral(b, 10))
  {
    NumeralDecimal(b);
    NumeralShortest(b, 10);
  }

  lemma NumeralGroup(w: nat)
    requires w < 0x1_0000
    ensures HexGroup(Numeral(w, 16)) && Hexadecimal(Numeral(w, 16)) == w && Shortest(Numeral(w, 16))
  {
    FoldNumeral(w);
    HexGroupIs(Numeral(w, 16));
    NumeralShortest(w, 16);
  }

  // ---------------------------------------------------------------- IPv4

  function Fields4(b: seq<byte>): seq<string>
    requires |b| == 4
  {
    seq(4, i requires 0 <= i < 4 => Numeral(b[i], 10))
  }

  predicate AllShortest(fs: seq<string>) { forall i :: 0 <= i < |fs| ==> Shortest(fs[i]) }

  lemma DotsCons(f: string, fs: seq<string>)
    ensures Dots([f] + fs) == "." + (f + Dots(fs))
  {
    assert ([f] + fs)[1..] == fs;
  }

  lemma FieldsText(b: seq<byte>)
    requires |b| == 4
    ensures Text4(b) == Fields4(b)[0] + Dots(Fields4(b)[1..])
  {
    var fs := Fields4(b);
    assert fs[1..] == [fs[1]] + ([fs[2]] + ([fs[3]] + []));
    DotsCons(fs[3], []);
    DotsCons(fs[2], [fs[3]] + []);
    DotsCons(fs[1], [fs[2]] + ([fs[3]] + []));
    assert fs[3] + Dots([]) == fs[3];
  }

  lemma FieldsShort(b: seq<byte>)
    requires |b| == 4
    ensures Octets(Fields4(b), 4) && AllShortest(Fields4(b))
  {
    forall i | 0 <= i < 4 ensures Octet(Fields4(b)[i]) && Shortest(Fields4(b)[i]) { NumeralOctet(b[i]); }
  }

  /** The text of an IPv4 address is its four numbers, each as short as can be, with dots. */
  lemma Printed4(b: seq<byte>) returns (fs: seq<string>)
    requires |b| == 4
    ensures Dotted(Text4(b), fs) && Values(fs) == b && AllShortest(fs)
  {
    fs := Fields4(b);
    FieldsText(b);
    FieldsShort(b);
    Reads4(Text4(b), fs);
    RoundTrip4(b);
  }

  // ---------------------------------------------------------------- IPv6

  /** The words ws[a..b] as closed groups before rest. */
  function Groups(ws: seq<nat>, a: nat, b: nat, rest: Form): Form
    requires a <= b <= |ws|
    decreases b - a
  {
    if a == b then rest else Group(Numeral(ws[a], 16), Groups(ws, a + 1, b, rest))
  }

  /** The words from a to the end, of which there may be none. */
  function Ending(ws: seq<nat>, a: nat): Form
    requires a <= |ws| == 8
  {
    if a == 8 then Nothing else Groups(ws, a, 7, Last(Numeral(ws[7], 16)))
  }

  /** Every numeral is as short as can be, and no colon is left open at the end. */
  predicate Neat(f: Form) {
    match f
    case Nothing => true
    case Last(g) => Shortest(g)
    case Quad(fs) => AllShortest(fs)
    case Group(g, rest) => Shortest(g) && !rest.Nothing? && Neat(rest)
    case Double(rest) => Neat(rest)
  }

  predicate HasQuad(f: Form) {
    match f
    case Quad(_) => true
    case Group(_, rest) => HasQuad(rest)
    case Double(rest) => HasQuad(rest)
    case _ => false
  }

  lemma RegroupFour(a: string, b: string, c: string, d: string)
    ensures (a + (b + c)) + d == a + (b + (c + d))
  {
    Regroup(a, b + c, d);
    Regroup(b, c, d);
  }

  lemma {:induction false} ClosedFront(ws: seq<nat>, a: nat, b: nat)
    requires a < b <= |ws|
    ensures Closed(ws, a, b) == Numeral(ws[a], 16) + (":" + Closed(ws, a + 1, b))
  {
    if a + 1 == b {
      ClosedOne(ws, a);
    } else {
      ClosedFront(ws, a, b - 1);
      RegroupFour(Numeral(ws[a], 16), ":", Closed(ws, a + 1, b - 1), Numeral(ws[b - 1], 16) + ":");
    }
  }

  lemma ClosedOne(ws: seq<nat>, a: nat)
    requires a < |ws|
    ensures Closed(ws, a, a + 1) == Numeral(ws[a], 16) + (":" + Closed(ws, a + 1, a + 1))
  {
    var w := Numeral(ws[a], 16) + ":";
    assert "" + w == w && ":" + "" == ":";
  }

  lemma {:induction false} GroupsText(ws: seq<nat>, a: nat, b: nat, rest: Form)
    requires a <= b <= |ws|
    ensures Text(Groups(ws, a, b, rest)) == Closed(ws, a, b) + Text(rest)
    decreases b - a
  {
    if a == b {
      assert "" + Text(rest) == Text(rest);
    } else {
      GroupsText(ws, a + 1, b, rest);
      ClosedFront(ws, a, b);
      Regroup(Numeral(ws[a], 16), ":" + Closed(ws, a + 1, b), Text(rest));
      Regroup(":", Closed(ws, a + 1, b), Text(rest));
    }
  }

  lemma {:induction false} GroupsSize(ws: seq<nat>, a: nat, b: nat, rest: Form)
    requires a <= b <= |ws|
    ensures var f := Groups(ws, a, b, rest);
            && Size(f) == 2 * (b - a) + Size(rest) && Doubles(f) == Doubles(rest)
            && (Doubles(rest) > 0 ==> Before(f) == 2 * (b - a) + Before(rest)) && (HasQuad(f) <==> HasQuad(rest))
            && (f.Double? <==> a == b && rest.Double?) && (f.Nothing? <==> a == b && rest.Nothing?)
    decreases b - a
  {
    if a < b { GroupsSize(ws, a + 1, b, rest); }
  }

  /** A form that is well made and neat. */
  predicate Good(f: Form) { Pieces(f) && Neat(f) }

  lemma GoodGroup(w: nat, rest: Form)
    requires w < 0x1_0000 && Good(rest) && !rest.Nothing?
    ensures Good(Group(Numeral(w, 16), rest)) && Good(Last(Numeral(w, 16)))
  {
    NumeralGroup(w);
  }

  lemma {:induction false} GroupsGood(ws: seq<nat>, a: nat, b: nat, rest: Form)
    requires a <= b <= |ws| && AllWords(ws) && Good(rest) && !rest.Nothing?
    ensures Good(Groups(ws, a, b, rest))
    decreases b - a
  {
    if a < b {
      GroupsGood(ws, a + 1, b, rest);
      GroupsSize(ws, a + 1, b, rest);
      GoodGroup(ws[a], Groups(ws, a + 1, b, rest));
    }
  }

  lemma EndingGood(ws: seq<nat>, a: nat)
    requires a <= |ws| == 8 && AllWords(ws)
    ensures Good(Ending(ws, a))
  {
    if a < 8 {
      GoodGroup(ws[7], Double(Nothing));
      GroupsGood(ws, a, 7, Last(Numeral(ws[7], 16)));
    }
  }

  lemma EndingIs(ws: seq<nat>, a: nat)
    requires a <= |ws| == 8 && AllWords(ws)
    ensures var f := Ending(ws, a);
            && Text(f) == Joined(ws, a, 8) && Size(f) == 16 - 2 * a && Doubles(f) == 0 && !HasQuad(f) && !f.Double?
  {
    if a < 8 {
      var last := Last(Numeral(ws[7], 16));
      GroupsText(ws, a, 7, last);
      GroupsSize(ws, a, 7, last);
      JoinedClosed(ws, a, 8);
    }
  }

  /** The embedded IPv4 address. */
  function Embedded(src: seq<byte>, len: nat): Form
    requires |src| == 16
  {
    var quad := Quad(Fields4(src[12..]));
    if len == 5 then Group("ffff", quad) else quad
  }

  function Form6(src: seq<byte>, base: int, len: int): Form
    requires |src| == 16 && Compresses(Words(src), base, len)
  {
    var ws := Words(src);
    if base == -1 then Ending(ws, 0)
    else if Embeds(ws, base, len) then Double(Embedded(src, len))
    else Groups(ws, 0, base, Double(Ending(ws, base + len)))
  }

  /** What is said of the form of a printed address. */
  predicate Canonical(f: Form, base: int, len: int, quad: bool) {
    && Good(f) && Size(f) <= 16 && (HasQuad(f) <==> quad)
    && (if base == -1 then Doubles(f) == 0 && Size(f) == 16
        else Doubles(f) == 1 && Before(f) == 2 * base && Size(f) == 16 - 2 * len)
  }

  function Full(f: Form): string { (if f.Double? then ":" else "") + Text(f) }

  lemma GroupFfff()
    ensures HexGroup("ffff") && Shortest("ffff")
  {
    NumeralGroup(0xffff);
    assert Numeral(0xf, 16) == "f";
    assert Numeral(0xff, 16) == "ff";
    assert Numeral(0xfff, 16) == "fff";
    assert Numeral(0xffff, 16) == "ffff";
  }

  lemma EmbeddedGood(src: seq<byte>, len: nat)
    requires |src| == 16
    ensures Good(Double(Embedded(src, len)))
  {
    FieldsShort(src[12..]);
    GroupFfff();
    assert Good(Quad(Fields4(src[12..])));
    assert Good(Embedded(src, len));
  }

  lemma EmbeddedText6(src: seq<byte>, len: nat)
    requires |src| == 16
    ensures Full(Double(Embedded(src, len))) == Gap("", (if len == 5 then "ffff:" else "") + Text4(src[12..]))
  {
    FieldsText(src[12..]);
    var t := Text4(src[12..]);
    Regroup("ffff", ":", t);
    assert "ffff" + ":" == "ffff:";
    var post := (if len == 5 then "ffff:" else "") + t;
    assert len != 5 ==> post == t;
    assert Text(Embedded(src, len)) == post;
    assert "" + (":" + (":" + post)) == ":" + (":" + post);
  }

  lemma EmbeddedIs(src: seq<byte>, len: nat)
    requires |src| == 16 && (len == 5 || len == 6)
    ensures Canonical(Double(Embedded(src, len)), 0, len, true)
  {
    EmbeddedGood(src, len);
    var f := Embedded(src, len);
    assert Size(f) == (if len == 5 then 6 else 4) && Doubles(f) == 0 && HasQuad(f);
  }

  lemma PlainIs(src: seq<byte>)
    requires |src| == 16
    ensures Canonical(Form6(src, -1, 0), -1, 0, false) && Full(Form6(src, -1, 0)) == Text6(src, -1, 0)
  {
    EndingIs(Words(src), 0);
    EndingGood(Words(src), 0);
    assert "" + Joined(Words(src), 0, 8) == Joined(Words(src), 0, 8);
  }

  lemma GapText(ws: seq<nat>, base: nat, tail: string)
    requires base <= |ws|
    ensures Gap(Joined(ws, 0, base), tail) == (if base == 0 then ":" else "") + (Closed(ws, 0, base) + (":" + tail))
  {
    var colon := ":" + tail;
    if base == 0 {
      assert "" + (":" + colon) == ":" + ("" + colon);
    } else {
      JoinedColon(ws, 0, base);
      Regroup(Joined(ws, 0, base), ":", colon);
      assert "" + (Closed(ws, 0, base) + colon) == Closed(ws, 0, base) + colon;
    }
  }

  lemma CompressedText(src: seq<byte>, base: nat, len: nat)
    requires |src| == 16 && Compresses(Words(src), base, len) && !Embeds(Words(src), base, len)
    ensures Full(Form6(src, base, len)) == Text6(src, base, len)
  {
    var ws := Words(src);
    var rest := Double(Ending(ws, base + len));
    EndingIs(ws, base + len);
    GroupsSize(ws, 0, base, rest);
    GroupsText(ws, 0, base, rest);
    GapText(ws, base, Joined(ws, base + len, 8));
  }

  lemma DoubleEnding(ws: seq<nat>, a: nat)
    requires a <= |ws| == 8 && AllWords(ws)
    ensures var f := Double(Ending(ws, a));
            Good(f) && Size(f) == 16 - 2 * a && Doubles(f) == 1 && Before(f) == 0 && !HasQuad(f)
  {
    EndingIs(ws, a);
    EndingGood(ws, a);
  }

  lemma CompressedForm(ws: seq<nat>, base: nat, len: nat)
    requires |ws| == 8 && AllWords(ws) && base + len <= 8
    ensures Canonical(Groups(ws, 0, base, Double(Ending(ws, base + len))), base, len, false)
  {
    var rest := Double(Ending(ws, base + len));
    DoubleEnding(ws, base + len);
    GroupsGood(ws, 0, base, rest);
    GroupsSize(ws, 0, base, rest);
  }

  lemma CompressedIs(src: seq<byte>, base: nat, len: nat)
    requires |src| == 16 && Compresses(Words(src), base, len) && !Embeds(Words(src), base, len)
    ensures Canonical(Form6(src, base, len), base, len, false) && Full(Form6(src, base, len)) == Text6(src, base, len)
  {
    CompressedForm(Words(src), base, len);
    CompressedText(src, base, len);
  }

  predicate AllZero(bs: seq<byte>) { forall k :: 0 <= k < |bs| ==> bs[k] == 0 }

  /** An IPv4 address is embedded exactly in an address of twelve zero bytes and a word that
      is not zero, and in one of ten zero bytes and two of 0xff. */
  predicate HoldsIPv4(src: seq<byte>)
    requires |src| == 16
  {
    || (AllZero(src[..12]) && (src[12] != 0 || src[13] != 0))
    || (AllZero(src[..10]) && src[10] == 255 && src[11] == 255)
  }

  lemma WordZero(src: seq<byte>, i: nat)
    requires |src| == 16 && i < 8
    ensures Words(src)[i] == 0 <==> src[2 * i] == 0 && src[2 * i + 1] == 0
    ensures Words(src)[i] == 0xffff <==> src[2 * i] == 255 && src[2 * i + 1] == 255
  {
    WordAt(src, i);
  }

  lemma RunMore(ws: seq<nat>, n: nat)
    requires n < |ws|
    ensures ZeroRun(ws, 0, n + 1) <==> ZeroRun(ws, 0, n) && ws[n] == 0
  {
  }

  lemma {:induction false} ZerosAre(src: seq<byte>, n: nat, m: nat)
    requires |src| == 16 && m == 2 * n <= 16
    ensures AllZero(src[..m]) <==> ZeroRun(Words(src), 0, n)
  {
    if n > 0 {
      ZerosAre(src, n - 1, m - 2);
      WordZero(src, n - 1);
      RunMore(Words(src), n - 1);
      assert src[..m][..m - 2] == src[..m - 2];
      ZerosTwo(src[..m], src[..m - 2]);
    }
  }

  lemma ZerosTwo(bs: seq<byte>, cs: seq<byte>)
    requires |bs| == |cs| + 2 && bs[..|cs|] == cs
    ensures AllZero(bs) <==> AllZero(cs) && bs[|cs|] == 0 && bs[|cs| + 1] == 0
  {
    if AllZero(bs) {
      forall k | 0 <= k < |cs| ensures cs[k] == 0 { assert bs[..|cs|][k] == bs[k]; }
    } else {
      var k :| 0 <= k < |bs| && bs[k] != 0;
      assert k < |cs| ==> bs[..|cs|][k] == bs[k];
    }
  }

  lemma EmbedsIff(src: seq<byte>, base: int, len: int)
    requires |src| == 16 && Best(Words(src), base, len)
    ensures base != -1 && Embeds(Words(src), base, len) <==> HoldsIPv4(src)
  {
    var ws := Words(src);
    ZerosAre(src, 6, 12);
    ZerosAre(src, 5, 10);
    WordZero(src, 5);
    WordZero(src, 6);
    if ZeroRun(ws, 0, 6) && ws[6] != 0 { RunOfSix(ws, base, len); }
    if ZeroRun(ws, 0, 5) && ws[5] == 0xffff { RunOfFive(ws, base, len); }
    if ZeroRun(ws, 0, 6) && ws[6] == 0 { assert ZeroRun(ws, 0, 7); }
  }

  lemma RunOfSix(ws: seq<nat>, base: int, len: int)
    requires |ws| == 8 && Best(ws, base, len) && ZeroRun(ws, 0, 6) && ws[6] != 0
    ensures base == 0 && len == 6
  {
    assert ZeroRun(ws, base, len) && !(base <= 6 < base + len);
  }

  lemma RunOfFive(ws: seq<nat>, base: int, len: int)
    requires |ws| == 8 && Best(ws, base, len) && ZeroRun(ws, 0, 5) && ws[5] != 0
    ensures base == 0 && len == 5
  {
    assert ZeroRun(ws, base, len) && !(base <= 5 < base + len);
  }

  /** The text of an IPv6 address denotes it, leaves out exactly the leftmost longest run of
      at least two zero words, has every number as short as can be, and ends in an IPv4
      address exactly if the address holds one. */
  lemma Printed6(src: seq<byte>, base: int, len: int) returns (f: Form)
    requires |src| == 16 && Best(Words(src), base, len) && Compresses(Words(src), base, len)
    ensures Denotes(Text6(src, base, len), f) && Value(f) == src && Canonical(f, base, len, HoldsIPv4(src))
  {
    f := Form6(src, base, len);
    EmbedsIff(src, base, len);
    if base == -1 {
      PlainIs(src);
    } else if Embeds(Words(src), base, len) {
      EmbeddedIs(src, len);
      EmbeddedText6(src, len);
    } else {
      CompressedIs(src, base, len);
    }
    ReadsText(Text6(src, base, len), f);
    RoundTrip6(src, base, len);
  }
}
