/** Which texts inet_pton accepts, as grammars, and the address that each text stands for. */
module InetGrammar {
  import opened Basics
  import opened InetText
  import opened InetParse

  // ---------------------------------------------------------------- digits

  const LOWER := "0123456789abcdef"
  const UPPER := "0123456789ABCDEF"

  /** strchr: the place of a character in a table from i on, or the size of the table. */
  function Place(t: string, c: char, i: nat): nat
    decreases |t| - i
  {
    if i >= |t| || t[i] == c then i else Place(t, c, i + 1)
  }

  lemma {:induction false} PlaceIs(t: string, c: char, i: nat)
    requires i <= |t|
    ensures i <= Place(t, c, i) <= |t| && (Place(t, c, i) < |t| ==> t[Place(t, c, i)] == c)
    ensures Place(t, c, i) == |t| ==> c !in t[i..]
    decreases |t| - i
  {
    if i < |t| && t[i] != c {
      PlaceIs(t, c, i + 1);
      assert t[i..] == [t[i]] + t[i + 1..];
    }
  }

  /** The value of a digit is its place in the table of lower case, or in that of upper case. */
  function DigitValue(c: char): nat {
    if Place(LOWER, c, 0) < 16 then Place(LOWER, c, 0) else Place(UPPER, c, 0)
  }

  predicate InTable(c: char, base: nat) { DigitValue(c) < base }

  predicate AllDigits(ds: string, base: nat) {
    ds == "" || (AllDigits(ds[..|ds| - 1], base) && InTable(ds[|ds| - 1], base))
  }

  /** Positional notation, in base ten and in base sixteen. */
  function Decimal(ds: string): nat {
    if ds == "" then 0 else 10 * Decimal(ds[..|ds| - 1]) + DigitValue(ds[|ds| - 1])
  }

  function Hexadecimal(ds: string): nat {
    if ds == "" then 0 else 16 * Hexadecimal(ds[..|ds| - 1]) + DigitValue(ds[|ds| - 1])
  }

  lemma LowerAt(i: nat)
    requires i < 16
    ensures LOWER[i] == Digit(i) && UPPER[i] == if i < 10 then Digit(i) else 'A' + (i - 10) as char
  {
    assert i == 0 || i == 1 || i == 2 || i == 3 || i == 4 || i == 5 || i == 6 || i == 7 || i == 8
        || i == 9 || i == 10 || i == 11 || i == 12 || i == 13 || i == 14 || i == 15;
  }

  lemma LowerPlace(c: char)
    ensures Place(LOWER, c, 0) < 16 ==> IsHex(c) && HexValue(c) == Place(LOWER, c, 0)
    ensures IsHex(c) && !('A' <= c <= 'F') ==> Place(LOWER, c, 0) < 16
  {
    var k := Place(LOWER, c, 0);
    PlaceIs(LOWER, c, 0);
    assert LOWER[0..] == LOWER;
    if k < 16 {
      LowerAt(k);
      DigitIsHex(k);
    } else if IsHex(c) {
      LowerAt(HexValue(c));
    }
  }

  lemma UpperPlace(c: char)
    ensures Place(UPPER, c, 0) < 16 ==> IsHex(c) && HexValue(c) == Place(UPPER, c, 0)
    ensures 'A' <= c <= 'F' ==> Place(UPPER, c, 0) < 16
  {
    var k := Place(UPPER, c, 0);
    PlaceIs(UPPER, c, 0);
    assert UPPER[0..] == UPPER;
    if k < 16 {
      LowerAt(k);
      DigitIsHex(k);
    } else if 'A' <= c <= 'F' {
      LowerAt(HexValue(c));
    }
  }

  /** The digits that are read are those of the tables, with their places as values. */
  lemma DigitIs(c: char)
    ensures IsHex(c) <==> InTable(c, 16)
    ensures IsHex(c) ==> HexValue(c) == DigitValue(c)
    ensures IsDec(c) <==> InTable(c, 10)
    ensures IsDec(c) ==> DecValue(c) == DigitValue(c)
  {
    LowerPlace(c);
    UpperPlace(c);
  }

  /** inet_ntop prints the digits of the table of lower case. */
  lemma PrintsTable(d: nat)
    requires d < 16
    ensures Digit(d) == LOWER[d] && DigitValue(Digit(d)) == d
  {
    LowerAt(d);
    DigitIsHex(d);
    DigitIs(Digit(d));
  }

  // ---------------------------------------------------------------- dotted decimal

  predicate AllDec(ds: string) { forall i :: 0 <= i < |ds| ==> IsDec(ds[i]) }

  /** The value of decimal digits after acc. */
  function DecFold(acc: nat, ds: string): (v: nat)
    requires AllDec(ds)
    ensures v >= acc
    decreases ds
  {
    if ds == "" then acc else DecFold(acc * 10 + DecValue(ds[0]), ds[1..])
  }

  /** Digits, with any number of leading zeros, of a value up to 255. */
  predicate Octet(ds: string) { ds != "" && AllDigits(ds, 10) && Decimal(ds) <= 255 }

  lemma OctetIs(ds: string)
    ensures Octet(ds) <==> ds != "" && AllDec(ds) && DecFold(0, ds) <= 255
    ensures AllDec(ds) ==> DecFold(0, ds) == Decimal(ds)
  {
    DecDigits(ds);
  }

  lemma {:induction false} DecDigits(ds: string)
    ensures AllDec(ds) <==> AllDigits(ds, 10)
    ensures AllDec(ds) ==> DecFold(0, ds) == Decimal(ds)
    decreases |ds|
  {
    if ds != "" {
      var n := |ds| - 1;
      assert ds == ds[..n] + [ds[n]];
      DecDigits(ds[..n]);
      DigitIs(ds[n]);
      if AllDec(ds) { DecFoldAppend(0, ds[..n], ds[n]); }
    }
  }

  lemma {:induction false} DecFoldAppend(acc: nat, ds: string, c: char)
    requires AllDec(ds) && IsDec(c)
    ensures AllDec(ds + [c]) && DecFold(acc, ds + [c]) == DecFold(acc, ds) * 10 + DecValue(c)
    decreases ds
  {
    if ds == "" {
      assert DecFold(acc * 10 + DecValue(c), (ds + [c])[1..]) == acc * 10 + DecValue(c);
    } else {
      DecFoldAppend(acc * 10 + DecValue(ds[0]), ds[1..], c);
      assert (ds + [c])[1..] == ds[1..] + [c];
    }
  }

  /** Further fields, each after a dot. */
  function Dots(fs: seq<string>): string {
    if fs == [] then "" else "." + (fs[0] + Dots(fs[1..]))
  }

  function Values(fs: seq<string>): (bs: seq<byte>)
    requires forall i :: 0 <= i < |fs| ==> Octet(fs[i])
    ensures |bs| == |fs|
  {
    if fs == [] then [] else
    assert Octet(fs[0]);
    [Decimal(fs[0])] + Values(fs[1..])
  }

  predicate Octets(fs: seq<string>, n: nat) { |fs| == n && forall i :: 0 <= i < |fs| ==> Octet(fs[i]) }

  /** The text is four octets with dots between them. */
  predicate Dotted(s: string, fs: seq<string>) { Octets(fs, 4) && s == fs[0] + Dots(fs[1..]) }

  lemma {:induction false} DigitsRun4(ds: string, rest: string, done: seq<byte>, cur: byte, saw: bool)
    requires |done| <= 3 && AllDec(ds) && DecFold(cur, ds) <= 255
    ensures Run4(ds + rest, done, cur, saw) == Run4(rest, done, DecFold(cur, ds), saw || ds != "")
    decreases ds
  {
    if ds == "" {
      assert ds + rest == rest;
    } else {
      assert (ds + rest)[1..] == ds[1..] + rest;
      DigitsRun4(ds[1..], rest, done, cur as int * 10 + DecValue(ds[0]), true);
    }
  }

  lemma OctetRun(f: string, rest: string, done: seq<byte>)
    requires Octet(f) && |done| <= 3
    ensures Run4(f + rest, done, 0, false) == Run4(rest, done, Decimal(f), true)
  {
    OctetIs(f);
    DigitsRun4(f, rest, done, 0, false);
  }

  /** The fields to come are read one by one. */
  lemma {:induction false} FieldsRun4(fs: seq<string>, done: seq<byte>, cur: byte)
    requires |done| <= 3 && Octets(fs, 3 - |done|)
    ensures Run4(Dots(fs), done, cur, true) == Some(done + [cur] + Values(fs))
    decreases fs
  {
    if fs == [] {
      assert done + [cur] + Values(fs) == done + [cur];
    } else {
      var more := done + [cur];
      DotRun4(fs[0] + Dots(fs[1..]), done, cur);
      OctetRun(fs[0], Dots(fs[1..]), more);
      FieldsRun4(fs[1..], more, Decimal(fs[0]));
      assert more + [Decimal(fs[0])] + Values(fs[1..]) == done + [cur] + Values(fs);
    }
  }

  lemma Reads4(s: string, fs: seq<string>)
    requires Dotted(s, fs)
    ensures Parse4(s) == Some(Values(fs))
  {
    OctetRun(fs[0], Dots(fs[1..]), []);
    FieldsRun4(fs[1..], [], Decimal(fs[0]));
    assert [] + [Decimal(fs[0])] + Values(fs[1..]) == Values(fs);
  }

  /** A text that is accepted from here on is the rest t of the open octet and more octets. */
  lemma {:induction false} Builds4(rest: string, done: seq<byte>, cur: byte, saw: bool)
    returns (t: string, fs: seq<string>)
    requires |done| <= 3 && Run4(rest, done, cur, saw).Some?
    ensures rest == t + Dots(fs) && Octets(fs, 3 - |done|)
    ensures AllDec(t) && DecFold(cur, t) <= 255 && (saw || t != "")
    decreases rest
  {
    if rest == "" {
      t, fs := "", [];
    } else if IsDec(rest[0]) {
      t, fs := Builds4(rest[1..], done, cur as int * 10 + DecValue(rest[0]), true);
      assert rest == [rest[0]] + rest[1..] && ([rest[0]] + t)[1..] == t;
      Regroup([rest[0]], t, Dots(fs));
      t := [rest[0]] + t;
    } else {
      var u, gs := Builds4(rest[1..], done + [cur], 0, false);
      OctetIs(u);
      assert rest == "." + rest[1..];
      t, fs := "", [u] + gs;
      assert fs[1..] == gs && t + Dots(fs) == Dots(fs);
    }
  }

  /** inet_pton4 accepts exactly four octets with dots between them, and returns their values. */
  lemma Parse4Iff(s: string)
    ensures Parse4(s).Some? <==> exists fs :: Dotted(s, fs)
    ensures forall fs :: Dotted(s, fs) ==> Parse4(s) == Some(Values(fs))
  {
    forall fs | Dotted(s, fs) ensures Parse4(s) == Some(Values(fs)) { Reads4(s, fs); }
    if Parse4(s).Some? {
      var fs := Fields(s);
    }
  }

  lemma Fields(s: string) returns (fs: seq<string>)
    requires Parse4(s).Some?
    ensures Dotted(s, fs)
  {
    var t, gs := Builds4(s, [], 0, false);
    OctetIs(t);
    fs := [t] + gs;
    assert fs[1..] == gs;
  }

  // ---------------------------------------------------------------- decimal digits as hexadecimal

  /** The digits of an octet are also those of a group that is not too large. */
  lemma {:induction false} OctetIsHex(ds: string)
    requires AllDec(ds)
    ensures AllHex(ds)
    ensures DecFold(0, ds) < 1 ==> HexFold(0, ds) < 0x1
    ensures DecFold(0, ds) < 10 ==> HexFold(0, ds) < 0x10
    ensures DecFold(0, ds) < 100 ==> HexFold(0, ds) < 0x100
    ensures DecFold(0, ds) < 1000 ==> HexFold(0, ds) < 0x1000
    decreases |ds|
  {
    if ds != "" {
      var n := |ds| - 1;
      var pre := ds[..n];
      assert ds == pre + [ds[n]];
      OctetIsHex(pre);
      DecFoldAppend(0, pre, ds[n]);
      FoldAppend(0, pre, ds[n]);
    }
  }

  // ---------------------------------------------------------------- colons and hexadecimal

  /** Hexadecimal digits, any number of them, of a value below 2 to the 16. */
  predicate HexGroup(g: string) { g != "" && AllDigits(g, 16) && Hexadecimal(g) <= 0xffff }

  lemma HexGroupIs(g: string)
    ensures HexGroup(g) <==> g != "" && AllHex(g) && HexFold(0, g) <= 0xffff
    ensures AllHex(g) ==> HexFold(0, g) == Hexadecimal(g)
  {
    HexDigits(g);
  }

  lemma {:induction false} HexDigits(ds: string)
    ensures AllHex(ds) <==> AllDigits(ds, 16)
    ensures AllHex(ds) ==> HexFold(0, ds) == Hexadecimal(ds)
    decreases |ds|
  {
    if ds != "" {
      var n := |ds| - 1;
      assert ds == ds[..n] + [ds[n]];
      HexDigits(ds[..n]);
      DigitIs(ds[n]);
      if AllHex(ds) { FoldAppend(0, ds[..n], ds[n]); }
    }
  }

  /** A text: groups, each closed by a colon, a double colon among them, and at the end
      nothing, a group or a dotted quad. */
  datatype Form =
    | Nothing
    | Last(g: string)
    | Quad(fs: seq<string>)
    | Group(g: string, rest: Form)
    | Double(rest: Form)

  function Text(f: Form): string {
    match f
    case Nothing => ""
    case Last(g) => g
    case Quad(fs) => if fs == [] then "" else fs[0] + Dots(fs[1..])
    case Group(g, rest) => g + (":" + Text(rest))
    case Double(rest) => ":" + Text(rest)
  }

  predicate Pieces(f: Form) {
    match f
    case Nothing => true
    case Last(g) => HexGroup(g)
    case Quad(fs) => Octets(fs, 4)
    case Group(g, rest) => HexGroup(g) && Pieces(rest)
    case Double(rest) => Pieces(rest)
  }

  /** Bytes that the text gives. */
  function Size(f: Form): nat {
    match f
    case Nothing => 0
    case Last(_) => 2
    case Quad(_) => 4
    case Group(_, rest) => 2 + Size(rest)
    case Double(rest) => Size(rest)
  }

  function Doubles(f: Form): nat {
    match f
    case Group(_, rest) => Doubles(rest)
    case Double(rest) => 1 + Doubles(rest)
    case _ => 0
  }

  function GroupBytes(g: string): (bs: seq<byte>)
    requires HexGroup(g)
    ensures |bs| == 2
  {
    [Hexadecimal(g) / 256, Hexadecimal(g) % 256]
  }

  function Content(f: Form): (bs: seq<byte>)
    requires Pieces(f)
    ensures |bs| == Size(f)
  {
    match f
    case Nothing => []
    case Last(g) => GroupBytes(g)
    case Quad(fs) => Values(fs)
    case Group(g, rest) => GroupBytes(g) + Content(rest)
    case Double(rest) => Content(rest)
  }

  /** Bytes before the double colon. */
  function Before(f: Form): (n: nat)
    ensures n <= Size(f)
  {
    match f
    case Group(_, rest) => if Doubles(f) == 0 then 0 else 2 + Before(rest)
    case _ => 0
  }

  /** At most one double colon; 16 bytes, or at most 16 where a double colon can fill in. */
  predicate Fits(f: Form, have: nat, colon: bool) {
    && Pieces(f)
    && Doubles(f) <= (if colon then 0 else 1)
    && have + Size(f) <= 16
    && (!colon && Doubles(f) == 0 ==> have + Size(f) == 16)
  }

  /** A text that starts with the double colon has its first colon twice. */
  predicate Denotes(s: string, f: Form) {
    Fits(f, 0, false) && s == (if f.Double? then ":" else "") + Text(f)
  }

  function Filled(out: seq<byte>, colon: int): seq<byte>
    requires |out| <= 16 && colon <= |out|
  {
    if colon >= 0 then Spread(out, colon) else out
  }

  /** The 16 bytes: zeros fill in at the double colon. */
  function Value(f: Form): seq<byte>
    requires Fits(f, 0, false)
  {
    Filled(Content(f), if Doubles(f) == 0 then -1 else Before(f))
  }

  // ---------------------------------------------------------------- texts of the grammar are read

  predicate Fresh(st: Scan, text: string) { ValidScan(st) && !st.saw && st.val == 0 && st.tok == text }

  function ColonOf(f: Form, st: Scan): int {
    if st.colon >= 0 || Doubles(f) == 0 then st.colon else |st.out| + Before(f)
  }

  function Close(g: string, rest: string, st: Scan): Scan
    requires HexGroup(g)
  {
    Scan(st.out + GroupBytes(g), st.colon, rest, false, 0)
  }

  lemma ReadsGroup(g: string, rest: string, st: Scan)
    requires HexGroup(g) && Fresh(st, g + (":" + rest)) && |st.out| + 2 <= 16
    ensures Run6(g + (":" + rest), st) == Run6(rest, Close(g, rest, st)) && Fresh(Close(g, rest, st), rest)
  {
    HexGroupIs(g);
    DigitsRun(g, ":" + rest, st);
    ColonRun(rest, st.(val := HexFold(0, g), saw := true));
  }

  lemma ReadsLast(g: string, st: Scan)
    requires HexGroup(g) && Fresh(st, g) && |st.out| + 2 <= 16 && (st.colon < 0 ==> |st.out| + 2 == 16)
    ensures Run6(g, st) == Some(Filled(st.out + GroupBytes(g), st.colon))
  {
    assert g + "" == g;
    HexGroupIs(g);
    DigitsRun(g, "", st);
  }

  lemma ReadsQuad(fs: seq<string>, st: Scan)
    requires Octets(fs, 4) && Fresh(st, fs[0] + Dots(fs[1..]))
    requires |st.out| + 4 <= 16 && (st.colon < 0 ==> |st.out| + 4 == 16)
    ensures Run6(fs[0] + Dots(fs[1..]), st) == Some(Filled(st.out + Values(fs), st.colon))
  {
    Reads4(st.tok, fs);
    OctetIs(fs[0]);
    OctetIsHex(fs[0]);
    DigitsRun(fs[0], Dots(fs[1..]), st);
  }

  /** What the scan gives for the text of f. */
  function Outcome(f: Form, st: Scan): Option<seq<byte>>
    requires Fits(f, |st.out|, st.colon >= 0) && st.colon <= |st.out|
  {
    Some(Filled(st.out + Content(f), ColonOf(f, st)))
  }

  lemma OutcomeGroup(g: string, rest: Form, st: Scan)
    requires Fits(Group(g, rest), |st.out|, st.colon >= 0) && st.colon <= |st.out|
    ensures Fits(rest, |st.out| + 2, st.colon >= 0)
    ensures Outcome(Group(g, rest), st) == Outcome(rest, Close(g, Text(rest), st))
  {
    assert st.out + GroupBytes(g) + Content(rest) == st.out + (GroupBytes(g) + Content(rest));
  }

  lemma OutcomeDouble(rest: Form, st: Scan)
    requires Fits(Double(rest), |st.out|, st.colon >= 0) && st.colon == -1
    ensures Fits(rest, |st.out|, true)
    ensures Outcome(Double(rest), st) == Outcome(rest, st.(tok := Text(rest), colon := |st.out|))
  {
  }

  lemma {:induction false} Reads6(f: Form, st: Scan)
    requires Fits(f, |st.out|, st.colon >= 0) && Fresh(st, Text(f))
    ensures Run6(Text(f), st) == Outcome(f, st)
  {
    match f
    case Nothing => assert st.out + Content(f) == st.out;
    case Last(g) => ReadsLast(g, st);
    case Quad(fs) => ReadsQuad(fs, st);
    case Group(g, rest) =>
      ReadsGroup(g, Text(rest), st);
      OutcomeGroup(g, rest, st);
      Reads6(rest, Close(g, Text(rest), st));
    case Double(rest) =>
      DoubleRun(Text(rest), st);
      OutcomeDouble(rest, st);
      Reads6(rest, st.(tok := Text(rest), colon := |st.out|));
  }

  /** Only a text of a double colon starts with a colon. */
  lemma FirstColon(f: Form)
    requires Pieces(f)
    ensures f.Double? <==> Text(f) != "" && Text(f)[0] == ':'
  {
    match f
    case Nothing =>
    case Last(g) => HexGroupIs(g);
    case Quad(fs) => OctetIs(fs[0]);
    case Group(g, _) => HexGroupIs(g);
    case Double(_) =>
  }

  lemma ReadsText(s: string, f: Form)
    requires Denotes(s, f)
    ensures Parse6(s) == Some(Value(f))
  {
    FirstColon(f);
    var text := Text(f);
    assert s == if f.Double? then ":" + text else text;
    assert s != "" && s[0] == ':' ==> s[1..] == text;
    Reads6(f, Scan([], -1, text, false, 0));
    assert [] + Content(f) == Content(f);
  }

  // ---------------------------------------------------------------- texts that are read are of the grammar

  /** The open group has the digits pre. */
  predicate Open(st: Scan, pre: string, rest: string) {
    && ValidScan(st) && st.tok == pre + rest && AllHex(pre)
    && st.val == HexFold(0, pre) && (st.saw <==> pre != "")
  }

  lemma MoreDigits(st: Scan, pre: string, rest: string)
    requires Open(st, pre, rest) && rest != "" && IsHex(rest[0]) && !Step6(rest, st).Fail?
    ensures Open(Step6(rest, st).st, pre + [rest[0]], rest[1..])
    ensures (pre + [rest[0]]) + rest[1..] == pre + rest
  {
    FoldAppend(0, pre, rest[0]);
  }

  lemma AfterColon(st: Scan, pre: string, rest: string)
    requires Open(st, pre, rest) && rest != "" && rest[0] == ':' && !Step6(rest, st).Fail?
    ensures var n := Step6(rest, st).st;
            && Open(n, "", rest[1..])
            && (if pre == "" then n.out == st.out && st.colon < 0 <= n.colon
                else HexGroup(pre) && |n.out| == |st.out| + 2 && n.colon == st.colon)
    ensures "" + rest[1..] == rest[1..] && rest == ":" + rest[1..]
  {
    HexGroupIs(pre);
  }

  lemma {:induction false} Builds6(rest: string, st: Scan, pre: string) returns (f: Form)
    requires Open(st, pre, rest) && Run6(rest, st).Some?
    ensures Text(f) == pre + rest && Fits(f, |st.out|, st.colon >= 0)
    decreases rest
  {
    if rest == "" {
      HexGroupIs(pre);
      f := if pre == "" then Nothing else Last(pre);
      assert pre + rest == pre;
    } else if IsHex(rest[0]) {
      MoreDigits(st, pre, rest);
      f := Builds6(rest[1..], Step6(rest, st).st, pre + [rest[0]]);
    } else if rest[0] == ':' {
      AfterColon(st, pre, rest);
      f := Builds6(rest[1..], Step6(rest, st).st, "");
      f := if pre == "" then Double(f) else Group(pre, f);
    } else {
      var fs := Fields(st.tok);
      f := Quad(fs);
    }
  }

  lemma FormOf(s: string) returns (f: Form)
    requires Parse6(s).Some?
    ensures Denotes(s, f)
  {
    var text := if s != "" && s[0] == ':' then s[1..] else s;
    assert "" + text == text;
    f := Builds6(text, Scan([], -1, text, false, 0), "");
    FirstColon(f);
    assert f.Double? ==> s == ":" + text;
    assert !f.Double? ==> s == "" + text;
  }

  /** inet_pton6 accepts exactly the texts of the grammar, and returns the address that they
      denote. */
  lemma Parse6Iff(s: string)
    ensures Parse6(s).Some? <==> exists f :: Denotes(s, f)
    ensures forall f :: Denotes(s, f) ==> Parse6(s) == Some(Value(f))
  {
    forall f | Denotes(s, f) ensures Parse6(s) == Some(Value(f)) { ReadsText(s, f); }
    if Parse6(s).Some? {
      var f := FormOf(s);
    }
  }
}
