/** Internet addresses and their text (inet_ntop.c): what is printed for an address. */
module InetText {
  import opened Basics

  // ---------------------------------------------------------------- numerals

  /** A digit of %u or %x. */
  function Digit(d: nat): char
    requires d < 16
  {
    if d < 10 then '0' + d as char else 'a' + (d - 10) as char
  }

  /** %u for base 10, %x for base 16. */
  function Numeral(n: nat, base: nat): (s: string)
    requires 2 <= base <= 16
    ensures |s| > 0
  {
    if n < base then [Digit(n)] else Numeral(n / base, base) + [Digit(n % base)]
  }

  lemma {:induction false} HexLength(n: nat, k: nat)
    requires (n < 0x10 && k >= 1) || (n < 0x100 && k >= 2) || (n < 0x1000 && k >= 3) || (n < 0x1_0000 && k >= 4)
    ensures |Numeral(n, 16)| <= k
  {
    if n >= 16 { HexLength(n / 16, k - 1); }
  }

  lemma {:induction false} DecLength(n: nat, k: nat)
    requires (n < 10 && k >= 1) || (n < 100 && k >= 2) || (n < 1000 && k >= 3)
    ensures |Numeral(n, 10)| <= k
  {
    if n >= 10 { DecLength(n / 10, k - 1); }
  }

  // ---------------------------------------------------------------- addresses

  function Word(hi: byte, lo: byte): (w: nat)
    ensures w < 0x1_0000
  {
    hi as int * 256 + lo
  }

  predicate AllWords(ws: seq<nat>) { forall i :: 0 <= i < |ws| ==> ws[i] < 0x1_0000 }

  /** The 16-bit words of an address. */
  function Words(src: seq<byte>): (ws: seq<nat>)
    ensures |ws| == |src| / 2 && AllWords(ws)
  {
    if |src| < 2 then [] else [Word(src[0], src[1])] + Words(src[2..])
  }

  lemma {:induction false} WordAt(src: seq<byte>, i: nat)
    requires 2 * i + 1 < |src|
    ensures Words(src)[i] == Word(src[2 * i], src[2 * i + 1])
  {
    if i > 0 { WordAt(src[2..], i - 1); }
  }

  lemma {:induction false} WordsDrop(src: seq<byte>, k: nat)
    requires 2 * k <= |src|
    ensures Words(src)[k..] == Words(src[2 * k..])
  {
    if k == 0 {
      assert src[0..] == src;
    } else {
      WordsDrop(src[2..], k - 1);
      assert src[2..][2 * (k - 1)..] == src[2 * k..];
      assert Words(src)[k..] == Words(src[2..])[k - 1..];
    }
  }

  /** The words in network order. */
  function Bytes(ws: seq<nat>): (r: seq<byte>)
    requires AllWords(ws)
    ensures |r| == 2 * |ws|
  {
    if ws == [] then [] else [ws[0] / 256, ws[0] % 256] + Bytes(ws[1..])
  }

  lemma WordSplit(hi: byte, lo: byte)
    ensures Word(hi, lo) / 256 == hi && Word(hi, lo) % 256 == lo
  {
  }

  lemma {:induction false} BytesOfWords(src: seq<byte>)
    requires |src| % 2 == 0
    ensures Bytes(Words(src)) == src
  {
    if src != [] {
      WordSplit(src[0], src[1]);
      BytesOfWords(src[2..]);
      assert src == [src[0], src[1]] + src[2..];
    }
  }

  lemma {:induction false} BytesAppend(a: seq<nat>, b: seq<nat>)
    requires AllWords(a)
    requires AllWords(b)
    ensures Bytes(a + b) == Bytes(a) + Bytes(b)
  {
    if a == [] {
      assert a + b == b;
    } else {
      assert (a + b)[1..] == a[1..] + b;
      BytesAppend(a[1..], b);
    }
  }

  function Zeros(n: nat): seq<byte> { seq(n, _ => 0) }

  lemma {:induction false} BytesOfZeros(ws: seq<nat>)
    requires forall i :: 0 <= i < |ws| ==> ws[i] == 0
    ensures Bytes(ws) == Zeros(2 * |ws|)
  {
    if ws != [] { BytesOfZeros(ws[1..]); }
  }

  // ---------------------------------------------------------------- text

  /** Dotted decimal. */
  function Text4(b: seq<byte>): string
    requires |b| == 4
  {
    Numeral(b[0], 10) + ("." + (Numeral(b[1], 10) + ("." + (Numeral(b[2], 10) + ("." + Numeral(b[3], 10))))))
  }

  /** The words ws[a..b] in hexadecimal with a colon after each. */
  function Closed(ws: seq<nat>, a: nat, b: nat): string
    requires a <= b <= |ws|
  {
    if a == b then "" else Closed(ws, a, b - 1) + (Numeral(ws[b - 1], 16) + ":")
  }

  /** The words ws[a..b] in hexadecimal with a colon between them. */
  function Joined(ws: seq<nat>, a: nat, b: nat): string
    requires a <= b <= |ws|
  {
    if a == b then ""
    else if a + 1 == b then Numeral(ws[a], 16)
    else Joined(ws, a, b - 1) + (":" + Numeral(ws[b - 1], 16))
  }

  lemma Regroup(a: string, b: string, c: string)
    ensures (a + b) + c == a + (b + c)
  {
  }

  lemma {:induction false} JoinedClosed(ws: seq<nat>, a: nat, b: nat)
    requires a < b <= |ws|
    ensures Joined(ws, a, b) == Closed(ws, a, b - 1) + Numeral(ws[b - 1], 16)
  {
    var w := Numeral(ws[b - 1], 16);
    if a + 1 == b {
      assert "" + w == w;
    } else {
      JoinedClosed(ws, a, b - 1);
      var c, v := Closed(ws, a, b - 2), Numeral(ws[b - 2], 16);
      Regroup(c, v, ":" + w);
      Regroup(v, ":", w);
      Regroup(c, v + ":", w);
    }
  }

  lemma JoinedColon(ws: seq<nat>, a: nat, b: nat)
    requires a < b <= |ws|
    ensures Joined(ws, a, b) + ":" == Closed(ws, a, b)
  {
    JoinedClosed(ws, a, b);
    Regroup(Closed(ws, a, b - 1), Numeral(ws[b - 1], 16), ":");
  }

  /** Text around a double colon. */
  function Gap(pre: string, post: string): string { pre + (":" + (":" + post)) }

  /** ws[base..base+len] is a run of zero words. */
  predicate ZeroRun(ws: seq<nat>, base: int, len: int) {
    0 <= base && 0 <= len && base + len <= |ws| && forall i :: base <= i < base + len ==> ws[i] == 0
  }

  /** The leftmost of the longest runs of at least two zero words; none if base is -1. */
  ghost predicate Best(ws: seq<nat>, base: int, len: int) {
    if base == -1 then forall b, n :: ZeroRun(ws, b, n) ==> n < 2
    else
      && ZeroRun(ws, base, len) && len >= 2
      && forall b, n :: ZeroRun(ws, b, n) ==> n < len || (n == len && base <= b)
  }

  lemma BestUnique(ws: seq<nat>, b1: int, n1: int, b2: int, n2: int)
    requires Best(ws, b1, n1) && Best(ws, b2, n2)
    ensures b1 == b2 && (b1 != -1 ==> n1 == n2)
  {
    if b1 != -1 { assert ZeroRun(ws, b1, n1); }
    if b2 != -1 { assert ZeroRun(ws, b2, n2); }
  }

  /** The last two words are printed as an IPv4 address. */
  predicate Embeds(ws: seq<nat>, base: int, len: int)
    requires |ws| == 8
  {
    base == 0 && (len == 6 || (len == 5 && ws[5] == 0xffff))
  }

  predicate Compresses(ws: seq<nat>, base: int, len: int) {
    base == -1 || (ZeroRun(ws, base, len) && len >= 2)
  }

  function Text6(src: seq<byte>, base: int, len: int): string
    requires |src| == 16 && Compresses(Words(src), base, len)
  {
    var ws := Words(src);
    if base == -1 then Joined(ws, 0, 8)
    else if Embeds(ws, base, len) then
      Gap("", (if len == 5 then "ffff:" else "") + Text4(src[12..]))
    else Gap(Joined(ws, 0, base), Joined(ws, base + len, 8))
  }

  // ---------------------------------------------------------------- lengths

  lemma ByteLength(b: byte)
    ensures |Numeral(b, 10)| <= 3
  {
    DecLength(b, 3);
  }

  lemma WordLength(w: nat)
    requires w < 0x1_0000
    ensures |Numeral(w, 16)| <= 4
  {
    HexLength(w, 4);
  }

  lemma Text4Length(b: seq<byte>)
    requires |b| == 4
    ensures |Text4(b)| <= 15
  {
    ByteLength(b[0]);
    ByteLength(b[1]);
    ByteLength(b[2]);
    ByteLength(b[3]);
  }

  lemma {:induction false} JoinedLength(ws: seq<nat>, a: nat, b: nat)
    requires a <= b <= |ws| && AllWords(ws)
    ensures |Joined(ws, a, b)| <= if a == b then 0 else 5 * (b - a) - 1
  {
    if a + 1 == b {
      WordLength(ws[a]);
    } else if a < b {
      WordLength(ws[b - 1]);
      JoinedLength(ws, a, b - 1);
      assert |":" + Numeral(ws[b - 1], 16)| <= 5;
    }
  }

  /** The text fits the printer's buffer of 46 bytes. */
  lemma Text6Length(src: seq<byte>, base: int, len: int)
    requires |src| == 16 && Compresses(Words(src), base, len)
    ensures |Text6(src, base, len)| < 46
  {
    var ws := Words(src);
    Text4Length(src[12..]);
    if base == -1 {
      JoinedLength(ws, 0, 8);
    } else {
      JoinedLength(ws, 0, base);
      JoinedLength(ws, base + len, 8);
    }
  }
}
