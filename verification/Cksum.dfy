/** The Internet checksum (in_cksum.c): a 32-bit accumulator with two folds, against the
    one's complement sum of RFC 1071. */
module Cksum {

  const M := 0xffff

  predicate AllWords(ws: seq<nat>) { forall i :: 0 <= i < |ws| ==> ws[i] <= M }

  /** One's complement addition: the carry is added back. */
  function Add(a: nat, b: nat): nat { if a + b > M then a + b - M else a + b }

  function OnesSum(ws: seq<nat>): nat {
    if ws == [] then 0 else Add(OnesSum(ws[..|ws| - 1]), ws[|ws| - 1])
  }

  function Checksum(ws: seq<nat>): int { M - OnesSum(ws) }

  // ---------------------------------------------------------------- residues

  function Sum(ws: seq<nat>): nat {
    if ws == [] then 0 else Sum(ws[..|ws| - 1]) + ws[|ws| - 1]
  }

  /** The residue of n modulo 0xffff between 1 and 0xffff; 0 only for 0. */
  function Residue(n: nat): (r: nat)
    ensures r <= M && (r == 0 <==> n == 0)
  {
    if n == 0 then 0 else (n - 1) % M + 1
  }

  lemma ResidueIs(n: nat, q: nat, r: nat)
    requires n == q * M + r && 1 <= r <= M
    ensures Residue(n) == r
  {
    assert (n - 1) / M == q && (n - 1) % M == r - 1 by {
      DivMod(n - 1, q, r - 1);
    }
  }

  lemma DivMod(n: nat, q: nat, r: nat)
    requires n == q * M + r && r < M
    ensures n / M == q && n % M == r
  {
  }

  lemma ResidueOf(n: nat) returns (q: nat)
    requires n > 0
    ensures n == q * M + Residue(n)
  {
    q := (n - 1) / M;
  }

  lemma ResidueAdd(n: nat, w: nat)
    requires w <= M
    ensures Add(Residue(n), w) == Residue(n + w)
  {
    if n > 0 && w > 0 {
      var q := ResidueOf(n);
      var r := Residue(n);
      if r + w > M { ResidueIs(n + w, q + 1, r + w - M); } else { ResidueIs(n + w, q, r + w); }
    } else if n == 0 && w > 0 {
      ResidueIs(w, 0, w);
    }
  }

  lemma {:induction false} OnesSumIs(ws: seq<nat>)
    requires AllWords(ws)
    ensures OnesSum(ws) == Residue(Sum(ws))
  {
    if ws != [] {
      OnesSumIs(ws[..|ws| - 1]);
      ResidueAdd(Sum(ws[..|ws| - 1]), ws[|ws| - 1]);
    }
  }

  lemma {:induction false} SumBound(ws: seq<nat>)
    requires AllWords(ws)
    ensures Sum(ws) <= |ws| * M
  {
    if ws != [] { SumBound(ws[..|ws| - 1]); }
  }

  // ---------------------------------------------------------------- in_cksum

  const U32 := 0x1_0000_0000

  /** Two bytes in memory as a word of the host. */
  function Load(b0: nat, b1: nat, little: bool): nat { if little then b0 + 256 * b1 else 256 * b0 + b1 }

  /** The words of a buffer; an odd byte is followed by a zero byte. */
  function Words(b: seq<nat>, little: bool): (ws: seq<nat>)
    ensures |ws| == (|b| + 1) / 2
  {
    if |b| == 0 then []
    else if |b| == 1 then [Load(b[0], 0, little)]
    else [Load(b[0], b[1], little)] + Words(b[2..], little)
  }

  predicate AllBytes(b: seq<nat>) { forall i :: 0 <= i < |b| ==> b[i] < 256 }

  lemma {:induction false} WordsOfBytes(b: seq<nat>, little: bool)
    requires AllBytes(b)
    ensures AllWords(Words(b, little))
  {
    if |b| >= 2 { WordsOfBytes(b[2..], little); }
  }

  lemma {:induction false} WordAt(b: seq<nat>, little: bool, i: nat)
    requires i < |Words(b, little)|
    ensures 2 * i < |b| && Words(b, little)[i] == Load(b[2 * i], if 2 * i + 1 < |b| then b[2 * i + 1] else 0, little)
  {
    if i > 0 { WordAt(b[2..], little, i - 1); }
  }

  /** The folds give the residue of every 32-bit sum. */
  lemma FoldIs(sum: nat)
    requires sum < U32
    ensures var s1 := sum / 0x1_0000 + sum % 0x1_0000; var s2 := s1 + s1 / 0x1_0000;
            s2 < U32 && s2 % 0x1_0000 == Residue(sum)
  {
    var s1 := sum / 0x1_0000 + sum % 0x1_0000;
    assert sum == (sum / 0x1_0000) * M + s1;
    if s1 > M {
      ResidueIs(sum, sum / 0x1_0000 + 1, s1 - M);
    } else if s1 > 0 {
      ResidueIs(sum, sum / 0x1_0000, s1);
    }
  }

  lemma SumNext(ws: seq<nat>, w: nat)
    requires w < |ws|
    ensures Sum(ws[..w + 1]) == Sum(ws[..w]) + ws[w]
  {
    assert ws[..w + 1][..w] == ws[..w];
  }

  lemma Wraps(a: nat, b: nat)
    ensures (a % U32 + b) % U32 == (a + b) % U32
  {
    assert a + b == (a / U32) * U32 + (a % U32 + b);
  }

  /** in_cksum: the words are added modulo 2^32.  The result is the checksum exactly if
      their sum fits the accumulator, which it does for at most 65537 words. */
  method InCksum(addr: seq<nat>, little: bool) returns (answer: nat)
    requires AllBytes(addr) && |addr| < 0x8000_0000
    ensures answer == M - Residue(Sum(Words(addr, little)) % U32)
    ensures answer == Checksum(Words(addr, little)) <==> Sum(Words(addr, little)) < U32
    ensures |Words(addr, little)| <= 65537 ==> answer == Checksum(Words(addr, little))
  {
    ghost var ws := Words(addr, little);
    WordsOfBytes(addr, little);
    var nleft, sum, w := |addr|, 0, 0;
    while nleft > 1
      invariant 0 <= w <= |ws| && nleft == |addr| - 2 * w >= 0
      invariant sum == Sum(ws[..w]) % U32
    {
      WordAt(addr, little, w);
      SumNext(ws, w);
      Wraps(Sum(ws[..w]), ws[w]);
      sum := (sum + Load(addr[2 * w], addr[2 * w + 1], little)) % U32;
      w := w + 1;
      nleft := nleft - 2;
    }
    if nleft == 1 {
      WordAt(addr, little, w);
      SumNext(ws, w);
      Wraps(Sum(ws[..w]), ws[w]);
      sum := (sum + Load(addr[2 * w], 0, little)) % U32;
      w := w + 1;
    }
    assert ws[..w] == ws;
    FitsIff(ws);
    answer := FoldAnswer(sum);
  }

  /** Losing carries out of the accumulator changes the residue. */
  lemma FitsIff(ws: seq<nat>)
    requires AllWords(ws) && |ws| <= 0x4000_0000
    ensures M - Residue(Sum(ws) % U32) == Checksum(ws) <==> Sum(ws) < U32
    ensures |ws| <= 65537 ==> Sum(ws) < U32
  {
    OnesSumIs(ws);
    SumBound(ws);
    var s := Sum(ws);
    if s >= U32 {
      LostCarries(s / U32, s % U32);
    }
  }

  lemma LostCarries(q: nat, r: nat)
    requires 0 < q < M && r < U32
    ensures Residue(q * U32 + r) != Residue(r)
  {
    if r > 0 {
      var a := ResidueOf(r);
      var v := Residue(r);
      // q 2^32 is q + q 0x10001 0xffff
      if v + q <= M {
        ResidueIs(q * U32 + r, q * 0x1_0001 + a, v + q);
      } else {
        ResidueIs(q * U32 + r, q * 0x1_0001 + a + 1, v + q - M);
      }
    }
  }

  /** 65538 words of ones are too many: their sum loses a carry, and what in_cksum returns is
      not their checksum. */
  lemma TooMany()
    ensures var ones := seq(65538, _ => M);
            AllWords(ones) && Sum(ones) >= U32 && M - Residue(Sum(ones) % U32) != Checksum(ones)
  {
    var ones := seq(65538, _ => M);
    SumOnes(ones);
    FitsIff(ones);
  }

  lemma {:induction false} SumOnes(ws: seq<nat>)
    requires forall i :: 0 <= i < |ws| ==> ws[i] == M
    ensures Sum(ws) == |ws| * M
  {
    if ws != [] { SumOnes(ws[..|ws| - 1]); }
  }

  /** The carries added back, and the complement. */
  method FoldAnswer(sum0: nat) returns (answer: nat)
    requires sum0 < U32
    ensures answer == M - Residue(sum0)
  {
    FoldIs(sum0);
    var sum := sum0 / 0x1_0000 + sum0 % 0x1_0000;
    sum := (sum + sum / 0x1_0000) % U32;
    answer := M - sum % 0x1_0000;
  }

  // ---------------------------------------------------------------- what the checksum is for

  lemma {:induction false} SumUpdate(ws: seq<nat>, k: nat, v: nat)
    requires k < |ws|
    ensures Sum(ws[k := v]) == Sum(ws) - ws[k] + v
  {
    var n := |ws| - 1;
    if k == n {
      assert ws[k := v][..n] == ws[..n];
    } else {
      assert ws[k := v][..n] == ws[..n][k := v];
      SumUpdate(ws[..n], k, v);
    }
  }

  /** The checksum put into a field that was zero makes the checksum of the whole zero. */
  lemma ChecksumVerifies(ws: seq<nat>, k: nat)
    requires AllWords(ws) && k < |ws| && ws[k] == 0
    ensures 0 <= Checksum(ws) <= M && Checksum(ws[k := Checksum(ws)]) == 0
  {
    var c := Checksum(ws);
    OnesSumIs(ws);
    var s := Sum(ws);
    SumUpdate(ws, k, c);
    OnesSumIs(ws[k := c]);
    if s == 0 {
      ResidueIs(s + c, 0, M);
    } else {
      var q := ResidueOf(s);
      ResidueIs(s + c, q, M);
    }
  }

  function Swap(w: nat): nat { 256 * (w % 256) + w / 256 }

  function Swapped(ws: seq<nat>): (r: seq<nat>)
    ensures |r| == |ws| && forall i :: 0 <= i < |ws| ==> r[i] == Swap(ws[i])
  {
    seq(|ws|, i requires 0 <= i < |ws| => Swap(ws[i]))
  }

  lemma SwapResidue(w: nat)
    requires w <= M
    ensures Swap(w) <= M && (Swap(w) == 0 <==> w == 0) && 256 * w == (w / 256) * M + Swap(w)
  {
  }

  /** Swapping multiplies by 256 modulo 0xffff. */
  lemma {:induction false} SwappedSum(ws: seq<nat>) returns (q: nat)
    requires AllWords(ws)
    ensures 256 * Sum(ws) == q * M + Sum(Swapped(ws)) && (Sum(Swapped(ws)) == 0 <==> Sum(ws) == 0)
    ensures AllWords(Swapped(ws))
  {
    if ws == [] {
      q := 0;
    } else {
      var n := |ws| - 1;
      q := SwappedSum(ws[..n]);
      SwapResidue(ws[n]);
      assert Swapped(ws)[..n] == Swapped(ws[..n]);
      q := q + ws[n] / 256;
    }
    forall i | 0 <= i < |ws| ensures Swapped(ws)[i] <= M { SwapResidue(ws[i]); }
  }

  lemma SwapOfResidue(n: nat, m: nat, q: nat)
    requires 256 * n == q * M + m && (m == 0 <==> n == 0)
    ensures Residue(m) == Swap(Residue(n))
  {
    if n > 0 {
      var a := ResidueOf(n);
      var b := ResidueOf(m);
      var r := Residue(n);
      SwapResidue(r);
      // 256 n is q M + b M + Residue(m), and 256 a M + (r / 256) M + Swap(r)
      SameResidue(256 * n, q + b, Residue(m), 256 * a + r / 256, Swap(r));
    }
  }

  lemma SameResidue(n: nat, q1: nat, r1: nat, q2: nat, r2: nat)
    requires n == q1 * M + r1 == q2 * M + r2 && 1 <= r1 <= M && 1 <= r2 <= M
    ensures r1 == r2
  {
    ResidueIs(n, q1, r1);
    ResidueIs(n, q2, r2);
  }

  /** Byte order independence: swapping the bytes of every word swaps those of the sum. */
  lemma ChecksumSwaps(ws: seq<nat>)
    requires AllWords(ws)
    ensures 0 <= Checksum(ws) <= M && Checksum(Swapped(ws)) == Swap(Checksum(ws))
  {
    var q := SwappedSum(ws);
    OnesSumIs(ws);
    OnesSumIs(Swapped(ws));
    SwapOfResidue(Sum(ws), Sum(Swapped(ws)), q);
    var r := OnesSum(ws);
    assert (M - r) % 256 == 255 - r % 256 && (M - r) / 256 == 255 - r / 256;
  }

  lemma {:induction false} WordsSwapped(b: seq<nat>)
    requires AllBytes(b)
    ensures Words(b, false) == Swapped(Words(b, true))
  {
    if |b| == 1 {
      assert Swap(b[0]) == 256 * b[0];
    } else if |b| >= 2 {
      WordsSwapped(b[2..]);
      assert (b[0] + 256 * b[1]) % 256 == b[0] && (b[0] + 256 * b[1]) / 256 == b[1];
    }
  }

  /** Hosts of either byte order store the same two bytes for the same buffer. */
  lemma SameOnTheWire(b: seq<nat>)
    requires AllBytes(b)
    ensures var big, little := Checksum(Words(b, false)), Checksum(Words(b, true));
            little >= 0 && big == Swap(little) && Load(little % 256, little / 256, false) == big
  {
    WordsOfBytes(b, true);
    WordsSwapped(b);
    ChecksumSwaps(Words(b, true));
  }

  // ---------------------------------------------------------------- buffers

  /** The word v stored at the aligned offset 2 k of a buffer. */
  function StoreWord(b: seq<nat>, k: nat, v: nat, little: bool): (r: seq<nat>)
    requires 2 * k + 1 < |b|
    ensures |r| == |b|
  {
    if little then b[2 * k := v % 256][2 * k + 1 := v / 256] else b[2 * k := v / 256][2 * k + 1 := v % 256]
  }

  lemma LoadStored(v: nat, little: bool)
    requires v <= M
    ensures v % 256 < 256 && v / 256 < 256
    ensures Load(if little then v % 256 else v / 256, if little then v / 256 else v % 256, little) == v
  {
  }

  lemma {:induction false} WordsStored(b: seq<nat>, k: nat, v: nat, little: bool)
    requires 2 * k + 1 < |b| && v <= M
    ensures k < |Words(b, little)| && Words(StoreWord(b, k, v, little), little) == Words(b, little)[k := v]
  {
    LoadStored(v, little);
    var r := StoreWord(b, k, v, little);
    if k == 0 {
      assert r[2..] == b[2..];
    } else {
      assert r[2..] == StoreWord(b[2..], k - 1, v, little);
      WordsStored(b[2..], k - 1, v, little);
    }
  }

  lemma StoredBytes(b: seq<nat>, k: nat, v: nat, little: bool)
    requires AllBytes(b) && 2 * k + 1 < |b| && v <= M
    ensures AllBytes(StoreWord(b, k, v, little))
  {
  }

  /** The sender puts the answer for the buffer into the field at offset 2 k, which was zero;
      in_cksum of what is sent is then 0. */
  method Stamp(b: seq<nat>, k: nat, little: bool) returns (sent: seq<nat>, check: nat)
    requires AllBytes(b) && |b| <= 2 * 65537 && 2 * k + 1 < |b| && b[2 * k] == 0 && b[2 * k + 1] == 0
    ensures |sent| == |b| && (forall i :: 0 <= i < |b| && i != 2 * k && i != 2 * k + 1 ==> sent[i] == b[i])
    ensures Words(sent, little)[k] == Checksum(Words(b, little)) && check == 0
  {
    var answer := InCksum(b, little);
    sent := StoreWord(b, k, answer, little);
    WordsOfBytes(b, little);
    WordAt(b, little, k);
    WordsStored(b, k, answer, little);
    StoredBytes(b, k, answer, little);
    ChecksumVerifies(Words(b, little), k);
    check := InCksum(sent, little);
  }

  /** in_cksum of one buffer on hosts of either byte order: the answers are swapped, so that
      the bytes they store are the same. */
  method OnBothHosts(b: seq<nat>, k: nat) returns (big: nat, little: nat)
    requires AllBytes(b) && |b| <= 2 * 65537 && 2 * k + 1 < |b|
    ensures big == Swap(little) && StoreWord(b, k, big, false) == StoreWord(b, k, little, true)
  {
    SameOnTheWire(b);
    big := InCksum(b, false);
    little := InCksum(b, true);
    SwapBytes(little);
  }

  lemma SwapBytes(v: nat)
    requires v <= M
    ensures Swap(v) / 256 == v % 256 && Swap(v) % 256 == v / 256
  {
  }
}
