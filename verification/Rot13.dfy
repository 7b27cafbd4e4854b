/** The asynchronous rot13 filter (rot13c2.c): a pool of buffers between two files, with
    reads and writes that complete in any order. */
module Rot13 {
  import opened Basics

  const BSZ := 4096
  const NBUF := 8

  /** isalpha in the C locale. */
  predicate IsAlpha(c: byte) { 'A' as int <= c <= 'Z' as int || 'a' as int <= c <= 'z' as int }

  function Translate(c: byte): byte {
    if !IsAlpha(c) then c
    else if c >= 'n' as int then c - 13
    else if c >= 'a' as int then c + 13
    else if c >= 'N' as int then c - 13
    else c + 13
  }

  /** A letter and the one 13 places further round its own alphabet; any other byte and itself. */
  predicate Rotated(c: byte, r: byte) {
    if 'A' as int <= c <= 'Z' as int then r == 'A' as int + (c - 'A' as int + 13) % 26
    else if 'a' as int <= c <= 'z' as int then r == 'a' as int + (c - 'a' as int + 13) % 26
    else r == c
  }

  predicate AllRotated(s: seq<byte>, r: seq<byte>) {
    |r| == |s| && forall i :: 0 <= i < |s| ==> Rotated(s[i], r[i])
  }

  lemma TranslateRotates(c: byte)
    ensures Rotated(c, Translate(c))
  {
  }

  function Map(s: seq<byte>): (r: seq<byte>)
    ensures |r| == |s| && forall i :: 0 <= i < |s| ==> r[i] == Translate(s[i])
  {
    seq(|s|, i requires 0 <= i < |s| => Translate(s[i]))
  }

  /** The filter rotates every letter and nothing else. */
  lemma MapRotates(s: seq<byte>)
    ensures AllRotated(s, Map(s))
  {
    forall i | 0 <= i < |s| ensures Rotated(s[i], Map(s)[i]) { TranslateRotates(s[i]); }
  }

  /** Filtering twice restores the input. */
  lemma MapTwice(s: seq<byte>)
    ensures Map(Map(s)) == s
  {
    forall i | 0 <= i < |s| ensures Map(Map(s))[i] == s[i] {
      assert Map(Map(s))[i] == Translate(Map(s)[i]) == Translate(Translate(s[i]));
    }
  }

  /** The loop that translates the first n bytes of a buffer in place. */
  method TranslateBuffer(data: array<byte>, n: nat)
    requires n <= data.Length
    modifies data
    ensures data[..] == Map(old(data[..n])) + old(data[n..])
    ensures AllRotated(old(data[..n]), data[..n])
  {
    var j := 0;
    while j < n
      invariant 0 <= j <= n
      invariant forall k :: 0 <= k < j ==> data[k] == Translate(old(data[k]))
      invariant forall k :: j <= k < data.Length ==> data[k] == old(data[k])
    {
      data[j] := Translate(data[j]);
      j := j + 1;
    }
    var r := Map(old(data[..n])) + old(data[n..]);
    assert forall k :: 0 <= k < data.Length ==> data[..][k] == r[k];
    MapRotates(old(data[..n]));
    assert data[..n] == Map(old(data[..n]));
  }

  // ---------------------------------------------------------------- the machine

  datatype Op = Unused | ReadPending | WritePending

  /** busy: the kernel has not completed the operation.  data: what was read, or what is
      being written. */
  datatype Buf = Buf(op: Op, busy: bool, last: bool, offset: nat, data: seq<byte>)

  datatype Status = Running | Exited | Failed

  /** i: the buffer that main looks at next; NBUF at the end of a pass.  cut: where the last
      block ended when it was read, the size of the input before. */
  datatype State = State(input: seq<byte>, out: seq<byte>, bufs: seq<Buf>, off: nat, numop: int, i: nat,
                         status: Status, cut: nat)

  function SetBuf(s: State, j: nat, b: Buf): State
    requires j < |s.bufs|
  {
    s.(bufs := s.bufs[j := b])
  }

  /** main looks at buffer i. */
  function Visit(s: State): State
    requires s.i < |s.bufs|
  {
    var b := s.bufs[s.i];
    var next := s.(i := s.i + 1);
    match b.op
    case Unused =>
      if s.off < |s.input| then
        SetBuf(next, s.i, Buf(ReadPending, true, b.last || s.off + BSZ >= |s.input|, s.off, []))
          .(off := s.off + BSZ, numop := s.numop + 1)
      else next
    case ReadPending =>
      if b.busy then next
      else if |b.data| != BSZ && !b.last then s.(status := Failed)
      else SetBuf(next, s.i, b.(op := WritePending, busy := true, data := Map(b.data)))
    case WritePending =>
      if b.busy then next else SetBuf(next, s.i, b.(op := Unused)).(numop := s.numop - 1)
  }

  predicate Completed(b: Buf) { !b.op.Unused? && !b.busy }

  /** The end of a pass: exit, or wait until some operation has completed. */
  ghost predicate Check(s: State, s': State) {
    && s.i == NBUF
    && if s.numop == 0 then s' == if s.off >= |s.input| then s.(status := Exited) else s.(i := 0)
       else (exists j :: 0 <= j < |s.bufs| && Completed(s.bufs[j])) && s' == s.(i := 0)
  }

  /** pwrite: the file grows as needed, holes read as zeros. */
  function Write(out: seq<byte>, at: nat, d: seq<byte>): seq<byte> {
    if d == [] then out
    else if |out| < at then out + seq(at - |out|, _ => 0) + d
    else if |out| <= at + |d| then out[..at] + d
    else out[..at] + d + out[at + |d|..]
  }

  /** A read completes with n bytes of the input. */
  ghost predicate ReadDone(s: State, s': State, j: nat, n: nat) {
    && j < |s.bufs| && s.bufs[j].op.ReadPending? && s.bufs[j].busy
    && var b := s.bufs[j];
    && n <= BSZ && b.offset + n <= |s.input|
    && s' == SetBuf(s, j, b.(busy := false, data := s.input[b.offset..b.offset + n]))
               .(cut := if b.last then b.offset + n else s.cut)
  }

  ghost predicate WriteDone(s: State, s': State, j: nat) {
    && j < |s.bufs| && s.bufs[j].op.WritePending? && s.bufs[j].busy
    && var b := s.bufs[j];
    && s' == SetBuf(s, j, b.(busy := false)).(out := Write(s.out, b.offset, b.data))
  }

  /** The last state is that of an error exit: a failed call or a short write. */
  predicate Fails(s: State, s': State) { s' == s.(status := Failed) }

  ghost predicate Goes(s: State, s': State) {
    && s.status.Running?
    && ((s.i < |s.bufs| && s' == Visit(s)) || Check(s, s')
        || (exists j, n :: ReadDone(s, s', j, n)) || (exists j :: WriteDone(s, s', j)))
  }

  ghost predicate Step(s: State, s': State) { Goes(s, s') || (s.status.Running? && Fails(s, s')) }

  predicate Init(s: State) {
    && |s.bufs| == NBUF && (forall j :: 0 <= j < NBUF ==> s.bufs[j].op.Unused? && !s.bufs[j].last)
    && s.out == [] && s.off == 0 && s.numop == 0 && s.i == 0 && s.status.Running? && s.cut == |s.input|
  }

  ghost predicate StepAt(run: seq<State>, t: nat)
    requires t < |run| - 1
  {
    Step(run[t], run[t + 1])
  }

  ghost predicate Run(run: seq<State>) {
    |run| > 0 && Init(run[0]) && forall t :: 0 <= t < |run| - 1 ==> StepAt(run, t)
  }

  // ---------------------------------------------------------------- the invariant

  function Count(bs: seq<Buf>): nat {
    if bs == [] then 0 else (if bs[0].op.Unused? then 0 else 1) + Count(bs[1..])
  }

  predicate BufInv(s: State, b: Buf) {
    && (b.last ==> s.off >= |s.input|)
    && (!b.op.Unused? ==>
          && b.offset < |s.input| && b.offset + BSZ <= s.off
          && (b.last <==> b.offset + BSZ >= |s.input|)
          && (!b.last ==> b.offset + BSZ <= s.cut))
    && (b.op.ReadPending? && b.busy && b.last ==> s.cut == |s.input|)
    && (b.op.ReadPending? && !b.busy ==>
          && |b.data| <= BSZ && b.offset + |b.data| <= |s.input| && b.data == s.input[b.offset..b.offset + |b.data|]
          && (b.last ==> s.cut == b.offset + |b.data|))
    && (b.op.WritePending? ==>
          && |b.data| <= BSZ && b.offset + |b.data| <= |s.input|
          && b.data == Map(s.input[b.offset..b.offset + |b.data|])
          && (if b.last then s.cut == b.offset + |b.data| else |b.data| == BSZ))
    && (InFlight(b) && b.last ==> |s.out| <= b.offset)
  }

  /** The block of the buffer is not yet in the output. */
  predicate InFlight(b: Buf) { b.op.ReadPending? || (b.op.WritePending? && b.busy) }

  predicate Apart(b: Buf, c: Buf) {
    b.op.Unused? || c.op.Unused? || b.offset + BSZ <= c.offset || c.offset + BSZ <= b.offset
  }

  predicate Within(b: Buf, p: nat) { InFlight(b) && b.offset <= p < b.offset + BSZ }

  ghost predicate Disjoint(s: State, j: nat, k: nat)
    requires j < |s.bufs| && k < |s.bufs|
  {
    Apart(s.bufs[j], s.bufs[k])
  }

  /** Byte p of the output is there unless its block is not started or in flight. */
  ghost predicate Written(s: State, p: nat) {
    p < s.cut && p < s.off && p < |s.input| && (forall j :: 0 <= j < |s.bufs| ==> !Within(s.bufs[j], p)) ==>
      p < |s.out| && s.out[p] == Translate(s.input[p])
  }

  ghost predicate Inv(s: State) {
    && |s.bufs| == NBUF && s.i <= NBUF && s.numop == Count(s.bufs)
    && s.cut <= |s.input| && |s.out| <= s.cut && |s.out| <= s.off && (s.off < |s.input| ==> s.cut == |s.input|)
    && (s.status.Exited? ==> s.numop == 0 && s.off >= |s.input|)
    && (forall j :: 0 <= j < NBUF ==> BufInv(s, s.bufs[j]))
    && (forall j, k :: 0 <= j < k < NBUF ==> Disjoint(s, j, k))
    && (forall p: nat :: Written(s, p))
  }

  // ---------------------------------------------------------------- steps

  lemma {:induction false} CountUpdate(bs: seq<Buf>, j: nat, b: Buf)
    requires j < |bs|
    ensures Count(bs[j := b]) == Count(bs) + (if b.op.Unused? then 0 else 1) - (if bs[j].op.Unused? then 0 else 1)
  {
    if j == 0 {
      assert bs[j := b][1..] == bs[1..];
    } else {
      assert bs[j := b][1..] == bs[1..][j - 1 := b];
      CountUpdate(bs[1..], j - 1, b);
    }
  }

  /** Two buffers in use, in either order. */
  lemma ApartAt(s: State, j: nat, k: nat)
    requires Inv(s) && j < NBUF && k < NBUF && j != k
    ensures Apart(s.bufs[j], s.bufs[k])
  {
    if j < k { assert Disjoint(s, j, k); } else { assert Disjoint(s, k, j); }
  }

  /** Buffer j changes, the other parts of the state as given. */
  lemma Rebuilt(s: State, s': State, j: nat)
    requires Inv(s) && j < NBUF && |s'.bufs| == NBUF && s'.bufs == s.bufs[j := s'.bufs[j]] && s'.input == s.input
    requires s'.i <= NBUF && s'.numop == Count(s'.bufs) && s'.cut <= |s'.input| && |s'.out| <= s'.cut
      && |s'.out| <= s'.off
    requires !s'.status.Exited? && (s'.off < |s'.input| ==> s'.cut == |s'.input|)
    requires forall k :: 0 <= k < NBUF ==> BufInv(s', s'.bufs[k])
    requires forall k :: 0 <= k < NBUF && k != j ==> Apart(s'.bufs[j], s.bufs[k])
    requires forall p: nat :: Written(s', p)
    ensures Inv(s')
  {
    forall k, m | 0 <= k < m < NBUF ensures Disjoint(s', k, m) {
      if k != j && m != j { assert Disjoint(s, k, m); }
      if m == j { assert Apart(s'.bufs[j], s.bufs[k]); }
    }
  }

  predicate Begins(s: State) { s.i < |s.bufs| && s.bufs[s.i].op.Unused? && s.off < |s.input| }

  /** Bytes stay written when no block leaves the pool. */
  lemma StaysWritten(s: State, s': State, j: nat, p: nat)
    requires Inv(s) && j < NBUF && |s'.bufs| == NBUF && s'.bufs == s.bufs[j := s'.bufs[j]]
    requires s'.input == s.input && s'.out == s.out && s'.cut <= s.cut
    requires p < s'.off && !Within(s'.bufs[j], p) ==> p < s.off && !Within(s.bufs[j], p)
    ensures Written(s', p)
  {
    assert Written(s, p);
    if p < s'.off && forall k :: 0 <= k < |s'.bufs| ==> !Within(s'.bufs[k], p) {
      assert !Within(s'.bufs[j], p);
      forall k | 0 <= k < |s.bufs| && k != j ensures !Within(s.bufs[k], p) { assert s'.bufs[k] == s.bufs[k]; }
    }
  }

  lemma StepBegin(s: State)
    requires Inv(s) && s.status.Running? && Begins(s)
    ensures Inv(Visit(s))
  {
    var s' := Visit(s);
    var j := s.i;
    CountUpdate(s.bufs, j, s'.bufs[j]);
    forall k | 0 <= k < NBUF ensures BufInv(s', s'.bufs[k]) { assert BufInv(s, s.bufs[k]); }
    forall k | 0 <= k < NBUF && k != j ensures Apart(s'.bufs[j], s.bufs[k]) { assert BufInv(s, s.bufs[k]); }
    forall p: nat ensures Written(s', p) { StaysWritten(s, s', j, p); }
    Rebuilt(s, s', j);
  }

  predicate Advances(s: State) {
    s.i < |s.bufs| && Completed(s.bufs[s.i])
      && (s.bufs[s.i].op.ReadPending? ==> |s.bufs[s.i].data| == BSZ || s.bufs[s.i].last)
  }

  lemma AdvanceBuf(s: State, s': State, k: nat)
    requires Inv(s) && s.status.Running? && Advances(s) && s' == Visit(s) && k < NBUF
    ensures |s'.bufs| == NBUF && BufInv(s', s'.bufs[k])
  {
    assert BufInv(s, s.bufs[k]);
  }

  /** A completed read becomes a write, a completed write frees its buffer. */
  lemma StepAdvance(s: State)
    requires Inv(s) && s.status.Running? && Advances(s)
    ensures Inv(Visit(s))
  {
    var s' := Visit(s);
    var j := s.i;
    CountUpdate(s.bufs, j, s'.bufs[j]);
    forall k | 0 <= k < NBUF ensures BufInv(s', s'.bufs[k]) { AdvanceBuf(s, s', k); }
    forall k | 0 <= k < NBUF && k != j ensures Apart(s'.bufs[j], s.bufs[k]) { ApartAt(s, j, k); }
    forall p: nat ensures Written(s', p) { StaysWritten(s, s', j, p); }
    Rebuilt(s, s', j);
  }

  lemma StepReadDone(s: State, s': State, j: nat, n: nat)
    requires Inv(s) && s.status.Running? && ReadDone(s, s', j, n)
    ensures Inv(s')
  {
    CountUpdate(s.bufs, j, s'.bufs[j]);
    assert BufInv(s, s.bufs[j]);
    forall k | 0 <= k < NBUF ensures BufInv(s', s'.bufs[k]) {
      assert BufInv(s, s.bufs[k]);
      if k != j { ApartAt(s, j, k); }
    }
    forall k | 0 <= k < NBUF && k != j ensures Apart(s'.bufs[j], s.bufs[k]) { ApartAt(s, j, k); }
    forall p: nat ensures Written(s', p) { StaysWritten(s, s', j, p); }
    Rebuilt(s, s', j);
  }

  lemma WriteAt(out: seq<byte>, at: nat, d: seq<byte>, p: nat)
    ensures |Write(out, at, d)| == if d != [] && at + |d| > |out| then at + |d| else |out|
    ensures at <= p < at + |d| ==> Write(out, at, d)[p] == d[p - at]
    ensures p < |out| && !(at <= p < at + |d|) ==> Write(out, at, d)[p] == out[p]
  {
  }

  /** A byte outside every block in flight after the write was so before, or is in the
      block that has landed. */
  lemma OutsideBefore(s: State, s': State, j: nat, p: nat)
    requires WriteDone(s, s', j) && (forall k :: 0 <= k < |s'.bufs| ==> !Within(s'.bufs[k], p)) && !Within(s.bufs[j], p)
    ensures forall k :: 0 <= k < |s.bufs| ==> !Within(s.bufs[k], p)
  {
    forall k | 0 <= k < |s.bufs| && k != j ensures !Within(s.bufs[k], p) { assert s'.bufs[k] == s.bufs[k]; }
  }

  lemma LandsInside(s: State, s': State, j: nat, p: nat)
    requires Inv(s) && WriteDone(s, s', j) && Within(s.bufs[j], p) && p < s.cut && p < |s.input|
    ensures p < |s'.out| && s'.out[p] == Translate(s.input[p])
  {
    var b := s.bufs[j];
    assert BufInv(s, b);
    WriteAt(s.out, b.offset, b.data, p);
  }

  lemma LandsWritten(s: State, s': State, j: nat, p: nat)
    requires Inv(s) && WriteDone(s, s', j)
    ensures Written(s', p)
  {
    if p < s.cut && p < |s.input| && Within(s.bufs[j], p) {
      LandsInside(s, s', j, p);
    } else if !Within(s.bufs[j], p) && forall k :: 0 <= k < |s'.bufs| ==> !Within(s'.bufs[k], p) {
      OutsideBefore(s, s', j, p);
      assert BufInv(s, s.bufs[j]) && Written(s, p);
      WriteAt(s.out, s.bufs[j].offset, s.bufs[j].data, p);
    }
  }

  lemma StepWriteDone(s: State, s': State, j: nat)
    requires Inv(s) && s.status.Running? && WriteDone(s, s', j)
    ensures Inv(s')
  {
    var b := s.bufs[j];
    CountUpdate(s.bufs, j, s'.bufs[j]);
    assert BufInv(s, b);
    WriteAt(s.out, b.offset, b.data, 0);
    forall k | 0 <= k < NBUF ensures BufInv(s', s'.bufs[k]) {
      assert BufInv(s, s.bufs[k]);
      if k != j { ApartAt(s, j, k); }
    }
    forall k | 0 <= k < NBUF && k != j ensures Apart(s'.bufs[j], s.bufs[k]) { ApartAt(s, j, k); }
    forall p: nat ensures Written(s', p) { LandsWritten(s, s', j, p); }
    Rebuilt(s, s', j);
  }

  /** Only the position of main or the status changes. */
  lemma SameData(s: State, s': State)
    requires Inv(s) && s' == s.(i := s'.i, status := s'.status) && s'.i <= NBUF
    requires s'.status.Exited? ==> s'.numop == 0 && s'.off >= |s'.input|
    ensures Inv(s')
  {
    forall k | 0 <= k < NBUF ensures BufInv(s', s'.bufs[k]) { assert BufInv(s, s.bufs[k]); }
    forall j, k | 0 <= j < k < NBUF ensures Disjoint(s', j, k) { assert Disjoint(s, j, k); }
    forall p: nat ensures Written(s', p) { assert Written(s, p); }
  }

  lemma StepVisit(s: State)
    requires Inv(s) && s.status.Running? && s.i < NBUF
    ensures Inv(Visit(s))
  {
    if Begins(s) { StepBegin(s); }
    else if Advances(s) { StepAdvance(s); }
    else { SameData(s, Visit(s)); }
  }

  lemma StepInv(s: State, s': State)
    requires Inv(s) && Step(s, s')
    ensures Inv(s')
  {
    if s.i < |s.bufs| && s' == Visit(s) { StepVisit(s); }
    else if Check(s, s') || Fails(s, s') { SameData(s, s'); }
    else if j, n :| ReadDone(s, s', j, n) { StepReadDone(s, s', j, n); }
    else {
      var j :| WriteDone(s, s', j);
      StepWriteDone(s, s', j);
    }
  }

  lemma {:induction false} NoneUsed(bs: seq<Buf>)
    requires forall j :: 0 <= j < |bs| ==> bs[j].op.Unused?
    ensures Count(bs) == 0
  {
    if bs != [] { NoneUsed(bs[1..]); }
  }

  lemma {:induction false} AllUnused(bs: seq<Buf>, j: nat)
    requires Count(bs) == 0 && j < |bs|
    ensures bs[j].op.Unused?
  {
    if j > 0 { AllUnused(bs[1..], j - 1); }
  }

  lemma InitInv(s: State)
    requires Init(s)
    ensures Inv(s)
  {
    NoneUsed(s.bufs);
    forall k | 0 <= k < NBUF ensures BufInv(s, s.bufs[k]) {}
    forall j, k | 0 <= j < k < NBUF ensures Disjoint(s, j, k) {}
  }

  lemma {:induction false} RunInv(run: seq<State>, t: nat)
    requires Run(run) && t < |run|
    ensures Inv(run[t]) && run[t].input == run[0].input
  {
    if t == 0 {
      InitInv(run[0]);
    } else {
      RunInv(run, t - 1);
      assert StepAt(run, t - 1);
      StepInv(run[t - 1], run[t]);
    }
  }

  // ---------------------------------------------------------------- what it gives

  lemma WrittenAtExit(s: State, p: nat)
    requires Inv(s) && s.status.Exited? && p < s.cut
    ensures p < |s.out| && s.out[p] == Translate(s.input[p])
  {
    assert Written(s, p);
    forall j | 0 <= j < |s.bufs| ensures !Within(s.bufs[j], p) { AllUnused(s.bufs, j); }
  }

  /** When the filter exits, the output is the translated input, up to where the last block
      ended when it was read. */
  lemma ExitIsRot13(run: seq<State>)
    requires Run(run) && run[|run| - 1].status.Exited?
    ensures var s := run[|run| - 1]; s.cut <= |run[0].input| && s.out == Map(run[0].input[..s.cut])
    ensures AllRotated(run[0].input[..run[|run| - 1].cut], run[|run| - 1].out)
    ensures run[|run| - 1].cut == |run[0].input| ==> run[|run| - 1].out == Map(run[0].input)
  {
    RunInv(run, |run| - 1);
    var s := run[|run| - 1];
    if s.cut > 0 { WrittenAtExit(s, s.cut - 1); }
    forall p | 0 <= p < s.cut ensures s.out[p] == Translate(s.input[p]) { WrittenAtExit(s, p); }
    MapRotates(run[0].input[..s.cut]);
    assert run[0].input[..|run[0].input|] == run[0].input;
  }

  /** A read that completes in this step gives a whole block, or all that the file has left. */
  ghost predicate WholeRead(s: State, s': State, j: nat, n: nat) {
    ReadDone(s, s', j, n) ==> n == BSZ || s.bufs[j].offset + n == |s.input|
  }

  ghost predicate WholeStep(s: State, s': State) { forall j, n :: WholeRead(s, s', j, n) }

  ghost predicate WholeAt(run: seq<State>, t: nat)
    requires t < |run| - 1
  {
    WholeStep(run[t], run[t + 1])
  }

  ghost predicate WholeReads(run: seq<State>) { forall t :: 0 <= t < |run| - 1 ==> WholeAt(run, t) }

  lemma CutKept(s: State, s': State)
    requires Inv(s) && Step(s, s') && s.cut == |s.input| && WholeStep(s, s')
    ensures s'.cut == |s'.input|
  {
    if j: nat, n: nat :| ReadDone(s, s', j, n) {
      assert WholeRead(s, s', j, n) && BufInv(s, s.bufs[j]);
    }
  }

  lemma {:induction false} NothingCut(run: seq<State>, t: nat)
    requires Run(run) && t < |run| && WholeReads(run)
    ensures run[t].cut == |run[t].input|
  {
    if t > 0 {
      NothingCut(run, t - 1);
      RunInv(run, t - 1);
      assert StepAt(run, t - 1) && WholeAt(run, t - 1);
      CutKept(run[t - 1], run[t]);
    }
  }

  /** With reads as a file that does not change gives them, a normal exit leaves the
      translated input, for any length and any order of completions. */
  lemma WholeOutput(run: seq<State>)
    requires Run(run) && WholeReads(run) && run[|run| - 1].status.Exited?
    ensures run[|run| - 1].out == Map(run[0].input) && AllRotated(run[0].input, run[|run| - 1].out)
  {
    RunInv(run, |run| - 1);
    NothingCut(run, |run| - 1);
    ExitIsRot13(run);
    MapRotates(run[0].input);
  }

  /** Filtering the output of one run in another restores the input of the first. */
  lemma TwoRuns(run1: seq<State>, run2: seq<State>)
    requires Run(run1) && WholeReads(run1) && run1[|run1| - 1].status.Exited?
    requires Run(run2) && WholeReads(run2) && run2[|run2| - 1].status.Exited?
    requires run2[0].input == run1[|run1| - 1].out
    ensures run2[|run2| - 1].out == run1[0].input
  {
    WholeOutput(run1);
    WholeOutput(run2);
    MapTwice(run1[0].input);
  }

  /** In every reachable state the count of operations is the number of buffers in use, and
      blocks in use are apart. */
  lemma BuffersApart(run: seq<State>, t: nat, j: nat, k: nat)
    requires Run(run) && t < |run| && j < NBUF && k < NBUF && j != k
    ensures run[t].numop == Count(run[t].bufs) && |run[t].bufs| == NBUF && Apart(run[t].bufs[j], run[t].bufs[k])
  {
    RunInv(run, t);
    ApartAt(run[t], j, k);
  }

  // ---------------------------------------------------------------- termination

  function Weight(b: Buf): nat {
    match b.op
    case Unused => 0
    case WritePending => if b.busy then 2 else 1
    case ReadPending => if b.busy then 4 else 3
  }

  function Weights(bs: seq<Buf>): nat { if bs == [] then 0 else Weight(bs[0]) + Weights(bs[1..]) }

  lemma {:induction false} WeightUpdate(bs: seq<Buf>, j: nat, b: Buf)
    requires j < |bs|
    ensures Weights(bs[j := b]) == Weights(bs) + Weight(b) - Weight(bs[j])
  {
    if j == 0 {
      assert bs[j := b][1..] == bs[1..];
    } else {
      assert bs[j := b][1..] == bs[1..][j - 1 := b];
      WeightUpdate(bs[1..], j - 1, b);
    }
  }

  /** Blocks not yet started. */
  function Remaining(size: nat, off: nat): nat
    decreases size - off
  {
    if off >= size then 0 else 1 + Remaining(size, off + BSZ)
  }

  predicate Ready(s: State, b: Buf) { Completed(b) || (b.op.Unused? && s.off < |s.input|) }

  /** Steps of main to a buffer with something to do, or to the end of the pass and beyond. */
  function Distance(s: State, i: nat): nat
    decreases NBUF - i
  {
    if i >= NBUF || i >= |s.bufs| then 10 else if Ready(s, s.bufs[i]) then 0 else 1 + Distance(s, i + 1)
  }

  lemma {:induction false} DistanceBound(s: State, i: nat)
    requires i <= NBUF
    ensures Distance(s, i) <= 10 + NBUF - i
    decreases NBUF - i
  {
    if i < NBUF && i < |s.bufs| { DistanceBound(s, i + 1); }
  }

  lemma {:induction false} DistanceTo(s: State, i: nat, j: nat)
    requires i <= j < NBUF == |s.bufs| && Ready(s, s.bufs[j])
    ensures Distance(s, i) <= j - i
    decreases j - i
  {
    if i < j && !Ready(s, s.bufs[i]) { DistanceTo(s, i + 1, j); }
  }

  function Work(s: State): nat { 5 * Remaining(|s.input|, s.off) + Weights(s.bufs) }

  function Rank(s: State): nat { if s.status.Running? then 1 + 20 * Work(s) + Distance(s, s.i) else 0 }

  lemma {:induction false} DistanceSame(s: State, s': State, i: nat)
    requires s'.bufs == s.bufs && s'.off == s.off && s'.input == s.input
    ensures Distance(s', i) == Distance(s, i)
    decreases NBUF - i
  {
    if i < NBUF && i < |s.bufs| { DistanceSame(s, s', i + 1); }
  }

  lemma LessWork(s: State, s': State)
    requires s'.i <= NBUF && Work(s') < Work(s) && s.status.Running?
    ensures Rank(s') < Rank(s)
  {
    DistanceBound(s', s'.i);
  }

  /** Every step decreases the rank. */
  lemma VisitDecreases(s: State)
    requires Inv(s) && s.status.Running? && s.i < NBUF
    ensures Rank(Visit(s)) < Rank(s)
  {
    var s' := Visit(s);
    WeightUpdate(s.bufs, s.i, s'.bufs[s.i]);
    if Ready(s, s.bufs[s.i]) {
      if s'.status.Running? { LessWork(s, s'); }
    } else {
      DistanceSame(s, s', s'.i);
    }
  }

  lemma CheckDecreases(s: State, s': State)
    requires Inv(s) && s.status.Running? && Check(s, s')
    ensures Rank(s') < Rank(s)
  {
    if s'.status.Running? {
      DistanceSame(s, s', 0);
      if s.numop == 0 {
        AllUnused(s.bufs, 0);
        DistanceTo(s, 0, 0);
      } else {
        var j :| 0 <= j < |s.bufs| && Completed(s.bufs[j]);
        DistanceTo(s, 0, j);
      }
    }
  }

  lemma StepDecreases(s: State, s': State)
    requires Inv(s) && Step(s, s')
    ensures Rank(s') < Rank(s)
  {
    if s.i < |s.bufs| && s' == Visit(s) { VisitDecreases(s); }
    else if Check(s, s') { CheckDecreases(s, s'); }
    else if j: nat, n: nat :| ReadDone(s, s', j, n) {
      WeightUpdate(s.bufs, j, s'.bufs[j]);
      LessWork(s, s');
    } else if j: nat :| WriteDone(s, s', j) {
      WeightUpdate(s.bufs, j, s'.bufs[j]);
      LessWork(s, s');
    }
  }

  /** Every run ends: it has at most as many steps as the rank of its first state. */
  lemma {:induction false} RunsEnd(run: seq<State>, t: nat)
    requires Run(run) && t < |run|
    ensures Rank(run[t]) + t <= Rank(run[0])
  {
    if t > 0 {
      RunsEnd(run, t - 1);
      RunInv(run, t - 1);
      assert StepAt(run, t - 1);
      StepDecreases(run[t - 1], run[t]);
    }
  }

  /** The filter is never stuck: while it runs, main or the kernel can take a step. */
  lemma NeverStuck(run: seq<State>) returns (s': State)
    requires Run(run) && run[|run| - 1].status.Running?
    ensures Goes(run[|run| - 1], s')
  {
    var s := run[|run| - 1];
    RunInv(run, |run| - 1);
    if s.i < NBUF {
      s' := Visit(s);
    } else if s.numop == 0 {
      s' := if s.off >= |s.input| then s.(status := Exited) else s.(i := 0);
      assert Check(s, s');
    } else {
      var j := SomeUsed(s.bufs);
      var b := s.bufs[j];
      assert BufInv(s, b);
      if !b.busy {
        s' := s.(i := 0);
        assert Completed(s.bufs[j]) && Check(s, s');
      } else if b.op.ReadPending? {
        s' := SetBuf(s, j, b.(busy := false, data := s.input[b.offset..b.offset + 0]))
          .(cut := if b.last then b.offset + 0 else s.cut);
        assert ReadDone(s, s', j, 0);
      } else {
        s' := SetBuf(s, j, b.(busy := false)).(out := Write(s.out, b.offset, b.data));
        assert WriteDone(s, s', j);
      }
    }
  }

  lemma {:induction false} SomeUsed(bs: seq<Buf>) returns (j: nat)
    requires Count(bs) > 0
    ensures j < |bs| && !bs[j].op.Unused?
  {
    if !bs[0].op.Unused? { j := 0; } else {
      j := SomeUsed(bs[1..]);
      j := j + 1;
    }
  }
}
