/** Round trip time estimation (rtt.c) and the request with retransmission around it
    (dg_send_recv.c), with real numbers for floats. */
module Rtt {
  import opened Basics

  const RXTMIN := 2.0
  const RXTMAX := 60.0
  const MAXNREXMT := 3
  const HDR := 8
  const U32 := 0x1_0000_0000

  function MinMax(rto: real): (r: real)
    ensures RXTMIN <= r <= RXTMAX && (RXTMIN <= rto <= RXTMAX ==> r == rto)
    ensures (rto < RXTMIN ==> r == RXTMIN) && (rto > RXTMAX ==> r == RXTMAX)
  {
    if rto < RXTMIN then RXTMIN else if rto > RXTMAX then RXTMAX else rto
  }

  function Abs(x: real): real { if x < 0.0 then -x else x }

  function Max(x: real, y: real): real { if x < y then y else x }

  /** rtt_start: the timeout in whole seconds. */
  function Round(rto: real): int { (rto + 0.5).Floor }

  /** The total of n timeouts that begin with rto and double. */
  function Waits(rto: real, n: nat): int { if n == 0 then 0 else Waits(rto, n - 1) + Round(Doubled(rto, n - 1)) }

  function Doubled(rto: real, n: nat): real { if n == 0 then rto else 2.0 * Doubled(rto, n - 1) }

  /** A whole number of seconds is the nearest to the timeout. */
  lemma RoundIsNearest(rto: real)
    ensures rto - 0.5 < Round(rto) as real <= rto + 0.5
  {
  }

  lemma {:induction false} WaitsBound(rto: real, n: nat)
    requires rto >= 0.0
    ensures Doubled(rto, n) >= 0.0 && Waits(rto, n) as real <= Doubled(rto, n) - rto + 0.5 * n as real
    ensures Waits(rto, n) as real >= Doubled(rto, n) - rto - 0.5 * n as real
  {
    if n > 0 {
      WaitsBound(rto, n - 1);
      RoundIsNearest(Doubled(rto, n - 1));
    }
  }

  /** How often the first timeout n transmissions wait: 1, 3, 7 and 15 times. */
  function Factor(n: nat): real { if n == 1 then 1.0 else if n == 2 then 3.0 else if n == 3 then 7.0 else 15.0 }

  /** n transmissions wait that often the first timeout, up to half a second for each. */
  predicate WaitsFor(waited: int, rto: real, n: nat) {
    Factor(n) * rto - 0.5 * n as real <= waited as real <= Factor(n) * rto + 0.5 * n as real
  }

  lemma WaitsAre(rto: real, n: nat)
    requires rto >= 0.0 && 1 <= n <= 4
    ensures WaitsFor(Waits(rto, n), rto, n)
  {
    WaitsBound(rto, n);
    DoubledBound(rto, n);
  }

  /** Four transmissions wait 15 times the first timeout, and the rounding. */
  lemma FourWaits(rto: real, n: nat)
    requires RXTMIN <= rto <= RXTMAX && n <= 4
    ensures Waits(rto, n) as real <= 15.0 * rto + 2.0 <= 902.0
  {
    WaitsBound(rto, n);
    DoubledBound(rto, n);
  }

  lemma {:induction false} DoubledBound(rto: real, n: nat)
    requires 0.0 <= rto && n <= 4
    ensures Doubled(rto, n) <= 16.0 * rto
    ensures n == 1 ==> Doubled(rto, n) == 2.0 * rto
    ensures n == 2 ==> Doubled(rto, n) == 4.0 * rto
    ensures n == 3 ==> Doubled(rto, n) == 8.0 * rto
    ensures n == 4 ==> Doubled(rto, n) == 16.0 * rto
  {
    if n > 0 { DoubledBound(rto, n - 1); }
  }

  // ---------------------------------------------------------------- the estimator

  class Info {
    var rtt: real
    var srtt: real
    var rttvar: real
    var rto: real
    var nrexmt: int

    constructor ()
      ensures srtt == 0.0 && rttvar == 0.75 && rto == 3.0 && nrexmt == 0
    {
      rtt, srtt, rttvar, rto, nrexmt := 0.0, 0.0, 0.75, MinMax(0.0 + 4.0 * 0.75), 0;
    }

    /** The estimators are within bounds for samples of at most m seconds. */
    predicate Within(m: real)
      reads this
    {
      0.0 <= srtt <= m && 0.0 <= rttvar <= Max(0.75, m) && RXTMIN <= rto <= RXTMAX
    }

    /** rtt_init. */
    method Init()
      modifies this
      ensures srtt == 0.0 && rttvar == 0.75 && rto == 3.0 && nrexmt == old(nrexmt)
    {
      rtt := 0.0;
      srtt := 0.0;
      rttvar := 0.75;
      rto := MinMax(srtt + 4.0 * rttvar);
    }

    method NewPack()
      modifies this`nrexmt
      ensures nrexmt == 0
    {
      nrexmt := 0;
    }

    method Start() returns (seconds: int)
      requires rto >= RXTMIN
      ensures seconds == Round(rto) >= 2 && rto - 0.5 < seconds as real <= rto + 0.5
    {
      seconds := (rto + 0.5).Floor;
    }

    /** rtt_stop: rule 2.3 of RFC 6298 with gains of 1/8 and 1/4, the deviation taken from
        the old mean; the estimators stay within bounds for samples of at most m seconds. */
    method Stop(ms: nat, ghost m: real)
      modifies this
      ensures var sample := ms as real / 1000.0;
              && rtt == sample
              && rttvar == (1.0 - 0.25) * old(rttvar) + 0.25 * Abs(old(srtt) - sample)
              && srtt == (1.0 - 0.125) * old(srtt) + 0.125 * sample
              && rto == MinMax(srtt + 4.0 * rttvar)
      ensures old(Sane(m)) && ms as real / 1000.0 <= m ==> Within(m)
      ensures nrexmt == old(nrexmt)
    {
      rtt := ms as real / 1000.0;
      var delta := rtt - srtt;
      srtt := srtt + delta / 8.0;
      if delta < 0.0 { delta := -delta; }
      rttvar := rttvar + (delta - rttvar) / 4.0;
      rto := MinMax(srtt + 4.0 * rttvar);
    }

    /** As Within, whatever the current timeout. */
    predicate Sane(m: real)
      reads this
    {
      0.0 <= srtt <= m && 0.0 <= rttvar <= Max(0.75, m)
    }

    /** rtt_timeout: the timeout doubles; true when it is time to give up. */
    method Timeout() returns (giveup: bool)
      modifies this`rto, this`nrexmt
      ensures rto == 2.0 * old(rto) && nrexmt == old(nrexmt) + 1 && (giveup <==> nrexmt > MAXNREXMT)
    {
      rto := rto * 2.0;
      nrexmt := nrexmt + 1;
      giveup := nrexmt > MAXNREXMT;
    }
  }

  // ---------------------------------------------------------------- requests

  /** A datagram: its length, its sequence number, and the round trip it gives. */
  datatype Msg = Msg(n: int, seqno: nat, ms: nat)

  predicate Accepted(m: Msg, seqno: nat) { m.n >= HDR && m.seqno == seqno }

  /** The first datagram that is accepted, or the length. */
  function First(ms: seq<Msg>, seqno: nat): (k: nat)
    ensures k <= |ms| && (k < |ms| ==> Accepted(ms[k], seqno)) && forall i :: 0 <= i < k ==> !Accepted(ms[i], seqno)
  {
    if ms == [] then 0 else if Accepted(ms[0], seqno) then 0 else 1 + First(ms[1..], seqno)
  }

  predicate Answered(arrivals: seq<seq<Msg>>, i: nat, seqno: nat) {
    i < |arrivals| && First(arrivals[i], seqno) < |arrivals[i]|
  }

  /** The reply to a request: the first datagram with its number after the first of the four
      transmissions that is answered. */
  function Reply(arrivals: seq<seq<Msg>>, seqno: nat, i: nat): Option<Msg>
    decreases 4 - i
  {
    if i >= 4 then None
    else if Answered(arrivals, i, seqno) then Some(arrivals[i][First(arrivals[i], seqno)])
    else Reply(arrivals, seqno, i + 1)
  }

  /** The transmissions of a request. */
  function Sends(arrivals: seq<seq<Msg>>, seqno: nat, i: nat): nat
    decreases 4 - i
  {
    if i >= 4 then 4 else if Answered(arrivals, i, seqno) then i + 1 else Sends(arrivals, seqno, i + 1)
  }

  /** Transmission n - 1 is the first from i on that is answered. */
  ghost predicate FirstAnswered(arrivals: seq<seq<Msg>>, seqno: nat, i: nat, n: nat) {
    i < n <= 4 && Answered(arrivals, n - 1, seqno) && forall j :: i <= j < n - 1 ==> !Answered(arrivals, j, seqno)
  }

  /** A request gets no reply exactly if none of the four transmissions is answered; else it
      is sent until one is, and the reply is the first datagram after it with its number. */
  lemma {:induction false} ReplyIff(arrivals: seq<seq<Msg>>, seqno: nat, i: nat)
    requires i <= 4
    ensures Reply(arrivals, seqno, i).None? <==> forall j :: i <= j < 4 ==> !Answered(arrivals, j, seqno)
    ensures var r, n := Reply(arrivals, seqno, i), Sends(arrivals, seqno, i);
            if r.None? then n == 4
            else FirstAnswered(arrivals, seqno, i, n)
                 && r.value == arrivals[n - 1][First(arrivals[n - 1], seqno)] && Accepted(r.value, seqno)
    decreases 4 - i
  {
    if i < 4 && !Answered(arrivals, i, seqno) { ReplyIff(arrivals, seqno, i + 1); }
  }

  /** What is left of the request after n transmissions decides it. */
  predicate Onward(arrivals: seq<seq<Msg>>, seqno: nat, n: nat) {
    && Reply(arrivals, seqno, 0) == Reply(arrivals, seqno, n)
    && Sends(arrivals, seqno, 0) == Sends(arrivals, seqno, n)
  }

  lemma OnwardNext(arrivals: seq<seq<Msg>>, seqno: nat, n: nat)
    requires Onward(arrivals, seqno, n) && n < 4
    ensures if Answered(arrivals, n, seqno)
            then
              && Reply(arrivals, seqno, 0) == Some(arrivals[n][First(arrivals[n], seqno)])
              && Sends(arrivals, seqno, 0) == n + 1
            else Onward(arrivals, seqno, n + 1)
  {
  }

  /** The number of request q after number n, and the transmissions of the first q requests. */
  function SeqAt(n: nat, q: nat): nat { (n + 1 + q) % U32 }

  function SentBy(all: seq<seq<seq<Msg>>>, n: nat, q: nat): nat
    requires q <= |all|
  {
    if q == 0 then 0 else SentBy(all, n, q - 1) + Sends(all[q - 1], SeqAt(n, q - 1), 0)
  }

  predicate RepliedAt(all: seq<seq<seq<Msg>>>, n: nat, replies: seq<Option<Msg>>, q: nat)
    requires q < |replies| <= |all|
  {
    replies[q] == Reply(all[q], SeqAt(n, q), 0)
  }

  predicate Samples(ms: seq<Msg>, m: real) { forall i :: 0 <= i < |ms| ==> ms[i].ms as real / 1000.0 <= m }

  class Client {
    const info: Info
    var init: bool
    var seqno: nat

    constructor ()
      ensures fresh(info) && !init && seqno == 0
    {
      info := new Info();
      init, seqno := false, 0;
    }

    /** What holds between requests, for samples of at most m seconds. */
    predicate Valid(m: real)
      reads this, info
    {
      m >= 0.0 && seqno < U32 && (init ==> info.Within(m))
    }

    /** The loop of recvmsg until the reply comes, or the alarm. */
    method Receive(ms: seq<Msg>) returns (k: nat)
      ensures k == First(ms, seqno)
    {
      k := 0;
      while k < |ms| && (ms[k].n < HDR || ms[k].seqno != seqno)
        invariant k <= |ms| && First(ms, seqno) == k + First(ms[k..], seqno)
      {
        assert ms[k..][1..] == ms[k + 1..];
        k := k + 1;
      }
    }

    /** The transmissions of one request, each with the timeout doubled, until a reply comes or
        the fourth is not answered. */
    method Transmit(arrivals: seq<seq<Msg>>, m: real) returns (r: Option<Msg>, sends: nat, waited: int)
      requires init && info.Sane(m) && info.nrexmt == 0 && RXTMIN <= info.rto <= RXTMAX
      requires forall i :: 0 <= i < |arrivals| ==> Samples(arrivals[i], m)
      modifies this`init, info
      ensures r == Reply(arrivals, seqno, 0) && sends == Sends(arrivals, seqno, 0)
      ensures 1 <= sends <= 4 && waited == Waits(old(info.rto), sends) && (init <==> r.Some?)
      ensures r.Some? ==>
        && info.Within(m) && info.rtt == r.value.ms as real / 1000.0
        && info.srtt == (1.0 - 0.125) * old(info.srtt) + 0.125 * info.rtt
    {
      ghost var rto, srtt := info.rto, info.srtt;
      sends, waited, r := 0, 0, None;
      var giveup := false;
      while !giveup
        invariant sends == info.nrexmt <= 4 && (giveup <==> sends == 4) && info.Sane(m) && info.srtt == srtt
        invariant info.rto == Doubled(rto, sends) >= RXTMIN && waited == Waits(rto, sends)
        invariant init && Onward(arrivals, seqno, sends)
        decreases 4 - sends
      {
        var seconds := info.Start();
        var ms := if sends < |arrivals| then arrivals[sends] else [];
        var k := Receive(ms);
        waited := waited + seconds;
        OnwardNext(arrivals, seqno, sends);
        if k < |ms| {
          assert Samples(ms, m);
          info.Stop(ms[k].ms, m);
          return Some(ms[k]), sends + 1, waited;
        }
        giveup := info.Timeout();
        sends := sends + 1;
      }
      init := false;
    }

    /** dg_send_recv: arrivals[i] are the datagrams that come after transmission i and
        before its alarm.  At most four transmissions; the reply is the first datagram with
        the number of this request; the request begins with a timeout in bounds. */
    method SendRecv(arrivals: seq<seq<Msg>>, m: real) returns (r: Option<Msg>, sends: nat, waited: int, ghost rto: real)
      requires Valid(m) && forall i :: 0 <= i < |arrivals| ==> Samples(arrivals[i], m)
      modifies this, info
      ensures Valid(m) && seqno == (old(seqno) + 1) % U32
      ensures 1 <= sends <= 4 && RXTMIN <= rto <= RXTMAX && waited as real <= 15.0 * rto + 2.0 <= 902.0
      ensures r == Reply(arrivals, seqno, 0) && sends == Sends(arrivals, seqno, 0)
      ensures r.None? <==> forall i :: 0 <= i < 4 ==> !Answered(arrivals, i, seqno)
      ensures r.Some? ==> r.value.seqno == seqno && init && info.rtt == r.value.ms as real / 1000.0
      ensures r.None? ==> !init
      ensures rto == (if old(init) then old(info.rto) else 3.0) && WaitsFor(waited, rto, sends)
      ensures r.Some? ==>
        info.srtt == (1.0 - 0.125) * (if old(init) then old(info.srtt) else 0.0) + 0.125 * info.rtt
    {
      if !init {
        info.Init();
        init := true;
      }
      seqno := (seqno + 1) % U32;
      info.NewPack();
      rto := info.rto;
      r, sends, waited := Transmit(arrivals, m);
      ReplyIff(arrivals, seqno, 0);
      FourWaits(rto, sends);
      WaitsAre(rto, sends);
    }

    /** Any sequence of requests: the estimators stay within bounds, every request sends at
        most four times, and gets exactly the reply that its datagrams hold. */
    method Requests(all: seq<seq<seq<Msg>>>, m: real) returns (replies: seq<Option<Msg>>, sent: nat)
      requires Valid(m) && forall q :: 0 <= q < |all| ==> forall i :: 0 <= i < |all[q]| ==> Samples(all[q][i], m)
      modifies this, info
      ensures Valid(m) && |replies| == |all| && |all| <= sent <= 4 * |all| && sent == SentBy(all, old(seqno), |all|)
      ensures forall q :: 0 <= q < |all| ==> RepliedAt(all, old(seqno), replies, q)
    {
      ghost var n0 := seqno;
      replies, sent := [], 0;
      while |replies| < |all|
        invariant |replies| <= |all| && Valid(m) && |replies| <= sent <= 4 * |replies|
        invariant seqno == (n0 + |replies|) % U32 && sent == SentBy(all, n0, |replies|)
        invariant forall q :: 0 <= q < |replies| ==> RepliedAt(all, n0, replies, q)
      {
        var r, n, w;
        ghost var rto, had := 0.0, replies;
        NextSeq(n0, |replies|);
        r, n, w, rto := SendRecv(all[|replies|], m);
        replies, sent := replies + [r], sent + n;
        forall q | 0 <= q < |replies| ensures RepliedAt(all, n0, replies, q) {
          if q < |had| { assert RepliedAt(all, n0, had, q); }
        }
      }
    }
  }

  lemma NextSeq(n: nat, q: nat)
    ensures ((n + q) % U32 + 1) % U32 == SeqAt(n, q)
  {
  }
}
