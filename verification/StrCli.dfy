/** The nonblocking copier (strclinonb.c): standard input to a socket and the socket to
    standard output, through two linear buffers. */
module StrCli {

  const MAXLINE := 4096

  /** What read and write give: bytes, of which none is the end; a count; or a refusal. */
  datatype ReadResult = Got(data: seq<int>) | ReadAgain | ReadError
  datatype WriteResult = Wrote(n: nat) | WriteAgain | WriteError

  /** A buffer with the pointer where bytes go in and the pointer where they go out.  read
      and written are all the bytes that have gone in and out. */
  class Buffer {
    const data: array<int>
    var i: nat
    var o: nat
    ghost var read: seq<int>
    ghost var written: seq<int>

    ghost predicate Valid()
      reads this, data
    {
      && data.Length == MAXLINE && o <= i <= MAXLINE && (o == i ==> i == 0)
      && read == written + data[o..i]
    }

    constructor ()
      ensures Valid() && Empty() && read == [] && written == [] && fresh(data)
    {
      data, i, o, read, written := new int[MAXLINE], 0, 0, [], [];
    }

    predicate Empty()
      reads this
    {
      o == i
    }

    function Room(): int
      reads this
    {
      MAXLINE - i
    }

    ghost function Model(): Pipe
      reads this
    {
      Pipe(read, written, i)
    }

    lemma PipeOk()
      requires Valid()
      ensures Model().Ok() && Model().Pending() == i - o
    {
    }

    /** Bytes that a read has put at the in pointer. */
    method Fill(d: seq<int>)
      requires Valid() && 0 < |d| <= Room()
      modifies this`i, this`read, data
      ensures Valid() && Model() == Filled(old(Model()), d) && !Empty()
    {
      ghost var had := data[o..i];
      forall k | 0 <= k < |d| { data[i + k] := d[k]; }
      assert data[o..i] == had && data[i..i + |d|] == d;
      assert data[o..i + |d|] == data[o..i] + data[i..i + |d|];
      i := i + |d|;
      read := read + d;
      assert written + (had + d) == (written + had) + d;
    }

    /** A write has taken n bytes at the out pointer; an empty buffer starts again. */
    method Drain(n: nat)
      requires Valid() && !Empty() && n <= i - o
      modifies this`i, this`o, this`written
      ensures Valid() && Model() == Drained(old(Model()), n)
      ensures Empty() <==> n == old(i - o)
    {
      ghost var had := data[o..i];
      assert had == data[o..o + n] + data[o + n..i];
      assert read[..|written| + n] == written + data[o..o + n];
      written := written + data[o..o + n];
      o := o + n;
      if o == i {
        i, o := 0, 0;
      }
    }
  }

  /** What select reports and what the four calls then give. */
  datatype Event = Event(stdin: bool, sockIn: bool, stdout: bool, sockOut: bool,
                         fromStdin: ReadResult, fromSock: ReadResult, toStdout: WriteResult, toSock: WriteResult)

  datatype Status = Running | Finished | Premature | Error

  // ---------------------------------------------------------------- what a turn does

  /** One direction: all bytes read, those of them written, and the in pointer. */
  datatype Pipe = Pipe(read: seq<int>, written: seq<int>, used: nat) {
    predicate Ok() { written <= read && (|written| == |read| ==> used == 0) && used <= MAXLINE }

    function Pending(): int { |read| - |written| }
  }

  datatype Sys = Sys(to: Pipe, fr: Pipe, eof: bool, fins: nat)

  datatype Next = Next(sys: Sys, status: Status)

  function Filled(p: Pipe, d: seq<int>): Pipe { Pipe(p.read + d, p.written, p.used + |d|) }

  /** The next n bytes that wait are written. */
  function Drained(p: Pipe, n: nat): Pipe {
    var w := if |p.written| + n < |p.read| then p.read[..|p.written| + n] else p.read;
    Pipe(p.read, w, if w == p.read then 0 else p.used)
  }

  function Offered(r: ReadResult, room: nat): ReadResult {
    if r.Got? && |r.data| > room then Got(r.data[..room]) else r
  }

  function Bytes(r: ReadResult): seq<int> { if r.Got? then r.data else [] }

  /** What the read from standard input gives in a turn, and that from the socket. */
  function FromStdin(s: Sys, e: Event): ReadResult {
    if e.stdin && !s.eof && s.to.used < MAXLINE then Offered(e.fromStdin, MAXLINE - s.to.used) else ReadAgain
  }

  function FromSock(s: Sys, e: Event): ReadResult {
    if e.sockIn && s.fr.used < MAXLINE then Offered(e.fromSock, MAXLINE - s.fr.used) else ReadAgain
  }

  /** How many of the bytes that wait a write takes; none if it is not tried. */
  function Takes(r: WriteResult, tried: bool, pending: int): WriteResult {
    if !tried || pending <= 0 then WriteAgain else if r.Wrote? && r.n > pending then Wrote(pending) else r
  }

  /** A write is tried where select reports it with bytes waiting, or right after a read. */
  function ToStdout(s: Sys, e: Event): WriteResult {
    var d := Bytes(FromSock(s, e));
    Takes(e.toStdout, (e.stdout && s.fr.Pending() > 0) || d != [], s.fr.Pending() + |d|)
  }

  function ToSock(s: Sys, e: Event): WriteResult {
    var d := Bytes(FromStdin(s, e));
    Takes(e.toSock, (e.sockOut && s.to.Pending() > 0) || d != [], s.to.Pending() + |d|)
  }

  function TakenBy(p: Pipe, r: WriteResult): Pipe { if r.Wrote? then Drained(p, r.n) else p }

  function AfterStdin(s: Sys, r: ReadResult): Sys {
    if r == Got([]) then s.(eof := true, fins := s.fins + if s.to.Pending() == 0 then 1 else 0)
    else s.(to := Filled(s.to, Bytes(r)))
  }

  function AfterSend(s: Sys, r: WriteResult): Sys {
    var to := TakenBy(s.to, r);
    s.(to := to, fins := s.fins + if r.Wrote? && s.eof && to.Pending() == 0 then 1 else 0)
  }

  function Reads(s: Sys, e: Event): Next {
    var r1, r2 := FromStdin(s, e), FromSock(s, e);
    var s1 := AfterStdin(s, r1);
    if r1.ReadError? then Next(s, Error)
    else if r2.ReadError? then Next(s1, Error)
    else if r2 == Got([]) then Next(s1, if s1.eof then Finished else Premature)
    else Next(s1.(fr := Filled(s1.fr, Bytes(r2))), Running)
  }

  /** A read that gives no byte leaves what is read; the read from standard input leaves the
      other direction. */
  lemma ReadsStay(s: Sys, e: Event)
    ensures Filled(s.to, []) == s.to && Filled(s.fr, []) == s.fr
    ensures var s1 := AfterStdin(s, FromStdin(s, e)); s1.fr == s.fr && FromSock(s1, e) == FromSock(s, e)
  {
    assert s.to.read + [] == s.to.read && s.fr.read + [] == s.fr.read;
  }

  function Writes(s: Sys, w1: WriteResult, w2: WriteResult): Next {
    var s1 := s.(fr := TakenBy(s.fr, w1));
    if w1.WriteError? then Next(s, Error)
    else if w2.WriteError? then Next(s1, Error)
    else Next(AfterSend(s1, w2), Running)
  }

  function TurnOf(s: Sys, e: Event): Next {
    var n := Reads(s, e);
    if n.status.Running? then Writes(n.sys, ToStdout(s, e), ToSock(s, e)) else n
  }

  lemma ThenWrites(s: Sys, e: Event, sockOut: bool, stdout: bool)
    requires Reads(s, e).status.Running? ==>
      && (sockOut <==> (e.sockOut && s.to.Pending() > 0) || Bytes(FromStdin(s, e)) != [])
      && (stdout <==> (e.stdout && s.fr.Pending() > 0) || Bytes(FromSock(s, e)) != [])
    ensures var n := Reads(s, e);
            TurnOf(s, e) == if !n.status.Running? then n else
              Writes(n.sys, Takes(e.toStdout, stdout, n.sys.fr.Pending()), Takes(e.toSock, sockOut, n.sys.to.Pending()))
  {
  }

  function After(s: Sys, events: seq<Event>, n: nat): Sys
    requires n <= |events|
  {
    if n == 0 then s else TurnOf(After(s, events, n - 1), events[n - 1]).sys
  }

  predicate RunsAt(s: Sys, events: seq<Event>, k: nat)
    requires k < |events|
  {
    TurnOf(After(s, events, k), events[k]).status.Running?
  }

  // ---------------------------------------------------------------- what a run does

  /** All bytes that the reads of the first n turns give, in each direction. */
  function StdinOf(s: Sys, events: seq<Event>, n: nat): seq<int>
    requires n <= |events|
  {
    if n == 0 then [] else StdinOf(s, events, n - 1) + Bytes(FromStdin(After(s, events, n - 1), events[n - 1]))
  }

  function SockOf(s: Sys, events: seq<Event>, n: nat): seq<int>
    requires n <= |events|
  {
    if n == 0 then [] else SockOf(s, events, n - 1) + Bytes(FromSock(After(s, events, n - 1), events[n - 1]))
  }

  /** From s to t the reads have given d1 and d2 and the writes have taken n1 and n2 bytes. */
  predicate Moved(s: Sys, t: Sys, d1: seq<int>, d2: seq<int>) {
    t.to.Ok() && t.fr.Ok() && t.to.read == s.to.read + d1 && t.fr.read == s.fr.read + d2
  }

  function Count(r: WriteResult): nat { if r.Wrote? then r.n else 0 }

  /** A turn that goes on adds to what is read exactly what the reads give, and to what is
      written exactly the bytes that the writes take, next in order. */
  lemma TurnMoves(s: Sys, e: Event)
    requires s.to.Ok() && s.fr.Ok() && TurnOf(s, e).status.Running?
    ensures var t := TurnOf(s, e).sys;
            && Moved(s, t, Bytes(FromStdin(s, e)), Bytes(FromSock(s, e)))
            && |t.to.written| == |s.to.written| + Count(ToSock(s, e))
            && |t.fr.written| == |s.fr.written| + Count(ToStdout(s, e))
  {
    PipeMoves(s.to, Bytes(FromStdin(s, e)), ToSock(s, e));
    PipeMoves(s.fr, Bytes(FromSock(s, e)), ToStdout(s, e));
  }

  lemma MovedMore(s: Sys, t: Sys, u: Sys, a1: seq<int>, a2: seq<int>, d1: seq<int>, d2: seq<int>)
    requires Moved(s, t, a1, a2) && Moved(t, u, d1, d2)
    ensures Moved(s, u, a1 + d1, a2 + d2)
  {
    assert (s.to.read + a1) + d1 == s.to.read + (a1 + d1);
    assert (s.fr.read + a2) + d2 == s.fr.read + (a2 + d2);
  }

  lemma PipeMoves(p: Pipe, d: seq<int>, r: WriteResult)
    requires p.Ok() && p.used + |d| <= MAXLINE && (r.Wrote? ==> r.n <= p.Pending() + |d|)
    requires p.Pending() + |d| == 0 ==> !r.Wrote?
    ensures var q := TakenBy(Filled(p, d), r);
            && q.Ok() && q.read == p.read + d && |q.written| == |p.written| + (if r.Wrote? then r.n else 0)
    ensures Filled(p, []) == p
  {
    assert p.read + [] == p.read;
    var q := Filled(p, d);
    if r.Wrote? && |q.written| + r.n == |q.read| { assert q.read[..|q.read|] == q.read; }
  }

  lemma {:induction false} RunMoves(s: Sys, events: seq<Event>, n: nat)
    requires s.to.Ok() && s.fr.Ok() && n <= |events| && forall k :: 0 <= k < n ==> RunsAt(s, events, k)
    ensures Moved(s, After(s, events, n), StdinOf(s, events, n), SockOf(s, events, n))
  {
    if n == 0 {
      assert s.to.read + [] == s.to.read && s.fr.read + [] == s.fr.read;
    } else {
      RunMoves(s, events, n - 1);
      assert RunsAt(s, events, n - 1);
      var t, e := After(s, events, n - 1), events[n - 1];
      TurnMoves(t, e);
      MovedMore(s, t, TurnOf(t, e).sys, StdinOf(s, events, n - 1), SockOf(s, events, n - 1),
                Bytes(FromStdin(t, e)), Bytes(FromSock(t, e)));
    }
  }

  /** The run so far: every turn but the last has gone on, and st is the status of the last. */
  ghost predicate Progress(s: Sys, events: seq<Event>, n: nat, st: Status, t: Sys) {
    && n <= |events| && t == After(s, events, n)
    && (forall k :: 0 <= k < n - 1 ==> RunsAt(s, events, k))
    && st == if n == 0 then Running else TurnOf(After(s, events, n - 1), events[n - 1]).status
  }

  lemma ProgressNext(s: Sys, events: seq<Event>, n: nat, t: Sys, st: Status, u: Sys)
    requires Progress(s, events, n, Running, t) && n < |events| && Next(u, st) == TurnOf(t, events[n])
    ensures Progress(s, events, n + 1, st, u)
  {
    assert n > 0 ==> RunsAt(s, events, n - 1);
  }

  lemma ProgressMoves(s: Sys, events: seq<Event>, n: nat, t: Sys)
    requires s.to.Ok() && s.fr.Ok() && Progress(s, events, n, Running, t)
    ensures Moved(s, t, StdinOf(s, events, n), SockOf(s, events, n))
  {
    assert n > 0 ==> RunsAt(s, events, n - 1);
    RunMoves(s, events, n);
  }

  // ---------------------------------------------------------------- a turn by what select and the calls report

  /** A read that is reported adds its bytes, as far as there is room, and nothing else does. */
  predicate ReadBy(reported: bool, r: ReadResult, p: Pipe, q: Pipe) {
    q.read == p.read +
      if !reported || !r.Got? then []
      else if p.used + |r.data| <= MAXLINE then r.data
      else if p.used <= MAXLINE then r.data[..MAXLINE - p.used] else []
  }

  /** A write that is reported with bytes waiting, or that follows a read, takes its count of
      the bytes that wait, in order; the in pointer goes back when none is left. */
  predicate WrittenBy(reported: bool, r: WriteResult, p: Pipe, q: Pipe) {
    var waits, tried := |q.read| - |p.written|, (reported && |p.written| < |p.read|) || |p.read| < |q.read|;
    && q.written <= q.read
    && |q.written| == |p.written| + (if !tried || !r.Wrote? then 0 else if r.n <= waits then r.n else waits)
    && q.used == if q.written == q.read then 0 else p.used + |q.read| - |p.read|
  }

  predicate ByEvent(s: Sys, e: Event, t: Sys) {
    && ReadBy(e.stdin && !s.eof, e.fromStdin, s.to, t.to)
    && ReadBy(e.sockIn, e.fromSock, s.fr, t.fr)
    && WrittenBy(e.sockOut, e.toSock, s.to, t.to)
    && WrittenBy(e.stdout, e.toStdout, s.fr, t.fr)
    && (t.eof <==> s.eof || (e.stdin && s.to.used < MAXLINE && e.fromStdin == Got([])))
  }

  lemma PipeByEvent(p: Pipe, reported: bool, r: ReadResult, out: bool, w: WriteResult)
    requires p.Ok()
    ensures var d := if reported && p.used < MAXLINE then Bytes(Offered(r, MAXLINE - p.used)) else [];
            var q := TakenBy(Filled(p, d), Takes(w, (out && p.Pending() > 0) || d != [], p.Pending() + |d|));
            ReadBy(reported, r, p, q) && WrittenBy(out, w, p, q)
  {
    var d := if reported && p.used < MAXLINE then Bytes(Offered(r, MAXLINE - p.used)) else [];
    PipeMoves(p, d, Takes(w, (out && p.Pending() > 0) || d != [], p.Pending() + |d|));
    var q := TakenBy(Filled(p, d), Takes(w, (out && p.Pending() > 0) || d != [], p.Pending() + |d|));
    assert q.written <= q.read && |q.written| == |q.read| ==> q.written == q.read;
  }

  /** The two directions after a turn that goes on. */
  lemma TurnPipes(s: Sys, e: Event)
    requires s.to.Ok() && s.fr.Ok() && TurnOf(s, e).status.Running?
    ensures var t, d1, d2 := TurnOf(s, e).sys, Bytes(FromStdin(s, e)), Bytes(FromSock(s, e));
            && t.to == TakenBy(Filled(s.to, d1), ToSock(s, e)) && t.fr == TakenBy(Filled(s.fr, d2), ToStdout(s, e))
            && (t.eof <==> s.eof || FromStdin(s, e) == Got([]))
  {
    PipeMoves(s.to, [], WriteAgain);
    PipeMoves(s.fr, [], WriteAgain);
  }

  /** A turn that goes on does with the events what they say. */
  lemma TurnByEvent(s: Sys, e: Event)
    requires s.to.Ok() && s.fr.Ok() && TurnOf(s, e).status.Running?
    ensures ByEvent(s, e, TurnOf(s, e).sys)
  {
    TurnPipes(s, e);
    PipeByEvent(s.to, e.stdin && !s.eof, e.fromStdin, e.sockOut, e.toSock);
    PipeByEvent(s.fr, e.sockIn, e.fromSock, e.stdout, e.toStdout);
  }

  predicate EventAt(s: Sys, events: seq<Event>, k: nat)
    requires k < |events|
  {
    ByEvent(After(s, events, k), events[k], After(s, events, k + 1))
  }

  ghost predicate AllByEvents(s: Sys, events: seq<Event>, n: nat) {
    n <= |events| && forall k :: 0 <= k < n ==> EventAt(s, events, k)
  }

  /** So does every turn of a run that goes on. */
  lemma RunByEvents(s: Sys, events: seq<Event>, n: nat, k: nat)
    requires s.to.Ok() && s.fr.Ok() && k < n <= |events| && forall j :: 0 <= j < n ==> RunsAt(s, events, j)
    ensures EventAt(s, events, k)
  {
    RunMoves(s, events, k);
    assert RunsAt(s, events, k);
    TurnByEvent(After(s, events, k), events[k]);
  }

  lemma EventsSoFar(s: Sys, events: seq<Event>, n: nat, t: Sys)
    requires s.to.Ok() && s.fr.Ok() && Progress(s, events, n, Running, t)
    ensures AllByEvents(s, events, n) && Moved(s, t, StdinOf(s, events, n), SockOf(s, events, n))
  {
    ProgressMoves(s, events, n, t);
    assert n > 0 ==> RunsAt(s, events, n - 1);
    forall k | 0 <= k < n ensures EventAt(s, events, k) { RunByEvents(s, events, n, k); }
  }

  /** Which event ends a run, and how: an error of one of the four calls that is reached, or
      the end of the socket, which is normal exactly after the end of input. */
  lemma StatusIff(s: Sys, e: Event)
    requires s.to.Ok() && s.fr.Ok()
    ensures var st := TurnOf(s, e).status;
            var stdin, sock := e.stdin && !s.eof && s.to.used < MAXLINE, e.sockIn && s.fr.used < MAXLINE;
            var bad, closed := stdin && e.fromStdin.ReadError?, sock && e.fromSock == Got([]);
            var eof := s.eof || (stdin && e.fromStdin == Got([]));
            var in1, in2 := stdin && e.fromStdin.Got? && !eof, sock && e.fromSock.Got? && !closed;
            var out1 := (e.sockOut && |s.to.written| < |s.to.read|) || in1;
            var out2 := (e.stdout && |s.fr.written| < |s.fr.read|) || in2;
            && (st.Finished? <==> !bad && closed && eof)
            && (st.Premature? <==> !bad && closed && !eof)
            && (st.Error? <==>
                  || bad || (sock && e.fromSock.ReadError?)
                  || (!closed && ((out1 && e.toSock.WriteError?) || (out2 && e.toStdout.WriteError?))))
  {
  }

  class Copier {
    const to: Buffer
    const fr: Buffer
    var stdineof: bool
    var fins: nat

    /** FIN has been sent exactly if input has ended and every byte of it is on the socket. */
    ghost predicate Valid()
      reads this, to, fr, to.data, fr.data
    {
      && to.Valid() && fr.Valid() && to != fr && to.data != fr.data
      && fins == if stdineof && to.Empty() then 1 else 0
    }

    constructor ()
      ensures Valid() && fresh(to) && fresh(fr) && fresh(to.data) && fresh(fr.data)
      ensures to.read == [] && fr.read == [] && fins == 0
    {
      to := new Buffer();
      fr := new Buffer();
      stdineof, fins := false, 0;
    }

    predicate WantStdin()
      reads this, to
    {
      !stdineof && to.i < MAXLINE
    }

    predicate WantSock()
      reads fr
    {
      fr.i < MAXLINE
    }

    /** The sets given to select are never all empty. */
    lemma NeverIdle()
      requires Valid()
      ensures WantStdin() || WantSock() || !to.Empty() || !fr.Empty()
    {
    }

    ghost function Model(): Sys
      reads this, to, fr
    {
      Sys(to.Model(), fr.Model(), stdineof, fins)
    }

    lemma PipesOk()
      requires Valid()
      ensures Model().to.Ok() && Model().fr.Ok()
      ensures Model().to.Pending() == to.i - to.o && Model().fr.Pending() == fr.i - fr.o
    {
    }

    /** The read from standard input. */
    method ReadStdin(r: ReadResult) returns (st: Status, more: bool)
      requires Valid() && WantStdin() && (r.Got? ==> |r.data| <= to.Room())
      modifies this`stdineof, this`fins, to, to.data
      ensures Valid() && st == if r.ReadError? then Error else Running
      ensures Model() == AfterStdin(old(Model()), r) && (more <==> Bytes(r) != [])
    {
      PipesOk();
      PipeMoves(to.Model(), [], WriteAgain);
      st, more := Running, false;
      if r.ReadError? {
        st := Error;
      } else if r.Got? {
        if r.data == [] {
          stdineof := true;
          if to.o == to.i { fins := fins + 1; }
        } else {
          to.Fill(r.data);
          more := true;
        }
      }
    }

    /** The read from the socket; its end is the normal end exactly after input has ended. */
    method ReadSock(r: ReadResult) returns (st: Status, more: bool)
      requires Valid() && WantSock() && (r.Got? ==> |r.data| <= fr.Room())
      modifies fr, fr.data
      ensures Valid() && Model() == old(Model()).(fr := Filled(old(Model()).fr, Bytes(r))) && (more <==> Bytes(r) != [])
      ensures st == if r.ReadError? then Error else if r != Got([]) then Running
                    else if stdineof then Finished else Premature
    {
      PipesOk();
      PipeMoves(fr.Model(), [], WriteAgain);
      st, more := Running, false;
      if r.ReadError? {
        st := Error;
      } else if r.Got? {
        if r.data == [] {
          st := if stdineof then Finished else Premature;
        } else {
          fr.Fill(r.data);
          more := true;
        }
      }
    }

    method WriteStdout(r: WriteResult) returns (st: Status)
      requires Valid() && !fr.Empty() && (r.Wrote? ==> r.n <= fr.i - fr.o)
      modifies fr
      ensures Valid() && Model() == old(Model()).(fr := TakenBy(old(Model()).fr, r))
      ensures st == if r.WriteError? then Error else Running
    {
      st := Running;
      if r.WriteError? { st := Error; } else if r.Wrote? { fr.Drain(r.n); }
    }

    method WriteSock(r: WriteResult) returns (st: Status)
      requires Valid() && !to.Empty() && (r.Wrote? ==> r.n <= to.i - to.o)
      modifies this`fins, to
      ensures Valid() && Model() == AfterSend(old(Model()), r)
      ensures st == if r.WriteError? then Error else Running
    {
      st := Running;
      if r.WriteError? {
        st := Error;
      } else if r.Wrote? {
        to.Drain(r.n);
        to.PipeOk();
        if to.o == to.i && stdineof { fins := fins + 1; }
      }
    }

    /** The read from standard input, if select reports it. */
    method TryStdin(e: Event) returns (st: Status, more: bool)
      requires Valid()
      modifies this`stdineof, this`fins, to, to.data
      ensures Valid() && Model() == AfterStdin(old(Model()), FromStdin(old(Model()), e))
      ensures st == if FromStdin(old(Model()), e).ReadError? then Error else Running
      ensures more <==> Bytes(FromStdin(old(Model()), e)) != []
    {
      st, more := Running, false;
      PipesOk();
      PipeMoves(to.Model(), [], WriteAgain);
      if e.stdin && WantStdin() { st, more := ReadStdin(Offered(e.fromStdin, to.Room())); }
    }

    /** The read from the socket, if select reports it. */
    method TrySock(e: Event) returns (st: Status, more: bool)
      requires Valid()
      modifies fr, fr.data
      ensures var r := FromSock(old(Model()), e);
              && Valid() && Model() == old(Model()).(fr := Filled(old(Model()).fr, Bytes(r)))
              && (more <==> Bytes(r) != [])
              && st == if r.ReadError? then Error else if r != Got([]) then Running
                       else if stdineof then Finished else Premature
    {
      st, more := Running, false;
      PipesOk();
      PipeMoves(fr.Model(), [], WriteAgain);
      if e.sockIn && WantSock() { st, more := ReadSock(Offered(e.fromSock, fr.Room())); }
    }

    /** The reads of a turn; sockOut and stdout say where a write may be tried after them. */
    method DoReads(e: Event) returns (st: Status, sockOut: bool, stdout: bool)
      requires Valid()
      modifies this`stdineof, this`fins, to, to.data, fr, fr.data
      ensures Valid() && Next(Model(), st) == Reads(old(Model()), e)
      ensures st.Running? ==>
        && (sockOut <==> (e.sockOut && old(Model()).to.Pending() > 0) || Bytes(FromStdin(old(Model()), e)) != [])
        && (stdout <==> (e.stdout && old(Model()).fr.Pending() > 0) || Bytes(FromSock(old(Model()), e)) != [])
    {
      ghost var s := Model();
      NeverIdle();
      PipesOk();
      ReadsStay(s, e);
      sockOut, stdout := e.sockOut && to.o != to.i, e.stdout && fr.o != fr.i;
      var more;
      st, more := TryStdin(e);
      if st == Running {
        sockOut := sockOut || more;
        st, more := TrySock(e);
        stdout := stdout || more;
      }
    }

    /** The writes of a turn. */
    method DoWrites(e: Event, sockOut: bool, stdout: bool) returns (st: Status)
      requires Valid()
      modifies this`fins, to, fr
      ensures Valid()
      ensures Next(Model(), st) == Writes(old(Model()), Takes(e.toStdout, stdout, old(Model()).fr.Pending()),
                                          Takes(e.toSock, sockOut, old(Model()).to.Pending()))
    {
      PipesOk();
      st := Running;
      if stdout && fr.i - fr.o > 0 {
        st := WriteStdout(Takes(e.toStdout, stdout, fr.i - fr.o));
        if st != Running { return; }
      }
      if sockOut && to.i - to.o > 0 {
        st := WriteSock(Takes(e.toSock, sockOut, to.i - to.o));
      }
    }

    /** One turn of the loop.  Reads and writes may move fewer bytes than offered. */
    method Turn(e: Event) returns (st: Status)
      requires Valid()
      modifies this`stdineof, this`fins, to, to.data, fr, fr.data
      ensures Valid() && Next(Model(), st) == TurnOf(old(Model()), e)
      ensures st.Running? ==> ByEvent(old(Model()), e, Model())
    {
      ghost var s := Model();
      PipesOk();
      var sockOut, stdout;
      st, sockOut, stdout := DoReads(e);
      ThenWrites(s, e, sockOut, stdout);
      if st == Running { st := DoWrites(e, sockOut, stdout); }
      if st == Running { TurnByEvent(s, e); }
    }

    /** The loop: turn by turn as TurnOf says, until one ends the run. */
    method Turns(events: seq<Event>) returns (st: Status, turns: nat)
      requires Valid()
      modifies this`stdineof, this`fins, to, to.data, fr, fr.data
      ensures Valid() && Progress(old(Model()), events, turns, st, Model())
      ensures st.Running? ==> turns == |events|
    {
      ghost var s := Model();
      st, turns := Running, 0;
      while turns < |events| && st == Running
        invariant turns <= |events| && Valid() && Progress(s, events, turns, st, Model())
        decreases |events| - turns
      {
        ghost var t := Model();
        st := Turn(events[turns]);
        ProgressNext(s, events, turns, t, st, Model());
        turns := turns + 1;
      }
    }

    /** Any schedule of any length, turn by turn as TurnOf says: what is sent and what waits in
        the buffer is what the reads of the schedule gave, in both directions; FIN is sent at
        most once, and exactly when input has ended and all of it has been sent.  The run goes
        on to the end of the schedule unless the last turn ends it. */
    method Run(events: seq<Event>) returns (st: Status, turns: nat)
      requires Valid()
      modifies this`stdineof, this`fins, to, to.data, fr, fr.data
      ensures Valid() && Progress(old(Model()), events, turns, st, Model())
      ensures st.Running? ==>
        && turns == |events|
        && to.written + to.data[to.o..to.i] == old(to.read) + StdinOf(old(Model()), events, turns)
        && fr.written + fr.data[fr.o..fr.i] == old(fr.read) + SockOf(old(Model()), events, turns)
        && AllByEvents(old(Model()), events, turns)
      ensures fins <= 1 && (fins == 1 <==> stdineof && to.written == to.read)
    {
      ghost var s := Model();
      PipesOk();
      st, turns := Turns(events);
      if st == Running { EventsSoFar(s, events, turns, Model()); }
    }
  }
}
