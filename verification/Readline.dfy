/** The buffered line reader (readline.c): a static buffer between a stream that comes in
    arbitrary pieces and calls that take lines. */
module Readline {

  const MAXLINE := 4096

  datatype Result = Data(data: seq<char>) | Interrupted | Failed

  /** The descriptor: what has not been read, the signals still to come, and the reads that
      have failed. */
  class Source {
    var rest: seq<char>
    var signals: nat
    ghost var failures: nat

    constructor (s: seq<char>, signals: nat)
      ensures rest == s && this.signals == signals && failures == 0
    {
      rest, this.signals, failures := s, signals, 0;
    }

    /** read: any part of what is left that is not empty, nothing at the end, or an error. */
    method Read(max: nat) returns (r: Result)
      requires max > 0
      modifies this
      ensures r.Data? ==> r.data + rest == old(rest) && |r.data| <= max && (r.data == [] <==> old(rest) == [])
      ensures !r.Data? ==> rest == old(rest)
      ensures if r.Interrupted? then signals < old(signals) else signals == old(signals)
      ensures failures == old(failures) + if r.Failed? then 1 else 0
    {
      if * {
        failures := failures + 1;
        return Failed;
      }
      if * {
        if signals > 0 {
          signals := signals - 1;
          return Interrupted;
        }
      }
      if rest == [] { return Data([]); }
      var n :| 1 <= n <= max && n <= |rest|;
      r := Data(rest[..n]);
      rest := rest[n..];
    }
  }

  // ---------------------------------------------------------------- lines

  /** Where the line that begins at i ends: after the first newline, after room bytes, or at
      the end of the stream. */
  function LineEnd(s: seq<char>, i: nat, room: nat): (e: nat)
    requires i <= |s|
    ensures i <= e <= |s| && e - i <= room
    decreases room
  {
    if room == 0 || i == |s| then i else if s[i] == '\n' then i + 1 else LineEnd(s, i + 1, room - 1)
  }

  /** The end of a line, without recursion: no newline before its last byte; and it ends
      with a newline, or is full, or is the rest of the stream. */
  lemma {:induction false} LineCut(s: seq<char>, i: nat, room: nat, k: nat)
    requires i <= |s| && i <= k < LineEnd(s, i, room)
    ensures var e := LineEnd(s, i, room);
            (s[k] == '\n' ==> k == e - 1) && (s[e - 1] == '\n' || e - i == room || e == |s|)
    decreases room
  {
    if s[i] != '\n' && i + 1 < LineEnd(s, i, room) { LineCut(s, i + 1, room - 1, if k > i then k else i + 1); }
  }

  function Lines(s: seq<char>, i: nat, room: nat): seq<seq<char>>
    requires room >= 1 && i <= |s|
    decreases |s| - i
  {
    if i == |s| then [] else [s[i..LineEnd(s, i, room)]] + Lines(s, LineEnd(s, i, room), room)
  }

  function Flatten(ls: seq<seq<char>>): seq<char> { if ls == [] then [] else ls[0] + Flatten(ls[1..]) }

  /** The lines put together are the stream. */
  lemma {:induction false} FlattenLines(s: seq<char>, i: nat, room: nat)
    requires room >= 1 && i <= |s|
    ensures Flatten(Lines(s, i, room)) == s[i..]
    decreases |s| - i
  {
    if i < |s| {
      var e := LineEnd(s, i, room);
      FlattenLines(s, e, room);
      assert Lines(s, i, room)[1..] == Lines(s, e, room);
      assert s[i..] == s[i..e] + s[e..];
    }
  }

  // ---------------------------------------------------------------- the reader

  class Reader {
    const fd: Source
    var cnt: int
    var ptr: nat
    const buf: array<char>
    ghost const stream: seq<char>
    ghost var at: nat

    ghost function CacheSize(): nat
      reads this
    {
      if cnt > 0 then cnt else 0
    }

    /** Byte i to come is in the cache or in the unread rest. */
    ghost predicate Comes(i: nat)
      requires CacheSize() > 0 ==> ptr + CacheSize() <= buf.Length
      requires at + i < |stream| && i < CacheSize() + |fd.rest|
      reads this, buf, fd
    {
      stream[at + i] == if i < CacheSize() then buf[ptr + i] else fd.rest[i - CacheSize()]
    }

    /** The cached bytes and the unread rest are the stream from position at on. */
    ghost predicate Valid()
      reads this, buf, fd
    {
      && buf.Length == MAXLINE && cnt >= -1 && (CacheSize() > 0 ==> ptr + CacheSize() <= MAXLINE)
      && |stream| - at == CacheSize() + |fd.rest|
      && forall i :: 0 <= i < |stream| - at ==> Comes(i)
    }

    constructor (fd: Source)
      ensures Valid() && this.fd == fd && stream == fd.rest && at == 0 && fresh(buf)
    {
      this.fd, cnt, ptr, buf := fd, 0, 0, new char[MAXLINE];
      stream, at := fd.rest, 0;
      new;
      assert forall i :: 0 <= i < |stream| ==> Comes(i);
    }

    /** read, again and again while it is interrupted. */
    method ReadAgain() returns (r: Result)
      modifies fd
      ensures !r.Interrupted? && (r.Failed? ==> fd.rest == old(fd.rest))
      ensures r.Data? ==>
        r.data + fd.rest == old(fd.rest) && |r.data| <= MAXLINE && (r.data == [] <==> old(fd.rest) == [])
      ensures fd.failures == old(fd.failures) + if r.Failed? then 1 else 0
    {
      r := fd.Read(MAXLINE);
      while r.Interrupted?
        invariant !r.Data? ==> fd.rest == old(fd.rest)
        invariant r.Data? ==>
          r.data + fd.rest == old(fd.rest) && |r.data| <= MAXLINE && (r.data == [] <==> old(fd.rest) == [])
        invariant fd.failures == old(fd.failures) + if r.Failed? then 1 else 0
        decreases fd.signals, if r.Interrupted? then 1 else 0
      {
        r := fd.Read(MAXLINE);
      }
    }

    /** The buffer is filled again. */
    method Refill() returns (ok: bool)
      requires Valid() && cnt <= 0
      modifies this`cnt, this`ptr, buf, fd
      ensures Valid() && (ok ==> cnt >= 0 && (cnt == 0 <==> at == |stream|))
      ensures fd.failures == old(fd.failures) + if ok then 0 else 1
    {
      var r := ReadAgain();
      ok := !r.Failed?;
      if ok {
        forall i | 0 <= i < |r.data| { buf[i] := r.data[i]; }
        cnt := |r.data|;
        ptr := 0;
      } else {
        cnt := -1;
      }
      forall i | 0 <= i < |stream| - at ensures Comes(i) { assert old(Comes(i)); }
    }

    /** my_read: -1 exactly if a read fails, which none does while bytes are cached; else 0
        exactly at the end of the stream; else the next byte. */
    method MyRead() returns (rc: int, c: char)
      requires Valid()
      modifies this`cnt, this`ptr, this`at, buf, fd
      ensures Valid()
      ensures rc == if fd.failures > old(fd.failures) then -1 else if old(at) == |stream| then 0 else 1
      ensures at == old(at) + (if rc == 1 then 1 else 0) && (rc == 1 ==> c == stream[old(at)])
      ensures fd.failures == old(fd.failures) + (if rc == -1 then 1 else 0)
      ensures old(cnt) > 0 ==> rc == 1
    {
      c := '\0';
      if cnt <= 0 {
        var ok := Refill();
        if !ok { return -1, c; }
        if cnt == 0 { return 0, c; }
      }
      assert Comes(0);
      label Cached:
      cnt := cnt - 1;
      c := buf[ptr];
      ptr := ptr + 1;
      at := at + 1;
      forall i | 0 <= i < |stream| - at ensures Comes(i) { assert old@Cached(Comes(i + 1)); }
      rc := 1;
    }

    /** The next byte goes to dst[p]. */
    method Take(dst: array<char>, p: nat) returns (rc: int, nl: bool)
      requires Valid() && p < dst.Length && dst != buf
      modifies this`cnt, this`ptr, this`at, buf, fd, dst
      ensures Valid()
      ensures rc == 1 || ((rc == 0 || rc == -1) && at == old(at) && dst[..p] == old(dst[..p]))
      ensures rc == 1 ==>
        at == old(at) + 1 && dst[..p + 1] == old(dst[..p]) + [stream[old(at)]] && (nl <==> stream[old(at)] == '\n')
      ensures rc == -1 || rc == if old(at) == |stream| then 0 else 1
      ensures fd.failures == old(fd.failures) + if rc == -1 then 1 else 0
    {
      var c;
      rc, c := MyRead();
      nl := c == '\n';
      if rc == 1 {
        dst[p] := c;
        assert dst[..p + 1] == dst[..p] + [c];
      }
    }

    method Terminate(dst: array<char>, p: nat)
      requires Valid() && p < dst.Length && dst != buf
      modifies dst
      ensures Valid() && dst[..p] == old(dst[..p]) && dst[p] == '\0'
    {
      dst[p] := '\0';
    }

    /** The loop of readline: r is what the last byte read gave, k its counter and p the bytes
        stored. */
    method Gather(dst: array<char>, maxlen: nat) returns (r: int, k: nat, p: nat)
      requires Valid() && 1 <= maxlen <= dst.Length && dst != buf
      modifies this`cnt, this`ptr, this`at, buf, fd, dst
      ensures Valid() && -1 <= r <= 1 && p == at - old(at) < maxlen && dst[..p] == stream[old(at)..at]
      ensures fd.failures == old(fd.failures) + if r == -1 then 1 else 0
      ensures r != -1 ==> at == LineEnd(stream, old(at), maxlen - 1)
      ensures r == 0 ==> k == p + 1 && !Filled(stream, old(at), at, maxlen)
      ensures r == 1 ==> k == p + if Filled(stream, old(at), at, maxlen) then 1 else 0
    {
      ghost var s, start := stream, at;
      k, p, r := 1, 0, 1;
      while k < maxlen
        invariant 1 <= k <= maxlen && p == k - 1 && Valid() && fd.failures == old(fd.failures) && r == 1
        invariant Reading(s, start, at, maxlen, dst[..p])
      {
        ghost var got := dst[..p];
        ReadingNext(s, start, at, maxlen, got);
        var nl;
        r, nl := Take(dst, p);
        if r != 1 { return; }
        p := p + 1;
        if nl { return; }
        k := k + 1;
      }
    }

    /** readline: the line that begins here, with a null byte after it.  When the buffer
        fills without a newline the result is one more than the bytes stored.  -1 exactly if a
        read has failed. */
    method Readline(dst: array<char>, maxlen: nat) returns (rc: int)
      requires Valid() && 1 <= maxlen <= dst.Length && dst != buf
      modifies this`cnt, this`ptr, this`at, buf, fd, dst
      ensures Valid() && rc >= -1 && 0 <= at - old(at) < maxlen
      ensures dst[..at - old(at)] == stream[old(at)..at]
      ensures fd.failures == old(fd.failures) + if rc == -1 then 1 else 0
      ensures rc >= 0 ==>
        && at == LineEnd(stream, old(at), maxlen - 1) && dst[at - old(at)] == '\0'
        && rc == at - old(at) + (if Filled(stream, old(at), at, maxlen) then 1 else 0)
    {
      var r, k, p := Gather(dst, maxlen);
      if r == -1 { return -1; }
      Terminate(dst, p);
      rc := if r == 0 then k - 1 else k;
    }

    /** Calls until the end of the stream: with no failed read, the lines of the stream, all of
        it; and a failure exactly if a read has failed. */
    method ReadAll(dst: array<char>, maxlen: nat) returns (ok: bool, lines: seq<seq<char>>)
      requires Valid() && 2 <= maxlen <= dst.Length && dst != buf
      modifies this`cnt, this`ptr, this`at, buf, fd, dst
      ensures Valid() && (ok <==> fd.failures == old(fd.failures))
      ensures ok ==>
        at == |stream| && lines == Lines(stream, old(at), maxlen - 1) && Flatten(lines) == stream[old(at)..]
    {
      ghost var s, start := stream, at;
      lines := [];
      while true
        invariant Valid() && fd.failures == old(fd.failures) && Collected(s, start, at, maxlen - 1, lines)
        decreases |stream| - at
      {
        ghost var i := at;
        var rc := Readline(dst, maxlen);
        if rc < 0 { return false, lines; }
        LineStored(s, i, at, maxlen, rc, dst[..at - i]);
        if rc == 0 { break; }
        var size := if rc == maxlen && dst[maxlen - 2] != '\n' then maxlen - 1 else rc;
        CollectedNext(s, start, i, at, maxlen - 1, lines);
        lines := lines + [dst[..size]];
      }
      CollectedAll(s, start, at, maxlen - 1, lines);
      ok := true;
    }
  }

  /** The lines of the stream from start are those collected and those from at on. */
  ghost predicate Collected(s: seq<char>, start: nat, at: nat, room: nat, lines: seq<seq<char>>) {
    room >= 1 && start <= |s| && at <= |s| && Lines(s, start, room) == lines + Lines(s, at, room)
  }

  lemma CollectedNext(s: seq<char>, start: nat, i: nat, e: nat, room: nat, lines: seq<seq<char>>)
    requires Collected(s, start, i, room, lines) && i < |s| && e == LineEnd(s, i, room)
    ensures Collected(s, start, e, room, lines + [s[i..e]])
  {
    assert lines + ([s[i..e]] + Lines(s, e, room)) == (lines + [s[i..e]]) + Lines(s, e, room);
  }

  lemma CollectedAll(s: seq<char>, start: nat, at: nat, room: nat, lines: seq<seq<char>>)
    requires Collected(s, start, at, room, lines) && at == |s|
    ensures lines == Lines(s, start, room) && Flatten(lines) == s[start..]
  {
    FlattenLines(s, start, room);
  }

  /** What the result of a call says about the line from i to e, which is in got. */
  lemma LineStored(s: seq<char>, i: nat, e: nat, maxlen: nat, rc: int, got: seq<char>)
    requires i <= |s| && maxlen >= 2 && e == LineEnd(s, i, maxlen - 1) && got == s[i..e]
    requires rc == e - i + if Filled(s, i, e, maxlen) then 1 else 0
    ensures (rc == 0 <==> i == |s|) && (i < |s| ==> i < e)
    ensures |got| == if rc == maxlen && |got| == maxlen - 1 && got[maxlen - 2] != '\n' then maxlen - 1 else rc
    ensures rc == maxlen ==> |got| == maxlen - 1 && got[maxlen - 2] != '\n'
  {
  }

  /** The bytes from start to at are in got; the line is not yet at its end. */
  ghost predicate Reading(s: seq<char>, start: nat, at: nat, maxlen: nat, got: seq<char>) {
    && start <= at <= |s| && got == s[start..at] && |got| < maxlen
    && LineEnd(s, start, maxlen - 1) == LineEnd(s, at, maxlen - 1 - |got|)
    && (got != [] ==> s[at - 1] != '\n')
  }

  lemma ReadingNext(s: seq<char>, start: nat, at: nat, maxlen: nat, got: seq<char>)
    requires Reading(s, start, at, maxlen, got) && |got| + 1 < maxlen
    ensures at == |s| ==> LineEnd(s, start, maxlen - 1) == at
    ensures at < |s| ==>
      && got + [s[at]] == s[start..at + 1]
      && if s[at] == '\n' then LineEnd(s, start, maxlen - 1) == at + 1
        else Reading(s, start, at + 1, maxlen, got + [s[at]])
  {
  }

  /** The bytes from i to e fill the buffer and do not end with a newline. */
  predicate Filled(s: seq<char>, i: nat, e: nat, maxlen: nat)
    requires i <= e <= |s|
  {
    e - i == maxlen - 1 && (e == i || s[e - 1] != '\n')
  }
}
