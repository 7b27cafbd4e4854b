/** Many processes against one: the calls of any run, in the order in which they unlock, are
    answered as one process would be that makes them one after the other. */
module DbSerial {
  import opened DbFormat
  import opened DbSteps
  import opened DbInvariant
  import opened DbSafety
  import opened DbLinear
  import One = DbSession
  import Db

  /** In every run and at every time, a call that ends has the result that its arguments and
      the table give, and leaves the table that they give. */
  lemma CallMeans(run: seq<State>, ms: seq<Table>, t: nat, i: nat)
    requires Serial(run, ms) && t + 1 < |ms| && Ends(run[t], run[t + 1], i)
    ensures Means(run[t].procs[i].op, ms[t], ms[t + 1], run[t].procs[i].res)
  {
    assert SerialAt(run, ms, t);
  }

  // ---------------------------------------------------------------- the same calls by one process

  function AsFlag(f: Flag): Db.Flag {
    match f
    case Insert => Db.Insert
    case Replace => Db.Replace
    case StoreAny => Db.StoreAny
  }

  function AsRequest(op: Op): One.Request {
    match op
    case FetchOp(key) => One.Get(key)
    case DeleteOp(key) => One.Del(key)
    case StoreOp(key, data, flag) => One.Put(key, data, AsFlag(flag))
  }

  predicate SameReply(res: Result, r: One.Reply) {
    match r
    case Value(v) => res == Data(v)
    case Deleted(found) => res == Code(if found then 0 else -1)
    case Stored(rc) => res == Code(if rc.Ok? then 0 else if rc.Exists? then 1 else -1)
  }

  lemma MeansOne(op: Op, m: Table, m': Table, res: Result)
    requires Means(op, m, m', res)
    ensures m' == One.After(m, AsRequest(op)) && SameReply(res, One.Answer(m, AsRequest(op)))
  {
  }

  /** The call that process who ends in the step at time at. */
  datatype Entry = Entry(at: nat, who: nat)

  ghost predicate Logged(run: seq<State>, e: Entry) {
    e.at + 1 < |run| && Ends(run[e.at], run[e.at + 1], e.who)
  }

  ghost predicate EntryAt(run: seq<State>, log: seq<Entry>, qs: seq<One.Request>, rs: seq<One.Reply>, k: nat)
    requires k < |log| == |qs| == |rs|
  {
    && Logged(run, log[k])
    && var p := run[log[k].at].procs[log[k].who];
    && qs[k] == AsRequest(p.op) && SameReply(p.res, rs[k])
  }

  predicate Later(log: seq<Entry>, j: nat, k: nat)
    requires j < |log| && k < |log|
  {
    log[j].at < log[k].at
  }

  /** The log has every call that ends before time t, in order of time, with its request and
      its reply. */
  ghost predicate LogOf(run: seq<State>, t: nat, log: seq<Entry>, qs: seq<One.Request>, rs: seq<One.Reply>) {
    && |log| == |qs| == |rs|
    && (forall k :: 0 <= k < |log| ==> EntryAt(run, log, qs, rs, k) && log[k].at < t)
    && (forall j, k :: 0 <= j < k < |log| ==> Later(log, j, k))
    && (forall e :: Logged(run, e) && e.at < t ==> e in log)
  }

  lemma OneEnds(s: State, s': State, i: nat, j: nat)
    requires Step(s, s') && Ends(s, s', i) && Ends(s, s', j)
    ensures i == j
  {
    var k: nat :| StepBy(s, s', k);
    assert forall n: nat :: n < |s.procs| && n != k ==> s'.procs[n] == s.procs[n];
  }

  lemma LogMore(run: seq<State>, t: nat, log: seq<Entry>, qs: seq<One.Request>, rs: seq<One.Reply>, i: nat,
      q: One.Request, r: One.Reply)
    requires Run(run) && LogOf(run, t, log, qs, rs) && t + 1 < |run| && Ends(run[t], run[t + 1], i)
    requires q == AsRequest(run[t].procs[i].op) && SameReply(run[t].procs[i].res, r)
    ensures LogOf(run, t + 1, log + [Entry(t, i)], qs + [q], rs + [r])
  {
    var log', qs', rs' := log + [Entry(t, i)], qs + [q], rs + [r];
    forall k | 0 <= k < |log'| ensures EntryAt(run, log', qs', rs', k) && log'[k].at < t + 1 {
      if k < |log| { assert EntryAt(run, log, qs, rs, k); }
    }
    forall j, k | 0 <= j < k < |log'| ensures Later(log', j, k) {
      if k < |log| { assert Later(log, j, k); } else { assert EntryAt(run, log, qs, rs, j); }
    }
    assert StepAt(run, t);
    forall e | Logged(run, e) && e.at < t + 1 ensures e in log' {
      if e.at == t { OneEnds(run[t], run[t + 1], e.who, i); }
      assert log'[|log|] == Entry(t, i);
    }
  }

  lemma LogSame(run: seq<State>, t: nat, log: seq<Entry>, qs: seq<One.Request>, rs: seq<One.Reply>)
    requires LogOf(run, t, log, qs, rs) && t + 1 < |run| && forall i: nat :: !Logged(run, Entry(t, i))
    ensures LogOf(run, t + 1, log, qs, rs)
  {
    forall k | 0 <= k < |log| ensures EntryAt(run, log, qs, rs, k) && log[k].at < t + 1 {}
    forall e | Logged(run, e) && e.at < t + 1 ensures e in log { assert e.at == t ==> Logged(run, Entry(t, e.who)); }
  }

  lemma {:induction false} AfterPrefix(m: Table, qs: seq<One.Request>, q: One.Request, n: nat)
    requires n <= |qs|
    ensures One.AfterAll(m, qs + [q], n) == One.AfterAll(m, qs, n)
  {
    if n > 0 { AfterPrefix(m, qs, q, n - 1); }
  }

  lemma AnsweredMore(m: Table, qs: seq<One.Request>, rs: seq<One.Reply>, q: One.Request)
    requires One.Answered(m, qs, rs) && |rs| == |qs|
    ensures var r := One.Answer(One.AfterAll(m, qs, |qs|), q);
            && One.Answered(m, qs + [q], rs + [r])
            && One.AfterAll(m, qs + [q], |qs| + 1) == One.After(One.AfterAll(m, qs, |qs|), q)
  {
    var r := One.Answer(One.AfterAll(m, qs, |qs|), q);
    AfterPrefix(m, qs, q, |qs|);
    forall k | 0 <= k < |rs| + 1 ensures One.AnsweredAt(m, qs + [q], rs + [r], k) {
      if k < |rs| {
        assert One.AnsweredAt(m, qs, rs, k);
        AfterPrefix(m, qs, q, k);
      }
    }
  }

  ghost predicate SerialLog(run: seq<State>, ms: seq<Table>, t: nat, log: seq<Entry>, qs: seq<One.Request>,
      rs: seq<One.Reply>)
    requires t < |ms|
  {
    && LogOf(run, t, log, qs, rs) && One.Answered(map[], qs, rs) && |rs| == |qs|
    && ms[t] == One.AfterAll(map[], qs, |qs|)
  }

  lemma LogNext(run: seq<State>, ms: seq<Table>, t: nat, log: seq<Entry>, qs: seq<One.Request>, rs: seq<One.Reply>,
      i: nat)
    requires Run(run) && Serial(run, ms) && |ms| == |run| && t + 1 < |run|
    requires SerialLog(run, ms, t, log, qs, rs) && Logged(run, Entry(t, i))
    ensures var q := AsRequest(run[t].procs[i].op);
            SerialLog(run, ms, t + 1, log + [Entry(t, i)], qs + [q], rs + [One.Answer(ms[t], q)])
  {
    var p := run[t].procs[i];
    CallMeans(run, ms, t, i);
    MeansOne(p.op, ms[t], ms[t + 1], p.res);
    AnsweredMore(map[], qs, rs, AsRequest(p.op));
    LogMore(run, t, log, qs, rs, i, AsRequest(p.op), One.Answer(ms[t], AsRequest(p.op)));
  }

  lemma NoneEnds(s: State, s': State, m: Table, m': Table)
    requires SerialStep(s, m, s', m') && forall i: nat :: !Ends(s, s', i)
    ensures m' == m
  {
  }

  lemma LogKept(run: seq<State>, ms: seq<Table>, t: nat, log: seq<Entry>, qs: seq<One.Request>, rs: seq<One.Reply>)
    requires Serial(run, ms) && |ms| == |run| && t + 1 < |run|
    requires SerialLog(run, ms, t, log, qs, rs) && forall i: nat :: !Logged(run, Entry(t, i))
    ensures SerialLog(run, ms, t + 1, log, qs, rs)
  {
    assert SerialAt(run, ms, t);
    var s, s' := run[t], run[t + 1];
    forall i: nat ensures !Ends(s, s', i) { assert !Logged(run, Entry(t, i)); }
    NoneEnds(s, s', ms[t], ms[t + 1]);
    LogSame(run, t, log, qs, rs);
  }

  lemma {:induction false} Log(run: seq<State>, ms: seq<Table>, t: nat)
    returns (log: seq<Entry>, qs: seq<One.Request>, rs: seq<One.Reply>)
    requires Run(run) && Serial(run, ms) && |ms| == |run| && t < |run|
    ensures SerialLog(run, ms, t, log, qs, rs)
  {
    if t == 0 {
      log, qs, rs := [], [], [];
    } else {
      var u := t - 1;
      log, qs, rs := Log(run, ms, u);
      if i: nat :| Logged(run, Entry(u, i)) {
        LogNext(run, ms, u, log, qs, rs, i);
        var q := AsRequest(run[u].procs[i].op);
        log, qs, rs := log + [Entry(u, i)], qs + [q], rs + [One.Answer(ms[u], q)];
      } else {
        LogKept(run, ms, u, log, qs, rs);
      }
    }
  }

  /** Every run of any number of processes gives every call the answer that one process gets
      that makes the same calls one after the other, in the order in which they unlock; at the
      end the files hold what those calls leave, in the chains that no process is writing. */
  lemma Sequential(run: seq<State>) returns (log: seq<Entry>, qs: seq<One.Request>, rs: seq<One.Reply>)
    requires Run(run)
    ensures LogOf(run, |run| - 1, log, qs, rs) && One.Answered(map[], qs, rs) && |rs| == |qs|
    ensures Holds(run[|run| - 1], One.AfterAll(map[], qs, |qs|))
  {
    var ms := Linearizable(run);
    log, qs, rs := Log(run, ms, |run| - 1);
  }
}
