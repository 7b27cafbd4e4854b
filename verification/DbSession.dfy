/** Any sequence of operations on the database, against a map from keys to data. */
module DbSession {
  import opened Basics
  import opened DbFormat
  import opened Db

  datatype Request = Get(key: string) | Put(key: string, data: string, flag: Flag) | Del(key: string)

  datatype Reply = Value(value: Option<string>) | Stored(rc: StoreResult) | Deleted(found: bool)

  /** Keys and data that the callers of db_store may use. */
  predicate Legal(q: Request) { q.Put? ==> NoNul(q.key) && NoSep(q.key) && NoNul(q.data) }

  type Contents = map<string, string>

  /** What the map says db_store returns when it does not stop for want of room. */
  function Expect(m: Contents, key: string, flag: Flag): StoreResult {
    if flag.OtherFlag? then Invalid
    else if key in m then (if flag.Insert? then Exists else Ok)
    else if flag.Replace? then Missing else Ok
  }

  function After(m: Contents, q: Request): Contents {
    match q
    case Get(_) => m
    case Put(key, data, flag) => if Expect(m, key, flag) == Ok then m[key := data] else m
    case Del(key) => m - {key}
  }

  function Answer(m: Contents, q: Request): Reply {
    match q
    case Get(key) => Value(if key in m then Some(m[key]) else None)
    case Put(key, _, flag) => Stored(Expect(m, key, flag))
    case Del(key) => Deleted(key in m)
  }

  /** The map after the first n requests. */
  function AfterAll(m: Contents, qs: seq<Request>, n: nat): Contents
    requires n <= |qs|
  {
    if n == 0 then m else After(AfterAll(m, qs, n - 1), qs[n - 1])
  }

  // ---------------------------------------------------------------- room

  /** Bytes that the request may add to the index file: a record, whose data offset has at
      most seven digits and whose data length at most four. */
  function IdxNeed(q: Request): nat { if q.Put? then |q.key| + 25 else 0 }

  function DatNeed(q: Request): nat { if q.Put? then |q.data| + 1 else 0 }

  function IdxNeeds(qs: seq<Request>, n: nat): nat
    requires n <= |qs|
  {
    if n == 0 then 0 else IdxNeeds(qs, n - 1) + IdxNeed(qs[n - 1])
  }

  function DatNeeds(qs: seq<Request>, n: nat): nat
    requires n <= |qs|
  {
    if n == 0 then 0 else DatNeeds(qs, n - 1) + DatNeed(qs[n - 1])
  }

  /** A key and data that the record formats have room for. */
  predicate Small(q: Request) {
    q.Put? ==> 1 <= |q.key| <= IDXLEN_MAX - 14 && DATLEN_MIN <= |q.data| + 1 <= DATLEN_MAX
  }

  /** Every key and data is small, and the pointers can address both files even if every
      store of the sequence adds to them. */
  predicate Room(idxlen: nat, datlen: nat, qs: seq<Request>) {
    && (forall i :: 0 <= i < |qs| ==> Small(qs[i]))
    && idxlen + IdxNeeds(qs, |qs|) <= PTR_MAX
    && datlen + DatNeeds(qs, |qs|) <= PTR_MAX
  }

  /** The files are at most as long as the first n requests can have made them. */
  predicate Within(idxlen: nat, datlen: nat, qs: seq<Request>, n: nat, idxlen': nat, datlen': nat)
    requires n <= |qs|
  {
    idxlen' <= idxlen + IdxNeeds(qs, n) && datlen' <= datlen + DatNeeds(qs, n)
  }

  lemma {:induction false} NeedsGrow(qs: seq<Request>, n: nat, k: nat)
    requires n <= k <= |qs|
    ensures IdxNeeds(qs, n) <= IdxNeeds(qs, k) && DatNeeds(qs, n) <= DatNeeds(qs, k)
    decreases k
  {
    if n < k { NeedsGrow(qs, n, k - 1); }
  }

  lemma RecordFits(q: Request, datoff: nat)
    requires q.Put? && Small(q) && datoff <= PTR_MAX
    ensures IDXLEN_MIN <= |Body(q.key, datoff, |q.data| + 1)| <= IDXLEN_MAX
    ensures RecSize(q.key, datoff, |q.data| + 1) <= IdxNeed(q)
  {
    DecWidth(datoff, 7, 10000000);
    DecWidth(|q.data| + 1, 4, 10000);
  }

  /** Where there is room for all requests, the next one is not stopped. */
  lemma NotStopped(s: State, idxlen: nat, datlen: nat, qs: seq<Request>, n: nat)
    requires Room(idxlen, datlen, qs) && n < |qs| && Within(idxlen, datlen, qs, n, |s.idx|, |s.dat|)
    requires qs[n].Put?
    ensures StoreOutcome(s, qs[n].key, qs[n].data, qs[n].flag) != Fatal
  {
    NeedsGrow(qs, n, |qs|);
    assert Small(qs[n]);
    RecordFits(qs[n], |s.dat|);
  }

  lemma StillWithin(idxlen: nat, datlen: nat, qs: seq<Request>, n: nat, s: State, t: State)
    requires Room(idxlen, datlen, qs) && n < |qs| && Within(idxlen, datlen, qs, n, |s.idx|, |s.dat|)
    requires Adds(s, t, qs[n])
    ensures Within(idxlen, datlen, qs, n + 1, |t.idx|, |t.dat|)
  {
    NeedsGrow(qs, n, |qs|);
    assert Small(qs[n]);
    if qs[n].Put? { RecordFits(qs[n], |s.dat|); }
  }

  /** Only a store makes the files longer. */
  ghost predicate Adds(s: State, t: State, q: Request) {
    if q.Put? then Grown(s, t, q.key, q.data) else |t.idx| == |s.idx| && |t.dat| == |s.dat|
  }

  // ---------------------------------------------------------------- serving

  /** One request; false if db_store stopped the process. */
  method Serve(h: Handle, q: Request) returns (ok: bool, r: Reply)
    requires h.files.Valid() && Legal(q)
    modifies h, h.files
    ensures ok ==>
      && h.files.Valid() && r == Answer(old(h.files.contents), q) && h.files.contents == After(old(h.files.contents), q)
      && Adds(old(h.files.Snapshot()), h.files.Snapshot(), q)
    ensures !ok <==> q.Put? && StoreOutcome(old(h.files.Snapshot()), q.key, q.data, q.flag) == Fatal
    ensures !ok ==> h.files.contents == StoppedMap(old(h.files.contents), q.key, q.data)
  {
    ok := true;
    match q {
      case Get(key) =>
        var v := h.Fetch(key);
        r := Value(v);
      case Put(key, data, flag) =>
        var rc := h.Store(key, data, flag);
        ok, r := rc != Fatal, Stored(rc);
      case Del(key) =>
        var found := h.Delete(key);
        r := Deleted(found);
    }
  }

  ghost predicate AnsweredAt(m: Contents, qs: seq<Request>, rs: seq<Reply>, i: nat)
    requires i < |rs| <= |qs|
  {
    rs[i] == Answer(AfterAll(m, qs, i), qs[i])
  }

  /** The first |rs| requests are answered as the map answers them. */
  ghost predicate Answered(m: Contents, qs: seq<Request>, rs: seq<Reply>) {
    |rs| <= |qs| && forall i :: 0 <= i < |rs| ==> AnsweredAt(m, qs, rs, i)
  }

  lemma AnsweredNext(m: Contents, qs: seq<Request>, rs: seq<Reply>, r: Reply)
    requires Answered(m, qs, rs) && |rs| < |qs| && r == Answer(AfterAll(m, qs, |rs|), qs[|rs|])
    ensures Answered(m, qs, rs + [r])
  {
    forall i | 0 <= i < |rs| + 1 ensures AnsweredAt(m, qs, rs + [r], i) {
      if i < |rs| { assert AnsweredAt(m, qs, rs, i); }
    }
  }

  /** A store of the files s, which hold the map m, stops the process. */
  ghost predicate StopsAt(s: State, m: Contents, q: Request) {
    Sound(s) && s.m == m && q.Put? && StoreOutcome(s, q.key, q.data, q.flag) == Fatal
  }

  /** Every request of any sequence is answered as the map answers it, up to a store that
      stops the process on the files as the requests before it left them.  There is no such
      store if there is room. */
  method Serving(h: Handle, qs: seq<Request>) returns (rs: seq<Reply>, ghost last: State)
    requires h.files.Valid() && forall i :: 0 <= i < |qs| ==> Legal(qs[i])
    modifies h, h.files
    ensures Answered(old(h.files.contents), qs, rs)
    ensures |rs| == |qs| ==> h.files.Valid() && h.files.contents == AfterAll(old(h.files.contents), qs, |qs|)
    ensures |rs| < |qs| ==>
      && StopsAt(last, AfterAll(old(h.files.contents), qs, |rs|), qs[|rs|])
      && h.files.contents == StoppedMap(last.m, qs[|rs|].key, qs[|rs|].data)
    ensures Room(|old(h.files.idx)|, |old(h.files.dat)|, qs) ==> |rs| == |qs|
  {
    ghost var m, i, d := h.files.contents, |h.files.idx|, |h.files.dat|;
    rs := [];
    last := h.files.Snapshot();
    while |rs| < |qs|
      invariant Answered(m, qs, rs)
      invariant h.files.Valid() && h.files.contents == AfterAll(m, qs, |rs|)
      invariant Room(i, d, qs) ==> Within(i, d, qs, |rs|, |h.files.idx|, |h.files.dat|)
      decreases |qs| - |rs|
    {
      last := h.files.Snapshot();
      if Room(i, d, qs) && qs[|rs|].Put? { NotStopped(last, i, d, qs, |rs|); }
      var ok, r := Serve(h, qs[|rs|]);
      if !ok { return; }
      if Room(i, d, qs) { StillWithin(i, d, qs, |rs|, last, h.files.Snapshot()); }
      AnsweredNext(m, qs, rs, r);
      rs := rs + [r];
    }
  }

  predicate Touches(q: Request, key: string) { !q.Get? && q.key == key }

  /** What a fetch finds is what the last request that changed the key left: the data of a
      store that succeeded, or nothing after a delete. */
  lemma {:induction false} LastChange(m: Contents, qs: seq<Request>, i: nat, n: nat, key: string)
    requires i < n <= |qs| && qs[i].key == key && forall j :: i < j < n ==> !Touches(qs[j], key)
    ensures var before := AfterAll(m, qs, i); var end := AfterAll(m, qs, n);
            && (qs[i].Del? ==> key !in end)
            && (qs[i].Put? && Expect(before, key, qs[i].flag) == Ok ==> key in end && end[key] == qs[i].data)
  {
    if n > i + 1 {
      LastChange(m, qs, i, n - 1, key);
      assert !Touches(qs[n - 1], key);
    }
  }
}
