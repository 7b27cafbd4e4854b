/** Filling in socket types and ports of a list of addresses (ga_port.c, ga_clone.c,
    ga_serv.c): what the calls do to the list as a sequence of entries. */
module Gai {
  import opened Basics

  datatype Family = Inet | Inet6 | Local

  /** An addrinfo with its socket address.  clone: the AI_CLONE flag. */
  datatype Entry = Entry(clone: bool, family: Family, socktype: int, protocol: int, canon: Option<string>,
                         host: seq<int>, port: int)

  /** A call of ga_port. */
  datatype Service = Service(socktype: int, port: int)

  function Fill(e: Entry, s: Service): Entry {
    e.(socktype := s.socktype, port := if e.family.Local? then e.port else s.port)
  }

  function Copy(e: Entry): Entry { e.(clone := false, canon := None) }

  function FillOne(e: Entry, s: Service): (r: seq<Entry>)
    ensures 1 <= |r| <= 2
  {
    if e.clone && e.socktype != 0 then [e, Fill(Copy(e), s)]
    else if e.clone || e.socktype == s.socktype then [Fill(e, s)]
    else [e]
  }

  /** The list after ga_port. */
  function FillAll(l: seq<Entry>, s: Service): seq<Entry> {
    if l == [] then [] else FillAll(l[..|l| - 1], s) + FillOne(l[|l| - 1], s)
  }

  /** ga_port counts an IPv4 or IPv6 entry whose port it sets. */
  function FoundOne(e: Entry, s: Service): nat {
    if (e.clone || e.socktype == s.socktype) && !e.family.Local? then 1 else 0
  }

  function Found(l: seq<Entry>, s: Service): nat {
    if l == [] then 0 else Found(l[..|l| - 1], s) + FoundOne(l[|l| - 1], s)
  }

  /** Entries that ga_port clones. */
  function Clones(l: seq<Entry>): nat {
    if l == [] then 0 else Clones(l[..|l| - 1]) + if l[|l| - 1].clone && l[|l| - 1].socktype != 0 then 1 else 0
  }

  // ---------------------------------------------------------------- several calls

  const SOCK_STREAM := 1
  const SOCK_DGRAM := 2

  /** The service string: a port number, or a name with the ports that the lookups give. */
  datatype Serv = Number(port: int) | Name(tcp: Option<int>, udp: Option<int>)

  /** The calls that ga_serv makes for the socket type of the hints. */
  function Calls(serv: Serv, socktype: int): seq<Service> {
    match serv
    case Number(port) =>
      if socktype != 0 then [Service(socktype, port)] else [Service(SOCK_STREAM, port), Service(SOCK_DGRAM, port)]
    case Name(tcp, udp) =>
      (if (socktype == 0 || socktype == SOCK_STREAM) && tcp.Some? then [Service(SOCK_STREAM, tcp.value)] else [])
      + (if (socktype == 0 || socktype == SOCK_DGRAM) && udp.Some? then [Service(SOCK_DGRAM, udp.value)] else [])
  }

  function FillEach(l: seq<Entry>, ss: seq<Service>): seq<Entry> {
    if ss == [] then l else FillAll(FillEach(l, ss[..|ss| - 1]), ss[|ss| - 1])
  }

  /** Entries found by all the calls. */
  function FoundEach(l: seq<Entry>, ss: seq<Service>): nat {
    if ss == [] then 0 else FoundEach(l, ss[..|ss| - 1]) + Found(FillEach(l, ss[..|ss| - 1]), ss[|ss| - 1])
  }

  /** The socket types are distinct and not 0. */
  predicate Distinct(ss: seq<Service>) { forall i :: 0 <= i < |ss| ==> New(ss, i) }

  predicate New(ss: seq<Service>, i: nat)
    requires i < |ss|
  {
    ss[i].socktype != 0 && Differs(ss[..i], ss[i])
  }

  predicate Differs(ss: seq<Service>, s: Service) { forall j :: 0 <= j < |ss| ==> ss[j].socktype != s.socktype }

  /** The entry as it comes from the host search without a socket type. */
  predicate Unset(e: Entry) { e.clone && e.socktype == 0 && !e.family.Local? }

  /** What becomes of one address: the entry itself with the first service, then its
      copies, the latest first. */
  function Copies(e: Entry, ss: seq<Service>): (r: seq<Entry>)
    requires ss != []
    ensures |r| == |ss| - 1
  {
    if |ss| == 1 then [] else [Fill(Copy(e), ss[|ss| - 1])] + Copies(e, ss[..|ss| - 1])
  }

  function Group(e: Entry, ss: seq<Service>): (r: seq<Entry>)
    requires ss != []
    ensures |r| == |ss|
  {
    [Fill(e, ss[0])] + Copies(e, ss)
  }

  function Groups(l: seq<Entry>, ss: seq<Service>): seq<Entry>
    requires ss != []
  {
    if l == [] then [] else Groups(l[..|l| - 1], ss) + Group(l[|l| - 1], ss)
  }

  lemma {:induction false} FillAppend(a: seq<Entry>, b: seq<Entry>, s: Service)
    ensures FillAll(a + b, s) == FillAll(a, s) + FillAll(b, s)
  {
    if b == [] {
      assert a + b == a;
    } else {
      var n := |b| - 1;
      assert (a + b)[..|a + b| - 1] == a + b[..n];
      FillAppend(a, b[..n], s);
    }
  }

  lemma {:induction false} FoundAppend(a: seq<Entry>, b: seq<Entry>, s: Service)
    ensures Found(a + b, s) == Found(a, s) + Found(b, s)
  {
    if b == [] {
      assert a + b == a;
    } else {
      var n := |b| - 1;
      assert (a + b)[..|a + b| - 1] == a + b[..n];
      FoundAppend(a, b[..n], s);
    }
  }

  predicate Passes(e: Entry, s: Service) { !e.clone && e.socktype != s.socktype }

  lemma PassesOne(e: Entry, s: Service)
    requires Passes(e, s)
    ensures FillOne(e, s) == [e] && FoundOne(e, s) == 0
  {
  }

  lemma {:induction false} FillPasses(l: seq<Entry>, s: Service)
    requires forall i :: 0 <= i < |l| ==> Passes(l[i], s)
    ensures FillAll(l, s) == l && Found(l, s) == 0
  {
    if l != [] {
      var n := |l| - 1;
      FillPasses(l[..n], s);
      PassesOne(l[n], s);
      assert l == l[..n] + [l[n]];
    }
  }

  lemma {:induction false} CopiesPass(e: Entry, ss: seq<Service>, s: Service, i: nat)
    requires ss != [] && i < |ss| - 1 && Differs(ss, s)
    ensures Passes(Copies(e, ss)[i], s)
  {
    if i > 0 { CopiesPass(e, ss[..|ss| - 1], s, i - 1); }
  }

  lemma CopiesKept(e: Entry, ss: seq<Service>, s: Service)
    requires ss != [] && Differs(ss, s)
    ensures FillAll(Copies(e, ss), s) == Copies(e, ss) && Found(Copies(e, ss), s) == 0
  {
    var rest := Copies(e, ss);
    forall i | 0 <= i < |rest| ensures Passes(rest[i], s) { CopiesPass(e, ss, s, i); }
    FillPasses(rest, s);
  }

  lemma Inserted(first: Entry, copy: Entry, rest: seq<Entry>, s: Service)
    requires FillAll([first], s) == [first, copy] && Found([first], s) == 1
    requires FillAll(rest, s) == rest && Found(rest, s) == 0
    ensures FillAll([first] + rest, s) == [first, copy] + rest && Found([first] + rest, s) == 1
  {
    FillAppend([first], rest, s);
    FoundAppend([first], rest, s);
  }

  lemma TwoThen(first: Entry, copy: Entry, rest: seq<Entry>)
    ensures [first, copy] + rest == [first] + ([copy] + rest)
  {
  }

  /** One more service adds one copy right after the entry. */
  lemma GroupNext(e: Entry, ss: seq<Service>, s: Service)
    requires ss != [] && ss[0].socktype != 0 && Differs(ss, s) && Unset(e)
    ensures FillAll(Group(e, ss), s) == Group(e, ss + [s]) && Found(Group(e, ss), s) == 1
  {
    var first, rest := Fill(e, ss[0]), Copies(e, ss);
    CopiesKept(e, ss, s);
    FillFirst(first, e, ss[0], s);
    Inserted(first, Fill(Copy(e), s), rest, s);
    TwoThen(first, Fill(Copy(e), s), rest);
    CopiesSnoc(e, ss, s);
  }

  lemma CopiesSnoc(e: Entry, ss: seq<Service>, s: Service)
    requires ss != []
    ensures Copies(e, ss + [s]) == [Fill(Copy(e), s)] + Copies(e, ss) && (ss + [s])[0] == ss[0]
  {
    assert (ss + [s])[..|ss|] == ss;
  }

  lemma FillFirst(first: Entry, e: Entry, s0: Service, s: Service)
    requires Unset(e) && first == Fill(e, s0) && s0.socktype != 0
    ensures FillAll([first], s) == [first, Fill(Copy(e), s)] && Found([first], s) == 1
  {
    assert [first][..0] == [];
    assert FillAll([], s) == [] && Found([], s) == 0;
  }

  lemma {:induction false} GroupsNext(l: seq<Entry>, ss: seq<Service>, s: Service)
    requires ss != [] && ss[0].socktype != 0 && Differs(ss, s) && forall i :: 0 <= i < |l| ==> Unset(l[i])
    ensures FillAll(Groups(l, ss), s) == Groups(l, ss + [s]) && Found(Groups(l, ss), s) == |l|
  {
    if l != [] {
      var n := |l| - 1;
      GroupsNext(l[..n], ss, s);
      GroupNext(l[n], ss, s);
      FillAppend(Groups(l[..n], ss), Group(l[n], ss), s);
      FoundAppend(Groups(l[..n], ss), Group(l[n], ss), s);
    }
  }

  lemma {:induction false} GroupsFirst(l: seq<Entry>, s: Service)
    requires forall i :: 0 <= i < |l| ==> Unset(l[i])
    ensures FillAll(l, s) == Groups(l, [s]) && Found(l, s) == |l|
  {
    if l != [] { GroupsFirst(l[..|l| - 1], s); }
  }

  /** Calls of ga_port for any number of socket types give, address by address in order,
      one entry for each type; the last call finds every address. */
  lemma {:induction false} FillEachGroups(l: seq<Entry>, ss: seq<Service>)
    requires ss != [] && Distinct(ss) && forall i :: 0 <= i < |l| ==> Unset(l[i])
    ensures FillEach(l, ss) == Groups(l, ss)
    ensures Found(FillEach(l, ss[..|ss| - 1]), ss[|ss| - 1]) == |l|
  {
    var n := |ss| - 1;
    if n == 0 {
      assert ss == [ss[0]] && FillEach(l, ss[..0]) == l;
      GroupsFirst(l, ss[0]);
    } else {
      DistinctFront(ss);
      FillEachGroups(l, ss[..n]);
      GroupsNext(l, ss[..n], ss[n]);
    }
  }

  lemma Times(a: nat, n: nat)
    ensures a * (n + 1) == a * n + a
  {
  }

  /** Every call finds every address. */
  lemma {:induction false} FoundAll(l: seq<Entry>, ss: seq<Service>, total: nat)
    requires Distinct(ss) && (forall i :: 0 <= i < |l| ==> Unset(l[i])) && total == |l| * |ss|
    ensures FoundEach(l, ss) == total
  {
    if ss != [] {
      var n := |ss| - 1;
      Times(|l|, n);
      if n > 0 { DistinctFront(ss); }
      FoundAll(l, ss[..n], total - |l|);
      FillEachGroups(l, ss);
    }
  }

  lemma DistinctFront(ss: seq<Service>)
    requires |ss| > 1 && Distinct(ss)
    ensures var n := |ss| - 1;
            Distinct(ss[..n]) && ss[0].socktype != 0 && Differs(ss[..n], ss[n]) && ss == ss[..n] + [ss[n]]
  {
    var n := |ss| - 1;
    assert New(ss, 0) && New(ss, n);
    forall i | 0 <= i < n ensures New(ss[..n], i) {
      assert New(ss, i) && ss[..n][..i] == ss[..i];
    }
  }

  /** The copy for service j. */
  lemma {:induction false} CopyAt(e: Entry, ss: seq<Service>, j: nat)
    requires 0 < j < |ss|
    ensures Copies(e, ss)[|ss| - 1 - j] == Fill(Copy(e), ss[j])
  {
    if j < |ss| - 1 { CopyAt(e, ss[..|ss| - 1], j); }
  }

  /** A group has, for each service, an entry with its type, its port and the address. */
  lemma GroupAt(e: Entry, ss: seq<Service>, j: nat)
    requires j < |ss| && Unset(e)
    ensures var k := if j == 0 then 0 else |ss| - j;
            var g := Group(e, ss)[k];
            && g.socktype == ss[j].socktype && g.port == ss[j].port && g.host == e.host && g.family == e.family
            && g.protocol == e.protocol && (if j == 0 then g.canon == e.canon else g.canon.None? && !g.clone)
  {
    if j > 0 { CopyAt(e, ss, j); }
  }

  /** In a list whose socket types were given, a call sets the port of each address with its
      type and leaves all else. */
  lemma {:induction false} TypedAt(l: seq<Entry>, s: Service, i: nat)
    requires i < |l| && forall k :: 0 <= k < |l| ==> !l[k].clone
    ensures |FillAll(l, s)| == |l|
    ensures var e, r := l[i], FillAll(l, s)[i];
            r == e.(port := if e.socktype == s.socktype && !e.family.Local? then s.port else e.port)
  {
    var n := |l| - 1;
    if n > 0 { TypedAt(l[..n], s, if i < n then i else 0); }
  }

  lemma {:induction false} GroupsLength(l: seq<Entry>, ss: seq<Service>, total: nat)
    requires ss != [] && total == |l| * |ss|
    ensures |Groups(l, ss)| == total
  {
    if l != [] {
      assert total - |ss| == (|l| - 1) * |ss|;
      GroupsLength(l[..|l| - 1], ss, total - |ss|);
    }
  }

  /** The groups follow each other in the order of the addresses. */
  lemma {:induction false} GroupsAt(l: seq<Entry>, ss: seq<Service>, i: nat, at: nat)
    requires ss != [] && i < |l| && at == i * |ss|
    ensures at + |ss| <= |Groups(l, ss)| && Groups(l, ss)[at..at + |ss|] == Group(l[i], ss)
  {
    var n := |l| - 1;
    var front := Groups(l[..n], ss);
    if i < n {
      GroupsAt(l[..n], ss, i, at);
      assert Groups(l, ss)[at..at + |ss|] == front[at..at + |ss|];
    } else {
      GroupsLength(l[..n], ss, at);
      assert Groups(l, ss)[at..at + |ss|] == Group(l[n], ss);
    }
  }

  predicate Typed(l: seq<Entry>) { forall k :: 0 <= k < |l| ==> !l[k].clone }

  /** Calls on such a list leave its length, types and families. */
  lemma {:induction false} TypedKept(l: seq<Entry>, ss: seq<Service>)
    requires Typed(l)
    ensures |FillEach(l, ss)| == |l| && Typed(FillEach(l, ss))
    ensures forall i :: 0 <= i < |l| ==> SameKind(l, FillEach(l, ss), i)
  {
    if ss != [] {
      var n := |ss| - 1;
      TypedKept(l, ss[..n]);
      var m := FillEach(l, ss[..n]);
      if m != [] { TypedAt(m, ss[n], 0); }
      forall i | 0 <= i < |l| ensures SameKind(l, FillEach(l, ss), i) && !FillEach(l, ss)[i].clone {
        assert SameKind(l, m, i);
        TypedAt(m, ss[n], i);
      }
    }
  }

  predicate SameKind(l: seq<Entry>, m: seq<Entry>, i: nat)
    requires i < |l| == |m|
  {
    m[i].socktype == l[i].socktype && m[i].family == l[i].family
  }

  predicate Fits(e: Entry, s: Service) { e.socktype == s.socktype && !e.family.Local? }

  lemma {:induction false} FoundIff(l: seq<Entry>, s: Service)
    requires Typed(l)
    ensures Found(l, s) > 0 <==> exists i :: 0 <= i < |l| && Fits(l[i], s)
  {
    if l != [] {
      var n := |l| - 1;
      FoundIff(l[..n], s);
      if i :| 0 <= i < |l| && Fits(l[i], s) { assert i < n ==> Fits(l[..n][i], s); }
      if i :| 0 <= i < n && Fits(l[..n][i], s) { assert Fits(l[i], s); }
    }
  }

  ghost predicate FitsAny(l: seq<Entry>, s: Service) { exists i :: 0 <= i < |l| && Fits(l[i], s) }

  lemma LastFound(l: seq<Entry>, ss: seq<Service>, s: Service)
    requires Typed(l)
    ensures Found(FillEach(l, ss), s) > 0 <==> FitsAny(l, s)
  {
    var m := FillEach(l, ss);
    TypedKept(l, ss);
    FoundIff(m, s);
    forall i | 0 <= i < |l| ensures Fits(m[i], s) <==> Fits(l[i], s) { assert SameKind(l, m, i); }
  }

  ghost predicate SomeFits(l: seq<Entry>, ss: seq<Service>) { exists j :: 0 <= j < |ss| && FitsAny(l, ss[j]) }

  lemma SomeFitsMore(l: seq<Entry>, ss: seq<Service>, s: Service)
    ensures SomeFits(l, ss + [s]) <==> SomeFits(l, ss) || FitsAny(l, s)
  {
    if j :| 0 <= j < |ss| && FitsAny(l, ss[j]) { assert FitsAny(l, (ss + [s])[j]); }
    if FitsAny(l, s) { assert FitsAny(l, (ss + [s])[|ss|]); }
  }

  /** In such a list the calls find something exactly if an IPv4 or IPv6 address has the type
      of one of them. */
  lemma {:induction false} TypedFound(l: seq<Entry>, ss: seq<Service>)
    requires Typed(l)
    ensures FoundEach(l, ss) > 0 <==> SomeFits(l, ss)
  {
    if ss != [] {
      var n := |ss| - 1;
      TypedFound(l, ss[..n]);
      LastFound(l, ss[..n], ss[n]);
      assert ss == ss[..n] + [ss[n]];
      SomeFitsMore(l, ss[..n], ss[n]);
    }
  }

  /** Which calls ga_serv makes: a port number is set for the type of the hints, or for both
      types; a name for each type that is asked for and under which it is found. */
  lemma CallsIff(serv: Serv, socktype: int, s: Service)
    ensures s in Calls(serv, socktype) <==>
      match serv
      case Number(port) => s.port == port && (s.socktype == socktype != 0 || (socktype == 0 && 1 <= s.socktype <= 2))
      case Name(tcp, udp) =>
        (socktype == 0 || socktype == s.socktype)
        && ((s.socktype == SOCK_STREAM && tcp == Some(s.port)) || (s.socktype == SOCK_DGRAM && udp == Some(s.port)))
    ensures forall i, j :: 0 <= i < j < |Calls(serv, socktype)| ==>
      Calls(serv, socktype)[i].socktype < Calls(serv, socktype)[j].socktype
  {
  }

  /** The calls of ga_serv are for different socket types. */
  lemma CallsDistinct(serv: Serv, socktype: int)
    ensures Distinct(Calls(serv, socktype))
  {
    var ss := Calls(serv, socktype);
    forall i | 0 <= i < |ss| ensures New(ss, i) {
      assert i == 0 || (i == 1 && ss[..1] == [ss[0]]);
    }
  }

  // ---------------------------------------------------------------- memory

  /** The allocations of all the calls: two for each entry that is cloned. */
  function Cost(l: seq<Entry>, ss: seq<Service>): nat {
    if ss == [] then 0 else Cost(l, ss[..|ss| - 1]) + 2 * Clones(FillEach(l, ss[..|ss| - 1]))
  }

  lemma CostSnoc(l: seq<Entry>, ss: seq<Service>, s: Service)
    ensures Cost(l, ss + [s]) == Cost(l, ss) + 2 * Clones(FillEach(l, ss))
    ensures FillEach(l, ss + [s]) == FillAll(FillEach(l, ss), s)
    ensures FoundEach(l, ss + [s]) == FoundEach(l, ss) + Found(FillEach(l, ss), s)
  {
    assert (ss + [s])[..|ss|] == ss;
  }

  lemma {:induction false} ClonesAppend(a: seq<Entry>, b: seq<Entry>)
    ensures Clones(a + b) == Clones(a) + Clones(b)
  {
    if b == [] {
      assert a + b == a;
    } else {
      var n := |b| - 1;
      assert (a + b)[..|a + b| - 1] == a + b[..n];
      ClonesAppend(a, b[..n]);
    }
  }

  lemma {:induction false} NoClones(l: seq<Entry>)
    requires forall i :: 0 <= i < |l| ==> !l[i].clone || l[i].socktype == 0
    ensures Clones(l) == 0
  {
    if l != [] { NoClones(l[..|l| - 1]); }
  }

  lemma {:induction false} CopiesNotCloned(e: Entry, ss: seq<Service>, i: nat)
    requires ss != [] && i < |ss| - 1
    ensures !Copies(e, ss)[i].clone
  {
    if i > 0 { CopiesNotCloned(e, ss[..|ss| - 1], i - 1); }
  }

  /** Only the first entry of a group is cloned by the next call. */
  lemma GroupClones(e: Entry, ss: seq<Service>)
    requires ss != [] && ss[0].socktype != 0 && Unset(e)
    ensures Clones(Group(e, ss)) == 1
  {
    var first, rest := Fill(e, ss[0]), Copies(e, ss);
    forall i | 0 <= i < |rest| ensures !rest[i].clone { CopiesNotCloned(e, ss, i); }
    NoClones(rest);
    ClonesAppend([first], rest);
    assert [first][..0] == [] && Clones([]) == 0;
  }

  lemma {:induction false} GroupsClones(l: seq<Entry>, ss: seq<Service>)
    requires ss != [] && ss[0].socktype != 0 && forall i :: 0 <= i < |l| ==> Unset(l[i])
    ensures Clones(Groups(l, ss)) == |l|
  {
    if l != [] {
      var n := |l| - 1;
      GroupsClones(l[..n], ss);
      GroupClones(l[n], ss);
      ClonesAppend(Groups(l[..n], ss), Group(l[n], ss));
    }
  }

  /** Two allocations for each address and each type after the first. */
  lemma {:induction false} CostOfGroups(l: seq<Entry>, ss: seq<Service>, total: nat)
    requires ss != [] && Distinct(ss) && (forall i :: 0 <= i < |l| ==> Unset(l[i])) && total == 2 * (|l| * (|ss| - 1))
    ensures Cost(l, ss) == total
  {
    var n := |ss| - 1;
    if n == 0 {
      assert ss[..0] == [];
      NoClones(l);
    } else {
      DistinctFront(ss);
      Times(|l|, n - 1);
      CostOfGroups(l, ss[..n], total - 2 * |l|);
      FillEachGroups(l, ss[..n]);
      GroupsClones(l, ss[..n]);
    }
  }
}
