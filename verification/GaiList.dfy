/** ga_port, ga_clone and ga_serv on the linked list, which grows while it is walked. */
module GaiList {
  import opened Basics
  import opened Gai

  class SockAddr {
    const host: seq<int>
    var port: int

    constructor (host: seq<int>, port: int)
      ensures this.host == host && this.port == port
    {
      this.host, this.port := host, port;
    }
  }

  class AddrInfo {
    var clone: bool
    var family: Family
    var socktype: int
    var protocol: int
    var canon: Option<string>
    var addr: SockAddr?
    var next: AddrInfo?

    /** calloc. */
    constructor ()
      ensures !clone && canon == None && addr == null && next == null
    {
      clone, family, socktype, protocol, canon, addr, next := false, Local, 0, 0, None, null, null;
    }
  }

  ghost function EntryOf(n: AddrInfo, a: SockAddr): Entry
    reads n, a
  {
    Entry(n.clone, n.family, n.socktype, n.protocol, n.canon, a.host, a.port)
  }

  ghost function At(ns: seq<AddrInfo>, i: nat): AddrInfo? { if i < |ns| then ns[i] else null }

  ghost predicate Linked(ns: seq<AddrInfo>, sa: seq<SockAddr>, i: nat)
    requires i < |ns| == |sa|
    reads ns
  {
    ns[i].next == At(ns, i + 1) && ns[i].addr == sa[i]
  }

  predicate Apart<T(==)>(s: seq<T>, i: nat, j: nat)
    requires i < |s| && j < |s|
  {
    s[i] != s[j]
  }

  ghost predicate NoneShared<T>(s: seq<T>) { forall i, j :: 0 <= i < j < |s| ==> Apart(s, i, j) }

  /** The list from head is ns, with socket addresses sa; no node and no socket address
      occurs twice. */
  ghost predicate IsList(head: AddrInfo?, ns: seq<AddrInfo>, sa: seq<SockAddr>)
    reads ns
  {
    && |ns| == |sa| && head == At(ns, 0)
    && (forall i :: 0 <= i < |ns| ==> Linked(ns, sa, i))
    && NoneShared(ns) && NoneShared(sa)
  }

  ghost function View(ns: seq<AddrInfo>, sa: seq<SockAddr>): (v: seq<Entry>)
    requires |ns| == |sa|
    reads ns, sa
    ensures |v| == |ns| && forall i :: 0 <= i < |ns| ==> v[i] == EntryOf(ns[i], sa[i])
  {
    seq(|ns|, i requires 0 <= i < |ns| reads ns, sa => EntryOf(ns[i], sa[i]))
  }

  function Insert<T>(s: seq<T>, k: nat, x: T): (r: seq<T>)
    requires k <= |s|
    ensures |r| == |s| + 1
    ensures forall i :: 0 <= i < |r| ==> r[i] == if i < k then s[i] else if i == k then x else s[i - 1]
  {
    s[..k] + [x] + s[k..]
  }

  lemma InsertApart<T>(s: seq<T>, k: nat, x: T)
    requires k <= |s| && x !in s && NoneShared(s)
    ensures NoneShared(Insert(s, k, x))
  {
    var r := Insert(s, k, x);
    forall i, j | 0 <= i < j < |r| ensures Apart(r, i, j) {
      if i != k && j != k { assert Apart(s, if i < k then i else i - 1, if j < k then j else j - 1); }
    }
  }

  /** ga_clone with memory for mem allocations.  On failure the list may already hold the
      new node. */
  method GaClone(ai: AddrInfo, mem: nat) returns (copy: AddrInfo?)
    requires ai.addr != null
    modifies ai`next
    ensures copy == null <==> mem < 2
    ensures copy != null ==>
      && fresh(copy) && copy.addr != null && fresh(copy.addr) && copy.next == old(ai.next) && ai.next == copy
      && EntryOf(copy, copy.addr) == Copy(EntryOf(ai, ai.addr))
  {
    if mem == 0 { return null; }
    copy := new AddrInfo();
    copy.next := ai.next;
    ai.next := copy;
    copy.clone := false;
    copy.family := ai.family;
    copy.socktype := ai.socktype;
    copy.protocol := ai.protocol;
    copy.canon := None;
    if mem == 1 { return null; }
    copy.addr := new SockAddr(ai.addr.host, ai.addr.port);
  }

  /** The socket type and the port are set; an IPv4 or IPv6 entry counts. */
  method FillNode(ai: AddrInfo, s: Service) returns (n: nat)
    requires ai.addr != null
    modifies ai`socktype, ai.addr`port
    ensures EntryOf(ai, ai.addr) == Fill(old(EntryOf(ai, ai.addr)), s)
    ensures n == if ai.family.Local? then 0 else 1
  {
    ai.socktype := s.socktype;
    match ai.family
    case Inet => ai.addr.port := s.port; n := 1;
    case Inet6 => ai.addr.port := s.port; n := 1;
    case Local => n := 0;
  }

  /** A copy of ai, which takes the service. */
  method CloneNode(ai: AddrInfo, s: Service, mem: nat) returns (copy: AddrInfo?, n: nat)
    requires ai.addr != null
    modifies ai`next
    ensures copy == null <==> mem < 2
    ensures copy != null ==>
      && fresh(copy) && copy.addr != null && fresh(copy.addr) && copy.next == old(ai.next) && ai.next == copy
      && EntryOf(copy, copy.addr) == Fill(Copy(EntryOf(ai, ai.addr)), s) && n == (if ai.family.Local? then 0 else 1)
  {
    n := 0;
    copy := GaClone(ai, mem);
    if copy != null { n := FillNode(copy, s); }
  }

  /** Node i is linked, unless it is node m, and has the entry v[i]. */
  ghost predicate Kept(ns: seq<AddrInfo>, sa: seq<SockAddr>, v: seq<Entry>, m: nat, i: nat)
    requires i < |ns| == |sa| == |v|
    reads ns, sa
  {
    (i != m ==> ns[i].next == At(ns, i + 1)) && ns[i].addr == sa[i] && EntryOf(ns[i], sa[i]) == v[i]
  }

  /** The list and its entries after a node has been put after position m. */
  lemma Inserted(head: AddrInfo?, ns: seq<AddrInfo>, sa: seq<SockAddr>, v: seq<Entry>, m: nat, node: AddrInfo,
      adr: SockAddr, ns1: seq<AddrInfo>, sa1: seq<SockAddr>)
    requires m < |ns| == |sa| == |v| && head == At(ns, 0) && NoneShared(ns) && NoneShared(sa) && node !in ns
      && adr !in sa
    requires ns[m].next == node && node.next == At(ns, m + 1) && node.addr == adr
    requires forall i :: 0 <= i < |ns| ==> Kept(ns, sa, v, m, i)
    requires ns1 == Insert(ns, m + 1, node) && sa1 == Insert(sa, m + 1, adr)
    ensures IsList(head, ns1, sa1) && View(ns1, sa1) == Insert(v, m + 1, EntryOf(node, adr))
  {
    InsertApart(ns, m + 1, node);
    InsertApart(sa, m + 1, adr);
    forall i | 0 <= i < |ns1|
      ensures Linked(ns1, sa1, i) && View(ns1, sa1)[i] == Insert(v, m + 1, EntryOf(node, adr))[i]
    {
      if i != m + 1 { assert Kept(ns, sa, v, m, if i <= m then i else i - 1); }
    }
  }

  lemma LinkAt(head: AddrInfo?, ns: seq<AddrInfo>, sa: seq<SockAddr>, i: nat)
    requires IsList(head, ns, sa) && i < |ns|
    ensures ns[i].next == At(ns, i + 1) && ns[i].addr == sa[i]
  {
    assert Linked(ns, sa, i);
  }

  /** A node that can be cloned, at position m: a copy with the service goes after it. */
  method VisitClone(head: AddrInfo?, ai: AddrInfo, s: Service, mem: nat, ghost ns: seq<AddrInfo>,
      ghost sa: seq<SockAddr>, ghost m: nat)
    returns (copy: AddrInfo?, n: nat, ghost ns1: seq<AddrInfo>, ghost sa1: seq<SockAddr>)
    requires IsList(head, ns, sa) && m < |ns| && ai == ns[m]
    modifies ai`next
    ensures copy == null <==> mem < 2
    ensures copy != null ==>
      && fresh(copy) && copy.addr != null && fresh(copy.addr)
      && ns1 == Insert(ns, m + 1, copy as AddrInfo) && sa1 == Insert(sa, m + 1, copy.addr as SockAddr)
      && IsList(head, ns1, sa1)
      && View(ns1, sa1) == Insert(old(View(ns, sa)), m + 1, Fill(Copy(old(EntryOf(ns[m], sa[m]))), s))
      && n == (if ai.family.Local? then 0 else 1)
  {
    LinkAt(head, ns, sa, m);
    ghost var v := View(ns, sa);
    ns1, sa1 := ns, sa;
    copy, n := CloneNode(ai, s, mem);
    if copy != null {
      ghost var node: AddrInfo, adr: SockAddr := copy, copy.addr;
      ns1, sa1 := Insert(ns, m + 1, node), Insert(sa, m + 1, adr);
      forall i | 0 <= i < |ns| ensures Kept(ns, sa, v, m, i) {
        assert old(Linked(ns, sa, i)) && (i < m ==> Apart(ns, i, m)) && (i > m ==> Apart(ns, m, i));
      }
      Inserted(head, ns, sa, v, m, node, adr, ns1, sa1);
    }
  }

  /** A node that takes the service itself. */
  method VisitOwn(head: AddrInfo?, ai: AddrInfo, s: Service, ghost ns: seq<AddrInfo>, ghost sa: seq<SockAddr>,
      ghost m: nat)
    returns (n: nat)
    requires IsList(head, ns, sa) && m < |ns| && ai == ns[m] && ai.addr != null
    modifies ai`socktype, ai.addr`port
    ensures IsList(head, ns, sa) && View(ns, sa) == old(View(ns, sa))[m := Fill(old(EntryOf(ns[m], sa[m])), s)]
    ensures n == (if ai.family.Local? then 0 else 1)
  {
    assert Linked(ns, sa, m);
    n := FillNode(ai, s);
    forall i | 0 <= i < |ns| ensures Linked(ns, sa, i) { assert old(Linked(ns, sa, i)); }
    forall i | 0 <= i < |ns| && i != m ensures View(ns, sa)[i] == old(View(ns, sa))[i] {
      if i < m { assert Apart(ns, i, m) && Apart(sa, i, m); } else { assert Apart(ns, m, i) && Apart(sa, m, i); }
    }
  }

  // ---------------------------------------------------------------- ga_port

  /** The list v after position m has been visited. */
  function Visited(v: seq<Entry>, m: nat, s: Service): seq<Entry>
    requires m < |v|
  {
    var e := v[m];
    if e.clone && e.socktype != 0 then Insert(v, m + 1, Fill(Copy(e), s))
    else if e.clone || e.socktype == s.socktype then v[m := Fill(e, s)]
    else v
  }

  /** The first k entries are done: what has become of them, those found, those cloned. */
  ghost predicate Progress(l: seq<Entry>, k: nat, s: Service, v: seq<Entry>, m: nat, found: nat, cloned: nat) {
    && k <= |l| && m == |FillAll(l[..k], s)| && v == FillAll(l[..k], s) + l[k..]
    && found == Found(l[..k], s) && cloned == Clones(l[..k])
  }

  function Cloned(e: Entry): nat { if e.clone && e.socktype != 0 then 1 else 0 }

  /** Where the walk is after position m. */
  function Past(v: seq<Entry>, m: nat): nat
    requires m < |v|
  {
    m + 1 + Cloned(v[m])
  }

  /** The rest of the walk from position m: the list at its end, the entries found and
      cloned on the way. */
  datatype Walked = Walked(list: seq<Entry>, found: int, cloned: int)

  function Walk(v: seq<Entry>, m: nat, s: Service): (w: Walked)
    ensures w.found >= 0 && w.cloned >= 0
    decreases |v| - m
  {
    if m >= |v| then Walked(v, 0, 0)
    else
      var w := Walk(Visited(v, m, s), Past(v, m), s);
      Walked(w.list, w.found + FoundOne(v[m], s), w.cloned + Cloned(v[m]))
  }

  lemma {:induction false} WalkFrom(l: seq<Entry>, k: nat, s: Service, v: seq<Entry>, m: nat, found: nat, cloned: nat)
    requires Progress(l, k, s, v, m, found, cloned)
    ensures Walk(v, m, s) == Walked(FillAll(l, s), Found(l, s) - found, Clones(l) - cloned)
    decreases |v| - m
  {
    if m >= |v| {
      ProgressEnd(l, k, s, v, m, found, cloned);
    } else {
      ProgressNext(l, k, s, v, m, found, cloned);
      WalkFrom(l, k + 1, s, Visited(v, m, s), Past(v, m), found + FoundOne(v[m], s), cloned + Cloned(v[m]));
    }
  }

  /** The walk over the growing list treats every entry of the original once. */
  lemma WalkIs(l: seq<Entry>, s: Service)
    ensures Walk(l, 0, s) == Walked(FillAll(l, s), Found(l, s), Clones(l))
  {
    ProgressStart(l, s);
    WalkFrom(l, 0, s, l, 0, 0, 0);
  }

  lemma ProgressStart(l: seq<Entry>, s: Service)
    ensures Progress(l, 0, s, l, 0, 0, 0)
  {
    assert l[..0] == [] && l[0..] == l;
  }

  lemma ProgressNext(l: seq<Entry>, k: nat, s: Service, v: seq<Entry>, m: nat, found: nat, cloned: nat)
    requires Progress(l, k, s, v, m, found, cloned) && m < |v|
    ensures k < |l| && Progress(l, k + 1, s, Visited(v, m, s), Past(v, m), found + FoundOne(v[m], s),
        cloned + Cloned(v[m]))
  {
    assert l[..k + 1][..k] == l[..k] && l[k..] == [l[k]] + l[k + 1..];
    var done, e, rest := FillAll(l[..k], s), l[k], l[k + 1..];
    VisitedIs(done, e, rest, s);
    assert done + ([e] + rest) == done + [e] + rest;
  }

  lemma VisitedIs(done: seq<Entry>, e: Entry, rest: seq<Entry>, s: Service)
    ensures var v := done + [e] + rest;
            v[|done|] == e && Visited(v, |done|, s) == done + FillOne(e, s) + rest && |FillOne(e, s)| == 1 + Cloned(e)
  {
  }

  lemma ProgressEnd(l: seq<Entry>, k: nat, s: Service, v: seq<Entry>, m: nat, found: nat, cloned: nat)
    requires Progress(l, k, s, v, m, found, cloned) && m >= |v|
    ensures v == FillAll(l, s) && found == Found(l, s) && cloned == Clones(l)
  {
    assert l[..k] == l;
  }

  ghost predicate Has(repr: set<object>, ns: seq<AddrInfo>, sa: seq<SockAddr>, i: nat)
    requires i < |ns| == |sa|
  {
    ns[i] in repr && sa[i] in repr
  }

  ghost predicate Owns(repr: set<object>, ns: seq<AddrInfo>, sa: seq<SockAddr>)
    requires |ns| == |sa|
  {
    forall i :: 0 <= i < |ns| ==> Has(repr, ns, sa, i)
  }

  lemma OwnsMore(repr: set<object>, ns: seq<AddrInfo>, sa: seq<SockAddr>, m: nat, node: AddrInfo, adr: SockAddr,
      repr1: set<object>)
    requires |ns| == |sa| && Owns(repr, ns, sa) && m <= |ns| && repr1 == repr + {node, adr}
    ensures Owns(repr1, Insert(ns, m, node), Insert(sa, m, adr))
  {
    var ns1, sa1 := Insert(ns, m, node), Insert(sa, m, adr);
    forall i | 0 <= i < |ns1| ensures Has(repr1, ns1, sa1, i) {
      if i != m { assert Has(repr, ns, sa, if i < m then i else i - 1); }
    }
  }

  /** The body of the loop; next is where the walk goes on. */
  method Visit(head: AddrInfo?, ai: AddrInfo, s: Service, mem: nat, ghost ns: seq<AddrInfo>, ghost sa: seq<SockAddr>,
      ghost m: nat, ghost repr: set<object>)
    returns (ok: bool, next: AddrInfo?, n: nat, left: nat, ghost ns1: seq<AddrInfo>, ghost sa1: seq<SockAddr>,
      ghost repr1: set<object>)
    requires IsList(head, ns, sa) && m < |ns| && ai == ns[m] && Owns(repr, ns, sa)
    modifies ns[m], sa[m]
    ensures var e := old(EntryOf(ns[m], sa[m])); var cl := e.clone && e.socktype != 0;
            && (!ok <==> mem < 2 && cl)
            && (ok ==>
                  && IsList(head, ns1, sa1) && View(ns1, sa1) == Visited(old(View(ns, sa)), m, s)
                  && next == At(ns1, Past(old(View(ns, sa)), m)) && n == FoundOne(e, s)
                  && left == mem - 2 * Cloned(e)
                  && Owns(repr1, ns1, sa1) && fresh(repr1 - repr))
  {
    LinkAt(head, ns, sa, m);
    ok, n, left, ns1, sa1, next, repr1 := true, 0, mem, ns, sa, ai.next, repr;
    if ai.clone {
      if ai.socktype != 0 {
        var copy;
        copy, n, ns1, sa1 := VisitClone(head, ai, s, mem, ns, sa, m);
        if copy == null {
          ok := false;
        } else {
          LinkAt(head, ns1, sa1, m + 1);
          left, next, repr1 := mem - 2, copy.next, repr + {copy, copy.addr};
          OwnsMore(repr, ns, sa, m + 1, copy, copy.addr, repr1);
        }
        return;
      }
    } else if ai.socktype != s.socktype {
      return;
    }
    n := VisitOwn(head, ai, s, ns, sa, m);
  }

  /** ga_port: the walk ends although it makes the list longer, every entry is treated
      once, and the copies share no storage.  -1 exactly if memory runs out. */
  method GaPort(head: AddrInfo?, s: Service, mem: nat, ghost ns0: seq<AddrInfo>, ghost sa0: seq<SockAddr>,
      ghost repr0: set<object>)
    returns (rc: int, left: nat, ghost ns: seq<AddrInfo>, ghost sa: seq<SockAddr>, ghost repr: set<object>)
    requires IsList(head, ns0, sa0) && Owns(repr0, ns0, sa0)
    modifies repr0
    ensures rc == -1 <==> mem < 2 * Clones(old(View(ns0, sa0)))
    ensures rc != -1 ==>
      && IsList(head, ns, sa) && View(ns, sa) == FillAll(old(View(ns0, sa0)), s)
      && rc == Found(old(View(ns0, sa0)), s) && left == mem - 2 * Clones(old(View(ns0, sa0)))
      && Owns(repr, ns, sa) && fresh(repr - repr0)
  {
    ghost var l := View(ns0, sa0);
    ghost var m: nat, cloned: nat := 0, 0;
    ns, sa, repr := ns0, sa0, repr0;
    left := mem;
    var nfound: nat := 0;
    var ai := head;
    WalkIs(l, s);
    while ai != null
      invariant IsList(head, ns, sa) && ai == At(ns, m)
      invariant Walk(View(ns, sa), m, s) == Walked(FillAll(l, s), Found(l, s) - nfound, Clones(l) - cloned)
      invariant left == mem - 2 * cloned
      invariant Owns(repr, ns, sa) && fresh(repr - repr0)
      decreases |ns| - m
    {
      ghost var v := View(ns, sa);
      assert Has(repr, ns, sa, m) && EntryOf(ns[m], sa[m]) == v[m];
      var ok, n;
      ok, ai, n, left, ns, sa, repr := Visit(head, ai, s, left, ns, sa, m, repr);
      if !ok { return -1, left, [], [], {}; }
      nfound := nfound + n;
      m, cloned := Past(v, m), cloned + Cloned(v[m]);
    }
    rc := nfound;
  }

  // ---------------------------------------------------------------- ga_serv

  datatype Outcome = Good | Memory | NoName | NoService

  /** After the calls done, with mem0 allocations to begin with: the entries, those found, and
      the allocations left. */
  ghost predicate Served(l: seq<Entry>, done: seq<Service>, v: seq<Entry>, nfound: nat, mem0: nat, left: int) {
    v == FillEach(l, done) && nfound == FoundEach(l, done) && left == mem0 - Cost(l, done)
  }

  /** One more call of ga_port; it fails exactly if there is less memory than all calls need. */
  method Next(head: AddrInfo?, s: Service, nfound: nat, mem: nat, ghost l: seq<Entry>, ghost done: seq<Service>,
      ghost mem0: nat, ghost ns0: seq<AddrInfo>, ghost sa0: seq<SockAddr>, ghost repr0: set<object>)
    returns (ok: bool, total: nat, left: nat, ghost ns: seq<AddrInfo>, ghost sa: seq<SockAddr>, ghost repr: set<object>)
    requires IsList(head, ns0, sa0) && Owns(repr0, ns0, sa0) && Served(l, done, View(ns0, sa0), nfound, mem0, mem)
    modifies repr0
    ensures ok ==>
      && IsList(head, ns, sa) && Owns(repr, ns, sa) && fresh(repr - repr0)
      && Served(l, done + [s], View(ns, sa), total, mem0, left)
    ensures ok <==> mem0 >= Cost(l, done + [s])
  {
    CostSnoc(l, done, s);
    var rc;
    total := nfound;
    rc, left, ns, sa, repr := GaPort(head, s, mem, ns0, sa0, repr0);
    ok := rc >= 0;
    if ok { total := nfound + rc; }
  }

  lemma ServedNone(l: seq<Entry>, mem: nat)
    ensures Served(l, [], l, 0, mem, mem) && Cost(l, []) == 0
  {
  }

  ghost predicate AllUnset(l: seq<Entry>) { forall i :: 0 <= i < |l| ==> Unset(l[i]) }

  /** Calls for any socket types, one after the other. */
  method Calling(head: AddrInfo?, ss: seq<Service>, mem: nat, ghost ns0: seq<AddrInfo>, ghost sa0: seq<SockAddr>,
                 ghost repr0: set<object>)
    returns (ok: bool, nfound: nat, ghost left: nat, ghost ns: seq<AddrInfo>, ghost sa: seq<SockAddr>,
      ghost repr: set<object>)
    requires IsList(head, ns0, sa0) && Owns(repr0, ns0, sa0)
    modifies repr0
    ensures ok ==>
      && IsList(head, ns, sa) && Owns(repr, ns, sa) && fresh(repr - repr0)
      && Served(old(View(ns0, sa0)), ss, View(ns, sa), nfound, mem, left)
    ensures ok <==> mem >= Cost(old(View(ns0, sa0)), ss)
  {
    ghost var l := View(ns0, sa0);
    ServedNone(l, mem);
    ok, nfound, ns, sa, repr := true, 0, ns0, sa0, repr0;
    var k, avail := 0, mem;
    assert ss[..0] == [];
    while ok && k < |ss|
      invariant 0 <= k <= |ss|
      invariant ok ==> IsList(head, ns, sa) && Owns(repr, ns, sa) && fresh(repr - repr0)
      invariant ok ==> Served(l, ss[..k], View(ns, sa), nfound, mem, avail)
      invariant !ok ==> mem < Cost(l, ss)
    {
      assert ss[..k + 1] == ss[..k] + [ss[k]];
      CostGrows(l, ss, k + 1);
      ok, nfound, avail, ns, sa, repr := Next(head, ss[k], nfound, avail, l, ss[..k], mem, ns, sa, repr);
      k := k + 1;
    }
    left := avail;
    assert ok ==> ss[..k] == ss;
  }

  /** Calls for any distinct socket types on addresses without one: the list on the heap is one
      group for each address, and each call finds every address.  They fail exactly if there
      is no memory for two allocations for each address and each type after the first. */
  method GaPorts(head: AddrInfo?, ss: seq<Service>, mem: nat, ghost ns0: seq<AddrInfo>, ghost sa0: seq<SockAddr>,
                 ghost repr0: set<object>)
    returns (ok: bool, nfound: nat, ghost ns: seq<AddrInfo>, ghost sa: seq<SockAddr>, ghost repr: set<object>)
    requires IsList(head, ns0, sa0) && Owns(repr0, ns0, sa0) && AllUnset(View(ns0, sa0)) && Distinct(ss) && ss != []
    modifies repr0
    ensures ok ==>
      && IsList(head, ns, sa) && Owns(repr, ns, sa) && fresh(repr - repr0)
      && View(ns, sa) == Groups(old(View(ns0, sa0)), ss) && nfound == Entries(|ns0|, |ss|)
    ensures ok <==> mem >= Allocations(|ns0|, |ss|)
  {
    AllCalls(View(ns0, sa0), ss);
    ghost var left;
    ok, nfound, left, ns, sa, repr := Calling(head, ss, mem, ns0, sa0, repr0);
  }

  lemma {:induction false} CostGrows(l: seq<Entry>, ss: seq<Service>, k: nat)
    requires k <= |ss|
    ensures Cost(l, ss[..k]) <= Cost(l, ss)
  {
    if k < |ss| {
      CostGrows(l, ss[..|ss| - 1], k);
      assert ss[..|ss| - 1][..k] == ss[..k];
    } else {
      assert ss[..k] == ss;
    }
  }

  function Entries(addrs: nat, types: nat): nat { addrs * types }

  /** Two for each address and each type after the first. */
  function Allocations(addrs: nat, types: nat): nat { if types == 0 then 0 else 2 * Entries(addrs, types - 1) }

  lemma AllCalls(l: seq<Entry>, ss: seq<Service>)
    requires AllUnset(l) && Distinct(ss) && ss != []
    ensures FillEach(l, ss) == Groups(l, ss)
    ensures FoundEach(l, ss) == Entries(|l|, |ss|) && Cost(l, ss) == Allocations(|l|, |ss|)
  {
    FillEachGroups(l, ss);
    FoundAll(l, ss, Entries(|l|, |ss|));
    CostOfGroups(l, ss, Allocations(|l|, |ss|));
  }

  /** The calls of ga_serv for a port number: one, or one for each socket type. */
  method ServNumber(head: AddrInfo?, socktype: int, port: int, mem: nat, ghost ns0: seq<AddrInfo>,
      ghost sa0: seq<SockAddr>, ghost repr0: set<object>)
    returns (ok: bool, nfound: nat, ghost left: nat, ghost ns: seq<AddrInfo>, ghost sa: seq<SockAddr>,
      ghost repr: set<object>)
    requires IsList(head, ns0, sa0) && Owns(repr0, ns0, sa0)
    modifies repr0
    ensures ok ==>
      && IsList(head, ns, sa) && Owns(repr, ns, sa) && fresh(repr - repr0)
      && Served(old(View(ns0, sa0)), Calls(Number(port), socktype), View(ns, sa), nfound, mem, left)
    ensures ok <==> mem >= Cost(old(View(ns0, sa0)), Calls(Number(port), socktype))
  {
    ghost var l := View(ns0, sa0);
    ServedNone(l, mem);
    var avail;
    if socktype != 0 {
      assert [] + [Service(socktype, port)] == Calls(Number(port), socktype);
      ok, nfound, avail, ns, sa, repr := Next(head, Service(socktype, port), 0, mem, l, [], mem, ns0, sa0, repr0);
    } else {
      ghost var one, two := [] + [Service(SOCK_STREAM, port)], Calls(Number(port), socktype);
      assert two[..1] == one && one + [Service(SOCK_DGRAM, port)] == two;
      CostGrows(l, two, 1);
      ok, nfound, avail, ns, sa, repr := Next(head, Service(SOCK_STREAM, port), 0, mem, l, [], mem, ns0, sa0, repr0);
      if ok {
        ok, nfound, avail, ns, sa, repr := Next(head, Service(SOCK_DGRAM, port), nfound, avail, l, one, mem, ns, sa,
        repr);
      }
    }
    left := avail;
  }

  /** The calls of ga_serv for a service name: TCP, then UDP, where the lookup gives a port. */
  method ServName(head: AddrInfo?, socktype: int, tcp: Option<int>, udp: Option<int>, mem: nat,
                  ghost ns0: seq<AddrInfo>, ghost sa0: seq<SockAddr>, ghost repr0: set<object>)
    returns (ok: bool, nfound: nat, ghost left: nat, ghost ns: seq<AddrInfo>, ghost sa: seq<SockAddr>,
      ghost repr: set<object>)
    requires IsList(head, ns0, sa0) && Owns(repr0, ns0, sa0)
    modifies repr0
    ensures ok ==>
      && IsList(head, ns, sa) && Owns(repr, ns, sa) && fresh(repr - repr0)
      && Served(old(View(ns0, sa0)), Calls(Name(tcp, udp), socktype), View(ns, sa), nfound, mem, left)
    ensures ok <==> mem >= Cost(old(View(ns0, sa0)), Calls(Name(tcp, udp), socktype))
  {
    ghost var l := View(ns0, sa0);
    var stream := (socktype == 0 || socktype == SOCK_STREAM) && tcp.Some?;
    var dgram := (socktype == 0 || socktype == SOCK_DGRAM) && udp.Some?;
    var s1 := Service(SOCK_STREAM, if tcp.Some? then tcp.value else 0);
    var s2 := Service(SOCK_DGRAM, if udp.Some? then udp.value else 0);
    ghost var one := [] + If(stream, s1);
    ServedNone(l, mem);
    CostOfTwo(l, one, If(dgram, s2));
    NameCalls(tcp, udp, socktype, stream, dgram, s1, s2);
    var avail;
    ok, nfound, avail, ns, sa, repr := MaybeNext(head, stream, s1, 0, mem, l, [], mem, ns0, sa0, repr0);
    if ok { ok, nfound, avail, ns, sa, repr := MaybeNext(head, dgram, s2, nfound, avail, l, one, mem, ns, sa, repr); }
    left := avail;
  }

  lemma NameCalls(tcp: Option<int>, udp: Option<int>, socktype: int, stream: bool, dgram: bool, s1: Service,
      s2: Service)
    requires stream <==> (socktype == 0 || socktype == SOCK_STREAM) && tcp.Some?
    requires dgram <==> (socktype == 0 || socktype == SOCK_DGRAM) && udp.Some?
    requires (stream ==> s1 == Service(SOCK_STREAM, tcp.value)) && (dgram ==> s2 == Service(SOCK_DGRAM, udp.value))
    ensures [] + If(stream, s1) + If(dgram, s2) == Calls(Name(tcp, udp), socktype)
  {
    assert [] + If(stream, s1) == If(stream, s1);
  }

  function If(want: bool, s: Service): seq<Service> { if want then [s] else [] }

  lemma CostOfTwo(l: seq<Entry>, one: seq<Service>, two: seq<Service>)
    ensures Cost(l, one) <= Cost(l, one + two)
  {
    CostGrows(l, one + two, |one|);
    assert (one + two)[..|one|] == one;
  }

  /** A call that is made only if wanted. */
  method MaybeNext(head: AddrInfo?, want: bool, s: Service, nfound: nat, mem: nat, ghost l: seq<Entry>,
      ghost done: seq<Service>,
      ghost mem0: nat, ghost ns0: seq<AddrInfo>, ghost sa0: seq<SockAddr>, ghost repr0: set<object>)
    returns (ok: bool, total: nat, left: nat, ghost ns: seq<AddrInfo>, ghost sa: seq<SockAddr>, ghost repr: set<object>)
    requires IsList(head, ns0, sa0) && Owns(repr0, ns0, sa0) && Served(l, done, View(ns0, sa0), nfound, mem0, mem)
    modifies repr0
    ensures ok ==>
      && IsList(head, ns, sa) && Owns(repr, ns, sa) && fresh(repr - repr0)
      && Served(l, done + If(want, s), View(ns, sa), total, mem0, left)
    ensures ok <==> mem0 >= Cost(l, done + If(want, s))
  {
    if want {
      ok, total, left, ns, sa, repr := Next(head, s, nfound, mem, l, done, mem0, ns0, sa0, repr0);
    } else {
      assert done + [] == done;
      ok, total, left, ns, sa, repr := true, nfound, mem, ns0, sa0, repr0;
    }
  }

  /** ga_serv: every call that the hints ask for is made on the list, unless memory runs
      out, which it does exactly if there is less than the calls need; the outcome says
      whether any entry was found. */
  method GaServ(head: AddrInfo?, socktype: int, serv: Serv, mem: nat, ghost ns0: seq<AddrInfo>,
      ghost sa0: seq<SockAddr>, ghost repr0: set<object>)
    returns (rc: Outcome, ghost ns: seq<AddrInfo>, ghost sa: seq<SockAddr>, ghost repr: set<object>)
    requires IsList(head, ns0, sa0) && Owns(repr0, ns0, sa0)
    modifies repr0
    ensures !rc.Memory? ==>
      && IsList(head, ns, sa) && Owns(repr, ns, sa) && fresh(repr - repr0)
      && View(ns, sa) == FillEach(old(View(ns0, sa0)), Calls(serv, socktype))
      && rc == (if FoundEach(old(View(ns0, sa0)), Calls(serv, socktype)) > 0 then Good
                else if socktype == 0 then NoName else NoService)
    ensures rc.Memory? <==> mem < Cost(old(View(ns0, sa0)), Calls(serv, socktype))
    ensures !rc.Memory? && old(AllUnset(View(ns0, sa0))) && Calls(serv, socktype) != [] ==>
      View(ns, sa) == Groups(old(View(ns0, sa0)), Calls(serv, socktype))
  {
    ghost var l := View(ns0, sa0);
    if AllUnset(l) && Calls(serv, socktype) != [] {
      CallsDistinct(serv, socktype);
      FillEachGroups(l, Calls(serv, socktype));
    }
    var ok, nfound;
    ghost var left;
    match serv {
      case Number(port) => ok, nfound, left, ns, sa, repr := ServNumber(head, socktype, port, mem, ns0, sa0, repr0);
      case Name(tcp, udp) => ok, nfound, left, ns, sa, repr := ServName(head, socktype, tcp, udp, mem, ns0, sa0, repr0);
    }
    if !ok { return Memory, ns, sa, repr; }
    rc := if nfound == 0 then (if socktype == 0 then NoName else NoService) else Good;
  }
}
