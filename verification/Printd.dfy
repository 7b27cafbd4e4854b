/** The queue of print jobs (printd.c): a doubly linked list under joblock, filled by client
    threads and emptied by the printer thread, which may put a job back. */
module Printd {

  class Job {
    const id: int
    var next: Job?
    var prev: Job?

    constructor (id: int)
      ensures this.id == id && next == null
    {
      this.id, next, prev := id, null, null;
    }
  }

  ghost function At(js: seq<Job>, i: int): Job? { if 0 <= i < |js| then js[i] else null }

  ghost predicate Linked(js: seq<Job>, i: nat)
    requires i < |js|
    reads js
  {
    js[i].next == At(js, i + 1) && js[i].prev == At(js, i - 1)
  }

  predicate Differ(js: seq<Job>, i: nat, j: nat)
    requires i < |js| && j < |js|
  {
    js[i] != js[j]
  }

  ghost predicate Distinct(js: seq<Job>) { forall i, j :: 0 <= i < j < |js| ==> Differ(js, i, j) }

  function Without(js: seq<Job>, k: nat): (r: seq<Job>)
    requires k < |js|
    ensures |r| == |js| - 1 && forall i :: 0 <= i < |r| ==> r[i] == js[if i < k then i else i + 1]
  {
    js[..k] + js[k + 1..]
  }

  class Queue {
    var head: Job?
    var tail: Job?
    ghost var jobs: seq<Job>

    /** The list in both directions is jobs, each once. */
    ghost predicate Valid()
      reads this, jobs
    {
      && head == At(jobs, 0) && tail == At(jobs, |jobs| - 1)
      && (forall i :: 0 <= i < |jobs| ==> Linked(jobs, i))
      && Distinct(jobs)
    }

    constructor ()
      ensures Valid() && jobs == []
    {
      head, tail, jobs := null, null, [];
    }

    /** add_job: at the end. */
    method AddJob(id: int) returns (jp: Job)
      requires Valid()
      modifies this, jobs
      ensures Valid() && fresh(jp) && jp.id == id && jobs == old(jobs) + [jp]
    {
      jp := new Job(id);
      jp.prev := tail;
      if tail == null {
        head := jp;
      } else {
        assert Linked(jobs, |jobs| - 1);
        tail.next := jp;
      }
      tail := jp;
      ghost var js := jobs;
      jobs := jobs + [jp];
      forall i | 0 <= i < |jobs| ensures Linked(jobs, i) {
        if i < |js| {
          assert old(Linked(js, i));
          if i < |js| - 1 { assert Differ(js, i, |js| - 1); }
        }
      }
      forall i, j | 0 <= i < j < |jobs| ensures Differ(jobs, i, j) {
        if j < |js| { assert Differ(js, i, j); }
      }
    }

    /** replace_job: back at the front. */
    method ReplaceJob(jp: Job)
      requires Valid() && jp !in jobs
      modifies this, jobs, jp
      ensures Valid() && jobs == [jp] + old(jobs)
    {
      jp.prev := null;
      jp.next := head;
      if head == null {
        tail := jp;
      } else {
        head.prev := jp;
      }
      head := jp;
      ghost var js := jobs;
      jobs := [jp] + jobs;
      forall i | 0 <= i < |jobs| ensures Linked(jobs, i) {
        if i > 0 {
          assert old(Linked(js, i - 1));
          if i > 1 { assert Differ(js, 0, i - 1); }
        }
      }
      forall i, j | 0 <= i < j < |jobs| ensures Differ(jobs, i, j) {
        if i > 0 { assert Differ(js, i - 1, j - 1); }
      }
    }

    /** remove_job: from anywhere in the list. */
    method RemoveJob(target: Job, ghost k: nat)
      requires Valid() && k < |jobs| && jobs[k] == target
      modifies this, jobs
      ensures Valid() && jobs == Without(old(jobs), k) && target !in jobs
    {
      assert Linked(jobs, k);
      if target.next != null {
        target.next.prev := target.prev;
      } else {
        tail := target.prev;
      }
      if target.prev != null {
        target.prev.next := target.next;
      } else {
        head := target.next;
      }
      ghost var js := jobs;
      jobs := Without(jobs, k);
      forall i | 0 <= i < |js| ensures Unlinked(js, k, i) {
        assert old(Linked(js, i)) && (i < k ==> Differ(js, i, k)) && (k < i ==> Differ(js, k, i));
        assert (i < k - 1 ==> Differ(js, i, k - 1)) && (i > k - 1 >= 0 ==> Differ(js, k - 1, i));
        assert (i < k + 1 < |js| ==> Differ(js, i, k + 1)) && (i > k + 1 ==> Differ(js, k + 1, i));
      }
      forall i | 0 <= i < |jobs| ensures Linked(jobs, i) {
        assert Unlinked(js, k, if i < k then i else i + 1);
      }
      forall i, j | 0 <= i < j < |jobs| ensures Differ(jobs, i, j) {
        assert Differ(js, if i < k then i else i + 1, if j < k then j else j + 1);
      }
      forall i | 0 <= i < |jobs| ensures jobs[i] != target {
        if i < k { assert Differ(js, i, k); } else { assert Differ(js, k, i + 1); }
      }
    }
  }

  /** The neighbours of job k point past it. */
  ghost predicate Unlinked(js: seq<Job>, k: nat, i: nat)
    requires i < |js|
    reads js
  {
    && js[i].next == (if i == k - 1 then At(js, k + 1) else At(js, i + 1))
    && js[i].prev == (if i == k + 1 then At(js, k - 1) else At(js, i - 1))
  }

  // ---------------------------------------------------------------- the server

  function Ids(js: seq<Job>): (r: seq<int>)
    ensures |r| == |js| && forall i :: 0 <= i < |js| ==> r[i] == js[i].id
  {
    seq(|js|, i requires 0 <= i < |js| => js[i].id)
  }

  ghost predicate AllIn(js: seq<Job>, repr: set<Job>) { forall i :: 0 <= i < |js| ==> js[i] in repr }

  lemma FrontGone(js: seq<Job>, repr: set<Job>)
    requires js != [] && AllIn(js, repr)
    ensures AllIn(Without(js, 0), repr)
  {
    var rest := Without(js, 0);
    forall i | 0 <= i < |rest| ensures rest[i] in repr { assert rest[i] == js[i + 1]; }
  }

  lemma IdsFront(js: seq<Job>)
    requires js != []
    ensures Ids(js) == [js[0].id] + Ids(Without(js, 0))
  {
    var rest, ids := Without(js, 0), Ids(js);
    var r := Ids(rest);
    forall i | 0 <= i < |ids| ensures ids[i] == ([js[0].id] + r)[i] {
      assert i > 0 ==> r[i - 1] == rest[i - 1].id;
    }
  }

  lemma Regroup(a: seq<int>, b: seq<int>, c: seq<int>)
    ensures a + (b + c) == a + b + c
  {
  }

  /** What threads do under joblock, in any order: a client adds a job, the printer thread
      takes one, ends it (printed or cancelled) or defers it. */
  datatype Action = Add(id: int) | Take | End | Defer

  class Server {
    const queue: Queue
    var held: Job?
    ghost var added: seq<int>
    ghost var ended: seq<int>
    ghost var repr: set<Job>

    ghost function Held(): seq<int>
      reads this
    {
      if held == null then [] else [held.id]
    }

    /** Ended jobs, the held job and the queue are the jobs added, in their order. */
    ghost predicate Valid()
      reads this, queue, repr, queue.jobs
    {
      && queue.Valid() && (held != null ==> held in repr && held !in queue.jobs)
      && AllIn(queue.jobs, repr)
      && added == ended + Held() + Ids(queue.jobs)
    }

    constructor ()
      ensures Valid() && fresh(queue) && added == [] && ended == [] && repr == {}
    {
      queue := new Queue();
      held, added, ended, repr := null, [], [], {};
    }

    method Add(id: int)
      requires Valid()
      modifies this`added, this`repr, queue, repr
      ensures Valid() && added == old(added) + [id] && ended == old(ended) && held == old(held)
        && fresh(repr - old(repr))
      ensures |queue.jobs| == |old(queue.jobs)| + 1
    {
      ghost var js := queue.jobs;
      var jp := queue.AddJob(id);
      added := added + [id];
      repr := repr + {jp};
      assert Ids(queue.jobs) == Ids(js) + [id];
    }

    /** The printer thread picks up the first job; it waits while there is none. */
    method Take()
      requires Valid() && held == null
      modifies this`held, queue, repr
      ensures Valid() && added == old(added) && ended == old(ended)
      ensures held == null <==> old(queue.jobs) == []
      ensures |queue.jobs| == |old(queue.jobs)| - if held == null then 0 else 1
    {
      if queue.head != null {
        ghost var js := queue.jobs;
        var jp := queue.head;
        queue.RemoveJob(jp, 0);
        held := jp;
        FrontGone(js, repr);
        IdsFront(js);
        Regroup(ended, [held.id], Ids(queue.jobs));
      }
    }

    /** The job has been printed, or cannot be opened. */
    method End()
      requires Valid() && held != null
      modifies this`held, this`ended
      ensures Valid() && added == old(added) && ended == old(ended) + [old(held).id] && held == null
    {
      ended := ended + [held.id];
      held := null;
    }

    method Defer()
      requires Valid() && held != null
      modifies this`held, queue, repr
      ensures Valid() && added == old(added) && ended == old(ended) && held == null
      ensures |queue.jobs| == |old(queue.jobs)| + 1
    {
      ghost var js := queue.jobs;
      queue.ReplaceJob(held);
      assert Ids(queue.jobs) == [held.id] + Ids(js);
      held := null;
    }

    /** One action. */
    method Do(a: Action)
      requires Valid()
      modifies this, queue, repr
      ensures Valid() && fresh(repr - old(repr)) && Counts() == Tallied(old(Counts()), a)
      ensures added == old(added) + if a.Add? then [a.id] else []
    {
      match a
      case Add(id) => Add(id);
      case Take => if held == null { Take(); }
      case End => if held != null { End(); }
      case Defer => if held != null { Defer(); }
    }

    /** Any interleaving: no job is lost, repeated or overtaken, whatever is deferred.  The
        jobs added are those of the Add actions; as many have ended as the End actions that
        found a job taken, and they are the first ones added. */
    method Run(actions: seq<Action>)
      requires Valid()
      modifies this, queue, repr
      ensures Valid() && ended + Held() + Ids(queue.jobs) == added && added == old(added) + Adds(actions)
      ensures Counts() == After(old(Counts()), actions) && ended == added[..Counts().ended]
      ensures |ended| == |old(ended)| + Ends(old(Counts()), actions)
    {
      ghost var repr0, added0, counts0 := repr, added, Counts();
      assert actions[..0] == [];
      for k := 0 to |actions|
        invariant Valid() && fresh(repr - repr0)
        invariant added == added0 + Adds(actions[..k]) && Counts() == After(counts0, actions[..k])
      {
        assert actions[..k + 1][..k] == actions[..k];
        Do(actions[k]);
      }
      assert actions[..|actions|] == actions;
      RunTally(counts0, actions);
    }

    ghost function Counts(): Tally
      reads this, queue
    {
      Tally(held != null, |queue.jobs|, |ended|)
    }
  }

  /** How many jobs are where, whatever their identifiers. */
  datatype Tally = Tally(held: bool, waiting: nat, ended: nat)

  function Tallied(t: Tally, a: Action): Tally {
    match a
    case Add(_) => t.(waiting := t.waiting + 1)
    case Take => if !t.held && t.waiting > 0 then t.(held := true, waiting := t.waiting - 1) else t
    case End => if t.held then t.(held := false, ended := t.ended + 1) else t
    case Defer => if t.held then t.(held := false, waiting := t.waiting + 1) else t
  }

  function After(t: Tally, actions: seq<Action>): Tally {
    if actions == [] then t else Tallied(After(t, actions[..|actions| - 1]), actions[|actions| - 1])
  }

  /** The jobs added by the actions. */
  function Adds(actions: seq<Action>): seq<int> {
    if actions == [] then []
    else Adds(actions[..|actions| - 1]) + (if actions[|actions| - 1].Add? then [actions[|actions| - 1].id] else [])
  }

  /** Jobs that are not gone or gone: held, waiting and ended. */
  function Total(t: Tally): nat { t.waiting + t.ended + if t.held then 1 else 0 }

  /** Only an addition makes a job, only an end ends one, and only a taken one; a take finds a
      job exactly if one waits; a job that is deferred is the next to be taken. */
  lemma ActionMoves(t: Tally, a: Action)
    ensures var u := Tallied(t, a);
            && Total(u) == Total(t) + (if a.Add? then 1 else 0)
            && u.ended == t.ended + (if a.End? && t.held then 1 else 0)
            && (u.held <==> (a.Take? && t.waiting > 0) || (t.held && !a.End? && !a.Defer?))
            && (a.Defer? && t.held ==> Tallied(u, Take) == t)
  {
  }

  /** The ends that find a job taken. */
  function Ends(t: Tally, actions: seq<Action>): nat {
    if actions == [] then 0
    else
      var n := |actions| - 1;
      Ends(t, actions[..n]) + if actions[n].End? && After(t, actions[..n]).held then 1 else 0
  }

  /** In any interleaving as many jobs have ended as ends found a job taken, and all others that
      were added are held or waiting. */
  lemma {:induction false} RunTally(t: Tally, actions: seq<Action>)
    ensures After(t, actions).ended == t.ended + Ends(t, actions)
    ensures Total(After(t, actions)) == Total(t) + |Adds(actions)|
  {
    if actions != [] {
      var n := |actions| - 1;
      RunTally(t, actions[..n]);
      ActionMoves(After(t, actions[..n]), actions[n]);
    }
  }
}
