/** The merge of sorted segments (barrier.c), for any number of segments of any size. */
module Barrier {

  const LONG_MAX := 0x7fff_ffff_ffff_ffff

  /** Where segment i begins: i times the size. */
  function Lo(i: nat, size: nat): nat { if i == 0 then 0 else Lo(i - 1, size) + size }

  lemma {:induction false} LoIs(i: nat, size: nat)
    ensures Lo(i, size) == i * size
  {
    if i > 0 {
      LoIs(i - 1, size);
      assert i * size == (i - 1) * size + size;
    }
  }

  lemma {:induction false} LoGrows(i: nat, j: nat, size: nat)
    requires i <= j
    ensures Lo(i, size) <= Lo(j, size)
  {
    if i < j { LoGrows(i, j - 1, size); }
  }

  predicate Sorted(a: seq<int>, lo: nat, hi: nat)
    requires lo <= hi <= |a|
  {
    forall p, q :: lo <= p <= q < hi ==> a[p] <= a[q]
  }

  /** Position pos[i] is in segment i or at its end. */
  predicate Inside(pos: seq<nat>, size: nat, n: nat) {
    |pos| == n && forall i :: 0 <= i < n ==> At(pos, size, i)
  }

  predicate At(pos: seq<nat>, size: nat, i: nat)
    requires i < |pos|
  {
    Lo(i, size) <= pos[i] <= Lo(i + 1, size)
  }

  // ---------------------------------------------------------------- what has been taken

  /** How often x occurs in a[lo..hi]. */
  function Count(a: seq<int>, lo: nat, hi: nat, x: int): nat
    requires hi <= |a|
  {
    if lo >= hi then 0 else Count(a, lo, hi - 1, x) + if a[hi - 1] == x then 1 else 0
  }

  lemma {:induction false} CountJoins(a: seq<int>, lo: nat, hi: nat, x: int)
    requires lo <= hi <= |a|
    ensures Count(a, 0, hi, x) == Count(a, 0, lo, x) + Count(a, lo, hi, x)
  {
    if lo < hi { CountJoins(a, lo, hi - 1, x); }
  }

  lemma {:induction false} CountIs(a: seq<int>, hi: nat, x: int)
    requires hi <= |a|
    ensures multiset(a[..hi])[x] == Count(a, 0, hi, x)
  {
    if hi > 0 {
      CountIs(a, hi - 1, x);
      assert a[..hi] == a[..hi - 1] + [a[hi - 1]];
    }
  }

  /** How often x has been taken from the first k segments. */
  function Taken(a: seq<int>, pos: seq<nat>, size: nat, k: nat, x: int): nat
    requires k <= |pos| && Within(a, pos, k)
  {
    if k == 0 then 0 else Taken(a, pos, size, k - 1, x) + Count(a, Lo(k - 1, size), pos[k - 1], x)
  }

  predicate Within(a: seq<int>, pos: seq<nat>, k: nat)
    requires k <= |pos|
  {
    forall i :: 0 <= i < k ==> pos[i] <= |a|
  }

  function Total(pos: seq<nat>, size: nat, k: nat): int
    requires k <= |pos|
  {
    if k == 0 then 0 else Total(pos, size, k - 1) + pos[k - 1] - Lo(k - 1, size)
  }

  lemma {:induction false} TakenSame(a: seq<int>, pos: seq<nat>, pos': seq<nat>, size: nat, k: nat, x: int)
    requires k <= |pos| == |pos'| && Within(a, pos, k) && Within(a, pos', k)
    requires forall i :: 0 <= i < k ==> pos'[i] == pos[i]
    ensures Taken(a, pos', size, k, x) == Taken(a, pos, size, k, x) && Total(pos', size, k) == Total(pos, size, k)
  {
    if k > 0 { TakenSame(a, pos, pos', size, k - 1, x); }
  }

  /** Taking one more number from segment m. */
  lemma {:induction false} TakeOne(a: seq<int>, pos: seq<nat>, pos': seq<nat>, size: nat, m: nat, k: nat, x: int)
    requires m < k <= |pos| && Lo(m, size) <= pos[m] < |a| && pos' == pos[m := pos[m] + 1] && Within(a, pos, k)
      && Within(a, pos', k)
    ensures Taken(a, pos', size, k, x) == Taken(a, pos, size, k, x) + (if a[pos[m]] == x then 1 else 0)
    ensures Total(pos', size, k) == Total(pos, size, k) + 1
  {
    if m == k - 1 { TakenSame(a, pos, pos', size, k - 1, x); } else { TakeOne(a, pos, pos', size, m, k - 1, x); }
  }

  lemma {:induction false} TotalBound(pos: seq<nat>, size: nat, n: nat, k: nat)
    requires Inside(pos, size, n) && k <= n
    ensures Total(pos, size, k) <= Lo(k, size)
  {
    if k > 0 {
      TotalBound(pos, size, n, k - 1);
      assert At(pos, size, k - 1);
    }
  }

  /** While not everything is taken, some segment has more. */
  lemma {:induction false} SomeLeft(pos: seq<nat>, size: nat, n: nat, k: nat) returns (i: nat)
    requires Inside(pos, size, n) && k <= n && Total(pos, size, k) < Lo(k, size)
    ensures i < k && pos[i] < Lo(i + 1, size)
  {
    if pos[k - 1] < Lo(k, size) { i := k - 1; } else { i := SomeLeft(pos, size, n, k - 1); }
  }

  /** When as many are taken as there are, everything is taken. */
  lemma {:induction false} AllTaken(a: seq<int>, pos: seq<nat>, size: nat, n: nat, k: nat, x: int)
    requires Inside(pos, size, n) && k <= n && Lo(n, size) <= |a| && Within(a, pos, k)
      && Total(pos, size, k) == Lo(k, size)
    ensures Lo(k, size) <= |a| && Taken(a, pos, size, k, x) == Count(a, 0, Lo(k, size), x)
  {
    LoGrows(k, n, size);
    if k > 0 {
      assert At(pos, size, k - 1);
      TotalBound(pos, size, n, k - 1);
      AllTaken(a, pos, size, n, k - 1, x);
      CountJoins(a, Lo(k - 1, size), Lo(k, size), x);
    }
  }

  lemma {:induction false} NoneTaken(a: seq<int>, pos: seq<nat>, size: nat, k: nat, x: int)
    requires k <= |pos| && Within(a, pos, k) && forall i :: 0 <= i < k ==> pos[i] == Lo(i, size)
    ensures Taken(a, pos, size, k, x) == 0 && Total(pos, size, k) == 0
  {
    if k > 0 { NoneTaken(a, pos, size, k - 1, x); }
  }

  // ---------------------------------------------------------------- what is left

  /** Every number left in segment i is at least v. */
  predicate Above(a: seq<int>, pos: seq<nat>, size: nat, i: nat, v: int)
    requires i < |pos|
  {
    forall p :: pos[i] <= p < Lo(i + 1, size) && p < |a| ==> v <= a[p]
  }

  /** Segment i of n lies in the array and is sorted. */
  predicate Segment(a: seq<int>, size: nat, i: nat) {
    Lo(i, size) <= Lo(i + 1, size) <= |a| && Sorted(a, Lo(i, size), Lo(i + 1, size))
  }

  predicate Segments(a: seq<int>, size: nat, n: nat) {
    |a| == Lo(n, size) && forall i :: 0 <= i < n ==> Segment(a, size, i)
  }

  lemma AboveFrom(a: seq<int>, pos: seq<nat>, size: nat, i: nat, v: int)
    requires i < |pos| && Segment(a, size, i) && At(pos, size, i) && (pos[i] < Lo(i + 1, size) ==> v <= a[pos[i]])
    ensures Above(a, pos, size, i, v)
  {
  }

  /** The inner loop: the segment with the smallest next number. */
  method FindMin(nums: array<int>, idx: array<nat>, n: nat, size: nat) returns (minidx: nat)
    requires Segments(nums[..], size, n) && idx.Length == n && Inside(idx[..], size, n)
    requires forall p :: 0 <= p < nums.Length ==> nums[p] < LONG_MAX
    requires exists i :: 0 <= i < n && idx[i] < Lo(i + 1, size)
    ensures minidx < n && Lo(minidx, size) <= idx[minidx] < Lo(minidx + 1, size) <= nums.Length
    ensures AllAbove(nums[..], idx[..], size, n, nums[idx[minidx]])
  {
    var num, i := LONG_MAX, 0;
    minidx := 0;
    ghost var a, pos := nums[..], idx[..];
    while i < n
      invariant 0 <= i <= n && Least(a, pos, size, n, i, minidx, num)
    {
      assert Segment(a, size, i) && At(pos, size, i);
      LoIs(i + 1, size);
      ghost var m0, v0 := minidx, num;
      if idx[i] < (i + 1) * size && nums[idx[i]] < num {
        num := nums[idx[i]];
        minidx := i;
      }
      LeastNext(a, pos, size, n, i, m0, v0);
      i := i + 1;
    }
    ghost var k :| 0 <= k < n && idx[k] < Lo(k + 1, size);
    assert Empty(pos, size, k) || num < LONG_MAX;
    assert Segment(a, size, minidx) && At(pos, size, minidx);
  }

  predicate Empty(pos: seq<nat>, size: nat, k: nat)
    requires k < |pos|
  {
    pos[k] >= Lo(k + 1, size)
  }

  /** The smallest next number of the first i segments is v, of segment m, if there is one. */
  predicate Least(a: seq<int>, pos: seq<nat>, size: nat, n: nat, i: nat, m: nat, v: int) {
    && |pos| == n && i <= n
    && if v == LONG_MAX then forall k :: 0 <= k < i ==> Empty(pos, size, k)
       else
         && m < n && pos[m] < Lo(m + 1, size) && pos[m] < |a| && v == a[pos[m]] < LONG_MAX
         && forall k :: 0 <= k < i ==> Above(a, pos, size, k, v)
  }

  lemma LeastNext(a: seq<int>, pos: seq<nat>, size: nat, n: nat, i: nat, m: nat, v: int)
    requires Least(a, pos, size, n, i, m, v) && i < n && Segment(a, size, i) && At(pos, size, i)
    requires forall p :: 0 <= p < |a| ==> a[p] < LONG_MAX
    ensures var take := pos[i] < Lo(i + 1, size) && a[pos[i]] < v;
            if take then Least(a, pos, size, n, i + 1, i, a[pos[i]]) else Least(a, pos, size, n, i + 1, m, v)
  {
    if pos[i] < Lo(i + 1, size) && a[pos[i]] < v {
      var w := a[pos[i]];
      forall k | 0 <= k < i + 1 ensures Above(a, pos, size, k, w) {
        if k == i { AboveFrom(a, pos, size, i, w); }
        else if v == LONG_MAX { assert Empty(pos, size, k); }
        else { assert Above(a, pos, size, k, v); }
      }
    } else if v != LONG_MAX {
      AboveFrom(a, pos, size, i, v);
    }
  }

  // ---------------------------------------------------------------- merge

  predicate AllAbove(a: seq<int>, pos: seq<nat>, size: nat, n: nat, v: int)
    requires n <= |pos|
  {
    forall i :: 0 <= i < n ==> Above(a, pos, size, i, v)
  }

  ghost predicate Tally(a: seq<int>, out: seq<int>, pos: seq<nat>, size: nat, n: nat, x: int)
    requires n <= |pos| && Within(a, pos, n)
  {
    multiset(out)[x] == Taken(a, pos, size, n, x)
  }

  /** The first sidx numbers are out, in order and not above what is left. */
  ghost predicate Merging(a: seq<int>, out: seq<int>, pos: seq<nat>, size: nat, n: nat) {
    && Inside(pos, size, n)
    && Within(a, pos, n) && Total(pos, size, n) == |out| && (forall x :: Tally(a, out, pos, size, n, x))
    && Sorted(out, 0, |out|)
    && (out != [] ==> AllAbove(a, pos, size, n, out[|out| - 1]))
  }

  lemma MergingNext(a: seq<int>, out: seq<int>, pos: seq<nat>, size: nat, n: nat, m: nat, pos': seq<nat>)
    requires Segments(a, size, n) && Merging(a, out, pos, size, n) && m < n && pos[m] < Lo(m + 1, size) && pos[m] < |a|
    requires AllAbove(a, pos, size, n, a[pos[m]])
    requires pos' == pos[m := pos[m] + 1]
    ensures Merging(a, out + [a[pos[m]]], pos', size, n)
  {
    assert At(pos, size, m) && Segment(a, size, m);
    var v := a[pos[m]];
    forall x ensures Tally(a, out + [v], pos', size, n, x) {
      assert Tally(a, out, pos, size, n, x);
      TakeOne(a, pos, pos', size, m, n, x);
    }
    TakeOne(a, pos, pos', size, m, n, 0);
    if out != [] { assert Above(a, pos, size, m, out[|out| - 1]); }
    forall i | 0 <= i < n ensures At(pos', size, i) && Above(a, pos', size, i, v) {
      assert At(pos, size, i) && Above(a, pos, size, i, v);
    }
  }

  method Starts(n: nat, size: nat) returns (idx: array<nat>)
    ensures fresh(idx) && idx.Length == n && forall k :: 0 <= k < n ==> idx[k] == Lo(k, size)
  {
    idx := new nat[n];
    var i := 0;
    while i < n
      invariant 0 <= i <= n
      invariant forall k :: 0 <= k < i ==> idx[k] == Lo(k, size)
    {
      LoIs(i, size);
      idx[i] := i * size;
      i := i + 1;
    }
  }

  /** One turn of the outer loop. */
  method Advance(nums: array<int>, snums: array<int>, idx: array<nat>, n: nat, size: nat, sidx: nat)
    requires nums != snums && snums.Length == nums.Length && Segments(nums[..], size, n) && sidx < nums.Length
    requires forall p :: 0 <= p < nums.Length ==> nums[p] < LONG_MAX
    requires idx.Length == n && Merging(nums[..], snums[..sidx], idx[..], size, n)
    modifies snums, idx
    ensures Merging(nums[..], snums[..sidx + 1], idx[..], size, n)
  {
    ghost var a, pos, out := nums[..], idx[..], snums[..sidx];
    ghost var k := SomeLeft(pos, size, n, n);
    assert idx[k] < Lo(k + 1, size);
    var minidx := FindMin(nums, idx, n, size);
    snums[sidx] := nums[idx[minidx]];
    idx[minidx] := idx[minidx] + 1;
    MergingNext(a, out, pos, size, n, minidx, idx[..]);
    assert snums[..sidx + 1] == out + [snums[sidx]];
  }

  /** merge: the output is sorted and a permutation of the input. */
  method Merge(nums: array<int>, snums: array<int>, n: nat, size: nat)
    requires nums != snums && snums.Length == nums.Length && Segments(nums[..], size, n)
    requires forall p :: 0 <= p < nums.Length ==> nums[p] < LONG_MAX
    modifies snums
    ensures Sorted(snums[..], 0, snums.Length) && multiset(snums[..]) == multiset(nums[..])
  {
    ghost var a := nums[..];
    var idx := Starts(n, size);
    MergingStart(a, idx[..], size, n);
    var sidx := 0;
    assert snums[..0] == [];
    while sidx < nums.Length
      invariant 0 <= sidx <= nums.Length && nums[..] == a && fresh(idx) && idx.Length == n
      invariant Merging(a, snums[..sidx], idx[..], size, n)
    {
      Advance(nums, snums, idx, n, size, sidx);
      sidx := sidx + 1;
    }
    assert snums[..sidx] == snums[..];
    MergingEnd(a, snums[..], idx[..], size, n);
  }

  lemma MergingEnd(a: seq<int>, out: seq<int>, pos: seq<nat>, size: nat, n: nat)
    requires Segments(a, size, n) && Merging(a, out, pos, size, n) && |out| == |a|
    ensures multiset(out) == multiset(a)
  {
    forall x ensures multiset(out)[x] == multiset(a)[x] {
      assert Tally(a, out, pos, size, n, x);
      AllTaken(a, pos, size, n, n, x);
      CountIs(a, |a|, x);
      assert a[..|a|] == a;
    }
  }

  lemma MergingStart(a: seq<int>, pos: seq<nat>, size: nat, n: nat)
    requires Segments(a, size, n) && |pos| == n && forall i :: 0 <= i < n ==> pos[i] == Lo(i, size)
    ensures Merging(a, [], pos, size, n)
  {
    forall i | 0 <= i < n ensures At(pos, size, i) && pos[i] <= |a| { assert Segment(a, size, i); }
    forall x ensures Tally(a, [], pos, size, n, x) { NoneTaken(a, pos, size, n, x); }
    NoneTaken(a, pos, size, n, 0);
  }
}
