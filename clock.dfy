/**
 * The clock capability and its deterministic implementation. An instant and a
 * duration are counts of nanoseconds; a `FixedClock` reports a prearranged list
 * of durations and then 24 hours for every further question.
 */
module Clock {
  import opened Calendar

  function Reversed<T>(s: seq<T>): (r: seq<T>)
    ensures |r| == |s|
  {
    if s == [] then [] else Reversed(s[1..]) + [s[0]]
  }

  lemma {:induction false} ReversedAt<T>(s: seq<T>, k: nat)
    requires k < |s|
    ensures Reversed(s)[k] == s[|s| - 1 - k]
  {
    if k < |s| - 1 {
      ReversedAt(s[1..], k);
    }
  }

  /** Reversing twice gives back the list: `new` reverses, `elapsed` pops from the end. */
  lemma {:induction false} ReversedTwice<T>(s: seq<T>)
    ensures Reversed(Reversed(s)) == s
  {
    var r := Reversed(s);
    forall k | 0 <= k < |s|
      ensures Reversed(r)[k] == s[k]
    {
      ReversedAt(r, k);
      ReversedAt(s, |s| - 1 - k);
    }
  }

  /** Dropping the last element of a list drops the first element of its reversal. */
  lemma {:induction false} ReversedInit<T>(s: seq<T>)
    requires s != []
    ensures Reversed(s[..|s| - 1]) == Reversed(s)[1..]
    ensures Reversed(s)[0] == s[|s| - 1]
  {
    var t := s[..|s| - 1];
    var r := Reversed(s);
    ReversedAt(s, 0);
    forall k | 0 <= k < |t|
      ensures Reversed(t)[k] == r[1..][k]
    {
      ReversedAt(t, k);
      ReversedAt(s, k + 1);
    }
  }

  /** The `j`-th duration (from 0) reported by a fixed clock whose upcoming increments are `s`. */
  function StreamAt(s: seq<nat>, j: nat): (d: nat)
    ensures j >= |s| ==> d == NsPerDay
  {
    if j < |s| then s[j] else NsPerDay
  }

  /** The upcoming increments after `k` questions. */
  function Drop(s: seq<nat>, k: nat): seq<nat>
  {
    if k <= |s| then s[k..] else []
  }

  /** The sum of the first `n` durations reported. */
  function Total(s: seq<nat>, n: nat): (t: nat)
  {
    if n == 0 then 0 else Total(s, n - 1) + StreamAt(s, n - 1)
  }

  lemma DropAt(s: seq<nat>, k: nat, j: nat)
    ensures StreamAt(Drop(s, k), j) == StreamAt(s, k + j)
    ensures Drop(Drop(s, k), 1) == Drop(s, k + 1)
  {
  }

  /** Durations are never negative, so the running total never decreases. */
  lemma {:induction false} TotalMonotone(s: seq<nat>, m: nat, n: nat)
    requires m <= n
    ensures Total(s, m) <= Total(s, n)
    decreases n
  {
    if m < n {
      TotalMonotone(s, m, n - 1);
    }
  }

  /** Once the list is used up, every further duration is 24 hours. */
  lemma {:induction false} TotalBeyond(s: seq<nat>, n: nat)
    requires n >= |s|
    ensures Total(s, n) == Total(s, |s|) + (n - |s|) * NsPerDay
    decreases n
  {
    if n > |s| {
      TotalBeyond(s, n - 1);
    }
  }

  /** A clock that steps in given increments and, once they are used up, by 24 hours. */
  class FixedClock {
    /** The increments not yet reported, the next one last. */
    var increments: seq<nat>

    /** The increments not yet reported, in the order they will be reported. */
    ghost function Upcoming(): seq<nat>
      reads this
    {
      Reversed(increments)
    }

    constructor (increments: seq<nat>)
      ensures this.increments == Reversed(increments)
      ensures Upcoming() == increments
    {
      this.increments := Reversed(increments);
      ReversedTwice(increments);
    }

    /** The current instant; the fixed clock takes it from the platform (`systemNow`) and consumes no increment. */
    method Now(systemNow: int) returns (instant: int)
      ensures instant == systemNow
    {
      instant := systemNow;
    }

    /** The time elapsed since `instant`: the next increment, or 24 hours once there are none. */
    method Elapsed(instant: int) returns (d: nat)
      modifies this
      ensures d == StreamAt(old(Upcoming()), 0)
      ensures Upcoming() == Drop(old(Upcoming()), 1)
      ensures old(increments) == [] ==> d == NsPerDay && increments == []
      ensures old(increments) != [] ==> increments == old(increments)[..|old(increments)| - 1]
    {
      if increments == [] {
        d := NsPerDay;
      } else {
        ReversedInit(increments);
        d := increments[|increments| - 1];
        increments := increments[..|increments| - 1];
      }
    }
  }
}
