/**
 * The records a run hands to its writers, in order, each with the day it was
 * read on, and what they determine: the bytes of each day's file, the days
 * observed, and the rotations the engine performs.
 */
module Trace {
  import opened Base
  import opened Calendar
  import opened Clock

  /** One record and the day the reader attributed to it. */
  datatype Record = Record(bytes: seq<byte>, date: Date)

  /** All bytes of the records, in order. */
  function Bytes(t: seq<Record>): seq<byte>
  {
    if t == [] then [] else Bytes(t[..|t| - 1]) + t[|t| - 1].bytes
  }

  /** The records' byte strings, in order. */
  function Texts(t: seq<Record>): (ts: seq<seq<byte>>)
    ensures |ts| == |t|
    ensures forall i :: 0 <= i < |t| ==> ts[i] == t[i].bytes
  {
    if t == [] then [] else Texts(t[..|t| - 1]) + [t[|t| - 1].bytes]
  }

  /** The bytes of the records read on day `d`, in order. */
  function LinesOn(t: seq<Record>, d: Date): seq<byte>
  {
    if t == [] then []
    else LinesOn(t[..|t| - 1], d) + (if t[|t| - 1].date == d then t[|t| - 1].bytes else [])
  }

  /** The days on which some record was read. */
  function DateSet(t: seq<Record>): set<Date>
  {
    set i | 0 <= i < |t| :: t[i].date
  }

  ghost predicate Sorted(t: seq<Record>)
  {
    forall i, j :: 0 <= i <= j < |t| ==> t[i].date <= t[j].date
  }

  /** The day of the file open after the records `t`, starting from `today`. */
  function FinalDate(today: Date, t: seq<Record>): Date
  {
    if t == [] then today else t[|t| - 1].date
  }

  /** The days the engine rotates to: each record whose day differs from the open file's. */
  function Rotations(today: Date, t: seq<Record>): seq<Date>
  {
    if t == [] then []
    else
      var p := t[..|t| - 1];
      Rotations(today, p) + (if t[|t| - 1].date != FinalDate(today, p) then [t[|t| - 1].date] else [])
  }

  /** The observed days, in order, each once (for sorted records). */
  function DistinctDates(t: seq<Record>): seq<Date>
  {
    if t == [] then []
    else
      var p := t[..|t| - 1];
      DistinctDates(p) + (if p != [] && p[|p| - 1].date == t[|t| - 1].date then [] else [t[|t| - 1].date])
  }

  /** The concatenation, over the days `ds` in order, of the bytes read on each. */
  function ByDay(t: seq<Record>, ds: seq<Date>): seq<byte>
  {
    if ds == [] then [] else ByDay(t, ds[..|ds| - 1]) + LinesOn(t, ds[|ds| - 1])
  }

  lemma AppendLast(t: seq<Record>, x: Record)
    ensures (t + [x])[..|t|] == t && (t + [x])[|t|] == x
  {
  }

  /** A day on which nothing was read has no bytes. */
  lemma {:induction false} LinesOnAbsent(t: seq<Record>, d: Date)
    requires d !in DateSet(t)
    ensures LinesOn(t, d) == []
  {
    if t != [] {
      var p := t[..|t| - 1];
      assert DateSet(p) <= DateSet(t);
      LinesOnAbsent(p, d);
    }
  }

  lemma DateSetAppend(t: seq<Record>, x: Record)
    ensures DateSet(t + [x]) == DateSet(t) + {x.date}
  {
    var u := t + [x];
    forall d | d in DateSet(u) ensures d in DateSet(t) + {x.date} {
      var i :| 0 <= i < |u| && u[i].date == d;
      if i < |t| { assert t[i] == u[i]; }
    }
    forall d | d in DateSet(t) + {x.date} ensures d in DateSet(u) {
      if d == x.date { assert u[|t|] == x; }
      else {
        var i :| 0 <= i < |t| && t[i].date == d;
        assert u[i] == t[i];
      }
    }
  }

  /** Appending a record adds its bytes to its own day and to no other. */
  lemma LinesOnAppend(t: seq<Record>, x: Record, d: Date)
    ensures LinesOn(t + [x], d) == LinesOn(t, d) + (if x.date == d then x.bytes else [])
  {
    AppendLast(t, x);
  }

  lemma BytesAppend(t: seq<Record>, x: Record)
    ensures Bytes(t + [x]) == Bytes(t) + x.bytes
  {
    AppendLast(t, x);
  }

  /** A day's bytes in two runs of records are its bytes in the first, then in the second. */
  lemma {:induction false} LinesOnSplit(a: seq<Record>, b: seq<Record>, d: Date)
    ensures LinesOn(a + b, d) == LinesOn(a, d) + LinesOn(b, d)
    decreases |b|
  {
    if b == [] {
      assert a + b == a;
    } else {
      var p := b[..|b| - 1];
      var x := b[|b| - 1];
      assert b == p + [x];
      assert a + b == (a + p) + [x];
      LinesOnSplit(a, p, d);
      LinesOnAppend(a + p, x, d);
      LinesOnAppend(p, x, d);
    }
  }

  /** Records all read on day `d` give that day all their bytes. */
  lemma {:induction false} LinesOnAll(b: seq<Record>, d: Date)
    requires forall i :: 0 <= i < |b| ==> b[i].date == d
    ensures LinesOn(b, d) == Bytes(b)
    decreases |b|
  {
    if b != [] {
      LinesOnAll(b[..|b| - 1], d);
    }
  }

  /** The bytes of day `d` are those of the one run of records read on `d`. */
  lemma LinesOnBlock(a: seq<Record>, b: seq<Record>, c: seq<Record>, d: Date)
    requires forall i :: 0 <= i < |a| ==> a[i].date != d
    requires forall i :: 0 <= i < |b| ==> b[i].date == d
    requires forall i :: 0 <= i < |c| ==> c[i].date != d
    ensures LinesOn(a + b + c, d) == Bytes(b)
  {
    LinesOnSplit(a + b, c, d);
    LinesOnSplit(a, b, d);
    LinesOnAbsent(a, d);
    LinesOnAbsent(c, d);
    LinesOnAll(b, d);
  }

  /** When exactly the records at `lo..hi` were read on day `d`, that day's bytes are theirs. */
  lemma LinesOnRange(t: seq<Record>, lo: nat, hi: nat, d: Date)
    requires lo <= hi <= |t|
    requires forall i :: 0 <= i < |t| ==> (t[i].date == d <==> lo <= i < hi)
    ensures LinesOn(t, d) == Bytes(t[lo..hi])
  {
    var a, b, c := t[..lo], t[lo..hi], t[hi..];
    assert t == a + b + c;
    assert forall i :: 0 <= i < |a| ==> a[i] == t[i];
    assert forall i :: 0 <= i < |b| ==> b[i] == t[lo + i];
    assert forall i :: 0 <= i < |c| ==> c[i] == t[hi + i];
    LinesOnBlock(a, b, c, d);
  }

  lemma TextsAppend(t: seq<Record>, x: Record)
    ensures Texts(t + [x]) == Texts(t) + [x.bytes]
  {
    assert (t + [x])[..|t|] == t;
  }

  /** The bytes of the records are their texts concatenated. */
  lemma {:induction false} BytesTexts(t: seq<Record>)
    ensures Bytes(t) == Flatten(Texts(t))
  {
    if t != [] {
      var p := t[..|t| - 1];
      BytesTexts(p);
      FlattenAppend(Texts(p), t[|t| - 1].bytes);
    }
  }

  lemma RotationsAppend(today: Date, t: seq<Record>, x: Record)
    ensures Rotations(today, t + [x]) ==
      Rotations(today, t) + (if x.date != FinalDate(today, t) then [x.date] else [])
    ensures FinalDate(today, t + [x]) == x.date
  {
    AppendLast(t, x);
  }

  lemma {:induction false} ByDayExtend(t: seq<Record>, x: Record, ds: seq<Date>)
    requires forall i :: 0 <= i < |ds| ==> ds[i] != x.date
    ensures ByDay(t + [x], ds) == ByDay(t, ds)
  {
    if ds != [] {
      ByDayExtend(t, x, ds[..|ds| - 1]);
      LinesOnAppend(t, x, ds[|ds| - 1]);
    }
  }

  lemma SortedPrefix(t: seq<Record>)
    requires Sorted(t) && t != []
    ensures Sorted(t[..|t| - 1])
    ensures forall i :: 0 <= i < |t| ==> t[i].date <= t[|t| - 1].date
  {
    var p := t[..|t| - 1];
    forall i, j | 0 <= i <= j < |p| ensures p[i].date <= p[j].date {
      assert p[i] == t[i] && p[j] == t[j];
    }
  }

  /** For sorted records, the distinct days are strictly increasing and end with the last record's day. */
  lemma {:induction false} DistinctDatesIncreasing(t: seq<Record>)
    requires Sorted(t)
    ensures var ds := DistinctDates(t);
      (forall i, j :: 0 <= i < j < |ds| ==> ds[i] < ds[j]) &&
      (t != [] ==> ds != [] && ds[|ds| - 1] == t[|t| - 1].date)
  {
    if t != [] {
      var p := t[..|t| - 1];
      var x := t[|t| - 1];
      SortedPrefix(t);
      DistinctDatesIncreasing(p);
      var ds := DistinctDates(p);
      if !(p != [] && p[|p| - 1].date == x.date) {
        var ds' := ds + [x.date];
        assert DistinctDates(t) == ds';
        if p != [] {
          assert p[|p| - 1] == t[|t| - 2];
          assert ds[|ds| - 1] < x.date;
        }
        forall i, j | 0 <= i < j < |ds'| ensures ds'[i] < ds'[j] {
          if j == |ds| && i < |ds| - 1 {
            assert ds[i] < ds[|ds| - 1];
          }
        }
      }
    }
  }

  /** The distinct days are exactly the observed days. */
  lemma {:induction false} DistinctDatesMembers(t: seq<Record>)
    ensures var ds := DistinctDates(t);
      (forall i :: 0 <= i < |ds| ==> ds[i] in DateSet(t)) &&
      (forall d :: d in DateSet(t) ==> d in ds)
  {
    if t != [] {
      var p := t[..|t| - 1];
      var x := t[|t| - 1];
      assert t == p + [x];
      DistinctDatesMembers(p);
      DateSetAppend(p, x);
      var dp := DistinctDates(p);
      var ds := DistinctDates(t);
      if p != [] && p[|p| - 1].date == x.date {
        assert ds == dp;
        assert x.date in DateSet(p) by { assert p[|p| - 1].date == x.date; }
        assert DateSet(t) == DateSet(p);
      } else {
        assert ds == dp + [x.date];
        forall i | 0 <= i < |ds| ensures ds[i] in DateSet(t) {
          if i < |dp| {
            assert ds[i] == dp[i];
          }
        }
        forall d | d in DateSet(t) ensures d in ds {
          if d in DateSet(p) {
            var i :| 0 <= i < |dp| && dp[i] == d;
            assert ds[i] == d;
          } else {
            assert ds[|dp|] == d;
          }
        }
      }
    }
  }

  /** For sorted records, the last distinct day is the last record's, and every earlier one is another observed day. */
  lemma DistinctDatesLast(t: seq<Record>)
    requires Sorted(t) && t != []
    ensures var ds := DistinctDates(t);
      ds != [] && ds[|ds| - 1] == t[|t| - 1].date &&
      forall i :: 0 <= i < |ds| - 1 ==> ds[i] in DateSet(t) && ds[i] != t[|t| - 1].date
  {
    DistinctDatesIncreasing(t);
    DistinctDatesMembers(t);
    var ds := DistinctDates(t);
    forall i | 0 <= i < |ds| - 1 ensures ds[i] in DateSet(t) && ds[i] != t[|t| - 1].date {
      assert ds[i] < ds[|ds| - 1];
    }
  }

  /** A record on the last of the days `ds` (and on no earlier one) extends that day's bytes. */
  lemma ByDaySameDay(t: seq<Record>, x: Record, ds: seq<Date>)
    requires ds != [] && ds[|ds| - 1] == x.date
    requires forall i :: 0 <= i < |ds| - 1 ==> ds[i] != x.date
    ensures ByDay(t + [x], ds) == ByDay(t, ds) + x.bytes
  {
    var init := ds[..|ds| - 1];
    ByDayExtend(t, x, init);
    LinesOnAppend(t, x, x.date);
  }

  /** A record on a day after the days `ds`, none of them its own, opens a new day. */
  lemma ByDayNewDay(t: seq<Record>, x: Record, ds: seq<Date>)
    requires forall i :: 0 <= i < |ds| ==> ds[i] != x.date
    requires x.date !in DateSet(t)
    ensures ByDay(t + [x], ds + [x.date]) == ByDay(t, ds) + x.bytes
  {
    var es := ds + [x.date];
    assert es[..|ds|] == ds && es[|ds|] == x.date;
    calc {
      ByDay(t + [x], es);
      ByDay(t + [x], ds) + LinesOn(t + [x], x.date);
      { ByDayExtend(t, x, ds); }
      ByDay(t, ds) + LinesOn(t + [x], x.date);
      { LinesOnAppend(t, x, x.date); LinesOnAbsent(t, x.date); assert [] + x.bytes == x.bytes; }
      ByDay(t, ds) + x.bytes;
    }
  }

  /** A record on the last record's day falls on the last of the distinct days, and on no earlier one. */
  lemma SameDayLast(t: seq<Record>, x: Record)
    requires Sorted(t + [x])
    requires t != [] && t[|t| - 1].date == x.date
    ensures var ds := DistinctDates(t);
      ds != [] && ds[|ds| - 1] == x.date && forall i :: 0 <= i < |ds| - 1 ==> ds[i] != x.date
  {
    assert (t + [x])[..|t|] == t;
    SortedPrefix(t + [x]);
    DistinctDatesIncreasing(t);
  }

  /** A record on a later day than the last record's falls on none of the distinct days so far. */
  lemma NewDayFresh(t: seq<Record>, x: Record)
    requires Sorted(t + [x])
    requires !(t != [] && t[|t| - 1].date == x.date)
    ensures var ds := DistinctDates(t);
      (forall i :: 0 <= i < |ds| ==> ds[i] != x.date) && x.date !in DateSet(t)
  {
    var u := t + [x];
    assert u[..|t|] == t;
    SortedPrefix(u);
    DistinctDatesIncreasing(t);
    DistinctDatesMembers(t);
    var ds := DistinctDates(t);
    if t != [] {
      assert u[|t| - 1] == t[|t| - 1] && u[|t|] == x;
      assert t[|t| - 1].date < x.date;
      forall i | 0 <= i < |ds| ensures ds[i] != x.date {
        if i < |ds| - 1 { assert ds[i] < ds[|ds| - 1]; }
      }
      forall i | 0 <= i < |t| ensures t[i].date != x.date {
        assert u[i] == t[i];
      }
    }
  }

  /**
   * No record is lost or duplicated: for records read in day order, the files'
   * contents taken in day order concatenate to exactly the bytes read.
   */
  lemma {:induction false} BytesByDay(t: seq<Record>)
    requires Sorted(t)
    ensures Bytes(t) == ByDay(t, DistinctDates(t))
  {
    if t != [] {
      var p := t[..|t| - 1];
      var x := t[|t| - 1];
      assert t == p + [x];
      SortedPrefix(t);
      BytesByDay(p);
      BytesAppend(p, x);
      var ds := DistinctDates(p);
      if p != [] && p[|p| - 1].date == x.date {
        SameDayLast(p, x);
        ByDaySameDay(p, x, ds);
        assert DistinctDates(t) == ds;
      } else {
        NewDayFresh(p, x);
        ByDayNewDay(p, x, ds);
        assert DistinctDates(t) == ds + [x.date];
      }
    }
  }

  /** For sorted records, the days rotated to strictly increase and end with the open file's day. */
  lemma {:induction false} RotationsIncreasing(today: Date, t: seq<Record>)
    requires Sorted(t)
    ensures var rs := Rotations(today, t);
      (forall i, j :: 0 <= i < j < |rs| ==> rs[i] < rs[j]) &&
      (rs != [] ==> rs[|rs| - 1] == FinalDate(today, t))
  {
    if t != [] {
      var p := t[..|t| - 1];
      var x := t[|t| - 1];
      assert t == p + [x];
      SortedPrefix(t);
      RotationsIncreasing(today, p);
      RotationsAppend(today, p, x);
      var rs := Rotations(today, p);
      if x.date != FinalDate(today, p) && rs != [] {
        assert p != [] by { assert Rotations(today, []) == []; }
        assert p[|p| - 1] == t[|t| - 2];
        var rs' := rs + [x.date];
        forall i, j | 0 <= i < j < |rs'| ensures rs'[i] < rs'[j] {
          if j == |rs| && i < |rs| - 1 {
            assert rs[i] < rs[|rs| - 1];
          }
        }
      }
    }
  }

  /** The days rotated to are observed days, and every observed day other than the first file's is one. */
  lemma {:induction false} RotationsMembers(today: Date, t: seq<Record>)
    ensures var rs := Rotations(today, t);
      (forall i :: 0 <= i < |rs| ==> rs[i] in DateSet(t)) &&
      (forall d :: d in DateSet(t) && d != today ==> d in rs)
  {
    if t != [] {
      var p := t[..|t| - 1];
      var x := t[|t| - 1];
      assert t == p + [x];
      RotationsMembers(today, p);
      DateSetAppend(p, x);
      RotationsAppend(today, p, x);
      if x.date == FinalDate(today, p) && x.date != today {
        assert p != [] && p[|p| - 1].date == x.date;
        assert x.date in DateSet(p) by { assert p[|p| - 1].date in DateSet(p); }
      }
    }
  }

  /**
   * For sorted records, the engine rotates to strictly increasing days, each an
   * observed day, and to every observed day other than the first file's.
   */
  lemma RotationsShape(today: Date, t: seq<Record>)
    requires Sorted(t)
    ensures var rs := Rotations(today, t);
      (forall i, j :: 0 <= i < j < |rs| ==> rs[i] < rs[j]) &&
      (forall i :: 0 <= i < |rs| ==> rs[i] in DateSet(t)) &&
      (forall d :: d in DateSet(t) && d != today ==> d in rs) &&
      (rs != [] ==> rs[|rs| - 1] == FinalDate(today, t))
  {
    RotationsIncreasing(today, t);
    RotationsMembers(today, t);
  }

  /**
   * The days a reader attributes: the `i`-th record's day is that of the start
   * timestamp `wallNow` advanced by the first `i + 1` durations of the clock
   * schedule `sched`.
   */
  ghost predicate Stamped(t: seq<Record>, wallNow: int, sched: seq<nat>)
  {
    forall i {:trigger t[i]} :: 0 <= i < |t| ==> t[i].date == DayOf(wallNow + Total(sched, i + 1))
  }

  /** The next record's day is not earlier than the last one's. */
  lemma NextNotEarlier(t: seq<Record>, wallNow: int, sched: seq<nat>)
    requires Stamped(t, wallNow, sched) && t != []
    ensures t[|t| - 1].date <= DayOf(wallNow + Total(sched, |t| + 1))
  {
    TotalMonotone(sched, |t|, |t| + 1);
    DayOfMonotone(wallNow + Total(sched, |t|), wallNow + Total(sched, |t| + 1));
  }

  lemma StampedAppend(t: seq<Record>, x: Record, wallNow: int, sched: seq<nat>)
    requires Stamped(t, wallNow, sched)
    requires x.date == DayOf(wallNow + Total(sched, |t| + 1))
    ensures Stamped(t + [x], wallNow, sched)
  {
    var u := t + [x];
    forall i | 0 <= i < |u| ensures u[i].date == DayOf(wallNow + Total(sched, i + 1)) {
      if i < |t| { assert u[i] == t[i]; }
    }
  }

  /** Durations are never negative, so the days a reader attributes never go back. */
  lemma StampedSorted(t: seq<Record>, wallNow: int, sched: seq<nat>)
    requires Stamped(t, wallNow, sched)
    ensures Sorted(t)
  {
    forall i, j | 0 <= i <= j < |t| ensures t[i].date <= t[j].date {
      TotalMonotone(sched, i + 1, j + 1);
      DayOfMonotone(wallNow + Total(sched, i + 1), wallNow + Total(sched, j + 1));
    }
  }

  lemma SortedAppend(t: seq<Record>, x: Record)
    requires Sorted(t)
    requires t != [] ==> t[|t| - 1].date <= x.date
    ensures Sorted(t + [x])
  {
    var u := t + [x];
    forall i, j | 0 <= i <= j < |u| ensures u[i].date <= u[j].date {
      if j < |t| {
        assert u[i] == t[i] && u[j] == t[j];
      } else if i < |t| {
        assert u[i] == t[i] && t[i].date <= t[|t| - 1].date;
      }
    }
  }

  /** For sorted records, every record's day is at most the day of the file left open. */
  lemma SortedBelowFinal(today: Date, t: seq<Record>, d: Date)
    requires Sorted(t) && FinalDate(today, t) < d
    ensures d !in DateSet(t)
    ensures LinesOn(t, d) == []
  {
    forall i | 0 <= i < |t| ensures t[i].date < d {
      assert t[i].date <= t[|t| - 1].date;
    }
    LinesOnAbsent(t, d);
  }
}
