/**
 * The line reader: takes one newline-terminated record at a time from a byte
 * source and tags it with the calendar day of a logical timestamp that advances
 * by the time the clock reports as elapsed.
 */
module LineReader {
  import opened Base
  import opened Calendar
  import opened Clock

  /** The largest duration a `TimeDelta` holds: `i64::MAX` milliseconds, in nanoseconds. */
  const MaxDeltaNs: int := 9_223_372_036_854_775_807_000_000

  /** How the byte source ends once its bytes are delivered: cleanly, or with a read error. */
  datatype StreamEnd = EndOfStream | Broken(description: seq<byte>)

  datatype ReaderOutput = Eof | Line(date: Date)

  /**
   * Why a read failed: the source failed (`Io`), the elapsed time does not fit a
   * `TimeDelta`, or the advanced timestamp leaves the calendar.
   */
  datatype ReadError = Io(description: seq<byte>) | DeltaOutOfRange | DateOutOfRange

  /** A record as the reader delivers it: non-empty, with a newline at most as its last byte. */
  predicate IsLine(b: seq<byte>)
  {
    |b| > 0 && forall i :: 0 <= i < |b| - 1 ==> b[i] != Newline
  }

  predicate Terminated(b: seq<byte>)
  {
    |b| > 0 && b[|b| - 1] == Newline
  }

  predicate NoNewline(b: seq<byte>)
  {
    forall i :: 0 <= i < |b| ==> b[i] != Newline
  }

  /** How many bytes `read_until(b'\n')` takes from `s`: up to and including the first newline, else all of it. */
  function LineEnd(s: seq<byte>): (n: nat)
    ensures n <= |s|
    ensures s == [] <==> n == 0
    ensures s != [] ==> IsLine(s[..n])
    ensures n < |s| ==> Terminated(s[..n])
    ensures !Terminated(s[..n]) ==> n == |s| && NoNewline(s)
  {
    if s == [] then 0
    else if s[0] == Newline then 1
    else
      var n := 1 + LineEnd(s[1..]);
      assert s[..n] == [s[0]] + s[1..][..n - 1];
      n
  }

  /** The records `read_until(b'\n')` delivers from `s`, one read after another, until none is left. */
  function Records(s: seq<byte>): (rs: seq<seq<byte>>)
    decreases |s|
  {
    if s == [] then [] else
      var n := LineEnd(s);
      [s[..n]] + Records(s[n..])
  }

  /** Reading records loses and duplicates nothing: they concatenate back to the source's bytes. */
  lemma {:induction false} RecordsFlatten(s: seq<byte>)
    ensures Flatten(Records(s)) == s
    decreases |s|
  {
    if s != [] {
      var n := LineEnd(s);
      RecordsFlatten(s[n..]);
      FlattenCons(s[..n], Records(s[n..]));
      assert s[..n] + s[n..] == s;
    }
  }

  /** A terminated line is exactly what `read_until(b'\n')` takes from the front of the bytes it starts. */
  lemma {:induction false} LineEndOfLine(l: seq<byte>, rest: seq<byte>)
    requires IsLine(l) && Terminated(l)
    ensures LineEnd(l + rest) == |l|
    decreases |l|
  {
    if |l| > 1 {
      assert l[0] != Newline;
      assert (l + rest)[1..] == l[1..] + rest;
      LineEndOfLine(l[1..], rest);
    }
  }

  /** Terminated lines, concatenated, are read back as exactly those lines. */
  lemma {:induction false} RecordsOfLines(ls: seq<seq<byte>>)
    requires forall i :: 0 <= i < |ls| ==> IsLine(ls[i]) && Terminated(ls[i])
    ensures Records(Flatten(ls)) == ls
    decreases |ls|
  {
    if ls != [] {
      var l := ls[0];
      var tail := ls[1..];
      assert ls == [l] + tail;
      FlattenCons(l, tail);
      LineEndOfLine(l, Flatten(tail));
      RecordsOfLines(tail);
      var s := Flatten(ls);
      assert s[..|l|] == l && s[|l|..] == Flatten(tail);
    }
  }

  /** Every record is a line, and every record but the last ends with a newline. */
  lemma {:induction false} RecordsShape(s: seq<byte>)
    ensures forall i :: 0 <= i < |Records(s)| ==>
      IsLine(Records(s)[i]) && (i < |Records(s)| - 1 ==> Terminated(Records(s)[i]))
    decreases |s|
  {
    if s != [] {
      var n := LineEnd(s);
      RecordsShape(s[n..]);
      var rs := Records(s);
      var tail := Records(s[n..]);
      assert rs == [s[..n]] + tail;
      forall i | 0 <= i < |rs| ensures IsLine(rs[i]) && (i < |rs| - 1 ==> Terminated(rs[i])) {
        if i > 0 {
          assert rs[i] == tail[i - 1];
        } else {
          assert rs[0] == s[..n];
          if |rs| > 1 {
            assert s[n..] != [];
          }
        }
      }
    }
  }

  class Reader {
    /** The bytes the source has not delivered yet. */
    var input: seq<byte>
    /** How the source ends after `input`. */
    const ending: StreamEnd
    const clock: FixedClock
    /** The logical timestamp, nanoseconds since 1970-01-01T00:00:00Z. */
    var date: int
    /** The clock's checkpoint. */
    var instant: int
    /** The reader's own buffer, exchanged with the caller's on every line. */
    var buf: seq<byte>
    /** Everything the source has delivered so far. */
    ghost var consumed: seq<byte>
    /** Everything the source delivers before its end. */
    ghost const stream: seq<byte>

    ghost predicate Valid()
      reads this
    {
      0 <= DayOf(date) <= MaxDay && consumed + input == stream
    }

    /** The calendar day of the logical timestamp. */
    ghost function Day(): Date
      reads this
      requires Valid()
    {
      DayOf(date)
    }

    /**
     * A reader over `input`, which ends as `ending`. The clock's checkpoint is
     * taken first (`systemNow` is the platform's instant), then the wall-clock
     * time `wallNow` starts the logical timestamp.
     */
    constructor (clock: FixedClock, input: seq<byte>, ending: StreamEnd, systemNow: int, wallNow: int)
      requires 0 <= DayOf(wallNow) <= MaxDay
      ensures Valid()
      ensures this.clock == clock && this.input == input && this.ending == ending
      ensures stream == input && consumed == []
      ensures date == wallNow && instant == systemNow && buf == []
    {
      var now := clock.Now(systemNow);
      this.input := input;
      this.clock := clock;
      this.ending := ending;
      date := wallNow;
      instant := now;
      buf := [];
      consumed := [];
      stream := input;
    }

    /** The record the next read takes from the source. */
    ghost function NextRecord(): seq<byte>
      reads this
    {
      input[..LineEnd(input)]
    }

    /**
     * Reads the next record into the caller's buffer (`readBuf` in, `lineBuf` out).
     * `Eof` when the source has no more bytes; otherwise one clock question
     * advances the checkpoint and the timestamp by the same duration, and the
     * result is the day of the new timestamp.
     */
    method ReadLine(readBuf: seq<byte>) returns (r: Result<ReaderOutput, ReadError>, lineBuf: seq<byte>)
      requires Valid()
      modifies this, clock
      ensures Valid()
      // the bytes taken from the source: the first record of what remained
      ensures consumed == old(consumed) + old(NextRecord())
      ensures input == old(input)[|old(NextRecord())|..]
      // the source failed before completing a record: nothing else changes
      ensures !Terminated(old(NextRecord())) && ending.Broken? ==>
        r == Err(Io(ending.description)) && lineBuf == readBuf && buf == old(NextRecord()) &&
        date == old(date) && instant == old(instant) && clock.increments == old(clock.increments)
      // end of stream: nothing else changes and the clock is not asked
      ensures old(input) == [] && ending.EndOfStream? ==>
        r == Ok(Eof) && lineBuf == readBuf && buf == [] &&
        date == old(date) && instant == old(instant) && clock.increments == old(clock.increments)
      // a record: one clock question, whose answer advances checkpoint and timestamp alike
      ensures old(input) != [] && (Terminated(old(NextRecord())) || ending.EndOfStream?) ==>
        var d := StreamAt(old(clock.Upcoming()), 0);
        instant == old(instant) + d && clock.Upcoming() == Drop(old(clock.Upcoming()), 1) &&
        (d > MaxDeltaNs ==>
          r == Err(DeltaOutOfRange) && lineBuf == readBuf && date == old(date)) &&
        (d <= MaxDeltaNs && DayOf(old(date) + d) > MaxDay ==>
          r == Err(DateOutOfRange) && lineBuf == readBuf && date == old(date)) &&
        (d <= MaxDeltaNs && DayOf(old(date) + d) <= MaxDay ==>
          r == Ok(Line(DayOf(date))) && date == old(date) + d && lineBuf == old(NextRecord()) && buf == readBuf)
    {
      buf := [];
      var n := LineEnd(input);
      var taken := input[..n];
      assert taken == NextRecord();
      buf := buf + taken;
      consumed := consumed + taken;
      assert consumed + input[n..] == stream by {
        assert taken + input[n..] == input;
      }
      input := input[n..];
      if !Terminated(taken) && ending.Broken? {
        return Err(Io(ending.description)), readBuf;
      }
      if n == 0 {
        return Ok(Eof), readBuf;
      }
      var duration := clock.Elapsed(instant);
      instant := instant + duration;
      if duration > MaxDeltaNs {
        return Err(DeltaOutOfRange), readBuf;
      }
      if DayOf(date + duration) > MaxDay {
        return Err(DateOutOfRange), readBuf;
      }
      date := date + duration;
      buf, lineBuf := readBuf, buf;
      r := Ok(Line(DayOf(date)));
    }
  }
}
