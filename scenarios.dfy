/**
 * The repository's two engine scenarios, run on the model with the in-memory
 * file handler and a fixed clock: nine log lines read while the clock crosses
 * days, and the same lines from a source that fails once it has delivered
 * them. Both start from the wall-clock time `wallNow`, whose day is also the
 * first file's.
 */
module Scenarios {
  import opened Base
  import opened Calendar
  import opened Clock
  import opened LineReader
  import opened FileHandler
  import opened Trace
  import opened Rotation

  const Line1: seq<byte> := Ascii("Line1.\n")
  const Line2: seq<byte> := Ascii("Line2.\n")
  const Line3: seq<byte> := Ascii("Line3: with more text in it.\n")
  const Line4: seq<byte> := Ascii("Line4: { \"with_json\": true }\n")
  const Line5: seq<byte> := Ascii("Line5.\n")
  const Line6: seq<byte> := Ascii("Line6.\n")
  const Line7: seq<byte> := Ascii("Line7.\n")
  const Line8: seq<byte> := Ascii("Line8.\n")
  const Line9: seq<byte> := Ascii("Line9.\n")

  const LogLines: seq<seq<byte>> := [Line1, Line2, Line3, Line4, Line5, Line6, Line7, Line8, Line9]

  /** The scenarios' input: the nine lines, one after another. */
  const Logs: seq<byte> := Flatten(LogLines)

  /** Both scenarios log to the current directory with the prefix `testing.log`. */
  const TestConfig: Config := Config(".", "testing.log")

  /** The scenarios' file naming. */
  const TestPath: Date -> Path := (d: Date) => DateStampedPath(TestConfig.dir, TestConfig.prefix, d)

  /** A scenario's file of day `d` is `./testing.log-YYYYMMDD`, as the scenarios format it. */
  lemma TestPathFormat(d: Date)
    ensures TestPath(d) == "./" + TestConfig.prefix + "-" + Stamp(d)
  {
    var name := FileName("testing.log", d);
    assert TestPath(d) == DateStampedPath(".", "testing.log", d);
    assert Join(".", name) == "." + "/" + name by {
      assert name[0] == 't';
    }
    assert "." + "/" + name == "./" + "testing.log" + "-" + Stamp(d);
  }

  /** An ASCII string with its only newline at the end is one terminated line. */
  lemma AsciiLine(s: string)
    requires |s| > 0 && s[|s| - 1] == '\n'
    requires forall i :: 0 <= i < |s| ==> s[i] as int < 256
    requires forall i :: 0 <= i < |s| - 1 ==> s[i] != '\n'
    ensures IsLine(Ascii(s)) && Terminated(Ascii(s))
  {
    var b := Ascii(s);
    forall i | 0 <= i < |b| - 1 ensures b[i] != Newline {
      assert b[i] as int == s[i] as int;
    }
  }

  lemma ShortLines()
    ensures IsLine(Line1) && Terminated(Line1) && IsLine(Line2) && Terminated(Line2)
    ensures IsLine(Line5) && Terminated(Line5) && IsLine(Line6) && Terminated(Line6)
    ensures IsLine(Line7) && Terminated(Line7) && IsLine(Line8) && Terminated(Line8)
    ensures IsLine(Line9) && Terminated(Line9)
  {
    AsciiLine("Line1.\n");
    AsciiLine("Line2.\n");
    AsciiLine("Line5.\n");
    AsciiLine("Line6.\n");
    AsciiLine("Line7.\n");
    AsciiLine("Line8.\n");
    AsciiLine("Line9.\n");
  }

  lemma LongLine3()
    ensures IsLine(Line3) && Terminated(Line3)
  {
    AsciiLine("Line3: with more text in it.\n");
  }

  lemma LongLine4()
    ensures IsLine(Line4) && Terminated(Line4)
  {
    AsciiLine("Line4: { \"with_json\": true }\n");
  }

  /** The scenarios' source is read as exactly its nine lines. */
  lemma LogsRecords()
    ensures Records(Logs) == LogLines
  {
    ShortLines();
    LongLine3();
    LongLine4();
    RecordsOfLines(LogLines);
  }

  lemma {:induction false} PrefixLength(ls: seq<seq<byte>>, m: nat)
    requires |ls| == 9 && m <= 9 && |ls[0]| == 7 && |ls[1]| == 7 && |ls[2]| == 29 && |ls[3]| == 29
    requires forall k :: 4 <= k < 9 ==> |ls[k]| == 7
    ensures |Flatten(ls[..m])| == if m <= 2 then 7 * m else if m <= 4 then 14 + 29 * (m - 2) else 72 + 7 * (m - 4)
    decreases m
  {
    if m > 0 {
      PrefixLength(ls, m - 1);
      assert ls[..m] == ls[..m - 1] + [ls[m - 1]];
      FlattenAppend(ls[..m - 1], ls[m - 1]);
    }
  }

  lemma FlattenOne(a: seq<byte>)
    ensures Flatten([a]) == a
  {
    FlattenAppend([], a);
  }

  lemma FlattenTwo(a: seq<byte>, b: seq<byte>)
    ensures Flatten([a, b]) == a + b
  {
    FlattenOne(a);
    assert [a, b] == [a] + [b];
    FlattenAppend([a], b);
  }

  /**
   * Nine lines of the scenario's lengths (7, 7, 29, 29, then 7 each) sit at the
   * byte offsets the first scenario's expectations slice the input at.
   */
  lemma NineLineOffsets(ls: seq<seq<byte>>)
    requires |ls| == 9 && |ls[0]| == 7 && |ls[1]| == 7 && |ls[2]| == 29 && |ls[3]| == 29
    requires forall k :: 4 <= k < 9 ==> |ls[k]| == 7
    ensures |Flatten(ls)| == 107
    ensures Flatten(ls)[0..14] == ls[0] + ls[1]
    ensures Flatten(ls)[14..72] == ls[2] + ls[3]
    ensures forall i :: 0 <= i < 5 ==> Flatten(ls)[72 + i * 7..72 + (i + 1) * 7] == ls[i + 4]
  {
    assert ls[..9] == ls;
    PrefixLength(ls, 9);
    PrefixLength(ls, 2);
    PrefixLength(ls, 4);
    FlattenWindow(ls, 0, 2);
    assert ls[0..2] == [ls[0], ls[1]];
    FlattenTwo(ls[0], ls[1]);
    FlattenWindow(ls, 2, 4);
    assert ls[2..4] == [ls[2], ls[3]];
    FlattenTwo(ls[2], ls[3]);
    forall i | 0 <= i < 5 ensures Flatten(ls)[72 + i * 7..72 + (i + 1) * 7] == ls[i + 4] {
      PrefixLength(ls, i + 4);
      FlattenWindow(ls, i + 4, i + 5);
      assert ls[i + 4..i + 5] == [ls[i + 4]];
      FlattenOne(ls[i + 4]);
    }
  }

  /**
   * The first scenario checks its files against slices of the input: bytes
   * 0..14 (two lines), 14..72 (two lines), then five slices of 7 bytes from 72,
   * one line each.
   */
  lemma LogsOffsets()
    ensures |Logs| == 107
    ensures Logs[0..14] == Line1 + Line2
    ensures Logs[14..72] == Line3 + Line4
    ensures forall i :: 0 <= i < 5 ==> Logs[72 + i * 7..72 + (i + 1) * 7] == LogLines[i + 4]
  {
    assert |Line1| == 7 && |Line2| == 7 && |Line3| == 29 && |Line4| == 29;
    assert |Line5| == 7 && |Line6| == 7 && |Line7| == 7 && |Line8| == 7 && |Line9| == 7;
    NineLineOffsets(LogLines);
  }

  // ---------------------------------------------------------------------------
  // Lines across days

  /** The first scenario's clock: 3 ns, 1 s, 24 h, 2 ms, then 24 hours a question. */
  const RotationIncrements: seq<nat> := [3, 1_000_000_000, NsPerDay, 2_000_000]

  /** How many days after the start the first scenario's clock puts its `i`-th line (the tenth question: 7). */
  function RotationDay(i: nat): int
  {
    if i < 2 then 0 else if i < 4 then 1 else i - 2
  }

  /** Every duration the first scenario's clock reports is at most a day. */
  lemma RotationDurations(j: nat)
    ensures StreamAt(RotationIncrements, j) <= NsPerDay
  {
    if j < 4 {
      assert RotationIncrements[j] <= NsPerDay;
    }
  }

  /**
   * Unless the run starts in the last second of a day, the first two lines fall
   * on the start day, the next two on the day after, and each further line a day
   * later; the tenth question would reach the seventh day after the start.
   */
  lemma RotationStamps(wallNow: int, i: nat)
    requires i < 10 && wallNow % NsPerDay + 1_002_000_003 < NsPerDay
    ensures DayOf(wallNow + Total(RotationIncrements, i + 1)) == DayOf(wallNow) + RotationDay(i)
  {
    var s := RotationIncrements;
    assert Total(s, 1) == 3 by { assert Total(s, 0) == 0 && s[0] == 3; }
    assert Total(s, 2) == 1_000_000_003 by { assert s[1] == 1_000_000_000; }
    assert Total(s, 3) == NsPerDay + 1_000_000_003 by { assert s[2] == NsPerDay; }
    assert Total(s, 4) == NsPerDay + 1_002_000_003 by { assert s[3] == 2_000_000; }
    if i == 0 {
      assert Total(s, 1) == 0 * NsPerDay + 3;
      DayOfAdvance(wallNow, 0, 3);
    } else if i == 1 {
      assert Total(s, 2) == 0 * NsPerDay + 1_000_000_003;
      DayOfAdvance(wallNow, 0, 1_000_000_003);
    } else if i == 2 {
      assert Total(s, 3) == 1 * NsPerDay + 1_000_000_003;
      DayOfAdvance(wallNow, 1, 1_000_000_003);
    } else {
      assert Total(s, 4) == 1 * NsPerDay + 1_002_000_003;
      TotalBeyond(s, i + 1);
      assert Total(s, i + 1) == (i - 2) * NsPerDay + 1_002_000_003;
      DayOfAdvance(wallNow, i - 2, 1_002_000_003);
    }
  }

  /** The records of a run of the first scenario fall on the days the clock gives the lines. */
  lemma RotationTrace(t: seq<Record>, wallNow: int)
    requires |t| <= 9 && Stamped(t, wallNow, RotationIncrements)
    requires wallNow % NsPerDay + 1_002_000_003 < NsPerDay
    ensures forall i :: 0 <= i < |t| ==> t[i].date == DayOf(wallNow) + RotationDay(i)
  {
    forall i | 0 <= i < |t| ensures t[i].date == DayOf(wallNow) + RotationDay(i) {
      assert t[i].date == DayOf(wallNow + Total(RotationIncrements, i + 1));
      RotationStamps(wallNow, i);
    }
  }

  lemma BytesOne(u: seq<Record>)
    requires |u| == 1
    ensures Bytes(u) == u[0].bytes
  {
    assert u[..0] == [];
  }

  lemma BytesTwo(u: seq<Record>)
    requires |u| == 2
    ensures Bytes(u) == u[0].bytes + u[1].bytes
  {
    BytesOne(u[..1]);
  }

  lemma TestNames()
    ensures Names(TestPath, TestConfig)
  {
  }

  /** The days of a run of the first scenario that read all nine lines: the start day and the six after it. */
  lemma RotationDates(t: seq<Record>, d: Date)
    requires d + 8 <= MaxDay && |t| == 9
    requires forall i :: 0 <= i < |t| ==> t[i].date == d + RotationDay(i)
    ensures FinalDate(d, t) == d + 6
    ensures forall e: Date :: e in {d} + DateSet(t) <==> d <= e <= d + 6
  {
    assert t[8].date == d + RotationDay(8);
    forall e: Date | d <= e <= d + 6 ensures e in DateSet(t) {
      var i := if e == d then 0 else if e == d + 1 then 2 else e - d + 2;
      assert t[i].date == e;
    }
  }

  /** A delivered run of the first scenario stores eight files: one per day from the start day to seven days later. */
  lemma RotationKeys(f: map<Path, seq<byte>>, name: Date -> Path, t: seq<Record>, d: Date)
    requires Injective(name)
    requires d + 8 <= MaxDay && |t| == 9
    requires Delivered(f, map[], name, Faults({}, {}, {}), d, t, [])
    requires forall i :: 0 <= i < |t| ==> t[i].date == d + RotationDay(i)
    ensures forall e: Date {:trigger name(e)} :: name(e) in f <==> d <= e <= d + 7
    ensures forall p :: p in f ==> exists e: Date {:trigger name(e)} :: d <= e <= d + 7 && p == name(e)
  {
    DeliveredElim(f, map[], name, Faults({}, {}, {}), d, t, []);
    RotationDates(t, d);
    var days := {d} + DateSet(t) + {d + 7};
    assert f.Keys == Paths(name, days);
    forall e: Date ensures name(e) in f <==> d <= e <= d + 7 {
      if name(e) in f {
        var e' :| e' in days && name(e') == name(e);
        assert e' == e;
      }
    }
  }

  /** A delivered run of the first scenario without a reader failure leaves each day's lines in that day's file. */
  lemma RotationDayFiles(f: map<Path, seq<byte>>, name: Date -> Path, t: seq<Record>, d: Date)
    requires d + 8 <= MaxDay
    requires Delivered(f, map[], name, Faults({}, {}, {}), d, t, [])
    requires FinalDate(d, t) == d + 6 && forall e: Date :: e in {d} + DateSet(t) <==> d <= e <= d + 6
    ensures forall e: Date {:trigger name(e)} :: d <= e <= d + 6 ==> name(e) in f && f[name(e)] == LinesOn(t, e)
    ensures name(d + 7) in f && f[name(d + 7)] == []
  {
    DeliveredLines(f, map[], name, Faults({}, {}, {}), d, t, []);
    assert LinesOn(t, d + 6) + [] == LinesOn(t, d + 6);
  }

  /** The records on a day that are exactly those at `lo` and `lo + 1`. */
  lemma LinesOnPair(t: seq<Record>, d: Date, lo: nat)
    requires lo + 2 <= |t|
    requires forall i :: 0 <= i < |t| ==> (t[i].date == d <==> lo <= i < lo + 2)
    ensures LinesOn(t, d) == t[lo].bytes + t[lo + 1].bytes
  {
    LinesOnRange(t, lo, lo + 2, d);
    BytesTwo(t[lo..lo + 2]);
  }

  /** The first scenario's clock puts the first two lines on the start day and the next two on the day after. */
  lemma RotationLinesPaired(t: seq<Record>, d: Date)
    requires d + 8 <= MaxDay && |t| == 9
    requires forall i :: 0 <= i < |t| ==> t[i].date == d + RotationDay(i)
    ensures LinesOn(t, d) == t[0].bytes + t[1].bytes
    ensures LinesOn(t, d + 1) == t[2].bytes + t[3].bytes
  {
    forall i | 0 <= i < |t| ensures (t[i].date == d <==> 0 <= i < 2) && (t[i].date == d + 1 <==> 2 <= i < 4) {
      assert t[i].date == d + RotationDay(i);
    }
    LinesOnPair(t, d, 0);
    LinesOnPair(t, d + 1, 2);
  }

  /** From the second day after the start on, the first scenario's clock puts one line a day. */
  lemma RotationLineAlone(t: seq<Record>, d: Date, e: Date)
    requires d + 8 <= MaxDay && |t| == 9 && d + 2 <= e <= d + 6
    requires forall i :: 0 <= i < |t| ==> t[i].date == d + RotationDay(i)
    ensures LinesOn(t, e) == t[e - d + 2].bytes
  {
    var k := e - d;
    forall i | 0 <= i < |t| ensures t[i].date == e <==> k + 2 <= i < k + 3 {
      assert t[i].date == d + RotationDay(i);
    }
    LinesOnRange(t, k + 2, k + 3, e);
    BytesOne(t[k + 2..k + 3]);
  }

  /** The records the first scenario's clock spreads over seven days: two, two, then one a day. */
  lemma RotationLinesOn(t: seq<Record>, d: Date)
    requires d + 8 <= MaxDay && |t| == 9
    requires forall i :: 0 <= i < |t| ==> t[i].date == d + RotationDay(i)
    ensures LinesOn(t, d) == t[0].bytes + t[1].bytes
    ensures LinesOn(t, d + 1) == t[2].bytes + t[3].bytes
    ensures forall e: Date :: d + 2 <= e <= d + 6 ==> LinesOn(t, e) == t[e - d + 2].bytes
  {
    RotationLinesPaired(t, d);
    forall e: Date | d + 2 <= e <= d + 6 ensures LinesOn(t, e) == t[e - d + 2].bytes {
      RotationLineAlone(t, d, e);
    }
  }

  /** The first scenario's files are exactly those of `today` and the seven days after it. */
  ghost predicate RotationPaths(f: map<Path, seq<byte>>, today: Date)
    requires today + 7 <= MaxDay
  {
    (forall e: Date {:trigger TestPath(e)} :: TestPath(e) in f <==> today <= e <= today + 7) &&
    (forall p :: p in f ==> exists e: Date {:trigger TestPath(e)} :: today <= e <= today + 7 && p == TestPath(e))
  }

  /**
   * What the first scenario's files hold: the first two lines, the next two,
   * then one line a day for five days, and nothing on the last day.
   */
  ghost predicate RotationContents(f: map<Path, seq<byte>>, today: Date, lines: seq<seq<byte>>)
    requires today + 7 <= MaxDay && |lines| == 9
  {
    (forall e: Date {:trigger TestPath(e)} :: today <= e <= today + 7 ==> TestPath(e) in f) &&
    f[TestPath(today)] == lines[0] + lines[1] &&
    f[TestPath(today + 1)] == lines[2] + lines[3] &&
    (forall e: Date {:trigger TestPath(e)} :: today + 2 <= e <= today + 6 ==> f[TestPath(e)] == lines[e - today + 2]) &&
    f[TestPath(today + 7)] == []
  }

  lemma RotationFilePaths(f: map<Path, seq<byte>>, t: seq<Record>, today: Date)
    requires today + 8 <= MaxDay && |t| == 9
    requires Delivered(f, map[], TestPath, Faults({}, {}, {}), today, t, [])
    requires forall i :: 0 <= i < |t| ==> t[i].date == today + RotationDay(i)
    ensures RotationPaths(f, today)
  {
    TestNames();
    NamesInjective(TestPath, TestConfig);
    RotationKeys(f, TestPath, t, today);
  }

  lemma RotationFileContents(f: map<Path, seq<byte>>, t: seq<Record>, today: Date, lines: seq<seq<byte>>)
    requires today + 8 <= MaxDay && |t| == 9
    requires Delivered(f, map[], TestPath, Faults({}, {}, {}), today, t, [])
    requires Texts(t) == lines
    requires forall i :: 0 <= i < |t| ==> t[i].date == today + RotationDay(i)
    ensures RotationContents(f, today, lines)
  {
    RotationDates(t, today);
    RotationDayFiles(f, TestPath, t, today);
    RotationLinesOn(t, today);
    assert forall i :: 0 <= i < 9 ==> lines[i] == t[i].bytes;
  }

  /**
   * Given the engine's contract for a run of the first scenario (`sched` the
   * clock's increments, `faults` the handler's), the run succeeds having read
   * all nine lines, each on its day.
   */
  lemma RotationRead(lines: seq<seq<byte>>, wallNow: int, today: Date, sched: seq<nat>, faults: Faults,
                     result: Result<(), RunError>, trace: seq<Record>, stop: Stop)
    requires |lines| == 9 && forall i :: 0 <= i < 9 ==> IsLine(lines[i]) && Terminated(lines[i])
    requires today == DayOf(wallNow) && today + 8 <= MaxDay
    requires wallNow % NsPerDay + 1_002_000_003 < NsPerDay
    requires sched == RotationIncrements && faults == Faults({}, {}, {})
    requires Texts(trace) <= Records(Flatten(lines))
    requires Stamped(trace, wallNow, sched)
    requires result.Ok? && stop == AtEof ==> Texts(trace) == Records(Flatten(lines))
    requires result.Ok? && stop.AtError? ==> stop.error.Io? || stop.error.DeltaOutOfRange?
    requires result.Ok? && stop.AtError? && stop.error.Io? ==> EndOfStream == Broken(stop.error.description)
    requires result.Ok? && stop == AtError(DeltaOutOfRange) ==> StreamAt(sched, |trace|) > MaxDeltaNs
    requires result.Err? && result.error.FileFailed? ==>
      (result.error.error.CreateRefused? && result.error.error.path in faults.create) ||
      (result.error.error.WriteRefused? && result.error.error.path in faults.write)
    requires result == Err(NoTomorrow) ==> FinalDate(today, trace) == MaxDay
    requires result == Err(ClockOverflow) ==> Overflow(sched, wallNow, |trace|)
    ensures result.Ok? && stop == AtEof && |trace| == 9 && Texts(trace) == lines
    ensures forall i :: 0 <= i < |trace| ==> trace[i].date == today + RotationDay(i)
  {
    RecordsOfLines(lines);
    RotationTrace(trace, wallNow);
    RotationStamps(wallNow, |trace|);
    RotationDurations(|trace|);
    assert FinalDate(today, trace) < MaxDay by {
      assert trace != [] ==> trace[|trace| - 1].date <= today + 6;
    }
    assert !Overflow(sched, wallNow, |trace|);
    assert faults.create == {} && faults.write == {};
    Succeeded(result);
    assert stop == AtEof;
  }

  /**
   * The first scenario, for any nine newline-terminated `lines` (the scenario's
   * own are `LogLines`): they are read while the clock reports 3 ns, 1 s, 24 h,
   * 2 ms and then 24 hours a question, in a run started at `wallNow` on a day
   * with more than a second left. The run succeeds; the files are those of the
   * start day and the seven after it, the first holding two lines, the second
   * the next two, the next five one line each, and the last nothing.
   */
  method RotationRun(lines: seq<seq<byte>>, systemNow: int, wallNow: int, today: Date)
    returns (result: Result<(), RunError>, files: map<Path, seq<byte>>)
    requires |lines| == 9 && forall i :: 0 <= i < 9 ==> IsLine(lines[i]) && Terminated(lines[i])
    requires today == DayOf(wallNow) && today + 8 <= MaxDay
    requires wallNow % NsPerDay + 1_002_000_003 < NsPerDay
    ensures result.Ok?
    ensures RotationPaths(files, today) && RotationContents(files, today, lines)
  {
    var clock := new FixedClock(RotationIncrements);
    var handler := new MemFileHandler(Faults({}, {}, {}));
    TestNames();
    ghost var sched := clock.Upcoming();
    ghost var trace, stop, spawned, awaited, unawaited;
    result, trace, stop, spawned, awaited, unawaited :=
      LogRedirect(Flatten(lines), EndOfStream, clock, systemNow, wallNow, today, TestConfig, handler, TestPath);
    files := handler.files;
    RotationRead(lines, wallNow, today, sched, handler.faults, result, trace, stop);
    assert MarkerOf(stop) == [];
    RotationFilePaths(files, trace, today);
    RotationFileContents(files, trace, today, lines);
  }

  // ---------------------------------------------------------------------------
  // A source that fails after its lines

  /** The second scenario's clock: 1 ns for each of ten questions. */
  const ErrorIncrements: seq<nat> := [1, 1, 1, 1, 1, 1, 1, 1, 1, 1]

  /** The description of the second scenario's read error. */
  const IntentionalError: seq<byte> := Ascii("Intentional error!")

  lemma {:induction false} ErrorTotal(n: nat)
    requires n <= 10
    ensures Total(ErrorIncrements, n) == n
  {
    if n > 0 {
      ErrorTotal(n - 1);
      assert ErrorIncrements[n - 1] == 1;
    }
  }

  /** Every duration the second scenario's clock reports is at most a day. */
  lemma ErrorDurations(j: nat)
    ensures StreamAt(ErrorIncrements, j) <= NsPerDay
  {
    if j < 10 {
      assert ErrorIncrements[j] == 1;
    }
  }

  /** Ten nanoseconds after a start with at least that much of its day left, the day has not changed. */
  lemma ErrorStamps(wallNow: int, i: nat)
    requires i < 10 && wallNow % NsPerDay + 10 < NsPerDay
    ensures DayOf(wallNow + Total(ErrorIncrements, i + 1)) == DayOf(wallNow)
  {
    ErrorTotal(i + 1);
    DayOfAdvance(wallNow, 0, i + 1);
  }

  /** The records of a run of the second scenario all fall on the start day. */
  lemma ErrorTrace(t: seq<Record>, wallNow: int)
    requires |t| <= 9 && Stamped(t, wallNow, ErrorIncrements)
    requires wallNow % NsPerDay + 10 < NsPerDay
    ensures forall i :: 0 <= i < |t| ==> t[i].date == DayOf(wallNow)
  {
    forall i | 0 <= i < |t| ensures t[i].date == DayOf(wallNow) {
      assert t[i].date == DayOf(wallNow + Total(ErrorIncrements, i + 1));
      ErrorStamps(wallNow, i);
    }
  }

  /**
   * What the second scenario expects: exactly two files, the start day's with
   * the whole input followed by the report of the read error, and an empty one
   * for the day after.
   */
  ghost predicate ErrorLayout(f: map<Path, seq<byte>>, today: Date, input: seq<byte>, report: seq<byte>)
    requires today < MaxDay
  {
    (forall p :: p in f <==> p == TestPath(today) || p == TestPath(today + 1)) &&
    f[TestPath(today)] == input + report &&
    f[TestPath(today + 1)] == []
  }

  /** A delivered run whose records all fell on the start day stores two files: that day's and the next's. */
  lemma OneDayKeys(f: map<Path, seq<byte>>, name: Date -> Path, t: seq<Record>, today: Date, marker: seq<byte>)
    requires Delivered(f, map[], name, Faults({}, {}, {}), today, t, marker)
    requires today < MaxDay && t != [] && forall i :: 0 <= i < |t| ==> t[i].date == today
    ensures forall p :: p in f <==> p == name(today) || p == name(today + 1)
  {
    DeliveredElim(f, map[], name, Faults({}, {}, {}), today, t, marker);
    assert FinalDate(today, t) == today;
    assert {today} + DateSet(t) + {today + 1} == {today, today + 1};
  }

  /** A delivered run that ends on the start day leaves that day's records, then the report, in its file. */
  lemma OneDayFile(f: map<Path, seq<byte>>, name: Date -> Path, t: seq<Record>, today: Date, marker: seq<byte>)
    requires Delivered(f, map[], name, Faults({}, {}, {}), today, t, marker)
    requires today < MaxDay && FinalDate(today, t) == today
    ensures name(today) in f && f[name(today)] == LinesOn(t, today) + marker
    ensures name(today + 1) in f && f[name(today + 1)] == []
  {
    DeliveredLines(f, map[], name, Faults({}, {}, {}), today, t, marker);
  }

  /** Records all read on one day are that day's bytes. */
  lemma OneDayBytes(t: seq<Record>, today: Date)
    requires forall i :: 0 <= i < |t| ==> t[i].date == today
    ensures LinesOn(t, today) == Flatten(Texts(t))
  {
    LinesOnAll(t, today);
    BytesTexts(t);
  }

  /** The files a delivered run of the second scenario leaves when every record fell on the start day. */
  lemma ErrorFiles(f: map<Path, seq<byte>>, t: seq<Record>, today: Date, lines: seq<seq<byte>>, marker: seq<byte>)
    requires today < MaxDay && t != []
    requires Delivered(f, map[], TestPath, Faults({}, {}, {}), today, t, marker)
    requires Texts(t) == lines
    requires forall i :: 0 <= i < |t| ==> t[i].date == today
    ensures ErrorLayout(f, today, Flatten(lines), marker)
  {
    OneDayKeys(f, TestPath, t, today, marker);
    assert FinalDate(today, t) == today by {
      assert t[|t| - 1].date == today;
    }
    OneDayFile(f, TestPath, t, today, marker);
    OneDayBytes(t, today);
  }

  /** A source whose every record is terminated, read up to at most its last record, was read in full. */
  lemma AllRead(read: seq<seq<byte>>, lines: seq<seq<byte>>)
    requires read <= lines && |lines| <= |read| + 1
    requires |lines| == |read| + 1 ==> !Terminated(lines[|read|])
    requires forall i :: 0 <= i < |lines| ==> Terminated(lines[i])
    ensures read == lines
  {
  }

  /** A run that fails neither on a file, nor at the end of the calendar, nor on the clock, succeeds. */
  lemma Succeeded(result: Result<(), RunError>)
    requires !(result.Err? && result.error.FileFailed?)
    requires result != Err(NoTomorrow) && result != Err(ClockOverflow)
    ensures result.Ok?
  {
  }

  /**
   * Given the engine's contract for a run of the second scenario (`sched` the
   * clock's increments, `faults` the handler's), the run succeeds having read
   * all nine lines on the start day, and stops at the source's error.
   */
  lemma ErrorRead(lines: seq<seq<byte>>, description: seq<byte>, wallNow: int, today: Date, sched: seq<nat>,
                  faults: Faults, result: Result<(), RunError>, trace: seq<Record>, stop: Stop)
    requires |lines| == 9 && forall i :: 0 <= i < 9 ==> IsLine(lines[i]) && Terminated(lines[i])
    requires today == DayOf(wallNow) && today < MaxDay
    requires wallNow % NsPerDay + 10 < NsPerDay
    requires sched == ErrorIncrements && faults == Faults({}, {}, {})
    requires Texts(trace) <= Records(Flatten(lines))
    requires Stamped(trace, wallNow, sched)
    requires result.Ok? && stop == AtEof ==> Broken(description) == EndOfStream
    requires result.Ok? && stop.AtError? ==> stop.error.Io? || stop.error.DeltaOutOfRange?
    requires result.Ok? && stop.AtError? && stop.error.Io? ==>
      Broken(description) == Broken(stop.error.description) && |Records(Flatten(lines))| <= |trace| + 1 &&
      (|Records(Flatten(lines))| == |trace| + 1 ==> !Terminated(Records(Flatten(lines))[|trace|]))
    requires result.Ok? && stop == AtError(DeltaOutOfRange) ==> StreamAt(sched, |trace|) > MaxDeltaNs
    requires result.Err? && result.error.FileFailed? ==>
      (result.error.error.CreateRefused? && result.error.error.path in faults.create) ||
      (result.error.error.WriteRefused? && result.error.error.path in faults.write)
    requires result == Err(NoTomorrow) ==> FinalDate(today, trace) == MaxDay
    requires result == Err(ClockOverflow) ==> Overflow(sched, wallNow, |trace|)
    ensures result.Ok? && stop == AtError(Io(description)) && |trace| == 9 && Texts(trace) == lines
    ensures forall i :: 0 <= i < |trace| ==> trace[i].date == today
  {
    RecordsOfLines(lines);
    ErrorTrace(trace, wallNow);
    ErrorStamps(wallNow, |trace|);
    ErrorDurations(|trace|);
    assert FinalDate(today, trace) == today;
    assert !Overflow(sched, wallNow, |trace|);
    assert faults.create == {} && faults.write == {};
    Succeeded(result);
    assert stop == AtError(Io(description));
    AllRead(Texts(trace), lines);
  }

  /**
   * The second scenario, for any nine newline-terminated `lines` (the
   * scenario's own are `LogLines`) from a source that fails with `description`
   * (the scenario's own is `IntentionalError`) once it has delivered them, read
   * while the clock reports 1 ns a question, in a run started at `wallNow` on a
   * day with more than 10 ns left. The run succeeds: no line is lost, the
   * report of the error ends the start day's file, and the day after has an
   * empty file.
   */
  method ReaderErrorRun(lines: seq<seq<byte>>, description: seq<byte>, systemNow: int, wallNow: int, today: Date)
    returns (result: Result<(), RunError>, files: map<Path, seq<byte>>)
    requires |lines| == 9 && forall i :: 0 <= i < 9 ==> IsLine(lines[i]) && Terminated(lines[i])
    requires today == DayOf(wallNow) && today < MaxDay
    requires wallNow % NsPerDay + 10 < NsPerDay
    ensures result.Ok?
    ensures ErrorLayout(files, today, Flatten(lines), MarkerPrefix + description)
  {
    var clock := new FixedClock(ErrorIncrements);
    var handler := new MemFileHandler(Faults({}, {}, {}));
    TestNames();
    ghost var sched := clock.Upcoming();
    ghost var trace, stop, spawned, awaited, unawaited;
    result, trace, stop, spawned, awaited, unawaited :=
      LogRedirect(Flatten(lines), Broken(description), clock, systemNow, wallNow, today, TestConfig, handler, TestPath);
    files := handler.files;
    ErrorRead(lines, description, wallNow, today, sched, handler.faults, result, trace, stop);
    assert MarkerOf(stop) == MarkerPrefix + description;
    ErrorFiles(files, trace, today, lines, MarkerOf(stop));
  }
}
