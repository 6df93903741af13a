/**
 * The rotation engine: reads records, writes each to the file of the day it was
 * read on, supersedes a day's file by the next day's when the day changes,
 * flushes superseded files in the background, and on the way out reports a
 * reader failure in the last file, closes it and waits for every flush.
 *
 * The state of the file system the engine leaves is stated through `Settle`:
 * the files as they are once every queued flush has been applied. Flushes
 * never fail the run; a refused flush only leaves its bytes out of its file.
 */
module Rotation {
  import opened Base
  import opened Calendar
  import opened Clock
  import opened LineReader
  import opened FileHandler
  import opened Trace

  /** Where the log files go and how they are named. */
  datatype Config = Config(dir: Path, prefix: string)

  /** How the reading ended: the source was exhausted, or a read failed. */
  datatype Stop = AtEof | AtError(error: ReadError)

  /** Why a run fails: a file operation was refused, the calendar ends, or the timestamp overflowed it. */
  datatype RunError = FileFailed(error: FileError) | NoTomorrow | ClockOverflow

  /** The text that starts the report of a reader failure. */
  const MarkerPrefix: seq<byte> := Ascii("LOGS ROTATION READER ERROR ")

  /**
   * The text of a read error as the report renders it: a source failure's own
   * description, and for a duration that does not fit a `TimeDelta` the text
   * chrono's `OutOfRangeError` displays.
   */
  function Describe(e: ReadError): seq<byte>
    requires !e.DateOutOfRange?
  {
    match e
    case Io(description) => description
    case DeltaOutOfRange => Ascii("Source duration value is out of range for the target type")
  }

  /** The report of a reader failure written at the end of the last file. */
  function Marker(e: ReadError): (m: seq<byte>)
    requires !e.DateOutOfRange?
    ensures |m| >= |MarkerPrefix| && m[..|MarkerPrefix|] == MarkerPrefix
    ensures m[|MarkerPrefix|..] == Describe(e)
  {
    MarkerPrefix + Describe(e)
  }

  /** The report a run ends its last file with: that of the read error that stopped it, if any. */
  function MarkerOf(stop: Stop): seq<byte>
  {
    if stop.AtError? && !stop.error.DateOutOfRange? then Marker(stop.error) else []
  }

  /** A naming that gives distinct days distinct paths. */
  ghost predicate Injective(name: Date -> Path)
  {
    forall a, b :: name(a) == name(b) ==> a == b
  }

  /**
   * `name` gives each day the path of its log file under `cfg`: the directory
   * joined with `{prefix}-{YYYYMMDD}`. (The trigger applies the naming only to
   * paths a file handler has produced.)
   */
  ghost predicate Names(name: Date -> Path, cfg: Config)
  {
    forall d {:trigger DateStampedPath(cfg.dir, cfg.prefix, d)} :: name(d) == DateStampedPath(cfg.dir, cfg.prefix, d)
  }

  lemma NamesExist(cfg: Config)
    ensures Names((d: Date) => DateStampedPath(cfg.dir, cfg.prefix, d), cfg)
  {
  }

  /** The date-stamped naming gives distinct days distinct paths. */
  lemma NamesInjective(name: Date -> Path, cfg: Config)
    requires Names(name, cfg)
    ensures Injective(name)
  {
    forall a, b | name(a) == name(b) ensures a == b {
      assert name(a) == DateStampedPath(cfg.dir, cfg.prefix, a);
      assert name(b) == DateStampedPath(cfg.dir, cfg.prefix, b);
      DateStampedPathInjective(cfg.dir, cfg.prefix, a, b);
    }
  }

  lemma NameDistinct(name: Date -> Path, a: Date, b: Date)
    requires Injective(name) && a != b
    ensures name(a) != name(b)
  {
  }

  /**
   * No file operation of a run that read the records `t` was refused: neither
   * the creation of `today`'s file nor, for each record, the creation of its
   * day's file or the write of the record to it.
   */
  ghost predicate Accepted(faults: Faults, name: Date -> Path, today: Date, t: seq<Record>)
  {
    name(today) !in faults.create &&
    forall k {:trigger Expand(k)} :: Expand(k) ==>
      forall i :: 0 <= i < |t| ==> name(t[i].date) !in faults.create && name(t[i].date) !in faults.write
  }

  lemma AcceptedElim(faults: Faults, name: Date -> Path, today: Date, t: seq<Record>)
    requires Accepted(faults, name, today, t)
    ensures name(today) !in faults.create
    ensures forall i :: 0 <= i < |t| ==> name(t[i].date) !in faults.create && name(t[i].date) !in faults.write
  {
    assert Expand(0);
  }

  lemma AcceptedAppend(faults: Faults, name: Date -> Path, today: Date, t: seq<Record>, x: Record)
    requires Accepted(faults, name, today, t)
    requires name(x.date) !in faults.create && name(x.date) !in faults.write
    ensures Accepted(faults, name, today, t + [x])
  {
    AcceptedElim(faults, name, today, t);
    AppendLast(t, x);
    assert Expand(0);
  }

  /**
   * What a successful run that read the records `t` and stopped as `stop`
   * implies about the environment's refusals: no operation it performs was
   * refused, that is, none of those `Accepted` names, nor the creation of the
   * file of the day after the last, nor the write of a read error's report to
   * the last day's file.
   */
  ghost predicate Unrefused(faults: Faults, name: Date -> Path, today: Date, t: seq<Record>, stop: Stop)
  {
    FinalDate(today, t) < MaxDay && Accepted(faults, name, today, t) &&
    name(FinalDate(today, t) + 1) !in faults.create &&
    (stop.AtError? ==> name(FinalDate(today, t)) !in faults.write)
  }

  /** The paths of the files of the days `ds`. */
  ghost function Paths(name: Date -> Path, ds: set<Date>): set<Path>
  {
    set d | d in ds :: name(d)
  }

  // ---------------------------------------------------------------------------
  // Background flushes

  /** The files once the queued flushes have been applied, in queue order. */
  function Settle(files: map<Path, seq<byte>>, queue: seq<FlushTask>, faults: Faults): (s: map<Path, seq<byte>>)
    ensures s.Keys == files.Keys
    decreases |queue|
  {
    if queue == [] then files else Settle(Flushed(files, queue[0].output, faults), queue[1..], faults)
  }

  /** A flush spawned last is applied last. */
  lemma {:induction false} SettlePush(files: map<Path, seq<byte>>, queue: seq<FlushTask>, t: FlushTask, faults: Faults)
    ensures Settle(files, queue + [t], faults) == Flushed(Settle(files, queue, faults), t.output, faults)
    decreases |queue|
  {
    if queue == [] {
      assert [] + [t] == [t];
      assert [t][1..] == [];
    } else {
      assert (queue + [t])[1..] == queue[1..] + [t];
      SettlePush(Flushed(files, queue[0].output, faults), queue[1..], t, faults);
    }
  }

  /** Whether some queued flush would still add bytes to `p`. */
  predicate Pending(queue: seq<FlushTask>, p: Path)
  {
    exists i :: 0 <= i < |queue| && queue[i].output.pending != [] && queue[i].output.file.path == p
  }

  /** Truncating a file no queued flush adds bytes to commutes with the queued flushes. */
  lemma {:induction false} SettleCreate(files: map<Path, seq<byte>>, queue: seq<FlushTask>, p: Path, faults: Faults)
    requires !Pending(queue, p)
    ensures Settle(files[p := []], queue, faults) == Settle(files, queue, faults)[p := []]
    decreases |queue|
  {
    if queue != [] {
      var w := queue[0].output;
      var f1 := Flushed(files[p := []], w, faults);
      var f2 := Flushed(files, w, faults)[p := []];
      if w.pending == [] {
        FlushedEmpty(files[p := []], w, faults);
        FlushedEmpty(files, w, faults);
      } else {
        assert queue[0].output == w;
      }
      assert f1 == f2;
      assert !Pending(queue[1..], p) by {
        forall i | 0 <= i < |queue[1..]| ensures !(queue[1..][i].output.pending != [] && queue[1..][i].output.file.path == p) {
          assert queue[1..][i] == queue[i + 1];
        }
      }
      SettleCreate(Flushed(files, w, faults), queue[1..], p, faults);
    }
  }

  /**
   * Awaits the oldest flush, if any: it is removed from the front of the queue
   * and its effect is applied; its outcome is reported, and the eventual state
   * of the files does not change.
   */
  method ResolveFlushTask(handler: MemFileHandler, queue: seq<FlushTask>)
    returns (rest: seq<FlushTask>, r: Result<(), FileError>)
    modifies handler
    ensures queue == [] ==> rest == [] && r == Ok(()) && handler.files == old(handler.files)
    ensures queue != [] ==>
      rest == queue[1..] &&
      handler.files == Flushed(old(handler.files), queue[0].output, handler.faults) &&
      r == FlushOutcome(old(handler.files), queue[0].output, handler.faults)
    ensures Settle(handler.files, rest, handler.faults) == old(Settle(handler.files, queue, handler.faults))
  {
    if queue == [] {
      return [], Ok(());
    }
    var task := queue[0];
    r := FlushOutcome(handler.files, task.output, handler.faults);
    handler.files := Flushed(handler.files, task.output, handler.faults);
    rest := queue[1..];
  }

  /**
   * Awaits flushes from the front of the queue for as long as the front one has
   * finished; whether it has is up to the scheduler. Their outcomes are
   * discarded. The awaited flushes are a prefix of the queue, and the eventual
   * state of the files does not change.
   */
  method DrainFinished(handler: MemFileHandler, queue: seq<FlushTask>)
    returns (rest: seq<FlushTask>, ghost popped: seq<FlushTask>)
    modifies handler
    ensures popped + rest == queue
    ensures Settle(handler.files, rest, handler.faults) == old(Settle(handler.files, queue, handler.faults))
  {
    rest := queue;
    popped := [];
    while rest != []
      invariant popped + rest == queue
      invariant Settle(handler.files, rest, handler.faults) == old(Settle(handler.files, queue, handler.faults))
      decreases |rest|
    {
      var finished: bool :| true;
      if !finished {
        break;
      }
      var head := rest[0];
      var outcome;
      rest, outcome := ResolveFlushTask(handler, rest);
      popped := popped + [head];
    }
  }

  /** Awaits every queued flush, in order: the files become the eventual ones. */
  method AwaitAll(handler: MemFileHandler, queue: seq<FlushTask>) returns (ghost awaited: seq<FlushTask>)
    modifies handler
    ensures awaited == queue
    ensures handler.files == old(Settle(handler.files, queue, handler.faults))
  {
    var rest := queue;
    awaited := [];
    while rest != []
      invariant awaited + rest == queue
      invariant Settle(handler.files, rest, handler.faults) == old(Settle(handler.files, queue, handler.faults))
      decreases |rest|
    {
      ghost var head := rest[0];
      var outcome;
      rest, outcome := ResolveFlushTask(handler, rest);
      awaited := awaited + [head];
    }
  }

  // ---------------------------------------------------------------------------
  // What the engine maintains

  /**
   * Holds of every `k`. The engine's larger invariants state their definition
   * as `forall k {:trigger Expand(k)} :: Expand(k) ==> ...`, which is equivalent
   * to the definition itself but is expanded only by a proof that mentions
   * `Expand`: their introduction and elimination lemmas do, and the engine's
   * methods, which only pass the invariants along, do not.
   */
  ghost predicate Expand(k: nat)
  {
    true
  }

  /** What the file of day `d` eventually holds of the records `t`: its lines, unless its flush is refused. */
  function Content(name: Date -> Path, faults: Faults, t: seq<Record>, d: Date): seq<byte>
  {
    if name(d) in faults.flush then [] else LinesOn(t, d)
  }

  lemma PathsAdd(name: Date -> Path, ds: set<Date>, d: Date)
    ensures Paths(name, ds + {d}) == Paths(name, ds) + {name(d)}
  {
  }

  /**
   * The eventual files while the engine writes day `date`'s file, starting from
   * the files `f0`: the files of the days seen so far exist, every one but the
   * open one holds its day's records, the open one nothing yet (its bytes are
   * still buffered), and every other file is as it was.
   */
  ghost predicate Filed(s: map<Path, seq<byte>>, f0: map<Path, seq<byte>>, name: Date -> Path, faults: Faults,
                        today: Date, t: seq<Record>, date: Date)
  {
    forall k {:trigger Expand(k)} :: Expand(k) ==>
      var days := {today} + DateSet(t) + {date};
      s.Keys == f0.Keys + Paths(name, days) &&
      (forall p {:trigger f0[p]} :: p in f0 && p !in Paths(name, days) ==> s[p] == f0[p]) &&
      (forall d {:trigger Content(name, faults, t, d)} :: d in days && d != date ==>
        name(d) in s && s[name(d)] == Content(name, faults, t, d)) &&
      name(date) in s && s[name(date)] == []
  }

  /**
   * The queued flushes target the files of the days `qdates`; only flushes of
   * days before the open one can carry bytes, and none before the first record.
   */
  ghost predicate Queued(queue: seq<FlushTask>, qdates: seq<Date>, name: Date -> Path, t: seq<Record>, date: Date)
  {
    |qdates| == |queue| &&
    forall k {:trigger Expand(k)} :: Expand(k) ==>
      forall i :: 0 <= i < |queue| ==>
        queue[i].output.file.path == name(qdates[i]) &&
        (queue[i].output.pending != [] ==> t != [] && qdates[i] < date)
  }

  /** No queued flush carries bytes for a day not before the open one. */
  lemma QueuedNotPending(queue: seq<FlushTask>, qdates: seq<Date>, name: Date -> Path, t: seq<Record>, date: Date, nd: Date)
    requires Injective(name)
    requires Queued(queue, qdates, name, t, date)
    requires t != [] ==> date <= nd
    ensures !Pending(queue, name(nd))
  {
    assert Expand(0);
    forall i | 0 <= i < |queue| && queue[i].output.pending != []
      ensures queue[i].output.file.path != name(nd)
    {
      NameDistinct(name, qdates[i], nd);
    }
  }

  /**
   * Superseding the writer `out` of day `date` by a new file for day `nd`: the
   * eventual files are those before, with `nd`'s file emptied and then `out`
   * flushed.
   */
  lemma Supersede(files: map<Path, seq<byte>>, queue: seq<FlushTask>, qdates: seq<Date>, name: Date -> Path, faults: Faults,
                  t: seq<Record>, date: Date, nd: Date, out: Writer)
    requires Injective(name)
    requires Queued(queue, qdates, name, t, date)
    requires t != [] ==> date <= nd
    ensures Settle(files[name(nd) := []], queue + [FlushTask(out)], faults) ==
      Flushed(Settle(files, queue, faults)[name(nd) := []], out, faults)
  {
    QueuedNotPending(queue, qdates, name, t, date, nd);
    SettleCreate(files, queue, name(nd), faults);
    SettlePush(files[name(nd) := []], queue, FlushTask(out), faults);
  }

  lemma FinalDateSeen(today: Date, t: seq<Record>)
    ensures FinalDate(today, t) in {today} + DateSet(t)
  {
    if t != [] {
      assert t[|t| - 1].date in DateSet(t);
    }
  }

  /** Flushing a writer into an existing file appends its bytes there, unless the flush is refused. */
  lemma FlushedAt(files: map<Path, seq<byte>>, w: Writer, faults: Faults)
    requires w.file.path in files
    ensures Flushed(files, w, faults) ==
      files[w.file.path := files[w.file.path] + (if w.file.path in faults.flush then [] else w.pending)]
  {
    var p := w.file.path;
    if p in faults.flush {
      assert files[p] + [] == files[p];
      assert files[p := files[p]] == files;
    }
  }

  /** Superseding day `date`'s file by day `nd`'s adds the new file to the existing ones. */
  lemma MoveKeys(s: map<Path, seq<byte>>, f0: map<Path, seq<byte>>, name: Date -> Path, days: set<Date>,
                 date: Date, nd: Date, extra: seq<byte>)
    requires date in days
    requires s.Keys == f0.Keys + Paths(name, days)
    ensures s[name(nd) := []][name(date) := extra].Keys == f0.Keys + Paths(name, days + {nd})
  {
    PathsAdd(name, days, nd);
    assert name(date) in Paths(name, days);
  }

  /** Superseding day `date`'s file by day `nd`'s changes no file of another day. */
  lemma MoveUntouched(s: map<Path, seq<byte>>, f0: map<Path, seq<byte>>, name: Date -> Path, days: set<Date>,
                      date: Date, nd: Date, extra: seq<byte>)
    requires date in days
    requires s.Keys == f0.Keys + Paths(name, days)
    requires forall p :: p in f0 && p !in Paths(name, days) ==> s[p] == f0[p]
    ensures var s' := s[name(nd) := []][name(date) := extra];
      forall p :: p in f0 && p !in Paths(name, days + {nd}) ==> s'[p] == f0[p]
  {
    PathsAdd(name, days, nd);
    assert name(date) in Paths(name, days);
  }

  /** Superseding day `date`'s file by day `nd`'s keeps the files of the other days. */
  lemma MoveDays(s: map<Path, seq<byte>>, name: Date -> Path, faults: Faults, t: seq<Record>, days: set<Date>,
                 date: Date, nd: Date, extra: seq<byte>)
    requires Injective(name)
    requires forall d :: d in days && d != date ==> name(d) in s && s[name(d)] == Content(name, faults, t, d)
    ensures var s' := s[name(nd) := []][name(date) := extra];
      forall d :: d in days && d != date && d != nd ==>
        name(d) in s' && s'[name(d)] == Content(name, faults, t, d)
  {
    forall d | d in days && d != date && d != nd
      ensures name(d) != name(nd) && name(d) != name(date)
    {
      NameDistinct(name, d, nd);
      NameDistinct(name, d, date);
    }
  }

  /**
   * Superseding the writer of day `date`, holding `pending`, by a new file for
   * day `nd`: the eventual files are those before with `nd`'s file emptied and
   * `date`'s holding what the flush adds.
   */
  lemma SupersedeAt(files: map<Path, seq<byte>>, queue: seq<FlushTask>, qdates: seq<Date>, name: Date -> Path, faults: Faults,
                    t: seq<Record>, date: Date, nd: Date, pending: seq<byte>)
    requires Injective(name)
    requires Queued(queue, qdates, name, t, date)
    requires t != [] ==> date <= nd
    requires date != nd
    requires name(date) in Settle(files, queue, faults)
    requires Settle(files, queue, faults)[name(date)] == []
    ensures var out := Writer(InMemFile(name(date)), pending);
      Settle(files[name(nd) := []], queue + [FlushTask(out)], faults) ==
      Settle(files, queue, faults)[name(nd) := []][name(date) :=
        if name(date) in faults.flush then [] else pending]
  {
    var out := Writer(InMemFile(name(date)), pending);
    var s := Settle(files, queue, faults);
    Supersede(files, queue, qdates, name, faults, t, date, nd, out);
    NameDistinct(name, date, nd);
    FlushedAt(s[name(nd) := []], out, faults);
    assert [] + pending == pending;
  }

  /** Pushing the flush of the open day keeps the queue's shape once the engine moves to a later day. */
  lemma QueuedPush(queue: seq<FlushTask>, qdates: seq<Date>, name: Date -> Path, t: seq<Record>, date: Date, nd: Date)
    requires Queued(queue, qdates, name, t, date)
    requires t != [] ==> date < nd
    ensures var out := Writer(InMemFile(name(date)), LinesOn(t, date));
      Queued(queue + [FlushTask(out)], qdates + [date], name, t, nd)
  {
    assert Expand(0);
    var out := Writer(InMemFile(name(date)), LinesOn(t, date));
    var q := queue + [FlushTask(out)];
    var qd := qdates + [date];
    forall i | 0 <= i < |q|
      ensures q[i].output.file.path == name(qd[i]) &&
        (q[i].output.pending != [] ==> t != [] && qd[i] < nd)
    {
      if i < |queue| {
        assert q[i] == queue[i] && qd[i] == qdates[i];
      }
    }
  }

  lemma FiledIntro(s: map<Path, seq<byte>>, f0: map<Path, seq<byte>>, name: Date -> Path, faults: Faults,
                   today: Date, t: seq<Record>, date: Date, days: set<Date>)
    requires days == {today} + DateSet(t) + {date}
    requires s.Keys == f0.Keys + Paths(name, days)
    requires forall p :: p in f0 && p !in Paths(name, days) ==> s[p] == f0[p]
    requires forall d :: d in days && d != date ==> name(d) in s && s[name(d)] == Content(name, faults, t, d)
    requires name(date) in s && s[name(date)] == []
    ensures Filed(s, f0, name, faults, today, t, date)
  {
  }

  lemma FiledElim(s: map<Path, seq<byte>>, f0: map<Path, seq<byte>>, name: Date -> Path, faults: Faults,
                  today: Date, t: seq<Record>, date: Date, days: set<Date>)
    requires Filed(s, f0, name, faults, today, t, date)
    requires days == {today} + DateSet(t) + {date}
    ensures s.Keys == f0.Keys + Paths(name, days)
    ensures forall p :: p in f0 && p !in Paths(name, days) ==> s[p] == f0[p]
    ensures forall d :: d in days && d != date ==> name(d) in s && s[name(d)] == Content(name, faults, t, d)
    ensures name(date) in s && s[name(date)] == []
  {
    assert Expand(0);
  }

  /** Emptying day `nd`'s file and completing the open day's keeps the engine's view of the files, with `nd` open. */
  lemma MoveFiled(s: map<Path, seq<byte>>, f0: map<Path, seq<byte>>, name: Date -> Path, faults: Faults,
                  today: Date, t: seq<Record>, date: Date, nd: Date)
    requires Injective(name)
    requires Filed(s, f0, name, faults, today, t, date)
    requires date in {today} + DateSet(t) && nd != date
    ensures Filed(s[name(nd) := []][name(date) := Content(name, faults, t, date)], f0, name, faults, today, t, nd)
  {
    var days := {today} + DateSet(t);
    assert days + {date} == days;
    FiledElim(s, f0, name, faults, today, t, date, days);
    var extra := Content(name, faults, t, date);
    var s' := s[name(nd) := []][name(date) := extra];
    MoveKeys(s, f0, name, days, date, nd, extra);
    MoveUntouched(s, f0, name, days, date, nd, extra);
    MoveDays(s, name, faults, t, days, date, nd, extra);
    NameDistinct(name, date, nd);
    forall d | d in days + {nd} && d != nd
      ensures name(d) in s' && s'[name(d)] == Content(name, faults, t, d)
    {
    }
    FiledIntro(s', f0, name, faults, today, t, nd, days + {nd});
  }

  /** A rotation from the open day to day `nd` keeps the engine's view of the files. */
  lemma Rotate(files: map<Path, seq<byte>>, queue: seq<FlushTask>, qdates: seq<Date>, f0: map<Path, seq<byte>>,
               name: Date -> Path, faults: Faults, today: Date, t: seq<Record>, nd: Date)
    requires Injective(name)
    requires Filed(Settle(files, queue, faults), f0, name, faults, today, t, FinalDate(today, t))
    requires Queued(queue, qdates, name, t, FinalDate(today, t))
    requires nd != FinalDate(today, t) && (t != [] ==> FinalDate(today, t) < nd)
    ensures var date := FinalDate(today, t);
      var q := queue + [FlushTask(Writer(InMemFile(name(date)), LinesOn(t, date)))];
      Filed(Settle(files[name(nd) := []], q, faults), f0, name, faults, today, t, nd)
  {
    var date := FinalDate(today, t);
    var s := Settle(files, queue, faults);
    FinalDateSeen(today, t);
    var days := {today} + DateSet(t);
    assert days + {date} == days;
    FiledElim(s, f0, name, faults, today, t, date, days);
    SupersedeAt(files, queue, qdates, name, faults, t, date, nd, LinesOn(t, date));
    MoveFiled(s, f0, name, faults, today, t, date, nd);
  }

  /** Handing a record of the open day to its writer keeps the engine's view of the files. */
  lemma Append(s: map<Path, seq<byte>>, f0: map<Path, seq<byte>>, name: Date -> Path, faults: Faults,
               today: Date, t: seq<Record>, x: Record)
    requires Filed(s, f0, name, faults, today, t, x.date)
    ensures Filed(s, f0, name, faults, today, t + [x], x.date)
  {
    var days := {today} + DateSet(t) + {x.date};
    FiledElim(s, f0, name, faults, today, t, x.date, days);
    DateSetAppend(t, x);
    assert {today} + DateSet(t + [x]) + {x.date} == days;
    forall d | d != x.date
      ensures Content(name, faults, t + [x], d) == Content(name, faults, t, d)
    {
      LinesOnAppend(t, x, d);
    }
    FiledIntro(s, f0, name, faults, today, t + [x], x.date, days);
  }

  /**
   * The files a successful run leaves, starting from `f0`: every day seen
   * (`today`, the records' days) and the day after the last has its file; each
   * holds its day's records, the last one followed by `marker`, the day after
   * the last nothing; a refused flush leaves its file empty; every other file is
   * as it was.
   */
  ghost predicate Delivered(f: map<Path, seq<byte>>, f0: map<Path, seq<byte>>, name: Date -> Path, faults: Faults,
                            today: Date, t: seq<Record>, marker: seq<byte>)
  {
    forall k {:trigger Expand(k)} :: Expand(k) ==>
      var date := FinalDate(today, t);
      var days := {today} + DateSet(t);
      date < MaxDay &&
      f.Keys == f0.Keys + Paths(name, days + {date + 1}) &&
      (forall p {:trigger f0[p]} :: p in f0 && p !in Paths(name, days + {date + 1}) ==> f[p] == f0[p]) &&
      (forall d {:trigger Content(name, faults, t, d)} :: d in days && d != date ==>
        name(d) in f && f[name(d)] == Content(name, faults, t, d)) &&
      name(date) in f &&
      f[name(date)] == (if name(date) in faults.flush then [] else LinesOn(t, date) + marker) &&
      name(date + 1) in f && f[name(date + 1)] == []
  }

  lemma DeliveredIntro(f: map<Path, seq<byte>>, f0: map<Path, seq<byte>>, name: Date -> Path, faults: Faults,
                       today: Date, t: seq<Record>, marker: seq<byte>, days: set<Date>)
    requires days == {today} + DateSet(t)
    requires FinalDate(today, t) < MaxDay
    requires f.Keys == f0.Keys + Paths(name, days + {FinalDate(today, t) + 1})
    requires forall p :: p in f0 && p !in Paths(name, days + {FinalDate(today, t) + 1}) ==> f[p] == f0[p]
    requires forall d :: d in days && d != FinalDate(today, t) ==> name(d) in f && f[name(d)] == Content(name, faults, t, d)
    requires var date := FinalDate(today, t);
      name(date) in f &&
      f[name(date)] == (if name(date) in faults.flush then [] else LinesOn(t, date) + marker) &&
      name(date + 1) in f && f[name(date + 1)] == []
    ensures Delivered(f, f0, name, faults, today, t, marker)
  {
  }

  lemma DeliveredElim(f: map<Path, seq<byte>>, f0: map<Path, seq<byte>>, name: Date -> Path, faults: Faults,
                      today: Date, t: seq<Record>, marker: seq<byte>)
    requires Delivered(f, f0, name, faults, today, t, marker)
    ensures var date := FinalDate(today, t);
      var days := {today} + DateSet(t);
      date < MaxDay &&
      f.Keys == f0.Keys + Paths(name, days + {date + 1}) &&
      (forall p :: p in f0 && p !in Paths(name, days + {date + 1}) ==> f[p] == f0[p]) &&
      (forall d :: d in days && d != date ==> name(d) in f && f[name(d)] == Content(name, faults, t, d)) &&
      name(date) in f &&
      f[name(date)] == (if name(date) in faults.flush then [] else LinesOn(t, date) + marker) &&
      name(date + 1) in f && f[name(date + 1)] == []
  {
    assert Expand(0);
  }

  /** The files of the days `ds`, in that order, concatenated. */
  function FilesInOrder(f: map<Path, seq<byte>>, name: Date -> Path, ds: seq<Date>): seq<byte>
  {
    if ds == [] then []
    else
      var d := ds[|ds| - 1];
      FilesInOrder(f, name, ds[..|ds| - 1]) + (if name(d) in f then f[name(d)] else [])
  }

  /** Files that hold their days' records concatenate, in day order, to those records' bytes by day. */
  lemma {:induction false} FilesInOrderByDay(f: map<Path, seq<byte>>, name: Date -> Path, t: seq<Record>, ds: seq<Date>)
    requires forall i :: 0 <= i < |ds| ==> name(ds[i]) in f && f[name(ds[i])] == LinesOn(t, ds[i])
    ensures FilesInOrder(f, name, ds) == ByDay(t, ds)
  {
    if ds != [] {
      FilesInOrderByDay(f, name, t, ds[..|ds| - 1]);
    }
  }

  /** The same, when the last day's file holds `marker` after its records. */
  lemma FilesInOrderMarked(f: map<Path, seq<byte>>, name: Date -> Path, t: seq<Record>, ds: seq<Date>, marker: seq<byte>)
    requires ds != []
    requires forall i :: 0 <= i < |ds| - 1 ==> name(ds[i]) in f && f[name(ds[i])] == LinesOn(t, ds[i])
    requires name(ds[|ds| - 1]) in f && f[name(ds[|ds| - 1])] == LinesOn(t, ds[|ds| - 1]) + marker
    ensures FilesInOrder(f, name, ds) == ByDay(t, ds) + marker
  {
    var init := ds[..|ds| - 1];
    assert forall i :: 0 <= i < |init| ==> init[i] == ds[i];
    FilesInOrderByDay(f, name, t, init);
  }

  /** When no flush is refused, each delivered file of a day seen holds that day's records, the last one then `marker`. */
  lemma DeliveredLines(f: map<Path, seq<byte>>, f0: map<Path, seq<byte>>, name: Date -> Path, faults: Faults,
                       today: Date, t: seq<Record>, marker: seq<byte>)
    requires Delivered(f, f0, name, faults, today, t, marker) && faults.flush == {}
    ensures forall d :: d in {today} + DateSet(t) && d != FinalDate(today, t) ==> name(d) in f && f[name(d)] == LinesOn(t, d)
    ensures name(FinalDate(today, t)) in f && f[name(FinalDate(today, t))] == LinesOn(t, FinalDate(today, t)) + marker
    ensures FinalDate(today, t) < MaxDay && name(FinalDate(today, t) + 1) in f && f[name(FinalDate(today, t) + 1)] == []
  {
    DeliveredElim(f, f0, name, faults, today, t, marker);
  }

  /**
   * No record is lost, duplicated or reordered: when no flush is refused, the
   * delivered files of the days records were read on, taken in day order, hold
   * exactly the bytes of the records followed by `marker`.
   */
  lemma DeliveredInOrder(f: map<Path, seq<byte>>, f0: map<Path, seq<byte>>, name: Date -> Path, faults: Faults,
                         today: Date, t: seq<Record>, marker: seq<byte>, wallNow: int, sched: seq<nat>)
    requires Delivered(f, f0, name, faults, today, t, marker)
    requires Stamped(t, wallNow, sched) && t != [] && faults.flush == {}
    ensures FilesInOrder(f, name, DistinctDates(t)) == Bytes(t) + marker
  {
    var ds := DistinctDates(t);
    DeliveredLines(f, f0, name, faults, today, t, marker);
    StampedSorted(t, wallNow, sched);
    DistinctDatesLast(t);
    forall i | 0 <= i < |ds| - 1
      ensures name(ds[i]) in f && f[name(ds[i])] == LinesOn(t, ds[i])
    {
      assert ds[i] in {today} + DateSet(t);
    }
    FilesInOrderMarked(f, name, t, ds, marker);
    BytesByDay(t);
  }

  /**
   * A run that delivers its files after reading the whole source loses no byte
   * of it: when no flush is refused, the files of the days records were read
   * on, in day order, hold the source's bytes followed by `marker`.
   */
  lemma DeliveredSource(f: map<Path, seq<byte>>, f0: map<Path, seq<byte>>, name: Date -> Path, faults: Faults,
                        today: Date, t: seq<Record>, marker: seq<byte>, wallNow: int, sched: seq<nat>, input: seq<byte>)
    requires Delivered(f, f0, name, faults, today, t, marker)
    requires Stamped(t, wallNow, sched) && Texts(t) == Records(input) && input != [] && faults.flush == {}
    ensures FilesInOrder(f, name, DistinctDates(t)) == input + marker
  {
    assert t != [];
    DeliveredInOrder(f, f0, name, faults, today, t, marker, wallNow, sched);
    BytesTexts(t);
    RecordsFlatten(input);
  }

  /** Emptying the next day's file and completing the last one's, in the files as the run leaves them, delivers them. */
  lemma FinishFiles(s: map<Path, seq<byte>>, f0: map<Path, seq<byte>>, name: Date -> Path, faults: Faults,
                    today: Date, t: seq<Record>, date: Date, marker: seq<byte>, days: set<Date>)
    requires Injective(name)
    requires days == {today} + DateSet(t)
    requires date == FinalDate(today, t) && date < MaxDay && date + 1 !in DateSet(t)
    requires date in days
    requires s.Keys == f0.Keys + Paths(name, days)
    requires forall p :: p in f0 && p !in Paths(name, days) ==> s[p] == f0[p]
    requires forall d :: d in days && d != date ==> name(d) in s && s[name(d)] == Content(name, faults, t, d)
    ensures var extra := if name(date) in faults.flush then [] else LinesOn(t, date) + marker;
      Delivered(s[name(date + 1) := []][name(date) := extra], f0, name, faults, today, t, marker)
  {
    var nd := date + 1;
    var extra := if name(date) in faults.flush then [] else LinesOn(t, date) + marker;
    var s' := s[name(nd) := []][name(date) := extra];
    MoveKeys(s, f0, name, days, date, nd, extra);
    MoveUntouched(s, f0, name, days, date, nd, extra);
    MoveDays(s, name, faults, t, days, date, nd, extra);
    NameDistinct(name, date, nd);
    LinesOnAbsent(t, nd);
    forall d | d in days && d != date
      ensures name(d) in s' && s'[name(d)] == Content(name, faults, t, d)
    {
    }
    DeliveredIntro(s', f0, name, faults, today, t, marker, days);
  }

  /** Closing the last writer, holding its day's records and `marker`, by the next day's file delivers the files. */
  lemma Finish(files: map<Path, seq<byte>>, queue: seq<FlushTask>, qdates: seq<Date>, f0: map<Path, seq<byte>>,
               name: Date -> Path, faults: Faults, today: Date, t: seq<Record>, date: Date, output: Writer, marker: seq<byte>)
    requires Injective(name)
    requires Filed(Settle(files, queue, faults), f0, name, faults, today, t, date)
    requires Queued(queue, qdates, name, t, date)
    requires output == Writer(InMemFile(name(date)), LinesOn(t, date))
    requires date == FinalDate(today, t) && date < MaxDay && date + 1 !in DateSet(t)
    ensures Delivered(Settle(files[name(date + 1) := []], queue + [FlushTask(Writer(output.file, output.pending + marker))], faults),
                      f0, name, faults, today, t, marker)
  {
    var s := Settle(files, queue, faults);
    FinalDateSeen(today, t);
    var days := {today} + DateSet(t);
    assert days + {date} == days;
    FiledElim(s, f0, name, faults, today, t, date, days);
    SupersedeAt(files, queue, qdates, name, faults, t, date, date + 1, output.pending + marker);
    FinishFiles(s, f0, name, faults, today, t, date, marker, days);
    var extra := if name(date) in faults.flush then [] else LinesOn(t, date) + marker;
    assert Writer(InMemFile(name(date)), output.pending + marker) == Writer(output.file, output.pending + marker);
    assert Settle(files[name(date + 1) := []], queue + [FlushTask(Writer(output.file, output.pending + marker))], faults) ==
      s[name(date + 1) := []][name(date) := extra];
  }

  /**
   * What the engine keeps while day `date`'s writer `output` is open, after the
   * records `t`: the writer holds that day's records, the eventual files are
   * `Filed` and the queued flushes `Queued`.
   */
  ghost predicate Opened(files: map<Path, seq<byte>>, queue: seq<FlushTask>, qdates: seq<Date>, f0: map<Path, seq<byte>>,
                         name: Date -> Path, faults: Faults, today: Date, t: seq<Record>, date: Date, output: Writer)
  {
    |qdates| == |queue| &&
    forall k {:trigger Expand(k)} :: Expand(k) ==>
      Injective(name) &&
      output == Writer(InMemFile(name(date)), LinesOn(t, date)) &&
      Filed(Settle(files, queue, faults), f0, name, faults, today, t, date) &&
      Queued(queue, qdates, name, t, date) &&
      Accepted(faults, name, today, t) && name(date) !in faults.create
  }

  lemma OpenedElim(files: map<Path, seq<byte>>, queue: seq<FlushTask>, qdates: seq<Date>, f0: map<Path, seq<byte>>,
                   name: Date -> Path, faults: Faults, today: Date, t: seq<Record>, date: Date, output: Writer)
    requires Opened(files, queue, qdates, f0, name, faults, today, t, date, output)
    ensures Injective(name)
    ensures output == Writer(InMemFile(name(date)), LinesOn(t, date))
    ensures Filed(Settle(files, queue, faults), f0, name, faults, today, t, date)
    ensures Queued(queue, qdates, name, t, date)
    ensures Accepted(faults, name, today, t) && name(date) !in faults.create
  {
    assert Expand(0);
  }

  /** The open writer writes to the open day's file, whose creation, like every operation so far, was not refused. */
  lemma OpenedWriter(files: map<Path, seq<byte>>, queue: seq<FlushTask>, qdates: seq<Date>, f0: map<Path, seq<byte>>,
                     name: Date -> Path, faults: Faults, today: Date, t: seq<Record>, date: Date, output: Writer)
    requires Opened(files, queue, qdates, f0, name, faults, today, t, date, output)
    ensures output.file.path == name(date)
    ensures Accepted(faults, name, today, t) && name(date) !in faults.create
  {
    assert Expand(0);
  }

  /** `Opened`, with the open day the one of the last record (or `today` before any). */
  ghost predicate Progress(files: map<Path, seq<byte>>, queue: seq<FlushTask>, qdates: seq<Date>, f0: map<Path, seq<byte>>,
                           name: Date -> Path, faults: Faults, today: Date, t: seq<Record>, date: Date, output: Writer)
  {
    Opened(files, queue, qdates, f0, name, faults, today, t, date, output) && date == FinalDate(today, t)
  }

  /** Creating `today`'s file, with nothing queued or read, starts the engine's progress. */
  lemma ProgressStart(f0: map<Path, seq<byte>>, name: Date -> Path, faults: Faults, today: Date)
    requires Injective(name) && name(today) !in faults.create
    ensures Progress(f0[name(today) := []], [], [], f0, name, faults, today, [], today, Writer(InMemFile(name(today)), []))
  {
    var days := {today};
    assert DateSet([]) == {};
    assert {today} + DateSet([]) + {today} == days;
    PathsAdd(name, {}, today);
    assert Paths(name, {}) == {};
    assert {} + {today} == days;
    FiledIntro(f0[name(today) := []], f0, name, faults, today, [], today, days);
  }

  /**
   * A record stamped with a day `nd` other than the open one: superseding the
   * open writer by `nd`'s new, empty file and queueing its flush opens `nd`.
   */
  lemma ProgressNewDay(files: map<Path, seq<byte>>, queue: seq<FlushTask>, qdates: seq<Date>, f0: map<Path, seq<byte>>,
                       name: Date -> Path, faults: Faults, today: Date, t: seq<Record>, date: Date, output: Writer,
                       nd: Date, wallNow: int, sched: seq<nat>)
    requires Progress(files, queue, qdates, f0, name, faults, today, t, date, output)
    requires Stamped(t, wallNow, sched) && nd == DayOf(wallNow + Total(sched, |t| + 1)) && nd != date
    requires name(nd) !in faults.create
    ensures Opened(files[name(nd) := []], queue + [FlushTask(output)], qdates + [date], f0, name, faults,
                   today, t, nd, Writer(InMemFile(name(nd)), []))
  {
    OpenedElim(files, queue, qdates, f0, name, faults, today, t, date, output);
    if t != [] {
      NextNotEarlier(t, wallNow, sched);
      StampedSorted(t, wallNow, sched);
      SortedBelowFinal(today, t, nd);
    }
    Rotate(files, queue, qdates, f0, name, faults, today, t, nd);
    QueuedPush(queue, qdates, name, t, date, nd);
  }

  lemma QueuedDrop(queue: seq<FlushTask>, qdates: seq<Date>, name: Date -> Path, t: seq<Record>, date: Date, k: nat)
    requires Queued(queue, qdates, name, t, date) && k <= |queue|
    ensures Queued(queue[k..], qdates[k..], name, t, date)
  {
    assert Expand(0);
    forall i | 0 <= i < |queue| - k
      ensures queue[k..][i] == queue[k + i] && qdates[k..][i] == qdates[k + i]
    {
    }
  }

  /** More records keep the queue's shape. */
  lemma QueuedExtend(queue: seq<FlushTask>, qdates: seq<Date>, name: Date -> Path, t: seq<Record>, date: Date, u: seq<Record>)
    requires Queued(queue, qdates, name, t, date) && (t != [] ==> u != [])
    ensures Queued(queue, qdates, name, u, date)
  {
    assert Expand(0);
  }

  /** Awaiting flushes from the front of the queue keeps what the engine has opened. */
  lemma OpenedDrain(files: map<Path, seq<byte>>, queue: seq<FlushTask>, qdates: seq<Date>, f0: map<Path, seq<byte>>,
                    name: Date -> Path, faults: Faults, today: Date, t: seq<Record>, date: Date, output: Writer,
                    files': map<Path, seq<byte>>, popped: seq<FlushTask>, rest: seq<FlushTask>)
    requires Opened(files, queue, qdates, f0, name, faults, today, t, date, output)
    requires popped + rest == queue && Settle(files', rest, faults) == Settle(files, queue, faults)
    ensures Opened(files', rest, qdates[|popped|..], f0, name, faults, today, t, date, output)
  {
    OpenedElim(files, queue, qdates, f0, name, faults, today, t, date, output);
    assert rest == queue[|popped|..];
    QueuedDrop(queue, qdates, name, t, date, |popped|);
  }

  /** Writing a record of the open day to its writer makes progress. */
  lemma ProgressWrite(files: map<Path, seq<byte>>, queue: seq<FlushTask>, qdates: seq<Date>, f0: map<Path, seq<byte>>,
                      name: Date -> Path, faults: Faults, today: Date, t: seq<Record>, output: Writer, x: Record)
    requires Opened(files, queue, qdates, f0, name, faults, today, t, x.date, output)
    requires output.file.path !in faults.write
    ensures Progress(files, queue, qdates, f0, name, faults, today, t + [x], x.date,
                     Writer(output.file, output.pending + x.bytes))
    ensures Accepted(faults, name, today, t + [x])
  {
    OpenedElim(files, queue, qdates, f0, name, faults, today, t, x.date, output);
    AcceptedAppend(faults, name, today, t, x);
    Append(Settle(files, queue, faults), f0, name, faults, today, t, x);
    LinesOnAppend(t, x, x.date);
    RotationsAppend(today, t, x);
    QueuedExtend(queue, qdates, name, t, x.date, t + [x]);
  }

  /**
   * The run's end: the last writer, holding its day's records and `marker`, is
   * superseded by the next day's file; once every flush is applied, the files
   * are delivered.
   */
  lemma ProgressFinish(files: map<Path, seq<byte>>, queue: seq<FlushTask>, qdates: seq<Date>, f0: map<Path, seq<byte>>,
                       name: Date -> Path, faults: Faults, today: Date, t: seq<Record>, date: Date, output: Writer,
                       marker: seq<byte>, wallNow: int, sched: seq<nat>, settled: map<Path, seq<byte>>)
    requires Progress(files, queue, qdates, f0, name, faults, today, t, date, output)
    requires Stamped(t, wallNow, sched) && date < MaxDay
    requires settled == Settle(files[name(date + 1) := []], queue + [FlushTask(Writer(output.file, output.pending + marker))], faults)
    ensures Delivered(settled, f0, name, faults, today, t, marker)
  {
    OpenedElim(files, queue, qdates, f0, name, faults, today, t, date, output);
    StampedSorted(t, wallNow, sched);
    SortedBelowFinal(today, t, date + 1);
    Finish(files, queue, qdates, f0, name, faults, today, t, date, output, marker);
  }

  // ---------------------------------------------------------------------------
  // The engine

  /**
   * Where a reader stands after the records `done`: they are the first records
   * of its source, and the `|done|` clock questions asked for them have moved
   * its timestamp from `wallNow` along the schedule `sched`.
   */
  ghost predicate ReaderAt(reader: Reader, sched: seq<nat>, wallNow: int, done: seq<seq<byte>>)
    reads reader, reader.clock
  {
    reader.Valid() &&
    Records(reader.stream) == done + Records(reader.input) &&
    reader.date == wallNow + Total(sched, |done|) &&
    reader.clock.Upcoming() == Drop(sched, |done|)
  }

  /**
   * Where a read leaves the reader after the records `done`. A line is the next
   * record of the source, stamped with the day of the next timestamp of the
   * schedule; the end of the stream comes after the last record; a source
   * failure loses at most one unterminated record; a duration too long for a
   * `TimeDelta` loses the record read with it, and so does a timestamp past the
   * calendar.
   */
  ghost predicate ReadOutcome(reader: Reader, r: Result<ReaderOutput, ReadError>, lineBuf: seq<byte>,
                              sched: seq<nat>, wallNow: int, done: seq<seq<byte>>)
    reads reader, reader.clock
  {
    done <= Records(reader.stream) &&
    (r.Ok? && r.value.Line? ==>
      ReaderAt(reader, sched, wallNow, done + [lineBuf]) &&
      r.value.date == DayOf(wallNow + Total(sched, |done| + 1))) &&
    (r == Ok(Eof) ==> reader.ending == EndOfStream && Records(reader.stream) == done) &&
    (r.Err? && r.error.Io? ==>
      reader.ending == Broken(r.error.description) &&
      |Records(reader.stream)| <= |done| + 1 &&
      (|Records(reader.stream)| == |done| + 1 ==> !Terminated(Records(reader.stream)[|done|]))) &&
    (r == Err(DeltaOutOfRange) ==> |done| < |Records(reader.stream)| && StreamAt(sched, |done|) > MaxDeltaNs) &&
    (r == Err(DateOutOfRange) ==> Overflow(sched, wallNow, |done|))
  }

  /**
   * A read, on the reader's values: from a source whose records are `done`
   * followed by those of `rest`, with the timestamp `date0` and the upcoming
   * increments `up0` after `done`, a read that takes the record `rec` and
   * leaves `input1`, `date1` and `up1` has the outcome `ReadOutcome` describes.
   */
  lemma {:induction false} ReadAdvance(stream: seq<byte>, ending: StreamEnd, rest: seq<byte>, rec: seq<byte>, date0: int, up0: seq<nat>,
                    input1: seq<byte>, date1: int, up1: seq<nat>, r: Result<ReaderOutput, ReadError>, lineBuf: seq<byte>,
                    sched: seq<nat>, wallNow: int, done: seq<seq<byte>>)
    requires Records(stream) == done + Records(rest) && date0 == wallNow + Total(sched, |done|) && up0 == Drop(sched, |done|)
    requires rec == rest[..LineEnd(rest)] && input1 == rest[|rec|..] && 0 <= DayOf(date1) <= MaxDay
    requires !Terminated(rec) && ending.Broken? ==> r == Err(Io(ending.description))
    requires rest == [] && ending.EndOfStream? ==> r == Ok(Eof)
    requires rest != [] && (Terminated(rec) || ending.EndOfStream?) ==>
      var d := StreamAt(up0, 0);
      up1 == Drop(up0, 1) &&
      (d > MaxDeltaNs ==> r == Err(DeltaOutOfRange)) &&
      (d <= MaxDeltaNs && DayOf(date0 + d) > MaxDay ==> r == Err(DateOutOfRange)) &&
      (d <= MaxDeltaNs && DayOf(date0 + d) <= MaxDay ==> r == Ok(Line(DayOf(date1))) && date1 == date0 + d && lineBuf == rec)
    ensures done <= Records(stream)
    ensures |input1| <= |rest| && (r.Ok? && r.value.Line? ==> |input1| < |rest|)
    ensures r.Ok? && r.value.Line? ==>
      Records(stream) == done + [lineBuf] + Records(input1) &&
      date1 == wallNow + Total(sched, |done + [lineBuf]|) && up1 == Drop(sched, |done + [lineBuf]|) &&
      r.value.date == DayOf(wallNow + Total(sched, |done| + 1))
    ensures r == Ok(Eof) ==> ending == EndOfStream && Records(stream) == done
    ensures r.Err? && r.error.Io? ==>
      ending == Broken(r.error.description) &&
      |Records(stream)| <= |done| + 1 &&
      (|Records(stream)| == |done| + 1 ==> !Terminated(Records(stream)[|done|]))
    ensures r == Err(DeltaOutOfRange) ==> |done| < |Records(stream)| && StreamAt(sched, |done|) > MaxDeltaNs
    ensures r == Err(DateOutOfRange) ==> Overflow(sched, wallNow, |done|)
  {
    if rest == [] {
      assert Records(stream) == done;
    } else if !Terminated(rec) && ending.Broken? {
      ReadLost(stream, rest, rec, done);
    } else {
      var d := StreamAt(up0, 0);
      DropAt(sched, |done|, 0);
      ReadTaken(stream, rest, done);
      if d <= MaxDeltaNs {
        ReadLineRecord(stream, rest, rec, date0, up0, input1, date1, up1, sched, wallNow, done);
      }
    }
  }

  /** A read that fails with an unterminated record loses at most that record, the last one. */
  lemma {:induction false} ReadLost(stream: seq<byte>, rest: seq<byte>, rec: seq<byte>, done: seq<seq<byte>>)
    requires Records(stream) == done + Records(rest) && rest != []
    requires rec == rest[..LineEnd(rest)] && !Terminated(rec)
    ensures |Records(stream)| == |done| + 1 && !Terminated(Records(stream)[|done|])
  {
    assert Records(rest) == [rec];
  }

  /** A read from a non-empty rest takes a record of the source. */
  lemma {:induction false} ReadTaken(stream: seq<byte>, rest: seq<byte>, done: seq<seq<byte>>)
    requires Records(stream) == done + Records(rest) && rest != []
    ensures |done| < |Records(stream)|
  {
    assert |Records(rest)| > 0;
  }

  /** A read that delivers a line hands over the next record and takes the next timestamp of the schedule. */
  lemma {:induction false} ReadLineRecord(stream: seq<byte>, rest: seq<byte>, rec: seq<byte>, date0: int, up0: seq<nat>,
                       input1: seq<byte>, date1: int, up1: seq<nat>, sched: seq<nat>, wallNow: int, done: seq<seq<byte>>)
    requires Records(stream) == done + Records(rest) && rest != []
    requires date0 == wallNow + Total(sched, |done|) && up0 == Drop(sched, |done|)
    requires rec == rest[..LineEnd(rest)] && input1 == rest[|rec|..]
    ensures Records(stream) == done + [rec] + Records(input1)
    ensures date0 + StreamAt(up0, 0) == wallNow + Total(sched, |done + [rec]|)
    ensures Drop(up0, 1) == Drop(sched, |done + [rec]|)
  {
    ReadNextRecord(stream, rest, rec, input1, done);
    ReadNextStamp(date0, up0, sched, wallNow, |done|);
  }

  /** The record a read hands over is the next of the source's records. */
  lemma {:induction false} ReadNextRecord(stream: seq<byte>, rest: seq<byte>, rec: seq<byte>, input1: seq<byte>, done: seq<seq<byte>>)
    requires Records(stream) == done + Records(rest) && rest != []
    requires rec == rest[..LineEnd(rest)] && input1 == rest[|rec|..]
    ensures Records(stream) == done + [rec] + Records(input1)
  {
    assert Records(rest) == [rec] + Records(input1);
  }

  /** The read after `k` others is stamped with the schedule's `k+1`-th running total. */
  lemma {:induction false} ReadNextStamp(date0: int, up0: seq<nat>, sched: seq<nat>, wallNow: int, k: nat)
    requires date0 == wallNow + Total(sched, k) && up0 == Drop(sched, k)
    ensures date0 + StreamAt(up0, 0) == wallNow + Total(sched, k + 1)
    ensures Drop(up0, 1) == Drop(sched, k + 1)
  {
    DropAt(sched, k, 0);
  }

  /** The next read, in the engine's terms. */
  method ReadNext(reader: Reader, readBuf: seq<byte>, ghost sched: seq<nat>, ghost wallNow: int, ghost done: seq<seq<byte>>)
    returns (r: Result<ReaderOutput, ReadError>, lineBuf: seq<byte>)
    requires ReaderAt(reader, sched, wallNow, done)
    modifies reader, reader.clock
    ensures ReadOutcome(reader, r, lineBuf, sched, wallNow, done)
    ensures |reader.input| <= old(|reader.input|)
    ensures r.Ok? && r.value.Line? ==> |reader.input| < old(|reader.input|)
  {
    ghost var rest := reader.input;
    ghost var rec := reader.NextRecord();
    ghost var date0 := reader.date;
    ghost var up0 := reader.clock.Upcoming();
    r, lineBuf := reader.ReadLine(readBuf);
    ReadAdvance(reader.stream, reader.ending, rest, rec, date0, up0, reader.input, reader.date, reader.clock.Upcoming(),
                r, lineBuf, sched, wallNow, done);
  }

  /** Creates the first file of a run, that of `today`, and wraps it in an empty writer. */
  method OpenToday(handler: MemFileHandler, cfg: Config, today: Date, ghost name: Date -> Path)
    returns (r: Result<Writer, FileError>)
    requires Names(name, cfg)
    modifies handler
    ensures r.Ok? <==> name(today) !in handler.faults.create
    ensures r.Ok? ==> r.value == Writer(InMemFile(name(today)), []) && handler.files == old(handler.files)[name(today) := []]
    ensures r.Err? ==> r.error == CreateRefused(name(today)) && name(today) in handler.faults.create
  {
    r := handler.CreateDateStampedFile(cfg.dir, cfg.prefix, today);
  }

  /**
   * Supersedes the writer `output` by a new, empty file for day `d`: the file is
   * created, then the flush of `output` is spawned; or the creation is refused.
   */
  method SupersedeBy(handler: MemFileHandler, cfg: Config, output: Writer, d: Date, ghost name: Date -> Path)
    returns (r: Result<(Writer, FlushTask), FileError>)
    requires Names(name, cfg)
    modifies handler
    ensures r.Ok? <==> name(d) !in handler.faults.create
    ensures r.Ok? ==>
      r.value == (Writer(InMemFile(name(d)), []), FlushTask(output)) && handler.files == old(handler.files)[name(d) := []]
    ensures r.Err? ==> r.error == CreateRefused(name(d)) && name(d) in handler.faults.create && handler.files == old(handler.files)
  {
    r := handler.CloseFile(output, cfg.dir, cfg.prefix, d);
  }

  /**
   * A record of day `rd`, other than the open day `date`: the open writer is
   * superseded by `rd`'s new file and its flush queued, which opens `rd`; or
   * creating the new file is refused.
   */
  method NewDay(handler: MemFileHandler, cfg: Config, output: Writer, queue: seq<FlushTask>, date: Date, rd: Date,
                ghost name: Date -> Path, ghost qdates: seq<Date>, ghost f0: map<Path, seq<byte>>, ghost today: Date, ghost t: seq<Record>,
                ghost wallNow: int, ghost sched: seq<nat>)
    returns (r: Result<(Writer, FlushTask), FileError>)
    requires Names(name, cfg)
    requires Progress(handler.files, queue, qdates, f0, name, handler.faults, today, t, date, output)
    requires Stamped(t, wallNow, sched) && rd == DayOf(wallNow + Total(sched, |t| + 1)) && rd != date
    modifies handler
    ensures r.Ok? <==> name(rd) !in handler.faults.create
    ensures r.Err? ==> r.error == CreateRefused(name(rd)) && name(rd) in handler.faults.create
    ensures r.Ok? ==>
      r.value.1 == FlushTask(output) &&
      Opened(handler.files, queue + [FlushTask(output)], qdates + [date], f0, name, handler.faults, today, t, rd, r.value.0)
  {
    ghost var before := handler.files;
    r := SupersedeBy(handler, cfg, output, rd, name);
    if r.Ok? {
      ProgressNewDay(before, queue, qdates, f0, name, handler.faults, today, t, date, output, rd, wallNow, sched);
    }
  }

  /**
   * Closes the last writer `output`, which holds the open day's records (those
   * of `last`) followed by `marker`: the next day's file supersedes it, then
   * every queued flush is awaited. The ghost results are the flush spawned
   * here, the flushes awaited here and those left unawaited by a failure.
   */
  method Close(handler: MemFileHandler, cfg: Config, output: Writer, queue: seq<FlushTask>, date: Date,
               ghost last: Writer, ghost marker: seq<byte>, ghost name: Date -> Path, ghost qdates: seq<Date>,
               ghost f0: map<Path, seq<byte>>, ghost today: Date, ghost t: seq<Record>, ghost wallNow: int, ghost sched: seq<nat>)
    returns (result: Result<(), RunError>, ghost spawned: seq<FlushTask>,
             ghost awaited: seq<FlushTask>, ghost unawaited: seq<FlushTask>)
    requires Names(name, cfg)
    requires Progress(handler.files, queue, qdates, f0, name, handler.faults, today, t, date, last)
    requires Stamped(t, wallNow, sched)
    requires output == Writer(last.file, last.pending + marker)
    modifies handler
    ensures awaited + unawaited == queue + spawned && |spawned| <= 1
    ensures result.Ok? <==> date < MaxDay && name(date + 1) !in handler.faults.create
    ensures result.Ok? ==>
      Delivered(handler.files, f0, name, handler.faults, today, t, marker) && unawaited == [] && |spawned| == 1
    ensures result.Err? ==>
      (date < MaxDay && result == Err(FileFailed(CreateRefused(name(date + 1))))) ||
      (result == Err(NoTomorrow) && date == MaxDay)
  {
    spawned, awaited, unawaited := [], [], queue;
    var tomorrow := Succ(date);
    if tomorrow.None? {
      return Err(NoTomorrow), spawned, awaited, unawaited;
    }
    ghost var before := handler.files;
    var closed := SupersedeBy(handler, cfg, output, tomorrow.value, name);
    if closed.Err? {
      return Err(FileFailed(closed.error)), spawned, awaited, unawaited;
    }
    spawned := [closed.value.1];
    awaited := AwaitAll(handler, queue + [closed.value.1]);
    ProgressFinish(before, queue, qdates, f0, name, handler.faults, today, t, date, last, marker, wallNow, sched,
                   handler.files);
    unawaited := [];
    result := Ok(());
  }

  /**
   * The end of a run, once reading has stopped with `r`: a read error is
   * reported at the end of the open file, the next day's file supersedes it,
   * and every queued flush is awaited. The ghost results are the flush spawned
   * here, the flushes awaited here and those left unawaited by a failure.
   */
  method Conclude(handler: MemFileHandler, cfg: Config, output: Writer, queue: seq<FlushTask>, date: Date,
                  r: Result<ReaderOutput, ReadError>, ghost name: Date -> Path, ghost qdates: seq<Date>,
                  ghost f0: map<Path, seq<byte>>, ghost today: Date, ghost t: seq<Record>, ghost wallNow: int, ghost sched: seq<nat>)
    returns (result: Result<(), RunError>, ghost stop: Stop, ghost spawned: seq<FlushTask>,
             ghost awaited: seq<FlushTask>, ghost unawaited: seq<FlushTask>)
    requires Names(name, cfg)
    requires Progress(handler.files, queue, qdates, f0, name, handler.faults, today, t, date, output)
    requires Stamped(t, wallNow, sched)
    requires !(r.Ok? && r.value.Line?) && (r.Err? ==> !r.error.DateOutOfRange?)
    modifies handler
    ensures stop == (if r.Err? then AtError(r.error) else AtEof)
    ensures awaited + unawaited == queue + spawned && |spawned| <= 1
    ensures result.Ok? ==>
      Delivered(handler.files, f0, name, handler.faults, today, t, MarkerOf(stop)) &&
      unawaited == [] && |spawned| == 1
    // success: neither the report's write nor the next day's creation was refused, nor anything before
    ensures result.Ok? ==> Unrefused(handler.faults, name, today, t, stop)
    ensures result.Err? ==>
      (date < MaxDay && result == Err(FileFailed(CreateRefused(name(date + 1)))) && name(date + 1) in handler.faults.create) ||
      (result == Err(FileFailed(WriteRefused(name(date)))) && name(date) in handler.faults.write) ||
      (result == Err(NoTomorrow) && date == MaxDay)
  {
    stop, spawned, awaited, unawaited := AtEof, [], [], queue;
    OpenedWriter(handler.files, queue, qdates, f0, name, handler.faults, today, t, date, output);
    var output := output;
    ghost var last := output;
    if r.Err? {
      stop := AtError(r.error);
      var written := WriteAll(output, Marker(r.error), handler.faults);
      if written.Err? {
        return Err(FileFailed(written.error)), stop, spawned, awaited, unawaited;
      }
      output := written.value;
    } else {
      assert output.pending + [] == output.pending;
    }
    result, spawned, awaited, unawaited :=
      Close(handler, cfg, output, queue, date, last, MarkerOf(stop), name, qdates, f0, today, t, wallNow, sched);
  }

  /** The `n + 1`-th duration fits a `TimeDelta` but moves the timestamp past the calendar's last day. */
  predicate Overflow(sched: seq<nat>, wallNow: int, n: nat)
  {
    StreamAt(sched, n) <= MaxDeltaNs && DayOf(wallNow + Total(sched, n + 1)) > MaxDay
  }

  /**
   * What the engine knows of its reader after the records `trace` and the last
   * read's result `r` (with `readBuf` the line it delivered): the records are
   * the first records of the source and stamped along the schedule, and each
   * kind of result says where the reading stands.
   */
  ghost predicate Reading(reader: Reader, r: Result<ReaderOutput, ReadError>, readBuf: seq<byte>, input: seq<byte>,
                          ending: StreamEnd, sched: seq<nat>, wallNow: int, trace: seq<Record>)
    reads reader, reader.clock
  {
    reader.stream == input && reader.ending == ending &&
    (r.Ok? && r.value.Line? ==> r.value.date == DayOf(wallNow + Total(sched, |trace| + 1))) &&
    forall k {:trigger Expand(k)} :: Expand(k) ==>
      ReadFacts(reader, r, readBuf, input, ending, sched, wallNow, trace)
  }

  /** `Reading`, expanded. */
  ghost predicate ReadFacts(reader: Reader, r: Result<ReaderOutput, ReadError>, readBuf: seq<byte>, input: seq<byte>,
                            ending: StreamEnd, sched: seq<nat>, wallNow: int, trace: seq<Record>)
    reads reader, reader.clock
  {
    Texts(trace) <= Records(input) && Stamped(trace, wallNow, sched) &&
    (r.Ok? && r.value.Line? ==> ReaderAt(reader, sched, wallNow, Texts(trace) + [readBuf])) &&
    (r == Ok(Eof) ==> ending == EndOfStream && Records(input) == Texts(trace)) &&
    (r.Err? && r.error.Io? ==>
      ending == Broken(r.error.description) && |Records(input)| <= |trace| + 1 &&
      (|Records(input)| == |trace| + 1 ==> !Terminated(Records(input)[|trace|]))) &&
    (r == Err(DeltaOutOfRange) ==> |trace| < |Records(input)| && StreamAt(sched, |trace|) > MaxDeltaNs) &&
    (r == Err(DateOutOfRange) ==> Overflow(sched, wallNow, |trace|))
  }

  lemma ReadingElim(reader: Reader, r: Result<ReaderOutput, ReadError>, readBuf: seq<byte>, input: seq<byte>,
                    ending: StreamEnd, sched: seq<nat>, wallNow: int, trace: seq<Record>)
    requires Reading(reader, r, readBuf, input, ending, sched, wallNow, trace)
    ensures ReadFacts(reader, r, readBuf, input, ending, sched, wallNow, trace)
  {
    assert Expand(0);
  }

  /** What the engine's view of its reader says once reading has stopped, without the reader itself. */
  lemma ReadingStopped(reader: Reader, r: Result<ReaderOutput, ReadError>, readBuf: seq<byte>, input: seq<byte>,
                       ending: StreamEnd, sched: seq<nat>, wallNow: int, trace: seq<Record>)
    requires Reading(reader, r, readBuf, input, ending, sched, wallNow, trace)
    ensures Texts(trace) <= Records(input) && Stamped(trace, wallNow, sched)
    ensures r == Ok(Eof) ==> ending == EndOfStream && Records(input) == Texts(trace)
    ensures r.Err? && r.error.Io? ==>
      ending == Broken(r.error.description) && |Records(input)| <= |trace| + 1 &&
      (|Records(input)| == |trace| + 1 ==> !Terminated(Records(input)[|trace|]))
    ensures r == Err(DeltaOutOfRange) ==> |trace| < |Records(input)| && StreamAt(sched, |trace|) > MaxDeltaNs
    ensures r == Err(DateOutOfRange) ==> Overflow(sched, wallNow, |trace|)
  {
    ReadingElim(reader, r, readBuf, input, ending, sched, wallNow, trace);
  }

  /** A read after the records `trace` leaves the engine's view of its reader. */
  lemma ReadingIntro(reader: Reader, r: Result<ReaderOutput, ReadError>, readBuf: seq<byte>, input: seq<byte>,
                     ending: StreamEnd, sched: seq<nat>, wallNow: int, trace: seq<Record>)
    requires reader.stream == input && reader.ending == ending && Stamped(trace, wallNow, sched)
    requires ReadOutcome(reader, r, readBuf, sched, wallNow, Texts(trace))
    ensures Reading(reader, r, readBuf, input, ending, sched, wallNow, trace)
  {
  }

  lemma ReadingStamped(reader: Reader, r: Result<ReaderOutput, ReadError>, readBuf: seq<byte>, input: seq<byte>,
                       ending: StreamEnd, sched: seq<nat>, wallNow: int, trace: seq<Record>)
    requires Reading(reader, r, readBuf, input, ending, sched, wallNow, trace)
    ensures Stamped(trace, wallNow, sched) && Texts(trace) <= Records(input)
  {
    assert Expand(0);
  }

  /** The first read of a run, before any record. */
  method FirstRead(reader: Reader, ghost input: seq<byte>, ghost ending: StreamEnd, ghost sched: seq<nat>, ghost wallNow: int)
    returns (r: Result<ReaderOutput, ReadError>, readBuf: seq<byte>)
    requires reader.stream == input && reader.ending == ending && reader.consumed == [] && reader.Valid()
    requires reader.input == input && reader.date == wallNow && reader.clock.Upcoming() == sched
    modifies reader, reader.clock
    ensures Reading(reader, r, readBuf, input, ending, sched, wallNow, [])
  {
    assert ReaderAt(reader, sched, wallNow, []);
    assert Texts([]) == [];
    r, readBuf := ReadNext(reader, [], sched, wallNow, Texts([]));
    ReadingIntro(reader, r, readBuf, input, ending, sched, wallNow, []);
  }

  /** Removing a record's line from the buffers and reading the next one into them. */
  method Transfer(reader: Reader, output: Writer, faults: Faults, readBuf: seq<byte>, writeBuf: seq<byte>, date: Date,
                  ghost r: Result<ReaderOutput, ReadError>, ghost input: seq<byte>, ghost ending: StreamEnd,
                  ghost sched: seq<nat>, ghost wallNow: int, ghost trace: seq<Record>)
    returns (written: Result<Writer, FileError>, r': Result<ReaderOutput, ReadError>, readBuf': seq<byte>,
             writeBuf': seq<byte>, ghost x: Record)
    requires r.Ok? && r.value.Line? && r.value.date == date
    requires Reading(reader, r, readBuf, input, ending, sched, wallNow, trace)
    modifies reader, reader.clock
    ensures x == Record(writeBuf', date) && written == WriteAll(output, x.bytes, faults)
    ensures Reading(reader, r', readBuf', input, ending, sched, wallNow, trace + [x])
    ensures |reader.input| + (if r'.Ok? && r'.value.Line? then 1 else 0) < old(|reader.input|) + 1
  {
    ReadingElim(reader, r, readBuf, input, ending, sched, wallNow, trace);
    readBuf', writeBuf' := writeBuf, readBuf;
    written := WriteAll(output, writeBuf', faults);
    x := Record(writeBuf', date);
    StampedAppend(trace, x, wallNow, sched);
    TextsAppend(trace, x);
    ghost var done := Texts(trace + [x]);
    assert Texts(trace) + [readBuf] == done;
    r', readBuf' := ReadNext(reader, readBuf', sched, wallNow, done);
    ReadingIntro(reader, r', readBuf', input, ending, sched, wallNow, trace + [x]);
  }

  /**
   * The head of a turn of the engine's loop, for a record of day `rd`: a new
   * day supersedes the open writer, whose flush joins the queue; then the
   * flushes that have finished are taken from the front of the queue.
   */
  method Prepare(handler: MemFileHandler, cfg: Config, output: Writer, queue: seq<FlushTask>, date: Date, rd: Date,
                 ghost name: Date -> Path, ghost qdates: seq<Date>, ghost f0: map<Path, seq<byte>>, ghost today: Date,
                 ghost t: seq<Record>, ghost wallNow: int, ghost sched: seq<nat>)
    returns (failure: Option<RunError>, output': Writer, queue': seq<FlushTask>,
             ghost qdates': seq<Date>, ghost added: seq<FlushTask>, ghost popped: seq<FlushTask>)
    requires Names(name, cfg)
    requires Progress(handler.files, queue, qdates, f0, name, handler.faults, today, t, date, output)
    requires Stamped(t, wallNow, sched) && rd == DayOf(wallNow + Total(sched, |t| + 1))
    modifies handler
    ensures failure.Some? <==> rd != date && name(rd) in handler.faults.create
    ensures failure.Some? ==>
      failure.value.FileFailed? && failure.value.error.CreateRefused? && failure.value.error.path in handler.faults.create &&
      queue' == queue
    ensures failure.None? ==>
      added == (if rd != date then [FlushTask(output)] else []) && popped + queue' == queue + added &&
      Opened(handler.files, queue', qdates', f0, name, handler.faults, today, t, rd, output')
  {
    failure, output', queue', qdates', added, popped := None, output, queue, qdates, [], [];
    if rd != date {
      var closed := NewDay(handler, cfg, output, queue, date, rd, name, qdates, f0, today, t, wallNow, sched);
      if closed.Err? {
        failure := Some(FileFailed(closed.error));
        return;
      }
      added := [closed.value.1];
      output', queue', qdates' := closed.value.0, queue + [closed.value.1], qdates + [date];
    } else {
      assert queue + added == queue;
    }
    ghost var files := handler.files;
    ghost var full := queue';
    queue', popped := DrainFinished(handler, queue');
    OpenedDrain(files, full, qdates', f0, name, handler.faults, today, t, rd, output', handler.files, popped, queue');
    qdates' := qdates'[|popped|..];
  }

  /**
   * One turn of the engine's loop, for a record of day `rd` read into
   * `readBuf`: a new day supersedes the open writer first; finished flushes
   * are awaited; then the record is written while the next one is read. The
   * ghost `spawned` and `awaited` count the flushes of the run so far.
   */
  method Step(handler: MemFileHandler, cfg: Config, reader: Reader, output: Writer, queue: seq<FlushTask>, date: Date,
              r: Result<ReaderOutput, ReadError>, readBuf: seq<byte>, writeBuf: seq<byte>,
              ghost name: Date -> Path, ghost qdates: seq<Date>, ghost f0: map<Path, seq<byte>>, ghost today: Date,
              ghost trace: seq<Record>, ghost input: seq<byte>, ghost ending: StreamEnd, ghost wallNow: int,
              ghost sched: seq<nat>, ghost spawned: seq<FlushTask>, ghost awaited: seq<FlushTask>)
    returns (failure: Option<RunError>, output': Writer, queue': seq<FlushTask>, date': Date,
             r': Result<ReaderOutput, ReadError>, readBuf': seq<byte>, writeBuf': seq<byte>,
             ghost qdates': seq<Date>, ghost trace': seq<Record>, ghost spawned': seq<FlushTask>, ghost awaited': seq<FlushTask>)
    requires Names(name, cfg)
    requires r.Ok? && r.value.Line?
    requires Reading(reader, r, readBuf, input, ending, sched, wallNow, trace)
    requires Progress(handler.files, queue, qdates, f0, name, handler.faults, today, trace, date, output)
    requires awaited + queue == spawned && |spawned| == |Rotations(today, trace)|
    modifies handler, reader, reader.clock
    ensures Reading(reader, r', readBuf', input, ending, sched, wallNow, trace')
    ensures awaited' + queue' == spawned'
    ensures failure.None? ==>
      Progress(handler.files, queue', qdates', f0, name, handler.faults, today, trace', date', output') &&
      |spawned'| == |Rotations(today, trace')| && r' != Err(DateOutOfRange) &&
      Accepted(handler.faults, name, today, trace') &&
      |reader.input| + (if r'.Ok? && r'.value.Line? then 1 else 0) < old(|reader.input|) + 1
    ensures failure.Some? ==>
      (failure.value == ClockOverflow && r' == Err(DateOutOfRange)) ||
      (failure.value.FileFailed? && failure.value.error.CreateRefused? && failure.value.error.path in handler.faults.create) ||
      (failure.value.FileFailed? && failure.value.error.WriteRefused? && failure.value.error.path in handler.faults.write)
  {
    failure, output', queue', date', r', readBuf', writeBuf' := None, output, queue, date, r, readBuf, writeBuf;
    qdates', trace', spawned', awaited' := qdates, trace, spawned, awaited;
    var rd := r.value.date;
    ReadingStamped(reader, r, readBuf, input, ending, sched, wallNow, trace);
    ghost var added, popped;
    failure, output', queue', qdates', added, popped :=
      Prepare(handler, cfg, output, queue, date, rd, name, qdates, f0, today, trace, wallNow, sched);
    if failure.Some? {
      return;
    }
    date' := rd;
    spawned' := spawned + added;
    AwaitedSplit(awaited, queue, spawned, popped, queue', added);
    awaited' := awaited' + popped;
    var written;
    ghost var x;
    written, r', readBuf', writeBuf', x := Transfer(reader, output', handler.faults, readBuf, writeBuf, date', r,
                                                    input, ending, sched, wallNow, trace);
    RotationsAppend(today, trace, x);
    trace' := trace + [x];
    if r'.Err? && r'.error.DateOutOfRange? {
      failure := Some(ClockOverflow);
      return;
    }
    if written.Err? {
      failure := Some(FileFailed(written.error));
      return;
    }
    ProgressWrite(handler.files, queue', qdates', f0, name, handler.faults, today, trace, output', x);
    output' := written.value;
  }

  /** The flushes awaited by the end of a run and those left unawaited are, together, those spawned. */
  lemma AwaitedSplit(awaited: seq<FlushTask>, queue: seq<FlushTask>, spawned: seq<FlushTask>,
                     awaitedAfter: seq<FlushTask>, unawaited: seq<FlushTask>, spawnedAfter: seq<FlushTask>)
    requires awaited + queue == spawned
    requires awaitedAfter + unawaited == queue + spawnedAfter
    ensures (awaited + awaitedAfter) + unawaited == spawned + spawnedAfter
  {
    calc {
      (awaited + awaitedAfter) + unawaited;
      awaited + (awaitedAfter + unawaited);
      awaited + (queue + spawnedAfter);
      (awaited + queue) + spawnedAfter;
    }
  }

  /**
   * The engine's loop: one `Step` per line read, until a read delivers no
   * line or a step fails.
   */
  method Pump(handler: MemFileHandler, cfg: Config, reader: Reader, output: Writer, queue: seq<FlushTask>, date: Date,
              r: Result<ReaderOutput, ReadError>, readBuf: seq<byte>, writeBuf: seq<byte>,
              ghost name: Date -> Path, ghost qdates: seq<Date>, ghost f0: map<Path, seq<byte>>, ghost today: Date,
              ghost trace: seq<Record>, ghost input: seq<byte>, ghost ending: StreamEnd, ghost wallNow: int,
              ghost sched: seq<nat>, ghost spawned: seq<FlushTask>, ghost awaited: seq<FlushTask>)
    returns (failure: Option<RunError>, output': Writer, queue': seq<FlushTask>, date': Date,
             r': Result<ReaderOutput, ReadError>, readBuf': seq<byte>,
             ghost qdates': seq<Date>, ghost trace': seq<Record>, ghost spawned': seq<FlushTask>, ghost awaited': seq<FlushTask>)
    requires Names(name, cfg)
    requires Reading(reader, r, readBuf, input, ending, sched, wallNow, trace) && r != Err(DateOutOfRange)
    requires Progress(handler.files, queue, qdates, f0, name, handler.faults, today, trace, date, output)
    requires awaited + queue == spawned && |spawned| == |Rotations(today, trace)|
    modifies handler, reader, reader.clock
    ensures Reading(reader, r', readBuf', input, ending, sched, wallNow, trace')
    ensures awaited' + queue' == spawned'
    ensures failure.None? ==>
      Progress(handler.files, queue', qdates', f0, name, handler.faults, today, trace', date', output') &&
      |spawned'| == |Rotations(today, trace')| && !(r'.Ok? && r'.value.Line?) && r' != Err(DateOutOfRange)
    ensures failure.Some? ==>
      (failure.value == ClockOverflow && r' == Err(DateOutOfRange)) ||
      (failure.value.FileFailed? && failure.value.error.CreateRefused? && failure.value.error.path in handler.faults.create) ||
      (failure.value.FileFailed? && failure.value.error.WriteRefused? && failure.value.error.path in handler.faults.write)
  {
    failure, output', queue', date', r', readBuf' := None, output, queue, date, r, readBuf;
    qdates', trace', spawned', awaited' := qdates, trace, spawned, awaited;
    var writeBuf := writeBuf;
    while r'.Ok? && r'.value.Line?
      invariant failure.None?
      invariant Reading(reader, r', readBuf', input, ending, sched, wallNow, trace')
      invariant r' != Err(DateOutOfRange)
      invariant Progress(handler.files, queue', qdates', f0, name, handler.faults, today, trace', date', output')
      invariant awaited' + queue' == spawned' && |spawned'| == |Rotations(today, trace')|
      decreases |reader.input| + (if r'.Ok? && r'.value.Line? then 1 else 0)
    {
      failure, output', queue', date', r', readBuf', writeBuf, qdates', trace', spawned', awaited' :=
        Step(handler, cfg, reader, output', queue', date', r', readBuf', writeBuf,
             name, qdates', f0, today, trace', input, ending, wallNow, sched, spawned', awaited');
      if failure.Some? {
        return;
      }
    }
  }

  /**
   * The engine once today's file is open and the first read is done: the loop,
   * then the report of a read error and the shutdown.
   */
  method Drive(handler: MemFileHandler, cfg: Config, reader: Reader, output: Writer,
               r: Result<ReaderOutput, ReadError>, readBuf: seq<byte>,
               today: Date, ghost name: Date -> Path, ghost f0: map<Path, seq<byte>>,
               ghost input: seq<byte>, ghost ending: StreamEnd, ghost wallNow: int, ghost sched: seq<nat>)
    returns (result: Result<(), RunError>, ghost trace: seq<Record>, ghost stop: Stop,
             ghost spawned: seq<FlushTask>, ghost awaited: seq<FlushTask>, ghost unawaited: seq<FlushTask>)
    requires Names(name, cfg)
    requires Reading(reader, r, readBuf, input, ending, sched, wallNow, []) && r != Err(DateOutOfRange)
    requires Progress(handler.files, [], [], f0, name, handler.faults, today, [], today, output)
    modifies handler, reader, reader.clock
    // every record read, in order, tagged with the day of its timestamp
    ensures Texts(trace) <= Records(input)
    ensures Stamped(trace, wallNow, sched)
    ensures awaited + unawaited == spawned
    // success: every record delivered to its day's file, every flush awaited
    ensures result.Ok? ==>
      Delivered(handler.files, f0, name, handler.faults, today, trace, MarkerOf(stop)) &&
      unawaited == [] && |spawned| == |Rotations(today, trace)| + 1
    // success: no creation of a file or write to one was refused
    ensures result.Ok? ==> Unrefused(handler.faults, name, today, trace, stop)
    ensures result.Ok? && stop == AtEof ==> ending == EndOfStream && Texts(trace) == Records(input)
    ensures result.Ok? && stop.AtError? ==> stop.error.Io? || stop.error.DeltaOutOfRange?
    ensures result.Ok? && stop.AtError? && stop.error.Io? ==>
      ending == Broken(stop.error.description) && |Records(input)| <= |trace| + 1 &&
      (|Records(input)| == |trace| + 1 ==> !Terminated(Records(input)[|trace|]))
    ensures result.Ok? && stop == AtError(DeltaOutOfRange) ==>
      |trace| < |Records(input)| && StreamAt(sched, |trace|) > MaxDeltaNs
    // failures: a refused creation or write, the end of the calendar, a timestamp past it
    ensures result.Err? && result.error.FileFailed? ==>
      (result.error.error.CreateRefused? && result.error.error.path in handler.faults.create) ||
      (result.error.error.WriteRefused? && result.error.error.path in handler.faults.write)
    ensures result == Err(NoTomorrow) ==> FinalDate(today, trace) == MaxDay
    ensures result == Err(ClockOverflow) ==> Overflow(sched, wallNow, |trace|)
  {
    stop, unawaited := AtEof, [];
    var failure, output', queue, date, r', readBuf';
    ghost var qdates;
    assert |Rotations(today, [])| == 0;
    failure, output', queue, date, r', readBuf', qdates, trace, spawned, awaited :=
      Pump(handler, cfg, reader, output, [], today, r, readBuf, [],
           name, [], f0, today, [], input, ending, wallNow, sched, [], []);
    ReadingStopped(reader, r', readBuf', input, ending, sched, wallNow, trace);
    if failure.Some? {
      return Err(failure.value), trace, stop, spawned, awaited, queue;
    }

    ghost var spawnedAfter, awaitedAfter;
    result, stop, spawnedAfter, awaitedAfter, unawaited :=
      Conclude(handler, cfg, output', queue, date, r', name, qdates, f0, today, trace, wallNow, sched);
    assert result.Err? ==> result.error.FileFailed? || result.error == NoTomorrow;
    AwaitedSplit(awaited, queue, spawned, awaitedAfter, unawaited, spawnedAfter);
    spawned := spawned + spawnedAfter;
    awaited := awaited + awaitedAfter;
  }

  /**
   * The rotation engine over the in-memory file handler. Records are read from
   * `input` (which ends as `ending`) with timestamps advanced by `clock` from the
   * wall-clock time `wallNow`; the first file is the one of `today`. Each record
   * goes to the file of its day, a new day first superseding the open file by a
   * new one and spawning its flush. A read error is reported at the end of the
   * last file; the run then creates the next day's file and awaits every flush.
   *
   * The ghost results describe the run: the records read (`trace`), why reading
   * stopped, the flush tasks spawned, those awaited and those left unawaited by
   * a failed run.
   */
  method LogRedirect(input: seq<byte>, ending: StreamEnd, clock: FixedClock, systemNow: int, wallNow: int,
                     today: Date, cfg: Config, handler: MemFileHandler, ghost name: Date -> Path)
    returns (result: Result<(), RunError>, ghost trace: seq<Record>, ghost stop: Stop,
             ghost spawned: seq<FlushTask>, ghost awaited: seq<FlushTask>, ghost unawaited: seq<FlushTask>)
    requires 0 <= DayOf(wallNow) <= MaxDay
    requires Names(name, cfg)
    modifies clock, handler
    // every record read, in order, tagged with the day of its timestamp
    ensures Texts(trace) <= Records(input)
    ensures Stamped(trace, wallNow, old(clock.Upcoming()))
    ensures awaited + unawaited == spawned
    // success: every record delivered to its day's file, every flush awaited
    ensures result.Ok? ==>
      Delivered(handler.files, old(handler.files), name, handler.faults, today, trace, MarkerOf(stop)) &&
      unawaited == [] && |spawned| == |Rotations(today, trace)| + 1
    // success: no creation of a file or write to one was refused
    ensures result.Ok? ==> Unrefused(handler.faults, name, today, trace, stop)
    ensures result.Ok? && stop == AtEof ==> ending == EndOfStream && Texts(trace) == Records(input)
    ensures result.Ok? && stop.AtError? ==> stop.error.Io? || stop.error.DeltaOutOfRange?
    ensures result.Ok? && stop.AtError? && stop.error.Io? ==>
      ending == Broken(stop.error.description) && |Records(input)| <= |trace| + 1 &&
      (|Records(input)| == |trace| + 1 ==> !Terminated(Records(input)[|trace|]))
    ensures result.Ok? && stop == AtError(DeltaOutOfRange) ==>
      |trace| < |Records(input)| && StreamAt(old(clock.Upcoming()), |trace|) > MaxDeltaNs
    // failures: a refused creation or write, the end of the calendar, a timestamp past it
    ensures result.Err? && result.error.FileFailed? ==>
      (result.error.error.CreateRefused? && result.error.error.path in handler.faults.create) ||
      (result.error.error.WriteRefused? && result.error.error.path in handler.faults.write)
    ensures result == Err(NoTomorrow) ==> FinalDate(today, trace) == MaxDay
    ensures result == Err(ClockOverflow) ==> Overflow(old(clock.Upcoming()), wallNow, |trace|)
  {
    ghost var sched := clock.Upcoming();
    ghost var f0 := handler.files;
    NamesInjective(name, cfg);
    trace, stop, spawned, awaited, unawaited := [], AtEof, [], [], [];

    var reader := new Reader(clock, input, ending, systemNow, wallNow);
    var created := OpenToday(handler, cfg, today, name);
    if created.Err? {
      return Err(FileFailed(created.error)), trace, stop, spawned, awaited, unawaited;
    }
    var output := created.value;
    ProgressStart(f0, name, handler.faults, today);
    var r, readBuf := FirstRead(reader, input, ending, sched, wallNow);
    if r.Err? && r.error.DateOutOfRange? {
      ReadingStopped(reader, r, readBuf, input, ending, sched, wallNow, trace);
      assert sched == old(clock.Upcoming());
      return Err(ClockOverflow), trace, stop, spawned, awaited, unawaited;
    }
    result, trace, stop, spawned, awaited, unawaited :=
      Drive(handler, cfg, reader, output, r, readBuf, today, name, f0, input, ending, wallNow, sched);
    assert sched == old(clock.Upcoming());
  }
}
