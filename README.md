# log-rotator, modelled in Dafny

`log-rotator` copies a log stream, line by line, into files named after the day.
The file for a day is `{dir}/{prefix}-{YYYYMMDD}`.

- **Reader.** Each line is tagged with the calendar day of a logical timestamp. That timestamp starts at the wall-clock time and advances by what a clock reports as elapsed.
- **Rotation.** When a line's day differs from the day of the open file, the engine rotates straight to that day. It creates the new file, then hands the old buffered writer to a background flush. Flush tasks wait in a FIFO queue. Those already finished are awaited at the head of every turn of the loop.
- **Reader failure.** A failing reader is reported at the end of the open file. The report is `LOGS ROTATION READER ERROR ` followed by the error.
- **Shutdown.** The engine supersedes the last file by the next day's (empty) file and awaits every flush before it succeeds.

The model has seven modules.

| module | file | what it models |
|---|---|---|
| `Base` | `base.dfy` | bytes, `Result`/`Option`, concatenation of byte strings |
| `Calendar` | `calendar.dfy` | days as ordinals from 0001-01-01 to 9999-12-31, the `%Y%m%d` stamp and its inverse, the day of a nanosecond timestamp (floor division), the successor day |
| `Clock` | `clock.dfy` | `FixedClock` as a class whose list of increments is stored reversed and popped from the end, falling back to 24 hours |
| `LineReader` | `reader.dfy` | `Reader` as a class: the remaining input bytes, how the source ends, the timestamp, the clock's checkpoint and the reader's own buffer; `ReadLine` clears, reads up to and including `\n`, asks the clock, advances and swaps buffers |
| `FileHandler` | `file_handler.dfy` | date-stamped paths, buffered writers as pending bytes, the in-memory file handler as a class over a `map` from path to bytes |
| `Trace`, `Rotation` | `trace.dfy`, `rotation.dfy` | the records a run reads and their days; the rotation engine `LogRedirect`, split into its first read, the rest of the run (`Drive`), the loop and one turn of it, and its conclusion, with the flush queue as a `seq` |
| `Scenarios` | `scenarios.dfy` | the two end-to-end scenarios of `src/test.rs`, as methods that build the fixed clock and in-memory handler and run the engine |

Correctness is stated over the files a run leaves, through `Settle`, which is the files once every queued flush is applied. On success every flush has been awaited, so `Settle` of the empty queue is simply the handler's files.

- **`Delivered`.** The files the engine leaves: a file for `today`, for each day a record was read on, and for the day after the last. A day's file holds exactly that day's records. The last day's file ends with the report of the read error, if there was one. The day after's file is empty.
- **`DeliveredSource`.** Taken in day order, the files hold exactly the source's bytes followed by the report.

The handler can be told to refuse creations, writes or flushes of given paths (`Faults`). Refused creations and writes fail the run. A refused flush only leaves its file empty. With no refusals it is the in-memory handler of the source.

## Model

| member | source | states |
|---|---|---|
| Calendar.ToCivil | src/file_handler.rs:23 | every day of the calendar has a valid year, month and day, which give back that day |
| Calendar.Stamp | src/file_handler.rs:23 | the `%Y%m%d` rendering of a day is eight decimal digits |
| Calendar.ParseStampOfStamp | src/file_handler.rs:23 | the stamp of a day reads back as that day |
| Calendar.StampInjective | src/file_handler.rs:23-24 | distinct days have distinct stamps |
| Calendar.DayOf | src/reader.rs:47 | the day of a timestamp is the one whose 24 hours contain it (floor division, also before 1970) |
| Calendar.DayOfMonotone | src/reader.rs:44-47 | a later timestamp never falls on an earlier day |
| Calendar.DayOfAdvance | src/reader.rs:44 | advancing a timestamp by `k` days plus less than what is left of its day lands exactly `k` days later |
| Calendar.Succ | src/lib.rs:90-92 | the next day exists exactly when the day is not the calendar's last, and is the day after |
| Clock.ReversedTwice | src/clock.rs:37-43 | reversing the list twice gives it back, so the pops come out in the order given |
| Clock.ReversedInit | src/clock.rs:53-55 | popping the last stored increment removes the first upcoming one |
| Clock.FixedClock.constructor | src/clock.rs:37-43 | the clock stores the increments reversed, so the upcoming ones are those given, in order |
| Clock.FixedClock.Now | src/clock.rs:49-51 | `now` is the platform's instant and consumes no increment |
| Clock.FixedClock.Elapsed | src/clock.rs:53-55 | `elapsed` ignores the instant, reports the next increment in the given order or 24 hours once none is left, and consumes exactly one while any remain |
| Clock.TotalMonotone | src/reader.rs:41-44 | elapsed durations never make the running total go back |
| Clock.TotalBeyond | src/clock.rs:29-31 | once the increments are used up, every further question adds 24 hours |
| LineReader.LineEnd | src/reader.rs:35 | one read takes the bytes up to and including the first newline, or all if there is none, and nothing only from an empty source |
| LineReader.RecordsFlatten | src/reader.rs:33-48 | the records read one after another concatenate back to the source's bytes |
| LineReader.RecordsOfLines | src/reader.rs:35 | newline-terminated lines, concatenated, are read back as exactly those lines |
| LineReader.RecordsShape | src/reader.rs:35 | every record is non-empty and newline-free before its end, and only the last may lack a newline |
| LineReader.Reader.constructor | src/reader.rs:22-31 | the reader takes the clock's instant first, starts its timestamp at the wall-clock time, and its buffer is empty |
| LineReader.Reader.ReadLine | src/reader.rs:33-48 | On `Eof`, nothing changes and the clock is not asked. A source failure leaves the timestamp, the checkpoint and the caller's buffer unchanged. Otherwise one clock question advances checkpoint and timestamp by the same duration. A duration too long for a `TimeDelta` fails after the checkpoint moved but before the timestamp or the caller's buffer. A line is handed over by buffer swap and tagged with the new timestamp's day |
| FileHandler.Join | src/file_handler.rs:25 | the joined path ends with the file name |
| FileHandler.DateStampedPath | src/file_handler.rs:23-25 | a day's path ends with that day's stamp |
| FileHandler.DateStampedPathInjective | src/file_handler.rs:23-25 | distinct days get distinct paths under the same directory and prefix |
| FileHandler.WriteAll | src/lib.rs:75 | a write appends its bytes to the writer's pending bytes, or is refused and reports the path |
| FileHandler.Flushed | src/file_handler.rs:71-93 | a flush appends the writer's pending bytes to its own file and changes no other file |
| FileHandler.FlushOutcome | src/file_handler.rs:37 | a flush task reports success exactly when its file exists and the flush is not refused |
| FileHandler.FlushedEmpty | src/file_handler.rs:84-93 | flushing a writer with nothing pending changes no file |
| FileHandler.MemFileHandler.constructor | src/file_handler.rs:125-128 | a new in-memory handler holds no file |
| FileHandler.MemFileHandler.CreateFile | src/file_handler.rs:140-149 | creating a file sets its path to empty, overwriting what was there, and leaves every other path unchanged |
| FileHandler.MemFileHandler.CreateDateStampedFile | src/file_handler.rs:17-27 | the day's date-stamped file is created and wrapped in an empty writer, or the refused creation is reported |
| FileHandler.MemFileHandler.CloseFile | src/file_handler.rs:29-39 | the new day's file is created first and exactly one flush of the old writer is spawned; a refused creation spawns none |
| Trace.BytesByDay | src/lib.rs:53-81 | for records in day order, the bytes of each day, taken in day order, are exactly the bytes read |
| Trace.RotationsShape | src/lib.rs:54-61 | The engine rotates to strictly increasing days. Each is a day some record was read on, and every such day other than the first file's is one. No file is made for a skipped day |
| Trace.StampedSorted | src/reader.rs:41-47 | since durations are never negative, the days a reader gives successive records never go back |
| Rotation.Marker | src/lib.rs:83-87 | the report of a read error is `LOGS ROTATION READER ERROR ` followed by the error's text, with no newline |
| Rotation.NamesInjective | src/file_handler.rs:23-25 | the date-stamped naming gives distinct days distinct paths |
| Rotation.SettlePush | src/lib.rs:59 | a flush pushed last is applied last |
| Rotation.SettleCreate | src/file_handler.rs:36-37 | creating a file no queued flush writes to commutes with the queued flushes |
| Rotation.ResolveFlushTask | src/lib.rs:104-109 | awaiting the front task pops it, applies its flush and reports its outcome; an empty queue is left as it is |
| Rotation.DrainFinished | src/lib.rs:63-72 | only finished tasks are awaited, from the front, stopping at the first unfinished one; outcomes are discarded and the eventual files do not change |
| Rotation.AwaitAll | src/lib.rs:96-99 | every queued flush is awaited in order, so the files become the eventual ones |
| Rotation.Rotate | src/lib.rs:54-61 | a rotation from the open day to a new day keeps the engine's view of the files |
| Rotation.Append | src/lib.rs:74-79 | writing a record of the open day keeps the engine's view of the files |
| Rotation.ProgressStart | src/lib.rs:45-48 | creating today's file, with nothing read or queued, starts the engine's invariant, which records that no creation or write so far was refused |
| Rotation.ProgressNewDay | src/lib.rs:54-61 | superseding the open writer by the read day's empty file and queueing its flush keeps the invariant, with that day open |
| Rotation.OpenedDrain | src/lib.rs:63-72 | awaiting flushes from the front of the queue keeps the invariant |
| Rotation.ProgressWrite | src/lib.rs:74-79 | writing a record to the writer of its day keeps the invariant; the unrefused write joins the run's unrefused operations |
| Rotation.AcceptedAppend | src/lib.rs:53-81 | a record whose file's creation and write were not refused extends a run in which nothing was refused |
| Rotation.ProgressFinish | src/lib.rs:89-99 | superseding the last writer, which holds its records and the report, by the next day's file and applying every flush delivers the files |
| Rotation.DeliveredLines | src/lib.rs:30-102 | When no flush is refused, each day's file holds that day's records. The last day's file holds its records and then the report. The day after's file is empty |
| Rotation.DeliveredInOrder | src/lib.rs:53-99 | no record is lost, duplicated or reordered: the files of the days seen, in day order, hold the records' bytes then the report |
| Rotation.DeliveredSource | src/lib.rs:30-102 | after the whole source is read, the files in day order hold exactly the source's bytes then the report |
| Rotation.ReadAdvance | src/reader.rs:33-48 | one `read_line`, applied to the bytes left after the records already read, delivers the source's next record stamped with the schedule's next running total, or stops as `ReadNext` describes |
| Rotation.ReadNext | src/lib.rs:51 | The next read delivers the next record of the source, stamped with the day of the next timestamp. `Eof` comes only after the last record. A source failure loses at most one unterminated record. A duration too long for a `TimeDelta`, or a timestamp past the calendar, loses the record read with it |
| Rotation.OpenToday | src/lib.rs:45-48 | today's file is created empty and wrapped in an empty writer; the creation fails, reporting the path, exactly when it is refused |
| Rotation.SupersedeBy | src/lib.rs:55-57 | the new day's file is created empty and the old writer's flush is returned; it fails exactly when the creation is refused, and then changes nothing |
| Rotation.NewDay | src/lib.rs:54-61 | a record of another day supersedes the open writer, queues its flush and opens the record's day; it fails exactly when that day's creation is refused |
| Rotation.FirstRead | src/lib.rs:51 | the first read starts the engine's view of its reader |
| Rotation.Transfer | src/lib.rs:74-80 | the read line is written to the open writer and the next line is read, with the buffers exchanged |
| Rotation.Prepare | src/lib.rs:54-72 | rotation, when the day changed, comes before the finished flushes are awaited, and both keep the invariant; it fails exactly when the day changed and the new day's creation is refused |
| Rotation.Step | src/lib.rs:53-81 | One turn of the loop keeps the invariant and counts one flush per rotation. It fails only on a refused creation or write, or on a timestamp past the calendar. A turn that does not fail had neither its creation nor its write refused |
| Rotation.Pump | src/lib.rs:53-81 | The loop runs while lines are read and keeps the invariant. It ends without failure only at a read that delivers no line, and fails only as `Step` does |
| Rotation.Drive | src/lib.rs:51-101 | Once today's file is open and the first read is done, the run keeps the promises `LogRedirect` states, for the files as they were before today's file was created |
| Rotation.Close | src/lib.rs:89-101 | The next day's file supersedes the last writer and every flush is awaited. It succeeds exactly when there is a next day whose creation is not refused. Otherwise it fails with the refused creation or with no next day |
| Rotation.Conclude | src/lib.rs:83-101 | A read error is reported at the end of the open file, the next day's file supersedes it, and every flush is awaited before `Ok`. Otherwise the run fails with the refused write or creation, or with no next day. `Ok` implies that neither the report's write, nor the next day's creation, nor anything before was refused |
| Rotation.LogRedirect | src/lib.rs:30-102 | Every record read is a record of the source, in order, stamped by the clock. The run fails only on a refused creation or write, at the calendar's end, or on a timestamp past it. On `Ok`, the files are delivered, every spawned flush has been awaited, and exactly one flush per rotation plus one was spawned. Stopping at `Eof` means the whole source was read. `Ok` implies that no creation of today's, a record's or the next day's file, no record's write and no report's write was refused |
| Scenarios.TestPathFormat | src/test.rs:57 | the scenarios' file of a day is `./testing.log-YYYYMMDD` |
| Scenarios.LogsRecords | src/test.rs:16-25 | the scenarios' source is read as exactly its nine lines |
| Scenarios.LogsOffsets | src/test.rs:56-76 | the source's slices 0..14, 14..72 and 72+7i..72+7(i+1) are lines 1-2, 3-4 and 5-9 |
| Scenarios.RotationStamps | src/test.rs:36-41 | with increments 3 ns, 1 s, 24 h, 2 ms, lines 1-2 fall on the start day, 3-4 on the next, then one day per line |
| Scenarios.RotationKeys | src/test.rs:48-77 | the first scenario leaves exactly eight files, those of the start day and the seven days after |
| Scenarios.RotationRead | src/test.rs:44-46 | from the engine's contract, the first scenario's run succeeds having read all nine lines, each on its day |
| Scenarios.RotationRun | src/test.rs:28-84 | The first scenario's run succeeds. It leaves files for the start day and the seven after. They hold lines 1-2, lines 3-4, then one line each, and the last is empty |
| Scenarios.ErrorTrace | src/test.rs:98 | with ten 1 ns increments, every line falls on the start day |
| Scenarios.ErrorRead | src/test.rs:101-103 | from the engine's contract, the second scenario's run succeeds, reads all nine lines and stops at the source's error |
| Scenarios.ReaderErrorRun | src/test.rs:87-117 | The second scenario's run succeeds. The start day's file holds the whole source followed by `LOGS ROTATION READER ERROR ` and the error's text. The next day's file is empty |

## Left out

- `src/main.rs` and `src/config.rs` (reading stdin, option parsing) are not part of this model. `log_redirect` (src/lib.rs:17-28) only wires in the real clock and filesystem.
- Retention: `delete_after` is never read by the engine and no file is ever deleted, so `test_delete_old_files` (src/test.rs:119-146) describes behaviour the code does not have.
- `TokioFileHandler` and `StdClock` wrap the real filesystem and the OS clock. Only the in-memory handler and `FixedClock` are modelled.
- Concurrency: the `tokio::join!` of a write and a read is modelled as the write, then the read. The two operations touch disjoint state.
- `JoinHandle::is_finished` becomes an arbitrary choice. A flush takes effect on the files when its task is awaited, not at an arbitrary moment in between.
- `Arc<RwLock<..>>` sharing is not modelled. Each `InMemFile` is its path, and the handler's map is the shared state.
- The two `Utc::now()` reads (src/lib.rs:45 and src/reader.rs:27) are independent parameters, `today` and `wallNow`. The platform's `Instant::now()` is the parameter `systemNow`.
- The source is given as its bytes followed by how it ends (`EndOfStream` or `Broken`). The reader's polling is not modelled. In particular `ErrorReader` (src/test.rs:148-177) is modelled as the nine lines followed by a failure.
- Calendar: days run from 0001-01-01 to 9999-12-31, where `%Y` is four digits. A timestamp beyond the last day makes the run fail with `ClockOverflow`. At the last day, shutdown fails with `NoTomorrow`. chrono goes on to later years and panics only at its own limit.
- `{e:?}` of an error is modelled by the error's text. For a source failure that is the failure's description. For a duration that does not fit a `TimeDelta` it is the text chrono 0.4's `OutOfRangeError` displays, "Source duration value is out of range for the target type". How `anyhow` renders with `{:?}` is not modelled: its cause chain, its backtrace and any difference between its Debug and Display forms.
- `BufWriter`'s capacity policy is left out. A writer keeps everything written to it as pending bytes until it is flushed.
- Integer widths: instants and timestamps are unbounded integers, so `Instant` overflow is not modelled. A `TimeDelta` holds at most `i64::MAX` milliseconds.
- The files a failed run leaves are not described. The source promises nothing about them.
- Rotation.LogRedirect: the engine's file naming is a ghost `name` tied to `DateStampedPath` by `Names`. The scenarios use the date-stamped naming itself.
- Rotation.DeliveredInOrder: stated only when no flush is refused. A refused flush leaves its file empty and the source discards the error.
- Scenarios.RotationRun: stated for any nine newline-terminated lines and a start more than about a second before midnight. The scenario's own assertions compare its date from a separate `Utc::now()` and only the first seven files (the `zip`). The model states all eight files.
- Scenarios.ReaderErrorRun: stated for any nine newline-terminated lines and any error text, when the run starts more than 10 ns before midnight.
