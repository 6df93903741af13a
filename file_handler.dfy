/**
 * The file lifecycle: date-stamped paths, buffered writers, background flushes,
 * and the in-memory file system the rotation engine's correctness is stated
 * over. A writer (`BufWriter`) keeps the bytes written to it as `pending` until
 * it is flushed; a flush appends them to its file.
 */
module FileHandler {
  import opened Base
  import opened Calendar

  type Path = seq<char>

  /**
   * `dir.join(name)` for a relative or absolute `name`: an absolute name
   * replaces the directory, an empty directory or one ending in `/` is
   * extended directly, any other gets a `/` first.
   */
  function Join(dir: Path, name: Path): (p: Path)
    ensures |p| >= |name| && p[|p| - |name|..] == name
  {
    if |name| > 0 && name[0] == '/' then name
    else if dir == [] || dir[|dir| - 1] == '/' then dir + name
    else dir + "/" + name
  }

  /** The file name of a day's log: `{prefix}-{YYYYMMDD}`. */
  function FileName(prefix: string, d: Date): string
  {
    prefix + "-" + Stamp(d)
  }

  /** The path of a day's log file: `dir` joined with `{prefix}-{YYYYMMDD}`; it ends with the day's stamp. */
  function DateStampedPath(dir: Path, prefix: string, d: Date): (p: Path)
    ensures |p| >= 8 && p[|p| - 8..] == Stamp(d)
  {
    var name := FileName(prefix, d);
    var p := Join(dir, name);
    assert p[|p| - 8..] == p[|p| - |name|..][|name| - 8..];
    p
  }

  /** Distinct days have distinct log paths (for the same directory and prefix). */
  lemma DateStampedPathInjective(dir: Path, prefix: string, a: Date, b: Date)
    requires DateStampedPath(dir, prefix, a) == DateStampedPath(dir, prefix, b)
    ensures a == b
  {
    StampInjective(a, b);
  }

  /**
   * The operations the environment refuses, by path: creating the file, a write
   * that reaches it, and flushing buffered bytes into it. No refusals at all is
   * the in-memory file handler.
   */
  datatype Faults = Faults(create: set<Path>, write: set<Path>, flush: set<Path>)

  datatype FileError = CreateRefused(path: Path) | WriteRefused(path: Path) | FlushRefused(path: Path)

  /** A handle on one entry of the in-memory file system. */
  datatype InMemFile = InMemFile(path: Path)

  /** A buffered writer over a file: the bytes written to it and not yet flushed. */
  datatype Writer = Writer(file: InMemFile, pending: seq<byte>)

  /** A spawned background flush of a superseded writer. */
  datatype FlushTask = FlushTask(output: Writer)

  /** `write_all` on a buffered writer: the bytes join its pending bytes, unless the environment refuses the write. */
  function WriteAll(w: Writer, data: seq<byte>, faults: Faults): (r: Result<Writer, FileError>)
    ensures r.Ok? <==> w.file.path !in faults.write
    ensures r.Ok? ==> r.value == Writer(w.file, w.pending + data)
    ensures r.Err? ==> r.error == WriteRefused(w.file.path)
  {
    if w.file.path in faults.write then Err(WriteRefused(w.file.path))
    else Ok(Writer(w.file, w.pending + data))
  }

  /**
   * The file system after a flush of `w`: its pending bytes are appended to its
   * own file and to nothing else; a refused flush changes nothing.
   */
  function Flushed(files: map<Path, seq<byte>>, w: Writer, faults: Faults): (f: map<Path, seq<byte>>)
    ensures f.Keys == files.Keys
    ensures forall p :: p in files && p != w.file.path ==> f[p] == files[p]
    ensures w.file.path in files ==>
      f[w.file.path] == files[w.file.path] + (if w.file.path in faults.flush then [] else w.pending)
  {
    var p := w.file.path;
    if p in faults.flush || p !in files then files
    else files[p := files[p] + w.pending]
  }

  /** The outcome a flush task reports; the engine discards it. */
  function FlushOutcome(files: map<Path, seq<byte>>, w: Writer, faults: Faults): (r: Result<(), FileError>)
    ensures r.Ok? <==> w.file.path !in faults.flush && w.file.path in files
  {
    if w.file.path in faults.flush || w.file.path !in files then Err(FlushRefused(w.file.path)) else Ok(())
  }

  /** Flushing a writer that holds no bytes changes no file. */
  lemma FlushedEmpty(files: map<Path, seq<byte>>, w: Writer, faults: Faults)
    requires w.pending == []
    ensures Flushed(files, w, faults) == files
  {
    var p := w.file.path;
    if p !in faults.flush && p in files {
      assert files[p] + [] == files[p];
      assert files[p := files[p]] == files;
    }
  }

  /** The in-memory file handler: a map from path to the bytes of that file. */
  class MemFileHandler {
    var files: map<Path, seq<byte>>
    const faults: Faults

    constructor (faults: Faults)
      ensures files == map[] && this.faults == faults
    {
      files := map[];
      this.faults := faults;
    }

    /** Creates (or truncates) the file at `path`; every other file is left as it was. */
    method CreateFile(path: Path) returns (r: Result<InMemFile, FileError>)
      modifies this
      ensures path !in faults.create ==> r == Ok(InMemFile(path)) && files == old(files)[path := []]
      ensures path in faults.create ==> r == Err(CreateRefused(path)) && files == old(files)
    {
      if path in faults.create {
        return Err(CreateRefused(path));
      }
      files := files[path := []];
      r := Ok(InMemFile(path));
    }

    /** Creates the file of day `d` and wraps it in an empty buffered writer. */
    method CreateDateStampedFile(dir: Path, prefix: string, d: Date) returns (r: Result<Writer, FileError>)
      modifies this
      ensures var p := DateStampedPath(dir, prefix, d);
        (p !in faults.create ==> r == Ok(Writer(InMemFile(p), [])) && files == old(files)[p := []]) &&
        (p in faults.create ==> r == Err(CreateRefused(p)) && files == old(files))
    {
      var file := CreateFile(DateStampedPath(dir, prefix, d));
      if file.Err? {
        return Err(file.error);
      }
      r := Ok(Writer(file.value, []));
    }

    /**
     * Supersedes `output` by the file of day `d`: the new file is created first,
     * and only then is one flush of `output` spawned; on a refused creation no
     * flush is spawned.
     */
    method CloseFile(output: Writer, dir: Path, prefix: string, d: Date)
      returns (r: Result<(Writer, FlushTask), FileError>)
      modifies this
      ensures var p := DateStampedPath(dir, prefix, d);
        (p !in faults.create ==>
          r == Ok((Writer(InMemFile(p), []), FlushTask(output))) && files == old(files)[p := []]) &&
        (p in faults.create ==> r == Err(CreateRefused(p)) && files == old(files))
    {
      var created := CreateDateStampedFile(dir, prefix, d);
      if created.Err? {
        return Err(created.error);
      }
      r := Ok((created.value, FlushTask(output)));
    }
  }
}
