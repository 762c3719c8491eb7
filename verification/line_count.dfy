/**
 * The line-count mojo: it walks each configured directory, collects the files
 * whose extension is included, counts their non-empty lines and adds the
 * per-directory counts into one total.
 *
 * The file system is an input: each configured directory comes as the tree
 * found at its path, and `disk` says what reading a file's path yields (a path
 * outside `disk` cannot be opened).
 */
module LineCount {
  import opened Wrappers
  import opened Lines
  import opened FileTree

  /** The extensions used when none are configured. */
  const DefaultFiles: seq<string> := ["java", "xml", "properties"]

  /** The configured extensions after defaulting. */
  function WithDefaults(includes: set<string>): (r: set<string>)
    ensures r != {}
    ensures includes <= r
    ensures includes != {} ==> r == includes
    ensures includes == {} ==> forall x :: x in r <==> x in DefaultFiles
  {
    if includes == {} then
      var defaults := set x | x in DefaultFiles;
      assert DefaultFiles[0] in defaults;
      defaults
    else includes
  }

  /** Why counting a directory can stop. */
  datatype Failure =
    | IOError           // an I/O exception while opening or reading a file
    | IndexOutOfBounds  // the display path's substring throws

  datatype Outcome = Ok(lines: nat) | Fail(failure: Failure)

  /** What the build sees once the mojo has run. */
  datatype ExecResult =
    | Succeeded(total: nat)
      /** an I/O exception, caught and rethrown as the mojo's failure */
    | MojoFailure
      /** an exception that the mojo does not catch */
    | UncheckedException

  function ExecResultOf(o: Outcome): ExecResult {
    match o
    case Ok(n) => Succeeded(n)
    case Fail(IOError) => MojoFailure
    case Fail(IndexOutOfBounds) => UncheckedException
  }

  /**
   * The display path of a directory: its absolute path without as many leading
   * characters as the base directory's path has. It fails when the base path is
   * the longer one.
   */
  function RelativePath(absolute: Path, base: Path): (r: Option<string>)
    ensures r.Some? <==> |base| <= |absolute|
    ensures r.Some? ==> |r.value| == |absolute| - |base| && absolute == absolute[..|base|] + r.value
    ensures base <= absolute ==> r.Some? && absolute == base + r.value
  {
    if |base| <= |absolute| then Some(absolute[|base|..]) else None
  }

  /** Opening and reading `p` to its end succeeds. */
  predicate Readable(disk: map<Path, Content>, p: Path) {
    p in disk && !disk[p].readError
  }

  /** The non-empty lines of the file at `p`. */
  function LinesOf(disk: map<Path, Content>, p: Path): nat {
    if p in disk then NonEmptyCount(disk[p].lines) else 0
  }

  /** Total of the non-empty lines of a set of files, each file once. */
  ghost function SumLines(files: set<Path>, disk: map<Path, Content>): nat
    decreases files
  {
    if files == {} then 0
    else
      var f :| f in files;
      LinesOf(disk, f) + SumLines(files - {f}, disk)
  }

  /** The sum does not depend on which file is taken first. */
  lemma {:induction false} SumLinesRemove(files: set<Path>, f: Path, disk: map<Path, Content>)
    requires f in files
    ensures SumLines(files, disk) == LinesOf(disk, f) + SumLines(files - {f}, disk)
    decreases files
  {
    var g :| g in files && SumLines(files, disk) == LinesOf(disk, g) + SumLines(files - {g}, disk);
    if g != f {
      SumLinesRemove(files - {g}, f, disk);
      SumLinesRemove(files - {f}, g, disk);
      assert files - {g} - {f} == files - {f} - {g};
    }
  }

  /** Adding one more file adds exactly its lines. */
  lemma SumLinesAdd(done: set<Path>, f: Path, disk: map<Path, Content>)
    requires f !in done
    ensures SumLines(done + {f}, disk) == SumLines(done, disk) + LinesOf(disk, f)
  {
    SumLinesRemove(done + {f}, f, disk);
    assert done + {f} - {f} == done;
  }

  /**
   * Reading every file of `files`: `None` when some file cannot be opened or
   * read to its end, else the total of their non-empty lines.
   */
  ghost function FilesTotal(files: set<Path>, disk: map<Path, Content>): Option<nat> {
    if exists p :: p in files && !Readable(disk, p) then None
    else Some(SumLines(files, disk))
  }

  /**
   * What counting one configured directory yields: zero when it does not exist;
   * otherwise an I/O error when some collected file cannot be read, else an
   * out-of-bounds failure when the display path cannot be cut, else the sum of
   * the collected files' lines.
   */
  ghost function DirCount(dir: Entry, includes: set<string>, base: Path, disk: map<Path, Content>): Outcome {
    if !dir.Exists() then Ok(0)
    else
      match FilesTotal(Collected(dir, includes), disk)
      case None => Fail(IOError)
      case Some(n) => if RelativePath(dir.path, base).None? then Fail(IndexOutOfBounds) else Ok(n)
  }

  /** Counting the directories in order, stopping at the first failure. */
  ghost function SumDirs(dirs: seq<Entry>, includes: set<string>, base: Path, disk: map<Path, Content>): Outcome
    decreases |dirs|
  {
    if dirs == [] then Ok(0)
    else
      var prev := SumDirs(dirs[..|dirs| - 1], includes, base, disk);
      if prev.Fail? then prev
      else
        match DirCount(dirs[|dirs| - 1], includes, base, disk)
        case Fail(e) => Fail(e)
        case Ok(n) => Ok(prev.lines + n)
  }

  lemma SumDirsSnoc(dirs: seq<Entry>, d: Entry, includes: set<string>, base: Path, disk: map<Path, Content>)
    ensures SumDirs(dirs + [d], includes, base, disk) ==
      var prev := SumDirs(dirs, includes, base, disk);
      if prev.Fail? then prev
      else
        match DirCount(d, includes, base, disk)
        case Fail(e) => Fail(e)
        case Ok(n) => Ok(prev.lines + n)
  {
    assert (dirs + [d])[..|dirs + [d]| - 1] == dirs;
  }

  /** Once a failure occurs, later directories cannot undo it. */
  lemma {:induction false} SumDirsFailPersists(a: seq<Entry>, b: seq<Entry>, includes: set<string>, base: Path, disk: map<Path, Content>)
    requires SumDirs(a, includes, base, disk).Fail?
    ensures SumDirs(a + b, includes, base, disk) == SumDirs(a, includes, base, disk)
    decreases |b|
  {
    if b == [] {
      assert a + b == a;
    } else {
      var b' := b[..|b| - 1];
      SumDirsFailPersists(a, b', includes, base, disk);
      assert a + b == (a + b') + [b[|b| - 1]];
      SumDirsSnoc(a + b', b[|b| - 1], includes, base, disk);
    }
  }

  /** One more directory after a successful prefix: it adds its count, or its failure ends the whole count. */
  lemma SumDirsStep(counted: seq<Entry>, d: Entry, rest: seq<Entry>, lines: nat,
                    includes: set<string>, base: Path, disk: map<Path, Content>)
    requires SumDirs(counted, includes, base, disk) == Ok(lines)
    ensures DirCount(d, includes, base, disk).Ok? ==>
      SumDirs(counted + [d], includes, base, disk) == Ok(lines + DirCount(d, includes, base, disk).lines)
    ensures DirCount(d, includes, base, disk).Fail? ==>
      SumDirs(counted + [d] + rest, includes, base, disk) == DirCount(d, includes, base, disk)
  {
    SumDirsSnoc(counted, d, includes, base, disk);
    if DirCount(d, includes, base, disk).Fail? {
      SumDirsFailPersists(counted + [d], rest, includes, base, disk);
    }
  }

  /** Splitting a list around its element `i`, with a fixed prefix in front. */
  lemma SplitAround<T>(prefix: seq<T>, xs: seq<T>, i: nat)
    requires i < |xs|
    ensures prefix + xs[..i + 1] == prefix + xs[..i] + [xs[i]]
    ensures prefix + xs[..i] + [xs[i]] + xs[i + 1..] == prefix + xs
  {
    assert xs[..i + 1] == xs[..i] + [xs[i]];
    assert xs[..i] + [xs[i]] + xs[i + 1..] == xs;
  }

  /** The ways `execute` splits its directory list: the first, the second, the rest. */
  lemma SplitFirstTwo<T>(a: T, b: T, rs: seq<T>, ts: seq<T>)
    ensures [] + [a] + ([a, b] + rs + ts)[1..] == [a, b] + rs + ts
    ensures [a] + [b] + ([a, b] + rs + ts)[2..] == [a, b] + rs + ts
    ensures [a] + [b] == [a, b]
  {
  }

  /**
   * The loop step of counting `dirs` after the directories already `counted`:
   * directory `i` either extends the running total or, failing, decides the
   * outcome of the whole list.
   */
  lemma SumDirsAdvance(counted: seq<Entry>, dirs: seq<Entry>, i: nat, lines: nat,
                       includes: set<string>, base: Path, disk: map<Path, Content>)
    requires i < |dirs|
    requires SumDirs(counted + dirs[..i], includes, base, disk) == Ok(lines)
    ensures DirCount(dirs[i], includes, base, disk).Ok? ==>
      SumDirs(counted + dirs[..i + 1], includes, base, disk) == Ok(lines + DirCount(dirs[i], includes, base, disk).lines)
    ensures DirCount(dirs[i], includes, base, disk).Fail? ==>
      SumDirs(counted + dirs, includes, base, disk) == DirCount(dirs[i], includes, base, disk)
  {
    SumDirsStep(counted + dirs[..i], dirs[i], dirs[i + 1..], lines, includes, base, disk);
    SplitAround(counted, dirs, i);
  }

  /** All or nothing: the total exists exactly when every directory counts without failure. */
  lemma {:induction false} SumDirsAllOrNothing(dirs: seq<Entry>, includes: set<string>, base: Path, disk: map<Path, Content>)
    ensures SumDirs(dirs, includes, base, disk).Ok? <==>
      forall i :: 0 <= i < |dirs| ==> DirCount(dirs[i], includes, base, disk).Ok?
    decreases |dirs|
  {
    if dirs != [] {
      var init := dirs[..|dirs| - 1];
      SumDirsAllOrNothing(init, includes, base, disk);
      assert forall i :: 0 <= i < |init| ==> init[i] == dirs[i];
    }
  }

  /** A failure reported is the failure of the first directory that fails. */
  lemma {:induction false} SumDirsFirstFailure(dirs: seq<Entry>, includes: set<string>, base: Path, disk: map<Path, Content>)
    requires SumDirs(dirs, includes, base, disk).Fail?
    ensures exists i :: 0 <= i < |dirs| && DirCount(dirs[i], includes, base, disk) == SumDirs(dirs, includes, base, disk) &&
                        (forall j :: 0 <= j < i ==> DirCount(dirs[j], includes, base, disk).Ok?)
    decreases |dirs|
  {
    var init := dirs[..|dirs| - 1];
    var last := |dirs| - 1;
    if SumDirs(init, includes, base, disk).Fail? {
      SumDirsFirstFailure(init, includes, base, disk);
      var i :| 0 <= i < |init| && DirCount(init[i], includes, base, disk) == SumDirs(init, includes, base, disk) &&
        forall j :: 0 <= j < i ==> DirCount(init[j], includes, base, disk).Ok?;
      assert forall j :: 0 <= j <= i ==> init[j] == dirs[j];
    } else {
      SumDirsAllOrNothing(init, includes, base, disk);
      assert forall j :: 0 <= j < last ==> init[j] == dirs[j];
      assert DirCount(dirs[last], includes, base, disk) == SumDirs(dirs, includes, base, disk);
    }
  }

  /** When the whole count succeeds, the total splits over any split of the directories. */
  lemma {:induction false} SumDirsAppend(a: seq<Entry>, b: seq<Entry>, includes: set<string>, base: Path, disk: map<Path, Content>)
    requires SumDirs(a + b, includes, base, disk).Ok?
    ensures SumDirs(a, includes, base, disk).Ok? && SumDirs(b, includes, base, disk).Ok?
    ensures SumDirs(a + b, includes, base, disk).lines ==
      SumDirs(a, includes, base, disk).lines + SumDirs(b, includes, base, disk).lines
    decreases |b|
  {
    if b == [] {
      assert a + b == a;
    } else {
      var b' := b[..|b| - 1];
      var d := b[|b| - 1];
      assert a + b == (a + b') + [d];
      SumDirsSnoc(a + b', d, includes, base, disk);
      if SumDirs(a + b', includes, base, disk).Fail? {
        assert false;
      }
      SumDirsAppend(a, b', includes, base, disk);
      assert b == b' + [d];
      SumDirsSnoc(b', d, includes, base, disk);
    }
  }

  /** A configured directory that does not exist contributes zero and no failure. */
  lemma MissingDirCountsZero(p: Path, includes: set<string>, base: Path, disk: map<Path, Content>)
    ensures DirCount(Missing(p), includes, base, disk) == Ok(0)
  {
  }

  /**
   * An existing directory in which nothing matches counts zero lines, provided
   * its display path can be cut.
   */
  lemma NoMatchesCountsZero(dir: Entry, includes: set<string>, base: Path, disk: map<Path, Content>)
    requires dir.Exists() && Collected(dir, includes) == {}
    requires |base| <= |dir.path|
    ensures DirCount(dir, includes, base, disk) == Ok(0)
  {
  }

  /**
   * A file listed a second time in a directory, under the same path, is
   * counted once: the directory's count does not change.
   */
  lemma DuplicateEntryCountedOnce(p: Path, children: seq<Entry>, f: Entry,
                                  includes: set<string>, base: Path, disk: map<Path, Content>)
    requires f in FilesIn(children)
    ensures DirCount(Directory(p, children + [f]), includes, base, disk) ==
            DirCount(Directory(p, children), includes, base, disk)
  {
    DuplicateFileCollectedOnce(p, children, f, includes);
  }

  /** The mojo, with its configuration and the line processor it reuses for every file. */
  class LCMavenMojo {
    const baseDir: Path
    const srcDir: Entry
    const testSrcDir: Entry
    const resources: seq<Entry>
    const testResources: seq<Entry>
    const disk: map<Path, Content>
    var includes: set<string>
    const lp: LineCounter

    /** Between files the line processor holds no count. */
    ghost predicate Valid()
      reads this, lp
    {
      lp.line == 0
    }

    /** Every configured directory in the order the mojo counts them. */
    function Dirs(): seq<Entry> {
      [srcDir, testSrcDir] + resources + testResources
    }

    constructor (baseDir: Path, srcDir: Entry, testSrcDir: Entry, resources: seq<Entry>,
                 testResources: seq<Entry>, includes: set<string>, disk: map<Path, Content>)
      ensures Valid() && fresh(lp)
      ensures this.baseDir == baseDir && this.srcDir == srcDir && this.testSrcDir == testSrcDir
      ensures this.resources == resources && this.testResources == testResources
      ensures this.includes == includes && this.disk == disk
    {
      this.baseDir := baseDir;
      this.srcDir := srcDir;
      this.testSrcDir := testSrcDir;
      this.resources := resources;
      this.testResources := testResources;
      this.disk := disk;
      this.includes := includes;
      lp := new LineCounter();
    }

    /** Stands in for `File.listFiles`: the entries of a listable directory, `None` (null) otherwise. */
    static function ListFiles(file: Entry): Option<seq<Entry>>
    {
      if file.Directory? then Some(file.children) else None
    }

    /** The regular-file case of the walk: adds the file's path exactly when its extension is included. */
    method CollectFile(files: FileSet, file: Entry)
      requires file.RegularFile?
      modifies files
      ensures files.elems == old(files.elems) + Collected(file, includes)
    {
      var fileName := file.name;
      var index := LastIndexOf(fileName, '.');
      CollectedRegularFile(file, includes);
      if index != -1 && fileName[index + 1..] in includes {
        assert Matches(fileName, includes);
        var _ := files.Add(file.path);
      } else {
        assert !Matches(fileName, includes);
      }
    }

    /** Adds to `files` every path the walk of `file` collects, and nothing else. */
    method CollectFiles(files: FileSet, file: Entry)
      modifies files
      ensures files.elems == old(files.elems) + Collected(file, includes)
      decreases file
    {
      if file.RegularFile? {
        CollectFile(files, file);
      } else {
        var subFiles := ListFiles(file);
        ghost var listed := if subFiles.Some? then subFiles.value else [];
        assert Collected(file, includes) == Selected(FilesIn(listed), includes);
        var i := 0;
        while subFiles.Some? && i < |subFiles.value|
          invariant 0 <= i <= |listed|
          invariant files.elems == old(files.elems) + Selected(FilesIn(listed[..i]), includes)
        {
          CollectedPrefix(listed, i, includes);
          assert subFiles.value[i] == file.children[i];
          CollectFiles(files, subFiles.value[i]);
          i := i + 1;
        }
        assert listed[..i] == listed;
      }
    }

    /**
     * Reads every file of `files` in any order and adds up their non-empty
     * lines; the first file that cannot be opened or read ends the count.
     */
    method CountFiles(files: set<Path>) returns (r: Option<nat>)
      requires Valid()
      modifies lp
      ensures r == FilesTotal(files, disk)
      ensures r.Some? ==> Valid()
    {
      var lines: nat := 0;
      var remaining := files;
      while remaining != {}
        invariant remaining <= files
        invariant lines == SumLines(files - remaining, disk)
        invariant forall p :: p in files - remaining ==> Readable(disk, p)
        invariant lp.line == 0
        decreases remaining
      {
        var file :| file in remaining;
        if file !in disk {
          return None;
        }
        var n := ReadLines(disk[file], lp);
        if n.None? {
          return None;
        }
        SumLinesAdd(files - remaining, file, disk);
        assert files - (remaining - {file}) == (files - remaining) + {file};
        lines := lines + n.value;
        remaining := remaining - {file};
      }
      assert files - remaining == files;
      r := Some(lines);
    }

    /** Counts one configured directory; the line processor is empty again after a success. */
    method CountDir(directory: Entry) returns (r: Outcome)
      requires Valid()
      modifies lp
      ensures r == DirCount(directory, includes, baseDir, disk)
      ensures r.Ok? ==> Valid()
    {
      var lines: nat := 0;
      if directory.Exists() {
        var files := new FileSet();
        CollectFiles(files, directory);
        assert files.elems == Collected(directory, includes);
        var counted := CountFiles(files.elems);
        if counted.None? {
          return Fail(IOError);
        }
        lines := counted.value;
        var path := RelativePath(directory.path, baseDir);
        if path.None? {
          return Fail(IndexOutOfBounds);
        }
      }
      r := Ok(lines);
    }

    /**
     * Counts the directories of `dirs` one after the other, continuing the
     * running total `lines` of the directories already `counted`; the first
     * failure ends the count.
     */
    method CountDirs(dirs: seq<Entry>, ghost counted: seq<Entry>, lines: nat) returns (r: Outcome)
      requires Valid()
      requires SumDirs(counted, includes, baseDir, disk) == Ok(lines)
      modifies lp
      ensures r == SumDirs(counted + dirs, includes, baseDir, disk)
      ensures r.Ok? ==> Valid()
    {
      var total: nat := lines;
      assert counted + dirs[..0] == counted;
      for i := 0 to |dirs|
        invariant SumDirs(counted + dirs[..i], includes, baseDir, disk) == Ok(total)
        invariant Valid()
      {
        var c := CountDir(dirs[i]);
        SumDirsAdvance(counted, dirs, i, total, includes, baseDir, disk);
        if c.Fail? {
          return c;
        }
        total := total + c.lines;
      }
      assert dirs[..|dirs|] == dirs;
      r := Ok(total);
    }

    /**
     * Defaults the extensions when none are configured, then counts the source,
     * test source, resource and test resource directories in that order.
     */
    method Execute() returns (r: ExecResult)
      requires Valid()
      modifies this, lp
      ensures includes == WithDefaults(old(includes))
      ensures r == ExecResultOf(SumDirs(Dirs(), includes, baseDir, disk))
      ensures r.Succeeded? ==> Valid()
    {
      if includes == {} {
        includes := includes + set x | x in DefaultFiles;
      }
      ghost var dirs := Dirs();
      SplitFirstTwo(srcDir, testSrcDir, resources, testResources);
      var lines: nat := 0;
      var c := CountDir(srcDir);
      SumDirsStep([], srcDir, dirs[1..], lines, includes, baseDir, disk);
      if c.Fail? {
        return ExecResultOf(c);
      }
      lines := lines + c.lines;
      c := CountDir(testSrcDir);
      SumDirsStep([srcDir], testSrcDir, dirs[2..], lines, includes, baseDir, disk);
      if c.Fail? {
        return ExecResultOf(c);
      }
      lines := lines + c.lines;
      c := CountDirs(resources, [srcDir, testSrcDir], lines);
      if c.Fail? {
        SumDirsFailPersists([srcDir, testSrcDir] + resources, testResources, includes, baseDir, disk);
        return ExecResultOf(c);
      }
      lines := c.lines;
      c := CountDirs(testResources, [srcDir, testSrcDir] + resources, lines);
      if c.Fail? {
        return ExecResultOf(c);
      }
      lines := c.lines;
      r := Succeeded(lines);
    }
  }
}
