# Line-count Maven mojo, modelled in Dafny

The `lc` mojo of `cn.jzteam.maven.LCMavenMojo` counts the non-empty lines of
the files under a Maven project's source, test source, resource and test
resource directories. Only files whose extension is in `includes` are counted.
When `includes` is empty it falls back to `java`, `xml` and `properties`.
For each configured directory that exists, the mojo walks the tree and collects
the matching regular files into a `HashSet<File>`. It then reads each file through a
line processor that counts lines which are not null or empty, and adds the
per-file counts into a directory total. The directory totals are added into the
grand total. An `IOException` anywhere aborts the run with a
`MojoFailureException`.

The model has four modules:

- `Wrappers` (`wrappers.dfy`): `Option`, where `None` stands for Java's `null`.
- `Lines` (`lines.dfy`): the anonymous line processor `lp` as the class
  `LineCounter` with its one mutable field `line`, the reference count
  `NonEmptyCount`, and `ReadLines`, the loop by which the line reader hands lines
  to the processor and then takes its result.
- `FileTree` (`file_tree.dfy`): the file system as a finite tree `Entry`
  (`RegularFile`, `Directory` with its listing, `Unlistable` for an entry that
  exists but whose listing is `null`, `Missing` for a path where nothing
  exists); the extension filter (`LastIndexOf`, `ExtensionOf`, `Matches`); the
  traversal order `FilesOf`; the set of paths a walk collects, `Collected`; and
  the mutable set `FileSet`.
- `LineCount` (`line_count.dfy`): the mojo as the class `LCMavenMojo` with its
  configuration and `includes`, and the methods `CollectFiles`, `CountDir` and
  `Execute`. Beside them sit the ghost specifications `DirCount` (one
  directory) and `SumDirs` (all directories, stopping at the first failure),
  and the lemmas about them. Three methods are pieces of a Java method split out
  so that each proof stays small. `CollectFile` is the regular-file branch of
  `collectFiles`. `CountFiles` is the file loop of `countDir`. `CountDirs` is
  one of the two resource loops of `execute`.

Files are identified by pathname, as `java.io.File.equals` does, so the
collected `HashSet<File>` is a `set<Path>`. Reading a file goes through `disk:
map<Path, Content>`. A path missing from `disk` cannot be opened
(`FileNotFoundException`). A `Content` gives the lines the reader delivers and
whether the stream then ends in an `IOException`. `HashSet` iteration order is
unspecified, so `CountFiles` takes the files in any order (`:|`). Its result is
proved equal to the order-free sum `SumLines`.

Two behaviours of the code go beyond the obvious reading, and the model keeps both:

- The display path at line 103 is
  `directory.getAbsolutePath().substring(baseDir.getAbsolutePath().length())`.
  When a configured directory's absolute path is shorter than the base
  directory's, this throws `StringIndexOutOfBoundsException`. That is not an
  `IOException`, so it escapes `execute` unwrapped. The model has it as
  `Fail(IndexOutOfBounds)` from `CountDir` and `UncheckedException` from
  `Execute`. It happens only after every file of that directory has been read,
  so an I/O error in the same directory wins.
- When reading a file fails part-way, `getResult` is never called and `lp` keeps
  the lines counted so far. `Execute` therefore promises `Valid()` (`lp.line ==
  0`) only after a success.

Two further behaviours of the code to note:

- The `HashSet<File>` at line 98 deduplicates files by pathname, not by
  canonical path or physical identity.
- A configured directory that does not exist contributes `0` and is not
  logged (the `exists()` guard at line 97).

## Model

| member | source | states |
|---|---|---|
| `Lines.LineCounter.constructor` | src/main/java/cn/jzteam/maven/LCMavenMojo.java:79-80 | a new line processor starts with its count at 0 |
| `Lines.LineCounter.ProcessLine` | src/main/java/cn/jzteam/maven/LCMavenMojo.java:82-87 | the count goes up by exactly 1 for a line that is neither null nor empty (whitespace-only lines count) and is unchanged otherwise; the result is always `true`, so no line is skipped |
| `Lines.LineCounter.GetResult` | src/main/java/cn/jzteam/maven/LCMavenMojo.java:89-93 | returns the count accumulated so far and leaves the counter at 0 |
| `Lines.ReadLines` | src/main/java/cn/jzteam/maven/LCMavenMojo.java:101 | feeding a file's lines to the processor yields the processor's earlier count plus the file's non-empty lines and leaves it at 0; on a read error there is no result and the processor keeps its partial count |
| `Lines.NonEmptyCountAppend` | src/main/java/cn/jzteam/maven/LCMavenMojo.java:83-85 | the count of non-empty lines of two consecutive runs of lines is the sum of their counts |
| `Lines.NonEmptyCountBounds` | src/main/java/cn/jzteam/maven/LCMavenMojo.java:83-85 | a file's count is at most its number of lines; it equals that number iff no line is empty, and is 0 iff every line is empty |
| `FileTree.LastIndexOf` | src/main/java/cn/jzteam/maven/LCMavenMojo.java:112 | the result is -1 iff the character does not occur; otherwise that position holds it and no later position does |
| `FileTree.LastIndexBefore` | src/main/java/cn/jzteam/maven/LCMavenMojo.java:112 | the same search restricted to the first `n` characters |
| `FileTree.ExtensionOfSpec` | src/main/java/cn/jzteam/maven/LCMavenMojo.java:111-113 | a name has an extension iff it contains `.`; the extension is the suffix after a `.` and contains no `.` itself |
| `FileTree.MatchesIff` | src/main/java/cn/jzteam/maven/LCMavenMojo.java:110-115 | a regular file passes the filter iff its name has a `.` with no `.` after it and the text after that `.` is in `includes` |
| `FileTree.ExtensionAfterLastDot` | src/main/java/cn/jzteam/maven/LCMavenMojo.java:111-112 | whenever a `.` has no `.` after it, the extension is exactly the text after that `.` |
| `FileTree.LastDotUnique` | src/main/java/cn/jzteam/maven/LCMavenMojo.java:112 | only one position of a name can be a `.` with no `.` after it |
| `FileTree.NoDotNeverMatches` | src/main/java/cn/jzteam/maven/LCMavenMojo.java:112-113 | a name without `.` is never collected, whatever `includes` holds |
| `FileTree.DottedNameMatches` | src/main/java/cn/jzteam/maven/LCMavenMojo.java:111-113 | `stem.ext` with a dot-free `ext` has extension `ext`, so it is collected iff `ext` is in `includes` |
| `FileTree.FilesInAppend` | src/main/java/cn/jzteam/maven/LCMavenMojo.java:117-120 | walking two runs of sibling entries meets the files of the first run, then those of the second |
| `FileTree.FilesInMember` | src/main/java/cn/jzteam/maven/LCMavenMojo.java:117-120 | walking siblings meets a file iff walking one of them meets it |
| `FileTree.FilesOfReachable` | src/main/java/cn/jzteam/maven/LCMavenMojo.java:109-121 | the walk meets exactly the regular files reachable in the tree; entries with a null listing contribute nothing |
| `FileTree.SelectedAppend` | src/main/java/cn/jzteam/maven/LCMavenMojo.java:113-114 | filtering two runs of files selects the union of what each run selects |
| `FileTree.CollectedRegularFile` | src/main/java/cn/jzteam/maven/LCMavenMojo.java:110-115 | a regular file collects its own path iff its name passes the filter, and nothing otherwise |
| `FileTree.CollectedIff` | src/main/java/cn/jzteam/maven/LCMavenMojo.java:109-122 | soundness and completeness: a path is collected iff some reachable regular file has that path and a matching name |
| `FileTree.CollectedSnoc` | src/main/java/cn/jzteam/maven/LCMavenMojo.java:118-119 | walking one more sibling adds exactly that sibling's collected paths |
| `FileTree.CollectedPrefix` | src/main/java/cn/jzteam/maven/LCMavenMojo.java:118-119 | after `i + 1` loop iterations the walk has collected what it had after `i` plus sibling `i`'s paths |
| `FileTree.DuplicateFileCollectedOnce` | src/main/java/cn/jzteam/maven/LCMavenMojo.java:98 | the same file entry listed again adds nothing the first listing did not |
| `FileTree.ListingOrderIrrelevant` | src/main/java/cn/jzteam/maven/LCMavenMojo.java:117-120 | two listings with the same entries, in any order, collect the same paths |
| `FileTree.FileSet.constructor` | src/main/java/cn/jzteam/maven/LCMavenMojo.java:98 | a new set is empty |
| `FileTree.FileSet.Add` | src/main/java/cn/jzteam/maven/LCMavenMojo.java:114 | the set gains exactly the path; the result says whether it was absent |
| `LineCount.WithDefaults` | src/main/java/cn/jzteam/maven/LCMavenMojo.java:58-61 | the result is never empty and contains `includes`; a non-empty `includes` is kept unchanged, an empty one becomes exactly `{java, xml, properties}` |
| `LineCount.RelativePath` | src/main/java/cn/jzteam/maven/LCMavenMojo.java:103 | the substring exists iff the base path is no longer than the directory path; it is then the directory path minus its first `|base|` characters, and exactly the remaining suffix when the base path is a prefix |
| `LineCount.SumLinesRemove` | src/main/java/cn/jzteam/maven/LCMavenMojo.java:100-102 | the sum over a file set is any one file's lines plus the sum over the others, so iteration order does not matter |
| `LineCount.SumLinesAdd` | src/main/java/cn/jzteam/maven/LCMavenMojo.java:100-102 | counting one more distinct file adds exactly its lines |
| `LineCount.SumDirsSnoc` | src/main/java/cn/jzteam/maven/LCMavenMojo.java:64-72 | counting one more directory either keeps an earlier failure, takes that directory's failure, or adds its count |
| `LineCount.SumDirsFailPersists` | src/main/java/cn/jzteam/maven/LCMavenMojo.java:63-77 | once a directory fails, the run's outcome is that failure whatever follows |
| `LineCount.SumDirsStep` | src/main/java/cn/jzteam/maven/LCMavenMojo.java:65-72 | after a successful prefix, one more directory adds its count or its failure becomes the outcome of the whole run |
| `LineCount.SumDirsAdvance` | src/main/java/cn/jzteam/maven/LCMavenMojo.java:67-72 | in the loop over resource directories, directory `i` either extends the running total by its count or its failure becomes the outcome of the whole list |
| `LineCount.SumDirsAllOrNothing` | src/main/java/cn/jzteam/maven/LCMavenMojo.java:63-77 | a total is produced iff every configured directory counts without failure |
| `LineCount.SumDirsFirstFailure` | src/main/java/cn/jzteam/maven/LCMavenMojo.java:63-77 | a failed run reports the failure of the first directory that fails, and every directory before it succeeded |
| `LineCount.SumDirsAppend` | src/main/java/cn/jzteam/maven/LCMavenMojo.java:64-72 | a successful total is the sum of the totals of any split of the directory list |
| `LineCount.MissingDirCountsZero` | src/main/java/cn/jzteam/maven/LCMavenMojo.java:96-97 | a directory that does not exist contributes 0 and no failure |
| `LineCount.NoMatchesCountsZero` | src/main/java/cn/jzteam/maven/LCMavenMojo.java:95-107 | an existing directory with no matching files counts 0 when its display path can be cut |
| `LineCount.DuplicateEntryCountedOnce` | src/main/java/cn/jzteam/maven/LCMavenMojo.java:98-102 | the same file entry listed again is counted once: the directory's outcome is unchanged |
| `LineCount.LCMavenMojo.constructor` | src/main/java/cn/jzteam/maven/LCMavenMojo.java:28-55 | the injected configuration is stored and the line processor starts at 0 |
| `LineCount.LCMavenMojo.CollectFile` | src/main/java/cn/jzteam/maven/LCMavenMojo.java:110-115 | a regular file's path is inserted iff the text after its last `.` is in `includes` |
| `LineCount.LCMavenMojo.CollectFiles` | src/main/java/cn/jzteam/maven/LCMavenMojo.java:109-122 | the set becomes its old value plus exactly the paths collected from the tree; it only ever grows |
| `LineCount.LCMavenMojo.CountFiles` | src/main/java/cn/jzteam/maven/LCMavenMojo.java:100-102 | reading every file in any order yields the sum of their non-empty lines, each file once, or fails iff some file cannot be opened or read; the processor is back at 0 after a success |
| `LineCount.LCMavenMojo.CountDir` | src/main/java/cn/jzteam/maven/LCMavenMojo.java:95-108 | 0 for a missing directory; otherwise an I/O failure if a collected file cannot be read, else an out-of-bounds failure if the display path cannot be cut, else the sum of the collected files' lines |
| `LineCount.LCMavenMojo.CountDirs` | src/main/java/cn/jzteam/maven/LCMavenMojo.java:67-72 | continuing a running total over a list of resource directories gives the same outcome as counting the whole prefix and list in order |
| `LineCount.LCMavenMojo.Execute` | src/main/java/cn/jzteam/maven/LCMavenMojo.java:57-78 | `includes` is defaulted when empty and otherwise left alone; the outcome is the total over source, test source, resource and test resource directories in that order; an I/O failure becomes one `MojoFailure` with no total |

## Left out

- Maven plumbing: `@Mojo`/`@Parameter` injection and `AbstractMojo` are left out. The configured values are the constructor's arguments. A `Resource` is reduced to the tree found at its directory path.
- Logging: the `logger` calls and the report strings they format (lines 59, 62, 73, 75, 104-105) are left out. Only the substring computed for the report is kept, because it can throw.
- File system calls: `exists`, `isFile`, `getName`, `listFiles`, `getAbsolutePath` and `FileReader` are replaced by the `Entry` tree and the `disk` map; `LineCount.LCMavenMojo.ListFiles` only reads a directory's entries off that tree and carries no contract. Entry paths are taken as already absolute. The model does not relate a file's name to its path.
- Line splitting: Guava's splitting of a stream into lines (`\n`, `\r`, `\r\n`, a trailing terminator) is not modelled. Each file's content is given already split.
- Symbolic-link cycles are left out: a finite tree cannot express them. Deduplication by canonical path is also left out, because the code compares pathnames only.
- The `FileReader` handles, which the code never closes, are left out as a resource concern.
- `Lines.ReadLines`: does not model Guava's `LineReader` itself, only its loop (offer each line while the processor asks for more, then `getResult`). The early exit on `false` is kept, but the processor never takes it.
- `LineCount.LCMavenMojo.Execute`: does not model the 64-bit `long` total and its wrap-around. Counts are unbounded naturals.
- `LineCount.LCMavenMojo.CountDir`: does not report the file count and file list that line 104-105 log. The display path is computed only for its failure case.
- `LineCount.RelativePath`: counts path lengths in Unicode characters. Java's `length()` and `substring` count UTF-16 code units. For paths with characters outside the Basic Multilingual Plane, the out-of-bounds condition at line 103 can therefore differ from Java's.
