/**
 * The part of the file system the mojo looks at: a finite tree of entries
 * (what `isFile`, `getName` and `listFiles` report), the extension filter on
 * file names, the set of files a walk collects, and the mutable set of files
 * the walk fills in.
 */
module FileTree {
  import opened Wrappers

  /** An absolute pathname; two files are the same file when their pathnames are equal. */
  type Path = string

  datatype Entry =
    | RegularFile(path: Path, name: string)
      /** a directory whose listing succeeds, with its entries in listing order */
    | Directory(path: Path, children: seq<Entry>)
      /** exists and is not a regular file, but has no listing (a special file, an unreadable directory) */
    | Unlistable(path: Path)
      /** nothing exists at this path */
    | Missing(path: Path)
  {
    predicate Exists() {
      !Missing?
    }
  }

  /** Index of the last occurrence of `c` in `s`, or -1 when there is none. */
  function LastIndexOf(s: string, c: char): (r: int)
    ensures -1 <= r < |s|
    ensures r == -1 <==> c !in s
    ensures r >= 0 ==> s[r] == c && forall j :: r < j < |s| ==> s[j] != c
  {
    LastIndexBefore(s, c, |s|)
  }

  /** Index of the last occurrence of `c` among the first `n` characters of `s`, or -1. */
  function LastIndexBefore(s: string, c: char, n: nat): (r: int)
    requires n <= |s|
    ensures -1 <= r < n
    ensures r == -1 <==> forall j :: 0 <= j < n ==> s[j] != c
    ensures r >= 0 ==> s[r] == c && forall j :: r < j < n ==> s[j] != c
  {
    if n == 0 then -1
    else if s[n - 1] == c then n - 1
    else LastIndexBefore(s, c, n - 1)
  }

  /**
   * The extension of a file name: the text after its last `.`, or `None` when
   * the name holds no `.` at all.
   */
  function ExtensionOf(name: string): Option<string> {
    var index := LastIndexOf(name, '.');
    if index == -1 then None else Some(name[index + 1..])
  }

  /**
   * There is an extension exactly when the name holds a `.`; it is a suffix
   * of the name, holds no `.` itself and is preceded by a `.`.
   */
  lemma ExtensionOfSpec(name: string)
    ensures ExtensionOf(name).None? <==> '.' !in name
    ensures ExtensionOf(name).Some? ==>
      var ext := ExtensionOf(name).value;
      |ext| < |name| && name[|name| - |ext| - 1] == '.' && '.' !in ext && name[|name| - |ext|..] == ext
  {
  }

  /** The filter applied to every regular file met by the walk. */
  predicate Matches(name: string, includes: set<string>) {
    var ext := ExtensionOf(name);
    ext.Some? && ext.value in includes
  }

  /**
   * A name matches exactly when it has a `.` with no other `.` after it and
   * the text after that `.` is one of the included extensions.
   */
  lemma MatchesIff(name: string, includes: set<string>)
    ensures Matches(name, includes) <==>
      exists k :: 0 <= k < |name| && name[k] == '.' && NoDotAfter(name, k) && name[k + 1..] in includes
  {
    if Matches(name, includes) {
      var index := LastIndexOf(name, '.');
      assert NoDotAfter(name, index) && name[index + 1..] in includes;
    } else {
      forall k | 0 <= k < |name| && name[k] == '.' && NoDotAfter(name, k)
        ensures name[k + 1..] !in includes
      {
        ExtensionAfterLastDot(name, k);
      }
    }
  }

  /** A `.` with no `.` after it is the last one, so the extension is the text after it. */
  lemma ExtensionAfterLastDot(name: string, k: nat)
    requires k < |name| && name[k] == '.' && NoDotAfter(name, k)
    ensures ExtensionOf(name) == Some(name[k + 1..])
  {
    var index := LastIndexOf(name, '.');
    assert index >= 0;
    LastDotUnique(name, k, index);
  }

  /** Two positions of a `.` that each have no `.` after them are the same position. */
  lemma LastDotUnique(name: string, k: nat, m: nat)
    requires k < |name| && name[k] == '.' && NoDotAfter(name, k)
    requires m < |name| && name[m] == '.' && NoDotAfter(name, m)
    ensures k == m
  {
  }

  /** No character of `name` after position `k` is a `.`. */
  predicate NoDotAfter(name: string, k: nat) {
    forall j :: k < j < |name| ==> name[j] != '.'
  }

  /** A name without `.` never matches, whatever the included extensions are. */
  lemma NoDotNeverMatches(name: string, includes: set<string>)
    requires '.' !in name
    ensures !Matches(name, includes)
  {
    ExtensionOfSpec(name);
  }

  /** `stem.ext` has extension `ext` whenever `ext` holds no `.`, so it matches exactly when `ext` is included. */
  lemma DottedNameMatches(stem: string, ext: string, includes: set<string>)
    requires '.' !in ext
    ensures ExtensionOf(stem + "." + ext) == Some(ext)
    ensures Matches(stem + "." + ext, includes) <==> ext in includes
  {
    var name := stem + "." + ext;
    var k := |stem|;
    assert name[k] == '.' && name[k + 1..] == ext;
    ExtensionOfSpec(name);
    var r := ExtensionOf(name);
    assert r.Some?;
  }

  /** The regular files of a tree in the order the walk meets them. */
  function FilesOf(e: Entry): seq<Entry>
    decreases e
  {
    match e
    case RegularFile(_, _) => [e]
    case Directory(_, children) => FilesIn(children)
    case Unlistable(_) => []
    case Missing(_) => []
  }

  /** The regular files of a sequence of sibling trees, walked in order. */
  function FilesIn(es: seq<Entry>): seq<Entry>
    decreases es
  {
    if es == [] then [] else FilesOf(es[0]) + FilesIn(es[1..])
  }

  lemma {:induction false} FilesInAppend(a: seq<Entry>, b: seq<Entry>)
    ensures FilesIn(a + b) == FilesIn(a) + FilesIn(b)
  {
    if a == [] {
      assert a + b == b;
    } else {
      assert (a + b)[1..] == a[1..] + b;
      FilesInAppend(a[1..], b);
    }
  }

  /** A file is met while walking siblings exactly when it is met in one of them. */
  lemma {:induction false} FilesInMember(es: seq<Entry>, f: Entry)
    ensures f in FilesIn(es) <==> exists i :: 0 <= i < |es| && f in FilesOf(es[i])
  {
    if es != [] {
      FilesInMember(es[1..], f);
      if f in FilesIn(es[1..]) {
        var i :| 0 <= i < |es[1..]| && f in FilesOf(es[1..][i]);
        assert f in FilesOf(es[i + 1]);
      }
      forall i | 1 <= i < |es| && f in FilesOf(es[i])
        ensures f in FilesIn(es[1..])
      {
        assert es[i] == es[1..][i - 1];
      }
    }
  }

  /** `x` is `e` itself or lies somewhere below it. */
  ghost predicate Reaches(e: Entry, x: Entry)
    decreases e
  {
    e == x || (e.Directory? && exists i :: 0 <= i < |e.children| && Reaches(e.children[i], x))
  }

  /** The walk meets exactly the regular files reachable in the tree. */
  lemma {:induction false} FilesOfReachable(e: Entry, f: Entry)
    decreases e
    ensures f in FilesOf(e) <==> f.RegularFile? && Reaches(e, f)
  {
    match e
    case RegularFile(_, _) =>
    case Unlistable(_) =>
    case Missing(_) =>
    case Directory(_, children) =>
      FilesInMember(children, f);
      forall i | 0 <= i < |children|
        ensures f in FilesOf(children[i]) <==> f.RegularFile? && Reaches(children[i], f)
      {
        FilesOfReachable(children[i], f);
      }
      if f == e {
        assert !f.RegularFile?;
      }
      if f in FilesOf(e) {
        var i :| 0 <= i < |children| && f in FilesOf(children[i]);
      }
  }

  /** Paths of the files among `fs` whose names pass the filter. */
  function Selected(fs: seq<Entry>, includes: set<string>): set<Path> {
    set f | f in fs && f.RegularFile? && Matches(f.name, includes) :: f.path
  }

  lemma SelectedAppend(a: seq<Entry>, b: seq<Entry>, includes: set<string>)
    ensures Selected(a + b, includes) == Selected(a, includes) + Selected(b, includes)
  {
    forall p | p in Selected(a + b, includes)
      ensures p in Selected(a, includes) + Selected(b, includes)
    {
      var f :| f in a + b && f.RegularFile? && Matches(f.name, includes) && f.path == p;
      if f in a {
        assert p in Selected(a, includes);
      } else {
        assert p in Selected(b, includes);
      }
    }
  }

  /** The paths a walk of `e` collects with the given extensions. */
  function Collected(e: Entry, includes: set<string>): set<Path> {
    Selected(FilesOf(e), includes)
  }

  /** A regular file collects its own path when its name passes the filter, and nothing otherwise. */
  lemma CollectedRegularFile(e: Entry, includes: set<string>)
    requires e.RegularFile?
    ensures Collected(e, includes) == if Matches(e.name, includes) then {e.path} else {}
  {
    assert FilesOf(e) == [e];
  }

  /**
   * Soundness and completeness of collection: a path is collected exactly
   * when some regular file reachable in the tree has that path and a name
   * that passes the filter.
   */
  lemma CollectedIff(e: Entry, includes: set<string>, p: Path)
    ensures p in Collected(e, includes) <==>
      exists f :: Reaches(e, f) && f.RegularFile? && f.path == p && Matches(f.name, includes)
  {
    if p in Collected(e, includes) {
      var f :| f in FilesOf(e) && f.RegularFile? && Matches(f.name, includes) && f.path == p;
      FilesOfReachable(e, f);
    }
    forall f | Reaches(e, f) && f.RegularFile? && f.path == p && Matches(f.name, includes)
      ensures p in Collected(e, includes)
    {
      FilesOfReachable(e, f);
    }
  }

  /** Walking one more sibling adds exactly that sibling's collected paths. */
  lemma CollectedSnoc(es: seq<Entry>, e: Entry, includes: set<string>)
    ensures Selected(FilesIn(es + [e]), includes) == Selected(FilesIn(es), includes) + Collected(e, includes)
  {
    FilesInAppend(es, [e]);
    assert FilesIn([e]) == FilesOf(e) + FilesIn([]);
    assert FilesIn([e]) == FilesOf(e);
    SelectedAppend(FilesIn(es), FilesOf(e), includes);
  }

  /** Walking the first `i + 1` siblings collects what the first `i` collect plus what sibling `i` collects. */
  lemma CollectedPrefix(es: seq<Entry>, i: nat, includes: set<string>)
    requires i < |es|
    ensures Selected(FilesIn(es[..i + 1]), includes) == Selected(FilesIn(es[..i]), includes) + Collected(es[i], includes)
  {
    assert es[..i + 1] == es[..i] + [es[i]];
    CollectedSnoc(es[..i], es[i], includes);
  }

  /** Listing a file a second time under the same path collects nothing new. */
  lemma DuplicateFileCollectedOnce(p: Path, children: seq<Entry>, f: Entry, includes: set<string>)
    requires f in FilesIn(children)
    ensures Collected(Directory(p, children + [f]), includes) == Collected(Directory(p, children), includes)
  {
    CollectedSnoc(children, f, includes);
    FilesInMember(children, f);
    var i :| 0 <= i < |children| && f in FilesOf(children[i]);
    FilesOfReachable(children[i], f);
    assert FilesOf(f) == [f];
  }

  /**
   * The order of a directory's listing does not matter: two listings with the
   * same entries collect the same paths.
   */
  lemma ListingOrderIrrelevant(p: Path, c1: seq<Entry>, c2: seq<Entry>, includes: set<string>)
    requires forall c :: c in c1 <==> c in c2
    ensures Collected(Directory(p, c1), includes) == Collected(Directory(p, c2), includes)
  {
    forall f
      ensures f in FilesIn(c1) <==> f in FilesIn(c2)
    {
      FilesInMember(c1, f);
      FilesInMember(c2, f);
      if f in FilesIn(c1) {
        var i :| 0 <= i < |c1| && f in FilesOf(c1[i]);
        assert c1[i] in c2;
      }
      if f in FilesIn(c2) {
        var i :| 0 <= i < |c2| && f in FilesOf(c2[i]);
        assert c2[i] in c1;
      }
    }
    forall q
      ensures q in Selected(FilesIn(c1), includes) <==> q in Selected(FilesIn(c2), includes)
    {
    }
  }

  /** A hash set of files, updated in place by the walk. */
  class FileSet {
    var elems: set<Path>

    constructor ()
      ensures elems == {}
    {
      elems := {};
    }

    /** Inserts `p`; reports whether it was absent before. */
    method Add(p: Path) returns (added: bool)
      modifies this
      ensures added == (p !in old(elems))
      ensures elems == old(elems) + {p}
    {
      added := p !in elems;
      elems := elems + {p};
    }
  }
}
