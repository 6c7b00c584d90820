/** The files of a Debian repository, in the order in which they are listed. */
module Debian {
  import opened Base
  import opened Objects
  import opened Yum

  // ----- file names -----

  /** Where the extension of a file name begins; the end of the string if there is none. */
  function ExtensionAt(s: string): (n: nat)
    ensures n <= |s|
    decreases s
  {
    if s == "" || s[|s| - 1] == '/' then |s|
    else if s[|s| - 1] == '.' then |s| - 1
    else
      var n := ExtensionAt(s[..|s| - 1]);
      if n == |s| - 1 then |s| else n
  }

  /** `stripFileExtension` */
  function Strip(s: string): string {
    s[..ExtensionAt(s)]
  }

  /** Both compressed forms of an index count as one. */
  lemma CompressionsAreOneIndex(s: string)
    ensures Strip(s + ".xz") == Strip(s + ".gz") == s
  {
    assert ExtensionAt(s + ".") == |s|;
    assert (s + ".x")[..|s| + 1] == s + "." && (s + ".xz")[..|s| + 2] == s + ".x";
    assert (s + ".g")[..|s| + 1] == s + "." && (s + ".gz")[..|s| + 2] == s + ".g";
    assert ExtensionAt(s + ".x") == |s| && ExtensionAt(s + ".g") == |s|;
  }

  /** `filepath.Base`, for a clean path. */
  function BaseName(s: string): string
    decreases s
  {
    if s == "" || s[|s| - 1] == '/' then "" else BaseName(s[..|s| - 1]) + [s[|s| - 1]]
  }

  lemma {:induction false} BaseIsLastName(dir: string, name: string)
    requires '/' !in name
    ensures BaseName(dir + "/" + name) == name
    decreases name
  {
    var s := dir + "/" + name;
    if name == "" {
    } else {
      assert s[..|s| - 1] == dir + "/" + name[..|name| - 1] && s[|s| - 1] == name[|name| - 1];
      BaseIsLastName(dir, name[..|name| - 1]);
    }
  }

  // ----- the source -----

  /** `architecture` is what the pattern for Packages indices finds in the file name, if it matches. */
  datatype ReleaseEntry = ReleaseEntry(filename: string, architecture: Option<string>)

  datatype Release =
    | Release(architectures: seq<string>, entries: seq<ReleaseEntry>)
    | Unverified
    | Unavailable

  /** `NotThere` is status 404. */
  datatype Listed = Entries(entries: seq<FileSpec>) | NotThere | Unlisted

  /** By path: the release files, the files that an index mentions, and the directories. */
  datatype Source = Source(release: string -> Release, index: string -> Option<seq<string>>, list: string -> Listed)

  // ----- indices -----

  predicate IsSources(filename: string) {
    HasSuffix(filename, "Sources.gz") || HasSuffix(filename, "Sources.xz")
  }

  predicate HasSuffix(s: string, suffix: string) {
    |suffix| <= |s| && s[|s| - |suffix|..] == suffix
  }

  function IndexName(root: string, e: ReleaseEntry): string {
    Strip(root + "/" + e.filename)
  }

  function SourceIndices(root: string, entries: seq<ReleaseEntry>): set<string> {
    set e | e in entries && IsSources(e.filename) :: IndexName(root, e)
  }

  function PackageIndices(root: string, entries: seq<ReleaseEntry>, architectures: seq<string>): set<string> {
    set e | e in entries && !IsSources(e.filename) && e.architecture.Some? && e.architecture.value in architectures ::
      IndexName(root, e)
  }

  /** The index in its newer compression or, failing that, the older one. */
  function FilesOfIndex(s: Source, name: string): Option<seq<string>> {
    if s.index(name + ".xz").Some? then s.index(name + ".xz") else s.index(name + ".gz")
  }

  function FilesOfIndices(s: Source, names: set<string>): set<string> {
    set name, f | name in names && FilesOfIndex(s, name).Some? && f in FilesOfIndex(s, name).value :: f
  }

  /** The loop over the entries of a release file. */
  method NoteIndices(root: string, entries: seq<ReleaseEntry>, architectures: seq<string>)
    returns (packageIndices: set<string>, sourceIndices: set<string>)
    ensures packageIndices == PackageIndices(root, entries, architectures)
    ensures sourceIndices == SourceIndices(root, entries)
  {
    packageIndices, sourceIndices := {}, {};
    for i := 0 to |entries|
      invariant packageIndices == PackageIndices(root, entries[..i], architectures)
      invariant sourceIndices == SourceIndices(root, entries[..i])
    {
      assert entries[..i + 1] == entries[..i] + [entries[i]];
      var name := IndexName(root, entries[i]);
      if IsSources(entries[i].filename) {
        sourceIndices := sourceIndices + {name};
      } else if entries[i].architecture.Some? && entries[i].architecture.value in architectures {
        packageIndices := packageIndices + {name};
      }
    }
    assert entries[..|entries|] == entries;
  }

  /** The loop over the indices of one kind, in whatever order. */
  method ReadIndices(s: Source, names: set<string>) returns (files: seq<string>, ok: bool)
    ensures ok <==> forall name | name in names :: FilesOfIndex(s, name).Some?
    ensures ok ==> forall f :: f in files <==> f in FilesOfIndices(s, names)
  {
    files, ok := [], true;
    var left := names;
    while left != {}
      invariant left <= names && forall name | name in names - left :: FilesOfIndex(s, name).Some?
      invariant forall f :: f in files <==> f in FilesOfIndices(s, names - left)
      decreases left
    {
      var name :| name in left;
      if FilesOfIndex(s, name).None? {
        return files, false;
      }
      ghost var before := names - left;
      left := left - {name};
      assert names - left == before + {name};
      files := files + FilesOfIndex(s, name).value;
    }
    assert names - left == names;
  }

  // ----- the tree -----

  type Rank = string -> nat

  /** Directories that are entered are farther from the root of a finite tree. */
  ghost predicate FiniteTree(s: Source, rank: Rank) {
    forall path: string, e: FileSpec ::
      s.list(path).Entries? && e in s.list(path).entries && Entered(path, e) ==> rank(e.path) < rank(path)
  }

  predicate Entered(path: string, e: FileSpec) {
    e.isDirectory && BaseName(path) != BaseName(e.path)
  }

  predicate Below(root: string, path: string) {
    root + "/" <= path
  }

  /** Entries of a directory lie below it. */
  ghost predicate ListsBelow(s: Source) {
    forall path: string, e: FileSpec :: s.list(path).Entries? && e in s.list(path).entries ==> Below(path, e.path)
  }

  /** The files below a directory, or the first error. */
  datatype Tree = Files(files: seq<string>) | Error(err: Listed)

  /** The files of a tree, in the order of the listings; a directory with the base name of its parent is left out. */
  ghost function TreeOf(s: Source, rank: Rank, path: string): Tree
    requires FiniteTree(s, rank)
    decreases rank(path), 1, 0
  {
    if s.list(path).Entries? then TreeOfEntries(s, rank, path, s.list(path).entries) else Error(s.list(path))
  }

  ghost function TreeOfEntries(s: Source, rank: Rank, path: string, entries: seq<FileSpec>): Tree
    requires FiniteTree(s, rank) && s.list(path).Entries? && forall e | e in entries :: e in s.list(path).entries
    decreases rank(path), 0, |entries|
  {
    if entries == [] then Files([]) else
    var front, e := TreeOfEntries(s, rank, path, entries[..|entries| - 1]), entries[|entries| - 1];
    if front.Error? then front
    else
      var last := TreeOfEntry(s, rank, path, e);
      if last.Error? then last else Files(front.files + last.files)
  }

  ghost function TreeOfEntry(s: Source, rank: Rank, path: string, e: FileSpec): Tree
    requires FiniteTree(s, rank) && s.list(path).Entries? && e in s.list(path).entries
    decreases rank(path), 0, 0
  {
    if !e.isDirectory then Files([e.path])
    else if Entered(path, e) then TreeOf(s, rank, e.path)
    else Files([])
  }

  /** An error in the beginning of a listing is the error of the whole listing. */
  lemma {:induction false} FirstErrorWins(s: Source, rank: Rank, path: string, entries: seq<FileSpec>, n: nat)
    requires FiniteTree(s, rank) && s.list(path).Entries? && forall e | e in entries :: e in s.list(path).entries
    requires n <= |entries| && TreeOfEntries(s, rank, path, entries[..n]).Error?
    ensures TreeOfEntries(s, rank, path, entries) == TreeOfEntries(s, rank, path, entries[..n])
    decreases entries
  {
    if n == |entries| {
      assert entries[..n] == entries;
    } else {
      assert entries[..|entries| - 1][..n] == entries[..n];
      FirstErrorWins(s, rank, path, entries[..|entries| - 1], n);
    }
  }

  /** `recursivelyListEntries`: terminates on a finite tree, with its files or its first error. */
  method RecursivelyListEntries(s: Source, path: string, ghost rank: Rank)
    returns (files: seq<string>, err: Option<Listed>)
    requires FiniteTree(s, rank)
    ensures TreeOf(s, rank, path) == if err.Some? then Error(err.value) else Files(files)
    decreases rank(path)
  {
    files, err := [], None;
    var listed := s.list(path);
    if !listed.Entries? {
      return [], Some(listed);
    }
    for i := 0 to |listed.entries|
      invariant TreeOfEntries(s, rank, path, listed.entries[..i]) == Files(files)
    {
      var entry := listed.entries[i];
      assert entry in s.list(path).entries && listed.entries[..i + 1][..i] == listed.entries[..i];
      if entry.isDirectory {
        if BaseName(path) != BaseName(entry.path) {
          var tmpFiles, e := RecursivelyListEntries(s, entry.path, rank);
          if e.Some? {
            FirstErrorWins(s, rank, path, listed.entries, i + 1);
            return [], e;
          }
          files := files + tmpFiles;
        }
      } else {
        files := files + [entry.path];
      }
    }
    assert listed.entries[..|listed.entries|] == listed.entries;
    err := None;
  }

  // ----- what the tree contains -----

  /** From the first directory, each of the others is entered from the one before it, and the file is in the last. */
  predicate Leads(s: Source, chain: seq<string>, f: string)
    requires chain != []
    decreases |chain|
  {
    && s.list(chain[0]).Entries?
    && exists e :: e in s.list(chain[0]).entries &&
         if |chain| == 1 then !e.isDirectory && e.path == f
         else
           && e.isDirectory && e.path == chain[1] && BaseName(chain[0]) != BaseName(chain[1])
           && Leads(s, chain[1..], f)
  }

  lemma {:induction false} EntriesContain(s: Source, rank: Rank, path: string, entries: seq<FileSpec>, f: string)
    requires FiniteTree(s, rank) && s.list(path).Entries? && forall e | e in entries :: e in s.list(path).entries
    requires TreeOfEntries(s, rank, path, entries).Files?
    ensures forall e | e in entries :: TreeOfEntry(s, rank, path, e).Files?
    ensures f in TreeOfEntries(s, rank, path, entries).files <==>
      exists e :: e in entries && f in TreeOfEntry(s, rank, path, e).files
    decreases entries
  {
    if entries == [] {
    } else {
      var front, last := entries[..|entries| - 1], entries[|entries| - 1];
      assert entries == front + [last] && TreeOfEntry(s, rank, path, last).Files?;
      EntriesContain(s, rank, path, front, f);
      assert f in TreeOfEntries(s, rank, path, entries).files <==>
          f in TreeOfEntries(s, rank, path, front).files || f in TreeOfEntry(s, rank, path, last).files;
    }
  }

  /** Every file of the tree is found through directories that have another name than the one they are listed in. */
  lemma {:induction false} TreeIsReached(s: Source, rank: Rank, path: string, f: string) returns (chain: seq<string>)
    requires FiniteTree(s, rank) && TreeOf(s, rank, path).Files? && f in TreeOf(s, rank, path).files
    ensures chain != [] && chain[0] == path && Leads(s, chain, f)
    decreases rank(path)
  {
    var entries := s.list(path).entries;
    EntriesContain(s, rank, path, entries, f);
    var e :| e in entries && f in TreeOfEntry(s, rank, path, e).files;
    if e.isDirectory {
      var rest := TreeIsReached(s, rank, e.path, f);
      chain := [path] + rest;
      assert chain[1..] == rest;
    } else {
      chain := [path];
    }
  }

  /** And every such file is in the tree, if there is no error. */
  lemma {:induction false} ReachedIsInTree(s: Source, rank: Rank, chain: seq<string>, f: string)
    requires FiniteTree(s, rank) && chain != [] && Leads(s, chain, f) && TreeOf(s, rank, chain[0]).Files?
    ensures f in TreeOf(s, rank, chain[0]).files
    decreases |chain|
  {
    var path := chain[0];
    var entries := s.list(path).entries;
    EntriesContain(s, rank, path, entries, f);
    if |chain| == 1 {
      var e :| e in entries && !e.isDirectory && e.path == f;
      assert f in TreeOfEntry(s, rank, path, e).files;
    } else {
      var e :| e in entries && e.isDirectory && e.path == chain[1] && BaseName(path) != BaseName(chain[1]);
      assert TreeOfEntry(s, rank, path, e) == TreeOf(s, rank, chain[1]);
      ReachedIsInTree(s, rank, chain[1..], f);
    }
  }

  lemma BelowBelow(root: string, dir: string, path: string)
    requires Below(root, dir) && Below(dir, path)
    ensures Below(root, path)
  {
    assert path[..|dir|] == dir;
  }

  /** All of it lies below the directory, if every listing keeps to its directory. */
  lemma {:induction false} TreeLiesBelow(s: Source, rank: Rank, path: string)
    requires FiniteTree(s, rank) && ListsBelow(s)
    ensures TreeOf(s, rank, path).Files? ==> forall f | f in TreeOf(s, rank, path).files :: Below(path, f)
    decreases rank(path), 1, 0
  {
    if s.list(path).Entries? {
      EntriesLieBelow(s, rank, path, s.list(path).entries);
    } else {
    }
  }

  lemma {:induction false} EntriesLieBelow(s: Source, rank: Rank, path: string, entries: seq<FileSpec>)
    requires FiniteTree(s, rank) && ListsBelow(s)
    requires s.list(path).Entries? && forall e | e in entries :: e in s.list(path).entries
    ensures var t := TreeOfEntries(s, rank, path, entries); t.Files? ==> forall f | f in t.files :: Below(path, f)
    decreases rank(path), 0, |entries|
  {
    if entries == [] {
    } else {
      var e := entries[|entries| - 1];
      EntriesLieBelow(s, rank, path, entries[..|entries| - 1]);
      if Entered(path, e) {
        TreeLiesBelow(s, rank, e.path);
        if TreeOf(s, rank, e.path).Files? {
          forall f | f in TreeOf(s, rank, e.path).files
            ensures Below(path, f)
          {
            BelowBelow(path, e.path, f);
          }
        }
      }
    }
  }

  // ----- one distribution -----

  /** The packages and sources of a distribution, and the files below its root. */
  datatype DistFiles = DistFiles(pool: seq<string>, tree: seq<string>)

  function Root(dist: string): string {
    "dists/" + dist
  }

  /** The architectures in question: those of the configuration, if it has any. */
  function Architectures(configured: seq<string>, release: Release): seq<string>
    requires release.Release?
  {
    if configured != [] then configured else release.architectures
  }

  /** The indices of both kinds. */
  function IndicesOf(s: Source, configured: seq<string>, root: string): set<string>
    requires s.release(root).Release?
  {
    var release := s.release(root);
    PackageIndices(root, release.entries, Architectures(configured, release)) + SourceIndices(root, release.entries)
  }

  /** The pool of a distribution: what its indices mention. */
  function PoolOf(s: Source, configured: seq<string>, root: string): set<string>
    requires s.release(root).Release?
  {
    FilesOfIndices(s, IndicesOf(s, configured, root))
  }

  ghost predicate EndsIn(s: string, suffix: string) {
    exists front :: s == front + suffix
  }

  /** An entry of a release file that names an index of sources, or of packages for an architecture in question. */
  ghost predicate Wanted(configured: seq<string>, release: Release, e: ReleaseEntry)
    requires release.Release?
  {
    || EndsIn(e.filename, "Sources.gz") || EndsIn(e.filename, "Sources.xz")
    || (e.architecture.Some? && e.architecture.value in if configured == [] then release.architectures else configured)
  }

  /** The files that the index with this name mentions: in its newer compression or, failing that, the older one. */
  predicate Mentions(s: Source, name: string, f: string) {
    || (s.index(name + ".xz").Some? && f in s.index(name + ".xz").value)
    || (s.index(name + ".xz").None? && s.index(name + ".gz").Some? && f in s.index(name + ".gz").value)
  }

  lemma SuffixIsEnd(s: string, suffix: string)
    ensures HasSuffix(s, suffix) <==> EndsIn(s, suffix)
  {
    if HasSuffix(s, suffix) {
      assert s == s[..|s| - |suffix|] + suffix;
    }
  }

  lemma WantedAreIndices(configured: seq<string>, release: Release, e: ReleaseEntry)
    requires release.Release?
    ensures Wanted(configured, release, e) <==>
      IsSources(e.filename) || (e.architecture.Some? && e.architecture.value in Architectures(configured, release))
  {
    SuffixIsEnd(e.filename, "Sources.gz");
    SuffixIsEnd(e.filename, "Sources.xz");
  }

  lemma IndicesAreThose(s: Source, configured: seq<string>, root: string, name: string)
    requires s.release(root).Release?
    ensures name in IndicesOf(s, configured, root) <==>
      exists e :: e in s.release(root).entries && Wanted(configured, s.release(root), e)
        && name == Strip(root + "/" + e.filename)
  {
    var release := s.release(root);
    forall e | e in release.entries
      ensures Wanted(configured, release, e) <==>
        IsSources(e.filename) || (e.architecture.Some? && e.architecture.value in Architectures(configured, release))
    {
      WantedAreIndices(configured, release, e);
    }
  }

  lemma MentionedAreFiles(s: Source, names: set<string>, f: string)
    ensures f in FilesOfIndices(s, names) <==> exists name :: name in names && Mentions(s, name, f)
  {
    if name :| name in names && Mentions(s, name, f) {
      assert FilesOfIndex(s, name).Some? && f in FilesOfIndex(s, name).value;
    }
  }

  /** The pool has exactly what the wanted indices mention. */
  lemma PoolIsMentioned(s: Source, configured: seq<string>, root: string, f: string)
    requires s.release(root).Release?
    ensures f in PoolOf(s, configured, root) <==>
      exists e :: e in s.release(root).entries && Wanted(configured, s.release(root), e)
        && Mentions(s, Strip(root + "/" + e.filename), f)
  {
    var names, release := IndicesOf(s, configured, root), s.release(root);
    MentionedAreFiles(s, names, f);
    if name :| name in names && Mentions(s, name, f) {
      IndicesAreThose(s, configured, root, name);
    }
    if e :| e in release.entries && Wanted(configured, release, e) && Mentions(s, Strip(root + "/" + e.filename), f) {
      IndicesAreThose(s, configured, root, Strip(root + "/" + e.filename));
    }
  }

  /** Its tree; a root directory that cannot be found, or a directory within, leaves it empty. */
  ghost function FilesOfRoot(s: Source, rank: Rank, root: string): Option<seq<string>>
    requires FiniteTree(s, rank)
  {
    match TreeOf(s, rank, root)
    case Files(files) => Some(files)
    case Error(err) => if err.NotThere? then Some([]) else None
  }

  /** A root that is not there counts as empty, but one that cannot be listed does not. */
  lemma MissingRootIsEmpty(s: Source, rank: Rank, root: string)
    requires FiniteTree(s, rank)
    ensures s.list(root).NotThere? ==> FilesOfRoot(s, rank, root) == Some([])
    ensures s.list(root).Unlisted? ==> FilesOfRoot(s, rank, root).None?
  {
  }

  /** What the listing of a distribution should be. */
  ghost predicate IsDist(s: Source, configured: seq<string>, rank: Rank, root: string, d: DistFiles)
    requires FiniteTree(s, rank)
  {
    && s.release(root).Release?
    && (forall f :: f in d.pool <==> f in PoolOf(s, configured, root))
    && Some(d.tree) == FilesOfRoot(s, rank, root)
  }

  /** Everything that is needed for the listing can be read. */
  ghost predicate Readable(s: Source, configured: seq<string>, rank: Rank, root: string)
    requires FiniteTree(s, rank)
  {
    && s.release(root).Release?
    && (forall name | name in IndicesOf(s, configured, root) :: FilesOfIndex(s, name).Some?)
    && FilesOfRoot(s, rank, root).Some?
  }

  /** `listDistFiles` */
  method ListDistFiles(s: Source, configured: seq<string>, root: string, ghost rank: Rank)
    returns (distFiles: seq<string>, end: Ending, ghost d: DistFiles)
    requires FiniteTree(s, rank)
    ensures end.Complete? <==> Readable(s, configured, rank, root)
    ensures end.Complete? ==> IsDist(s, configured, rank, root, d) && distFiles == d.pool + d.tree
    ensures end == Failing(true) <==> s.release(root).Unverified?
  {
    d := DistFiles([], []);
    var release := s.release(root);
    if !release.Release? {
      return [], Failing(release.Unverified?), d;
    }
    var packageIndices, sourceIndices := NoteIndices(root, release.entries, Architectures(configured, release));
    var packages, ok := ReadIndices(s, packageIndices);
    if !ok {
      return [], Failing(false), d;
    }
    var sources;
    sources, ok := ReadIndices(s, sourceIndices);
    if !ok {
      return [], Failing(false), d;
    }
    var entries, err := RecursivelyListEntries(s, root, rank);
    if err.Some? {
      if !err.value.NotThere? {
        return [], Failing(false), d;
      }
      entries := [];
    }
    d := DistFiles(packages + sources, entries);
    return packages + sources + entries, Complete, d;
  }

  // ----- all distributions -----

  /** The first occurrence of everything. */
  function Unique(paths: seq<string>): seq<string> {
    if paths == [] then [] else
    var front, last := paths[..|paths| - 1], paths[|paths| - 1];
    Unique(front) + if last in front then [] else [last]
  }

  function Flat(dists: seq<DistFiles>): seq<string> {
    if dists == [] then [] else
    Flat(dists[..|dists| - 1]) + (dists[|dists| - 1].pool + dists[|dists| - 1].tree)
  }

  lemma UniqueSnoc(paths: seq<string>, p: string)
    ensures Unique(paths + [p]) == Unique(paths) + if p in paths then [] else [p]
  {
    assert (paths + [p])[..|paths|] == paths;
  }

  lemma PathsSnoc(files: seq<FileSpec>, f: FileSpec)
    ensures Paths(files + [f]) == Paths(files) + [f.path]
  {
  }

  /** The paths that are known are those that have been seen. */
  ghost predicate Knows(known: set<string>, seen: seq<string>) {
    forall p :: p in known <==> p in seen
  }

  lemma KnowsMore(known: set<string>, seen: seq<string>, p: string)
    requires Knows(known, seen)
    ensures Knows(known + {p}, seen + [p]) && (p in known <==> p in seen)
  {
  }

  /** What is sent about a path comes from the cache as it is after one of the first `n` distributions. */
  ghost predicate FromCaches(out: seq<FileSpec>, caches: nat -> Cache, n: nat) {
    forall f | f in out :: CachedSpec(f, caches, n)
  }

  ghost predicate CachedSpec(f: FileSpec, caches: nat -> Cache, n: nat) {
    exists i: nat :: i < n && f == SpecFor(f.path, caches(i))
  }

  /** What is new comes from the cache. */
  ghost predicate Adds(sent: seq<FileSpec>, out: seq<FileSpec>, cache: Cache) {
    forall f | f in out :: f in sent || f == SpecFor(f.path, cache)
  }

  lemma AddsMore(sent: seq<FileSpec>, out: seq<FileSpec>, cache: Cache, file: string)
    requires Sound(cache) && Adds(sent, out, cache)
    ensures Adds(sent, out + [SpecFor(file, cache)], cache)
    ensures Paths(out + [SpecFor(file, cache)]) == Paths(out) + [file]
  {
    PathsSnoc(out, SpecFor(file, cache));
  }

  /** The inner loop of `ListAllFiles`. */
  method EmitNew(distFiles: seq<string>, cache: Cache, sent: seq<FileSpec>, known: set<string>,
                 ghost before: seq<string>)
    returns (out: seq<FileSpec>, transferred: set<string>)
    requires Sound(cache) && Paths(sent) == Unique(before) && Knows(known, before)
    ensures Paths(out) == Unique(before + distFiles) && Knows(transferred, before + distFiles)
    ensures Adds(sent, out, cache)
  {
    out, transferred := sent, known;
    ghost var seen := before;
    assert before + [] == before;
    for i := 0 to |distFiles|
      invariant seen == before + distFiles[..i]
      invariant Paths(out) == Unique(seen) && Knows(transferred, seen)
      invariant Adds(sent, out, cache)
    {
      var file := distFiles[i];
      UniqueSnoc(seen, file);
      KnowsMore(transferred, seen, file);
      assert before + distFiles[..i + 1] == seen + [file];
      seen := seen + [file];
      if file !in transferred {
        AddsMore(sent, out, cache, file);
        out := out + [SpecFor(file, cache)];
        transferred := transferred + {file};
      } else {
        assert transferred + {file} == transferred;
      }
    }
    assert distFiles[..|distFiles|] == distFiles;
  }

  lemma MoreFromCaches(sent: seq<FileSpec>, out: seq<FileSpec>, caches: nat -> Cache, n: nat)
    requires FromCaches(sent, caches, n) && Adds(sent, out, caches(n))
    ensures FromCaches(out, caches, n + 1)
  {
    forall f | f in out
      ensures CachedSpec(f, caches, n + 1)
    {
      assert f in sent ==> CachedSpec(f, caches, n);
    }
  }

  function Roots(distributions: seq<string>): seq<string> {
    seq(|distributions|, k requires 0 <= k < |distributions| => "dists/" + distributions[k])
  }

  /** Listings of the first distributions. */
  ghost predicate AreDists(s: Source, configured: seq<string>, rank: Rank, roots: seq<string>, dists: seq<DistFiles>)
    requires FiniteTree(s, rank)
  {
    |dists| <= |roots| && forall k | 0 <= k < |dists| :: IsDist(s, configured, rank, roots[k], dists[k])
  }

  lemma DistsGrow(s: Source, configured: seq<string>, rank: Rank, roots: seq<string>, dists: seq<DistFiles>,
                  d: DistFiles)
    requires FiniteTree(s, rank) && AreDists(s, configured, rank, roots, dists) && |dists| < |roots|
    requires IsDist(s, configured, rank, roots[|dists|], d)
    ensures AreDists(s, configured, rank, roots, dists + [d])
  {
    forall k | 0 <= k < |dists + [d]|
      ensures IsDist(s, configured, rank, roots[k], (dists + [d])[k])
    {
      assert (dists + [d])[k] == if k < |dists| then dists[k] else d;
    }
  }

  lemma FlatSnoc(dists: seq<DistFiles>, d: DistFiles)
    ensures Flat(dists + [d]) == Flat(dists) + (d.pool + d.tree)
  {
    assert (dists + [d])[..|dists|] == dists;
  }

  /**
   * `DebianSource.ListAllFiles`; `caches` are the contents of the cache after each
   * distribution. The listing breaks off at the first distribution that fails.
   */
  method ListAllFiles(s: Source, distributions: seq<string>, configured: seq<string>, caches: nat -> Cache,
                      ghost rank: Rank)
    returns (out: seq<FileSpec>, end: Ending, ghost dists: seq<DistFiles>)
    requires FiniteTree(s, rank) && forall i: nat :: Sound(caches(i))
    ensures AreDists(s, configured, rank, Roots(distributions), dists)
    ensures Paths(out) == Unique(Flat(dists)) && Distinct(Paths(out)) && FromCaches(out, caches, |dists|)
    ensures |dists| < |distributions| ==> !Readable(s, configured, rank, Roots(distributions)[|dists|])
    ensures end.Complete? <==> distributions != [] && |dists| == |distributions|
    ensures end == Failing(true) <==>
      |dists| < |distributions| && s.release(Roots(distributions)[|dists|]).Unverified?
  {
    out, dists := [], [];
    if distributions == [] {
      return out, Failing(false), dists;
    }
    var transferred: set<string> := {};
    for i := 0 to |distributions|
      invariant |dists| == i && AreDists(s, configured, rank, Roots(distributions), dists)
      invariant Paths(out) == Unique(Flat(dists)) && Knows(transferred, Flat(dists)) && FromCaches(out, caches, i)
    {
      var distFiles, e, d := ListDistFiles(s, configured, Root(distributions[i]), rank);
      if e.Failing? {
        UniqueIsDistinct(Flat(dists));
        return out, e, dists;
      }
      ghost var sent := out;
      out, transferred := EmitNew(distFiles, caches(i), out, transferred, Flat(dists));
      MoreFromCaches(sent, out, caches, i);
      DistsGrow(s, configured, rank, Roots(distributions), dists, d);
      FlatSnoc(dists, d);
      dists := dists + [d];
    }
    UniqueIsDistinct(Flat(dists));
    end := Complete;
  }

  // ----- what the order means -----

  /** No path twice. */
  predicate Distinct(paths: seq<string>) {
    forall i, j | 0 <= i < j < |paths| :: paths[i] != paths[j]
  }

  lemma {:induction false} UniqueIsDistinct(paths: seq<string>)
    ensures Distinct(Unique(paths)) && forall p :: p in Unique(paths) <==> p in paths
    decreases paths
  {
    if paths == [] {
    } else {
      var front, last := paths[..|paths| - 1], paths[|paths| - 1];
      assert paths == front + [last];
      UniqueIsDistinct(front);
    }
  }

  lemma {:induction false} UniqueGrows(a: seq<string>, b: seq<string>)
    ensures Unique(a) <= Unique(a + b)
    decreases b
  {
    if b == [] {
      assert a + b == a;
    } else {
      UniqueGrows(a, b[..|b| - 1]);
      UniqueSnoc(a + b[..|b| - 1], b[|b| - 1]);
      assert a + b == a + b[..|b| - 1] + [b[|b| - 1]];
    }
  }

  lemma BeginningOf(a: seq<string>, b: seq<string>)
    requires a <= b
    ensures forall j | 0 <= j < |a| :: b[j] == a[j] && b[j] in a
  {
  }

  /**
   * Every file of the pool of a distribution comes before every file below its root,
   * unless the latter has been listed for an earlier distribution or is in the pool itself.
   */
  lemma PoolPrecedesTree(earlier: seq<string>, pool: seq<string>, tree: seq<string>, later: seq<string>,
                         p: string, t: string)
    returns (i: nat, j: nat)
    requires p in pool && t in tree && t !in earlier && t !in pool
    ensures var listing := Unique(earlier + pool + tree + later);
      i < j < |listing| && listing[i] == p && listing[j] == t
  {
    var first, all := earlier + pool, earlier + pool + tree + later;
    UniqueIsDistinct(first);
    UniqueIsDistinct(all);
    assert all == first + (tree + later);
    UniqueGrows(first, tree + later);
    assert p in first && p in Unique(first) && t !in first && t !in Unique(first);
    i :| 0 <= i < |Unique(first)| && Unique(first)[i] == p;
    assert t in all && t in Unique(all);
    j :| 0 <= j < |Unique(all)| && Unique(all)[j] == t;
    BeginningOf(Unique(first), Unique(all));
  }

  lemma {:induction false} FlatAround(dists: seq<DistFiles>, k: nat)
    requires k < |dists|
    ensures exists later :: Flat(dists) == Flat(dists[..k]) + dists[k].pool + dists[k].tree + later
    decreases dists
  {
    var front, last := dists[..|dists| - 1], dists[|dists| - 1];
    if k < |dists| - 1 {
      FlatAround(front, k);
      assert front[..k] == dists[..k];
      var later :| Flat(front) == Flat(front[..k]) + front[k].pool + front[k].tree + later;
      assert Flat(dists) == Flat(dists[..k]) + dists[k].pool + dists[k].tree + (later + (last.pool + last.tree));
    } else {
      assert Flat(dists) == Flat(dists[..k]) + dists[k].pool + dists[k].tree + [];
    }
  }

  lemma {:induction false} FlatContains(dists: seq<DistFiles>, f: string)
    ensures f in Flat(dists) <==> exists k :: 0 <= k < |dists| && (f in dists[k].pool || f in dists[k].tree)
    decreases dists
  {
    if dists == [] {
    } else {
      var front, last := dists[..|dists| - 1], dists[|dists| - 1];
      FlatContains(front, f);
      if k :| 0 <= k < |dists| && (f in dists[k].pool || f in dists[k].tree) {
        assert k < |dists| - 1 ==> front[k] == dists[k];
      }
      if k :| 0 <= k < |front| && (f in front[k].pool || f in front[k].tree) {
        assert dists[k] == front[k];
      }
    }
  }

  /** Roots are not nested, and the pools lie outside of them. */
  ghost predicate Apart(s: Source, configured: seq<string>, roots: seq<string>) {
    && (forall i, j, f: string | 0 <= i < j < |roots| :: !(Below(roots[i], f) && Below(roots[j], f)))
    && (forall i, j, f: string | 0 <= i < |roots| && 0 <= j < |roots| && s.release(roots[i]).Release? ::
          f in PoolOf(s, configured, roots[i]) ==> !Below(roots[j], f))
  }

  lemma DistLiesBelow(s: Source, configured: seq<string>, rank: Rank, root: string, d: DistFiles)
    requires FiniteTree(s, rank) && ListsBelow(s) && IsDist(s, configured, rank, root, d)
    ensures forall f | f in d.tree :: Below(root, f)
  {
    TreeLiesBelow(s, rank, root);
  }

  /** Nothing that is listed before the tree of a distribution lies below its root. */
  lemma NothingEarlierBelow(s: Source, configured: seq<string>, rank: Rank, roots: seq<string>,
                            dists: seq<DistFiles>, k: nat, f: string)
    requires FiniteTree(s, rank) && ListsBelow(s) && Apart(s, configured, roots)
    requires AreDists(s, configured, rank, roots, dists)
    requires k < |dists| && (f in Flat(dists[..k]) || f in dists[k].pool)
    ensures !Below(roots[k], f)
  {
    assert IsDist(s, configured, rank, roots[k], dists[k]);
    FlatContains(dists[..k], f);
    if i :| 0 <= i < |dists[..k]| && (f in dists[..k][i].pool || f in dists[..k][i].tree) {
      assert dists[..k][i] == dists[i] && IsDist(s, configured, rank, roots[i], dists[i]);
      DistLiesBelow(s, configured, rank, roots[i], dists[i]);
    }
  }

  /**
   * Metadata comes after packages: if the roots of the distributions are not nested and no
   * pool lies below a root, then every file of the pool of a distribution comes before
   * every file below its root.
   */
  lemma MetadataAfterPool(s: Source, configured: seq<string>, rank: Rank, roots: seq<string>, dists: seq<DistFiles>,
                          k: nat, p: string, t: string)
    returns (i: nat, j: nat)
    requires FiniteTree(s, rank) && ListsBelow(s) && Apart(s, configured, roots)
    requires AreDists(s, configured, rank, roots, dists)
    requires k < |dists| && p in dists[k].pool && t in dists[k].tree
    ensures var listing := Unique(Flat(dists)); i < j < |listing| && listing[i] == p && listing[j] == t
  {
    assert IsDist(s, configured, rank, roots[k], dists[k]);
    DistLiesBelow(s, configured, rank, roots[k], dists[k]);
    if t in Flat(dists[..k]) || t in dists[k].pool {
      NothingEarlierBelow(s, configured, rank, roots, dists, k, t);
    }
    FlatAround(dists, k);
    var later :| Flat(dists) == Flat(dists[..k]) + dists[k].pool + dists[k].tree + later;
    i, j := PoolPrecedesTree(Flat(dists[..k]), dists[k].pool, dists[k].tree, later, p, t);
  }
}
