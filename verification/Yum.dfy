/** The files of a Yum repository, in the order in which they are listed. */
module Yum {
  import opened Base
  import opened Objects

  /** The result of a GET; `NotFound` is status 404. */
  datatype Fetched = Contents(cached: Cached) | NotFound | Broken

  /** An entry of repomd.xml, and a package with the files that belong to it. */
  datatype Entry = Entry(kind: string, href: string)

  datatype Package = Package(architecture: string, hrefs: seq<string>)

  /** What the XML documents say, if they can be parsed. */
  datatype Parsers = Parsers(
    repomd: seq<int> -> Option<seq<Entry>>,
    packages: seq<int> -> Option<seq<Package>>)

  /** `gpg` stands for the message that a GPG verification failed. */
  datatype Ending = Complete | Failing(gpg: bool)

  /** Paths to what has been downloaded while listing. */
  type Cache = map<string, FileSpec>

  /** `YumSource`; an empty list of architectures means all. */
  datatype Repository = Repository(architectures: seq<string>, verify: bool, parsers: Parsers)

  const REPOMD: string := "repodata/repomd.xml"

  const PLAIN: FileSpec := FileSpec("", "", false, None, "", None)

  /** `getFileSpec` */
  function SpecFor(path: string, cache: Cache): FileSpec {
    if path in cache then cache[path] else PLAIN.(path := path)
  }

  function Downloaded(path: string, cached: Cached): FileSpec {
    PLAIN.(path := path, contents := Some(cached))
  }

  /** The cache holds what has been downloaded under its path. */
  predicate Sound(cache: Cache) {
    forall path | path in cache :: cache[path].path == path && !cache[path].isDirectory
  }

  /** There are no directories among the files. */
  predicate Regular(files: seq<FileSpec>) {
    forall f | f in files :: !f.isDirectory
  }

  predicate Handles(r: Repository, architecture: string) {
    r.architectures == [] || architecture == "" || architecture in r.architectures
  }

  /** The files of the packages for the architectures in question. */
  function Selected(r: Repository, packages: seq<Package>): seq<string> {
    if packages == [] then [] else
    (if Handles(r, packages[0].architecture) then packages[0].hrefs else []) + Selected(r, packages[1..])
  }

  /** The last entry of a kind. */
  function HrefOf(entries: seq<Entry>, kind: string): Option<string> {
    if entries == [] then None
    else if entries[|entries| - 1].kind == kind then Some(entries[|entries| - 1].href)
    else HrefOf(entries[..|entries| - 1], kind)
  }

  function Hrefs(entries: seq<Entry>): seq<string> {
    seq(|entries|, i requires 0 <= i < |entries| => entries[i].href)
  }

  function Paths(files: seq<FileSpec>): seq<string> {
    seq(|files|, i requires 0 <= i < |files| => files[i].path)
  }

  lemma {:induction false} SelectedSnoc(r: Repository, packages: seq<Package>, p: Package)
    ensures Selected(r, packages + [p]) == Selected(r, packages) + if Handles(r, p.architecture) then p.hrefs else []
    decreases packages
  {
    if packages == [] {
      assert packages + [p] == [p] && [p][1..] == [];
    } else {
      assert (packages + [p])[1..] == packages[1..] + [p];
      SelectedSnoc(r, packages[1..], p);
    }
  }

  /** The link to the primary index, and the one to the index of deltas, under either of its names. */
  function Primary(entries: seq<Entry>): Option<string> {
    HrefOf(entries, "primary")
  }

  function Delta(entries: seq<Entry>): Option<string> {
    if HrefOf(entries, "prestodelta").Some? then HrefOf(entries, "prestodelta") else HrefOf(entries, "deltainfo")
  }

  /** The GET for a path; its number makes a difference if the source changes meanwhile. */
  type Get = (string, nat) -> Fetched

  /** The packages in an index, if it can be downloaded and parsed. */
  function ReadIndex(r: Repository, fetched: Fetched): Option<seq<Package>> {
    if fetched.Contents? then r.parsers.packages(fetched.cached.bytes) else None
  }

  function Remember(cache: Cache, path: string, fetched: Fetched): Cache {
    if fetched.Contents? then cache[path := Downloaded(path, fetched.cached)] else cache
  }

  /** The packages of the primary index, and those of the index of deltas, if there is one. */
  function PackagesOf(r: Repository, entries: seq<Entry>, get: Get): Option<seq<Package>> {
    if Primary(entries).None? then None else ReadIndex(r, get(Primary(entries).value, 2))
  }

  function DeltasOf(r: Repository, entries: seq<Entry>, get: Get): Option<seq<Package>> {
    if Delta(entries).None? then Some([]) else ReadIndex(r, get(Delta(entries).value, 3))
  }

  /** Sending the specs of all paths. */
  method Emit(out: seq<FileSpec>, paths: seq<string>, cache: Cache) returns (r: seq<FileSpec>)
    requires Sound(cache)
    ensures out <= r && Paths(r) == Paths(out) + paths && (Regular(out) ==> Regular(r))
    ensures |r| == |out| + |paths| && forall i | 0 <= i < |paths| :: r[|out| + i] == SpecFor(paths[i], cache)
  {
    r := out;
    for i := 0 to |paths|
      invariant out <= r && Paths(r) == Paths(out) + paths[..i] && (Regular(out) ==> Regular(r))
      invariant |r| == |out| + i && forall k | 0 <= k < i :: r[|out| + k] == SpecFor(paths[k], cache)
    {
      assert paths[..i + 1] == paths[..i] + [paths[i]];
      r := r + [SpecFor(paths[i], cache)];
      assert Paths(r) == Paths(r[..|r| - 1]) + [paths[i]];
      assert r[..|r| - 1] + [r[|r| - 1]] == r;
    }
    assert paths[..|paths|] == paths;
  }

  /** Sending the files of the packages for the architectures in question. */
  method EmitPackages(r: Repository, out: seq<FileSpec>, packages: seq<Package>, cache: Cache)
    returns (res: seq<FileSpec>)
    requires Sound(cache)
    ensures out <= res && Paths(res) == Paths(out) + Selected(r, packages) && (Regular(out) ==> Regular(res))
  {
    res := out;
    for i := 0 to |packages|
      invariant out <= res && Paths(res) == Paths(out) + Selected(r, packages[..i]) && (Regular(out) ==> Regular(res))
    {
      assert packages[..i + 1] == packages[..i] + [packages[i]];
      SelectedSnoc(r, packages[..i], packages[i]);
      if Handles(r, packages[i].architecture) {
        res := Emit(res, packages[i].hrefs, cache);
      }
    }
    assert packages[..|packages|] == packages;
  }

  // ----- the listing -----

  /** The entries of repomd.xml, if it can be downloaded and parsed. */
  function EntriesOf(r: Repository, get: Get): Option<seq<Entry>> {
    if get(REPOMD, 0).Contents? then r.parsers.repomd(get(REPOMD, 0).cached.bytes) else None
  }

  const SIGNATURE: string := REPOMD + ".asc"
  const KEY: string := REPOMD + ".key"

  /** A path that stands before the key in a listing. */
  predicate Mentioned(r: Repository, get: Get, path: string) {
    || path == SIGNATURE
    || (EntriesOf(r, get).Some? &&
        var entries := EntriesOf(r, get).value;
        || path in Hrefs(entries)
        || (PackagesOf(r, entries, get).Some? && path in Selected(r, PackagesOf(r, entries, get).value))
        || (DeltasOf(r, entries, get).Some? && path in Selected(r, DeltasOf(r, entries, get).value)))
  }

  /**
   * A complete listing: after the signature (if any) come the entries, the packages, the
   * deltas and the key (if any), and then comes repomd.xml.
   */
  predicate Lists(r: Repository, get: Get, paths: seq<string>) {
    && EntriesOf(r, get).Some?
    && var entries := EntriesOf(r, get).value;
    && PackagesOf(r, entries, get).Some? && DeltasOf(r, entries, get).Some?
    && paths == (if get(SIGNATURE, 1).Contents? then [SIGNATURE] else []) + Hrefs(entries)
                + Selected(r, PackagesOf(r, entries, get).value) + Selected(r, DeltasOf(r, entries, get).value)
                + (if get(KEY, 4).Contents? then [KEY] else []) + [REPOMD]
  }

  /** The signature is there and does not fit, although that is to be checked. */
  predicate Rejects(r: Repository, get: Get, valid: bool) {
    EntriesOf(r, get).Some? && get(SIGNATURE, 1).Contents? && r.verify && !valid
  }

  /** The parts of a listing, up to the entries, the packages and the deltas. */
  function UpToEntries(get: Get, entries: seq<Entry>): seq<string> {
    (if get(SIGNATURE, 1).Contents? then [SIGNATURE] else []) + Hrefs(entries)
  }

  /** The metadata that the listing needs are there: everything but the signature and the key, which may be missing. */
  predicate Readable(r: Repository, get: Get, valid: bool) {
    && EntriesOf(r, get).Some? && !get(SIGNATURE, 1).Broken? && !Rejects(r, get, valid)
    && PackagesOf(r, EntriesOf(r, get).value, get).Some? && DeltasOf(r, EntriesOf(r, get).value, get).Some?
    && !get(KEY, 4).Broken?
  }

  /** What has been listed when the listing breaks off. */
  predicate BrokenOff(r: Repository, get: Get, valid: bool, paths: seq<string>) {
    if EntriesOf(r, get).None? || get(SIGNATURE, 1).Broken? then paths == []
    else if Rejects(r, get, valid) then paths == [SIGNATURE]
    else
      var entries := EntriesOf(r, get).value;
      var packages, deltas := PackagesOf(r, entries, get), DeltasOf(r, entries, get);
      if packages.None? then paths == UpToEntries(get, entries)
      else if deltas.None? then paths == UpToEntries(get, entries) + Selected(r, packages.value)
      else paths == UpToEntries(get, entries) + Selected(r, packages.value) + Selected(r, deltas.value)
  }

  /** The signature, if there is one, comes first, with the bytes that have been checked. */
  predicate BeginsSigned(get: Get, files: seq<FileSpec>) {
    get(SIGNATURE, 1).Contents? ==> files != [] && files[0] == Downloaded(SIGNATURE, get(SIGNATURE, 1).cached)
  }

  /** `ListAllFiles` up to the entries of repomd.xml. */
  method ListEntries(r: Repository, get: Get, valid: bool)
    returns (out: seq<FileSpec>, cache: Cache, entries: seq<Entry>, end: Ending)
    ensures Sound(cache) && Regular(out) && forall f | f in out :: Mentioned(r, get, f.path)
    ensures end.Complete? ==>
      && EntriesOf(r, get) == Some(entries)
      && REPOMD in cache && cache[REPOMD] == Downloaded(REPOMD, get(REPOMD, 0).cached)
      && Paths(out) == UpToEntries(get, entries)
    ensures end.Complete? <==> EntriesOf(r, get).Some? && !get(SIGNATURE, 1).Broken? && !Rejects(r, get, valid)
    ensures end == Failing(true) <==> EntriesOf(r, get).Some? && get(SIGNATURE, 1).Contents? && r.verify && !valid
    ensures end.Failing? ==> BrokenOff(r, get, valid, Paths(out))
    ensures EntriesOf(r, get).Some? ==> BeginsSigned(get, out)
  {
    out, cache, entries := [], Remember(map[], REPOMD, get(REPOMD, 0)), [];
    if EntriesOf(r, get).None? {
      return out, cache, entries, Failing(false);
    }
    entries := EntriesOf(r, get).value;
    var signature := get(SIGNATURE, 1);
    cache := Remember(cache, SIGNATURE, signature);
    if signature.Contents? {
      out := Emit(out, [SIGNATURE], cache);
      assert out[0].path == Paths(out)[0] && out[0] == SpecFor([SIGNATURE][0], cache);
      if r.verify && !valid {
        return out, cache, entries, Failing(true);
      }
    } else if signature.Broken? {
      return out, cache, entries, Failing(false);
    }
    out := Emit(out, Hrefs(entries), cache);
    forall f | f in out
      ensures Mentioned(r, get, f.path)
    {
      PathIsListed(out, f);
    }
    end := Complete;
  }

  lemma PathIsListed(files: seq<FileSpec>, f: FileSpec)
    requires f in files
    ensures f.path in Paths(files)
  {
    var i :| 0 <= i < |files| && files[i] == f;
    assert Paths(files)[i] == f.path;
  }

  /** How often repomd.xml has been downloaded when it is read for the last time. */
  function LastRead(entries: seq<Entry>): nat {
    if Delta(entries) == Some(REPOMD) then 3 else if Primary(entries) == Some(REPOMD) then 2 else 0
  }

  predicate Remembers(get: Get, entries: seq<Entry>, known: Cache, cache: Cache) {
    get(REPOMD, 0).Contents? && REPOMD in known && known[REPOMD] == Downloaded(REPOMD, get(REPOMD, 0).cached) ==>
      && get(REPOMD, LastRead(entries)).Contents? && REPOMD in cache
      && cache[REPOMD] == Downloaded(REPOMD, get(REPOMD, LastRead(entries)).cached)
  }

  /** `ListAllFiles` from the entries to the deltas. */
  method ListPackages(r: Repository, get: Get, entries: seq<Entry>, listed: seq<FileSpec>, known: Cache)
    returns (out: seq<FileSpec>, cache: Cache, end: Ending)
    requires Sound(known) && Regular(listed) && forall f | f in listed :: Mentioned(r, get, f.path)
    requires EntriesOf(r, get) == Some(entries)
    ensures Sound(cache) && Regular(out) && listed <= out && forall f | f in out :: Mentioned(r, get, f.path)
    ensures end.Complete? ==> Remembers(get, entries, known, cache)
    ensures end.Complete? <==> PackagesOf(r, entries, get).Some? && DeltasOf(r, entries, get).Some?
    ensures end.Complete? ==>
      Paths(out) == Paths(listed) + Selected(r, PackagesOf(r, entries, get).value)
        + Selected(r, DeltasOf(r, entries, get).value)
    ensures end.Failing? && PackagesOf(r, entries, get).None? ==> Paths(out) == Paths(listed)
    ensures end.Failing? && PackagesOf(r, entries, get).Some? ==>
      Paths(out) == Paths(listed) + Selected(r, PackagesOf(r, entries, get).value)
    ensures end != Failing(true)
  {
    out, cache := listed, known;
    if Primary(entries).None? {
      return out, cache, Failing(false);
    }
    cache := Remember(cache, Primary(entries).value, get(Primary(entries).value, 2));
    var packages := PackagesOf(r, entries, get);
    if packages.None? {
      return out, cache, Failing(false);
    }
    out := EmitPackages(r, out, packages.value, cache);
    ghost var afterPackages := out;
    if Delta(entries).Some? {
      cache := Remember(cache, Delta(entries).value, get(Delta(entries).value, 3));
      var deltas := DeltasOf(r, entries, get);
      if deltas.None? {
        end := Failing(false);
      } else {
        out := EmitPackages(r, out, deltas.value, cache);
        end := Complete;
      }
    } else {
      assert Paths(out) + Selected(r, []) == Paths(out);
      end := Complete;
    }
    forall f | f in out
      ensures Mentioned(r, get, f.path)
    {
      PathIsListed(out, f);
      assert f.path in Paths(listed) ==> Mentioned(r, get, f.path) by {
        if i :| 0 <= i < |listed| && Paths(listed)[i] == f.path {
          assert listed[i] in listed;
        }
      }
    }
  }

  /** A complete listing, which ends with the key (if any) and repomd.xml as they were read for the last time. */
  predicate IsListing(r: Repository, get: Get, files: seq<FileSpec>) {
    && Lists(r, get, Paths(files)) && Regular(files)
    && var reading := get(REPOMD, LastRead(EntriesOf(r, get).value));
    && reading.Contents? && files != [] && files[|files| - 1] == Downloaded(REPOMD, reading.cached)
    && (get(KEY, 4).Contents? ==> |files| > 1 && files[|files| - 2] == Downloaded(KEY, get(KEY, 4).cached))
  }

  /** `YumSource.ListAllFiles` */
  method ListAllFiles(r: Repository, get: Get, valid: bool) returns (out: seq<FileSpec>, end: Ending)
    ensures end.Complete? <==> Readable(r, get, valid)
    ensures end.Complete? ==> IsListing(r, get, out)
    ensures end.Failing? ==> BrokenOff(r, get, valid, Paths(out)) && forall f | f in out :: Mentioned(r, get, f.path)
    ensures end == Failing(true) <==> EntriesOf(r, get).Some? && get(SIGNATURE, 1).Contents? && r.verify && !valid
    ensures EntriesOf(r, get).Some? ==> BeginsSigned(get, out)
  {
    var cache, entries;
    out, cache, entries, end := ListEntries(r, get, valid);
    if end.Failing? {
      return;
    }
    ghost var first := cache;
    out, cache, end := ListPackages(r, get, entries, out, cache);
    if end.Failing? {
      return;
    }
    var key := get(KEY, 4);
    cache := Remember(cache, KEY, key);
    if key.Contents? {
      ghost var n := |out|;
      out := Emit(out, [KEY], cache);
      assert out[n + 0] == SpecFor([KEY][0], cache);
    } else if key.Broken? {
      return out, Failing(false);
    } else {
      assert Paths(out) + [] == Paths(out);
    }
    assert |KEY| > |REPOMD| && first[REPOMD] == Downloaded(REPOMD, get(REPOMD, 0).cached);
    out := EmitRepomd(out, cache);
  }

  /** The last file of a listing. */
  method EmitRepomd(out: seq<FileSpec>, cache: Cache) returns (r: seq<FileSpec>)
    requires Sound(cache)
    ensures out <= r && |r| == |out| + 1
    ensures Paths(r) == Paths(out) + [REPOMD] && r[|r| - 1] == SpecFor(REPOMD, cache)
    ensures Regular(out) ==> Regular(r)
  {
    r := Emit(out, [REPOMD], cache);
    assert r[|out| + 0] == SpecFor([REPOMD][0], cache);
  }

  // ----- what the indices name -----

  /** The files are those of the packages whose architecture is asked for, or which have none, or all of them. */
  lemma {:induction false} SelectedAreThose(r: Repository, packages: seq<Package>, path: string)
    ensures path in Selected(r, packages) <==>
      exists p :: p in packages && path in p.hrefs
        && (r.architectures == [] || p.architecture == "" || p.architecture in r.architectures)
    decreases packages
  {
    if packages == [] {
    } else {
      SelectedAreThose(r, packages[1..], path);
      assert packages == [packages[0]] + packages[1..];
    }
  }

  /** Of several entries of a kind, the last one counts. */
  lemma {:induction false} LastHrefCounts(entries: seq<Entry>, kind: string, i: nat)
    requires i < |entries| && entries[i].kind == kind && forall j | i < j < |entries| :: entries[j].kind != kind
    ensures HrefOf(entries, kind) == Some(entries[i].href)
    decreases entries
  {
    if i == |entries| - 1 {
    } else {
      LastHrefCounts(entries[..|entries| - 1], kind, i);
    }
  }

  lemma {:induction false} NoHref(entries: seq<Entry>, kind: string)
    ensures HrefOf(entries, kind).None? <==> forall e | e in entries :: e.kind != kind
    decreases entries
  {
    if entries == [] {
    } else {
      var front, last := entries[..|entries| - 1], entries[|entries| - 1];
      assert entries == front + [last];
      NoHref(front, kind);
    }
  }

  /** The index of deltas has two names, of which "prestodelta" goes first; without either there are no deltas. */
  lemma DeltasAreOptional(r: Repository, entries: seq<Entry>, get: Get)
    ensures (exists e :: e in entries && e.kind == "prestodelta") ==>
      HrefOf(entries, "prestodelta").Some? && Delta(entries) == HrefOf(entries, "prestodelta")
    ensures (forall e | e in entries :: e.kind != "prestodelta") ==> Delta(entries) == HrefOf(entries, "deltainfo")
    ensures (forall e | e in entries :: e.kind !in {"prestodelta", "deltainfo"}) ==>
      DeltasOf(r, entries, get) == Some([])
    ensures (forall e | e in entries :: e.kind != "primary") ==> PackagesOf(r, entries, get).None?
  {
    NoHref(entries, "prestodelta");
    NoHref(entries, "deltainfo");
    NoHref(entries, "primary");
  }

  // ----- what the order means -----

  /** A package or delta of the repository, as its indices name it. */
  predicate IsPackage(r: Repository, get: Get, path: string) {
    && EntriesOf(r, get).Some?
    && var entries := EntriesOf(r, get).value;
    || (PackagesOf(r, entries, get).Some? && path in Selected(r, PackagesOf(r, entries, get).value))
    || (DeltasOf(r, entries, get).Some? && path in Selected(r, DeltasOf(r, entries, get).value))
  }

  /**
   * In a complete listing, repomd.xml stands at the end; every package stands before it;
   * and it stands nowhere else, unless it is named as one of its own entries or packages.
   */
  lemma RepomdComesLast(r: Repository, get: Get, paths: seq<string>)
    requires Lists(r, get, paths)
    ensures |paths| > 0 && paths[|paths| - 1] == REPOMD
    ensures forall path | IsPackage(r, get, path) || path in Hrefs(EntriesOf(r, get).value) ::
        path in paths[..|paths| - 1]
    ensures REPOMD in paths[..|paths| - 1] <==> IsPackage(r, get, REPOMD) || REPOMD in Hrefs(EntriesOf(r, get).value)
  {
    var entries := EntriesOf(r, get).value;
    var front := (if get(SIGNATURE, 1).Contents? then [SIGNATURE] else []) + Hrefs(entries)
      + Selected(r, PackagesOf(r, entries, get).value) + Selected(r, DeltasOf(r, entries, get).value)
      + (if get(KEY, 4).Contents? then [KEY] else []);
    assert paths == front + [REPOMD] && paths[..|paths| - 1] == front;
    assert |SIGNATURE| > |REPOMD| && |KEY| > |REPOMD|;
  }
}
