/** A Swift location: a container and a prefix for object names. */
module Locations {
  import opened Base
  import opened Objects

  datatype Location = Location(container: string, prefix: string) {
    /** `SwiftLocation.ObjectAtPath` */
    function ObjectAtPath(path: string): ObjectName {
      ObjectName(container, prefix + TrimSlash(path))
    }

    /** The object is in the container and below the prefix. */
    predicate Owns(n: ObjectName) {
      n.container == container && prefix <= n.name
    }

    /** The path under which `SwiftLocation.getFileSpec` lists an object. */
    function PathOf(n: ObjectName): string
      requires Owns(n)
    {
      n.name[|prefix|..]
    }
  }

  /** `strings.TrimPrefix(path, "/")` */
  function TrimSlash(path: string): string {
    if path != "" && path[0] == '/' then path[1..] else path
  }

  predicate EndsInSlash(s: string) {
    s != "" && s[|s| - 1] == '/'
  }

  /** What `SwiftLocation.Validate` makes of the prefix, and `DiscoverExistingFiles` once more. */
  function Normalize(prefix: string): (r: string)
    ensures (r == "" || EndsInSlash(r)) && prefix <= r
    ensures prefix == "" || EndsInSlash(prefix) ==> r == prefix
  {
    if prefix != "" && !EndsInSlash(prefix) then prefix + "/" else prefix
  }

  /** Two paths lead to the same object exactly if they differ by no more than a leading slash. */
  lemma SameObject(loc: Location, p: string, q: string)
    ensures loc.ObjectAtPath(p) == loc.ObjectAtPath(q) <==> TrimSlash(p) == TrimSlash(q)
  {
    var a, b := loc.prefix + TrimSlash(p), loc.prefix + TrimSlash(q);
    assert a[|loc.prefix|..] == TrimSlash(p) && b[|loc.prefix|..] == TrimSlash(q);
  }

  /** A listed object is found again under its path, unless its name goes on with a slash after the prefix. */
  lemma ListedObjectIsFound(loc: Location, n: ObjectName)
    requires loc.Owns(n)
    ensures loc.ObjectAtPath(loc.PathOf(n)) == n <==> !("/" <= loc.PathOf(n))
  {
    assert n.name == loc.prefix + loc.PathOf(n);
    var found := loc.prefix + TrimSlash(loc.PathOf(n));
    assert |found| == |n.name| <==> TrimSlash(loc.PathOf(n)) == loc.PathOf(n);
  }

  /** Two targets have an object in common exactly if they are in one container and one prefix begins with the other. */
  lemma TargetsOverlap(a: Location, b: Location)
    ensures (exists n: ObjectName :: a.Owns(n) && b.Owns(n)) <==>
      a.container == b.container && (a.prefix <= b.prefix || b.prefix <= a.prefix)
  {
    if a.container == b.container && (a.prefix <= b.prefix || b.prefix <= a.prefix) {
      var n := ObjectName(a.container, if a.prefix <= b.prefix then b.prefix else a.prefix);
      assert a.Owns(n) && b.Owns(n);
    }
    forall n: ObjectName | a.Owns(n) && b.Owns(n)
      ensures a.container == b.container && (a.prefix <= b.prefix || b.prefix <= a.prefix)
    {
      assert a.prefix == n.name[..|a.prefix|] && b.prefix == n.name[..|b.prefix|];
      if |a.prefix| <= |b.prefix| {
        assert b.prefix[..|a.prefix|] == a.prefix;
      } else {
        assert a.prefix[..|b.prefix|] == b.prefix;
      }
    }
  }

  /**
   * `SwiftLocation.DiscoverExistingFiles`, for the names of all objects in the container.
   * The list that the server gives is restricted to the prefix, and to nothing else.
   */
  method DiscoverExistingFiles(loc: Location, names: seq<string>) returns (fileExists: set<ObjectName>)
    ensures fileExists == set n | n in names && Normalize(loc.prefix) <= n :: ObjectName(loc.container, n)
    ensures Normalize(loc.prefix) == loc.prefix ==>
      forall n: ObjectName :: n in fileExists <==> loc.Owns(n) && n.name in names
  {
    fileExists := {};
    for i := 0 to |names|
      invariant fileExists == set n | n in names[..i] && Normalize(loc.prefix) <= n :: ObjectName(loc.container, n)
    {
      assert names[..i + 1] == names[..i] + [names[i]];
      if Normalize(loc.prefix) <= names[i] {
        fileExists := fileExists + {ObjectName(loc.container, names[i])};
      }
    }
    assert names[..|names|] == names;
  }
}
