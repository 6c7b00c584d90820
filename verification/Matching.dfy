/** Include and exclude rules, and the check of every directory on the way to a file. */
module Matching {
  import opened Base
  import opened Objects

  /** A regular expression, as the set of strings it matches. */
  type Regexp = string -> bool

  datatype Matcher = Matcher(
    excludeRx: Option<Regexp>,
    includeRx: Option<Regexp>,
    immutableFileRx: Option<Regexp>,
    notOlderThan: Option<int>)

  datatype MatchError = TooOld(path: string) | Excluded(path: string) | NotIncluded(path: string)

  // ----- paths -----

  /** `strings.SplitAfter(s, "/")` */
  function SplitAfter(s: string): (steps: seq<string>)
    ensures steps != [] && Join(steps) == s
    decreases s
  {
    var n := FirstSlash(s);
    if n == |s| then [s]
    else
      var rest := SplitAfter(s[n + 1..]);
      assert s == s[..n + 1] + Join(rest);
      [s[..n + 1]] + rest
  }

  function FirstSlash(s: string): (n: nat)
    ensures n <= |s| && (n < |s| ==> s[n] == '/') && '/' !in s[..n]
    decreases s
  {
    if s == [] || s[0] == '/' then 0 else 1 + FirstSlash(s[1..])
  }

  /** `strings.Join(steps, "")` */
  function Join(steps: seq<string>): string {
    if steps == [] then [] else steps[0] + Join(steps[1..])
  }

  /** How deep the path elements lead below the root; ".." at the root stays there. */
  function DepthOf(steps: seq<string>, depth: nat): nat {
    if steps == [] then depth else
    var name := if steps[0] != [] && steps[0][|steps[0]| - 1] == '/' then steps[0][..|steps[0]| - 1] else steps[0];
    DepthOf(steps[1..],
            if name == "" || name == "." then depth
            else if name == ".." then (if depth == 0 then 0 else depth - 1)
            else depth + 1)
  }

  /** `filepath.Clean(path) == "/"` */
  predicate CleansToRoot(path: string) {
    path != [] && path[0] == '/' && DepthOf(SplitAfter(path), 0) == 0
  }

  // ----- checks -----

  function Check(m: Matcher, path: string, lastModified: Option<int>): Option<MatchError> {
    if CleansToRoot(path) then None
    else if lastModified.Some? && m.notOlderThan.Some? && m.notOlderThan.value > lastModified.value then
      Some(TooOld(path))
    else if m.excludeRx.Some? && m.excludeRx.value(path) then Some(Excluded(path))
    else if m.includeRx.Some? && !m.includeRx.value(path) then Some(NotIncluded(path))
    else None
  }

  /** Every directory on the way to `path`, and `path` itself, passes the check. */
  ghost predicate Admits(m: Matcher, path: string, lastModified: Option<int>) {
    && (forall k | 0 <= k < |path| && path[k] == '/' :: Check(m, path[..k + 1], None).None?)
    && Check(m, path, lastModified).None?
  }

  ghost predicate AdmitsSpec(m: Matcher, spec: FileSpec) {
    if spec.isDirectory then Admits(m, spec.path + "/", None) else Admits(m, spec.path, spec.lastModified)
  }

  /** The patterns let a path pass. */
  predicate Allowed(m: Matcher, path: string) {
    && (m.excludeRx.Some? ==> !m.excludeRx.value(path))
    && (m.includeRx.Some? ==> m.includeRx.value(path))
  }

  predicate TooOldFor(m: Matcher, lastModified: Option<int>) {
    lastModified.Some? && m.notOlderThan.Some? && lastModified.value < m.notOlderThan.value
  }

  /**
   * What admission means: the patterns let every directory on the way and the path itself
   * pass, where the root always passes, and the path is not too old.
   */
  lemma AdmitsByRules(m: Matcher, path: string, lastModified: Option<int>)
    ensures Admits(m, path, lastModified) <==>
      && (forall k | 0 <= k < |path| && path[k] == '/' :: CleansToRoot(path[..k + 1]) || Allowed(m, path[..k + 1]))
      && (CleansToRoot(path) || (Allowed(m, path) && !TooOldFor(m, lastModified)))
  {
    if forall k | 0 <= k < |path| && path[k] == '/' :: CleansToRoot(path[..k + 1]) || Allowed(m, path[..k + 1]) {
      forall k | 0 <= k < |path| && path[k] == '/'
        ensures Check(m, path[..k + 1], None).None?
      {
      }
    }
  }

  /** Age goes before the exclude pattern, and that before the include pattern. */
  lemma CheckTells(m: Matcher, path: string, lastModified: Option<int>)
    requires !CleansToRoot(path)
    ensures Check(m, path, lastModified) == Some(TooOld(path)) <==> TooOldFor(m, lastModified)
    ensures Check(m, path, lastModified) == Some(Excluded(path)) <==>
      !TooOldFor(m, lastModified) && m.excludeRx.Some? && m.excludeRx.value(path)
    ensures Check(m, path, lastModified).None? <==> Allowed(m, path) && !TooOldFor(m, lastModified)
  {
  }

  // ----- CheckRecursive -----

  type Checker = string -> Option<MatchError>

  /** The first error in checking `done + steps[0]`, `done + steps[0] + steps[1]` and so on, but not the last step. */
  function FirstError(check: Checker, done: string, steps: seq<string>): Option<MatchError>
    requires steps != []
    decreases steps
  {
    if |steps| == 1 then None else
    var err := check(done + steps[0]);
    if err.Some? then err else FirstError(check, done + steps[0], steps[1..])
  }

  /** All prefixes of `path` that end in a slash at `from` or later pass the check. */
  ghost predicate AllPass(check: Checker, path: string, from: nat) {
    forall k | from <= k < |path| :: Passes(check, path, k)
  }

  ghost predicate Passes(check: Checker, path: string, k: nat)
    requires k < |path|
  {
    path[k] == '/' ==> check(path[..k + 1]).None?
  }

  /** The next slash decides, if there is none before. */
  lemma NextSlash(check: Checker, path: string, from: nat, k: nat)
    requires from <= k < |path| && forall i | from <= i < k :: path[i] != '/'
    ensures AllPass(check, path, from) <==> Passes(check, path, k) && AllPass(check, path, k + 1)
  {
    if Passes(check, path, k) && AllPass(check, path, k + 1) {
      forall i | from <= i < |path|
        ensures Passes(check, path, i)
      {
      }
    }
  }

  /** One step: `name` has no slash. */
  lemma FirstErrorStep(check: Checker, done: string, name: string, steps: seq<string>, path: string)
    requires done + name + "/" <= path && '/' !in name && steps != []
    requires FirstError(check, done + name + "/", steps).None? <==> AllPass(check, path, |done| + |name| + 1)
    ensures FirstError(check, done, [name + "/"] + steps).None? <==> AllPass(check, path, |done|)
  {
    var first, k := name + "/", |done| + |name|;
    assert ([first] + steps)[1..] == steps;
    assert done + first == done + name + "/" == path[..k + 1];
    assert forall i | |done| <= i < k :: path[i] == name[i - |done|];
    NextSlash(check, path, |done|, k);
  }

  /** Stepping through a path checks exactly its prefixes that end in a slash. */
  lemma {:induction false} FirstErrorIff(check: Checker, done: string, rest: string, path: string)
    requires path == done + rest
    ensures FirstError(check, done, SplitAfter(rest)).None? <==> AllPass(check, path, |done|)
    decreases rest
  {
    var n := FirstSlash(rest);
    var name := rest[..n];
    if n < |rest| {
      assert rest[..n + 1] == name + "/";
      assert path == done + name + "/" + rest[n + 1..];
      FirstErrorIff(check, done + name + "/", rest[n + 1..], path);
      FirstErrorStep(check, done, name, SplitAfter(rest[n + 1..]), path);
    } else {
      assert forall k | |done| <= k < |path| :: path[k] == name[k - |done|] && Passes(check, path, k);
    }
  }

  lemma {:induction false} JoinLast(steps: seq<string>)
    requires steps != []
    ensures Join(steps) == Join(steps[..|steps| - 1]) + steps[|steps| - 1]
    decreases steps
  {
    var front, last := steps[..|steps| - 1], steps[|steps| - 1];
    if front == [] {
      assert steps == [last] && [last][1..] == [];
    } else {
      JoinLast(steps[1..]);
      assert steps[1..][..|steps| - 2] == front[1..];
    }
  }

  /** The loop of `Matcher.CheckRecursive`: the error of the outermost directory that fails the check. */
  method CheckDirectories(check: Checker, steps: seq<string>) returns (err: Option<MatchError>)
    requires steps != []
    ensures err == FirstError(check, "", steps)
  {
    var i := 1;
    while i < |steps|
      invariant 1 <= i <= |steps|
      invariant FirstError(check, Join(steps[..i - 1]), steps[i - 1..]) == FirstError(check, "", steps)
    {
      JoinLast(steps[..i]);
      assert steps[..i][..i - 1] == steps[..i - 1];
      assert steps[i - 1..][1..] == steps[i..];
      err := check(Join(steps[..i]));
      if err.Some? {
        return;
      }
      i := i + 1;
    }
    err := None;
  }

  function CheckOf(m: Matcher): Checker {
    (path: string) => Check(m, path, None)
  }

  lemma AdmitsIff(m: Matcher, path: string, lastModified: Option<int>)
    ensures Admits(m, path, lastModified) <==> AllPass(CheckOf(m), path, 0) && Check(m, path, lastModified).None?
  {
    assert forall k | 0 <= k < |path| && path[k] == '/' ::
        Passes(CheckOf(m), path, k) <==> Check(m, path[..k + 1], None).None?;
  }

  /** `Matcher.CheckRecursive`: no error exactly if the path is admitted. */
  method CheckRecursive(m: Matcher, path: string, lastModified: Option<int>) returns (err: Option<MatchError>)
    ensures err.None? <==> Admits(m, path, lastModified)
  {
    FirstErrorIff(CheckOf(m), "", path, path);
    AdmitsIff(m, path, lastModified);
    err := CheckDirectories(CheckOf(m), SplitAfter(path));
    if err.None? {
      err := Check(m, path, lastModified);
    }
  }

  /** `Matcher.CheckFile` */
  method CheckFile(m: Matcher, spec: FileSpec) returns (err: Option<MatchError>)
    ensures err.None? <==> AdmitsSpec(m, spec)
  {
    if spec.isDirectory {
      err := CheckRecursive(m, spec.path + "/", None);
    } else {
      err := CheckRecursive(m, spec.path, spec.lastModified);
    }
  }

  /** What is checked for a path is also checked for whatever lies below it. */
  lemma PrefixPasses(check: Checker, dir: string, path: string)
    requires dir <= path && AllPass(check, path, 0) && dir != "" && dir[|dir| - 1] == '/'
    ensures AllPass(check, dir, 0) && check(dir).None?
  {
    forall k | 0 <= k < |dir|
      ensures Passes(check, dir, k)
    {
      assert Passes(check, path, k) && path[..k + 1] == dir[..k + 1];
    }
    assert Passes(check, dir, |dir| - 1) && dir[..|dir|] == dir;
  }

  /** The selection is prefix-closed: nothing below an excluded directory is admitted. */
  lemma NothingBelowExcluded(m: Matcher, dir: FileSpec, below: FileSpec)
    requires dir.isDirectory && dir.path + "/" <= below.path && AdmitsSpec(m, below)
    ensures AdmitsSpec(m, dir)
  {
    var d, p := dir.path + "/", if below.isDirectory then below.path + "/" else below.path;
    AdmitsIff(m, p, if below.isDirectory then None else below.lastModified);
    PrefixPasses(CheckOf(m), d, p);
    AdmitsIff(m, d, None);
  }
}
