/** The links in a directory listing that are followed, and where they lead. */
module Links {
  import opened Base
  import opened Objects
  import opened Locations
  import opened Matching

  /** A link that has been parsed as a URL. */
  datatype Url = Url(scheme: string, host: string, rawQuery: string, fragment: string, path: string)

  // ----- paths -----

  /** The elements of a path, between its slashes. */
  function Split(s: string): (r: seq<string>)
    ensures r != []
    decreases s
  {
    if s == "" then [""] else
    var front := Split(s[..|s| - 1]);
    if s[|s| - 1] == '/' then front + [""] else Extend(front, s[|s| - 1])
  }

  function Extend(elements: seq<string>, c: char): seq<string>
    requires elements != []
  {
    elements[..|elements| - 1] + [elements[|elements| - 1] + [c]]
  }

  lemma ExtendConcat(a: seq<string>, b: seq<string>, c: char)
    requires b != []
    ensures Extend(a + b, c) == a + Extend(b, c)
  {
    assert (a + b)[..|a + b| - 1] == a + b[..|b| - 1];
  }

  /** The absolute path with these elements. */
  function Absolute(names: seq<string>): string {
    "/" + Joined(names)
  }

  function Joined(names: seq<string>): string {
    if names == [] then ""
    else if |names| == 1 then names[0]
    else Joined(names[..|names| - 1]) + "/" + names[|names| - 1]
  }

  /** `path.Clean`, on elements: "." and empty ones count for nothing, ".." takes back the one before. */
  function Resolve(elements: seq<string>): seq<string>
    decreases elements
  {
    if elements == [] then [] else
    var front, e := Resolve(elements[..|elements| - 1]), elements[|elements| - 1];
    if e == "" || e == "." then front
    else if e == ".." then (if front == [] then [] else front[..|front| - 1])
    else front + [e]
  }

  /** A path element that stands for itself. */
  predicate Proper(name: string) {
    name != "" && name != "." && name != ".." && '/' !in name
  }

  predicate AllProper(names: seq<string>) {
    forall name | name in names :: Proper(name)
  }

  lemma {:induction false} SplitConcat(a: string, b: string)
    ensures Split(a + "/" + b) == Split(a) + Split(b)
    decreases b
  {
    var s := a + "/" + b;
    if b == "" {
      assert s[..|s| - 1] == a && s[|s| - 1] == '/';
    } else {
      var front, c := b[..|b| - 1], b[|b| - 1];
      assert s[..|s| - 1] == a + "/" + front && s[|s| - 1] == c;
      SplitConcat(a, front);
      if c == '/' {
        Assoc(Split(a), Split(front), [""]);
      } else {
        ExtendConcat(Split(a), Split(front), c);
      }
    }
  }

  lemma {:induction false} SplitName(name: string)
    requires '/' !in name
    ensures Split(name) == [name]
    decreases name
  {
    if name == "" {
    } else {
      assert name[|name| - 1] in name && name == name[..|name| - 1] + [name[|name| - 1]];
      SplitName(name[..|name| - 1]);
    }
  }

  lemma {:induction false} SplitJoined(names: seq<string>)
    requires names != [] && AllProper(names)
    ensures Split(Joined(names)) == names
    decreases names
  {
    var front, last := names[..|names| - 1], names[|names| - 1];
    assert names == front + [last] && last in names;
    SplitName(last);
    if front == [] {
    } else {
      SplitConcat(Joined(front), last);
      SplitJoined(front);
    }
  }

  lemma {:induction false} ProperStay(names: seq<string>)
    requires AllProper(names)
    ensures Resolve(names) == names
    decreases names
  {
    if names == [] {
    } else {
      assert names[|names| - 1] in names && names == names[..|names| - 1] + [names[|names| - 1]];
      ProperStay(names[..|names| - 1]);
    }
  }

  /** Without "..", cleaning just adds what is proper. */
  lemma {:induction false} ResolveConcat(a: seq<string>, b: seq<string>)
    requires ".." !in b
    ensures Resolve(a + b) == Resolve(a) + Resolve(b)
    decreases b
  {
    if b == [] {
      assert a + b == a;
    } else {
      var front := b[..|b| - 1];
      assert (a + b)[..|a + b| - 1] == a + front;
      assert b == front + [b[|b| - 1]];
      ResolveConcat(a, front);
    }
  }

  // ----- links -----

  /** The link is relative, has no query and no fragment, and no element that leads upwards. */
  predicate Followed(u: Url) {
    && u.scheme == "" && u.host == "" && u.rawQuery == "" && u.fragment == ""
    && !("/" <= u.path) && ".." !in Split(u.path)
  }

  /** `filepath.Join(directoryPath, linkPath)` */
  function EntryPath(directory: string, u: Url): string {
    Absolute(Resolve(Split(directory + "/" + u.path)))
  }

  function EntryOf(directory: string, u: Url): FileSpec {
    FileSpec(EntryPath(directory, u), "", EndsInSlash(u.path), None, "", None)
  }

  /** The entries for the links that are followed. */
  function EntriesOf(directory: string, links: seq<Url>): seq<FileSpec> {
    if links == [] then [] else
    EntriesOf(directory, links[..|links| - 1])
      + if Followed(links[|links| - 1]) then [EntryOf(directory, links[|links| - 1])] else []
  }

  /** The loop of `URLSource.ListEntries`, for the links of a document. */
  method ListEntries(directory: string, links: seq<Url>) returns (result: seq<FileSpec>)
    ensures result == EntriesOf(directory, links)
  {
    result := [];
    for i := 0 to |links|
      invariant result == EntriesOf(directory, links[..i])
    {
      assert links[..i + 1][..i] == links[..i];
      if Followed(links[i]) {
        result := result + [EntryOf(directory, links[i])];
      }
    }
    assert links[..|links|] == links;
  }

  /** The entries of a directory lie inside it. */
  lemma {:induction false} EntriesStayInside(names: seq<string>, links: seq<Url>)
    requires AllProper(names)
    ensures forall e | e in EntriesOf(Absolute(names), links) ::
      e.path == Absolute(names) || (if names == [] then "/" else Absolute(names) + "/") < e.path
    decreases links
  {
    if links == [] {
    } else {
      EntriesStayInside(names, links[..|links| - 1]);
      if Followed(links[|links| - 1]) {
        LinksStayInside(names, links[|links| - 1]);
      }
    }
  }

  lemma {:induction false} ResolvedIsProper(elements: seq<string>)
    requires ".." !in elements && forall e | e in elements :: '/' !in e
    ensures AllProper(Resolve(elements))
    decreases elements
  {
    if elements == [] {
    } else {
      ResolvedIsProper(elements[..|elements| - 1]);
    }
  }

  lemma {:induction false} SplitHasNoSlash(s: string)
    ensures forall e | e in Split(s) :: '/' !in e
    decreases s
  {
    if s == "" {
    } else {
      SplitHasNoSlash(s[..|s| - 1]);
      var front := Split(s[..|s| - 1]);
      assert front[|front| - 1] in front;
    }
  }

  lemma {:induction false} JoinedBelow(names: seq<string>, more: seq<string>)
    requires names != [] && more != []
    ensures Joined(names) + "/" <= Joined(names + more)
    decreases more
  {
    var all := names + more;
    assert all[..|all| - 1] == names + more[..|more| - 1];
    if |more| == 1 {
      assert all[..|all| - 1] == names;
    } else {
      JoinedBelow(names, more[..|more| - 1]);
    }
  }

  lemma AbsoluteResolves(names: seq<string>)
    requires AllProper(names)
    ensures Resolve(Split(Absolute(names))) == names
  {
    SplitConcat("", Joined(names));
    assert "" + "/" + Joined(names) == Absolute(names) && Split("") == [""];
    LeadingEmpty(Split(Joined(names)));
    if names == [] {
      assert Resolve([]) == [] && [""][..0] == [];
    } else {
      SplitJoined(names);
      ProperStay(names);
    }
  }

  /** A link adds its proper elements to those of the directory. */
  lemma LinkAdds(names: seq<string>, u: Url)
    requires AllProper(names) && Followed(u)
    ensures EntryPath(Absolute(names), u) == Absolute(names + Resolve(Split(u.path)))
    ensures AllProper(Resolve(Split(u.path)))
  {
    SplitConcat(Absolute(names), u.path);
    AbsoluteResolves(names);
    ResolveConcat(Split(Absolute(names)), Split(u.path));
    SplitHasNoSlash(u.path);
    ResolvedIsProper(Split(u.path));
  }

  /**
   * A link that is followed never leaves its directory: it leads to something below, or,
   * exactly if its path consists of nothing but slashes and dots, to the directory itself.
   */
  lemma LinksStayInside(names: seq<string>, u: Url)
    requires AllProper(names) && Followed(u)
    ensures var directory, path := Absolute(names), EntryPath(Absolute(names), u);
      if Resolve(Split(u.path)) == [] then path == directory
      else (if names == [] then "/" else directory + "/") < path
  {
    var more := Resolve(Split(u.path));
    LinkAdds(names, u);
    if more == [] {
      assert names + more == names;
    } else {
      LongerPath(names, more);
    }
  }

  lemma LongerPath(names: seq<string>, more: seq<string>)
    requires AllProper(names) && AllProper(more) && more != []
    ensures (if names == [] then "/" else Absolute(names) + "/") < Absolute(names + more)
  {
    JoinedIsLong(names + more);
    if names != [] {
      JoinedBelow(names, more);
      JoinedLast(names + more);
    }
  }

  lemma {:induction false} LeadingEmpty(elements: seq<string>)
    ensures Resolve([""] + elements) == Resolve(elements)
    decreases elements
  {
    if elements == [] {
      assert [""] + elements == [""] && [""][..0] == [];
    } else {
      assert ([""] + elements)[..|elements|] == [""] + elements[..|elements| - 1];
      LeadingEmpty(elements[..|elements| - 1]);
    }
  }

  lemma JoinedIsLong(names: seq<string>)
    requires names != [] && AllProper(names)
    ensures |Joined(names)| > 0
  {
    assert names[|names| - 1] in names;
  }

  lemma JoinedLast(names: seq<string>)
    requires |names| > 1 && AllProper(names)
    ensures Joined(names)[|Joined(names)| - 1] != '/'
  {
    assert names[|names| - 1] in names;
  }

  // ----- which links are followed -----

  /** A ".." that is bounded by slashes or the ends of the path, which the pattern for links to the outside finds. */
  predicate DotDotAt(s: string, i: nat) {
    && i + 2 <= |s| && s[i] == s[i + 1] == '.'
    && (i == 0 || s[i - 1] == '/') && (i + 2 == |s| || s[i + 2] == '/')
  }

  /** The last element is what follows the last slash. */
  lemma {:induction false} LastElement(s: string)
    ensures var n := |s| - |Split(s)[|Split(s)| - 1]|;
      0 <= n && s[n..] == Split(s)[|Split(s)| - 1] && '/' !in s[n..] && (n == 0 || s[n - 1] == '/')
    decreases s
  {
    if s == "" {
    } else {
      var front, c := s[..|s| - 1], s[|s| - 1];
      LastElement(front);
      var last := Split(front)[|Split(front)| - 1];
      if c != '/' {
        assert s[|front| - |last|..] == last + [c];
      }
    }
  }

  lemma LastIsDotDot(s: string)
    ensures Split(s)[|Split(s)| - 1] == ".." <==> |s| >= 2 && DotDotAt(s, |s| - 2)
  {
    LastElement(s);
    var n := |s| - |Split(s)[|Split(s)| - 1]|;
    assert forall k | n <= k < |s| :: s[k] == s[n..][k - n] != '/';
    if |s| >= 2 && DotDotAt(s, |s| - 2) {
      assert n == |s| - 2;
      assert s[n..] == "..";
    }
    if s[n..] == ".." {
      assert s[n] == s[n..][0] && s[n + 1] == s[n..][1];
    }
  }

  /** The elements before the last one. */
  lemma {:induction false} EarlierDotDot(s: string)
    ensures ".." in Split(s)[..|Split(s)| - 1] <==> exists i: nat :: i + 2 < |s| && DotDotAt(s, i)
    decreases s
  {
    if s == "" {
    } else {
      var front, c := s[..|s| - 1], s[|s| - 1];
      var elements := Split(front);
      EarlierDotDot(front);
      LastIsDotDot(front);
      assert forall i: nat | i + 2 < |front| :: DotDotAt(s, i) <==> DotDotAt(front, i);
      assert |front| >= 2 ==> (DotDotAt(s, |front| - 2) <==> c == '/' && DotDotAt(front, |front| - 2));
      assert elements == elements[..|elements| - 1] + [elements[|elements| - 1]];
      if c == '/' {
        assert Split(s)[..|Split(s)| - 1] == elements;
      } else {
        assert Split(s)[..|Split(s)| - 1] == elements[..|elements| - 1];
      }
    }
  }

  /** The elements of a path have a ".." exactly if the pattern finds one. */
  lemma DotDotIsFound(s: string)
    ensures ".." in Split(s) <==> exists i: nat :: DotDotAt(s, i)
  {
    EarlierDotDot(s);
    LastIsDotDot(s);
    var elements := Split(s);
    assert elements == elements[..|elements| - 1] + [elements[|elements| - 1]];
  }

  /**
   * The entries of a listing are those of the links without scheme, host, query and
   * fragment whose path neither begins with a slash nor leads outside; the entry of a link
   * is a directory exactly if its path ends in a slash.
   */
  lemma {:induction false} EntriesAreThose(directory: string, links: seq<Url>, e: FileSpec)
    ensures e in EntriesOf(directory, links) <==>
      exists u :: u in links
        && u.scheme == "" && u.host == "" && u.rawQuery == "" && u.fragment == ""
        && (u.path == "" || u.path[0] != '/') && (forall i: nat :: !DotDotAt(u.path, i))
        && e.path == EntryPath(directory, u) && (e.isDirectory <==> u.path != "" && u.path[|u.path| - 1] == '/')
        && e == FileSpec(e.path, "", e.isDirectory, None, "", None)
    decreases links
  {
    if links == [] {
    } else {
      var front, u := links[..|links| - 1], links[|links| - 1];
      EntriesAreThose(directory, front, e);
      DotDotIsFound(u.path);
      assert links == front + [u];
    }
  }

  /** The entry of a link to a name, with or without a slash, is that name in the directory. */
  lemma NameLeadsThere(names: seq<string>, u: Url, name: string)
    requires AllProper(names) && Followed(u) && Proper(name) && (u.path == name || u.path == name + "/")
    ensures EntryPath(Absolute(names), u) == Absolute(names + [name])
  {
    LinkAdds(names, u);
    SplitName(name);
    assert [name][..0] == [];
    assert Resolve([name]) == [name];
    if u.path == name + "/" {
      assert u.path[..|u.path| - 1] == name;
      assert Split(u.path) == [name] + [""] && ([name] + [""])[..1] == [name];
      assert Resolve([name] + [""]) == [name];
    }
  }

  // ----- the root -----

  function Element(step: string): string {
    if EndsInSlash(step) then step[..|step| - 1] else step
  }

  function Elements(steps: seq<string>): seq<string> {
    if steps == [] then [] else [Element(steps[0])] + Elements(steps[1..])
  }

  lemma ElementsCons(step: string, rest: seq<string>)
    ensures Elements([step] + rest) == [Element(step)] + Elements(rest)
  {
    assert ([step] + rest)[1..] == rest;
  }

  lemma {:induction false} StepsAreElements(s: string)
    ensures Elements(SplitAfter(s)) == Split(s)
    decreases s
  {
    var n := FirstSlash(s);
    if n == |s| {
      NoSlash(s);
    } else {
      FirstStep(s, s[..n], s[n + 1..]);
      StepsAreElements(s[n + 1..]);
    }
  }

  lemma NoSlash(s: string)
    requires FirstSlash(s) == |s|
    ensures Elements(SplitAfter(s)) == [s] == Split(s)
  {
    assert s[..|s|] == s && !EndsInSlash(s);
    SplitName(s);
    ElementsCons(s, []);
    assert [s] + [] == [s];
  }

  lemma FirstStep(s: string, name: string, tail: string)
    requires FirstSlash(s) == |name| && s == name + "/" + tail
    ensures Elements(SplitAfter(s)) == [name] + Elements(SplitAfter(tail))
    ensures Split(s) == [name] + Split(tail)
  {
    assert s[..|name|] == name && s[..|name| + 1] == name + "/" && s[|name| + 1..] == tail;
    SplitName(name);
    SplitConcat(name, tail);
    ElementsCons(name + "/", SplitAfter(tail));
    assert Element(name + "/") == name;
  }

  lemma OneElement(before: seq<string>, e: string)
    ensures Resolve(before + [e])
      == if e == "" || e == "." then Resolve(before)
         else if e == ".." then (if Resolve(before) == [] then [] else Resolve(before)[..|Resolve(before)| - 1])
         else Resolve(before) + [e]
  {
    assert (before + [e])[..|before|] == before;
  }

  lemma {:induction false} DepthIsLength(before: seq<string>, steps: seq<string>)
    ensures DepthOf(steps, |Resolve(before)|) == |Resolve(before + Elements(steps))|
    decreases steps
  {
    if steps == [] {
      assert before + [] == before;
    } else {
      var e := Element(steps[0]);
      OneElement(before, e);
      Assoc(before, [e], Elements(steps[1..]));
      DepthIsLength(before + [e], steps[1..]);
    }
  }

  /** A path counts as the root exactly if it begins with a slash and cleaning leaves no element. */
  lemma RootIsClean(path: string)
    ensures CleansToRoot(path) <==> path != "" && path[0] == '/' && Resolve(Split(path)) == []
  {
    StepsAreElements(path);
    DepthIsLength([], SplitAfter(path));
    assert [] + Elements(SplitAfter(path)) == Elements(SplitAfter(path));
  }
}
