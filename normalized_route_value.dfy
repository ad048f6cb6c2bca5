/**
 * Helpers of the tenant view engine: the _ViewStart files that apply to a view, the
 * resolution of "." and ".." in view paths, the equality of view-lookup cache keys, and
 * the case normalisation of route values.
 */
module NormalizedRouteValue {
  import opened Wrappers
  import opened Text

  // ---------------------------------------------------------------------------
  // RazorFileHierarchy

  const ViewStartFileName: string := "_ViewStart.cshtml"
  const MaxIterations: nat := 255

  /**
   * The paths the enumeration yields from position `index` on with `budget` iterations
   * left: the prefix of `path` up to the last '/' before `index`, then the same for the
   * part before that '/', and so on.
   */
  function ViewStartPaths(path: string, index: nat, budget: nat): (r: seq<string>)
    requires index <= |path|
    ensures |r| <= budget
    decreases index
  {
    if budget == 0 || index <= 1 then []
    else
      var j := LastIndexOf(path, '/', index - 1);
      if j == -1 then [] else [path[..j + 1] + ViewStartFileName] + ViewStartPaths(path, j, budget - 1)
  }

  /**
   * GetViewStartPaths: an empty path or one not starting with '/' is rejected; "/"
   * yields nothing; otherwise the _ViewStart file of each enclosing folder, deepest
   * first, at most 255 of them.
   */
  method GetViewStartPaths(path: string) returns (r: Result<seq<string>>)
    ensures r.Failure? <==> path == "" || path[0] != '/'
    ensures r.Success? ==> r.value == ViewStartPaths(path, |path|, MaxIterations)
  {
    if path == "" {
      return Failure("The value cannot be an empty string.");
    }
    if path[0] != '/' {
      return Failure("RazorProject_PathMustStartWithForwardSlash");
    }
    if |path| == 1 {
      return Success([]);
    }
    var items: seq<string> := [];
    var maxIterations: int := MaxIterations;
    var index: int := |path|;
    while true
      invariant 0 <= maxIterations <= MaxIterations && 0 <= index <= |path|
      invariant items + ViewStartPaths(path, index, maxIterations) == ViewStartPaths(path, |path|, MaxIterations)
      decreases index
    {
      var more := maxIterations > 0;
      maxIterations := maxIterations - 1;
      if !more || index <= 1 {
        break;
      }
      var previous := index;
      index := LastIndexOf(path, '/', index - 1);
      if index == -1 {
        break;
      }
      items := items + [path[..index + 1] + ViewStartFileName];
      assert ViewStartPaths(path, previous, maxIterations + 1)
          == [path[..index + 1] + ViewStartFileName] + ViewStartPaths(path, index, maxIterations);
    }
    return Success(items);
  }

  /** `item` is the _ViewStart file of a folder of `path` whose '/' lies before `index`. */
  ghost predicate IsViewStartBefore(path: string, index: nat, item: string) {
    exists j :: 0 <= j < index && j < |path| && path[j] == '/' && item == path[..j + 1] + ViewStartFileName
  }

  /**
   * Every yielded path is a prefix of the view path ending in '/', followed by
   * "_ViewStart.cshtml", and each is shorter than the one before (deepest first).
   */
  lemma {:induction false} ViewStartPathsShape(path: string, index: nat, budget: nat)
    requires index <= |path|
    ensures forall k :: 0 <= k < |ViewStartPaths(path, index, budget)| ==>
      IsViewStartBefore(path, index, ViewStartPaths(path, index, budget)[k])
      && |ViewStartPaths(path, index, budget)[k]| <= index + |ViewStartFileName|
    ensures forall k :: 0 < k < |ViewStartPaths(path, index, budget)| ==>
      |ViewStartPaths(path, index, budget)[k]| < |ViewStartPaths(path, index, budget)[k - 1]|
    decreases index
  {
    var r := ViewStartPaths(path, index, budget);
    if !(budget == 0 || index <= 1) {
      var j := LastIndexOf(path, '/', index - 1);
      if j != -1 {
        ViewStartPathsShape(path, j, budget - 1);
        var rest := ViewStartPaths(path, j, budget - 1);
        assert r == [path[..j + 1] + ViewStartFileName] + rest;
        assert IsViewStartBefore(path, index, r[0]);
        forall k | 0 < k < |r|
          ensures IsViewStartBefore(path, index, r[k]) && |r[k]| <= index + |ViewStartFileName|
          ensures |r[k]| < |r[k - 1]|
        {
          assert r[k] == rest[k - 1];
          assert IsViewStartBefore(path, j, rest[k - 1]);
          var i :| 0 <= i < j && i < |path| && path[i] == '/' && rest[k - 1] == path[..i + 1] + ViewStartFileName;
          assert IsViewStartBefore(path, index, path[..i + 1] + ViewStartFileName);
          if k > 1 {
            assert r[k - 1] == rest[k - 2];
          }
        }
      }
    }
  }

  /** The number of '/' in a string. */
  function Slashes(s: string): nat {
    if s == [] then 0 else Slashes(s[..|s| - 1]) + (if s[|s| - 1] == '/' then 1 else 0)
  }

  lemma {:induction false} SlashesUpToLast(path: string, j: nat, m: nat)
    requires j < m <= |path| && path[j] == '/'
    requires forall i :: j < i < m ==> path[i] != '/'
    ensures Slashes(path[..m]) == Slashes(path[..j]) + 1
    decreases m
  {
    assert path[..m][..m - 1] == path[..m - 1];
    if m > j + 1 {
      SlashesUpToLast(path, j, m - 1);
    }
  }

  /**
   * With no more '/' than iterations, and a path that does not start with "//", the
   * last path yielded is the root's "/_ViewStart.cshtml".
   */
  lemma {:induction false} RootViewStartComesLast(path: string, index: nat, budget: nat)
    requires 2 <= index <= |path| && path[0] == '/' && path[1] != '/'
    requires Slashes(path[..index]) <= budget
    ensures var r := ViewStartPaths(path, index, budget);
      r != [] && r[|r| - 1] == "/" + ViewStartFileName
    decreases index
  {
    var j := LastIndexOf(path, '/', index - 1);
    assert j >= 0;
    SlashesUpToLast(path, j, index);
    var r := ViewStartPaths(path, index, budget);
    var rest := ViewStartPaths(path, j, budget - 1);
    assert r == [path[..j + 1] + ViewStartFileName] + rest;
    if j >= 2 {
      RootViewStartComesLast(path, j, budget - 1);
      assert r[|r| - 1] == rest[|rest| - 1];
    } else {
      assert j == 0;
      assert rest == [];
      assert path[..1] == "/";
    }
  }

  /**
   * No enclosing folder is skipped: with no more '/' than iterations, and a path that
   * does not start with "//", one _ViewStart path is yielded per '/' before `index`.
   * With ViewStartPathsShape (distinct '/'-prefixes, deepest first) this pins the list.
   */
  lemma {:induction false} ViewStartPathsVisitEveryFolder(path: string, index: nat, budget: nat)
    requires 2 <= index <= |path| && path[0] == '/' && path[1] != '/'
    requires Slashes(path[..index]) <= budget
    ensures |ViewStartPaths(path, index, budget)| == Slashes(path[..index])
    decreases index
  {
    var j := LastIndexOf(path, '/', index - 1);
    assert j >= 0;
    SlashesUpToLast(path, j, index);
    if j >= 2 {
      ViewStartPathsVisitEveryFolder(path, j, budget - 1);
    } else {
      assert j == 0;
      assert path[..0] == [];
    }
  }

  /** A path starting with "//" never reaches the root: "//a" yields only "//_ViewStart.cshtml". */
  lemma DoubleSlashMissesRoot()
    ensures ViewStartPaths("//a", 3, MaxIterations) == ["//" + ViewStartFileName]
  {
    assert LastIndexOf("//a", '/', 2) == 1;
    assert "//a"[..2] == "//";
  }

  // ---------------------------------------------------------------------------
  // ViewEnginePath

  const PathSeparators: set<char> := {'/', '\\'}

  /** A segment that calls for resolution: empty (a doubled separator), "." or "..". */
  predicate IsSpecial(segment: string) {
    segment == "" || segment == "." || segment == ".."
  }

  /** A resolved segment: not special and without separators. */
  predicate IsPlain(segment: string) {
    !IsSpecial(segment) && forall i :: 0 <= i < |segment| ==> segment[i] !in PathSeparators
  }

  /** The tokenizer's segments: split on both separators after one leading separator. */
  function Tokens(path: string): (r: seq<string>)
    requires path != ""
    ensures forall i, j :: 0 <= i < |r| && 0 <= j < |r[i]| ==> r[i][j] !in PathSeparators
  {
    Split(if path[0] in PathSeparators then path[1..] else path, PathSeparators)
  }

  /**
   * The resolution of segments onto a stack of kept segments: empty and "." segments
   * are dropped, ".." pops the last kept segment, anything else is kept. None when a
   * ".." finds nothing to pop.
   */
  function ResolveSegments(tokens: seq<string>, stack: seq<string>): Option<seq<string>>
    decreases |tokens|
  {
    if tokens == [] then Some(stack)
    else if tokens[0] == "" || tokens[0] == "." then ResolveSegments(tokens[1..], stack)
    else if tokens[0] == ".." then
      if stack == [] then None else ResolveSegments(tokens[1..], stack[..|stack| - 1])
    else ResolveSegments(tokens[1..], stack + [tokens[0]])
  }

  /** Each segment preceded by '/'. */
  function Rooted(segments: seq<string>): string {
    if segments == [] then "" else Rooted(segments[..|segments| - 1]) + "/" + segments[|segments| - 1]
  }

  /** What ResolvePath returns for a non-empty path. */
  function Resolved(path: string): string
    requires path != ""
  {
    var tokens := Tokens(path);
    if forall i :: 0 <= i < |tokens| ==> !IsSpecial(tokens[i]) then path
    else
      match ResolveSegments(tokens, [])
      case None => path
      case Some(segments) => Rooted(segments)
  }

  /**
   * ResolvePath: returns the path itself when no segment is empty, "." or ".."; else
   * the kept segments, each after a '/', or the path itself when ".." would climb
   * above the root.
   */
  method ResolvePath(path: string) returns (r: string)
    requires path != ""
    ensures r == Resolved(path)
  {
    var tokens := Tokens(path);
    var requiresResolution := false;
    var n := 0;
    while n < |tokens|
      invariant 0 <= n <= |tokens| && !requiresResolution
      invariant forall i :: 0 <= i < n ==> !IsSpecial(tokens[i])
    {
      if tokens[n] == "" || tokens[n] == ".." || tokens[n] == "." {
        requiresResolution := true;
        break;
      }
      n := n + 1;
    }
    if !requiresResolution {
      return path;
    }

    var pathSegments: seq<string> := [];
    for i := 0 to |tokens|
      invariant ResolveSegments(tokens[i..], pathSegments) == ResolveSegments(tokens, [])
    {
      assert tokens[i..][1..] == tokens[i + 1..];
      if tokens[i] == "" {
        continue;
      }
      if tokens[i] == ".." {
        if |pathSegments| == 0 {
          return path;
        }
        pathSegments := pathSegments[..|pathSegments| - 1];
      } else if tokens[i] == "." {
        continue;
      } else {
        pathSegments := pathSegments + [tokens[i]];
      }
    }
    assert tokens[|tokens|..] == [];

    var builder := "";
    for i := 0 to |pathSegments|
      invariant builder == Rooted(pathSegments[..i])
    {
      assert pathSegments[..i + 1][..i] == pathSegments[..i];
      builder := builder + "/" + pathSegments[i];
    }
    assert pathSegments[..|pathSegments|] == pathSegments;
    r := builder;
  }

  lemma {:induction false} RootedIsJoin(segments: seq<string>)
    requires segments != []
    ensures Rooted(segments) == "/" + Join(segments, "/")
    decreases |segments|
  {
    var init := segments[..|segments| - 1];
    var last := segments[|segments| - 1];
    if init == [] {
      assert segments == [last];
    } else {
      RootedIsJoin(init);
      JoinAppend(init, last, "/");
      assert init + [last] == segments;
    }
  }

  /** The segments resolution keeps are plain when the stack started plain. */
  lemma {:induction false} ResolvedSegmentsArePlain(tokens: seq<string>, stack: seq<string>)
    requires forall i, j :: 0 <= i < |tokens| && 0 <= j < |tokens[i]| ==> tokens[i][j] !in PathSeparators
    requires forall i :: 0 <= i < |stack| ==> IsPlain(stack[i])
    ensures var r := ResolveSegments(tokens, stack);
      r.Some? ==> forall i :: 0 <= i < |r.value| ==> IsPlain(r.value[i])
    decreases |tokens|
  {
    if tokens != [] {
      assert forall i :: 1 <= i < |tokens| ==> tokens[1..][i - 1] == tokens[i];
      if tokens[0] == "" || tokens[0] == "." {
        ResolvedSegmentsArePlain(tokens[1..], stack);
      } else if tokens[0] == ".." {
        if stack != [] {
          ResolvedSegmentsArePlain(tokens[1..], stack[..|stack| - 1]);
        }
      } else {
        assert IsPlain(tokens[0]);
        ResolvedSegmentsArePlain(tokens[1..], stack + [tokens[0]]);
      }
    }
  }

  /** A rooted path of plain segments is already resolved. */
  lemma PlainPathIsResolved(segments: seq<string>)
    requires segments != []
    requires forall i :: 0 <= i < |segments| ==> IsPlain(segments[i])
    ensures Rooted(segments) != "" && Resolved(Rooted(segments)) == Rooted(segments)
  {
    var path := Rooted(segments);
    RootedIsJoin(segments);
    PlainSegmentsHaveNoSeparators(segments);
    TokensOfRootedJoin(segments);
    assert Tokens(path) == segments;
    NothingSpecialIsUnchanged(path);
  }

  lemma PlainSegmentsHaveNoSeparators(segments: seq<string>)
    requires forall i :: 0 <= i < |segments| ==> IsPlain(segments[i])
    ensures forall i, j :: 0 <= i < |segments| && 0 <= j < |segments[i]| ==> segments[i][j] !in PathSeparators
  {
  }

  /** A path none of whose segments is empty, "." or ".." is returned as it is. */
  lemma NothingSpecialIsUnchanged(path: string)
    requires path != ""
    requires forall i :: 0 <= i < |Tokens(path)| ==> !IsSpecial(Tokens(path)[i])
    ensures Resolved(path) == path
  {
  }

  /** Resolving again changes nothing (for a result that is not empty). */
  lemma ResolvePathIsIdempotent(path: string)
    requires path != "" && Resolved(path) != ""
    ensures Resolved(Resolved(path)) == Resolved(path)
  {
    var tokens := Tokens(path);
    if !(forall i :: 0 <= i < |tokens| ==> !IsSpecial(tokens[i])) {
      var r := ResolveSegments(tokens, []);
      if r.Some? {
        ResolvedSegmentsArePlain(tokens, []);
        PlainPathIsResolved(r.value);
      }
    }
  }

  /** A path whose first segment is ".." would leave the root, so it is returned as it was. */
  lemma EscapingTheRootKeepsThePath(rest: string)
    ensures Resolved("/../" + rest) == "/../" + rest
  {
    var path := "/../" + rest;
    assert path[1..] == ".." + ['/'] + rest;
    SplitAfterSeparator("..", '/', rest, PathSeparators);
    var tokens := Tokens(path);
    assert tokens[0] == "..";
    assert IsSpecial(tokens[0]);
    assert ResolveSegments(tokens, []) == None;
  }

  /** "/a/./b/../c" resolves to "/a/c" for plain names a, b and c. */
  lemma DotSegmentsAreResolved(a: string, b: string, c: string)
    requires IsPlain(a) && IsPlain(b) && IsPlain(c)
    ensures Resolved("/" + Join([a, ".", b, "..", c], "/")) == "/" + a + "/" + c
  {
    var parts := [a, ".", b, "..", c];
    TokensOfRootedJoin(parts);
    assert IsSpecial(parts[1]);
    DotSegmentsFold(a, b, c);
    RootedSnoc([], a);
    RootedSnoc([a], c);
    assert [] + [a] == [a] && [a] + [c] == [a, c];
  }

  lemma TokensOfRootedJoin(parts: seq<string>)
    requires parts != []
    requires forall i, j :: 0 <= i < |parts| && 0 <= j < |parts[i]| ==> parts[i][j] !in PathSeparators
    ensures Tokens("/" + Join(parts, "/")) == parts
  {
    var path := "/" + Join(parts, "/");
    assert path[1..] == Join(parts, "/");
    SplitJoin(parts, '/', PathSeparators);
  }

  lemma DotSegmentsFold(a: string, b: string, c: string)
    requires IsPlain(a) && IsPlain(b) && IsPlain(c)
    ensures ResolveSegments([a, ".", b, "..", c], []) == Some([a, c])
  {
    assert [a, ".", b, "..", c][1..] == [".", b, "..", c] && [".", b, "..", c][1..] == [b, "..", c];
    assert [b, "..", c][1..] == ["..", c] && ["..", c][1..] == [c] && [c][1..] == [];
    assert [] + [a] == [a] && [a] + [b] == [a, b] && [a] + [c] == [a, c] && [a, b][..1] == [a];
    calc {
      ResolveSegments([a, ".", b, "..", c], []);
      ResolveSegments([".", b, "..", c], [a]);
      ResolveSegments([b, "..", c], [a]);
      ResolveSegments(["..", c], [a, b]);
      ResolveSegments([c], [a]);
      ResolveSegments([], [a, c]);
    }
  }

  /**
   * CombinePath: a rooted second path is taken as it is; otherwise it is appended to
   * the folder of the first path (up to its last '/') and the result resolved.
   */
  function CombinePath(first: string, second: string): (r: string)
    requires first != "" && !HasNo(first, '/')
    ensures second != "" && second[0] == '/' ==> r == second
  {
    if second != "" && second[0] == '/' then second
    else
      var index := LastIndexOf(first, '/', |first| - 1);
      var result := if index == |first| - 1 then first + second else first[..index + 1] + second;
      Resolved(result)
  }

  lemma RootedSnoc(segments: seq<string>, last: string)
    ensures Rooted(segments + [last]) == Rooted(segments) + "/" + last
  {
    assert (segments + [last])[..|segments|] == segments;
  }

  /** Combining with a relative name replaces the file name after the folder's last '/'. */
  lemma CombineBesideFolder(folder: string, file: string, name: string)
    requires folder != "" && folder[|folder| - 1] == '/'
    requires IsPlain(file) && IsPlain(name)
    ensures folder + file != "" && !HasNo(folder + file, '/')
    ensures folder + name != "" && CombinePath(folder + file, name) == Resolved(folder + name)
  {
    var first := folder + file;
    assert first[|folder| - 1] == '/';
    LastSlashBeforeName(folder, file);
    assert first[..|folder|] == folder;
  }

  /** A relative name is found beside the first path: "/a/b/View.cshtml" and "_Layout" give "/a/b/_Layout". */
  lemma CombineFindsSibling(dirs: seq<string>, file: string, name: string)
    requires forall i :: 0 <= i < |dirs| ==> IsPlain(dirs[i])
    requires IsPlain(file) && IsPlain(name)
    ensures var first := Rooted(dirs + [file]);
      first != "" && !HasNo(first, '/') && CombinePath(first, name) == Rooted(dirs + [name])
  {
    var folder := Rooted(dirs) + "/";
    RootedSnoc(dirs, file);
    RootedSnoc(dirs, name);
    assert Rooted(dirs + [file]) == folder + file;
    assert Rooted(dirs + [name]) == folder + name;
    CombineBesideFolder(folder, file, name);
    PlainPathIsResolved(dirs + [name]);
  }

  lemma LastSlashBeforeName(folder: string, name: string)
    requires folder != "" && folder[|folder| - 1] == '/'
    requires forall i :: 0 <= i < |name| ==> name[i] !in PathSeparators
    ensures LastIndexOf(folder + name, '/', |folder + name| - 1) == |folder| - 1
  {
    var s := folder + name;
    var r := LastIndexOf(s, '/', |s| - 1);
    assert s[|folder| - 1] == '/';
    forall i | |folder| <= i < |s| ensures s[i] != '/' {
      assert s[i] == name[i - |folder|];
    }
  }

  // ---------------------------------------------------------------------------
  // ViewLocationCacheKey

  /** An expander-values dictionary; keys compare by reference first. */
  class ExpanderValues {
    const entries: map<string, Option<string>>

    constructor (entries: map<string, Option<string>>)
      ensures this.entries == entries
    {
      this.entries := entries;
    }
  }

  datatype ViewLocationCacheKey = ViewLocationCacheKey(
    viewName: string, controllerName: Option<string>, areaName: Option<string>, pageName: Option<string>,
    isMainPage: bool, values: Option<ExpanderValues>)

  /** The contents of a key's dictionary, if it has one. */
  function Contents(values: Option<ExpanderValues>): Option<map<string, Option<string>>> {
    if values.None? then None else Some(values.value.entries)
  }

  predicate SameNames(x: ViewLocationCacheKey, y: ViewLocationCacheKey) {
    x.isMainPage == y.isMainPage && x.viewName == y.viewName && x.controllerName == y.controllerName
    && x.areaName == y.areaName && x.pageName == y.pageName
  }

  /**
   * ViewLocationCacheKey.Equals: the flag and the names compare ordinally; the
   * dictionaries are equal when they are the same object or have the same count and
   * every entry of the first is in the second. That is: equal names and equal
   * dictionary contents.
   */
  method Equals(x: ViewLocationCacheKey, y: ViewLocationCacheKey) returns (eq: bool)
    ensures eq <==> SameNames(x, y) && Contents(x.values) == Contents(y.values)
  {
    if x.isMainPage != y.isMainPage || x.viewName != y.viewName || x.controllerName != y.controllerName
       || x.areaName != y.areaName || x.pageName != y.pageName {
      return false;
    }
    if x.values == y.values {
      return true;
    }
    if x.values.None? || y.values.None? || |x.values.value.entries| != |y.values.value.entries| {
      return false;
    }
    var xs := x.values.value.entries;
    var ys := y.values.value.entries;
    var remaining := xs.Keys;
    while remaining != {}
      invariant remaining <= xs.Keys
      invariant forall k :: k in xs && k !in remaining ==> k in ys && ys[k] == xs[k]
      decreases |remaining|
    {
      var key :| key in remaining;
      if key !in ys || xs[key] != ys[key] {
        return false;
      }
      remaining := remaining - {key};
    }
    SameCountAndEntriesMeansEqual(xs, ys);
    return true;
  }

  lemma {:induction false} SubsetCardinality<T>(a: set<T>, b: set<T>)
    requires a <= b
    ensures |a| <= |b|
    decreases |a|
  {
    if a != {} {
      var x :| x in a;
      SubsetCardinality(a - {x}, b - {x});
    }
  }

  /** Two dictionaries of the same size whose first's entries are all in the second are equal. */
  lemma SameCountAndEntriesMeansEqual(xs: map<string, Option<string>>, ys: map<string, Option<string>>)
    requires |xs| == |ys|
    requires forall k :: k in xs ==> k in ys && ys[k] == xs[k]
    ensures xs == ys
  {
    assert xs.Keys == ys.Keys by {
      if !(ys.Keys <= xs.Keys) {
        var k :| k in ys.Keys && k !in xs.Keys;
        SubsetCardinality(xs.Keys, ys.Keys - {k});
      }
    }
  }

  // ---------------------------------------------------------------------------
  // NormalizedRouteValue

  /**
   * GetNormalizedRouteValue over the request's route values (as their invariant
   * strings, None for a null value) and the action's declared route values: absent
   * when the request has no such key; the declared value when it is non-empty and
   * equals the request's value ignoring case; else the request's value.
   */
  function GetNormalizedRouteValue(routeValues: map<string, Option<string>>,
                                   descriptorValues: map<string, Option<string>>, key: string): (r: Option<string>)
    ensures r.None? <==> key !in routeValues
    ensures r.Some? ==> EqualsIgnoreCase(r.value, routeValues[key].GetOr(""))
    ensures key in routeValues && key in descriptorValues && descriptorValues[key].Some?
            && descriptorValues[key].value != ""
            && EqualsIgnoreCase(descriptorValues[key].value, routeValues[key].GetOr(""))
            ==> r == descriptorValues[key]
    ensures key in routeValues
            && !(key in descriptorValues && descriptorValues[key].Some? && descriptorValues[key].value != ""
                 && EqualsIgnoreCase(descriptorValues[key].value, routeValues[key].GetOr("")))
            ==> r == Some(routeValues[key].GetOr(""))
  {
    if key !in routeValues then None
    else
      var normalizedValue :=
        if key in descriptorValues && descriptorValues[key].Some? && descriptorValues[key].value != ""
        then descriptorValues[key] else None;
      var stringRouteValue := routeValues[key].GetOr("");
      if normalizedValue.Some? && EqualsIgnoreCase(normalizedValue.value, stringRouteValue) then normalizedValue
      else Some(stringRouteValue)
  }

  /**
   * The normalised value does not depend on the client's casing: two requests whose
   * values differ only in case get the same declared value.
   */
  lemma NormalizationIgnoresRequestCasing(a: map<string, Option<string>>, b: map<string, Option<string>>,
                                          descriptorValues: map<string, Option<string>>, key: string)
    requires key in a && key in b && EqualsIgnoreCase(a[key].GetOr(""), b[key].GetOr(""))
    requires key in descriptorValues && descriptorValues[key].Some? && descriptorValues[key].value != ""
    requires EqualsIgnoreCase(descriptorValues[key].value, a[key].GetOr(""))
    ensures GetNormalizedRouteValue(a, descriptorValues, key) == GetNormalizedRouteValue(b, descriptorValues, key)
            == descriptorValues[key]
  {
    assert EqualsIgnoreCase(descriptorValues[key].value, b[key].GetOr(""));
  }
}
