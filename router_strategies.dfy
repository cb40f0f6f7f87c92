/** The two route strategies: each turns the path of a chart view module
    into a route record, or into null when its regular expression does not
    match. The regular expressions are modelled by explicit predicates on
    the offset where a match starts, and String.prototype.match by the
    leftmost such offset. */
module RouterStrategies {
  import opened Wrappers
  import CaseConverter

  /** What a route renders: the lazy loader of a chart module (named by the
      module's path), the home view or the inline 404 component. */
  datatype Component = ChartModule(modulePath: string) | HomeView | NotFoundComponent

  datatype RouteRecord = RouteRecord(path: string, name: string, component: Component)

  const CHARTS_DIR: string := "/views/charts/"
  const VIEW_VUE: string := "View.vue"
  const INDEX_VUE: string := "/index.vue"
  const CHARTS_ROUTE: string := "/charts/"

  /** The regular-expression '.': any character but a line terminator. */
  predicate RegexDot(c: char) {
    c != '\n' && c != '\r' && c != '\U{2028}' && c != '\U{2029}'
  }

  /** Offset of the capture group for a match that starts at offset i. */
  function GroupStart(i: nat): nat { i + 2 + |CHARTS_DIR| }

  /** `..\/views\/charts\/` matches at offset i. */
  predicate PrefixAt(path: string, i: nat) {
    && GroupStart(i) <= |path|
    && RegexDot(path[i]) && RegexDot(path[i + 1])
    && path[i + 2..GroupStart(i)] == CHARTS_DIR
  }

  /** /..\/views\/charts\/([^\/]+?)View\.vue$/ matches from offset i. The
      suffix is anchored at the end, so the lazy group has exactly one
      possible extent: from GroupStart(i) up to the final "View.vue". */
  predicate SingleFileMatchAt(path: string, i: nat) {
    && PrefixAt(path, i)
    && GroupStart(i) < |path| - |VIEW_VUE|
    && path[|path| - |VIEW_VUE|..] == VIEW_VUE
    && forall j :: GroupStart(i) <= j < |path| - |VIEW_VUE| ==> path[j] != '/'
  }

  /** /..\/views\/charts\/(.+)\/index\.vue$/ matches from offset i; the
      greedy group runs from GroupStart(i) up to the final "/index.vue". */
  predicate DirectoryIndexMatchAt(path: string, i: nat) {
    && PrefixAt(path, i)
    && GroupStart(i) < |path| - |INDEX_VUE|
    && path[|path| - |INDEX_VUE|..] == INDEX_VUE
    && forall j :: GroupStart(i) <= j < |path| - |INDEX_VUE| ==> RegexDot(path[j])
  }

  /** The least offset in [from, limit] where matchAt holds. */
  function Leftmost(matchAt: nat -> bool, from: nat, limit: nat): (r: Option<nat>)
    ensures r.Some? ==> from <= r.value <= limit && matchAt(r.value)
    ensures r.Some? ==> forall j :: from <= j < r.value ==> !matchAt(j)
    ensures r.None? ==> forall j :: from <= j <= limit ==> !matchAt(j)
    decreases limit - from
  {
    if from > limit then None
    else if matchAt(from) then Some(from)
    else Leftmost(matchAt, from + 1, limit)
  }

  /** basePath.replace(/\//g, '-') */
  function SlashesToDashes(s: string): string {
    if s == [] then [] else [if s[0] == '/' then '-' else s[0]] + SlashesToDashes(s[1..])
  }

  function SingleFileViewStrategy(path: string, componentLoader: Component): Option<RouteRecord> {
    match Leftmost((i: nat) => SingleFileMatchAt(path, i), 0, |path|)
    case None => None
    case Some(i) =>
      var componentName := path[GroupStart(i)..|path| - |VIEW_VUE|];
      var routeName := CaseConverter.PascalToSnake(componentName);
      Some(RouteRecord(CHARTS_ROUTE + routeName, routeName, componentLoader))
  }

  function DirectoryIndexStrategy(path: string, componentLoader: Component): Option<RouteRecord> {
    match Leftmost((i: nat) => DirectoryIndexMatchAt(path, i), 0, |path|)
    case None => None
    case Some(i) =>
      var basePath := path[GroupStart(i)..|path| - |INDEX_VUE|];
      Some(RouteRecord(CHARTS_ROUTE + basePath, SlashesToDashes(basePath), componentLoader))
  }

  // ----- lemmas -----

  /** A single-file match can start at one offset only: the '/' that ends
      "/views/charts/" of a later start would lie inside the '/'-free group
      of an earlier one. */
  lemma SingleFileMatchUnique(path: string, i: nat, k: nat)
    requires SingleFileMatchAt(path, i) && SingleFileMatchAt(path, k)
    ensures i == k
  {
    SlashEndsPrefix(path, i);
    SlashEndsPrefix(path, k);
  }

  lemma SlashEndsPrefix(path: string, i: nat)
    requires PrefixAt(path, i)
    ensures path[GroupStart(i) - 1] == '/'
  {
    assert path[GroupStart(i) - 1] == path[i + 2..GroupStart(i)][|CHARTS_DIR| - 1];
  }

  /** singleFileViewStrategy accepts exactly the paths the regular expression
      matches; the route name is pascalToSnake of the non-empty, '/'-free
      component name, and the route path is "/charts/" followed by it. */
  lemma SingleFileViewStrategySpec(path: string, loader: Component)
    ensures SingleFileViewStrategy(path, loader).Some? <==> exists i :: SingleFileMatchAt(path, i)
    ensures forall i: nat :: SingleFileMatchAt(path, i) ==>
      var componentName := path[GroupStart(i)..|path| - |VIEW_VUE|];
      && componentName != []
      && '/' !in componentName
      && SingleFileViewStrategy(path, loader)
         == Some(RouteRecord(CHARTS_ROUTE + CaseConverter.PascalToSnake(componentName),
                             CaseConverter.PascalToSnake(componentName), loader))
  {
    var matchAt := (i: nat) => SingleFileMatchAt(path, i);
    var r := Leftmost(matchAt, 0, |path|);
    forall i: nat | SingleFileMatchAt(path, i)
      ensures r == Some(i)
    {
      assert i <= |path| && matchAt(i);
      SingleFileMatchUnique(path, i, r.value);
    }
    forall i: nat | SingleFileMatchAt(path, i)
      ensures '/' !in path[GroupStart(i)..|path| - |VIEW_VUE|]
    {
      var name := path[GroupStart(i)..|path| - |VIEW_VUE|];
      assert forall j :: 0 <= j < |name| ==> name[j] == path[GroupStart(i) + j];
    }
  }

  /** directoryIndexStrategy accepts exactly the paths the regular
      expression matches; the base path is taken after the leftmost match of
      the prefix, the route path is "/charts/" + base, and the route name is
      the base with every '/' replaced by '-'. */
  lemma DirectoryIndexStrategySpec(path: string, loader: Component)
    ensures DirectoryIndexStrategy(path, loader).Some? <==> exists i :: DirectoryIndexMatchAt(path, i)
    ensures forall i: nat :: DirectoryIndexMatchAt(path, i) && (forall j :: 0 <= j < i ==> !DirectoryIndexMatchAt(path, j)) ==>
      var basePath := path[GroupStart(i)..|path| - |INDEX_VUE|];
      && basePath != []
      && DirectoryIndexStrategy(path, loader)
         == Some(RouteRecord(CHARTS_ROUTE + basePath, SlashesToDashes(basePath), loader))
  {
    var matchAt := (i: nat) => DirectoryIndexMatchAt(path, i);
    var r := Leftmost(matchAt, 0, |path|);
    forall i: nat | DirectoryIndexMatchAt(path, i)
      ensures r.Some? && r.value <= i
    {
      assert i <= |path| && matchAt(i);
    }
    forall i: nat | DirectoryIndexMatchAt(path, i) && (forall j :: 0 <= j < i ==> !DirectoryIndexMatchAt(path, j))
      ensures r == Some(i)
    {
      assert i <= |path| && matchAt(i);
    }
  }

  lemma {:induction false} SlashesToDashesAt(s: string)
    ensures |SlashesToDashes(s)| == |s|
    ensures forall j :: 0 <= j < |s| ==> SlashesToDashes(s)[j] == (if s[j] == '/' then '-' else s[j])
  {
    if s != [] {
      SlashesToDashesAt(s[1..]);
    }
  }

  /** The route name of a directory route contains no '/'. */
  lemma DirectoryRouteNameHasNoSlash(path: string, loader: Component)
    ensures DirectoryIndexStrategy(path, loader).Some? ==> '/' !in DirectoryIndexStrategy(path, loader).value.name
  {
    var r := Leftmost((i: nat) => DirectoryIndexMatchAt(path, i), 0, |path|);
    if r.Some? {
      var basePath := path[GroupStart(r.value)..|path| - |INDEX_VUE|];
      SlashesToDashesAt(basePath);
      assert forall j :: 0 <= j < |basePath| ==> SlashesToDashes(basePath)[j] != '/';
    }
  }

  /** A single-file match needs 'V' eight characters before the end, a
      directory match needs 'n' there. */
  lemma NoPathMatchesBoth(path: string, i: nat, k: nat)
    ensures !(SingleFileMatchAt(path, i) && DirectoryIndexMatchAt(path, k))
  {
    if SingleFileMatchAt(path, i) {
      assert path[|path| - 8] == path[|path| - |VIEW_VUE|..][0];
    }
  }

  /** No path is accepted by both strategies: one needs the path to end in
      "View.vue", the other in "/index.vue". */
  lemma StrategiesDisjoint(path: string, loader: Component)
    ensures !(SingleFileViewStrategy(path, loader).Some? && DirectoryIndexStrategy(path, loader).Some?)
  {
    var r1 := Leftmost((i: nat) => SingleFileMatchAt(path, i), 0, |path|);
    var r2 := Leftmost((i: nat) => DirectoryIndexMatchAt(path, i), 0, |path|);
    if r1.Some? && r2.Some? {
      NoPathMatchesBoth(path, r1.value, r2.value);
    }
  }

  /** Slices of a four-part concatenation, for the literal examples. */
  lemma SlicesOfFour(a: string, b: string, c: string, d: string)
    ensures (a + b + c + d)[|a|..|a| + |b|] == b
    ensures (a + b + c + d)[|a| + |b|..|a| + |b| + |c|] == c
    ensures (a + b + c + d)[|a| + |b| + |c|..] == d
  {
    var s := a + b + c + d;
    assert s[|a|..|a| + |b|] == b by {
      assert forall j :: 0 <= j < |b| ==> s[|a| + j] == b[j];
    }
    assert s[|a| + |b|..|a| + |b| + |c|] == c by {
      assert forall j :: 0 <= j < |c| ==> s[|a| + |b| + j] == c[j];
    }
    assert s[|a| + |b| + |c|..] == d by {
      assert forall j :: 0 <= j < |d| ==> s[|a| + |b| + |c| + j] == d[j];
    }
  }

  /** A path built from two non-terminator characters, "/views/charts/", a
      non-empty '/'-free component name and "View.vue" becomes the route of
      that component name. */
  lemma SingleFileOfParts(prefix: string, componentName: string, loader: Component)
    requires |prefix| == 2 && RegexDot(prefix[0]) && RegexDot(prefix[1])
    requires componentName != [] && '/' !in componentName
    ensures SingleFileViewStrategy(prefix + CHARTS_DIR + componentName + VIEW_VUE, loader)
         == Some(RouteRecord(CHARTS_ROUTE + CaseConverter.PascalToSnake(componentName),
                             CaseConverter.PascalToSnake(componentName), loader))
  {
    var path := prefix + CHARTS_DIR + componentName + VIEW_VUE;
    SlicesOfFour(prefix, CHARTS_DIR, componentName, VIEW_VUE);
    assert forall j :: GroupStart(0) <= j < |path| - |VIEW_VUE| ==> path[j] == componentName[j - GroupStart(0)];
    assert SingleFileMatchAt(path, 0);
    SingleFileViewStrategySpec(path, loader);
  }

  lemma DirectoryIndexMatchOfParts(prefix: string, basePath: string)
    requires |prefix| == 2 && RegexDot(prefix[0]) && RegexDot(prefix[1])
    requires basePath != [] && forall j :: 0 <= j < |basePath| ==> RegexDot(basePath[j])
    ensures DirectoryIndexMatchAt(prefix + CHARTS_DIR + basePath + INDEX_VUE, 0)
    ensures (prefix + CHARTS_DIR + basePath + INDEX_VUE)[GroupStart(0)..|prefix + CHARTS_DIR + basePath + INDEX_VUE| - |INDEX_VUE|] == basePath
  {
    var path := prefix + CHARTS_DIR + basePath + INDEX_VUE;
    SlicesOfFour(prefix, CHARTS_DIR, basePath, INDEX_VUE);
    assert forall j :: GroupStart(0) <= j < |path| - |INDEX_VUE| ==> path[j] == basePath[j - GroupStart(0)];
  }

  /** A path built from two non-terminator characters, "/views/charts/", a
      non-empty base path free of line terminators and "/index.vue" becomes
      the route of that base path. */
  lemma DirectoryIndexOfParts(prefix: string, basePath: string, loader: Component)
    requires |prefix| == 2 && RegexDot(prefix[0]) && RegexDot(prefix[1])
    requires basePath != [] && forall j :: 0 <= j < |basePath| ==> RegexDot(basePath[j])
    ensures DirectoryIndexStrategy(prefix + CHARTS_DIR + basePath + INDEX_VUE, loader)
         == Some(RouteRecord(CHARTS_ROUTE + basePath, SlashesToDashes(basePath), loader))
  {
    var path := prefix + CHARTS_DIR + basePath + INDEX_VUE;
    DirectoryIndexMatchOfParts(prefix, basePath);
    DirectoryIndexStrategySpec(path, loader);
  }

  lemma {:induction false} SlashesToDashesAppend(a: string, b: string)
    ensures SlashesToDashes(a + b) == SlashesToDashes(a) + SlashesToDashes(b)
  {
    if a == [] {
      assert a + b == b;
    } else {
      assert (a + b)[1..] == a[1..] + b;
      SlashesToDashesAppend(a[1..], b);
    }
  }

  lemma {:induction false} SlashesToDashesNoSlash(s: string)
    requires '/' !in s
    ensures SlashesToDashes(s) == s
  {
    if s != [] {
      SlashesToDashesNoSlash(s[1..]);
    }
  }

  /** The route name of the directory example "nested/feature". */
  lemma SlashesToDashesExample(s: string)
    requires s == "nested/feature"
    ensures SlashesToDashes(s) == "nested-feature"
  {
    SlashesToDashesAt(s);
    var t := SlashesToDashes(s);
    assert t[0] == 'n' && t[1] == 'e' && t[2] == 's' && t[3] == 't' && t[4] == 'e' && t[5] == 'd' && t[6] == '-';
    assert t[7] == 'f' && t[8] == 'e' && t[9] == 'a' && t[10] == 't' && t[11] == 'u' && t[12] == 'r' && t[13] == 'e';
  }
}
