/** The tree-shaking lists that the addon's `included()` hook hands to its
    Babel plugin: the `included` list grows by the base components and the
    direct dependencies of its names, the `excluded` list by the dependants
    of its names. Both passes go exactly one level deep. */
module Treeshaking {

  import opened Js

  /** The dependency table, as `Object.entries` lists it: component name,
      then the components it needs. */
  type Table = seq<(string, seq<string>)>

  /** The table the addon ships with. */
  const Dependencies: Table := [("circle", ["marker"])]

  const Canvas: string := "canvas"
  const MapComponent: string := "mapComponent"
  const WarnMissing: string := "warnMissingComponent"

  /** `dependencies[name]`: the list of the first entry with that name. */
  function Lookup(deps: Table, name: string): Option<seq<string>> {
    if deps == [] then None
    else if deps[0].0 == name then Some(deps[0].1)
    else Lookup(deps[1..], name)
  }

  /** A lookup finds the first entry with the name, and fails exactly when
      no entry has it. */
  lemma {:induction false} LookupFinds(deps: Table, name: string)
    ensures Lookup(deps, name).None? <==> forall j :: 0 <= j < |deps| ==> deps[j].0 != name
    ensures Lookup(deps, name).Some? ==>
      exists j :: 0 <= j < |deps| && deps[j] == (name, Lookup(deps, name).value) &&
        (forall j' :: 0 <= j' < j ==> deps[j'].0 != name)
  {
    if deps != [] && deps[0].0 != name {
      LookupFinds(deps[1..], name);
      if Lookup(deps, name).Some? {
        var j :| 0 <= j < |deps[1..]| && deps[1..][j] == (name, Lookup(deps, name).value) &&
          (forall j' :: 0 <= j' < j ==> deps[1..][j'].0 != name);
        assert deps[j + 1] == (name, Lookup(deps, name).value);
      }
    }
  }

  /** What one step of the inclusion pass appends for `name`. */
  function DepsOfName(deps: Table, name: string): seq<string> {
    match Lookup(deps, name)
    case None => []
    case Some(ds) => ds
  }

  /** What the inclusion pass appends for the names `names`, in order. */
  function DepsOf(deps: Table, names: seq<string>): seq<string>
    decreases |names|
  {
    if names == [] then []
    else DepsOf(deps, names[..|names| - 1]) + DepsOfName(deps, names[|names| - 1])
  }

  /** The entries of `deps` that list `name`, by their own names, in table
      order. */
  function Dependants(deps: Table, name: string): seq<string>
    decreases |deps|
  {
    if deps == [] then []
    else
      var last := deps[|deps| - 1];
      Dependants(deps[..|deps| - 1], name) + (if name in last.1 then [last.0] else [])
  }

  /** What the exclusion pass appends for the names `names`, in order. */
  function DependantsOf(deps: Table, names: seq<string>): seq<string>
    decreases |names|
  {
    if names == [] then []
    else DependantsOf(deps, names[..|names| - 1]) + Dependants(deps, names[|names| - 1])
  }

  /** The included list before its pass: empty stays empty, otherwise the
      base components are appended. */
  function BaseIncluded(included0: seq<string>, isDevelopment: bool): seq<string> {
    if included0 == [] then []
    else included0 + [Canvas, MapComponent] + (if isDevelopment then [WarnMissing] else [])
  }

  /** The excluded list before its pass. */
  function BaseExcluded(excluded0: seq<string>, isProduction: bool): seq<string> {
    excluded0 + (if isProduction then [WarnMissing] else [])
  }

  function IncludedList(included0: seq<string>, isDevelopment: bool, deps: Table): seq<string> {
    var base := BaseIncluded(included0, isDevelopment);
    base + DepsOf(deps, base)
  }

  function ExcludedList(excluded0: seq<string>, isProduction: bool, deps: Table): seq<string> {
    var base := BaseExcluded(excluded0, isProduction);
    base + DependantsOf(deps, base)
  }

  /** The parameters saved for the Babel plugin. */
  datatype TreeshakingParams = TreeshakingParams(included: seq<string>, excluded: seq<string>, isProduction: bool)

  lemma DepsOfStep(deps: Table, names: seq<string>, i: nat)
    requires i < |names|
    ensures DepsOf(deps, names[..i + 1]) == DepsOf(deps, names[..i]) + DepsOfName(deps, names[i])
  {
    assert names[..i + 1][..i] == names[..i];
  }

  lemma DependantsOfStep(deps: Table, names: seq<string>, i: nat)
    requires i < |names|
    ensures DependantsOf(deps, names[..i + 1]) == DependantsOf(deps, names[..i]) + Dependants(deps, names[i])
  {
    assert names[..i + 1][..i] == names[..i];
  }

  lemma DependantsStep(deps: Table, name: string, j: nat)
    requires j < |deps|
    ensures Dependants(deps[..j + 1], name) ==
      Dependants(deps[..j], name) + (if name in deps[j].1 then [deps[j].0] else [])
  {
    assert deps[..j + 1][..j] == deps[..j];
  }

  /** `included.forEach(...)`: each walked name appends its dependencies. */
  method AddDependencies(walked: seq<string>, deps: Table) returns (included: seq<string>)
    ensures included == walked + DepsOf(deps, walked)
  {
    included := walked;
    var i := 0;
    while i < |walked|
      invariant 0 <= i <= |walked|
      invariant included == walked + DepsOf(deps, walked[..i])
    {
      var d := Lookup(deps, walked[i]);
      if d.Some? {
        included := included + d.value;
      }
      DepsOfStep(deps, walked, i);
      i := i + 1;
    }
    assert walked[..i] == walked;
  }

  /** The inclusion half of `included()`. `forEach` walks the list as it was
      when the pass began: `included = included.concat(deps)` rebinds the
      variable to a new array and leaves the walked one alone. */
  method ExpandIncluded(included0: seq<string>, isDevelopment: bool, deps: Table) returns (included: seq<string>)
    ensures included == IncludedList(included0, isDevelopment, deps)
  {
    included := included0;
    if |included| > 0 {
      included := included + [Canvas, MapComponent];
      if isDevelopment {
        included := included + [WarnMissing];
      }
      assert included == BaseIncluded(included0, isDevelopment);
      included := AddDependencies(included, deps);
    }
  }

  /** `Object.entries(dependencies).forEach(...)` for one excluded name:
      every entry that lists the name pushes its own name. */
  method AddDependants(excluded0: seq<string>, name: string, deps: Table) returns (excluded: seq<string>)
    ensures excluded == excluded0 + Dependants(deps, name)
  {
    excluded := excluded0;
    var j := 0;
    while j < |deps|
      invariant 0 <= j <= |deps|
      invariant excluded == excluded0 + Dependants(deps[..j], name)
    {
      if name in deps[j].1 {
        excluded := excluded + [deps[j].0];
      }
      DependantsStep(deps, name, j);
      j := j + 1;
    }
    assert deps[..j] == deps;
  }

  /** The exclusion half of `included()`. Here the dependants are pushed onto
      the very array being walked, but `forEach` stops at the length the
      array had when the pass began, so pushed names are not scanned. */
  method ExpandExcluded(excluded0: seq<string>, isProduction: bool, deps: Table) returns (excluded: seq<string>)
    ensures excluded == ExcludedList(excluded0, isProduction, deps)
  {
    excluded := excluded0;
    if isProduction {
      excluded := excluded + [WarnMissing];
    }
    ghost var base := excluded;
    if |excluded| > 0 {
      var len := |excluded|;
      var i := 0;
      while i < len
        invariant 0 <= i <= len == |base|
        invariant excluded == base + DependantsOf(deps, base[..i])
      {
        assert excluded[i] == base[i];
        excluded := AddDependants(excluded, excluded[i], deps);
        DependantsOfStep(deps, base, i);
        i := i + 1;
      }
      assert base[..i] == base;
    }
  }

  /** Both passes, on the lists the `only`/`except` helpers produced. */
  method Treeshake(included0: seq<string>, excluded0: seq<string>, isProduction: bool, deps: Table)
    returns (params: TreeshakingParams)
    ensures params.included == IncludedList(included0, !isProduction, deps)
    ensures params.excluded == ExcludedList(excluded0, isProduction, deps)
    ensures params.isProduction == isProduction
  {
    var excluded := ExpandExcluded(excluded0, isProduction, deps);
    var included := ExpandIncluded(included0, !isProduction, deps);
    params := TreeshakingParams(included, excluded, isProduction);
  }

  // ---------------------------------------------------------------------
  // Properties of the two passes.

  lemma {:induction false} DepsOfMembership(deps: Table, names: seq<string>, x: string)
    ensures x in DepsOf(deps, names) <==> exists i :: 0 <= i < |names| && x in DepsOfName(deps, names[i])
    decreases |names|
  {
    if names != [] {
      var init := names[..|names| - 1];
      DepsOfMembership(deps, init, x);
      assert forall i :: 0 <= i < |init| ==> init[i] == names[i];
    }
  }

  lemma {:induction false} DependantsMembership(deps: Table, name: string, k: string)
    ensures k in Dependants(deps, name) <==> exists j :: 0 <= j < |deps| && deps[j].0 == k && name in deps[j].1
    decreases |deps|
  {
    if deps != [] {
      var init := deps[..|deps| - 1];
      DependantsMembership(init, name, k);
      assert forall j :: 0 <= j < |init| ==> init[j] == deps[j];
    }
  }

  lemma {:induction false} DependantsOfMembership(deps: Table, names: seq<string>, k: string)
    ensures k in DependantsOf(deps, names) <==> exists i :: 0 <= i < |names| && k in Dependants(deps, names[i])
    decreases |names|
  {
    if names != [] {
      var init := names[..|names| - 1];
      DependantsOfMembership(deps, init, k);
      assert forall i :: 0 <= i < |init| ==> init[i] == names[i];
    }
  }

  /** An empty `included` list stays empty, base components and all. */
  lemma EmptyIncludedStaysEmpty(isDevelopment: bool, deps: Table)
    ensures IncludedList([], isDevelopment, deps) == []
  {
  }

  /** A non-empty `included` list keeps its names and gains the base
      components, then `warnMissingComponent` in development. */
  lemma IncludedBase(included0: seq<string>, isDevelopment: bool, deps: Table)
    requires included0 != []
    ensures var r := IncludedList(included0, isDevelopment, deps);
      && |r| >= |included0| + 2
      && r[..|included0|] == included0
      && r[|included0|] == Canvas && r[|included0| + 1] == MapComponent
      && (isDevelopment ==> |r| >= |included0| + 3 && r[|included0| + 2] == WarnMissing)
  {
  }

  /** A name ends up in the included list exactly when it was there after the
      base components were added, or is a direct dependency of such a name. */
  lemma IncludedOneLevel(included0: seq<string>, isDevelopment: bool, deps: Table, x: string)
    ensures var base := BaseIncluded(included0, isDevelopment);
      x in IncludedList(included0, isDevelopment, deps) <==>
        x in base || exists i :: 0 <= i < |base| && x in DepsOfName(deps, base[i])
  {
    DepsOfMembership(deps, BaseIncluded(included0, isDevelopment), x);
  }

  /** A name ends up in the excluded list exactly when it was there when the
      pass began, or is listed in the table as needing such a name. */
  lemma ExcludedOneLevel(excluded0: seq<string>, isProduction: bool, deps: Table, k: string)
    ensures var base := BaseExcluded(excluded0, isProduction);
      k in ExcludedList(excluded0, isProduction, deps) <==>
        k in base || exists i, j :: 0 <= i < |base| && 0 <= j < |deps| && deps[j].0 == k && base[i] in deps[j].1
  {
    var base := BaseExcluded(excluded0, isProduction);
    DependantsOfMembership(deps, base, k);
    forall i | 0 <= i < |base| {
      DependantsMembership(deps, base[i], k);
    }
  }

  /** `warnMissingComponent` is excluded in production and, unless the user
      asked for it, included in development. */
  lemma WarnMissingPlacement(included0: seq<string>, excluded0: seq<string>, isProduction: bool, deps: Table)
    ensures isProduction ==> WarnMissing in ExcludedList(excluded0, isProduction, deps)
    ensures !isProduction && included0 != [] ==> WarnMissing in IncludedList(included0, !isProduction, deps)
  {
  }

  lemma DepsOfSnoc(deps: Table, names: seq<string>, n: string)
    ensures DepsOf(deps, names + [n]) == DepsOf(deps, names) + DepsOfName(deps, n)
  {
  }

  lemma DependantsOfSnoc(deps: Table, names: seq<string>, n: string)
    ensures DependantsOf(deps, names + [n]) == DependantsOf(deps, names) + Dependants(deps, n)
  {
  }

  /** With the shipped table, asking for circles brings in markers. */
  lemma CircleNeedsMarker()
    ensures IncludedList(["circle"], false, Dependencies) == ["circle", Canvas, MapComponent, "marker"]
  {
    assert BaseIncluded(["circle"], false) == ["circle", Canvas, MapComponent];
    assert DepsOfName(Dependencies, "circle") == ["marker"];
    assert DepsOfName(Dependencies, Canvas) == [];
    assert DepsOfName(Dependencies, MapComponent) == [];
    DepsOfSnoc(Dependencies, [], "circle");
    assert [] + ["circle"] == ["circle"];
    DepsOfSnoc(Dependencies, ["circle"], Canvas);
    assert ["circle"] + [Canvas] == ["circle", Canvas];
    DepsOfSnoc(Dependencies, ["circle", Canvas], MapComponent);
    assert ["circle", Canvas] + [MapComponent] == ["circle", Canvas, MapComponent];
  }

  /** With the shipped table, leaving out markers leaves out circles. */
  lemma MarkerExcludesCircle()
    ensures ExcludedList(["marker"], true, Dependencies) == ["marker", WarnMissing, "circle"]
  {
  }

  /** Only one level: with a table in which `a` needs `b` and `b` needs `c`,
      including `a` brings `b` but not `c`. */
  lemma IncludedOneLevelOnly()
    ensures var deps := [("a", ["b"]), ("b", ["c"])];
      && IncludedList(["a"], false, deps) == ["a", Canvas, MapComponent, "b"]
      && "c" !in IncludedList(["a"], false, deps)
  {
    var deps: Table := [("a", ["b"]), ("b", ["c"])];
    assert BaseIncluded(["a"], false) == ["a", Canvas, MapComponent];
    assert DepsOfName(deps, "a") == ["b"];
    assert DepsOfName(deps, Canvas) == [];
    assert DepsOfName(deps, MapComponent) == [];
    DepsOfSnoc(deps, [], "a");
    assert [] + ["a"] == ["a"];
    DepsOfSnoc(deps, ["a"], Canvas);
    assert ["a"] + [Canvas] == ["a", Canvas];
    DepsOfSnoc(deps, ["a", Canvas], MapComponent);
    assert ["a", Canvas] + [MapComponent] == ["a", Canvas, MapComponent];
    assert IncludedList(["a"], false, deps) == ["a", Canvas, MapComponent, "b"];
  }

  /** Only one level: with the same table, excluding `c` excludes `b` but
      not `a`. */
  lemma ExcludedOneLevelOnly()
    ensures var deps := [("a", ["b"]), ("b", ["c"])];
      && ExcludedList(["c"], false, deps) == ["c", "b"]
      && "a" !in ExcludedList(["c"], false, deps)
  {
    var deps: Table := [("a", ["b"]), ("b", ["c"])];
    assert deps[..1] == [("a", ["b"])];
    assert deps[..1][..0] == [];
    assert Dependants(deps, "c") == ["b"];
    DependantsOfSnoc(deps, [], "c");
    assert [] + ["c"] == ["c"];
    assert ExcludedList(["c"], false, deps) == ["c", "b"];
  }
}
