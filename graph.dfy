/**
  The dependency graph of buildmatrix/cli.py: `sanitize_names` cuts every
  requirement at its first space (`numpy >=1.11` becomes `numpy`), and
  `build_dependency_graph` maps each package name among the metas to the set of
  its sanitized build, run and test requirements that are themselves package
  names among the metas. When several metas carry the same name, the later one's
  lists overwrite the earlier ones, as the assignments into the three
  dictionaries do.

  The source keeps each value as a list built from a set, so its order is the
  set's iteration order, which the language leaves unspecified; the model keeps
  the set.
 */
module DependencyGraph {
  import opened Text
  import opened Variants

  lemma FirstWordsSpec(names: seq<string>)
    ensures forall i :: 0 <= i < |names| ==> IsFirstWord(FirstWord(names[i]), names[i])
  {
    forall i | 0 <= i < |names| ensures IsFirstWord(FirstWord(names[i]), names[i]) {
      FirstWordSpec(names[i]);
    }
  }

  /** `sanitize_names`: same length and order, each entry the requirement's text before its first space. */
  function SanitizeNames(names: seq<string>): (r: seq<string>)
    ensures |r| == |names|
    ensures forall i :: 0 <= i < |names| ==> IsFirstWord(r[i], names[i])
  {
    FirstWordsSpec(names);
    seq(|names|, i requires 0 <= i < |names| => FirstWord(names[i]))
  }

  /** The distinct package names among the metas. */
  function NamesOf(metas: seq<Recipe>): set<string>
  {
    set m | m in metas :: m.name
  }

  /** The meta whose requirement lists the three dictionaries hold for `name` at the end: the last one. */
  function LastNamed(metas: seq<Recipe>, name: string): (r: Recipe)
    requires name in NamesOf(metas)
    ensures r in metas && r.name == name
    ensures exists i :: 0 <= i < |metas| && metas[i] == r && forall j :: i < j < |metas| ==> metas[j].name != name
  {
    var m := metas[|metas| - 1];
    if m.name == name then
      assert metas[|metas| - 1] == m;
      m
    else
      var init := metas[..|metas| - 1];
      assert name in NamesOf(init) by {
        var w :| w in metas && w.name == name;
        var k :| 0 <= k < |metas| && metas[k] == w;
        assert init[k] == w;
      }
      var r := LastNamed(init, name);
      assert exists i :: 0 <= i < |metas| && metas[i] == r && forall j :: i < j < |metas| ==> metas[j].name != name by {
        var i :| 0 <= i < |init| && init[i] == r && forall j :: i < j < |init| ==> init[j].name != name;
        assert metas[i] == r;
        forall j | i < j < |metas| ensures metas[j].name != name {
          if j < |init| { assert metas[j] == init[j]; }
        }
      }
      r
  }

  function Elements(s: seq<string>): set<string>
  {
    set x | x in s
  }

  /** The union of a recipe's sanitized build, run and test requirements. */
  function Requirements(r: Recipe): set<string>
  {
    Elements(SanitizeNames(r.build) + SanitizeNames(r.run) + SanitizeNames(r.test))
  }

  /** What `build_dependency_graph` returns, with each list taken as the set it was built from. */
  function Dependencies(metas: seq<Recipe>): map<string, set<string>>
  {
    var names := NamesOf(metas);
    map n | n in names :: Requirements(LastNamed(metas, n)) * names
  }

  function Get(m: map<string, seq<string>>, k: string): seq<string>
  {
    if k in m then m[k] else []
  }

  /** The requirement dictionaries after the first `i` metas. */
  ghost predicate Filled(d: map<string, seq<string>>, metas: seq<Recipe>, role: Recipe -> seq<string>)
  {
    d.Keys == NamesOf(metas)
    && forall n :: n in d ==> d[n] == SanitizeNames(role(LastNamed(metas, n)))
  }

  lemma FilledStep(d: map<string, seq<string>>, metas: seq<Recipe>, i: nat, role: Recipe -> seq<string>)
    requires i < |metas| && Filled(d, metas[..i], role)
    ensures Filled(d[metas[i].name := SanitizeNames(role(metas[i]))], metas[..i + 1], role)
  {
    var prefix := metas[..i + 1];
    assert prefix[..i] == metas[..i];
    assert NamesOf(prefix) == NamesOf(metas[..i]) + {metas[i].name} by {
      assert forall m :: m in prefix <==> m in metas[..i] || m == metas[i];
    }
  }

  /** The requirement sets before the filter, one per package name. */
  ghost function Unfiltered(metas: seq<Recipe>): map<string, set<string>>
  {
    map n | n in NamesOf(metas) :: Requirements(LastNamed(metas, n))
  }

  /** The union comprehension over the three filled dictionaries. */
  lemma UnionOfFilled(b: map<string, seq<string>>, r: map<string, seq<string>>, t: map<string, seq<string>>,
                      metas: seq<Recipe>)
    requires Filled(b, metas, (m: Recipe) => m.build)
    requires Filled(r, metas, (m: Recipe) => m.run)
    requires Filled(t, metas, (m: Recipe) => m.test)
    ensures (map k | k in r.Keys + b.Keys + t.Keys :: Elements(Get(b, k) + Get(r, k) + Get(t, k)))
            == Unfiltered(metas)
  {
  }

  /** `build_dependency_graph`. */
  method BuildDependencyGraph(metas: seq<Recipe>) returns (union: map<string, set<string>>)
    ensures union == Dependencies(metas)
  {
    var buildDeps: map<string, seq<string>> := map[];
    var runDeps: map<string, seq<string>> := map[];
    var testDeps: map<string, seq<string>> := map[];
    var i := 0;
    while i < |metas|
      invariant 0 <= i <= |metas|
      invariant Filled(buildDeps, metas[..i], (r: Recipe) => r.build)
      invariant Filled(runDeps, metas[..i], (r: Recipe) => r.run)
      invariant Filled(testDeps, metas[..i], (r: Recipe) => r.test)
    {
      var name := metas[i].name;
      FilledStep(buildDeps, metas, i, (r: Recipe) => r.build);
      FilledStep(runDeps, metas, i, (r: Recipe) => r.run);
      FilledStep(testDeps, metas, i, (r: Recipe) => r.test);
      buildDeps := buildDeps[name := SanitizeNames(metas[i].build)];
      runDeps := runDeps[name := SanitizeNames(metas[i].run)];
      testDeps := testDeps[name := SanitizeNames(metas[i].test)];
      i := i + 1;
    }
    assert metas[..|metas|] == metas;
    UnionOfFilled(buildDeps, runDeps, testDeps, metas);
    union := map k | k in runDeps.Keys + buildDeps.Keys + testDeps.Keys
                   :: Elements(Get(buildDeps, k) + Get(runDeps, k) + Get(testDeps, k));
    union := KeepPackageEdges(union);
    FilteringDone(union, metas);
  }

  /** The last loop of `build_dependency_graph`: keep only the requirements that are keys. */
  method KeepPackageEdges(raw: map<string, set<string>>) returns (union: map<string, set<string>>)
    ensures union.Keys == raw.Keys
    ensures forall k :: k in union ==> union[k] == raw[k] * raw.Keys
  {
    union := raw;
    var pending := union.Keys;
    while pending != {}
      invariant Filtering(union, raw, pending)
      decreases |pending|
    {
      var name :| name in pending;
      FilterStep(union, raw, pending, name);
      union := union[name := set item | item in union[name] && item in union];
      pending := pending - {name};
    }
  }

  /** Part way through the filter: the packages still `pending` keep their unfiltered sets. */
  ghost predicate Filtering(union: map<string, set<string>>, raw: map<string, set<string>>, pending: set<string>)
  {
    pending <= raw.Keys
    && union.Keys == raw.Keys
    && forall k :: k in union ==> union[k] == if k in pending then raw[k] else raw[k] * raw.Keys
  }

  lemma FilterStep(union: map<string, set<string>>, raw: map<string, set<string>>, pending: set<string>, name: string)
    requires Filtering(union, raw, pending) && name in pending
    ensures Filtering(union[name := set item | item in union[name] && item in union], raw, pending - {name})
  {
    var kept := set item | item in union[name] && item in union;
    assert kept == raw[name] * raw.Keys;
  }

  lemma FilteringDone(union: map<string, set<string>>, metas: seq<Recipe>)
    requires union.Keys == Unfiltered(metas).Keys
    requires forall k :: k in union ==> union[k] == Unfiltered(metas)[k] * Unfiltered(metas).Keys
    ensures union == Dependencies(metas)
  {
    assert Unfiltered(metas).Keys == NamesOf(metas);
    assert union.Keys == Dependencies(metas).Keys;
    forall k | k in union ensures union[k] == Dependencies(metas)[k] {
      assert Unfiltered(metas)[k] == Requirements(LastNamed(metas, k));
    }
  }

  /** The graph has exactly one key per distinct package name and never points outside its own keys. */
  lemma DependenciesShape(metas: seq<Recipe>)
    ensures Dependencies(metas).Keys == NamesOf(metas)
    ensures forall n :: n in Dependencies(metas) ==> Dependencies(metas)[n] <= Dependencies(metas).Keys
  {
  }

  /**
    An edge `n -> d` exists exactly when `d` is another package's name and `d` is
    the first word of one of the build, run or test requirements of the meta
    that was read last for `n`.
   */
  lemma {:induction false} DependencyEdges(metas: seq<Recipe>, n: string, d: string)
    requires n in NamesOf(metas)
    ensures d in Dependencies(metas)[n] <==>
      d in NamesOf(metas) &&
      exists q :: q in LastNamed(metas, n).build + LastNamed(metas, n).run + LastNamed(metas, n).test
                  && IsFirstWord(d, q)
  {
    var r := LastNamed(metas, n);
    var all := r.build + r.run + r.test;
    var words := SanitizeNames(r.build) + SanitizeNames(r.run) + SanitizeNames(r.test);
    assert |words| == |all|;
    forall k | 0 <= k < |all| ensures IsFirstWord(words[k], all[k]) {
      if k < |r.build| {
      } else if k < |r.build| + |r.run| {
        assert words[k] == SanitizeNames(r.run)[k - |r.build|];
      } else {
        assert words[k] == SanitizeNames(r.test)[k - |r.build| - |r.run|];
      }
    }
    if d in Requirements(r) {
      var k :| 0 <= k < |words| && words[k] == d;
      assert all[k] in all && IsFirstWord(d, all[k]);
    }
    if exists q :: q in all && IsFirstWord(d, q) {
      var q :| q in all && IsFirstWord(d, q);
      var k :| 0 <= k < |all| && all[k] == q;
      FirstWordUnique(d, words[k], q);
      assert d in Requirements(r);
    }
  }

  /**
    Metas that share a name and requirement lists (the variants of one recipe)
    give the same edges whichever of them is read last.
   */
  lemma {:induction false} SameRecipeSameEdges(metas: seq<Recipe>, m: Recipe)
    requires m in metas
    requires forall w :: w in metas && w.name == m.name ==> w.build == m.build && w.run == m.run && w.test == m.test
    ensures m.name in Dependencies(metas)
    ensures Dependencies(metas)[m.name] == Requirements(m) * NamesOf(metas)
  {
    var w := LastNamed(metas, m.name);
    assert Requirements(w) == Requirements(m);
  }

  /**
    A requirement with a version pin or a selector comment after its first
    space (`numpy >=1.11`, `python  # [not py2k]`) is cut down to the name; a
    requirement without a space is kept whole.
   */
  lemma SanitizeCutsAtSpace(names: seq<string>, i: nat, w: string, rest: string)
    requires i < |names| && ' ' !in w
    requires names[i] == w + [' '] + rest || names[i] == w
    ensures SanitizeNames(names)[i] == w
  {
    assert IsFirstWord(w, names[i]) by {
      if names[i] != w { assert names[i][..|w|] == w; }
    }
    FirstWordUnique(SanitizeNames(names)[i], w, names[i]);
  }

}
