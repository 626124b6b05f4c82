/**
  A worked run of the build ordering in `run` for two recipes, `package-a` and
  `package-b`, where `package-b` depends on `package-a`: six variants of
  `package-a` and three of `package-b`. The scheduler yields `package-a` first,
  and the build-order comprehension then puts all six `package-a` variants
  before the three `package-b` ones, whatever order the folder walk found them in.
 */
module BuildSortingExample {
  import opened Wrappers
  import opened Lexicographic
  import opened Scheduler
  import opened Variants
  import opened Pipeline

  const PackageA: string := "package-a"
  const PackageB: string := "package-b"

  lemma PackageAFirst()
    ensures Less(PackageA, PackageB)
  {
    assert Below("a", "b");
    assert Below("-a", "-b");
    assert Below("e-a", "e-b");
    assert Below("ge-a", "ge-b");
    assert Below("age-a", "age-b");
    assert Below("kage-a", "kage-b");
    assert Below("ckage-a", "ckage-b");
    assert Below("ackage-a", "ackage-b");
    assert PackageA[8] != PackageB[8];
  }

  /** The graph `build_dependency_graph` gives when `package-b` requires `package-a`, entry by entry. */
  ghost predicate FixtureEntries(g: Graph)
  {
    g.Keys == {PackageA, PackageB} && g[PackageA] == [] && g[PackageB] == [PackageA]
  }

  lemma FixtureScan(g: Graph)
    requires FixtureEntries(g)
    ensures PassScan(g, []) == [PackageA, PackageB]
  {
    PackageAFirst();
    assert Remaining(g, []).Keys == {PackageA, PackageB};
    SortedKeysUnique({PackageA, PackageB}, [PackageA, PackageB]);
  }

  /** The pass yields `package-a`, which depends on nothing. */
  lemma FixtureStep1(g: Graph)
    requires FixtureEntries(g)
    ensures Sweep(g, [PackageA, PackageB], []) == Sweep(g, [PackageB], [PackageA])
  {
    var scan := [PackageA, PackageB];
    SweepReady(g, scan, 0, []);
    assert scan[0..] == scan && scan[1..] == [PackageB];
  }

  /** The pass then yields `package-b`, whose dependency is now done. */
  lemma FixtureStep2(g: Graph)
    requires FixtureEntries(g)
    ensures Sweep(g, [PackageB], [PackageA]) == Schedule([PackageA, PackageB], None)
  {
    var scan := [PackageB];
    assert Ready(g[PackageB], [PackageA]);
    SweepReady(g, scan, 0, [PackageA]);
    assert scan[0..] == scan && scan[1..] == [];
  }

  /** The only pass yields both packages. */
  lemma FixturePass(g: Graph)
    requires FixtureEntries(g)
    ensures Sweep(g, PassScan(g, []), []) == Schedule([PackageA, PackageB], None)
  {
    FixtureScan(g);
    FixtureStep1(g);
    FixtureStep2(g);
  }

  /** `{'package-a': [], 'package-b': ['package-a']}` yields `package-a, package-b`. */
  lemma FixtureSchedule(g: Graph)
    requires g == map[PackageA := [], PackageB := [PackageA]]
    ensures Resolve(g) == Schedule([PackageA, PackageB], None)
  {
    assert FixtureEntries(g);
    FixturePass(g);
    PassSucceeds(g, [], MaxPasses);
  }

  lemma {:induction false} NamedAll(metas: seq<Variant>, name: string)
    requires forall k :: 0 <= k < |metas| ==> metas[k].recipe.name == name
    ensures Named(metas, name) == metas
  {
    if metas != [] {
      var init := metas[..|metas| - 1];
      NamedAll(init, name);
      assert init + [metas[|metas| - 1]] == metas;
    }
  }

  lemma {:induction false} NamedNone(metas: seq<Variant>, name: string)
    requires forall k :: 0 <= k < |metas| ==> metas[k].recipe.name != name
    ensures Named(metas, name) == []
  {
    if metas != [] {
      NamedNone(metas[..|metas| - 1], name);
    }
  }

  lemma {:induction false} NamedConcat(xs: seq<Variant>, ys: seq<Variant>, name: string)
    ensures Named(xs + ys, name) == Named(xs, name) + Named(ys, name)
    decreases |ys|
  {
    if ys != [] {
      var init, last := ys[..|ys| - 1], ys[|ys| - 1];
      NamedConcat(xs, init, name);
      assert (xs + ys)[..|xs + ys| - 1] == xs + init;
      assert (xs + ys)[|xs + ys| - 1] == last;
    } else {
      assert xs + ys == xs;
    }
  }

  /** Over the scheduled names `a, b`, the comprehension puts the variants of `a` before those of `b`. */
  lemma {:induction false} TwoNamesRegroup(a: string, b: string, bVariants: seq<Variant>, aVariants: seq<Variant>)
    requires a != b
    requires forall k :: 0 <= k < |bVariants| ==> bVariants[k].recipe.name == b
    requires forall k :: 0 <= k < |aVariants| ==> aVariants[k].recipe.name == a
    ensures BuildOrder([a, b], bVariants + aVariants) == aVariants + bVariants
  {
    var metas := bVariants + aVariants;
    assert Named(metas, a) == aVariants by {
      NamedConcat(bVariants, aVariants, a);
      NamedNone(bVariants, a);
      NamedAll(aVariants, a);
    }
    assert Named(metas, b) == bVariants by {
      NamedConcat(bVariants, aVariants, b);
      NamedAll(bVariants, b);
      NamedNone(aVariants, b);
    }
    assert BuildOrder([b], metas) == bVariants by {
      assert [b][1..] == [];
    }
    assert [a, b][1..] == [b];
  }

  /**
    The repository's sorting test: nine variants, found here with the three of
    `package-b` first, come out with the six of `package-a` first, so the first
    one built is a `package-a` variant and the seventh a `package-b` variant.
   */
  lemma BuildSortingFixture(g: Graph, toBuild: seq<Variant>, bVariants: seq<Variant>, aVariants: seq<Variant>)
    requires g == map[PackageA := [], PackageB := [PackageA]]
    requires toBuild == bVariants + aVariants && |bVariants| == 3 && |aVariants| == 6
    requires forall k :: 0 <= k < |bVariants| ==> bVariants[k].recipe.name == PackageB
    requires forall k :: 0 <= k < |aVariants| ==> aVariants[k].recipe.name == PackageA
    ensures BuildOrder(Resolve(g).order, toBuild) == aVariants + bVariants
    ensures var order := BuildOrder(Resolve(g).order, toBuild);
      |order| == 9 && order[0].recipe.name == PackageA && order[6].recipe.name == PackageB
  {
    FixtureSchedule(g);
    assert PackageA != PackageB by { assert PackageA[8] != PackageB[8]; }
    TwoNamesRegroup(PackageA, PackageB, bVariants, aVariants);
    var order := aVariants + bVariants;
    assert order[0] == aVariants[0] && order[6] == bVariants[0];
  }
}
