/**
  `run` of buildmatrix/cli.py: the planner's stages put together. It checks the
  recipes folder, settles the numpy axis, classifies the variants, orders the
  ones to build by their dependencies, expands the order of names back into an
  order of variants with the build-order comprehension, and then either stops
  (dry run) or builds and turns the result into an exit status.

  Whether the recipes folder exists, the channel's package names, the dry runs
  and the return codes of the builds are inputs.
 */
module Pipeline {
  import opened Wrappers
  import opened Lexicographic
  import opened Environ
  import opened Variants
  import opened DependencyGraph
  import opened Scheduler
  import opened Executor

  /** How a call to `run` ends. */
  datatype RunOutcome =
    | MissingRecipesPath                 // `sys.exit(1)` before anything else
    | NothingToBuild                     // `sys.exit(0)`: every variant was dropped or is on the channel
    | ScheduleFailed(error: ScheduleError)  // the `ValueError` of `resolve_dependencies`, which `run` does not catch
    | DryRunOnly(buildOrder: seq<Variant>)  // `sys.exit(0)` after the order was computed
    | BuildExited                        // the `sys.exit(1)` inside `run_build`
    | BuildRaised                        // an exception of `run_build`, caught and turned into `sys.exit(1)`
    | Built(success: seq<string>, failed: seq<string>, alreadyBuilt: seq<string>)

  /** The process exit status each ending gives; an uncaught exception ends Python with status 1. */
  function ExitStatus(o: RunOutcome): int
  {
    match o
    case MissingRecipesPath => 1
    case NothingToBuild => 0
    case ScheduleFailed(_) => 1
    case DryRunOnly(_) => 0
    case BuildExited => 1
    case BuildRaised => 1
    case Built(_, failed, _) => if |failed| != 0 then 1 else 0
  }

  lemma BuiltStatus(success: seq<string>, failed: seq<string>, alreadyBuilt: seq<string>)
    ensures ExitStatus(Built(success, failed, alreadyBuilt)) == 0 <==> |failed| == 0
  {
  }

  /** What `run` leaves behind: how it ended, the builds it launched, and the environment. */
  datatype RunResult = RunResult(outcome: RunOutcome, launched: seq<Launch>, vars: map<string, string>)

  // ----- the build-order comprehension -----

  /** The variants of `metas` whose package name is `name`, in their order. */
  function Named(metas: seq<Variant>, name: string): seq<Variant>
  {
    if metas == [] then []
    else
      var m := metas[|metas| - 1];
      Named(metas[..|metas| - 1], name) + if m.recipe.name == name then [m] else []
  }

  lemma {:induction false} NamedMembers(metas: seq<Variant>, name: string, v: Variant)
    ensures v in Named(metas, name) <==> v in metas && v.recipe.name == name
  {
    if metas != [] {
      var init, m := metas[..|metas| - 1], metas[|metas| - 1];
      assert metas == init + [m];
      NamedMembers(init, name, v);
    }
  }

  /** `[meta for name in metas_name_order for meta in metas_to_build if meta's package name == name]`. */
  function BuildOrder(names: seq<string>, metas: seq<Variant>): seq<Variant>
  {
    if names == [] then [] else Named(metas, names[0]) + BuildOrder(names[1..], metas)
  }

  /** The build order holds exactly the variants whose package name was scheduled. */
  lemma {:induction false} BuildOrderMembers(names: seq<string>, metas: seq<Variant>, v: Variant)
    ensures v in BuildOrder(names, metas) <==> v in metas && v.recipe.name in names
  {
    if names != [] {
      BuildOrderMembers(names[1..], metas, v);
      NamedMembers(metas, names[0], v);
      assert v.recipe.name in names <==> v.recipe.name == names[0] || v.recipe.name in names[1..];
    }
  }

  /** The expansion of a split order is the concatenation of the expansions. */
  lemma {:induction false} BuildOrderSplit(names: seq<string>, metas: seq<Variant>, t: nat)
    requires t <= |names|
    ensures BuildOrder(names, metas) == BuildOrder(names[..t], metas) + BuildOrder(names[t..], metas)
  {
    if t > 0 {
      BuildOrderSplit(names[1..], metas, t - 1);
      assert names[1..][..t - 1] == names[..t][1..];
      assert names[1..][t - 1..] == names[t..];
    } else {
      assert names[..0] == [];
    }
  }

  /**
    Every variant comes after every variant of each package it depends on: the
    scheduled names put the dependencies first, and the comprehension keeps the
    variants of one name together in that name's place.
   */
  lemma BuildOrderRespectsDependencies(g: Graph, names: seq<string>, metas: seq<Variant>, j: nat, w: Variant)
    requires Topological(g, names) && NoDuplicates(names)
    requires j < |BuildOrder(names, metas)|
    requires BuildOrder(names, metas)[j].recipe.name in g
    requires w in metas && w.recipe.name in g[BuildOrder(names, metas)[j].recipe.name]
    ensures w in BuildOrder(names, metas)[..j]
  {
    var order := BuildOrder(names, metas);
    var v := order[j];
    BuildOrderMembers(names, metas, v);
    var t :| 0 <= t < |names| && names[t] == v.recipe.name;
    assert Ready(g[names[t]], names[..t]);
    BuildOrderSplit(names, metas, t);
    var before := BuildOrder(names[..t], metas);
    BuildOrderMembers(names[..t], metas, w);
    NoDuplicatesPrefix(names, t);
    BuildOrderMembers(names[..t], metas, v);
    assert v !in before;
    assert j >= |before|;
    var i :| 0 <= i < |before| && before[i] == w;
    assert order[i] == w;
    assert order[..j][i] == w;
  }

  lemma NoDuplicatesPrefix(names: seq<string>, t: nat)
    requires NoDuplicates(names) && t < |names|
    ensures names[t] !in names[..t]
  {
    forall s | 0 <= s < t ensures names[..t][s] != names[t] {
      assert names[..t][s] == names[s];
    }
  }

  lemma NamedSnoc(metas: seq<Variant>, m: Variant, name: string)
    ensures Named(metas + [m], name) == Named(metas, name) + if m.recipe.name == name then [m] else []
  {
    assert (metas + [m])[..|metas|] == metas;
  }

  lemma NoDuplicatesTail(names: seq<string>)
    requires names != [] && NoDuplicates(names)
    ensures NoDuplicates(names[1..]) && names[0] !in names[1..]
  {
    var rest := names[1..];
    forall i, j | 0 <= i < j < |rest| ensures rest[i] != rest[j] {
      assert rest[i] == names[i + 1] && rest[j] == names[j + 1];
    }
    forall i | 0 <= i < |rest| ensures rest[i] != names[0] {
      assert rest[i] == names[i + 1];
    }
  }

  /** How the expansion grows when one more variant is to be built. */
  lemma {:induction false} BuildOrderSnoc(names: seq<string>, metas: seq<Variant>, m: Variant)
    requires NoDuplicates(names)
    ensures multiset(BuildOrder(names, metas + [m]))
         == multiset(BuildOrder(names, metas)) + if m.recipe.name in names then multiset{m} else multiset{}
  {
    if names != [] {
      var rest := names[1..];
      NoDuplicatesTail(names);
      BuildOrderSnoc(rest, metas, m);
      NamedSnoc(metas, m, names[0]);
      var here: seq<Variant> := if m.recipe.name == names[0] then [m] else [];
      var later := if m.recipe.name in rest then multiset{m} else multiset{};
      var first := Named(metas, names[0]);
      assert BuildOrder(names, metas + [m]) == (first + here) + BuildOrder(rest, metas + [m]);
      assert BuildOrder(names, metas) == first + BuildOrder(rest, metas);
      var added := if m.recipe.name in names then multiset{m} else multiset{};
      assert multiset(here) + later == added by {
        assert m.recipe.name in names <==> m.recipe.name == names[0] || m.recipe.name in rest;
      }
      Regroup(multiset(first), multiset(here), multiset(BuildOrder(rest, metas)), later);
      calc {
        multiset(BuildOrder(names, metas + [m]));
        multiset(first) + multiset(here) + multiset(BuildOrder(rest, metas + [m]));
        multiset(first) + multiset(here) + (multiset(BuildOrder(rest, metas)) + later);
        (multiset(first) + multiset(BuildOrder(rest, metas))) + (multiset(here) + later);
        multiset(BuildOrder(names, metas)) + added;
      }
    }
  }

  lemma Regroup(a: multiset<Variant>, b: multiset<Variant>, c: multiset<Variant>, d: multiset<Variant>)
    ensures a + b + (c + d) == (a + c) + (b + d)
  {
  }

  /**
    When the scheduled names are distinct and cover every variant's package
    name, the build order is a permutation of the variants to build: each is
    built exactly once.
   */
  lemma {:induction false} BuildOrderPermutation(names: seq<string>, metas: seq<Variant>)
    requires NoDuplicates(names)
    requires forall v :: v in metas ==> v.recipe.name in names
    ensures multiset(BuildOrder(names, metas)) == multiset(metas)
  {
    if metas == [] {
      NoneNamed(names, metas);
    } else {
      var init, m := metas[..|metas| - 1], metas[|metas| - 1];
      assert metas == init + [m];
      BuildOrderPermutation(names, init);
      BuildOrderSnoc(names, init, m);
    }
  }

  lemma {:induction false} NoneNamed(names: seq<string>, metas: seq<Variant>)
    requires metas == []
    ensures BuildOrder(names, metas) == []
  {
    if names != [] {
      NoneNamed(names[1..], metas);
    }
  }


  // ----- `run` -----

  /** The recipes behind the variants, which `build_dependency_graph` reads the names and requirements of. */
  function RecipesOf(metas: seq<Variant>): (rs: seq<Recipe>)
    ensures |rs| == |metas| && forall k :: 0 <= k < |metas| ==> rs[k] == metas[k].recipe
  {
    seq(|metas|, k requires 0 <= k < |metas| => metas[k].recipe)
  }

  /**
    The dependency graph handed to `resolve_dependencies`. Its lists come from
    sets, so their order is not specified; the model lists each set sorted.
   */
  function AsGraph(d: map<string, set<string>>): (g: Graph)
    ensures g.Keys == d.Keys
    ensures forall k, x :: k in d ==> (x in g[k] <==> x in d[k])
  {
    map k | k in d :: SortedKeys(d[k])
  }

  /** `numpy`, or when it is `None`, `[os.environ.get("CONDA_NPY", "1.11")]`. */
  function NumpyAxis(vars: map<string, string>, numpy: Option<seq<string>>): seq<string>
  {
    match numpy
    case Some(versions) => versions
    case None => [match Lookup(vars, NumpyVariable) case Some(v) => v case None => DefaultNumpy]
  }

  /** The ordering graph of the variants to build. */
  function PlanGraph(toBuild: seq<Variant>): Graph
  {
    AsGraph(Dependencies(RecipesOf(toBuild)))
  }

  /** `build_order`: the variants to build in the order of their scheduled names. */
  function PlannedOrder(toBuild: seq<Variant>): seq<Variant>
  {
    BuildOrder(Resolve(PlanGraph(toBuild)).order, toBuild)
  }

  /** What `run` does, stage after stage, from the environment it starts in. */
  function RunSpec(vars: map<string, string>, recipesPathExists: bool, recipes: seq<Recipe>,
                   python: seq<string>, numpy: Option<seq<string>>, packages: set<string>,
                   dryRun: DryRunner, returnCode: nat -> int, allowFailures: bool, dryRunMode: bool): RunResult
  {
    if !recipesPathExists then RunResult(MissingRecipesPath, [], vars)
    else
      var ps := Probes(recipes, python, NumpyAxis(vars, numpy));
      FromPlan(EnvAfterProbes(vars, ps, dryRun), ToBuild(ps, dryRun, packages), NotToBuild(ps, dryRun, packages),
               returnCode, allowFailures, dryRunMode)
  }

  /** The rest of `run` once the variants are classified, from the environment the dry runs left. */
  function FromPlan(vars: map<string, string>, toBuild: seq<Variant>, skip: seq<Variant>,
                    returnCode: nat -> int, allowFailures: bool, dryRunMode: bool): RunResult
  {
    if toBuild == [] then RunResult(NothingToBuild, [], vars)
    else
      var schedule := Resolve(PlanGraph(toBuild));
      if schedule.failure.Some? then RunResult(ScheduleFailed(schedule.failure.value), [], vars)
      else if dryRunMode then RunResult(DryRunOnly(PlannedOrder(toBuild)), [], vars)
      else FromBuild(vars, PlannedOrder(toBuild), skip, returnCode, allowFailures)
  }

  /** The `try` block of `run` around `run_build`. */
  function FromBuild(vars: map<string, string>, order: seq<Variant>, skip: seq<Variant>,
                     returnCode: nat -> int, allowFailures: bool): RunResult
  {
    var p := After(order, returnCode, allowFailures, vars, |order|);
    var outcome := match Report(p)
      case Exited => BuildExited
      case Raised => BuildRaised
      case Finished(success, failed) => Built(success, failed, Sort(Names(skip)));
    RunResult(outcome, p.launched, p.vars)
  }

  /**
    `run(recipes_path, python, channel, numpy, allow_failures, dry_run)`. The
    folder check, the channel's package names, the dry runs and the builds'
    return codes come in as `recipesPathExists`, `packages`, `dryRun` and
    `returnCode`; `launched` lists the build commands run.
   */
  method Run(env: Environment, recipesPathExists: bool, recipes: seq<Recipe>,
             python: seq<string>, numpy: Option<seq<string>>, packages: set<string>,
             dryRun: DryRunner, returnCode: nat -> int, allowFailures: bool, dryRunMode: bool)
    returns (outcome: RunOutcome, launched: seq<Launch>)
    modifies env
    ensures RunResult(outcome, launched, env.vars)
         == RunSpec(old(env.vars), recipesPathExists, recipes, python, numpy, packages,
                    dryRun, returnCode, allowFailures, dryRunMode)
  {
    launched := [];
    if !recipesPathExists {
      return MissingRecipesPath, launched;
    }
    var numpyVersions: seq<string>;
    if numpy.None? {
      var fromEnv := Lookup(env.vars, NumpyVariable);
      numpyVersions := [if fromEnv.Some? then fromEnv.value else DefaultNumpy];
    } else {
      numpyVersions := numpy.value;
    }
    var metasToBuild, metasToSkip := DecideWhatToBuild(env, recipes, python, numpyVersions, packages, dryRun);
    if metasToBuild == [] {
      return NothingToBuild, launched;
    }
    var dependencyGraph := BuildDependencyGraph(RecipesOf(metasToBuild));
    var schedule := ResolveDependencies(AsGraph(dependencyGraph));
    if schedule.failure.Some? {
      return ScheduleFailed(schedule.failure.value), launched;
    }
    var buildOrder := BuildOrder(schedule.order, metasToBuild);
    if dryRunMode {
      return DryRunOnly(buildOrder), launched;
    }
    var results;
    results, launched := RunBuild(env, buildOrder, returnCode, allowFailures);
    match results
    case Exited => outcome := BuildExited;
    case Raised => outcome := BuildRaised;
    case Finished(success, failed) => outcome := Built(success, failed, Sort(Names(metasToSkip)));
  }

  // ----- what `run` guarantees -----

  /** The package names among the variants to build. */
  function PackageNames(toBuild: seq<Variant>): set<string>
  {
    set v | v in toBuild :: v.recipe.name
  }

  /** The ordering graph has one key per package to build, and every dependency it lists is one of them. */
  lemma PlanGraphShape(toBuild: seq<Variant>)
    ensures PlanGraph(toBuild).Keys == PackageNames(toBuild)
    ensures Defined(PlanGraph(toBuild))
  {
    var rs := RecipesOf(toBuild);
    DependenciesShape(rs);
    assert NamesOf(rs) == PackageNames(toBuild) by {
      forall n ensures n in NamesOf(rs) <==> n in PackageNames(toBuild) {
        if n in NamesOf(rs) {
          var r :| r in rs && r.name == n;
          var k :| 0 <= k < |rs| && rs[k] == r;
          assert toBuild[k] in toBuild;
        }
        if n in PackageNames(toBuild) {
          var v :| v in toBuild && v.recipe.name == n;
          var k :| 0 <= k < |toBuild| && toBuild[k] == v;
          assert rs[k] in rs;
        }
      }
    }
  }

  /**
    The ordering of the variants to build never fails on an unknown
    dependency: the graph only lists packages to build. With at most 10000
    packages it fails exactly when their dependencies have a cycle.
   */
  lemma PlanFailsOnlyOnCycles(toBuild: seq<Variant>)
    ensures Resolve(PlanGraph(toBuild)).failure.Some? ==> Resolve(PlanGraph(toBuild)).failure.value.Unresolved?
    ensures |PackageNames(toBuild)| <= MaxPasses ==>
      (Resolve(PlanGraph(toBuild)).failure.None? <==> Acyclic(PlanGraph(toBuild)))
  {
    var g := PlanGraph(toBuild);
    PlanGraphShape(toBuild);
    ResolveReportsUndefined(g);
    forall p, d ensures !Undefined(g, p, d) {
    }
    if |PackageNames(toBuild)| <= MaxPasses {
      assert |g| == |g.Keys|;
      ResolveSucceedsIff(g);
    }
  }

  /** When the ordering succeeds, the build order holds every variant to build exactly once. */
  lemma PlannedOrderPermutes(toBuild: seq<Variant>)
    requires Resolve(PlanGraph(toBuild)).failure.None?
    ensures multiset(PlannedOrder(toBuild)) == multiset(toBuild)
  {
    var g := PlanGraph(toBuild);
    PlanGraphShape(toBuild);
    ResolveSuccessYieldsAll(g);
    forall v | v in toBuild ensures v.recipe.name in Resolve(g).order {
      assert v.recipe.name in PackageNames(toBuild);
    }
    BuildOrderPermutation(Resolve(g).order, toBuild);
  }

  /**
    When the ordering succeeds, every variant in the build order comes after
    all the variants of every package its recipe depends on.
   */
  lemma PlannedOrderRespectsDependencies(toBuild: seq<Variant>, j: nat, w: Variant)
    requires Resolve(PlanGraph(toBuild)).failure.None?
    requires j < |PlannedOrder(toBuild)|
    requires w in toBuild
    requires PlannedOrder(toBuild)[j].recipe.name in Dependencies(RecipesOf(toBuild))
    requires w.recipe.name in Dependencies(RecipesOf(toBuild))[PlannedOrder(toBuild)[j].recipe.name]
    ensures w in PlannedOrder(toBuild)[..j]
  {
    var g := PlanGraph(toBuild);
    ResolveDependenciesFirst(g);
    BuildOrderRespectsDependencies(g, Resolve(g).order, toBuild, j, w);
  }

  /**
    A variant to build whose recipe folder and python version are not the
    text `--numpy` is built with `CONDA_NPY` set to its own numpy version.
   */
  lemma BuildsUnderOwnNumpy(ps: seq<Probe>, dryRun: DryRunner, packages: set<string>, v: Variant)
    requires v in ToBuild(ps, dryRun, packages)
    requires v.recipe.dir != NumpyFlag && v.python != NumpyFlag
    ensures !Malformed(v)
    ensures LaunchOf(v) == Launch(BuildCommand(v.recipe.dir, v.python, v.numpy), v.numpy)
  {
    ToBuildSound(ps, dryRun, packages, v);
    BuildCommandNumpy(v.recipe.dir, v.python, v.numpy);
  }

  lemma {:induction false} FailedNamesEmpty(order: seq<Variant>, returnCode: nat -> int, n: nat)
    requires n <= |order|
    ensures FailedNames(order, returnCode, n) == [] <==> forall k :: 0 <= k < n ==> returnCode(k) == 0
  {
    if n > 0 {
      FailedNamesEmpty(order, returnCode, n - 1);
    }
  }

  /**
    When the builds run to the end, every variant of the order was launched
    once, in order; the success list is every build name, sorted, the
    already-built list is the sorted build names of the skipped variants, and
    the status is 0 exactly when every build returned 0. Without
    `allow_failures` nothing is listed as failed.
   */
  lemma {:induction false} FromBuildSummary(vars: map<string, string>, order: seq<Variant>, skip: seq<Variant>,
                                            returnCode: nat -> int, allowFailures: bool)
    requires FromBuild(vars, order, skip, returnCode, allowFailures).outcome.Built?
    ensures var r := FromBuild(vars, order, skip, returnCode, allowFailures);
      && |r.launched| == |order|
      && (forall k :: 0 <= k < |order| ==> !Malformed(order[k]) && r.launched[k] == LaunchOf(order[k]))
      && r.outcome.success == Sort(Names(order))
      && r.outcome.alreadyBuilt == Sort(Names(skip))
      && (ExitStatus(r.outcome) == 0 <==> forall k :: 0 <= k < |order| ==> returnCode(k) == 0)
      && (!allowFailures ==> r.outcome.failed == [])
  {
    RunBuildFinishes(order, returnCode, allowFailures, vars);
    FailedNamesEmpty(order, returnCode, |order|);
    var failed := FailedNames(order, returnCode, |order|);
    var r := FromBuild(vars, order, skip, returnCode, allowFailures);
    var summary := Built(Sort(Names(order)), Sort(failed), Sort(Names(skip)));
    assert r.outcome == summary;
    BuiltStatus(Sort(Names(order)), Sort(failed), Sort(Names(skip)));
    assert |Sort(failed)| == |failed|;
    if !allowFailures {
      StrictFinishedHasNoFailures(order, returnCode, vars);
    }
  }

  /**
    When `run` gets to the summary, the recipes folder exists, it was no dry
    run, and every variant to build was launched exactly once, in an order
    that permutes them.
   */
  lemma RunBuiltSummary(vars: map<string, string>, recipesPathExists: bool, recipes: seq<Recipe>,
                        python: seq<string>, numpy: Option<seq<string>>, packages: set<string>,
                        dryRun: DryRunner, returnCode: nat -> int, allowFailures: bool, dryRunMode: bool)
    requires RunSpec(vars, recipesPathExists, recipes, python, numpy, packages,
                     dryRun, returnCode, allowFailures, dryRunMode).outcome.Built?
    ensures var ps := Probes(recipes, python, NumpyAxis(vars, numpy));
      var toBuild := ToBuild(ps, dryRun, packages);
      && recipesPathExists && !dryRunMode && toBuild != []
      && Resolve(PlanGraph(toBuild)).failure.None?
      && multiset(PlannedOrder(toBuild)) == multiset(toBuild)
      && RunSpec(vars, recipesPathExists, recipes, python, numpy, packages, dryRun, returnCode, allowFailures, dryRunMode)
         == FromBuild(EnvAfterProbes(vars, ps, dryRun), PlannedOrder(toBuild), NotToBuild(ps, dryRun, packages),
                      returnCode, allowFailures)
  {
    var ps := Probes(recipes, python, NumpyAxis(vars, numpy));
    PlannedOrderPermutes(ToBuild(ps, dryRun, packages));
  }

  /** The `try` block ends in one of the three ways `run_build` can end. */
  lemma FromBuildEnds(vars: map<string, string>, order: seq<Variant>, skip: seq<Variant>,
                      returnCode: nat -> int, allowFailures: bool)
    ensures var o := FromBuild(vars, order, skip, returnCode, allowFailures).outcome;
      o.BuildExited? || o.BuildRaised? || o.Built?
  {
    var p := After(order, returnCode, allowFailures, vars, |order|);
    match Report(p)
    case Exited =>
    case Raised =>
    case Finished(_, _) =>
  }

  /** Once the variants are classified, only the builds launch anything. */
  lemma FromPlanLaunches(vars: map<string, string>, toBuild: seq<Variant>, skip: seq<Variant>,
                         returnCode: nat -> int, allowFailures: bool, dryRunMode: bool)
    ensures var r := FromPlan(vars, toBuild, skip, returnCode, allowFailures, dryRunMode);
      r.launched != [] ==> !dryRunMode && (r.outcome.BuildExited? || r.outcome.BuildRaised? || r.outcome.Built?)
    ensures var r := FromPlan(vars, toBuild, skip, returnCode, allowFailures, dryRunMode);
      r.outcome.ScheduleFailed? ==> r.outcome.error.Unresolved?
  {
    if toBuild != [] {
      PlanFailsOnlyOnCycles(toBuild);
      if Resolve(PlanGraph(toBuild)).failure.None? && !dryRunMode {
        FromBuildEnds(vars, PlannedOrder(toBuild), skip, returnCode, allowFailures);
      }
    }
  }

  /**
    `run` launches nothing unless it gets to `run_build`: a missing recipes
    folder, nothing to build, a failed ordering or a dry run all end it first;
    and the ordering only ever fails with the unresolved remainder.
   */
  lemma RunLaunchesOnlyWhenBuilding(vars: map<string, string>, recipesPathExists: bool, recipes: seq<Recipe>,
                                    python: seq<string>, numpy: Option<seq<string>>, packages: set<string>,
                                    dryRun: DryRunner, returnCode: nat -> int, allowFailures: bool, dryRunMode: bool)
    ensures var r := RunSpec(vars, recipesPathExists, recipes, python, numpy, packages,
                             dryRun, returnCode, allowFailures, dryRunMode);
      r.launched != [] ==> recipesPathExists && !dryRunMode && (r.outcome.BuildExited? || r.outcome.BuildRaised? || r.outcome.Built?)
    ensures var r := RunSpec(vars, recipesPathExists, recipes, python, numpy, packages,
                             dryRun, returnCode, allowFailures, dryRunMode);
      r.outcome.ScheduleFailed? ==> r.outcome.error.Unresolved?
  {
    if recipesPathExists {
      var ps := Probes(recipes, python, NumpyAxis(vars, numpy));
      FromPlanLaunches(EnvAfterProbes(vars, ps, dryRun), ToBuild(ps, dryRun, packages), NotToBuild(ps, dryRun, packages),
                       returnCode, allowFailures, dryRunMode);
    }
  }
}
