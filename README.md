# buildmatrix build planner, modelled in Dafny

`buildmatrix` builds a folder of conda recipes across a matrix of python and
numpy versions. It skips the variants whose archives are already on an
anaconda channel and builds the rest in dependency order. This project models
the planning core of `buildmatrix/cli.py`. The modelled parts:

- the `env_var` context manager around `os.environ`;
- the variant expansion and skip classification loop of `decide_what_to_build`;
- `sanitize_names` and `build_dependency_graph`;
- the repeated-sweep scheduler `resolve_dependencies`;
- the build loop `run_build`;
- the way `run` chains these stages into an exit status, including the
  build-order comprehension.

The model proves properties of all of these.

Modules, one per file:

| file | module | models |
|---|---|---|
| `wrappers.dfy` | `Wrappers` | `Option` |
| `lexicographic.dfy` | `Lexicographic` | Python's `str` order, `sorted` on dictionary keys and on lists of names |
| `text.dfy` | `Text` | `str.split`, `str.join`, `in` on strings, the first word of a requirement, the last two path segments |
| `environ.dfy` | `Environ` | `os.environ` (a class) and `env_var` |
| `variants.dfy` | `Variants` | `decide_what_to_build`: axes, product, dry run, classification |
| `graph.dfy` | `DependencyGraph` | `sanitize_names`, `build_dependency_graph` |
| `scheduler.dfy` | `Scheduler` | `resolve_dependencies` |
| `schedule_examples.dfy` | `ScheduleExamples` | worked runs of `resolve_dependencies` |
| `build_sorting_example.dfy` | `BuildSortingExample` | a worked run of the build ordering for two dependent recipes |
| `executor.dfy` | `Executor` | `run_build` |
| `pipeline.dfy` | `Pipeline` | `run` and the build-order comprehension |

Each loop of the source is a `method` with a `while` loop. Each method's
postcondition ties its result to a recursive specification function:

- `DecideWhatToBuild` to `ToBuild`, `NotToBuild` and `EnvAfterProbes`;
- `ResolveDependencies` to `Resolve`;
- `RunBuild` to `After` and `Report`;
- `Run` to `RunSpec`.

The properties the source promises are then lemmas about those functions.
`os.environ` is a class whose `Enter` and `Leave` methods change it in place.

The world outside the planner comes in as parameters:

- whether the recipes folder exists (a `bool`);
- the channel's package names (a set);
- the dry run of each variant, as a function from recipe folder, python version
  and numpy version to a path or a failure;
- the return code of each build, as a function of its position in the build
  order.

Behaviour of the code worth knowing, which the model keeps:

- **Scheduler order.** The scheduler does not pick the alphabetically earliest
  eligible package each time. It sweeps every remaining package in sorted
  order, and within a sweep it yields each package whose dependencies are
  already done. So `{'a': ['b'], 'b': [], 'c': []}` yields `b, c, a`, not
  `b, a, c`. `ScheduleExamples.SweepContinuesPastWaiting` proves this.
- **`env_var` on an exception.** `env_var` has no `try`/`finally`: when the dry
  run raises, the environment is not restored and `CONDA_NPY` keeps the
  variant's numpy version.
- **`env_var` and empty values.** An old value of `''` is deleted rather than
  restored, because it counts as false.
- **`allow_failures`.** With `allow_failures`, a failed build's name goes into
  both the failed list and the success list.
- **Exit status under `allow_failures`.** `run` exits with status 1 whenever
  the failed list is not empty, with or without `allow_failures`.
- **The 10000-pass failsafe.** It is kept. For more than 10000 packages it can
  end a run that would have succeeded, so `ResolveSucceedsIff` is stated for at
  most 10000 packages.

`os.sep` is taken to be `/`.

## Model

| member | source | states |
|---|---|---|
| Environ.AfterScopeRestores | buildmatrix/cli.py:65-73 | a normally ended `with env_var(k, v)` gives back the old environment exactly when `k` was unset or non-empty; an empty old value is deleted; other keys never change |
| Environ.Environment.Enter | buildmatrix/cli.py:67-68 | saves `os.environ.get(key)` and sets the key, changing nothing else |
| Environ.Environment.Leave | buildmatrix/cli.py:70-73 | restores a truthy saved value, otherwise deletes the key (which must then be set) |
| Lexicographic.SortedKeys | buildmatrix/cli.py:373 | the sorted listing of a key set has exactly the keys as members and one entry per key |
| Lexicographic.SortedKeysAscending | buildmatrix/cli.py:373 | the listing is strictly ascending in Python's string order |
| Lexicographic.SortedKeysUnique | buildmatrix/cli.py:373 | any strictly ascending listing of a set is the sorted listing, so `sorted` is determined by the set alone |
| Lexicographic.Insert | buildmatrix/cli.py:448-451 | inserting into an ascending list keeps it ascending and adds exactly one copy of the element |
| Lexicographic.Sort | buildmatrix/cli.py:448-451 | `sorted(names)` is ascending and a permutation of its input |
| Text.Split | buildmatrix/cli.py:259 | `s.split(sep)` is never empty, no piece holds `sep`, and joining the pieces with `sep` gives `s` back |
| Text.SplitJoin | buildmatrix/cli.py:258-259 | splitting a join of separator-free pieces gives the pieces back |
| Text.FirstWordSpec | buildmatrix/cli.py:289 | `s.split(' ')[0]` is the prefix of `s` up to its first space |
| Text.FirstWordUnique | buildmatrix/cli.py:289 | that prefix is unique |
| Text.ContainsAt | buildmatrix/cli.py:252 | `'.tar.bz' in path` holds exactly when the marker occurs at some offset of the path |
| Text.LastTwoSegmentsSpec | buildmatrix/cli.py:258-259 | the build name is a suffix of the path with exactly one separator when the path has one or more, and it is the whole path exactly when the path has at most one separator; when shorter, the path has a separator right before it, so it is the tail after the second-to-last separator |
| Text.CountJoin | buildmatrix/cli.py:258 | joining separator-free pieces puts exactly one separator between neighbours |
| Variants.Product | buildmatrix/cli.py:242-243 | `itertools.product` has `|xs| * |ys|` pairs |
| Variants.ProductAt | buildmatrix/cli.py:242-243 | pair `(xs[i], ys[j])` sits at index `i * |ys| + j`: python is the outer loop |
| Variants.ProductMembers | buildmatrix/cli.py:242-243 | every pair takes its parts from the two axes |
| Variants.RecipeProbesLayout | buildmatrix/cli.py:236-243 | a recipe yields one variant per pair of its python and numpy axes, python outermost |
| Variants.RecipeProbesAxes | buildmatrix/cli.py:236-241 | without the build requirement `numpy x.x` every variant uses numpy 1.11; without `python` among build and run requirements every variant uses python 3.5; otherwise the versions come from the requested axes |
| Variants.ProbeVariant | buildmatrix/cli.py:244-269 | one variant's verdict, and the environment its `env_var` block leaves: restored after a dry run that printed a path, left at the variant's numpy after one that raised |
| Variants.ProbeVariants | buildmatrix/cli.py:242-269 | the inner loop builds exactly `ToBuild` and `NotToBuild` of the recipe's probes and leaves `EnvAfterProbes` |
| Variants.ProbeRecipe | buildmatrix/cli.py:233-269 | the same for one recipe, axes collapsed as the source does |
| Variants.DecideWhatToBuild | buildmatrix/cli.py:226-274 | the recipe loop returns exactly `ToBuild` and `NotToBuild` of all probes in recipe order and leaves `EnvAfterProbes` |
| Variants.Concat | buildmatrix/cli.py:226-274 | classifying two probe lists one after the other is classifying their concatenation |
| Variants.JudgeNeedsBuild | buildmatrix/cli.py:252-269 | a variant is to build exactly when its dry run printed a path containing `.tar.bz` whose last two segments are not on the channel, with that path, that name and its command |
| Variants.JudgeOnChannel | buildmatrix/cli.py:252-269 | a variant is skipped as already built exactly when the same holds with the name on the channel |
| Variants.ToBuildMembers | buildmatrix/cli.py:266-269 | the to-build list holds exactly the variants some probe was judged to need built |
| Variants.NotToBuildMembers | buildmatrix/cli.py:266-267 | the skip list holds exactly the variants some probe found on the channel |
| Variants.ToBuildSound | buildmatrix/cli.py:245-269 | every variant to build comes from one of the probes, its dry run printed an archive path, its name is that path's last two segments and is not on the channel, and its command builds that recipe for its versions |
| Variants.ToBuildComplete | buildmatrix/cli.py:252-269 | every probe whose dry run printed an archive path not on the channel gives a variant to build |
| Variants.NotToBuildComplete | buildmatrix/cli.py:252-267 | every probe whose dry run printed an archive path on the channel gives a variant to skip |
| Variants.ToBuildDisjoint | buildmatrix/cli.py:262-269 | no variant is both to build and to skip |
| Variants.ListsCoverArchived | buildmatrix/cli.py:249-269 | the two lists together keep one variant per probe whose dry run printed an archive path; failed dry runs and non-archive paths are dropped |
| Variants.ProbesRestoreEnvironment | buildmatrix/cli.py:245-248 | when no dry run fails and `CONDA_NPY` starts unset or non-empty, the environment comes back unchanged |
| Variants.FailedProbeLeavesNumpy | buildmatrix/cli.py:245-251 | a dry run that raises leaves `CONDA_NPY` at that variant's numpy version |
| DependencyGraph.SanitizeNames | buildmatrix/cli.py:288-292 | same length and order, each entry the requirement's text before its first space |
| DependencyGraph.SanitizeCutsAtSpace | buildmatrix/cli.py:288-292 | a pinned or selector-commented requirement (`numpy >=1.11`) is cut down to its name; one without a space is kept whole |
| DependencyGraph.LastNamed | buildmatrix/cli.py:327-338 | the meta whose lists the dictionaries keep for a name is a meta of that name, and no later meta has that name: the last assignment wins |
| DependencyGraph.BuildDependencyGraph | buildmatrix/cli.py:322-349 | the method returns exactly `Dependencies(metas)` |
| DependencyGraph.KeepPackageEdges | buildmatrix/cli.py:347-348 | the filter keeps every key and intersects each value with the key set |
| DependencyGraph.FilledStep | buildmatrix/cli.py:327-338 | each meta overwrites its name's three lists with its own sanitized lists |
| DependencyGraph.UnionOfFilled | buildmatrix/cli.py:341-344 | the union comprehension maps each package to its last meta's sanitized requirements |
| DependencyGraph.DependenciesShape | buildmatrix/cli.py:341-349 | one key per distinct package name, and no value points outside the keys |
| DependencyGraph.DependencyEdges | buildmatrix/cli.py:327-349 | `n -> d` is an edge exactly when `d` is a package name and the first word of one of the build, run or test requirements of `n`'s last meta |
| DependencyGraph.SameRecipeSameEdges | buildmatrix/cli.py:327-349 | variants of one recipe give the same edges whichever is read last |
| Scheduler.FirstUndefined | buildmatrix/cli.py:381-386 | the reported dependency is in the list and is no package; none is reported exactly when all are packages |
| Scheduler.FirstUndefinedAt | buildmatrix/cli.py:381-386 | the first dependency in list order that is no package is the one reported |
| Scheduler.CheckDefined | buildmatrix/cli.py:381-386 | the check loop finds exactly `FirstUndefined` |
| Scheduler.PassScan | buildmatrix/cli.py:373 | a pass walks only packages not yet yielded |
| Scheduler.PassScanDistinct | buildmatrix/cli.py:373 | a pass never visits a package twice |
| Scheduler.SweepRemaining | buildmatrix/cli.py:373-386 | one pass appends and pops exactly as `Sweep` says, and `remaining_dependencies` stays the packages not yet yielded |
| Scheduler.ResolveDependencies | buildmatrix/cli.py:352-394 | the generator's whole output and ending are exactly `Resolve(g)` |
| Scheduler.SweepSound | buildmatrix/cli.py:373-386 | a pass keeps every yielded package after its dependencies and yields nothing twice; its only error is a real undefined dependency of a package it did not yield |
| Scheduler.PassesSound | buildmatrix/cli.py:372-394 | from any sound start, every run of passes ends topologically ordered, without repeats, with all packages on success, and with a true error otherwise |
| Scheduler.ResolveSound | buildmatrix/cli.py:352-394 | the same for a whole run from nothing |
| Scheduler.ResolveDependenciesFirst | buildmatrix/cli.py:372-377 | every dependency of a yielded package was yielded strictly earlier, and nothing is yielded twice |
| Scheduler.ResolveSuccessYieldsAll | buildmatrix/cli.py:389-390 | on success every package is yielded exactly once |
| Scheduler.ResolveUndefinedIsReal | buildmatrix/cli.py:381-386 | an undefined-dependency error names a package and a dependency of it that is no package, and that package was not yielded |
| Scheduler.ResolveUnresolvedIsRemaining | buildmatrix/cli.py:391-394 | the failsafe error carries exactly the packages not yielded, and there is at least one |
| Scheduler.ResolveReportsUndefined | buildmatrix/cli.py:373-386 | the run reports an undefined dependency exactly when some package has one, and then it is that of the first such package in sorted order |
| Scheduler.ResolveCatchesUndefined | buildmatrix/cli.py:373-386 | an undefined dependency makes the very first pass fail |
| Scheduler.SweepFailsAtFirstBroken | buildmatrix/cli.py:373-386 | a pass fails exactly with the error of the first package of its scan that lists a dependency that is no package |
| Scheduler.ClosedNeverYielded | buildmatrix/cli.py:374-377 | no package of a cycle, or anything depending on it, is ever yielded |
| Scheduler.SuccessMeansDefinedAcyclic | buildmatrix/cli.py:352-394 | a successful run means every dependency is a package and there is no cycle |
| Scheduler.PassProgresses | buildmatrix/cli.py:373-377 | in a graph with all dependencies defined and no cycle, every pass yields at least one more package |
| Scheduler.PassesComplete | buildmatrix/cli.py:372-390 | such a graph with at most `passes` packages left finishes within `passes` passes |
| Scheduler.ResolveSucceedsIff | buildmatrix/cli.py:352-394 | with at most 10000 packages, the run succeeds exactly when every dependency is a package and there is no cycle |
| Scheduler.StallIsFinal | buildmatrix/cli.py:372-394 | a pass that yields nothing and raises nothing repeats until the failsafe error with the same remainder |
| ScheduleExamples.DocstringExample | buildmatrix/cli.py:358-363 | `{'a': ['b', 'c'], 'b': ['c'], 'c': ['d'], 'd': []}` yields `d, c, b, a` |
| ScheduleExamples.SweepContinuesPastWaiting | buildmatrix/cli.py:372-377 | `{'a': ['b'], 'b': [], 'c': []}` yields `b, c, a` |
| ScheduleExamples.CycleExample | buildmatrix/cli.py:391-394 | `{'a': ['b'], 'b': ['a']}` yields nothing and ends with the failsafe error naming both packages |
| ScheduleExamples.UndefinedExample | buildmatrix/cli.py:381-386 | `{'a': ['z']}` ends at once with the error for `a` and `z` |
| BuildSortingExample.FixtureSchedule | buildmatrix/cli.py:352-394 | `{'package-a': [], 'package-b': ['package-a']}` yields `package-a, package-b` in one pass |
| BuildSortingExample.TwoNamesRegroup | buildmatrix/cli.py:604-605 | over the scheduled names `a, b`, variants of `b` found before those of `a` are moved behind them, each group in its own order |
| BuildSortingExample.BuildSortingFixture | buildmatrix/cli.py:602-605 | three `package-b` variants found before six `package-a` ones are built as the six `package-a` ones, then the three `package-b` ones: nine in all, the first a `package-a` variant and the seventh a `package-b` variant, as tests/test_build_sorting.py:20-23 asserts |
| Executor.IndexOfSpec | buildmatrix/cli.py:426 | `list.index` finds the first occurrence, or reports that there is none |
| Executor.NumpyArgumentSpec | buildmatrix/cli.py:425-433 | the numpy version is the token after the first `--numpy`, `''` without one, and missing when that flag is last |
| Executor.BuildCommandNumpy | buildmatrix/cli.py:425-433 | the command `decide_what_to_build` records yields its own numpy version, unless the folder or python version is itself `--numpy` |
| Executor.RunBuild | buildmatrix/cli.py:397-451 | the loop's result, launches and environment are exactly `Report` and `After` of the whole order |
| Executor.StepLaunches | buildmatrix/cli.py:434-446 | a launched variant is recorded once; its name is failed when the code is nonzero, and is a success unless that ends the run |
| Executor.StoppedStays | buildmatrix/cli.py:444 | once the loop has stopped, later variants change nothing |
| Executor.AfterEnvironment | buildmatrix/cli.py:434-435 | the environment is what the launched builds' `env_var` blocks leave behind |
| Executor.RunWithoutHalt | buildmatrix/cli.py:414-446 | while nothing stops the loop, every name goes to the success list and exactly the nonzero ones to the failed list |
| Executor.CleanLaunches | buildmatrix/cli.py:414-435 | while nothing stops the loop, every variant is launched once, in order, with its own numpy version |
| Executor.FirstHalt | buildmatrix/cli.py:426-444 | the first variant that stops the loop decides how it ends and how many builds were launched |
| Executor.FirstHaltIndex | buildmatrix/cli.py:414-444 | when some variant stops the loop there is a first one |
| Executor.RunBuildFinishes | buildmatrix/cli.py:414-451 | `run_build` returns exactly when no variant stops it, and then lists every name as a success, the nonzero ones as failed, both sorted, after one launch per variant |
| Executor.StrictStopsAtFirstFailure | buildmatrix/cli.py:439-444 | without `allow_failures`, the first failing build ends the process after it and the builds before it, and no later one |
| Executor.StrictFinishedHasNoFailures | buildmatrix/cli.py:439-451 | without `allow_failures`, a returned result lists no failure |
| Executor.NoFailedNames | buildmatrix/cli.py:439-440 | no nonzero code means no failed name |
| Executor.TolerantBuildsEverything | buildmatrix/cli.py:439-451 | with `allow_failures` every well-formed variant is launched and every name, failed ones too, is a success |
| Executor.MissingNumpyArgumentRaises | buildmatrix/cli.py:433 | a command whose first `--numpy` is its last token raises before that build is launched |
| Executor.LaunchesRestoreEnvironment | buildmatrix/cli.py:434-435 | builds hand back the environment unchanged when `CONDA_NPY` starts unset or non-empty, and delete it when it starts empty |
| Pipeline.BuiltStatus | buildmatrix/cli.py:653-655 | after the summary the status is 0 exactly when the failed list is empty |
| Pipeline.NamedMembers | buildmatrix/cli.py:604-605 | the variants kept for one name are exactly those of that package name |
| Pipeline.BuildOrderMembers | buildmatrix/cli.py:604-605 | the build order holds exactly the variants whose package name was scheduled |
| Pipeline.BuildOrderRespectsDependencies | buildmatrix/cli.py:603-605 | every variant comes after every variant of each package it depends on |
| Pipeline.BuildOrderPermutation | buildmatrix/cli.py:604-605 | with distinct names covering every package, the build order is a permutation of the variants to build |
| Pipeline.AsGraph | buildmatrix/cli.py:347-349 | the lists handed to the scheduler have the keys and members of the graph's sets |
| Pipeline.Run | buildmatrix/cli.py:563-655 | the outcome, launches and final environment of `run` are exactly `RunSpec` |
| Pipeline.PlanGraphShape | buildmatrix/cli.py:602 | the ordering graph has one key per package to build and lists only those |
| Pipeline.PlanFailsOnlyOnCycles | buildmatrix/cli.py:602-603 | the ordering never fails on an unknown dependency; with at most 10000 packages it fails exactly when there is a cycle |
| Pipeline.PlannedOrderPermutes | buildmatrix/cli.py:602-605 | on success the build order holds every variant to build exactly once |
| Pipeline.PlannedOrderRespectsDependencies | buildmatrix/cli.py:602-605 | on success every variant is built after every variant of each package its recipe depends on; the edges are those of the last recipe read for each package name, which differs from a variant's own recipe only when two folders declare the same package |
| Pipeline.BuildsUnderOwnNumpy | buildmatrix/cli.py:246-248 | a variant to build is launched with its own command and `CONDA_NPY` set to its own numpy version, unless its folder or python version is itself `--numpy` |
| Pipeline.FailedNamesEmpty | buildmatrix/cli.py:642-655 | the failed list is empty exactly when every build returned 0 |
| Pipeline.FromBuildSummary | buildmatrix/cli.py:622-655 | a run that reaches the summary launched every variant once, in order; success is every name sorted, already-built is the skipped names sorted; status 0 exactly when every build returned 0; nothing failed without `allow_failures` |
| Pipeline.RunBuiltSummary | buildmatrix/cli.py:585-623 | reaching the summary means the folder exists, it was no dry run, something was to build, the ordering succeeded and the order permutes the variants to build |
| Pipeline.FromBuildEnds | buildmatrix/cli.py:622-655 | the `try` block ends in exactly one of the three ways `run_build` can end |
| Pipeline.FromPlanLaunches | buildmatrix/cli.py:597-623 | after classification only the builds launch anything, and the ordering fails only with the unresolved remainder |
| Pipeline.RunLaunchesOnlyWhenBuilding | buildmatrix/cli.py:585-623 | `run` launches nothing unless it gets to `run_build`, and its ordering fails only with the unresolved remainder |

## Left out

- Recipe discovery: the folder walk, the `meta.yaml` tests and `MetaData` parsing are not modelled. Recipes arrive as a list of name, folder and the three requirement lists, in folder order.
- A requirement list that is present but empty (`None`) in `meta.yaml` is not modelled. `build_dependency_graph` would fail on it.
- `determine_build_name` and `check_output` are an input function. It returns the printed path or a failure (`RuntimeError`). The recorded command is the dry-run command without `--output`.
- `get_file_names_on_anaconda_channel` is not modelled: the channel's names are an input set.
- `Popen` is an input too: each build's return code, by position. Its output capture, logging, exceptions and the tracked-process set are left out.
- `handle_signal` and the shutdown flag are left out. Signals are concurrency, outside this sequential model.
- The CLI parsing, `init_logging`, the log lines and the plan file written by `run` are not modelled.
- `os.path.exists` is a boolean input.
- `DependencyGraph.BuildDependencyGraph`: the source keeps each value as a list made from a set, in the set's unspecified iteration order. The model keeps the set, and `Pipeline.AsGraph` lists it sorted before scheduling. The order values are listed in does not affect which packages are ready.
- `DependencyGraph.KeepPackageEdges`: picks the keys to filter in an arbitrary order, where the source uses the dictionary's order. The result is the same either way.
- `Scheduler.ResolveDependencies`: its result is the whole generator run. Interleaving with the lazy consumer is not modelled. The consumer, the build-order comprehension, reads every name before anything else happens.
- `Pipeline.Run`: an exception raised by `run_build` other than the `IndexError` of a misplaced `--numpy` is not modelled. Those exceptions come from `Popen`.
- `BuildSortingExample.BuildSortingFixture`: takes as given the dependency graph of the two example recipes, `package-b` requiring `package-a`, and how many variants each recipe has. The example recipe files are not part of this model, so those facts are not derived from `build_dependency_graph` and `decide_what_to_build`.
