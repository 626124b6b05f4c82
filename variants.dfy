/**
  Variant expansion and skip classification: the loop of `decide_what_to_build`
  in buildmatrix/cli.py. For each recipe, in the order given, the numpy axis
  collapses to the default unless the build requirements list `numpy x.x`, the
  python axis collapses to the default unless build or run requirements list
  `python`, and the variants are the Cartesian product with python outermost.
  Each variant's dry run (`conda build --output`) is an input: it either fails
  (a `RuntimeError`, the variant is dropped) or yields a path. A path without
  `.tar.bz` is dropped as well; otherwise the variant's build name, the last two
  path segments, decides whether it is already on the channel or still to build.

  Recipe discovery on disk and recipe parsing are not part of this model: the
  recipes arrive as a list with their name and dependency lists.
 */
module Variants {
  import opened Wrappers
  import opened Text
  import opened Environ

  const DefaultPython: string := "3.5"
  const DefaultNumpy: string := "1.11"
  /** The build requirement that asks for one build per numpy version. */
  const NumpyPlaceholder: string := "numpy x.x"
  const PythonRequirement: string := "python"
  /** The environment variable the dry run and the build see the numpy version in. */
  const NumpyVariable: string := "CONDA_NPY"
  /** `os.sep` on the build hosts this models. */
  const PathSep: char := '/'
  const ArchiveMarker: string := ".tar.bz"

  /** A recipe folder: where it is, the package name and its three requirement lists. */
  datatype Recipe = Recipe(dir: string, name: string, build: seq<string>, run: seq<string>, test: seq<string>)

  /** What `determine_build_name` reports for one variant. */
  datatype DryRun = DryRunFailed | DryRunPath(path: string)

  /** A recipe together with the fields `decide_what_to_build` attaches to its metadata. */
  datatype Variant = Variant(
    recipe: Recipe, python: string, numpy: string,
    fullBuildPath: string, buildName: string, buildCommand: seq<string>)

  /** One (recipe, python, numpy) combination to ask the dry run about. */
  datatype Probe = Probe(recipe: Recipe, python: string, numpy: string)

  /** The three-way outcome for one variant (two ways of being dropped). */
  datatype Verdict = DryRunError | NotAnArchive | OnChannel(variant: Variant) | NeedsBuild(variant: Variant)

  /** The dry-run oracle, given the recipe folder, the python version and the numpy version. */
  type DryRunner = (string, string, string) -> DryRun

  function NumpyVersions(r: Recipe, numpy: seq<string>): seq<string>
  {
    if NumpyPlaceholder in r.build then numpy else [DefaultNumpy]
  }

  function PythonVersions(r: Recipe, python: seq<string>): seq<string>
  {
    if PythonRequirement in r.build + r.run then python else [DefaultPython]
  }

  /** `itertools.product(xs, ys)`: `xs` is the outer loop. */
  function Product(xs: seq<string>, ys: seq<string>): (r: seq<(string, string)>)
    ensures |r| == |xs| * |ys|
  {
    if xs == [] then []
    else
      var rest := Product(xs[1..], ys);
      assert |xs| * |ys| == |ys| + (|xs| - 1) * |ys|;
      seq(|ys|, j requires 0 <= j < |ys| => (xs[0], ys[j])) + rest
  }

  /** Pair `(xs[i], ys[j])` sits at index `i * |ys| + j` of the product. */
  lemma {:induction false} ProductAt(xs: seq<string>, ys: seq<string>, i: nat, j: nat)
    requires i < |xs| && j < |ys|
    ensures i * |ys| + j < |Product(xs, ys)|
    ensures Product(xs, ys)[i * |ys| + j] == (xs[i], ys[j])
  {
    var first := seq(|ys|, k requires 0 <= k < |ys| => (xs[0], ys[k]));
    var rest := Product(xs[1..], ys);
    assert Product(xs, ys) == first + rest;
    if i == 0 {
      assert i * |ys| + j == j;
      assert (first + rest)[j] == first[j];
    } else {
      ProductAt(xs[1..], ys, i - 1, j);
      var k := (i - 1) * |ys| + j;
      assert i * |ys| + j == |ys| + k by { MulStep(i, |ys|); }
      assert (first + rest)[|ys| + k] == rest[k];
      assert xs[1..][i - 1] == xs[i];
    }
  }

  lemma MulStep(i: int, n: int)
    ensures i * n == n + (i - 1) * n
  {
  }

  /** Every pair of the product takes its first part from `xs` and its second from `ys`. */
  lemma {:induction false} ProductMembers(xs: seq<string>, ys: seq<string>, k: nat)
    requires k < |Product(xs, ys)|
    ensures Product(xs, ys)[k].0 in xs && Product(xs, ys)[k].1 in ys
  {
    if k >= |ys| {
      ProductMembers(xs[1..], ys, k - |ys|);
    }
  }

  /** The variants of one recipe, in `itertools.product` order. */
  function RecipeProbes(r: Recipe, python: seq<string>, numpy: seq<string>): seq<Probe>
  {
    ProbesOf(r, Product(PythonVersions(r, python), NumpyVersions(r, numpy)))
  }

  /** The recipe paired with each (python, numpy) combination. */
  function ProbesOf(r: Recipe, pairs: seq<(string, string)>): (ps: seq<Probe>)
    ensures |ps| == |pairs|
    ensures forall k :: 0 <= k < |pairs| ==> ps[k] == Probe(r, pairs[k].0, pairs[k].1)
  {
    seq(|pairs|, k requires 0 <= k < |pairs| => Probe(r, pairs[k].0, pairs[k].1))
  }

  /** All variants of all recipes, recipe by recipe. */
  function Probes(recipes: seq<Recipe>, python: seq<string>, numpy: seq<string>): seq<Probe>
  {
    if recipes == [] then []
    else Probes(recipes[..|recipes| - 1], python, numpy) + RecipeProbes(recipes[|recipes| - 1], python, numpy)
  }

  /** The build command `determine_build_name` returns: its dry-run command without `--output`. */
  function BuildCommand(dir: string, python: string, numpy: string): seq<string>
  {
    ["conda", "build", dir, "--python", python, "--numpy", numpy]
  }

  function Judge(p: Probe, result: DryRun, packages: set<string>): Verdict
  {
    match result
    case DryRunFailed => DryRunError
    case DryRunPath(path) =>
      if !Contains(path, ArchiveMarker) then NotAnArchive
      else
        var v := Variant(p.recipe, p.python, p.numpy, path, LastTwoSegments(path, PathSep),
                         BuildCommand(p.recipe.dir, p.python, p.numpy));
        if v.buildName in packages then OnChannel(v) else NeedsBuild(v)
  }

  function Ask(dryRun: DryRunner, p: Probe): DryRun
  {
    dryRun(p.recipe.dir, p.python, p.numpy)
  }

  /** `metas_to_build`: the variants judged `NeedsBuild`, in probe order. */
  function ToBuild(ps: seq<Probe>, dryRun: DryRunner, packages: set<string>): seq<Variant>
  {
    if ps == [] then []
    else
      var p := ps[|ps| - 1];
      ToBuild(ps[..|ps| - 1], dryRun, packages)
        + match Judge(p, Ask(dryRun, p), packages) case NeedsBuild(v) => [v] case _ => []
  }

  /** `metas_not_to_build`: the variants judged `OnChannel`, in probe order. */
  function NotToBuild(ps: seq<Probe>, dryRun: DryRunner, packages: set<string>): seq<Variant>
  {
    if ps == [] then []
    else
      var p := ps[|ps| - 1];
      NotToBuild(ps[..|ps| - 1], dryRun, packages)
        + match Judge(p, Ask(dryRun, p), packages) case OnChannel(v) => [v] case _ => []
  }

  /** The environment after the `with env_var('CONDA_NPY', npy)` block around every dry run. */
  function EnvAfterProbes(vars: map<string, string>, ps: seq<Probe>, dryRun: DryRunner): map<string, string>
  {
    if ps == [] then vars
    else
      var p := ps[|ps| - 1];
      var before := EnvAfterProbes(vars, ps[..|ps| - 1], dryRun);
      if Ask(dryRun, p).DryRunFailed? then AfterRaisingScope(before, NumpyVariable, p.numpy)
      else AfterScope(before, NumpyVariable, p.numpy)
  }

  lemma ProbesExtend(recipes: seq<Recipe>, python: seq<string>, numpy: seq<string>, i: nat)
    requires i < |recipes|
    ensures Probes(recipes[..i + 1], python, numpy)
         == Probes(recipes[..i], python, numpy) + RecipeProbes(recipes[i], python, numpy)
  {
    assert recipes[..i + 1][..i] == recipes[..i];
  }

  /** How the three specifications grow by one probe. */
  lemma Extend(vars: map<string, string>, ps: seq<Probe>, p: Probe, dryRun: DryRunner, packages: set<string>)
    ensures ToBuild(ps + [p], dryRun, packages) == ToBuild(ps, dryRun, packages)
      + match Judge(p, Ask(dryRun, p), packages) case NeedsBuild(v) => [v] case _ => []
    ensures NotToBuild(ps + [p], dryRun, packages) == NotToBuild(ps, dryRun, packages)
      + match Judge(p, Ask(dryRun, p), packages) case OnChannel(v) => [v] case _ => []
    ensures EnvAfterProbes(vars, ps + [p], dryRun) ==
      if Ask(dryRun, p).DryRunFailed? then AfterRaisingScope(EnvAfterProbes(vars, ps, dryRun), NumpyVariable, p.numpy)
      else AfterScope(EnvAfterProbes(vars, ps, dryRun), NumpyVariable, p.numpy)
  {
    assert (ps + [p])[..|ps|] == ps;
  }

  /** The three specifications distribute over concatenation of probe lists. */
  lemma {:induction false} Concat(vars: map<string, string>, ps: seq<Probe>, qs: seq<Probe>, dryRun: DryRunner, packages: set<string>)
    ensures ToBuild(ps + qs, dryRun, packages) == ToBuild(ps, dryRun, packages) + ToBuild(qs, dryRun, packages)
    ensures NotToBuild(ps + qs, dryRun, packages) == NotToBuild(ps, dryRun, packages) + NotToBuild(qs, dryRun, packages)
    ensures EnvAfterProbes(vars, ps + qs, dryRun) == EnvAfterProbes(EnvAfterProbes(vars, ps, dryRun), qs, dryRun)
    decreases |qs|
  {
    if qs == [] {
      assert ps + qs == ps;
    } else {
      var init, last := qs[..|qs| - 1], qs[|qs| - 1];
      assert qs == init + [last];
      assert ps + qs == (ps + init) + [last];
      Concat(vars, ps, init, dryRun, packages);
      Extend(vars, ps + init, last, dryRun, packages);
      Extend(EnvAfterProbes(vars, ps, dryRun), init, last, dryRun, packages);
    }
  }

  /**
    The body of the inner loop of `decide_what_to_build`: the dry run inside
    `with env_var('CONDA_NPY', npy)`, then the classification. On a failed dry
    run the `RuntimeError` leaves the block before its restoring half runs.
   */
  method ProbeVariant(env: Environment, recipe: Recipe, py: string, npy: string,
                      packages: set<string>, dryRun: DryRunner)
    returns (verdict: Verdict)
    modifies env
    ensures verdict == Judge(Probe(recipe, py, npy), dryRun(recipe.dir, py, npy), packages)
    ensures env.vars == if dryRun(recipe.dir, py, npy).DryRunFailed?
                        then AfterRaisingScope(old(env.vars), NumpyVariable, npy)
                        else AfterScope(old(env.vars), NumpyVariable, npy)
  {
    var saved := env.Enter(NumpyVariable, npy);
    var result := dryRun(recipe.dir, py, npy);
    if result.DryRunFailed? {
      return DryRunError;
    }
    env.Leave(NumpyVariable, saved);
    var path := result.path;
    if !Contains(path, ArchiveMarker) {
      return NotAnArchive;
    }
    var name := LastTwoSegments(path, PathSep);
    var meta := Variant(recipe, py, npy, path, name, BuildCommand(recipe.dir, py, npy));
    if name in packages {
      verdict := OnChannel(meta);
    } else {
      verdict := NeedsBuild(meta);
    }
  }

  /** The variant loop of `decide_what_to_build` for one recipe: its axes, their product, each variant judged. */
  method ProbeRecipe(env: Environment, recipe: Recipe, python: seq<string>, numpy: seq<string>,
                     packages: set<string>, dryRun: DryRunner)
    returns (toBuild: seq<Variant>, notToBuild: seq<Variant>)
    modifies env
    ensures toBuild == ToBuild(RecipeProbes(recipe, python, numpy), dryRun, packages)
    ensures notToBuild == NotToBuild(RecipeProbes(recipe, python, numpy), dryRun, packages)
    ensures env.vars == EnvAfterProbes(old(env.vars), RecipeProbes(recipe, python, numpy), dryRun)
  {
    // only recipes that pin numpy with `numpy x.x` get one build per numpy version
    var numpyBuildVersions := numpy;
    if NumpyPlaceholder !in recipe.build {
      numpyBuildVersions := [DefaultNumpy];
    }
    var pythonBuildVersions := python;
    if PythonRequirement !in recipe.build + recipe.run {
      pythonBuildVersions := [DefaultPython];
    }
    var variants := Product(pythonBuildVersions, numpyBuildVersions);
    toBuild, notToBuild := ProbeVariants(env, recipe, variants, packages, dryRun);
  }

  /** The inner loop of `decide_what_to_build`: every (python, numpy) combination of one recipe, in order. */
  method ProbeVariants(env: Environment, recipe: Recipe, variants: seq<(string, string)>,
                       packages: set<string>, dryRun: DryRunner)
    returns (toBuild: seq<Variant>, notToBuild: seq<Variant>)
    modifies env
    ensures toBuild == ToBuild(ProbesOf(recipe, variants), dryRun, packages)
    ensures notToBuild == NotToBuild(ProbesOf(recipe, variants), dryRun, packages)
    ensures env.vars == EnvAfterProbes(old(env.vars), ProbesOf(recipe, variants), dryRun)
  {
    ghost var mine := ProbesOf(recipe, variants);
    toBuild, notToBuild := [], [];
    var j := 0;
    while j < |variants|
      invariant 0 <= j <= |variants|
      invariant toBuild == ToBuild(mine[..j], dryRun, packages)
      invariant notToBuild == NotToBuild(mine[..j], dryRun, packages)
      invariant env.vars == EnvAfterProbes(old(env.vars), mine[..j], dryRun)
    {
      var py, npy := variants[j].0, variants[j].1;
      assert mine[..j + 1] == mine[..j] + [Probe(recipe, py, npy)];
      Extend(old(env.vars), mine[..j], Probe(recipe, py, npy), dryRun, packages);
      var verdict := ProbeVariant(env, recipe, py, npy, packages, dryRun);
      if verdict.OnChannel? {
        notToBuild := notToBuild + [verdict.variant];
      } else if verdict.NeedsBuild? {
        toBuild := toBuild + [verdict.variant];
      }
      j := j + 1;
    }
    assert mine[..|variants|] == mine;
  }

  /** The recipe loop of `decide_what_to_build`. */
  method DecideWhatToBuild(env: Environment, recipes: seq<Recipe>, python: seq<string>, numpy: seq<string>,
                           packages: set<string>, dryRun: DryRunner)
    returns (toBuild: seq<Variant>, notToBuild: seq<Variant>)
    modifies env
    ensures toBuild == ToBuild(Probes(recipes, python, numpy), dryRun, packages)
    ensures notToBuild == NotToBuild(Probes(recipes, python, numpy), dryRun, packages)
    ensures env.vars == EnvAfterProbes(old(env.vars), Probes(recipes, python, numpy), dryRun)
  {
    toBuild, notToBuild := [], [];
    var i := 0;
    while i < |recipes|
      invariant 0 <= i <= |recipes|
      invariant toBuild == ToBuild(Probes(recipes[..i], python, numpy), dryRun, packages)
      invariant notToBuild == NotToBuild(Probes(recipes[..i], python, numpy), dryRun, packages)
      invariant env.vars == EnvAfterProbes(old(env.vars), Probes(recipes[..i], python, numpy), dryRun)
    {
      ghost var envBefore := env.vars;
      var more, skipped := ProbeRecipe(env, recipes[i], python, numpy, packages, dryRun);
      ProbesExtend(recipes, python, numpy, i);
      Concat(old(env.vars), Probes(recipes[..i], python, numpy), RecipeProbes(recipes[i], python, numpy), dryRun, packages);
      toBuild := toBuild + more;
      notToBuild := notToBuild + skipped;
      i := i + 1;
    }
    assert recipes[..|recipes|] == recipes;
  }


  /**
    Each recipe yields one variant per pair of its python and numpy axes,
    python outermost: variant `i * |numpy axis| + j` pairs python version `i`
    with numpy version `j`.
   */
  lemma RecipeProbesLayout(r: Recipe, python: seq<string>, numpy: seq<string>, i: nat, j: nat)
    ensures |RecipeProbes(r, python, numpy)| == |PythonVersions(r, python)| * |NumpyVersions(r, numpy)|
    ensures i < |PythonVersions(r, python)| && j < |NumpyVersions(r, numpy)| ==>
      var k := i * |NumpyVersions(r, numpy)| + j;
      k < |RecipeProbes(r, python, numpy)| &&
      RecipeProbes(r, python, numpy)[k] == Probe(r, PythonVersions(r, python)[i], NumpyVersions(r, numpy)[j])
  {
    if i < |PythonVersions(r, python)| && j < |NumpyVersions(r, numpy)| {
      ProductAt(PythonVersions(r, python), NumpyVersions(r, numpy), i, j);
    }
  }

  /**
    The axes collapse: without the exact build requirement `numpy x.x` every
    variant of the recipe builds against numpy 1.11, without `python` among the
    build or run requirements every variant builds for python 3.5; otherwise
    the versions come from the axes given.
   */
  lemma {:induction false} RecipeProbesAxes(r: Recipe, python: seq<string>, numpy: seq<string>, k: nat)
    requires k < |RecipeProbes(r, python, numpy)|
    ensures RecipeProbes(r, python, numpy)[k].recipe == r
    ensures RecipeProbes(r, python, numpy)[k].numpy == DefaultNumpy || (NumpyPlaceholder in r.build && RecipeProbes(r, python, numpy)[k].numpy in numpy)
    ensures NumpyPlaceholder !in r.build ==> RecipeProbes(r, python, numpy)[k].numpy == DefaultNumpy
    ensures NumpyPlaceholder in r.build ==> RecipeProbes(r, python, numpy)[k].numpy in numpy
    ensures PythonRequirement !in r.build + r.run ==> RecipeProbes(r, python, numpy)[k].python == DefaultPython
    ensures PythonRequirement in r.build + r.run ==> RecipeProbes(r, python, numpy)[k].python in python
  {
    ProductMembers(PythonVersions(r, python), NumpyVersions(r, numpy), k);
  }

  /** A variant is to be built exactly when its dry run gave an archive path whose build name is not on the channel. */
  lemma JudgeNeedsBuild(p: Probe, result: DryRun, packages: set<string>, v: Variant)
    ensures Judge(p, result, packages) == NeedsBuild(v) <==>
      && result == DryRunPath(v.fullBuildPath)
      && Contains(v.fullBuildPath, ArchiveMarker)
      && v == Variant(p.recipe, p.python, p.numpy, v.fullBuildPath, LastTwoSegments(v.fullBuildPath, PathSep),
                      BuildCommand(p.recipe.dir, p.python, p.numpy))
      && v.buildName !in packages
  {
  }

  /** A variant is skipped as already built exactly when its dry run gave an archive path whose build name is on the channel. */
  lemma JudgeOnChannel(p: Probe, result: DryRun, packages: set<string>, v: Variant)
    ensures Judge(p, result, packages) == OnChannel(v) <==>
      && result == DryRunPath(v.fullBuildPath)
      && Contains(v.fullBuildPath, ArchiveMarker)
      && v == Variant(p.recipe, p.python, p.numpy, v.fullBuildPath, LastTwoSegments(v.fullBuildPath, PathSep),
                      BuildCommand(p.recipe.dir, p.python, p.numpy))
      && v.buildName in packages
  {
  }

  /** The to-build list holds exactly the variants some probe was judged to need built. */
  lemma {:induction false} ToBuildMembers(ps: seq<Probe>, dryRun: DryRunner, packages: set<string>, v: Variant)
    ensures v in ToBuild(ps, dryRun, packages) <==>
      exists p :: p in ps && Judge(p, Ask(dryRun, p), packages) == NeedsBuild(v)
  {
    if ps != [] {
      var init, p := ps[..|ps| - 1], ps[|ps| - 1];
      assert ps == init + [p];
      ToBuildMembers(init, dryRun, packages, v);
      if exists q :: q in ps && Judge(q, Ask(dryRun, q), packages) == NeedsBuild(v) {
        var q :| q in ps && Judge(q, Ask(dryRun, q), packages) == NeedsBuild(v);
        if q != p {
          assert q in init;
        }
      }
    }
  }

  /** The not-to-build list holds exactly the variants some probe found on the channel. */
  lemma {:induction false} NotToBuildMembers(ps: seq<Probe>, dryRun: DryRunner, packages: set<string>, v: Variant)
    ensures v in NotToBuild(ps, dryRun, packages) <==>
      exists p :: p in ps && Judge(p, Ask(dryRun, p), packages) == OnChannel(v)
  {
    if ps != [] {
      var init, p := ps[..|ps| - 1], ps[|ps| - 1];
      assert ps == init + [p];
      NotToBuildMembers(init, dryRun, packages, v);
      if exists q :: q in ps && Judge(q, Ask(dryRun, q), packages) == OnChannel(v) {
        var q :| q in ps && Judge(q, Ask(dryRun, q), packages) == OnChannel(v);
        if q != p {
          assert q in init;
        }
      }
    }
  }

  /**
    Every variant to be built comes from a probe of its own recipe and versions,
    its dry run printed an archive path, its build name is the last two segments
    of that path and is not on the channel, and its command builds that recipe
    for those versions.
   */
  lemma ToBuildSound(ps: seq<Probe>, dryRun: DryRunner, packages: set<string>, v: Variant)
    requires v in ToBuild(ps, dryRun, packages)
    ensures Probe(v.recipe, v.python, v.numpy) in ps
    ensures dryRun(v.recipe.dir, v.python, v.numpy) == DryRunPath(v.fullBuildPath)
    ensures Contains(v.fullBuildPath, ArchiveMarker)
    ensures v.buildName == LastTwoSegments(v.fullBuildPath, PathSep) && v.buildName !in packages
    ensures v.buildCommand == BuildCommand(v.recipe.dir, v.python, v.numpy)
  {
    ToBuildMembers(ps, dryRun, packages, v);
    var p :| p in ps && Judge(p, Ask(dryRun, p), packages) == NeedsBuild(v);
    JudgeNeedsBuild(p, Ask(dryRun, p), packages, v);
  }

  /** Every probe whose dry run prints an archive path not on the channel gives a variant to build. */
  lemma ToBuildComplete(ps: seq<Probe>, dryRun: DryRunner, packages: set<string>, p: Probe, path: string)
    requires p in ps && Ask(dryRun, p) == DryRunPath(path) && Contains(path, ArchiveMarker)
    requires LastTwoSegments(path, PathSep) !in packages
    ensures Variant(p.recipe, p.python, p.numpy, path, LastTwoSegments(path, PathSep),
                    BuildCommand(p.recipe.dir, p.python, p.numpy)) in ToBuild(ps, dryRun, packages)
  {
    var v := Variant(p.recipe, p.python, p.numpy, path, LastTwoSegments(path, PathSep),
                     BuildCommand(p.recipe.dir, p.python, p.numpy));
    ToBuildMembers(ps, dryRun, packages, v);
  }

  /** Every probe whose dry run prints an archive path already on the channel gives a variant to skip. */
  lemma NotToBuildComplete(ps: seq<Probe>, dryRun: DryRunner, packages: set<string>, p: Probe, path: string)
    requires p in ps && Ask(dryRun, p) == DryRunPath(path) && Contains(path, ArchiveMarker)
    requires LastTwoSegments(path, PathSep) in packages
    ensures Variant(p.recipe, p.python, p.numpy, path, LastTwoSegments(path, PathSep),
                    BuildCommand(p.recipe.dir, p.python, p.numpy)) in NotToBuild(ps, dryRun, packages)
  {
    var v := Variant(p.recipe, p.python, p.numpy, path, LastTwoSegments(path, PathSep),
                     BuildCommand(p.recipe.dir, p.python, p.numpy));
    NotToBuildMembers(ps, dryRun, packages, v);
  }

  /** No variant is both to be built and to be skipped. */
  lemma ToBuildDisjoint(ps: seq<Probe>, dryRun: DryRunner, packages: set<string>, v: Variant)
    ensures !(v in ToBuild(ps, dryRun, packages) && v in NotToBuild(ps, dryRun, packages))
  {
    ToBuildMembers(ps, dryRun, packages, v);
    NotToBuildMembers(ps, dryRun, packages, v);
    if v in ToBuild(ps, dryRun, packages) && v in NotToBuild(ps, dryRun, packages) {
      var p :| p in ps && Judge(p, Ask(dryRun, p), packages) == NeedsBuild(v);
      var q :| q in ps && Judge(q, Ask(dryRun, q), packages) == OnChannel(v);
      JudgeNeedsBuild(p, Ask(dryRun, p), packages, v);
      JudgeOnChannel(q, Ask(dryRun, q), packages, v);
    }
  }

  /** The probes whose dry run printed a path containing `.tar.bz`. */
  function Archived(ps: seq<Probe>, dryRun: DryRunner): nat
  {
    if ps == [] then 0
    else
      var p := ps[|ps| - 1];
      Archived(ps[..|ps| - 1], dryRun)
        + match Ask(dryRun, p) case DryRunPath(path) => if Contains(path, ArchiveMarker) then 1 else 0 case _ => 0
  }

  /** The two lists together keep one variant per archived probe; the others are dropped. */
  lemma {:induction false} ListsCoverArchived(ps: seq<Probe>, dryRun: DryRunner, packages: set<string>)
    ensures |ToBuild(ps, dryRun, packages)| + |NotToBuild(ps, dryRun, packages)| == Archived(ps, dryRun)
    ensures Archived(ps, dryRun) <= |ps|
  {
    if ps != [] {
      ListsCoverArchived(ps[..|ps| - 1], dryRun, packages);
    }
  }

  /**
    When no dry run fails and `CONDA_NPY` starts out unset or non-empty, the
    probes hand the environment back unchanged.
   */
  lemma {:induction false} ProbesRestoreEnvironment(vars: map<string, string>, ps: seq<Probe>, dryRun: DryRunner)
    requires NumpyVariable !in vars || vars[NumpyVariable] != ""
    requires forall k :: 0 <= k < |ps| ==> !Ask(dryRun, ps[k]).DryRunFailed?
    ensures EnvAfterProbes(vars, ps, dryRun) == vars
  {
    if ps != [] {
      ProbesRestoreEnvironment(vars, ps[..|ps| - 1], dryRun);
      AfterScopeRestores(vars, NumpyVariable, ps[|ps| - 1].numpy);
    }
  }

  /** A dry run that fails leaves `CONDA_NPY` at that variant's numpy version. */
  lemma FailedProbeLeavesNumpy(vars: map<string, string>, ps: seq<Probe>, dryRun: DryRunner)
    requires ps != [] && Ask(dryRun, ps[|ps| - 1]).DryRunFailed?
    ensures Lookup(EnvAfterProbes(vars, ps, dryRun), NumpyVariable) == Some(ps[|ps| - 1].numpy)
  {
  }
}
