/**
  `run_build` of buildmatrix/cli.py: the builds themselves, in the order given.
  For every variant the numpy version is read off its build command (the token
  after the first `--numpy`, or the empty string when there is no such flag),
  the command runs inside `with env_var('CONDA_NPY', np)`, and its return code
  decides whether the build name is also recorded as failed. Without
  `allow_failures` the first failure ends the process with `sys.exit(1)`; a
  `--numpy` in last position makes the list lookup raise `IndexError` before
  anything is launched for that variant.

  The builds are not run here: `returnCode(k)` is the return code the `k`-th
  launched command reports.
 */
module Executor {
  import opened Wrappers
  import opened Lexicographic
  import opened Environ
  import opened Variants

  const NumpyFlag: string := "--numpy"

  /** What `build_command[build_command.index('--numpy') + 1]` gives, with `''` for a missing flag. */
  datatype NumpyArg = Token(value: string) | MissingArgument

  /** One `Popen(build_command)` call and the `CONDA_NPY` it ran under. */
  datatype Launch = Launch(command: seq<string>, condaNpy: string)

  /** How `run_build` ended early: `sys.exit(1)` or the `IndexError`. */
  datatype Stop = ExitOne | BadNumpyFlag

  /** The state of the loop of `run_build` after some of the variants. */
  datatype Progress = Progress(
    success: seq<string>, failed: seq<string>, launched: seq<Launch>,
    vars: map<string, string>, stop: Option<Stop>)

  /** What a call to `run_build` amounts to: its returned dictionary, `SystemExit(1)`, or the `IndexError`. */
  datatype BuildOutcome = Finished(success: seq<string>, failed: seq<string>) | Exited | Raised

  /** `list.index`: the first position holding `x`, if any. */
  function IndexOf(xs: seq<string>, x: string): Option<nat>
  {
    if xs == [] then None
    else if xs[0] == x then Some(0)
    else
      var rest := IndexOf(xs[1..], x);
      if rest.None? then None else Some(rest.value + 1)
  }

  lemma {:induction false} IndexOfSpec(xs: seq<string>, x: string)
    ensures IndexOf(xs, x).None? <==> x !in xs
    ensures IndexOf(xs, x).Some? ==>
      var i := IndexOf(xs, x).value; i < |xs| && xs[i] == x && x !in xs[..i]
  {
    if xs != [] && xs[0] != x {
      IndexOfSpec(xs[1..], x);
      var rest := IndexOf(xs[1..], x);
      if rest.Some? {
        assert xs[..rest.value + 1] == [xs[0]] + xs[1..][..rest.value];
      }
    }
  }

  function NumpyArgument(cmd: seq<string>): NumpyArg
  {
    match IndexOf(cmd, NumpyFlag)
    case None => Token("")
    case Some(i) => if i + 1 < |cmd| then Token(cmd[i + 1]) else MissingArgument
  }

  /**
    The numpy version is the token right after the first `--numpy`; with no
    `--numpy` it is the empty string; a first `--numpy` in last position has no
    token after it.
   */
  lemma NumpyArgumentSpec(cmd: seq<string>, i: nat)
    ensures NumpyFlag !in cmd ==> NumpyArgument(cmd) == Token("")
    ensures i < |cmd| && cmd[i] == NumpyFlag && NumpyFlag !in cmd[..i] ==>
      NumpyArgument(cmd) == if i + 1 < |cmd| then Token(cmd[i + 1]) else MissingArgument
  {
    IndexOfSpec(cmd, NumpyFlag);
  }

  /** The commands `decide_what_to_build` records carry their own numpy version. */
  lemma BuildCommandNumpy(dir: string, python: string, numpy: string)
    requires dir != NumpyFlag && python != NumpyFlag
    ensures NumpyArgument(BuildCommand(dir, python, numpy)) == Token(numpy)
  {
    var cmd := BuildCommand(dir, python, numpy);
    assert cmd[5] == NumpyFlag;
    assert cmd[..5] == ["conda", "build", dir, "--python", python];
    NumpyArgumentSpec(cmd, 5);
  }

  /** A variant whose build command makes the `--numpy` lookup raise. */
  predicate Malformed(v: Variant)
  {
    NumpyArgument(v.buildCommand).MissingArgument?
  }

  /** The `Popen` call for a variant that gets that far. */
  function LaunchOf(v: Variant): Launch
    requires !Malformed(v)
  {
    Launch(v.buildCommand, NumpyArgument(v.buildCommand).value)
  }

  /** One iteration of the loop of `run_build`; `code` is what the build returns. */
  function Step(p: Progress, v: Variant, code: int, allowFailures: bool): Progress
  {
    if p.stop.Some? then p
    else match NumpyArgument(v.buildCommand)
      case MissingArgument => p.(stop := Some(BadNumpyFlag))
      case Token(np) =>
        var launched := p.launched + [Launch(v.buildCommand, np)];
        var vars := AfterScope(p.vars, NumpyVariable, np);
        var failed := p.failed + if code != 0 then [v.buildName] else [];
        if code != 0 && !allowFailures then Progress(p.success, failed, launched, vars, Some(ExitOne))
        else Progress(p.success + [v.buildName], failed, launched, vars, None)
  }

  /** The loop state after the first `n` variants of `order`. */
  function After(order: seq<Variant>, returnCode: nat -> int, allowFailures: bool,
                 vars: map<string, string>, n: nat): Progress
    requires n <= |order|
  {
    if n == 0 then Progress([], [], [], vars, None)
    else
      var k := n - 1;
      Step(After(order, returnCode, allowFailures, vars, k), order[k], returnCode(k), allowFailures)
  }

  /** How the whole call ends, given the loop state after the last variant. */
  function Report(p: Progress): BuildOutcome
  {
    match p.stop
    case None => Finished(Sort(p.success), Sort(p.failed))
    case Some(ExitOne) => Exited
    case Some(BadNumpyFlag) => Raised
  }

  /** `run_build(build_order, allow_failures)`, launching through the environment it is given. */
  method RunBuild(env: Environment, buildOrder: seq<Variant>, returnCode: nat -> int, allowFailures: bool)
    returns (outcome: BuildOutcome, launched: seq<Launch>)
    modifies env
    ensures var p := After(buildOrder, returnCode, allowFailures, old(env.vars), |buildOrder|);
            outcome == Report(p) && launched == p.launched && env.vars == p.vars
  {
    var buildOrTestFailed: seq<string> := [];
    var buildSuccess: seq<string> := [];
    launched := [];
    ghost var vars0 := env.vars;
    var stop: Option<Stop> := None;
    var i := 0;
    while i < |buildOrder| && stop.None?
      invariant 0 <= i <= |buildOrder|
      invariant After(buildOrder, returnCode, allowFailures, vars0, i)
             == Progress(buildSuccess, buildOrTestFailed, launched, env.vars, stop)
    {
      ghost var before := Progress(buildSuccess, buildOrTestFailed, launched, env.vars, stop);
      var meta := buildOrder[i];
      var buildCommand := meta.buildCommand;
      var np := "";
      var npIdx := IndexOf(buildCommand, NumpyFlag);
      IndexOfSpec(buildCommand, NumpyFlag);
      if npIdx.Some? && npIdx.value + 1 >= |buildCommand| {
        // the IndexError of `build_command[np_idx+1]`
        stop := Some(BadNumpyFlag);
      } else {
        if npIdx.Some? {
          np := buildCommand[npIdx.value + 1];
        }
        var saved := env.Enter(NumpyVariable, np);
        launched := launched + [Launch(buildCommand, np)];
        var code := returnCode(i);
        env.Leave(NumpyVariable, saved);
        StepLaunches(before, meta, code, allowFailures, np);
        if code != 0 {
          buildOrTestFailed := buildOrTestFailed + [meta.buildName];
          if !allowFailures {
            stop := Some(ExitOne);
          }
        }
        if stop.None? {
          buildSuccess := buildSuccess + [meta.buildName];
        }
      }
      i := i + 1;
    }
    if stop.Some? {
      StoppedStays(buildOrder, returnCode, allowFailures, vars0, i, |buildOrder|);
    }
    outcome := match stop
      case None => Finished(Sort(buildSuccess), Sort(buildOrTestFailed))
      case Some(ExitOne) => Exited
      case Some(BadNumpyFlag) => Raised;
  }

  /** An iteration that gets as far as `Popen`. */
  lemma StepLaunches(p: Progress, v: Variant, code: int, allowFailures: bool, np: string)
    requires p.stop.None? && NumpyArgument(v.buildCommand) == Token(np)
    ensures var q := Step(p, v, code, allowFailures);
      && q.launched == p.launched + [Launch(v.buildCommand, np)]
      && q.vars == AfterScope(p.vars, NumpyVariable, np)
      && q.failed == p.failed + (if code != 0 then [v.buildName] else [])
      && q.success == (if code != 0 && !allowFailures then p.success else p.success + [v.buildName])
      && q.stop == (if code != 0 && !allowFailures then Some(ExitOne) else None)
  {
  }

  /** Once the loop has stopped, the later variants change nothing. */
  lemma {:induction false} StoppedStays(order: seq<Variant>, returnCode: nat -> int, allowFailures: bool,
                                        vars: map<string, string>, n: nat, m: nat)
    requires n <= m <= |order|
    requires After(order, returnCode, allowFailures, vars, n).stop.Some?
    ensures After(order, returnCode, allowFailures, vars, m) == After(order, returnCode, allowFailures, vars, n)
    decreases m
  {
    if m > n {
      StoppedStays(order, returnCode, allowFailures, vars, n, m - 1);
    }
  }

  /** Variant `k` ends the loop: its lookup raises, or it fails without `allow_failures`. */
  predicate Halts(order: seq<Variant>, returnCode: nat -> int, allowFailures: bool, k: nat)
    requires k < |order|
  {
    Malformed(order[k]) || (!allowFailures && returnCode(k) != 0)
  }

  /** None of the first `n` variants ends the loop. */
  predicate Clean(order: seq<Variant>, returnCode: nat -> int, allowFailures: bool, n: nat)
    requires n <= |order|
  {
    forall k :: 0 <= k < n ==> !Halts(order, returnCode, allowFailures, k)
  }

  /** The build names of the first `n` variants whose build returned nonzero, in order. */
  function FailedNames(order: seq<Variant>, returnCode: nat -> int, n: nat): seq<string>
    requires n <= |order|
  {
    if n == 0 then []
    else FailedNames(order, returnCode, n - 1) + if returnCode(n - 1) != 0 then [order[n - 1].buildName] else []
  }

  /** The build names of the variants, in order. */
  function Names(order: seq<Variant>): (r: seq<string>)
    ensures |r| == |order| && forall k :: 0 <= k < |order| ==> r[k] == order[k].buildName
  {
    seq(|order|, k requires 0 <= k < |order| => order[k].buildName)
  }

  /** The environment after the `with env_var('CONDA_NPY', ...)` blocks of the given launches. */
  function EnvAfterLaunches(vars: map<string, string>, launched: seq<Launch>): map<string, string>
  {
    if launched == [] then vars
    else AfterScope(EnvAfterLaunches(vars, launched[..|launched| - 1]), NumpyVariable, launched[|launched| - 1].condaNpy)
  }

  lemma EnvAfterLaunchesExtend(vars: map<string, string>, launched: seq<Launch>, l: Launch)
    ensures EnvAfterLaunches(vars, launched + [l]) == AfterScope(EnvAfterLaunches(vars, launched), NumpyVariable, l.condaNpy)
  {
    assert (launched + [l])[..|launched|] == launched;
  }

  /** Whatever happens, the environment is what the launched builds' `env_var` blocks leave behind. */
  lemma {:induction false} AfterEnvironment(order: seq<Variant>, returnCode: nat -> int, allowFailures: bool,
                                            vars: map<string, string>, n: nat)
    requires n <= |order|
    ensures After(order, returnCode, allowFailures, vars, n).vars
         == EnvAfterLaunches(vars, After(order, returnCode, allowFailures, vars, n).launched)
  {
    if n > 0 {
      var k := n - 1;
      AfterEnvironment(order, returnCode, allowFailures, vars, k);
      var before := After(order, returnCode, allowFailures, vars, k);
      if before.stop.None? && NumpyArgument(order[k].buildCommand).Token? {
        var np := NumpyArgument(order[k].buildCommand).value;
        StepLaunches(before, order[k], returnCode(k), allowFailures, np);
        EnvAfterLaunchesExtend(vars, before.launched, Launch(order[k].buildCommand, np));
      }
    }
  }

  /**
    While nothing has ended the loop, every name went to the success list and
    exactly the nonzero ones to the failed list.
   */
  lemma {:induction false} RunWithoutHalt(order: seq<Variant>, returnCode: nat -> int, allowFailures: bool,
                                          vars: map<string, string>, n: nat)
    requires n <= |order| && Clean(order, returnCode, allowFailures, n)
    ensures var p := After(order, returnCode, allowFailures, vars, n);
      && p.stop.None?
      && p.success == Names(order)[..n]
      && p.failed == FailedNames(order, returnCode, n)
  {
    if n > 0 {
      var k := n - 1;
      RunWithoutHalt(order, returnCode, allowFailures, vars, k);
      var before := After(order, returnCode, allowFailures, vars, k);
      assert !Halts(order, returnCode, allowFailures, k);
      var launch := LaunchOf(order[k]);
      StepLaunches(before, order[k], returnCode(k), allowFailures, launch.condaNpy);
      var p := After(order, returnCode, allowFailures, vars, n);
      assert p == Step(before, order[k], returnCode(k), allowFailures);
      var tail := if returnCode(k) != 0 then [order[k].buildName] else [];
      assert p.failed == before.failed + tail;
      assert FailedNames(order, returnCode, n) == FailedNames(order, returnCode, k) + tail;
      assert Names(order)[..n] == Names(order)[..k] + [order[k].buildName];
    }
  }

  /** While nothing has ended the loop, every variant so far was launched once, in order, under its own numpy version. */
  lemma {:induction false} CleanLaunches(order: seq<Variant>, returnCode: nat -> int, allowFailures: bool,
                                         vars: map<string, string>, n: nat)
    requires n <= |order| && Clean(order, returnCode, allowFailures, n)
    ensures var p := After(order, returnCode, allowFailures, vars, n);
      && |p.launched| == n
      && (forall k :: 0 <= k < n ==> !Malformed(order[k]) && p.launched[k] == LaunchOf(order[k]))
  {
    if n > 0 {
      var k := n - 1;
      CleanLaunches(order, returnCode, allowFailures, vars, k);
      RunWithoutHalt(order, returnCode, allowFailures, vars, k);
      var before := After(order, returnCode, allowFailures, vars, k);
      assert !Halts(order, returnCode, allowFailures, k);
      var launch := LaunchOf(order[k]);
      StepLaunches(before, order[k], returnCode(k), allowFailures, launch.condaNpy);
      var p := After(order, returnCode, allowFailures, vars, n);
      assert p == Step(before, order[k], returnCode(k), allowFailures);
      assert p.launched == before.launched + [launch];
      forall j | 0 <= j < n ensures !Malformed(order[j]) && p.launched[j] == LaunchOf(order[j]) {
        if j < k {
          assert p.launched[j] == before.launched[j];
        }
      }
    }
  }

  /** The first variant that ends the loop decides how it ends and what was launched. */
  lemma FirstHalt(order: seq<Variant>, returnCode: nat -> int, allowFailures: bool,
                  vars: map<string, string>, k: nat)
    requires k < |order| && Clean(order, returnCode, allowFailures, k)
    requires Halts(order, returnCode, allowFailures, k)
    ensures var p := After(order, returnCode, allowFailures, vars, |order|);
      && p.stop == Some(if Malformed(order[k]) then BadNumpyFlag else ExitOne)
      && |p.launched| == (if Malformed(order[k]) then k else k + 1)
      && (forall j :: 0 <= j < |p.launched| ==> !Malformed(order[j]) && p.launched[j] == LaunchOf(order[j]))
  {
    RunWithoutHalt(order, returnCode, allowFailures, vars, k);
    CleanLaunches(order, returnCode, allowFailures, vars, k);
    StoppedStays(order, returnCode, allowFailures, vars, k + 1, |order|);
  }

  /**
    `run_build` returns its dictionary exactly when no variant ends the loop
    early; it then lists every build name as a success and the nonzero ones as
    failed, both sorted, and every variant was launched once, in order.
   */
  lemma RunBuildFinishes(order: seq<Variant>, returnCode: nat -> int, allowFailures: bool, vars: map<string, string>)
    ensures var p := After(order, returnCode, allowFailures, vars, |order|);
      Report(p).Finished? <==> Clean(order, returnCode, allowFailures, |order|)
    ensures var p := After(order, returnCode, allowFailures, vars, |order|);
      Report(p).Finished? ==>
        && Report(p) == Finished(Sort(Names(order)), Sort(FailedNames(order, returnCode, |order|)))
        && Ascending(Report(p).success) && Ascending(Report(p).failed)
        && |p.launched| == |order|
        && (forall k :: 0 <= k < |order| ==> !Malformed(order[k]) && p.launched[k] == LaunchOf(order[k]))
  {
    if Clean(order, returnCode, allowFailures, |order|) {
      RunWithoutHalt(order, returnCode, allowFailures, vars, |order|);
      CleanLaunches(order, returnCode, allowFailures, vars, |order|);
      assert Names(order)[..|order|] == Names(order);
    } else {
      var k := FirstHaltIndex(order, returnCode, allowFailures, |order|);
      FirstHalt(order, returnCode, allowFailures, vars, k);
    }
  }

  /** Some variant among the first `n` ends the loop: find the first. */
  lemma {:induction false} FirstHaltIndex(order: seq<Variant>, returnCode: nat -> int, allowFailures: bool, n: nat)
    returns (k: nat)
    requires n <= |order| && !Clean(order, returnCode, allowFailures, n)
    ensures k < n && Clean(order, returnCode, allowFailures, k) && Halts(order, returnCode, allowFailures, k)
    decreases n
  {
    if Clean(order, returnCode, allowFailures, n - 1) {
      k := n - 1;
    } else {
      k := FirstHaltIndex(order, returnCode, allowFailures, n - 1);
    }
  }

  /**
    Without `allow_failures`, the first failing build ends the process with
    `sys.exit(1)`: it and the builds before it were launched, no later one.
   */
  lemma StrictStopsAtFirstFailure(order: seq<Variant>, returnCode: nat -> int, vars: map<string, string>, k: nat)
    requires k < |order| && returnCode(k) != 0
    requires forall j :: 0 <= j <= k ==> !Malformed(order[j])
    requires forall j :: 0 <= j < k ==> returnCode(j) == 0
    ensures var p := After(order, returnCode, false, vars, |order|);
      && Report(p) == Exited
      && |p.launched| == k + 1
      && (forall j :: 0 <= j <= k ==> !Malformed(order[j]) && p.launched[j] == LaunchOf(order[j]))
  {
    FirstHalt(order, returnCode, false, vars, k);
  }

  /** Without `allow_failures`, a returned dictionary never lists a failure. */
  lemma StrictFinishedHasNoFailures(order: seq<Variant>, returnCode: nat -> int, vars: map<string, string>)
    requires Report(After(order, returnCode, false, vars, |order|)).Finished?
    ensures Report(After(order, returnCode, false, vars, |order|)) == Finished(Sort(Names(order)), [])
  {
    RunBuildFinishes(order, returnCode, false, vars);
    forall k | 0 <= k < |order| ensures returnCode(k) == 0 {
      assert !Halts(order, returnCode, false, k);
    }
    NoFailedNames(order, returnCode, |order|);
    assert |Sort([])| == 0;
  }

  lemma {:induction false} NoFailedNames(order: seq<Variant>, returnCode: nat -> int, n: nat)
    requires n <= |order| && forall k :: 0 <= k < n ==> returnCode(k) == 0
    ensures FailedNames(order, returnCode, n) == []
  {
    if n > 0 {
      NoFailedNames(order, returnCode, n - 1);
    }
  }

  /**
    With `allow_failures` every well-formed variant is launched, and every build
    name, failed ones included, is in the success list.
   */
  lemma TolerantBuildsEverything(order: seq<Variant>, returnCode: nat -> int, vars: map<string, string>)
    requires forall k :: 0 <= k < |order| ==> !Malformed(order[k])
    ensures var p := After(order, returnCode, true, vars, |order|);
      && Report(p) == Finished(Sort(Names(order)), Sort(FailedNames(order, returnCode, |order|)))
      && |p.launched| == |order|
  {
    RunBuildFinishes(order, returnCode, true, vars);
  }

  /** A build command whose first `--numpy` is its last token raises before anything of it is launched. */
  lemma MissingNumpyArgumentRaises(order: seq<Variant>, returnCode: nat -> int, allowFailures: bool,
                                   vars: map<string, string>, k: nat)
    requires k < |order| && Clean(order, returnCode, allowFailures, k) && Malformed(order[k])
    ensures var p := After(order, returnCode, allowFailures, vars, |order|);
      Report(p) == Raised && |p.launched| == k
  {
    FirstHalt(order, returnCode, allowFailures, vars, k);
  }

  /**
    When `CONDA_NPY` starts out unset or non-empty, the builds hand the
    environment back unchanged; when it starts out empty, the first build
    deletes it.
   */
  lemma {:induction false} LaunchesRestoreEnvironment(vars: map<string, string>, launched: seq<Launch>)
    ensures NumpyVariable !in vars || vars[NumpyVariable] != "" ==> EnvAfterLaunches(vars, launched) == vars
    ensures NumpyVariable in vars && vars[NumpyVariable] == "" && launched != [] ==>
      EnvAfterLaunches(vars, launched) == vars - {NumpyVariable}
  {
    if launched != [] {
      var init := launched[..|launched| - 1];
      LaunchesRestoreEnvironment(vars, init);
      var before := EnvAfterLaunches(vars, init);
      AfterScopeRestores(before, NumpyVariable, launched[|launched| - 1].condaNpy);
      if NumpyVariable in vars && vars[NumpyVariable] == "" && init != [] {
        assert NumpyVariable !in before;
      }
    }
  }

}
