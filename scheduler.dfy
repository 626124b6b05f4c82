/**
  `resolve_dependencies` of buildmatrix/cli.py: the topological scheduler. It
  makes up to 10000 passes; each pass walks the still-unscheduled packages in
  sorted order and yields every package whose dependencies have all been yielded
  already, so later packages of a pass see the completions of earlier ones. A
  package that is not ready is checked for a dependency that is not a package
  at all, which stops the generator at once; a run of 10000 passes that leaves
  packages unscheduled stops it with the remaining mapping.

  The generator is modelled by its whole life: the packages it yielded, in
  order, and the error it raised afterwards, if any.
 */
module Scheduler {
  import opened Wrappers
  import opened Lexicographic

  /** A package name mapped to the names of the packages it depends on. */
  type Graph = map<string, seq<string>>

  /** The failsafe: `range(10000)`. */
  const MaxPasses: nat := 10000

  datatype ScheduleError =
    | UndefinedDependency(package: string, dependency: string)
    | Unresolved(remaining: Graph)

  /** The packages yielded, in order, and the `ValueError` raised after them, if any. */
  datatype Schedule = Schedule(order: seq<string>, failure: Option<ScheduleError>)

  /** `all(dependency in completed_packages for dependency in deps)`. */
  predicate Ready(deps: seq<string>, done: seq<string>)
  {
    forall d :: d in deps ==> d in done
  }

  /** The first dependency, in list order, that is not a package of `g`. */
  function FirstUndefined(deps: seq<string>, g: Graph): (r: Option<string>)
    ensures r.None? <==> forall d :: d in deps ==> d in g
    ensures r.Some? ==> r.value in deps && r.value !in g
  {
    if deps == [] then None
    else if deps[0] !in g then Some(deps[0])
    else
      assert forall d :: d in deps ==> d == deps[0] || d in deps[1..];
      FirstUndefined(deps[1..], g)
  }

  lemma {:induction false} FirstUndefinedAt(deps: seq<string>, g: Graph, k: nat)
    requires k < |deps| && deps[k] !in g
    requires forall i :: 0 <= i < k ==> deps[i] in g
    ensures FirstUndefined(deps, g) == Some(deps[k])
    decreases k
  {
    if k > 0 {
      FirstUndefinedAt(deps[1..], g, k - 1);
    }
  }

  /** `remaining_dependencies` once the packages of `done` have been popped. */
  function Remaining(g: Graph, done: seq<string>): Graph
  {
    map k | k in g && k !in done :: g[k]
  }

  lemma RemainingPop(g: Graph, done: seq<string>, p: string)
    ensures Remaining(g, done + [p]) == Remaining(g, done) - {p}
  {
    assert Remaining(g, done + [p]).Keys == Remaining(g, done).Keys - {p};
  }

  /** One pass over the packages `scan`, in that order, starting from the packages `done`. */
  function Sweep(g: Graph, scan: seq<string>, done: seq<string>): Schedule
    requires forall p :: p in scan ==> p in g
    decreases |scan|
  {
    if scan == [] then Schedule(done, None)
    else
      var p := scan[0];
      if Ready(g[p], done) then Sweep(g, scan[1..], done + [p])
      else
        match FirstUndefined(g[p], g)
        case Some(d) => Schedule(done, Some(UndefinedDependency(p, d)))
        case None => Sweep(g, scan[1..], done)
  }

  /** The package names a pass walks: `sorted(remaining_dependencies.copy().items())`. */
  function PassScan(g: Graph, done: seq<string>): (r: seq<string>)
    ensures forall p :: p in r ==> p in g && p !in done
  {
    SortedKeys(Remaining(g, done).Keys)
  }

  /** A pass never visits a package twice. */
  lemma PassScanDistinct(g: Graph, done: seq<string>)
    ensures NoDuplicates(PassScan(g, done))
  {
    var scan := PassScan(g, done);
    SortedKeysAscending(Remaining(g, done).Keys);
    forall i, j | 0 <= i < j < |scan| ensures scan[i] != scan[j] {
      assert Less(scan[i], scan[j]);
    }
  }

  /** At most `passes` more passes, starting from the packages `done`. */
  function Passes(g: Graph, done: seq<string>, passes: nat): Schedule
    decreases passes
  {
    if passes == 0 then Schedule(done, Some(Unresolved(Remaining(g, done))))
    else
      var swept := Sweep(g, PassScan(g, done), done);
      if swept.failure.Some? then swept
      else if AllYielded(g, swept.order) then Schedule(swept.order, None)
      else Passes(g, swept.order, passes - 1)
  }

  /** `not remaining_dependencies`: every package has been yielded. */
  predicate AllYielded(g: Graph, done: seq<string>)
  {
    forall k :: k in g ==> k in done
  }

  lemma RemainingEmpty(g: Graph, done: seq<string>)
    ensures Remaining(g, done) == map[] <==> AllYielded(g, done)
  {
    if !AllYielded(g, done) {
      var k :| k in g && k !in done;
      assert k in Remaining(g, done);
    }
  }

  /** Everything `resolve_dependencies(g)` yields, and how it ends. */
  function Resolve(g: Graph): Schedule
  {
    Passes(g, [], MaxPasses)
  }

  /** `resolve_dependencies`, run to its end. */
  method ResolveDependencies(packageDependencies: Graph) returns (s: Schedule)
    ensures s == Resolve(packageDependencies)
  {
    ghost var g := packageDependencies;
    var remaining := packageDependencies;
    var completed: seq<string> := [];
    var failsafe := 0;
    ghost var left: nat := MaxPasses;
    assert remaining == Remaining(g, completed);
    while failsafe < MaxPasses
      invariant 0 <= failsafe <= MaxPasses && left == MaxPasses - failsafe
      invariant remaining == Remaining(g, completed)
      invariant Passes(g, completed, left) == Resolve(g)
    {
      ghost var start := completed;
      var failure;
      completed, remaining, failure := SweepRemaining(packageDependencies, completed, remaining);
      if failure.Some? {
        PassFails(g, start, left);
        return Schedule(completed, failure);
      }
      RemainingEmpty(g, completed);
      if remaining == map[] {
        PassSucceeds(g, start, left);
        return Schedule(completed, None);
      }
      PassContinues(g, start, left);
      failsafe, left := failsafe + 1, left - 1;
    }
    return Schedule(completed, Some(Unresolved(remaining)));
  }

  /**
    One pass of `resolve_dependencies`: the loop over
    `sorted(remaining_dependencies.copy().items())`, which appends to
    `completed_packages` and pops from `remaining_dependencies`.
   */
  method SweepRemaining(packageDependencies: Graph, completed0: seq<string>, remaining0: Graph)
    returns (completed: seq<string>, remaining: Graph, failure: Option<ScheduleError>)
    requires remaining0 == Remaining(packageDependencies, completed0)
    ensures Schedule(completed, failure) == Sweep(packageDependencies, PassScan(packageDependencies, completed0), completed0)
    ensures remaining == Remaining(packageDependencies, completed)
  {
    ghost var g := packageDependencies;
    completed, remaining := completed0, remaining0;
    var snapshot := remaining0;
    var scan := SortedKeys(snapshot.Keys);
    assert scan == PassScan(g, completed0);
    var j := 0;
    while j < |scan|
      invariant 0 <= j <= |scan|
      invariant remaining == Remaining(g, completed)
      invariant Sweep(g, scan[j..], completed) == Sweep(g, scan, completed0)
    {
      var package := scan[j];
      var deps := snapshot[package];
      assert deps == g[package];
      if forall d :: d in deps ==> d in completed {
        SweepReady(g, scan, j, completed);
        RemainingPop(g, completed, package);
        completed := completed + [package];
        remaining := remaining - {package};
      } else {
        var missing := CheckDefined(deps, packageDependencies);
        SweepNotReady(g, scan, j, completed);
        if missing.Some? {
          return completed, remaining, Some(UndefinedDependency(package, missing.value));
        }
      }
      j := j + 1;
    }
    assert scan[j..] == [];
    failure := None;
  }

  lemma SweepReady(g: Graph, scan: seq<string>, j: nat, done: seq<string>)
    requires j < |scan| && forall p :: p in scan ==> p in g
    requires Ready(g[scan[j]], done)
    ensures Sweep(g, scan[j..], done) == Sweep(g, scan[j + 1..], done + [scan[j]])
  {
    assert scan[j..][1..] == scan[j + 1..];
  }

  lemma SweepNotReady(g: Graph, scan: seq<string>, j: nat, done: seq<string>)
    requires j < |scan| && forall p :: p in scan ==> p in g
    requires !Ready(g[scan[j]], done)
    ensures FirstUndefined(g[scan[j]], g).None? ==> Sweep(g, scan[j..], done) == Sweep(g, scan[j + 1..], done)
    ensures FirstUndefined(g[scan[j]], g).Some? ==>
              Sweep(g, scan[j..], done) == Schedule(done, Some(UndefinedDependency(scan[j], FirstUndefined(g[scan[j]], g).value)))
  {
    assert scan[j..][1..] == scan[j + 1..];
  }

  /** The loop `for dependency in deps: if dependency not in package_dependencies: raise ...`. */
  method CheckDefined(deps: seq<string>, packageDependencies: Graph) returns (missing: Option<string>)
    ensures missing == FirstUndefined(deps, packageDependencies)
  {
    var k := 0;
    while k < |deps|
      invariant 0 <= k <= |deps|
      invariant forall i :: 0 <= i < k ==> deps[i] in packageDependencies
    {
      if deps[k] !in packageDependencies {
        FirstUndefinedAt(deps, packageDependencies, k);
        return Some(deps[k]);
      }
      k := k + 1;
    }
    return None;
  }

  // ----- which orders the scheduler produces -----

  /** No package occurs twice. */
  predicate NoDuplicates(s: seq<string>)
  {
    forall i, j :: 0 <= i < j < |s| ==> s[i] != s[j]
  }

  /** Every package of `order` is a key of `g` whose dependencies all occur strictly before it. */
  ghost predicate Topological(g: Graph, order: seq<string>)
  {
    forall i :: 0 <= i < |order| ==> order[i] in g && Ready(g[order[i]], order[..i])
  }

  /** `d` is listed as a dependency of the package `p` without being a package. */
  ghost predicate Undefined(g: Graph, p: string, d: string)
  {
    p in g && d in g[p] && d !in g
  }

  lemma TopologicalExtend(g: Graph, done: seq<string>, p: string)
    requires Topological(g, done) && p in g && Ready(g[p], done)
    ensures Topological(g, done + [p])
  {
    var next := done + [p];
    forall i | 0 <= i < |next| ensures next[i] in g && Ready(g[next[i]], next[..i]) {
      if i < |done| {
        assert next[..i] == done[..i];
      } else {
        assert next[..i] == done;
      }
    }
  }

  /** What one pass keeps true, and how it can fail. */
  lemma {:induction false} SweepSound(g: Graph, scan: seq<string>, done: seq<string>)
    requires forall p :: p in scan ==> p in g && p !in done
    requires Topological(g, done) && NoDuplicates(done) && NoDuplicates(scan)
    ensures Topological(g, Sweep(g, scan, done).order)
    ensures NoDuplicates(Sweep(g, scan, done).order)
    ensures Sweep(g, scan, done).failure.Some? ==>
              Sweep(g, scan, done).failure.value.UndefinedDependency?
              && Undefined(g, Sweep(g, scan, done).failure.value.package, Sweep(g, scan, done).failure.value.dependency)
              && Sweep(g, scan, done).failure.value.package !in Sweep(g, scan, done).order
    decreases |scan|
  {
    if scan != [] {
      var p := scan[0];
      var rest := scan[1..];
      assert forall i, j :: 0 <= i < j < |rest| ==> rest[i] == scan[i + 1] && rest[j] == scan[j + 1];
      assert forall x :: x in rest ==> x != p by {
        forall x | x in rest ensures x != p {
          var k :| 0 <= k < |rest| && rest[k] == x;
          assert scan[k + 1] == x;
        }
      }
      if Ready(g[p], done) {
        TopologicalExtend(g, done, p);
        SweepSound(g, rest, done + [p]);
      } else if FirstUndefined(g[p], g).None? {
        SweepSound(g, rest, done);
      }
    }
  }

  /** What a run that started from the packages `done` ends with, as the scheduler guarantees. */
  ghost predicate Outcome(g: Graph, done: seq<string>, s: Schedule)
  {
    done <= s.order && Final(g, s)
  }

  /** What a run ends with, whatever it started from. */
  ghost predicate Final(g: Graph, s: Schedule)
  {
    Topological(g, s.order) && NoDuplicates(s.order)
    && (s.failure.None? ==> AllYielded(g, s.order))
    && (s.failure.Some? ==> ErrorHolds(g, s.order, s.failure.value))
  }

  /** The undefined dependency is real and its package was not yielded; the remaining mapping is what was not yielded. */
  ghost predicate ErrorHolds(g: Graph, order: seq<string>, e: ScheduleError)
  {
    match e
    case UndefinedDependency(p, d) => Undefined(g, p, d) && p !in order
    case Unresolved(rem) => rem == Remaining(g, order) && !AllYielded(g, order)
  }

  lemma PrefixTransitive(a: seq<string>, b: seq<string>, c: seq<string>)
    requires a <= b && b <= c
    ensures a <= c
  {
    assert a == c[..|a|] by {
      assert b == c[..|b|];
      assert a == b[..|a|];
    }
  }

  /** From every sound start, at most `passes` passes end as the scheduler guarantees. */
  ghost predicate SoundWithin(g: Graph, passes: nat)
  {
    forall done :: Topological(g, done) && NoDuplicates(done) && (passes > 0 || !AllYielded(g, done)) ==>
      Outcome(g, done, Passes(g, done, passes))
  }

  /** What all the passes keep true, and the two ways they can fail. */
  lemma {:induction false} PassesSound(g: Graph, passes: nat)
    ensures SoundWithin(g, passes)
    decreases passes
  {
    if passes > 0 {
      PassesSound(g, passes - 1);
    }
    forall done | Topological(g, done) && NoDuplicates(done) && (passes > 0 || !AllYielded(g, done))
      ensures Outcome(g, done, Passes(g, done, passes))
    {
      if passes > 0 {
        var scan := PassScan(g, done);
        var swept := Sweep(g, scan, done);
        if swept.failure.None? && !AllYielded(g, swept.order) {
          PassScanDistinct(g, done);
          SweepSound(g, scan, done);
          SweepGrows(g, scan, done);
          var later := swept.order;
          var rest := Passes(g, later, passes - 1);
          PassContinues(g, done, passes);
          PrefixTransitive(done, later, rest.order);
        } else {
          PassEnds(g, done, passes);
        }
      }
    }
  }

  /** A whole run of the scheduler ends as it guarantees. */
  lemma ResolveSound(g: Graph)
    ensures Final(g, Resolve(g))
  {
    PassesSound(g, MaxPasses);
    assert Topological(g, []) && NoDuplicates([]);
  }

  /** A pass that fails, or that yields the last packages, ends the run as the scheduler guarantees. */
  lemma PassEnds(g: Graph, done: seq<string>, passes: nat)
    requires Topological(g, done) && NoDuplicates(done) && passes > 0
    requires Sweep(g, PassScan(g, done), done).failure.Some? || AllYielded(g, Sweep(g, PassScan(g, done), done).order)
    ensures Outcome(g, done, Passes(g, done, passes))
  {
    var scan := PassScan(g, done);
    PassScanDistinct(g, done);
    SweepSound(g, scan, done);
    SweepGrows(g, scan, done);
    if Sweep(g, scan, done).failure.Some? {
      PassFails(g, done, passes);
    } else {
      PassSucceeds(g, done, passes);
    }
  }

  /** Every dependency of a yielded package was yielded strictly earlier, and nothing is yielded twice. */
  lemma ResolveDependenciesFirst(g: Graph)
    ensures Topological(g, Resolve(g).order)
    ensures NoDuplicates(Resolve(g).order)
  {
    ResolveSound(g);
  }

  /** On success every package is yielded exactly once. */
  lemma ResolveSuccessYieldsAll(g: Graph)
    requires Resolve(g).failure.None?
    ensures forall p :: p in Resolve(g).order <==> p in g
    ensures NoDuplicates(Resolve(g).order) && |Resolve(g).order| == |g|
  {
    var order := Resolve(g).order;
    ResolveSound(g);
    assert forall p :: p in g ==> p in order by {
      forall p | p in g ensures p in order {
        if p !in order { assert false; }
      }
    }
    DistinctCard(order, g.Keys);
  }

  lemma {:induction false} DistinctCard(s: seq<string>, keys: set<string>)
    requires NoDuplicates(s)
    requires forall p :: p in s <==> p in keys
    ensures |s| == |keys|
    decreases |s|
  {
    if s != [] {
      var rest := s[1..];
      assert forall x :: x in rest <==> x in keys - {s[0]} by {
        forall x ensures x in rest <==> x in keys - {s[0]} {
          if x in rest {
            var k :| 0 <= k < |rest| && rest[k] == x;
            assert s[k + 1] == x;
          }
          if x in keys && x != s[0] {
            var k :| 0 <= k < |s| && s[k] == x;
            assert rest[k - 1] == x;
          }
        }
      }
      DistinctCard(rest, keys - {s[0]});
    }
  }

  /** An undefined-dependency error names a package and one of its dependencies that is no package; that package was not yielded. */
  lemma ResolveUndefinedIsReal(g: Graph)
    requires Resolve(g).failure.Some? && Resolve(g).failure.value.UndefinedDependency?
    ensures Undefined(g, Resolve(g).failure.value.package, Resolve(g).failure.value.dependency)
    ensures Resolve(g).failure.value.package !in Resolve(g).order
  {
    ResolveSound(g);
  }

  /** The remaining mapping carried by the failsafe error is exactly what was not yielded, and it is not empty. */
  lemma ResolveUnresolvedIsRemaining(g: Graph)
    requires Resolve(g).failure.Some? && Resolve(g).failure.value.Unresolved?
    ensures Resolve(g).failure.value.remaining == Remaining(g, Resolve(g).order)
    ensures Resolve(g).failure.value.remaining != map[]
  {
    ResolveSound(g);
    RemainingEmpty(g, Resolve(g).order);
  }

  // ----- undefined dependencies are caught in the first pass -----

  /** The error the first broken package of `scan` raises: the first package with a dependency that is no package. */
  function FirstBroken(g: Graph, scan: seq<string>): Option<ScheduleError>
    requires forall p :: p in scan ==> p in g
    decreases |scan|
  {
    if scan == [] then None
    else
      match FirstUndefined(g[scan[0]], g)
      case Some(d) => Some(UndefinedDependency(scan[0], d))
      case None => FirstBroken(g, scan[1..])
  }

  /** A pass fails exactly with the error of the first package of its scan that lists an undefined dependency. */
  lemma {:induction false} SweepFailsAtFirstBroken(g: Graph, scan: seq<string>, done: seq<string>)
    requires forall p :: p in scan ==> p in g
    requires forall p :: p in done ==> p in g
    ensures Sweep(g, scan, done).failure == FirstBroken(g, scan)
    decreases |scan|
  {
    if scan != [] {
      var p := scan[0];
      if Ready(g[p], done) {
        SweepFailsAtFirstBroken(g, scan[1..], done + [p]);
      } else if FirstUndefined(g[p], g).None? {
        SweepFailsAtFirstBroken(g, scan[1..], done);
      }
    }
  }

  lemma {:induction false} FirstBrokenFinds(g: Graph, scan: seq<string>, p: string, d: string)
    requires forall q :: q in scan ==> q in g
    requires p in scan && Undefined(g, p, d)
    ensures FirstBroken(g, scan).Some? && FirstBroken(g, scan).value.UndefinedDependency?
    decreases |scan|
  {
    if scan[0] != p && FirstUndefined(g[scan[0]], g).None? {
      FirstBrokenFinds(g, scan[1..], p, d);
    }
  }

  /** Every package has its dependencies among the packages. */
  ghost predicate Defined(g: Graph)
  {
    forall p, d :: p in g && d in g[p] ==> d in g
  }

  lemma {:induction false} FirstBrokenNone(g: Graph, scan: seq<string>)
    requires forall q :: q in scan ==> q in g
    requires Defined(g)
    ensures FirstBroken(g, scan) == None
    decreases |scan|
  {
    if scan != [] {
      FirstBrokenNone(g, scan[1..]);
    }
  }

  /** A pass only yields packages of the graph. */
  lemma {:induction false} SweepInGraph(g: Graph, scan: seq<string>, done: seq<string>)
    requires forall p :: p in scan ==> p in g
    requires forall p :: p in done ==> p in g
    ensures forall x :: x in Sweep(g, scan, done).order ==> x in g
    decreases |scan|
  {
    if scan != [] {
      var p := scan[0];
      if Ready(g[p], done) {
        SweepInGraph(g, scan[1..], done + [p]);
      } else if FirstUndefined(g[p], g).None? {
        SweepInGraph(g, scan[1..], done);
      }
    }
  }

  lemma PassFails(g: Graph, done: seq<string>, passes: nat)
    requires passes > 0 && Sweep(g, PassScan(g, done), done).failure.Some?
    ensures Passes(g, done, passes) == Sweep(g, PassScan(g, done), done)
  {
  }

  lemma PassSucceeds(g: Graph, done: seq<string>, passes: nat)
    requires passes > 0 && Sweep(g, PassScan(g, done), done).failure.None?
    requires AllYielded(g, Sweep(g, PassScan(g, done), done).order)
    ensures Passes(g, done, passes) == Schedule(Sweep(g, PassScan(g, done), done).order, None)
  {
  }

  lemma PassContinues(g: Graph, done: seq<string>, passes: nat)
    requires passes > 0 && Sweep(g, PassScan(g, done), done).failure.None?
    requires !AllYielded(g, Sweep(g, PassScan(g, done), done).order)
    ensures Passes(g, done, passes) == Passes(g, Sweep(g, PassScan(g, done), done).order, passes - 1)
  {
  }

  /**
    The scheduler reports an undefined dependency exactly when some package lists
    a dependency that is no package, and then it is the one of the first such
    package in sorted order, and that package's first such dependency.
   */
  lemma ResolveReportsUndefined(g: Graph)
    ensures (Resolve(g).failure.Some? && Resolve(g).failure.value.UndefinedDependency?)
            <==> exists p, d :: Undefined(g, p, d)
    ensures (exists p, d :: Undefined(g, p, d)) ==> Resolve(g).failure == FirstBroken(g, SortedKeys(g.Keys))
  {
    if exists p, d :: Undefined(g, p, d) {
      var p, d :| Undefined(g, p, d);
      ResolveCatchesUndefined(g, p, d);
    } else {
      ResolveSound(g);
    }
  }

  /** A package with a dependency that is no package makes the first pass fail. */
  lemma ResolveCatchesUndefined(g: Graph, p: string, d: string)
    requires Undefined(g, p, d)
    ensures Resolve(g).failure == FirstBroken(g, SortedKeys(g.Keys))
    ensures Resolve(g).failure.Some? && Resolve(g).failure.value.UndefinedDependency?
  {
    assert Remaining(g, []) == g;
    var scan := PassScan(g, []);
    SweepFailsAtFirstBroken(g, scan, []);
    FirstBrokenFinds(g, scan, p, d);
    PassFails(g, [], MaxPasses);
  }

  // ----- cycles -----

  /** Some dependency of `deps` is in `s`. */
  predicate DependsInto(deps: seq<string>, s: set<string>)
  {
    |deps| > 0 && (deps[0] in s || DependsInto(deps[1..], s))
  }

  lemma {:induction false} DependsIntoMeans(deps: seq<string>, s: set<string>)
    ensures DependsInto(deps, s) <==> exists d :: d in deps && d in s
  {
    if |deps| > 0 {
      DependsIntoMeans(deps[1..], s);
      assert forall d :: d in deps <==> d == deps[0] || d in deps[1..];
    }
  }

  lemma {:induction false} DependsIntoWitness(deps: seq<string>, s: set<string>) returns (d: string)
    requires DependsInto(deps, s)
    ensures d in deps && d in s
  {
    if deps[0] in s {
      d := deps[0];
    } else {
      d := DependsIntoWitness(deps[1..], s);
    }
  }

  /** A non-empty set of packages each of which depends on a member of the set: a dependency cycle and what depends on it. */
  ghost predicate Closed(g: Graph, s: set<string>)
  {
    s != {} && forall p :: p in s ==> p in g && DependsInto(g[p], s)
  }

  ghost predicate Acyclic(g: Graph)
  {
    forall s {:trigger Closed(g, s)} :: s <= g.Keys ==> !Closed(g, s)
  }

  lemma {:induction false} ClosedAbsentBefore(g: Graph, order: seq<string>, s: set<string>, k: nat)
    requires Topological(g, order) && Closed(g, s) && k <= |order|
    ensures forall i :: 0 <= i < k ==> order[i] !in s
    decreases k
  {
    if k > 0 {
      ClosedAbsentBefore(g, order, s, k - 1);
      if order[k - 1] in s {
        var d := DependsIntoWitness(g[order[k - 1]], s);
        assert false;
      }
    }
  }

  /** No member of a closed set is ever yielded. */
  lemma ClosedNeverYielded(g: Graph, s: set<string>)
    requires Closed(g, s)
    ensures forall p :: p in s ==> p !in Resolve(g).order
  {
    var order := Resolve(g).order;
    ResolveSound(g);
    ClosedAbsentBefore(g, order, s, |order|);
  }

  /** A successful run means every dependency is a package and there is no cycle. */
  lemma SuccessMeansDefinedAcyclic(g: Graph)
    requires Resolve(g).failure.None?
    ensures Defined(g) && Acyclic(g)
  {
    var order := Resolve(g).order;
    ResolveSuccessYieldsAll(g);
    ResolveSound(g);
    forall p, d | p in g && d in g[p] ensures d in g {
      var i :| 0 <= i < |order| && order[i] == p;
      assert d in order[..i];
    }
    forall s | s <= g.Keys ensures !Closed(g, s) {
      if Closed(g, s) {
        var x :| x in s;
        ClosedNeverYielded(g, s);
        assert false;
      }
    }
  }

  // ----- progress -----

  /** A package that is ready when a pass starts is yielded by that pass, unless the pass fails. */
  lemma {:induction false} SweepYieldsReady(g: Graph, scan: seq<string>, done: seq<string>, p: string)
    requires forall q :: q in scan ==> q in g
    requires p in scan && Ready(g[p], done)
    requires Sweep(g, scan, done).failure.None?
    ensures p in Sweep(g, scan, done).order
    decreases |scan|
  {
    var q := scan[0];
    if Ready(g[q], done) {
      if q == p {
        SweepGrows(g, scan[1..], done + [p]);
        assert (done + [p])[|done|] == p;
      } else {
        SweepYieldsReady(g, scan[1..], done + [q], p);
      }
    } else {
      SweepYieldsReady(g, scan[1..], done, p);
    }
  }

  lemma {:induction false} SweepGrows(g: Graph, scan: seq<string>, done: seq<string>)
    requires forall q :: q in scan ==> q in g
    ensures done <= Sweep(g, scan, done).order
    decreases |scan|
  {
    if scan != [] {
      var p := scan[0];
      if Ready(g[p], done) {
        SweepGrows(g, scan[1..], done + [p]);
      } else if FirstUndefined(g[p], g).None? {
        SweepGrows(g, scan[1..], done);
      }
    }
  }

  lemma SubsetSmaller(a: set<string>, b: set<string>, x: string)
    requires a <= b && x in b && x !in a
    ensures |a| < |b|
  {
    assert a <= b - {x};
    assert b == (b - {x}) + {x};
    SubsetNotLarger(a, b - {x});
  }

  lemma {:induction false} SubsetNotLarger(a: set<string>, b: set<string>)
    requires a <= b
    ensures |a| <= |b|
    decreases |a|
  {
    if a != {} {
      var y :| y in a;
      SubsetNotLarger(a - {y}, b - {y});
    }
  }

  /** In a graph without undefined dependencies and without cycles, every pass yields at least one package. */
  lemma PassProgresses(g: Graph, done: seq<string>)
    requires Defined(g) && Acyclic(g)
    requires forall p :: p in done ==> p in g
    requires !AllYielded(g, done)
    ensures Sweep(g, PassScan(g, done), done).failure.None?
    ensures Unyielded(g, Sweep(g, PassScan(g, done), done).order) < Unyielded(g, done)
  {
    var scan := PassScan(g, done);
    SweepFailsAtFirstBroken(g, scan, done);
    FirstBrokenNone(g, scan);
    var rest := Remaining(g, done).Keys;
    assert !Closed(g, rest);
    var p :| p in rest && !DependsInto(g[p], rest);
    DependsIntoMeans(g[p], rest);
    assert Ready(g[p], done);
    var order := Sweep(g, scan, done).order;
    SweepYieldsReady(g, scan, done, p);
    SweepGrows(g, scan, done);
    assert Remaining(g, order).Keys <= rest;
    SubsetSmaller(Remaining(g, order).Keys, rest, p);
  }

  /** How many packages are still to be yielded. */
  ghost function Unyielded(g: Graph, done: seq<string>): nat
  {
    |Remaining(g, done).Keys|
  }

  lemma UnyieldedZero(g: Graph, done: seq<string>)
    ensures Unyielded(g, done) == 0 <==> AllYielded(g, done)
  {
    RemainingEmpty(g, done);
    assert Remaining(g, done) == map[] <==> Remaining(g, done).Keys == {};
  }

  /** Every dependency is a package and there is no cycle. */
  ghost predicate Schedulable(g: Graph)
  {
    Defined(g) && Acyclic(g)
  }

  /** One pass of a defined, acyclic graph: it succeeds, and either finishes the run or leaves fewer packages for the remaining passes. */
  lemma PassAdvances(g: Graph, done: seq<string>, passes: nat) returns (next: seq<string>)
    requires Schedulable(g)
    requires forall p :: p in done ==> p in g
    requires passes >= 1 && Unyielded(g, done) <= passes
    ensures forall p :: p in next ==> p in g
    ensures AllYielded(g, next) ==> Passes(g, done, passes).failure.None?
    ensures !AllYielded(g, next) ==>
              passes - 1 >= 1 && Unyielded(g, next) <= passes - 1 && Passes(g, done, passes) == Passes(g, next, passes - 1)
  {
    var scan := PassScan(g, done);
    next := Sweep(g, scan, done).order;
    if AllYielded(g, done) {
      RemainingEmpty(g, done);
      assert scan == [];
      PassSucceeds(g, done, passes);
    } else {
      PassProgresses(g, done);
      SweepInGraph(g, scan, done);
      if AllYielded(g, next) {
        PassSucceeds(g, done, passes);
      } else {
        UnyieldedZero(g, next);
        PassContinues(g, done, passes);
      }
    }
  }

  /** Within `passes` passes, every start inside the graph with at most `passes` packages left succeeds. */
  ghost predicate CompletesWithin(g: Graph, passes: nat)
  {
    forall done :: (forall p :: p in done ==> p in g) && Unyielded(g, done) <= passes ==>
      Passes(g, done, passes).failure.None?
  }

  lemma PassesCompleteStep(g: Graph, done: seq<string>, passes: nat)
    requires Schedulable(g)
    requires forall p :: p in done ==> p in g
    requires passes >= 1 && Unyielded(g, done) <= passes
    requires passes >= 2 ==> CompletesWithin(g, passes - 1)
    ensures Passes(g, done, passes).failure.None?
  {
    var next := PassAdvances(g, done, passes);
  }

  lemma {:induction false} PassesComplete(g: Graph, passes: nat)
    requires Schedulable(g) && passes >= 1
    ensures CompletesWithin(g, passes)
    decreases passes
  {
    if passes >= 2 {
      PassesComplete(g, passes - 1);
    }
    forall done | (forall p :: p in done ==> p in g) && Unyielded(g, done) <= passes
      ensures Passes(g, done, passes).failure.None?
    {
      PassesCompleteStep(g, done, passes);
    }
  }

  /**
    With at most 10000 packages, the scheduler succeeds exactly when every
    dependency is a package and the dependencies have no cycle.
   */
  lemma ResolveSucceedsIff(g: Graph)
    requires |g| <= MaxPasses
    ensures Resolve(g).failure.None? <==> Defined(g) && Acyclic(g)
  {
    if Defined(g) && Acyclic(g) {
      assert Remaining(g, []) == g;
      assert Unyielded(g, []) == |g|;
      PassesComplete(g, MaxPasses);
    }
    if Resolve(g).failure.None? {
      SuccessMeansDefinedAcyclic(g);
    }
  }

  /** A pass that yields nothing and raises nothing repeats forever, so the run ends with the failsafe error. */
  lemma {:induction false} StallIsFinal(g: Graph, done: seq<string>, passes: nat)
    requires Sweep(g, PassScan(g, done), done) == Schedule(done, None)
    requires !AllYielded(g, done)
    ensures Passes(g, done, passes) == Schedule(done, Some(Unresolved(Remaining(g, done))))
    decreases passes
  {
    if passes > 0 {
      PassContinues(g, done, passes);
      StallIsFinal(g, done, passes - 1);
    }
  }

}
