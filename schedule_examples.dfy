/**
  Worked runs of `resolve_dependencies`: the example in its docstring, a graph
  showing that a pass keeps walking past a package that is not ready (so a
  later package of the same pass can come before it), a cycle and an
  undefined dependency. Each run is traced pass by pass and package by
  package.
 */
module ScheduleExamples {
  import opened Wrappers
  import opened Lexicographic
  import opened Scheduler

  lemma SingleLetters()
    ensures Less("a", "b") && Less("a", "c") && Less("a", "d")
    ensures Less("b", "c") && Less("b", "d") && Less("c", "d")
  {
    assert "a"[1..] == [] && "b"[1..] == [] && "c"[1..] == [];
  }

  /** A package of the scan waits for the dependency `d`, which is a package not yet yielded. */
  lemma Waits(g: Graph, scan: seq<string>, j: nat, done: seq<string>, d: string)
    requires j < |scan| && forall p :: p in scan ==> p in g
    requires d in g[scan[j]] && d !in done
    requires forall x :: x in g[scan[j]] ==> x in g
    ensures Sweep(g, scan[j..], done) == Sweep(g, scan[j + 1..], done)
  {
    SweepNotReady(g, scan, j, done);
  }

  /** A package of the scan whose dependencies are all yielded is yielded next. */
  lemma Yields(g: Graph, scan: seq<string>, j: nat, done: seq<string>, next: seq<string>)
    requires j < |scan| && forall p :: p in scan ==> p in g
    requires Ready(g[scan[j]], done) && next == done + [scan[j]]
    ensures Sweep(g, scan[j..], done) == Sweep(g, scan[j + 1..], next)
  {
    SweepReady(g, scan, j, done);
  }

  // ----- the docstring's example -----

  /** `{'a': ['b', 'c'], 'b': ['c'], 'c': ['d'], 'd': []}`, entry by entry. */
  ghost predicate DocEntries(g: Graph)
  {
    g.Keys == {"a", "b", "c", "d"} && g["a"] == ["b", "c"] && g["b"] == ["c"] && g["c"] == ["d"] && g["d"] == []
  }

  lemma DocFirstScan(g: Graph)
    requires DocEntries(g)
    ensures PassScan(g, []) == ["a", "b", "c", "d"]
  {
    SingleLetters();
    assert Remaining(g, []).Keys == {"a", "b", "c", "d"};
    SortedKeysUnique({"a", "b", "c", "d"}, ["a", "b", "c", "d"]);
  }

  /** Pass 1: `a` waits for `b`. */
  lemma DocFirstStep1(g: Graph)
    requires DocEntries(g)
    ensures Sweep(g, ["a", "b", "c", "d"], []) == Sweep(g, ["b", "c", "d"], [])
  {
    Waits(g, ["a", "b", "c", "d"], 0, [], "b");
    assert ["a", "b", "c", "d"][0..] == ["a", "b", "c", "d"] && ["a", "b", "c", "d"][1..] == ["b", "c", "d"];
  }

  /** Pass 1: `b` waits for `c`. */
  lemma DocFirstStep2(g: Graph)
    requires DocEntries(g)
    ensures Sweep(g, ["b", "c", "d"], []) == Sweep(g, ["c", "d"], [])
  {
    Waits(g, ["b", "c", "d"], 0, [], "c");
    assert ["b", "c", "d"][0..] == ["b", "c", "d"] && ["b", "c", "d"][1..] == ["c", "d"];
  }

  /** Pass 1: `c` waits for `d`. */
  lemma DocFirstStep3(g: Graph)
    requires DocEntries(g)
    ensures Sweep(g, ["c", "d"], []) == Sweep(g, ["d"], [])
  {
    Waits(g, ["c", "d"], 0, [], "d");
    assert ["c", "d"][0..] == ["c", "d"] && ["c", "d"][1..] == ["d"];
  }

  /** Pass 1: `d` is yielded. */
  lemma DocFirstStep4(g: Graph)
    requires DocEntries(g)
    ensures Sweep(g, ["d"], []) == Sweep(g, [], ["d"])
  {
    Yields(g, ["d"], 0, [], ["d"]);
    assert ["d"][0..] == ["d"] && ["d"][1..] == [];
  }

  lemma DocFirstPass(g: Graph)
    requires DocEntries(g)
    ensures Sweep(g, PassScan(g, []), []) == Schedule(["d"], None)
  {
    DocFirstScan(g);
    DocFirstStep1(g);
    DocFirstStep2(g);
    DocFirstStep3(g);
    DocFirstStep4(g);
  }

  lemma DocSecondScan(g: Graph)
    requires DocEntries(g)
    ensures PassScan(g, ["d"]) == ["a", "b", "c"]
  {
    SingleLetters();
    assert Remaining(g, ["d"]).Keys == {"a", "b", "c"};
    SortedKeysUnique({"a", "b", "c"}, ["a", "b", "c"]);
  }

  /** Pass 2: `a` waits for `b`. */
  lemma DocSecondStep1(g: Graph)
    requires DocEntries(g)
    ensures Sweep(g, ["a", "b", "c"], ["d"]) == Sweep(g, ["b", "c"], ["d"])
  {
    Waits(g, ["a", "b", "c"], 0, ["d"], "b");
    assert ["a", "b", "c"][0..] == ["a", "b", "c"] && ["a", "b", "c"][1..] == ["b", "c"];
  }

  /** Pass 2: `b` waits for `c`. */
  lemma DocSecondStep2(g: Graph)
    requires DocEntries(g)
    ensures Sweep(g, ["b", "c"], ["d"]) == Sweep(g, ["c"], ["d"])
  {
    Waits(g, ["b", "c"], 0, ["d"], "c");
    assert ["b", "c"][0..] == ["b", "c"] && ["b", "c"][1..] == ["c"];
  }

  /** Pass 2: `c` is yielded. */
  lemma DocSecondStep3(g: Graph)
    requires DocEntries(g)
    ensures Sweep(g, ["c"], ["d"]) == Sweep(g, [], ["d", "c"])
  {
    Yields(g, ["c"], 0, ["d"], ["d", "c"]);
    assert ["c"][0..] == ["c"] && ["c"][1..] == [];
  }

  lemma DocSecondPass(g: Graph)
    requires DocEntries(g)
    ensures Sweep(g, PassScan(g, ["d"]), ["d"]) == Schedule(["d", "c"], None)
  {
    DocSecondScan(g);
    DocSecondStep1(g);
    DocSecondStep2(g);
    DocSecondStep3(g);
  }

  lemma DocThirdScan(g: Graph)
    requires DocEntries(g)
    ensures PassScan(g, ["d", "c"]) == ["a", "b"]
  {
    SingleLetters();
    assert Remaining(g, ["d", "c"]).Keys == {"a", "b"};
    SortedKeysUnique({"a", "b"}, ["a", "b"]);
  }

  /** Pass 3: `a` waits for `b`. */
  lemma DocThirdStep1(g: Graph)
    requires DocEntries(g)
    ensures Sweep(g, ["a", "b"], ["d", "c"]) == Sweep(g, ["b"], ["d", "c"])
  {
    Waits(g, ["a", "b"], 0, ["d", "c"], "b");
    assert ["a", "b"][0..] == ["a", "b"] && ["a", "b"][1..] == ["b"];
  }

  /** Pass 3: `b` is yielded. */
  lemma DocThirdStep2(g: Graph)
    requires DocEntries(g)
    ensures Sweep(g, ["b"], ["d", "c"]) == Sweep(g, [], ["d", "c", "b"])
  {
    Yields(g, ["b"], 0, ["d", "c"], ["d", "c", "b"]);
    assert ["b"][0..] == ["b"] && ["b"][1..] == [];
  }

  lemma DocThirdPass(g: Graph)
    requires DocEntries(g)
    ensures Sweep(g, PassScan(g, ["d", "c"]), ["d", "c"]) == Schedule(["d", "c", "b"], None)
  {
    DocThirdScan(g);
    DocThirdStep1(g);
    DocThirdStep2(g);
  }

  lemma DocFourthScan(g: Graph)
    requires DocEntries(g)
    ensures PassScan(g, ["d", "c", "b"]) == ["a"]
  {
    SingleLetters();
    assert Remaining(g, ["d", "c", "b"]).Keys == {"a"};
    SortedKeysUnique({"a"}, ["a"]);
  }

  /** Pass 4: `a` is yielded. */
  lemma DocFourthStep1(g: Graph)
    requires DocEntries(g)
    ensures Sweep(g, ["a"], ["d", "c", "b"]) == Sweep(g, [], ["d", "c", "b", "a"])
  {
    Yields(g, ["a"], 0, ["d", "c", "b"], ["d", "c", "b", "a"]);
    assert ["a"][0..] == ["a"] && ["a"][1..] == [];
  }

  lemma DocFourthPass(g: Graph)
    requires DocEntries(g)
    ensures Sweep(g, PassScan(g, ["d", "c", "b"]), ["d", "c", "b"]) == Schedule(["d", "c", "b", "a"], None)
  {
    DocFourthScan(g);
    DocFourthStep1(g);
  }

  /** The docstring's example: `{'a': ['b', 'c'], 'b': ['c'], 'c': ['d'], 'd': []}` yields `d, c, b, a`. */
  lemma DocstringExample(g: Graph)
    requires g == map["a" := ["b", "c"], "b" := ["c"], "c" := ["d"], "d" := []]
    ensures Resolve(g) == Schedule(["d", "c", "b", "a"], None)
  {
    assert DocEntries(g);
    DocFirstPass(g);
    assert !AllYielded(g, ["d"]) by { assert "a" in g; }
    PassContinues(g, [], MaxPasses);
    DocSecondPass(g);
    assert !AllYielded(g, ["d", "c"]) by { assert "a" in g; }
    PassContinues(g, ["d"], MaxPasses - 1);
    DocThirdPass(g);
    assert !AllYielded(g, ["d", "c", "b"]) by { assert "a" in g; }
    PassContinues(g, ["d", "c"], MaxPasses - 2);
    DocFourthPass(g);
    assert AllYielded(g, ["d", "c", "b", "a"]);
    PassSucceeds(g, ["d", "c", "b"], MaxPasses - 3);
  }

  // ----- a pass walks on past a waiting package -----

  /** `{'a': ['b'], 'b': [], 'c': []}`, entry by entry. */
  ghost predicate WaitingEntries(g: Graph)
  {
    g.Keys == {"a", "b", "c"} && g["a"] == ["b"] && g["b"] == [] && g["c"] == []
  }

  lemma WaitingFirstScan(g: Graph)
    requires WaitingEntries(g)
    ensures PassScan(g, []) == ["a", "b", "c"]
  {
    SingleLetters();
    assert Remaining(g, []).Keys == {"a", "b", "c"};
    SortedKeysUnique({"a", "b", "c"}, ["a", "b", "c"]);
  }

  /** Pass 1: `a` waits for `b`. */
  lemma WaitingFirstStep1(g: Graph)
    requires WaitingEntries(g)
    ensures Sweep(g, ["a", "b", "c"], []) == Sweep(g, ["b", "c"], [])
  {
    Waits(g, ["a", "b", "c"], 0, [], "b");
    assert ["a", "b", "c"][0..] == ["a", "b", "c"] && ["a", "b", "c"][1..] == ["b", "c"];
  }

  /** Pass 1: `b` is yielded. */
  lemma WaitingFirstStep2(g: Graph)
    requires WaitingEntries(g)
    ensures Sweep(g, ["b", "c"], []) == Sweep(g, ["c"], ["b"])
  {
    Yields(g, ["b", "c"], 0, [], ["b"]);
    assert ["b", "c"][0..] == ["b", "c"] && ["b", "c"][1..] == ["c"];
  }

  /** Pass 1: `c` is yielded. */
  lemma WaitingFirstStep3(g: Graph)
    requires WaitingEntries(g)
    ensures Sweep(g, ["c"], ["b"]) == Sweep(g, [], ["b", "c"])
  {
    Yields(g, ["c"], 0, ["b"], ["b", "c"]);
    assert ["c"][0..] == ["c"] && ["c"][1..] == [];
  }

  lemma WaitingFirstPass(g: Graph)
    requires WaitingEntries(g)
    ensures Sweep(g, PassScan(g, []), []) == Schedule(["b", "c"], None)
  {
    WaitingFirstScan(g);
    WaitingFirstStep1(g);
    WaitingFirstStep2(g);
    WaitingFirstStep3(g);
  }

  lemma WaitingSecondScan(g: Graph)
    requires WaitingEntries(g)
    ensures PassScan(g, ["b", "c"]) == ["a"]
  {
    SingleLetters();
    assert Remaining(g, ["b", "c"]).Keys == {"a"};
    SortedKeysUnique({"a"}, ["a"]);
  }

  /** Pass 2: `a` is yielded. */
  lemma WaitingSecondStep1(g: Graph)
    requires WaitingEntries(g)
    ensures Sweep(g, ["a"], ["b", "c"]) == Sweep(g, [], ["b", "c", "a"])
  {
    Yields(g, ["a"], 0, ["b", "c"], ["b", "c", "a"]);
    assert ["a"][0..] == ["a"] && ["a"][1..] == [];
  }

  lemma WaitingSecondPass(g: Graph)
    requires WaitingEntries(g)
    ensures Sweep(g, PassScan(g, ["b", "c"]), ["b", "c"]) == Schedule(["b", "c", "a"], None)
  {
    WaitingSecondScan(g);
    WaitingSecondStep1(g);
  }

  /**
    `{'a': ['b'], 'b': [], 'c': []}` yields `b, c, a`: the first pass skips
    `a`, yields `b`, and goes on to `c` before `a` is looked at again.
   */
  lemma SweepContinuesPastWaiting(g: Graph)
    requires g == map["a" := ["b"], "b" := [], "c" := []]
    ensures Resolve(g) == Schedule(["b", "c", "a"], None)
  {
    assert WaitingEntries(g);
    WaitingFirstPass(g);
    assert !AllYielded(g, ["b", "c"]) by { assert "a" in g; }
    PassContinues(g, [], MaxPasses);
    WaitingSecondPass(g);
    assert AllYielded(g, ["b", "c", "a"]);
    PassSucceeds(g, ["b", "c"], MaxPasses - 1);
  }

  // ----- a cycle -----

  /** `{'a': ['b'], 'b': ['a']}`, entry by entry. */
  ghost predicate CycleEntries(g: Graph)
  {
    g.Keys == {"a", "b"} && g["a"] == ["b"] && g["b"] == ["a"]
  }

  lemma CycleScan(g: Graph)
    requires CycleEntries(g)
    ensures PassScan(g, []) == ["a", "b"]
  {
    SingleLetters();
    assert Remaining(g, []).Keys == {"a", "b"};
    SortedKeysUnique({"a", "b"}, ["a", "b"]);
  }

  /** The only pass: `a` waits for `b`, `b` waits for `a`, nothing is yielded. */
  lemma CyclePass(g: Graph)
    requires CycleEntries(g)
    ensures Sweep(g, PassScan(g, []), []) == Schedule([], None)
  {
    CycleScan(g);
    Waits(g, ["a", "b"], 0, [], "b");
    Waits(g, ["a", "b"], 1, [], "a");
    assert ["a", "b"][0..] == ["a", "b"] && ["a", "b"][2..] == [];
  }

  /**
    `{'a': ['b'], 'b': ['a']}` yields nothing: every pass stalls, and after the
    last one the run raises the failsafe error with both packages remaining.
   */
  lemma CycleExample(g: Graph)
    requires g == map["a" := ["b"], "b" := ["a"]]
    ensures Resolve(g) == Schedule([], Some(Unresolved(g)))
  {
    assert CycleEntries(g);
    CyclePass(g);
    assert !AllYielded(g, []) by { assert "a" in g; }
    StallIsFinal(g, [], MaxPasses);
    assert Remaining(g, []) == g;
  }

  // ----- an undefined dependency -----

  /** A package that depends on a name that is no package stops the run at once: `{'a': ['z']}`. */
  lemma UndefinedExample()
    ensures Resolve(map["a" := ["z"]]) == Schedule([], Some(UndefinedDependency("a", "z")))
  {
    var g: Graph := map["a" := ["z"]];
    assert Remaining(g, []).Keys == {"a"};
    SortedKeysUnique({"a"}, ["a"]);
    var scan := ["a"];
    assert "z" !in g by { assert "z"[0] != "a"[0]; }
    assert !Ready(g["a"], []) by { assert "z" in g["a"]; }
    assert FirstUndefined(g["a"], g) == Some("z");
    SweepNotReady(g, scan, 0, []);
    PassFails(g, [], MaxPasses);
  }
}
