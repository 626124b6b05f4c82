/**
  Python's ordering of `str` values (code point by code point, a proper prefix
  comes first) and the two uses of `sorted` that the build planner makes: sorting
  the keys of a dictionary (no duplicates) and sorting a list of build names
  (duplicates allowed).
 */
module Lexicographic {

  /** `a <= b` for Python strings. */
  predicate Below(a: string, b: string)
  {
    |a| == 0 || (|b| > 0 && (a[0] < b[0] || (a[0] == b[0] && Below(a[1..], b[1..]))))
  }

  /** `a < b` for Python strings. */
  predicate Less(a: string, b: string)
  {
    Below(a, b) && a != b
  }

  lemma {:induction false} BelowReflexive(a: string)
    ensures Below(a, a)
  {
    if |a| > 0 {
      BelowReflexive(a[1..]);
    }
  }

  lemma {:induction false} BelowAntisymmetric(a: string, b: string)
    requires Below(a, b) && Below(b, a)
    ensures a == b
  {
    if |a| > 0 && |b| > 0 {
      BelowAntisymmetric(a[1..], b[1..]);
      assert a == [a[0]] + a[1..] && b == [b[0]] + b[1..];
    }
  }

  lemma {:induction false} BelowTransitive(a: string, b: string, c: string)
    requires Below(a, b) && Below(b, c)
    ensures Below(a, c)
  {
    if |a| > 0 && |b| > 0 && |c| > 0 && a[0] == b[0] && b[0] == c[0] {
      BelowTransitive(a[1..], b[1..], c[1..]);
    }
  }

  lemma {:induction false} BelowTotal(a: string, b: string)
    ensures Below(a, b) || Below(b, a)
  {
    if |a| > 0 && |b| > 0 && a[0] == b[0] {
      BelowTotal(a[1..], b[1..]);
    }
  }

  lemma BelowIsAntisymmetric()
    ensures forall a, b :: Below(a, b) && Below(b, a) ==> a == b
  {
    forall a, b | Below(a, b) && Below(b, a) ensures a == b {
      BelowAntisymmetric(a, b);
    }
  }

  predicate IsLeast(m: string, s: set<string>)
  {
    m in s && forall y :: y in s ==> Below(m, y)
  }

  lemma {:induction false} LeastExists(s: set<string>)
    requires s != {}
    ensures exists m :: IsLeast(m, s)
    decreases |s|
  {
    var x :| x in s;
    var rest := s - {x};
    if rest == {} {
      BelowReflexive(x);
      assert s == {x};
      assert IsLeast(x, s);
    } else {
      LeastExists(rest);
      var m :| IsLeast(m, rest);
      BelowTotal(x, m);
      if Below(x, m) {
        forall y | y in s ensures Below(x, y) {
          if y == x { BelowReflexive(x); } else { BelowTransitive(x, m, y); }
        }
        assert IsLeast(x, s);
      } else {
        assert IsLeast(m, s);
      }
    }
  }

  /** Every element strictly before every later one: what `sorted` gives for distinct keys. */
  predicate StrictlyAscending(r: seq<string>)
  {
    forall i, j :: 0 <= i < j < |r| ==> Less(r[i], r[j])
  }

  /** What `sorted` gives for a list that may hold duplicates. */
  predicate Ascending(r: seq<string>)
  {
    forall i, j :: 0 <= i < j < |r| ==> Below(r[i], r[j])
  }

  /** `sorted(d)` for a dictionary `d` with key set `s`. */
  function SortedKeys(s: set<string>): (r: seq<string>)
    ensures forall x :: x in r <==> x in s
    ensures |r| == |s|
    decreases |s|
  {
    if s == {} then []
    else
      LeastExists(s);
      BelowIsAntisymmetric();
      var m :| IsLeast(m, s);
      [m] + SortedKeys(s - {m})
  }

  /** The listing is in strictly ascending order. */
  lemma {:induction false} SortedKeysAscending(s: set<string>)
    ensures StrictlyAscending(SortedKeys(s))
    decreases |s|
  {
    if s != {} {
      var r := SortedKeys(s);
      var m := r[0];
      var rest := SortedKeys(s - {m});
      SortedKeysHead(s);
      SortedKeysAscending(s - {m});
      forall y | y in rest ensures Less(m, y) {
        assert y in s - {m};
      }
      AscendingCons(m, rest);
    }
  }

  lemma AscendingCons(m: string, rest: seq<string>)
    requires StrictlyAscending(rest)
    requires forall y :: y in rest ==> Less(m, y)
    ensures StrictlyAscending([m] + rest)
  {
    var r := [m] + rest;
    forall i, j | 0 <= i < j < |r| ensures Less(r[i], r[j]) {
      assert r[j] == rest[j - 1] && rest[j - 1] in rest;
      if i > 0 {
        assert r[i] == rest[i - 1];
      }
    }
  }

  /** The head of the listing of `s` is the least element of `s`, and the tail lists the rest. */
  lemma SortedKeysHead(s: set<string>)
    requires s != {}
    ensures IsLeast(SortedKeys(s)[0], s)
    ensures SortedKeys(s) == [SortedKeys(s)[0]] + SortedKeys(s - {SortedKeys(s)[0]})
  {
  }

  /** The first element of a strictly ascending listing of `s` is the least element of `s`. */
  lemma HeadIsLeast(s: set<string>, r: seq<string>)
    requires StrictlyAscending(r) && r != []
    requires forall x :: x in r <==> x in s
    ensures IsLeast(r[0], s)
  {
    forall y | y in s ensures Below(r[0], y) {
      assert y in r;
      var j :| 0 <= j < |r| && r[j] == y;
      if j == 0 { BelowReflexive(y); } else { assert Less(r[0], r[j]); }
    }
  }

  lemma ListingEmpty(s: set<string>, r: seq<string>)
    requires forall x :: x in r <==> x in s
    ensures r == [] <==> s == {}
  {
    if r != [] { assert r[0] in r; }
    if s != {} { var x :| x in s; assert x in r; }
  }

  /** Dropping the head of a strictly ascending listing of `s` lists `s` without its least element. */
  lemma ListingTail(s: set<string>, r: seq<string>)
    requires StrictlyAscending(r) && r != []
    requires forall x :: x in r <==> x in s
    ensures StrictlyAscending(r[1..])
    ensures forall x :: x in r[1..] <==> x in s - {r[0]}
  {
    var tail := r[1..];
    forall i, j | 0 <= i < j < |tail| ensures Less(tail[i], tail[j]) {
      assert tail[i] == r[i + 1] && tail[j] == r[j + 1];
    }
    forall x ensures x in tail <==> x in s - {r[0]} {
      if x in tail {
        var j :| 0 <= j < |tail| && tail[j] == x;
        assert Less(r[0], r[j + 1]);
      }
      if x in s - {r[0]} {
        assert x in r;
        var j :| 0 <= j < |r| && r[j] == x;
        assert tail[j - 1] == x;
      }
    }
  }

  /** A sorted listing of a set is unique: any strictly ascending listing of `s` is `SortedKeys(s)`. */
  lemma {:induction false} SortedKeysUnique(s: set<string>, r: seq<string>)
    requires StrictlyAscending(r)
    requires forall x :: x in r <==> x in s
    ensures r == SortedKeys(s)
    decreases |s|
  {
    ListingEmpty(s, r);
    if r != [] {
      var k := SortedKeys(s);
      HeadIsLeast(s, r);
      SortedKeysHead(s);
      BelowAntisymmetric(r[0], k[0]);
      ListingTail(s, r);
      SortedKeysUnique(s - {r[0]}, r[1..]);
      assert r == [r[0]] + r[1..];
    }
  }

  /** Insert `x` into the ascending list `s` after every element it is not below. */
  function Insert(x: string, s: seq<string>): (r: seq<string>)
    requires Ascending(s)
    ensures Ascending(r)
    ensures multiset(r) == multiset(s) + multiset{x}
    decreases |s|
  {
    if s == [] then [x]
    else if Below(x, s[0]) then
      assert forall j :: 0 <= j < |s| ==> Below(x, s[j]) by {
        forall j | 0 <= j < |s| ensures Below(x, s[j]) {
          if j > 0 { BelowTransitive(x, s[0], s[j]); }
        }
      }
      [x] + s
    else
      BelowTotal(x, s[0]);
      var rest := Insert(x, s[1..]);
      assert s == [s[0]] + s[1..];
      assert forall j :: 0 <= j < |rest| ==> Below(s[0], rest[j]) by {
        forall j | 0 <= j < |rest| ensures Below(s[0], rest[j]) {
          assert rest[j] in multiset(rest);
          assert rest[j] in multiset(s[1..]) + multiset{x};
          if rest[j] != x {
            var k :| 0 <= k < |s[1..]| && s[1..][k] == rest[j];
            assert s[k + 1] == rest[j];
          }
        }
      }
      [s[0]] + rest
  }

  /** `sorted(names)` for a list of strings. */
  function Sort(s: seq<string>): (r: seq<string>)
    ensures Ascending(r)
    ensures multiset(r) == multiset(s)
    ensures |r| == |s|
  {
    if s == [] then []
    else
      var rest := Sort(s[..|s| - 1]);
      assert s == s[..|s| - 1] + [s[|s| - 1]];
      var r := Insert(s[|s| - 1], rest);
      assert |r| == |multiset(r)|;
      r
  }

}
