/**
  The string operations the planner uses: `s.split(sep)` with an explicit
  one-character separator, `sep.join(parts)`, the substring test `t in s`,
  `s.split(' ')[0]` and `os.sep.join(path.split(os.sep)[-2:])`.
 */
module Text {

  /** `sep.join(parts)`. */
  function Join(parts: seq<string>, sep: char): string
    decreases |parts|
  {
    if |parts| == 0 then []
    else if |parts| == 1 then parts[0]
    else parts[0] + [sep] + Join(parts[1..], sep)
  }

  /** `s.split(sep)`: never empty, no piece holds the separator, and joining the pieces gives `s` back. */
  function Split(s: string, sep: char): (r: seq<string>)
    ensures |r| >= 1
    ensures forall i :: 0 <= i < |r| ==> sep !in r[i]
    ensures Join(r, sep) == s
    decreases |s|
  {
    if s == [] then [[]]
    else
      var rest := Split(s[1..], sep);
      if s[0] == sep then
        assert s == [] + [sep] + Join(rest, sep);
        [[]] + rest
      else
        var r := [[s[0]] + rest[0]] + rest[1..];
        assert r[1..] == rest[1..];
        assert s == [s[0]] + s[1..];
        r
  }

  /** Joining separator-free pieces and splitting again gives the pieces back. */
  lemma {:induction false} SplitJoin(parts: seq<string>, sep: char)
    requires |parts| >= 1
    requires forall i :: 0 <= i < |parts| ==> sep !in parts[i]
    ensures Split(Join(parts, sep), sep) == parts
    decreases |parts|, |parts[0]|
  {
    var s := Join(parts, sep);
    if |parts[0]| > 0 {
      // peel the first character off the first piece
      var shorter := [parts[0][1..]] + parts[1..];
      assert shorter[1..] == parts[1..];
      forall i | 0 <= i < |shorter| ensures sep !in shorter[i] {
        if i == 0 { assert forall c :: c in parts[0][1..] ==> c in parts[0]; }
      }
      SplitJoin(shorter, sep);
      JoinCons(parts, sep);
      JoinCons(shorter, sep);
      assert s == [parts[0][0]] + Join(shorter, sep);
      assert s[0] == parts[0][0] && s[1..] == Join(shorter, sep);
      assert parts[0][0] in parts[0];
      assert parts[0] == [parts[0][0]] + parts[0][1..];
      assert Split(s, sep) == [[s[0]] + shorter[0]] + shorter[1..];
      assert parts == [[s[0]] + shorter[0]] + shorter[1..];
    } else if |parts| > 1 {
      SplitJoin(parts[1..], sep);
      assert s == [sep] + Join(parts[1..], sep);
      assert s[1..] == Join(parts[1..], sep);
      assert parts == [[]] + parts[1..];
    }
  }

  /** How the first piece sits at the front of a join. */
  lemma JoinCons(parts: seq<string>, sep: char)
    requires |parts| >= 1
    ensures Join(parts, sep) == parts[0] + (if |parts| == 1 then [] else [sep] + Join(parts[1..], sep))
  {
  }

  /** `s.split(' ')[0]`: the part of a dependency specifier before its first space. */
  function FirstWord(s: string): string
  {
    Split(s, ' ')[0]
  }

  /** `w` is `s` up to, and not including, its first space. */
  predicate IsFirstWord(w: string, s: string)
  {
    w <= s && ' ' !in w && (|w| < |s| ==> s[|w|] == ' ')
  }

  lemma FirstWordSpec(s: string)
    ensures IsFirstWord(FirstWord(s), s)
  {
    var parts := Split(s, ' ');
    JoinCons(parts, ' ');
  }

  /** At most one string is the first word of `s`. */
  lemma {:induction false} FirstWordUnique(w: string, v: string, s: string)
    requires IsFirstWord(w, s) && IsFirstWord(v, s)
    ensures w == v
  {
  }

  /** `t in s` for strings: `t` occurs in `s` at some offset. */
  predicate Contains(s: string, t: string)
    decreases |s|
  {
    |t| <= |s| && (s[..|t|] == t || Contains(s[1..], t))
  }

  /** `t` occurs in `s` starting at offset `i`. */
  predicate OccursAt(s: string, t: string, i: int)
  {
    0 <= i <= |s| - |t| && s[i..i + |t|] == t
  }

  lemma {:induction false} ContainsAt(s: string, t: string)
    ensures Contains(s, t) <==> exists i :: OccursAt(s, t, i)
    decreases |s|
  {
    if |t| <= |s| && s[..|t|] != t {
      ContainsAt(s[1..], t);
      if exists i :: OccursAt(s, t, i) {
        var i :| OccursAt(s, t, i);
        assert i > 0;
        assert s[1..][i - 1..i - 1 + |t|] == s[i..i + |t|];
        assert OccursAt(s[1..], t, i - 1);
      }
      if Contains(s[1..], t) {
        var i :| OccursAt(s[1..], t, i);
        assert s[i + 1..i + 1 + |t|] == s[1..][i..i + |t|];
        assert OccursAt(s, t, i + 1);
      }
    } else if |t| <= |s| {
      assert OccursAt(s, t, 0);
    }
  }

  /** `os.sep.join(path.split(os.sep)[-2:])`: the last two segments of a path. */
  function LastTwoSegments(path: string, sep: char): string
  {
    var parts := Split(path, sep);
    Join(if |parts| >= 2 then parts[|parts| - 2..] else parts, sep)
  }

  predicate IsSuffix(r: string, s: string)
  {
    |r| <= |s| && s[|s| - |r|..] == r
  }

  /** Number of occurrences of `c` in `s`. */
  function Count(s: string, c: char): nat
  {
    if s == [] then 0 else (if s[0] == c then 1 else 0) + Count(s[1..], c)
  }

  lemma {:induction false} CountConcat(a: string, b: string, c: char)
    ensures Count(a + b, c) == Count(a, c) + Count(b, c)
    decreases |a|
  {
    if a == [] {
      assert a + b == b;
    } else {
      assert (a + b)[0] == a[0];
      assert (a + b)[1..] == a[1..] + b;
      CountConcat(a[1..], b, c);
    }
  }

  lemma {:induction false} CountAbsent(s: string, c: char)
    requires c !in s
    ensures Count(s, c) == 0
    decreases |s|
  {
    if s != [] {
      assert forall x :: x in s[1..] ==> x in s;
      CountAbsent(s[1..], c);
    }
  }

  /** Joining separator-free pieces puts exactly one separator between neighbours. */
  lemma {:induction false} CountJoin(parts: seq<string>, sep: char)
    requires |parts| >= 1
    requires forall i :: 0 <= i < |parts| ==> sep !in parts[i]
    ensures Count(Join(parts, sep), sep) == |parts| - 1
    decreases |parts|
  {
    CountAbsent(parts[0], sep);
    if |parts| > 1 {
      CountJoin(parts[1..], sep);
      CountConcat(parts[0] + [sep], Join(parts[1..], sep), sep);
      CountConcat(parts[0], [sep], sep);
      assert Count([sep], sep) == 1 by { assert [sep][1..] == []; }
    }
  }

  /** Joining a tail of the pieces gives a suffix of the whole join. */
  lemma {:induction false} JoinDropSuffix(parts: seq<string>, sep: char, k: nat)
    requires k < |parts|
    ensures IsSuffix(Join(parts[k..], sep), Join(parts, sep))
    ensures k > 0 ==> |Join(parts[k..], sep)| < |Join(parts, sep)|
    decreases k
  {
    if k > 0 {
      JoinDropSuffix(parts[1..], sep, k - 1);
      assert parts[1..][k - 1..] == parts[k..];
      JoinCons(parts, sep);
    }
  }

  /** The suffix kept by dropping the first `k > 0` pieces starts right after a separator. */
  lemma {:induction false} JoinSeparatorBefore(parts: seq<string>, sep: char, k: nat)
    requires 0 < k < |parts|
    ensures |Join(parts[k..], sep)| < |Join(parts, sep)|
    ensures Join(parts, sep)[|Join(parts, sep)| - |Join(parts[k..], sep)| - 1] == sep
    decreases k
  {
    var head := parts[0] + [sep];
    var whole := Join(parts[1..], sep);
    assert Join(parts, sep) == head + whole;
    if k == 1 {
      assert parts[1..] == parts[k..];
      assert Join(parts, sep)[|head| - 1] == sep;
    } else {
      JoinSeparatorBefore(parts[1..], sep, k - 1);
      assert parts[1..][k - 1..] == parts[k..];
      var i := |whole| - |Join(parts[k..], sep)| - 1;
      assert Join(parts, sep)[|head| + i] == whole[i];
    }
  }

  /**
    The build name is the tail of the path from just after its second-to-last
    separator, or the whole path when it has fewer than two separators.
   */
  lemma LastTwoSegmentsSpec(path: string, sep: char)
    ensures IsSuffix(LastTwoSegments(path, sep), path)
    ensures Count(LastTwoSegments(path, sep), sep) == if Count(path, sep) >= 1 then 1 else 0
    ensures LastTwoSegments(path, sep) == path <==> Count(path, sep) <= 1
    ensures |LastTwoSegments(path, sep)| < |path| ==>
      path[|path| - |LastTwoSegments(path, sep)| - 1] == sep
  {
    var parts := Split(path, sep);
    CountJoin(parts, sep);
    if |parts| >= 2 {
      var tail := parts[|parts| - 2..];
      JoinDropSuffix(parts, sep, |parts| - 2);
      if |parts| > 2 {
        JoinSeparatorBefore(parts, sep, |parts| - 2);
      }
      forall i | 0 <= i < |tail| ensures sep !in tail[i] {
        assert tail[i] == parts[|parts| - 2 + i];
      }
      CountJoin(tail, sep);
    }
  }

}
