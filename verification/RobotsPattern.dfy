/**
 The wildcard matcher of the robots engine: the backtracking loop, the glob
 meaning of a rule pattern (section 2.2.3 of RFC 9309), and the proof that the
 two agree on every pattern a rule can carry.

 Go strings are byte sequences, so patterns and targets are sequences of bytes.
 */
module RobotsPattern {

  type Byte = b: int | 0 <= b < 256

  const STAR: Byte := 42
  const DOLLAR: Byte := 36

  /** The pattern matches all of the text; a star stands for any run of bytes. */
  ghost predicate Glob(p: seq<Byte>, t: seq<Byte>)
    decreases |p|
  {
    if p == [] then t == []
    else if p[0] == STAR then exists k :: 0 <= k <= |t| && Glob(p[1..], t[k..])
    else t != [] && p[0] == t[0] && Glob(p[1..], t[1..])
  }

  predicate Anchored(pattern: seq<Byte>) {
    pattern != [] && pattern[|pattern| - 1] == DOLLAR
  }

  function Body(pattern: seq<Byte>): seq<Byte> {
    if Anchored(pattern) then pattern[..|pattern| - 1] else pattern
  }

  /** What a rule pattern means: all of the target when it ends in a dollar
      sign, some prefix of the target otherwise. */
  ghost predicate RuleMatches(pattern: seq<Byte>, target: seq<Byte>) {
    if Anchored(pattern) then Glob(Body(pattern), target)
    else exists k :: 0 <= k <= |target| && Glob(pattern, target[..k])
  }

  /** The pattern from position i can match the text from position j; `whole` asks for all of the text. */
  ghost predicate From(p: seq<Byte>, i: nat, t: seq<Byte>, j: nat, whole: bool)
    requires i <= |p| && j <= |t|
    decreases |p| - i
  {
    if i == |p| then !whole || j == |t|
    else if p[i] == STAR then var n := i + 1; exists k :: j <= k <= |t| && From(p, n, t, k, whole)
    else j < |t| && p[i] == t[j] && From(p, i + 1, t, j + 1, whole)
  }

  /** The pattern from position i matches some tail of the text that starts at or after `from`. */
  ghost predicate SomeTail(p: seq<Byte>, i: nat, t: seq<Byte>, from: nat, whole: bool)
    requires i <= |p|
  {
    exists k :: from <= k <= |t| && From(p, i, t, k, whole)
  }

  lemma {:induction false} FromWhole(p: seq<Byte>, i: nat, t: seq<Byte>, j: nat)
    requires i <= |p| && j <= |t|
    ensures From(p, i, t, j, true) == Glob(p[i..], t[j..])
    decreases |p| - i
  {
    if i < |p| {
      assert p[i..][1..] == p[i + 1..];
      if p[i] == STAR {
        var n := i + 1;
        forall k | j <= k <= |t| ensures From(p, n, t, k, true) == Glob(p[i + 1..], t[j..][k - j..]) {
          FromWhole(p, i + 1, t, k);
          assert t[j..][k - j..] == t[k..];
        }
        if Glob(p[i..], t[j..]) {
          var d :| 0 <= d <= |t[j..]| && Glob(p[i + 1..], t[j..][d..]);
          assert From(p, n, t, j + d, true);
        }
        if From(p, i, t, j, true) {
          var k :| j <= k <= |t| && From(p, i + 1, t, k, true);
          assert Glob(p[i..][1..], t[j..][k - j..]);
        }
      } else if j < |t| {
        assert t[j..][1..] == t[j + 1..];
        FromWhole(p, i + 1, t, j + 1);
      }
    }
  }

  /** Matching some prefix is matching all of a shorter text. */
  lemma {:induction false} FromPrefix(p: seq<Byte>, i: nat, t: seq<Byte>, j: nat, k: nat)
    requires i <= |p| && j <= k <= |t|
    requires From(p, i, t[..k], j, true)
    ensures From(p, i, t, j, false)
    decreases |p| - i
  {
    if i < |p| {
      if p[i] == STAR {
        var m :| j <= m <= k && From(p, i + 1, t[..k], m, true);
        FromPrefix(p, i + 1, t, m, k);
      } else {
        FromPrefix(p, i + 1, t, j + 1, k);
      }
    }
  }

  lemma {:induction false} FromSomePrefix(p: seq<Byte>, i: nat, t: seq<Byte>, j: nat) returns (k: nat)
    requires i <= |p| && j <= |t| && From(p, i, t, j, false)
    ensures j <= k <= |t| && From(p, i, t[..k], j, true)
    decreases |p| - i
  {
    if i == |p| {
      k := j;
    } else if p[i] == STAR {
      var m :| j <= m <= |t| && From(p, i + 1, t, m, false);
      k := FromSomePrefix(p, i + 1, t, m);
    } else {
      k := FromSomePrefix(p, i + 1, t, j + 1);
    }
  }

  /** The left-to-right reading is the rule's meaning. */
  lemma FromIsRule(pattern: seq<Byte>, target: seq<Byte>)
    ensures From(Body(pattern), 0, target, 0, Anchored(pattern)) == RuleMatches(pattern, target)
  {
    var p := Body(pattern);
    assert p[0..] == p;
    if Anchored(pattern) {
      assert target[0..] == target;
      FromWhole(p, 0, target, 0);
    } else {
      if From(p, 0, target, 0, false) {
        var k := FromSomePrefix(p, 0, target, 0);
        FromWhole(p, 0, target[..k], 0);
        assert target[..k][0..] == target[..k];
      }
      if RuleMatches(pattern, target) {
        var k :| 0 <= k <= |target| && Glob(pattern, target[..k]);
        assert target[..k][0..] == target[..k];
        FromWhole(p, 0, target[..k], 0);
        FromPrefix(p, 0, target, 0, k);
      }
    }
  }

  /** Bytes s to s+n of the pattern hold no star and sit at position k of the text. */
  ghost predicate Placed(p: seq<Byte>, s: nat, n: nat, t: seq<Byte>, k: nat) {
    && s + n <= |p| && k + n <= |t|
    && forall x :: s <= x < s + n ==> p[x] != STAR && p[x] == t[x - s + k]
  }

  /** A star-free stretch matches exactly where it is placed. */
  lemma {:induction false} FromPlaced(p: seq<Byte>, s: nat, n: nat, t: seq<Byte>, k: nat, whole: bool)
    requires Placed(p, s, n, t, k)
    ensures From(p, s, t, k, whole) == From(p, s + n, t, k + n, whole)
    decreases n
  {
    if n > 0 {
      FromPlaced(p, s + 1, n - 1, t, k + 1, whole);
    }
  }

  /** A stretch with no star can match at k only if it fits there. */
  lemma {:induction false} FromFits(p: seq<Byte>, s: nat, n: nat, t: seq<Byte>, k: nat, whole: bool)
    requires s + n <= |p| && k <= |t| && forall x :: s <= x < s + n ==> p[x] != STAR
    requires From(p, s, t, k, whole)
    ensures k + n <= |t| && From(p, s + n, t, k + n, whole)
    decreases n
  {
    if n > 0 {
      FromFits(p, s + 1, n - 1, t, k + 1, whole);
    }
  }

  /**
   What the loop knows after reading i bytes of pattern and j of target, with
   the last star at `star` given the first `from` bytes of target.
   */
  ghost predicate Progress(p: seq<Byte>, t: seq<Byte>, i: nat, j: nat, star: int, from: nat, whole: bool) {
    && -1 <= star < i <= |p| && from <= j <= |t|
    && (star < 0 ==> From(p, 0, t, 0, whole) == From(p, i, t, j, whole))
    && (star >= 0 ==>
          && i - star - 1 == j - from && Placed(p, star + 1, j - from, t, from)
          && From(p, 0, t, 0, whole) == SomeTail(p, star + 1, t, from, whole))
  }

  /** Passing a star commits to the leftmost placement of the stretch before it, and loses nothing. */
  lemma PassStar(p: seq<Byte>, t: seq<Byte>, i: nat, j: nat, star: int, from: nat, whole: bool)
    requires Progress(p, t, i, j, star, from, whole) && i < |p| && p[i] == STAR
    ensures Progress(p, t, i + 1, j, i, j, whole)
  {
    assert From(p, i, t, j, whole) == SomeTail(p, i + 1, t, j, whole);
    if star >= 0 {
      var n := j - from;
      if SomeTail(p, star + 1, t, from, whole) {
        var k :| from <= k <= |t| && From(p, star + 1, t, k, whole);
        FromFits(p, star + 1, n, t, k, whole);
        var m :| k + n <= m <= |t| && From(p, i + 1, t, m, whole);
      }
      FromPlaced(p, star + 1, n, t, from, whole);
    }
  }

  lemma PassByte(p: seq<Byte>, t: seq<Byte>, i: nat, j: nat, star: int, from: nat, whole: bool)
    requires Progress(p, t, i, j, star, from, whole) && i < |p| && p[i] != STAR && j < |t| && p[i] == t[j]
    ensures Progress(p, t, i + 1, j + 1, star, from, whole)
  {
  }

  /** A failed placement of the stretch after the last star moves that star one byte on. */
  lemma BackToStar(p: seq<Byte>, t: seq<Byte>, i: nat, j: nat, star: int, from: nat, whole: bool)
    requires Progress(p, t, i, j, star, from, whole) && star >= 0 && j < |t|
    requires if i < |p| then p[i] != STAR && p[i] != t[j] else whole
    ensures Progress(p, t, star + 1, from + 1, star, from + 1, whole)
  {
    FromPlaced(p, star + 1, j - from, t, from, whole);
    assert !From(p, star + 1, t, from, whole);
  }

  /** With no star to go back to, the first mismatch is final. */
  lemma NoStar(p: seq<Byte>, t: seq<Byte>, i: nat, j: nat, from: nat, whole: bool)
    requires Progress(p, t, i, j, -1, from, whole) && j < |t|
    requires if i < |p| then p[i] != STAR && p[i] != t[j] else whole
    ensures !From(p, 0, t, 0, whole)
  {
  }

  /** Running out of an unanchored pattern is a match. */
  lemma ConsumedPattern(p: seq<Byte>, t: seq<Byte>, j: nat, star: int, from: nat)
    requires Progress(p, t, |p|, j, star, from, false)
    ensures From(p, 0, t, 0, false)
  {
    if star >= 0 {
      FromPlaced(p, star + 1, j - from, t, from, false);
      assert From(p, star + 1, t, from, false);
    }
  }

  /** With the target used up, only the placement reached so far can still match. */
  lemma AtEnd(p: seq<Byte>, t: seq<Byte>, i: nat, star: int, from: nat, whole: bool)
    requires Progress(p, t, i, |t|, star, from, whole)
    ensures From(p, 0, t, 0, whole) == From(p, i, t, |t|, whole)
  {
    if star >= 0 {
      FromPlaced(p, star + 1, |t| - from, t, from, whole);
      if SomeTail(p, star + 1, t, from, whole) {
        var k :| from <= k <= |t| && From(p, star + 1, t, k, whole);
        FromFits(p, star + 1, |t| - from, t, k, whole);
      }
    }
  }

  /**
   The matching loop. `starIndex` is the last star passed and
   `starTargetIndex` the number of bytes of target given to it. The loop
   decides exactly what the pattern means, except that the empty pattern is
   refused on a non-empty target.
   */
  method PatternMatches(rulePattern: seq<Byte>, target: seq<Byte>) returns (matched: bool)
    ensures matched <==> LoopMatches(rulePattern, target)
  {
    var anchored := Anchored(rulePattern);
    var pattern := Body(rulePattern);
    FromIsRule(rulePattern, target);

    var patternIndex, targetIndex, starIndex, starTargetIndex := 0, 0, -1, 0;
    while targetIndex < |target|
      invariant Progress(pattern, target, patternIndex, targetIndex, starIndex, starTargetIndex, anchored)
      invariant rulePattern != [] && !anchored ==> patternIndex < |pattern|
      invariant rulePattern == [] ==> targetIndex == 0
      decreases |pattern| - starIndex, |target| - starTargetIndex, |target| - targetIndex
    {
      if patternIndex < |pattern| && pattern[patternIndex] == STAR {
        PassStar(pattern, target, patternIndex, targetIndex, starIndex, starTargetIndex, anchored);
        starIndex := patternIndex;
        patternIndex := patternIndex + 1;
        starTargetIndex := targetIndex;
      } else if patternIndex < |pattern| && pattern[patternIndex] == target[targetIndex] {
        PassByte(pattern, target, patternIndex, targetIndex, starIndex, starTargetIndex, anchored);
        patternIndex := patternIndex + 1;
        targetIndex := targetIndex + 1;
      } else if starIndex >= 0 {
        BackToStar(pattern, target, patternIndex, targetIndex, starIndex, starTargetIndex, anchored);
        patternIndex := starIndex + 1;
        starTargetIndex := starTargetIndex + 1;
        targetIndex := starTargetIndex;
      } else {
        if rulePattern != [] {
          NoStar(pattern, target, patternIndex, targetIndex, starTargetIndex, anchored);
        }
        return false;
      }

      if !anchored && patternIndex == |pattern| {
        ConsumedPattern(pattern, target, targetIndex, starIndex, starTargetIndex);
        return true;
      }
    }

    AtEnd(pattern, target, patternIndex, starIndex, starTargetIndex, anchored);
    while patternIndex < |pattern| && pattern[patternIndex] == STAR
      invariant patternIndex <= |pattern|
      invariant From(pattern, 0, target, 0, anchored) == From(pattern, patternIndex, target, |target|, anchored)
    {
      assert From(pattern, patternIndex + 1, target, |target|, anchored) ==>
          From(pattern, patternIndex, target, |target|, anchored);
      patternIndex := patternIndex + 1;
    }
    matched := patternIndex == |pattern|;
  }

  /** What the loop answers. */
  ghost predicate LoopMatches(rulePattern: seq<Byte>, target: seq<Byte>) {
    RuleMatches(rulePattern, target) && (rulePattern != [] || target == [])
  }

  /** The loop and the language differ on the empty pattern and a non-empty target, and nowhere else. */
  lemma LoopDiffersExactly(rulePattern: seq<Byte>, target: seq<Byte>)
    ensures (LoopMatches(rulePattern, target) <==> RuleMatches(rulePattern, target)) <==>
      rulePattern != [] || target == []
  {
    if rulePattern == [] { assert Glob([], target[..0]); }
  }
}
