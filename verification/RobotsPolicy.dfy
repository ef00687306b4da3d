/** The decision a robots policy takes on a request target (section 2.2.2 of RFC 9309). */
module RobotsPolicy {
  import opened Wrappers
  import opened RobotsPattern
  import opened RobotsNormalize

  datatype Rule = Rule(pattern: seq<Byte>, allow: bool, specificity: int)

  const SLASH: Byte := 47
  const QUERY: Byte := 63

  /** A rule line's value becomes a rule when it starts with a slash or a star and normalizes. */
  function RuleFrom(allow: bool, value: seq<Byte>): (r: Option<Rule>)
    ensures r.Some? ==> WellFormed(r.value) && r.value.allow == allow
  {
    if value == [] || (value[0] != SLASH && value[0] != STAR) then None
    else
      var normalized := Normalized(value, false);
      if normalized.None? then None
      else
        MeaningOfNonEmpty(value, false);
        Some(Rule(normalized.value, allow, |normalized.value|))
  }

  predicate WellFormed(rule: Rule) {
    rule.pattern != [] && rule.specificity == |rule.pattern|
  }

  lemma MeaningOfNonEmpty(v: seq<Byte>, encodeSpecial: bool)
    requires v != [] && Meaning(v, encodeSpecial).Some? && v[0] < 128
    ensures Spelling(Meaning(v, encodeSpecial).value) != []
  {
  }

  method MakeRule(allow: bool, pattern: seq<Byte>) returns (r: Option<Rule>)
    ensures r == RuleFrom(allow, pattern)
  {
    if pattern == [] || (pattern[0] != SLASH && pattern[0] != STAR) {
      return None;
    }
    var normalized := NormalizeMatchValue(pattern, false);
    if normalized.None? {
      return None;
    }
    r := Some(Rule(normalized.value, allow, |normalized.value|));
  }

  /** No rule has the empty pattern, so on rules the loop decides the language. */
  lemma RulesAreNeverEmpty(allow: bool, value: seq<Byte>, target: seq<Byte>)
    requires RuleFrom(allow, value).Some?
    ensures var p := RuleFrom(allow, value).value.pattern;
            p != [] && (LoopMatches(p, target) <==> RuleMatches(p, target))
  {
    LoopDiffersExactly(RuleFrom(allow, value).value.pattern, target);
    MeaningOfNonEmpty(value, false);
  }

  /** A request target: whether it is an http(s) URL with a host and no credentials, and its escaped parts. */
  datatype Target = Target(supported: bool, escapedPath: seq<Byte>, forceQuery: bool, rawQuery: seq<Byte>)

  function RequestValue(target: Target): seq<Byte> {
    (if target.escapedPath == [] then [SLASH] else target.escapedPath)
    + (if target.forceQuery || target.rawQuery != [] then [QUERY] + target.rawQuery else [])
  }

  /** The string rules are matched against; nothing when the target is unsupported or malformed. */
  function MatchValue(target: Target): Option<seq<Byte>> {
    if target.supported then Normalized(RequestValue(target), true) else None
  }

  const ROBOTS_TXT: seq<Byte> := [47, 114, 111, 98, 111, 116, 115, 46, 116, 120, 116]

  /** The longest matching rule wins, allow wins ties, and no match allows. */
  ghost predicate Permits(rules: seq<Rule>, value: seq<Byte>) {
    || (forall r :: r in rules ==> !RuleMatches(r.pattern, value))
    || (exists r :: && r in rules && RuleMatches(r.pattern, value) && r.allow
                    && forall q :: q in rules && RuleMatches(q.pattern, value) ==> |q.pattern| <= |r.pattern|)
  }

  /** The policy's decision; unsupported targets fail closed and the policy file itself is always allowed. */
  ghost predicate Decision(rules: seq<Rule>, target: Target) {
    && MatchValue(target).Some?
    && (MatchValue(target).value == ROBOTS_TXT || Permits(rules, MatchValue(target).value))
  }

  /** Which rules match a value, in order. */
  ghost function Matching(rules: seq<Rule>, value: seq<Byte>): seq<bool> {
    seq(|rules|, k requires 0 <= k < |rules| => RuleMatches(rules[k].pattern, value))
  }

  /** The best match among the first i rules, as the loop tracks it. */
  ghost predicate Best(rules: seq<Rule>, matching: seq<bool>, i: nat, allowed: bool, best: int)
    requires i <= |rules| == |matching|
  {
    && (forall k :: 0 <= k < i && matching[k] ==>
          rules[k].specificity <= best && (rules[k].specificity == best && rules[k].allow ==> allowed))
    && (best < 0 ==> best == -1 && allowed)
    && (best >= 0 ==>
          exists k :: 0 <= k < i && matching[k] && rules[k].specificity == best && rules[k].allow == allowed)
  }

  lemma BestDecides(rules: seq<Rule>, value: seq<Byte>, allowed: bool, best: int)
    requires forall r :: r in rules ==> WellFormed(r)
    requires Best(rules, Matching(rules, value), |rules|, allowed, best)
    ensures allowed == Permits(rules, value)
  {
    var matching := Matching(rules, value);
    forall r | r in rules && RuleMatches(r.pattern, value)
      ensures |r.pattern| <= best && (|r.pattern| == best && r.allow ==> allowed)
    {
      var k :| 0 <= k < |rules| && rules[k] == r;
      assert matching[k] && WellFormed(r);
    }
    if best >= 0 {
      var k :| 0 <= k < |rules| && matching[k] && rules[k].specificity == best && rules[k].allow == allowed;
      assert rules[k] in rules && WellFormed(rules[k]);
    }
  }

  /** One turn of the decision loop. */
  lemma BestExtends(rules: seq<Rule>, matching: seq<bool>, i: nat, allowed: bool, best: int)
    requires i < |rules| == |matching| && WellFormed(rules[i]) && Best(rules, matching, i, allowed, best)
    ensures var better := rules[i].specificity > best || (rules[i].specificity == best && rules[i].allow);
            if matching[i] && better then Best(rules, matching, i + 1, rules[i].allow, rules[i].specificity)
            else Best(rules, matching, i + 1, allowed, best)
  {
  }

  /** The decision loop. */
  method Allowed(rules: seq<Rule>, target: Target) returns (allowed: bool)
    requires forall r :: r in rules ==> WellFormed(r)
    ensures allowed <==> Decision(rules, target)
  {
    if !target.supported {
      return false;
    }
    var targetValue := NormalizeMatchValue(RequestValue(target), true);
    if targetValue.None? {
      return false;
    }
    if targetValue.value == ROBOTS_TXT {
      return true;
    }
    allowed := AllowedValue(rules, targetValue.value);
  }

  method AllowedValue(rules: seq<Rule>, value: seq<Byte>) returns (allowed: bool)
    requires forall r :: r in rules ==> WellFormed(r)
    ensures allowed <==> Permits(rules, value)
  {
    allowed := true;
    var bestSpecificity := -1;
    ghost var matching := Matching(rules, value);
    for i := 0 to |rules|
      invariant Best(rules, matching, i, allowed, bestSpecificity)
    {
      var candidate := rules[i];
      assert WellFormed(candidate);
      BestExtends(rules, matching, i, allowed, bestSpecificity);
      var matched := PatternMatches(candidate.pattern, value);
      if matched && (candidate.specificity > bestSpecificity ||
                     (candidate.specificity == bestSpecificity && candidate.allow)) {
        bestSpecificity := candidate.specificity;
        allowed := candidate.allow;
      }
    }
    BestDecides(rules, value, allowed, bestSpecificity);
  }

  /** Rule order and repetition do not matter. */
  lemma RuleOrderIsIrrelevant(a: seq<Rule>, b: seq<Rule>, target: Target)
    requires multiset(a) == multiset(b)
    ensures Decision(a, target) == Decision(b, target)
  {
    forall r ensures r in a <==> r in b {
      assert r in a <==> r in multiset(a);
      assert r in b <==> r in multiset(b);
    }
  }

  /** Targets whose request values mean the same get the same decision. */
  lemma SameMeaningSameDecision(rules: seq<Rule>, t: Target, u: Target)
    requires t.supported == u.supported
    requires Meaning(RequestValue(t), true) == Meaning(RequestValue(u), true)
    ensures Decision(rules, t) == Decision(rules, u)
  {
  }

  /** In particular, percent-encoding an unreserved character of the path never changes a decision. */
  lemma EncodedPathSameDecision(rules: seq<Rule>, t: Target, before: seq<Byte>, c: Byte, e: seq<Byte>, after: seq<Byte>)
    requires t.escapedPath == before + [c] + after
    requires Meaning(before, true).Some? && IsUnreserved(c) && Escapes(e, c)
    ensures Decision(rules, t) == Decision(rules, t.(escapedPath := before + e + after))
  {
    var query := if t.forceQuery || t.rawQuery != [] then [QUERY] + t.rawQuery else [];
    assert t.escapedPath != [] && before + e + after != [];
    assert (before + [c] + after) + query == before + [c] + (after + query);
    assert (before + e + after) + query == before + e + (after + query);
    EncodingUnreservedIsNeutral(before, c, e, after + query, true);
  }
}
