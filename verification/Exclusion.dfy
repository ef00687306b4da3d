/**
 Excluded hosts, decided twice: by a SQL filter that escapes each pattern and
 uses LIKE, and by a loop over prefixes and suffixes. Both accept the same hosts.
 */
module Exclusion {
  import opened Wrappers

  // ---- LIKE -------------------------------------------------------------------

  /** `s LIKE p ESCAPE '\'`: percent is any run of characters, underscore any one, backslash quotes. */
  predicate Like(s: string, p: string)
    decreases |s| + |p|
  {
    if p == [] then s == []
    else if p[0] == '%' then Like(s, p[1..]) || (s != [] && Like(s[1..], p))
    else if p[0] == '_' then s != [] && Like(s[1..], p[1..])
    else if p[0] == '\\' then |p| >= 2 && s != [] && s[0] == p[1] && Like(s[1..], p[2..])
    else s != [] && s[0] == p[0] && Like(s[1..], p[1..])
  }

  function Replace(s: string, c: char, with: string): string {
    if s == [] then [] else (if s[0] == c then with else [s[0]]) + Replace(s[1..], c, with)
  }

  /** The three nested replacements of the query: backslash, then percent, then underscore. */
  function LikePattern(s: string): string {
    Replace(Replace(Replace(s, '\\', "\\\\"), '%', "\\%"), '_', "\\_")
  }

  /** Quoting a string in one pass. */
  function Quote(s: string): string {
    if s == [] then [] else (if s[0] in ['\\', '%', '_'] then ['\\', s[0]] else [s[0]]) + Quote(s[1..])
  }

  lemma {:induction false} ReplaceAppends(a: string, b: string, c: char, with: string)
    ensures Replace(a + b, c, with) == Replace(a, c, with) + Replace(b, c, with)
  {
    if a == [] {
      assert a + b == b;
    } else {
      assert (a + b)[0] == a[0] && (a + b)[1..] == a[1..] + b;
      ReplaceAppends(a[1..], b, c, with);
    }
  }

  lemma ReplaceOne(x: char, c: char, with: string)
    ensures Replace([x], c, with) == if x == c then with else [x]
  {
  }

  lemma QuoteOne(x: char)
    ensures LikePattern([x]) == if x in ['\\', '%', '_'] then ['\\', x] else [x]
  {
    ReplaceOne(x, '\\', "\\\\");
    if x == '\\' {
      assert "\\\\" == ['\\'] + ['\\'];
      ReplaceAppends(['\\'], ['\\'], '%', "\\%");
      ReplaceOne('\\', '%', "\\%");
      ReplaceAppends(['\\'], ['\\'], '_', "\\_");
      ReplaceOne('\\', '_', "\\_");
    } else if x == '%' {
      ReplaceOne('%', '%', "\\%");
      assert "\\%" == ['\\'] + ['%'];
      ReplaceAppends(['\\'], ['%'], '_', "\\_");
      ReplaceOne('\\', '_', "\\_");
      ReplaceOne('%', '_', "\\_");
    } else {
      ReplaceOne(x, '%', "\\%");
      ReplaceOne(x, '_', "\\_");
    }
  }

  /** The nested replacements quote every special character once. */
  lemma {:induction false} PatternIsQuoted(s: string)
    ensures LikePattern(s) == Quote(s)
  {
    if s != [] {
      assert s == [s[0]] + s[1..];
      ReplaceAppends([s[0]], s[1..], '\\', "\\\\");
      ReplaceAppends(Replace([s[0]], '\\', "\\\\"), Replace(s[1..], '\\', "\\\\"), '%', "\\%");
      ReplaceAppends(Replace(Replace([s[0]], '\\', "\\\\"), '%', "\\%"),
        Replace(Replace(s[1..], '\\', "\\\\"), '%', "\\%"), '_', "\\_");
      hide Replace;
      QuoteOne(s[0]);
      PatternIsQuoted(s[1..]);
    }
  }

  predicate HasPrefix(s: string, f: string) { |f| <= |s| && s[..|f|] == f }

  predicate HasSuffix(s: string, f: string) { |f| <= |s| && s[|s| - |f|..] == f }

  predicate Contains(s: string, f: string) { exists k :: 0 <= k <= |s| && HasPrefix(s[k..], f) }

  lemma PrefixStep(s: string, f: string)
    requires s != [] && f != []
    ensures HasPrefix(s, f) <==> s[0] == f[0] && HasPrefix(s[1..], f[1..])
    ensures HasPrefix(s, f) ==> s[1..][|f[1..]|..] == s[|f|..]
  {
    assert f == [f[0]] + f[1..] && s == [s[0]] + s[1..];
    if |f| <= |s| { assert s[..|f|] == [s[0]] + s[1..][..|f[1..]|]; }
  }

  lemma QuoteStep(f: string, rest: string)
    requires f != []
    ensures var q, tail := Quote(f) + rest, Quote(f[1..]) + rest;
            if f[0] in ['\\', '%', '_'] then |q| >= 2 && q[0] == '\\' && q[1] == f[0] && q[2..] == tail
            else |q| >= 1 && q[0] == f[0] && q[1..] == tail
  {
    var one := if f[0] in ['\\', '%', '_'] then ['\\', f[0]] else [f[0]];
    var more, tail := Quote(f[1..]), Quote(f[1..]) + rest;
    assert Quote(f) == one + more;
    hide Quote;
    Rejoined(one, more, rest);
  }

  lemma Rejoined(one: string, more: string, rest: string)
    ensures one + more + rest == one + (more + rest) && (one + (more + rest))[|one|..] == more + rest
  {
  }

  /** One quoted character takes one character. */
  lemma LikeQuotedOne(s: string, f: string, rest: string)
    requires f != []
    ensures Like(s, Quote(f) + rest) <==> s != [] && s[0] == f[0] && Like(s[1..], Quote(f[1..]) + rest)
  {
    hide Quote;
    QuoteStep(f, rest);
  }

  /** A quoted string matches itself. */
  lemma {:induction false} LikeQuoted(s: string, f: string, rest: string)
    ensures Like(s, Quote(f) + rest) <==> HasPrefix(s, f) && Like(s[|f|..], rest)
  {
    if f == [] {
      assert Quote(f) + rest == rest && s[0..] == s;
    } else {
      LikeQuotedOne(s, f, rest);
      if s != [] {
        PrefixStep(s, f);
        hide Like, Quote, HasPrefix;
        LikeQuoted(s[1..], f[1..], rest);
      }
    }
  }

  /** A percent sign skips any number of characters. */
  lemma {:induction false} LikePercent(s: string, p: string)
    ensures Like(s, "%" + p) <==> exists k :: 0 <= k <= |s| && Like(s[k..], p)
  {
    var q := "%" + p;
    assert q[0] == '%' && q[1..] == p && s[0..] == s;
    if s != [] {
      LikePercent(s[1..], p);
      assert forall k {:trigger s[1..][k..]} :: 0 <= k <= |s[1..]| ==> s[1..][k..] == s[k + 1..];
      if Like(s, q) && !Like(s, p) {
        var k :| 0 <= k <= |s[1..]| && Like(s[1..][k..], p);
        assert Like(s[k + 1..], p);
      }
      if k :| 0 <= k <= |s| && Like(s[k..], p) {
        if k > 0 { assert s[1..][k - 1..] == s[k..]; }
      }
    }
  }

  lemma LikeAnything(s: string)
    ensures Like(s, "%")
  {
    LikePercent(s, "");
    assert "%" + "" == "%";
    assert Like(s[|s|..], "");
  }

  /** `LIKE f || '.%'` is a prefix test. */
  lemma LikeIsPrefix(h: string, f: string)
    ensures Like(h, LikePattern(f) + ".%") <==> HasPrefix(h, f + ".")
  {
    PatternIsQuoted(f);
    LikeQuoted(h, f, ".%");
    if HasPrefix(h, f + ".") { assert h[..|f|] == h[..|f + "."|][..|f|]; }
    if HasPrefix(h, f) {
      var rest := h[|f|..];
      assert ".%"[1..] == "%" && ".%"[0] == '.';
      if rest != [] { LikeAnything(rest[1..]); }
      assert h == f + rest;
      assert Like(rest, ".%") <==> rest != [] && rest[0] == '.';
      if rest != [] && rest[0] == '.' { assert h[..|f + "."|] == f + "."; }
      if HasPrefix(h, f + ".") { assert h[..|f| + 1][|f|] == (f + ".")[|f|]; }
    }
  }

  /** `LIKE '%.' || f || '.%'` is a substring test. */
  lemma LikeIsContains(h: string, f: string)
    ensures Like(h, "%." + LikePattern(f) + ".%") <==> Contains(h, "." + f + ".")
  {
    var tail := "." + LikePattern(f) + ".%";
    assert "%." + LikePattern(f) + ".%" == "%" + tail;
    LikePercent(h, tail);
    assert Quote("." + f) == "." + Quote(f) by { assert ("." + f)[1..] == f; }
    PatternIsQuoted(f);
    PatternIsQuoted("." + f);
    assert tail == LikePattern("." + f) + ".%";
    hide Like;
    forall k | 0 <= k <= |h| ensures Like(h[k..], tail) <==> HasPrefix(h[k..], "." + f + ".") {
      LikeIsPrefix(h[k..], "." + f);
    }
  }

  /** `LIKE '%.' || p` is a suffix test. */
  lemma LikeIsSuffix(h: string, p: string)
    ensures Like(h, "%." + LikePattern(p)) <==> HasSuffix(h, "." + p)
  {
    var f := "." + p;
    assert Quote(f) == "." + Quote(p) by { assert f[1..] == p; }
    PatternIsQuoted(p);
    assert "%." + LikePattern(p) == "%" + Quote(f);
    LikePercent(h, Quote(f));
    forall k | 0 <= k <= |h| ensures Like(h[k..], Quote(f)) <==> h[k..] == f {
      LikeQuoted(h[k..], f, "");
      assert Quote(f) + "" == Quote(f);
      if HasPrefix(h[k..], f) && h[k..][|f|..] == [] { assert h[k..] == f; }
      if h[k..] == f { assert h[k..][|f|..] == []; }
    }
    if HasSuffix(h, f) { assert Like(h[|h| - |f|..], Quote(f)); }
  }

  // ---- Rules --------------------------------------------------------------------

  predicate IsFamily(p: string) { HasSuffix(p, ".*") }

  /** The host with a trailing `.*` dropped. */
  function Family(p: string): string
    requires IsFamily(p)
  {
    p[..|p| - 2]
  }

  /** The rule as the query applies it. */
  predicate SqlRule(p: string, h: string) {
    if IsFamily(p) then Like(h, LikePattern(Family(p)) + ".%") || Like(h, "%." + LikePattern(Family(p)) + ".%")
    else h == p || Like(h, "%." + LikePattern(p))
  }

  /** The rule as the program applies it. */
  predicate HostRule(p: string, h: string) {
    if IsFamily(p) then HasPrefix(h, Family(p) + ".") || Contains(h, "." + Family(p) + ".")
    else h == p || HasSuffix(h, "." + p)
  }

  lemma RulesAgree(p: string, h: string)
    ensures SqlRule(p, h) <==> HostRule(p, h)
  {
    if IsFamily(p) {
      LikeIsPrefix(h, Family(p));
      LikeIsContains(h, Family(p));
    } else {
      LikeIsSuffix(h, p);
    }
  }

  // ---- Rule lists ---------------------------------------------------------------

  /** The pieces of a comma-separated list. */
  function Split(s: string): (pieces: seq<string>)
    ensures |pieces| >= 1
  {
    if s == [] then [""]
    else
      var rest := Split(s[1..]);
      if s[0] == ',' then [""] + rest else [[s[0]] + rest[0]] + rest[1..]
  }

  function TrimLeft(s: string, space: char -> bool): string {
    if s != [] && space(s[0]) then TrimLeft(s[1..], space) else s
  }

  function TrimRight(s: string, space: char -> bool): string {
    if s != [] && space(s[|s| - 1]) then TrimRight(s[..|s| - 1], space) else s
  }

  function Trim(s: string, space: char -> bool): string { TrimRight(TrimLeft(s, space), space) }

  function NonEmpty(pieces: seq<string>, space: char -> bool): seq<string> {
    if pieces == [] then []
    else
      var k := |pieces| - 1;
      var before, last := NonEmpty(pieces[..k], space), Trim(pieces[k], space);
      if last == "" then before else before + [last]
  }

  function Patterns(config: string, space: char -> bool): seq<string> { NonEmpty(Split(config), space) }

  /** The pattern list handed to the query. */
  method ExclusionPatterns(config: string, space: char -> bool) returns (patterns: seq<string>)
    ensures patterns == Patterns(config, space)
  {
    var pieces := Split(config);
    patterns := [];
    for i := 0 to |pieces|
      invariant patterns == NonEmpty(pieces[..i], space)
    {
      assert pieces[..i + 1][..i] == pieces[..i];
      var pattern := Trim(pieces[i], space);
      if pattern != "" { patterns := patterns + [pattern]; }
    }
    assert pieces[..|pieces|] == pieces;
  }

  function LowerChar(c: char): char { if 'A' <= c <= 'Z' then c + ('a' - 'A') else c }

  function Lower(s: string): (r: string)
    ensures |r| == |s|
  {
    if s == [] then [] else [LowerChar(s[0])] + Lower(s[1..])
  }

  function TrimDot(h: string): string { if HasSuffix(h, ".") then h[..|h| - 1] else h }

  predicate Excluded(patterns: seq<string>, h: string) { exists i :: 0 <= i < |patterns| && HostRule(patterns[i], h) }

  ghost predicate SqlExcluded(patterns: seq<string>, h: string) {
    exists i :: 0 <= i < |patterns| && SqlRule(patterns[i], h)
  }

  lemma NonEmptyNext(pieces: seq<string>, i: nat, space: char -> bool)
    requires i < |pieces|
    ensures NonEmpty(pieces[..i + 1], space) ==
      if Trim(pieces[i], space) == "" then NonEmpty(pieces[..i], space)
        else NonEmpty(pieces[..i], space) + [Trim(pieces[i], space)]
  {
    assert pieces[..i + 1][..i] == pieces[..i];
  }

  lemma ExcludedMore(patterns: seq<string>, p: string, h: string)
    ensures Excluded(patterns + [p], h) <==> Excluded(patterns, h) || HostRule(p, h)
  {
    hide HostRule;
    if HostRule(p, h) { assert HostRule((patterns + [p])[|patterns|], h); }
    if i :| 0 <= i < |patterns| && HostRule(patterns[i], h) { assert HostRule((patterns + [p])[i], h); }
  }

  lemma ExcludedByPrefix(some: seq<string>, all: seq<string>, h: string)
    requires some <= all && Excluded(some, h)
    ensures Excluded(all, h)
  {
    hide HostRule;
    var i :| 0 <= i < |some| && HostRule(some[i], h);
    assert all[i] == some[i];
  }

  /** The program's loop decides by the same patterns the query gets. */
  method Excludes(config: string, hostname: string, space: char -> bool) returns (excluded: bool)
    ensures excluded <==> Excluded(Patterns(config, space), Lower(TrimDot(hostname)))
  {
    hide Trim, HostRule, Split, Lower, TrimDot, NonEmpty, Excluded;
    var h := Lower(TrimDot(hostname));
    var pieces := Split(config);
    NothingExcluded(pieces[..0], space, h);
    for i := 0 to |pieces|
      invariant !Excluded(NonEmpty(pieces[..i], space), h)
    {
      NonEmptyNext(pieces, i, space);
      PatternsGrow(pieces, i + 1, space);
      var suffix := Trim(pieces[i], space);
      if suffix == "" { continue; }
      ExcludedMore(NonEmpty(pieces[..i], space), suffix, h);
      if HostRule(suffix, h) {
        ExcludedByPrefix(NonEmpty(pieces[..i + 1], space), Patterns(config, space), h);
        return true;
      }
    }
    assert pieces[..|pieces|] == pieces;
    excluded := false;
  }

  lemma NothingExcluded(pieces: seq<string>, space: char -> bool, h: string)
    requires pieces == []
    ensures !Excluded(NonEmpty(pieces, space), h)
  {
  }

  lemma {:induction false} PatternsGrow(pieces: seq<string>, i: nat, space: char -> bool)
    requires i <= |pieces|
    ensures NonEmpty(pieces[..i], space) <= NonEmpty(pieces, space)
    decreases |pieces| - i
  {
    if i == |pieces| {
      assert pieces[..i] == pieces;
    } else {
      PatternsGrow(pieces, i + 1, space);
      assert pieces[..i + 1][..i] == pieces[..i];
      hide Trim;
    }
  }

  // ---- Hostnames ------------------------------------------------------------------

  function Find(s: string, c: char): (n: nat)
    ensures n <= |s| && (n < |s| ==> s[n] == c) && forall k :: 0 <= k < n ==> s[k] != c
  {
    if s == [] || s[0] == c then 0 else 1 + Find(s[1..], c)
  }

  /** The longest match of `\[[^]]+\]` or `[^:]+` at the start of the authority. */
  function Captured(s: string): Option<string> {
    var plain := Find(s, ':');
    var close := if s != [] && s[0] == '[' then 1 + Find(s[1..], ']') else 0;
    var bracketed := if 2 <= close < |s| then close + 1 else 0;
    var n := Max(plain, bracketed);
    if n == 0 then None else Some(s[..n])
  }

  /** What follows the scheme. */
  function Authority(origin: string): Option<string> {
    if HasPrefix(origin, "https://") then Some(origin[8..])
    else if HasPrefix(origin, "http://") then Some(origin[7..])
    else None
  }

  predicate IsBracket(c: char) { c == '[' || c == ']' }

  /** The host the query cuts out of a stored origin. */
  function SqlHostname(origin: string): Option<string> {
    var authority := Authority(origin);
    if authority.None? then None
    else
      var host := Captured(authority.value);
      if host.None? then None else Some(Lower(Trim(host.value, IsBracket)))
  }

  /** How an origin is spelled: a bracketed address when the host has a colon, and a port unless it is the default. */
  function Spelled(secure: bool, host: string, port: Option<string>): string {
    (if secure then "https://" else "http://")
    + (if ':' in host then "[" + host + "]" else host)
    + (if port.Some? then ":" + port.value else "")
  }

  /** A host without brackets; those of parsed origins do not end in a dot either. */
  predicate PlainHost(h: string) { h != "" && '[' !in h && ']' !in h }

  lemma FindAfter(a: string, c: char, b: string)
    requires c !in a
    ensures Find(a + [c] + b, c) == |a|
  {
    var s := a + [c] + b;
    assert s[|a|] == c && forall k :: 0 <= k < |a| ==> s[k] == a[k] != c;
  }

  lemma FindAbsent(a: string, c: char)
    requires c !in a
    ensures Find(a, c) == |a|
  {
  }

  lemma TrimPlain(h: string, space: char -> bool)
    requires h != "" && forall i :: 0 <= i < |h| ==> !space(h[i])
    ensures Trim(h, space) == h
  {
  }

  lemma TrimBrackets(h: string)
    requires h != "" && '[' !in h && ']' !in h
    ensures Trim("[" + h + "]", IsBracket) == h
  {
    var s := "[" + h + "]";
    assert s[1..] == h + "]" && !IsBracket((h + "]")[0]);
    assert TrimLeft(s, IsBracket) == TrimLeft(s[1..], IsBracket) == h + "]";
    var r := h + "]";
    assert IsBracket(r[|r| - 1]) && r[..|r| - 1] == h && !IsBracket(h[|h| - 1]);
    assert TrimRight(r, IsBracket) == TrimRight(h, IsBracket) == h;
  }

  lemma CapturedHost(host: string, port: Option<string>)
    requires PlainHost(host)
    ensures var spelled := if ':' in host then "[" + host + "]" else host;
            Captured(spelled + (if port.Some? then ":" + port.value else "")) == Some(spelled)
  {
    var tail := if port.Some? then ":" + port.value else "";
    if ':' in host {
      var s := "[" + host + "]" + tail;
      assert s[1..] == host + [']'] + tail;
      FindAfter(host, ']', tail);
      var k :| 0 <= k < |host| && host[k] == ':';
      assert s[k + 1] == ':';
    } else {
      if port.Some? {
        assert host + tail == host + [':'] + port.value;
        FindAfter(host, ':', port.value);
      } else {
        assert host + tail == host;
        FindAbsent(host, ':');
      }
      assert (host + tail)[0] == host[0] != '[';
    }
  }

  lemma AuthorityReadsBack(secure: bool, rest: string)
    ensures Authority((if secure then "https://" else "http://") + rest) == Some(rest)
  {
    var scheme := if secure then "https://" else "http://";
    var origin := scheme + rest;
    assert origin[..|scheme|] == scheme && origin[|scheme|..] == rest;
    if !secure && |origin| >= 8 { assert origin[..8][4] == ':'; }
  }

  /** The query reads the host back from the spelled origin. */
  lemma HostnameReadsBack(secure: bool, host: string, port: Option<string>)
    requires PlainHost(host)
    ensures SqlHostname(Spelled(secure, host, port)) == Some(Lower(host))
  {
    var tail := if port.Some? then ":" + port.value else "";
    var spelled := if ':' in host then "[" + host + "]" else host;
    var scheme := if secure then "https://" else "http://";
    assert Spelled(secure, host, port) == scheme + (spelled + tail);
    hide Authority, Captured, Trim, Lower, Spelled;
    AuthorityReadsBack(secure, spelled + tail);
    CapturedHost(host, port);
    if ':' in host {
      TrimBrackets(host);
    } else {
      TrimPlain(host, IsBracket);
    }
  }

  /**
   For every rule list and every host that does not end in a dot, the query excludes exactly what
   the program excludes.
   */
  lemma FiltersAgree(patterns: seq<string>, secure: bool, host: string, port: Option<string>)
    requires PlainHost(host) && !HasSuffix(host, ".")
    ensures SqlHostname(Spelled(secure, host, port)).Some?
    ensures SqlExcluded(patterns, SqlHostname(Spelled(secure, host, port)).value) <==>
      Excluded(patterns, Lower(TrimDot(host)))
  {
    HostnameReadsBack(secure, host, port);
    var h := Lower(host);
    hide SqlRule, HostRule, SqlHostname, Spelled;
    forall i | 0 <= i < |patterns| ensures SqlRule(patterns[i], h) <==> HostRule(patterns[i], h) {
      RulesAgree(patterns[i], h);
    }
  }

  lemma {:induction false} LowerAt(s: string, i: nat)
    requires i < |s|
    ensures Lower(s)[i] == LowerChar(s[i])
  {
    if i > 0 { LowerAt(s[1..], i - 1); }
  }

  /**
   A host ending in a dot, taken as a rule, excludes itself in the query and not in the program,
   which drops the dot.
   */
  lemma DottedRuleDiffers(host: string)
    requires HasSuffix(host, ".")
    ensures SqlExcluded([Lower(host)], Lower(host)) && !Excluded([Lower(host)], Lower(TrimDot(host)))
  {
    var h, n := Lower(host), |host| - 1;
    LowerAt(host, n);
    assert host[n] == host[n..][0] == '.';
    if |h| >= 2 { assert h[|h| - 2..][1] == h[n] == '.'; }
    assert !IsFamily(h);
    assert SqlRule([h][0], h);
    assert |Lower(TrimDot(host))| == n;
    assert !HostRule([h][0], Lower(TrimDot(host)));
  }

  ghost predicate FiltersEqual(secure: bool, host: string, port: Option<string>) {
    && SqlHostname(Spelled(secure, host, port)).Some?
    && forall patterns :: SqlExcluded(patterns, SqlHostname(Spelled(secure, host, port)).value) <==>
         Excluded(patterns, Lower(TrimDot(host)))
  }

  /** The two filters agree on a host under every rule list if and only if it does not end in a dot. */
  lemma FiltersAgreeExactly(secure: bool, host: string, port: Option<string>)
    requires PlainHost(host)
    ensures FiltersEqual(secure, host, port) <==> !HasSuffix(host, ".")
  {
    HostnameReadsBack(secure, host, port);
    hide SqlHostname, Spelled, SqlExcluded, Excluded;
    if HasSuffix(host, ".") {
      DottedRuleDiffers(host);
    } else {
      forall patterns ensures SqlExcluded(patterns, SqlHostname(Spelled(secure, host, port)).value) <==>
        Excluded(patterns, Lower(TrimDot(host))) {
        FiltersAgree(patterns, secure, host, port);
      }
    }
  }
}
