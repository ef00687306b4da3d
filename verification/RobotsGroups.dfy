/**
 Which rules and delays of a robots file apply to JoshBot (section 2.2.1 of
 RFC 9309). The file is read as its user-agent, allow/disallow and crawl-delay
 records in order; every other line is skipped by the reader.
 */
module RobotsGroups {
  import opened Wrappers
  import opened RobotsPattern
  import opened RobotsPolicy

  datatype Record = UserAgent(token: seq<Byte>) | Access(allow: bool, value: seq<Byte>) | Delay(value: seq<Byte>)

  datatype Group = Group(userAgents: seq<seq<Byte>>, rules: seq<Rule>, delays: seq<seq<Byte>>, hasDirectives: bool)

  datatype Policy = Policy(rules: seq<Rule>, delays: seq<seq<Byte>>)

  /** Whom a product token names. */
  datatype Kind = JoshBot | Everyone | Other

  // "joshternet-joshbot"
  const PRODUCT: seq<Byte> :=
    [106, 111, 115, 104, 116, 101, 114, 110, 101, 116, 45, 106, 111, 115, 104, 98, 111, 116]

  function Lower(b: Byte): Byte { if 65 <= b <= 90 then b + 32 else b }

  function KindOf(token: seq<Byte>): Kind {
    if |token| == |PRODUCT| && forall i :: 0 <= i < |token| ==> Lower(token[i]) == PRODUCT[i] then JoshBot
    else if token == [STAR] then Everyone
    else Other
  }

  predicate ValidToken(token: seq<Byte>) {
    || token == [STAR]
    || (token != [] && forall i :: 0 <= i < |token| ==>
          65 <= token[i] <= 90 || 97 <= token[i] <= 122 || token[i] == 45 || token[i] == 95)
  }

  predicate AgentLine(r: Record) { r.UserAgent? && ValidToken(r.token) }

  /**
   The agent line at j speaks for the record at i: every agent line between
   them is valid, and none of them comes after a directive.
   */
  ghost predicate Governs(recs: seq<Record>, j: nat, i: nat)
    requires i <= |recs|
  {
    && j < i && AgentLine(recs[j])
    && (forall k :: j < k < i && recs[k].UserAgent? ==> ValidToken(recs[k].token))
    && (forall d, k :: j < d < k < i && !recs[d].UserAgent? ==> !recs[k].UserAgent?)
  }

  /** Some agent line of this kind speaks for the record at i. */
  ghost predicate Addressed(recs: seq<Record>, i: nat, kind: Kind)
    requires i <= |recs|
  {
    exists j :: 0 <= j < i && Governs(recs, j, i) && KindOf(recs[j].token) == kind
  }

  /** The record at i belongs to JoshBot's own rules, or to everyone's but not to JoshBot's. */
  ghost predicate Applies(recs: seq<Record>, i: nat, kind: Kind)
    requires i <= |recs|
  {
    Addressed(recs, i, kind) && (kind != JoshBot ==> !Addressed(recs, i, JoshBot))
  }

  ghost function RulesFor(recs: seq<Record>, n: nat, kind: Kind): seq<Rule>
    requires n <= |recs|
  {
    if n == 0 then []
    else RulesFor(recs, n - 1, kind) +
         (if recs[n - 1].Access? && Applies(recs, n - 1, kind)
          then ToSeq(RuleFrom(recs[n - 1].allow, recs[n - 1].value)) else [])
  }

  ghost function DelaysFor(recs: seq<Record>, n: nat, kind: Kind): seq<seq<Byte>>
    requires n <= |recs|
  {
    if n == 0 then []
    else DelaysFor(recs, n - 1, kind) +
         (if recs[n - 1].Delay? && Applies(recs, n - 1, kind) then [recs[n - 1].value] else [])
  }

  function ToSeq<T>(o: Option<T>): seq<T> { if o.Some? then [o.value] else [] }

  /** JoshBot is named somewhere in the first n records. */
  ghost predicate Named(recs: seq<Record>, n: nat)
    requires n <= |recs|
  {
    exists j :: 0 <= j < n && AgentLine(recs[j]) && KindOf(recs[j].token) == JoshBot
  }

  /** The policy a file sets for JoshBot: its own records when it is named anywhere, everyone's otherwise. */
  ghost function PolicyFor(recs: seq<Record>): Policy {
    var kind := if Named(recs, |recs|) then JoshBot else Everyone;
    Policy(RulesFor(recs, |recs|, kind), DelaysFor(recs, |recs|, kind))
  }

  // ---- Groups as the reader builds them ----------------------------------

  predicate Names(g: Group, kind: Kind) {
    exists i :: 0 <= i < |g.userAgents| && KindOf(g.userAgents[i]) == kind
  }

  predicate Selected(g: Group, kind: Kind) {
    Names(g, kind) && (kind != JoshBot ==> !Names(g, JoshBot))
  }

  function GroupRules(groups: seq<Group>, kind: Kind): seq<Rule> {
    if groups == [] then []
    else
      var last := groups[|groups| - 1];
      GroupRules(groups[..|groups| - 1], kind) + (if Selected(last, kind) then last.rules else [])
  }

  function GroupDelays(groups: seq<Group>, kind: Kind): seq<seq<Byte>> {
    if groups == [] then []
    else
      var last := groups[|groups| - 1];
      GroupDelays(groups[..|groups| - 1], kind) + (if Selected(last, kind) then last.delays else [])
  }

  /** `open` lists exactly the agent lines in force after n records. */
  ghost predicate InForce(recs: seq<Record>, n: nat, open: seq<nat>)
    requires n <= |recs|
  {
    && (forall x :: 0 <= x < |open| ==> open[x] < n && Governs(recs, open[x], n))
    && (forall j :: 0 <= j < n && Governs(recs, j, n) ==> j in open)
  }

  /** The last group has the tokens of the open lines, and knows whether a directive followed them. */
  ghost predicate LastMirrors(recs: seq<Record>, n: nat, groups: seq<Group>, open: seq<nat>)
    requires n <= |recs| && forall x :: 0 <= x < |open| ==> open[x] < n
  {
    && (groups == [] ==> open == [])
    && (groups != [] ==>
          var g := groups[|groups| - 1];
          && |g.userAgents| == |open|
          && (forall x :: 0 <= x < |open| ==> recs[open[x]].UserAgent? && g.userAgents[x] == recs[open[x]].token)
          && (g.hasDirectives ==> open != [])
          && (forall x :: 0 <= x < |open| ==> g.hasDirectives == DirectiveSince(recs, open[x], n))
          && (!g.hasDirectives ==> g.rules == [] && g.delays == []))
  }

  /** The last group mirrors the agent lines in force after n records; `open` lists them. */
  ghost predicate Mirrors(recs: seq<Record>, n: nat, groups: seq<Group>, open: seq<nat>)
    requires n <= |recs|
  {
    InForce(recs, n, open) && LastMirrors(recs, n, groups, open)
  }

  ghost predicate DirectiveSince(recs: seq<Record>, j: nat, n: nat)
    requires n <= |recs|
  {
    exists d :: j < d < n && !recs[d].UserAgent?
  }

  lemma GovernsNext(recs: seq<Record>, j: nat, n: nat)
    requires j < n < |recs|
    ensures Governs(recs, j, n + 1) <==>
            Governs(recs, j, n) && (recs[n].UserAgent? ==> ValidToken(recs[n].token) && !DirectiveSince(recs, j, n))
    ensures DirectiveSince(recs, j, n + 1) <==> DirectiveSince(recs, j, n) || !recs[n].UserAgent?
  {
    assert forall d :: j < d < n && !recs[d].UserAgent? ==> DirectiveSince(recs, j, n);
    assert Governs(recs, j, n + 1) && recs[n].UserAgent? ==>
      forall d :: j < d < n && !recs[d].UserAgent? ==> !recs[n].UserAgent?;
    if DirectiveSince(recs, j, n) {
      var d :| j < d < n && !recs[d].UserAgent?;
      assert j < d < n + 1;
    }
  }

  lemma GovernsItself(recs: seq<Record>, n: nat)
    requires n < |recs|
    ensures Governs(recs, n, n + 1) <==> AgentLine(recs[n])
    ensures !DirectiveSince(recs, n, n + 1)
  {
  }

  /** What the reader's loop body does with one record. */
  function AddRecord(groups: seq<Group>, r: Record): seq<Group> {
    var last := |groups| - 1;
    match r
    case UserAgent(token) =>
      if !ValidToken(token) then groups + [Group([], [], [], false)]
      else if groups == [] || groups[last].hasDirectives then groups + [Group([token], [], [], false)]
      else groups[last := groups[last].(userAgents := groups[last].userAgents + [token])]
    case Access(allow, value) =>
      if groups == [] || groups[last].userAgents == [] then groups
      else groups[last := groups[last].(hasDirectives := true,
        rules := groups[last].rules + ToSeq(RuleFrom(allow, value)))]
    case Delay(value) =>
      if groups == [] || groups[last].userAgents == [] then groups
      else groups[last := groups[last].(hasDirectives := true, delays := groups[last].delays + [value])]
  }

  /** The agent lines in force after one more record. */
  ghost function OpenNext(groups: seq<Group>, open: seq<nat>, r: Record, n: nat): seq<nat> {
    if !r.UserAgent? then open
    else if !ValidToken(r.token) then []
    else if groups == [] || groups[|groups| - 1].hasDirectives then [n]
    else open + [n]
  }

  lemma MirrorsDirective(recs: seq<Record>, n: nat, groups: seq<Group>, open: seq<nat>)
    requires n < |recs| && Mirrors(recs, n, groups, open) && !recs[n].UserAgent?
    ensures Mirrors(recs, n + 1, AddRecord(groups, recs[n]), open)
  {
    hide RuleFrom, ValidToken, Governs, DirectiveSince;
    GovernsItself(recs, n);
    forall j | 0 <= j < n
      ensures Governs(recs, j, n + 1) <==> Governs(recs, j, n)
      ensures DirectiveSince(recs, j, n + 1)
    {
      GovernsNext(recs, j, n);
    }
  }

  /** Which earlier lines an agent line leaves in force. */
  lemma AgentGoverns(recs: seq<Record>, n: nat)
    requires n < |recs| && recs[n].UserAgent?
    ensures forall j :: 0 <= j < n ==>
      (Governs(recs, j, n + 1) <==> Governs(recs, j, n) && ValidToken(recs[n].token) && !DirectiveSince(recs, j, n))
    ensures forall j :: 0 <= j < n ==> (DirectiveSince(recs, j, n + 1) <==> DirectiveSince(recs, j, n))
  {
    hide ValidToken, Governs, DirectiveSince;
    forall j | 0 <= j < n
      ensures Governs(recs, j, n + 1) <==>
        Governs(recs, j, n) && ValidToken(recs[n].token) && !DirectiveSince(recs, j, n)
      ensures DirectiveSince(recs, j, n + 1) <==> DirectiveSince(recs, j, n)
    {
      GovernsNext(recs, j, n);
    }
  }

  lemma AgentInForce(recs: seq<Record>, n: nat, groups: seq<Group>, open: seq<nat>)
    requires n < |recs| && Mirrors(recs, n, groups, open) && recs[n].UserAgent?
    ensures InForce(recs, n + 1, OpenNext(groups, open, recs[n], n))
  {
    hide RuleFrom, ValidToken, Governs, DirectiveSince;
    AgentGoverns(recs, n);
    GovernsItself(recs, n);
    var open' := OpenNext(groups, open, recs[n], n);
    if !ValidToken(recs[n].token) {
    } else if groups == [] || groups[|groups| - 1].hasDirectives {
      assert open' == [n];
      var m := n + 1;
      forall j | 0 <= j < n ensures !Governs(recs, j, m) {
        if j in open { var x :| 0 <= x < |open| && open[x] == j; }
      }
    } else {
      assert open' == open + [n];
      forall j | 0 <= j < n && Governs(recs, j, n + 1) ensures j in open' { assert j in open; }
    }
  }

  /** After an agent line, only that line and those with no directive since are in force. */
  lemma MirrorsAgent(recs: seq<Record>, n: nat, groups: seq<Group>, open: seq<nat>)
    requires n < |recs| && Mirrors(recs, n, groups, open) && recs[n].UserAgent?
    ensures Mirrors(recs, n + 1, AddRecord(groups, recs[n]), OpenNext(groups, open, recs[n], n))
  {
    hide RuleFrom, ValidToken, Governs, DirectiveSince;
    AgentInForce(recs, n, groups, open);
    AgentGoverns(recs, n);
    GovernsItself(recs, n);
    hide InForce;
    var groups', open' := AddRecord(groups, recs[n]), OpenNext(groups, open, recs[n], n);
    assert forall x :: 0 <= x < |open'| ==> open'[x] < n + 1;
    assert LastMirrors(recs, n + 1, groups', open');
  }

  lemma MirrorsNext(recs: seq<Record>, n: nat, groups: seq<Group>, open: seq<nat>)
    requires n < |recs| && Mirrors(recs, n, groups, open)
    ensures Mirrors(recs, n + 1, AddRecord(groups, recs[n]), OpenNext(groups, open, recs[n], n))
  {
    if recs[n].UserAgent? { MirrorsAgent(recs, n, groups, open); }
    else { MirrorsDirective(recs, n, groups, open); }
  }

  /** The last group is selected exactly when the agent lines in force select it. */
  lemma MirrorsSelects(recs: seq<Record>, n: nat, groups: seq<Group>, open: seq<nat>, kind: Kind)
    requires n <= |recs| && Mirrors(recs, n, groups, open)
    ensures groups == [] ==> !Applies(recs, n, kind)
    ensures groups != [] ==> Selected(groups[|groups| - 1], kind) == Applies(recs, n, kind)
  {
    if groups != [] {
      NamesAddressed(recs, n, groups, open, kind);
      NamesAddressed(recs, n, groups, open, JoshBot);
    }
  }

  lemma NamesAddressed(recs: seq<Record>, n: nat, groups: seq<Group>, open: seq<nat>, kind: Kind)
    requires n <= |recs| && Mirrors(recs, n, groups, open) && groups != []
    ensures Names(groups[|groups| - 1], kind) == Addressed(recs, n, kind)
  {
    var g := groups[|groups| - 1];
    if Names(g, kind) {
      var x :| 0 <= x < |g.userAgents| && KindOf(g.userAgents[x]) == kind;
      assert Governs(recs, open[x], n);
    }
    if Addressed(recs, n, kind) {
      var j :| 0 <= j < n && Governs(recs, j, n) && KindOf(recs[j].token) == kind;
      var x :| 0 <= x < |open| && open[x] == j;
      assert KindOf(g.userAgents[x]) == kind;
    }
  }

  /** The groups hold exactly the records that apply. */
  ghost predicate Holds(recs: seq<Record>, n: nat, groups: seq<Group>, kind: Kind)
    requires n <= |recs|
  {
    GroupRules(groups, kind) == RulesFor(recs, n, kind) && GroupDelays(groups, kind) == DelaysFor(recs, n, kind)
  }

  /** Replacing the last group replaces only its own contribution. */
  lemma LastGroup(groups: seq<Group>, g: Group, kind: Kind)
    requires groups != []
    ensures var last := |groups| - 1;
            && GroupRules(groups[last := g], kind) ==
                 GroupRules(groups[..last], kind) + (if Selected(g, kind) then g.rules else [])
            && GroupDelays(groups[last := g], kind) ==
                 GroupDelays(groups[..last], kind) + (if Selected(g, kind) then g.delays else [])
  {
    var last := |groups| - 1;
    assert groups[last := g][..last] == groups[..last];
  }

  lemma NewGroup(groups: seq<Group>, g: Group, kind: Kind)
    requires g.rules == [] && g.delays == []
    ensures GroupRules(groups + [g], kind) == GroupRules(groups, kind)
    ensures GroupDelays(groups + [g], kind) == GroupDelays(groups, kind)
  {
    assert (groups + [g])[..|groups|] == groups;
  }

  lemma HoldsAgent(recs: seq<Record>, n: nat, groups: seq<Group>, open: seq<nat>, kind: Kind)
    requires n < |recs| && Mirrors(recs, n, groups, open) && Holds(recs, n, groups, kind) && recs[n].UserAgent?
    ensures Holds(recs, n + 1, AddRecord(groups, recs[n]), kind)
  {
    hide RuleFrom, ValidToken, KindOf, Selected, Applies, GroupRules, GroupDelays, Governs, DirectiveSince;
    var r, last, after := recs[n], |groups| - 1, AddRecord(groups, recs[n]);
    if |after| > |groups| {
      NewGroup(groups, after[|groups|], kind);
    } else {
      LastGroup(groups, after[last], kind);
      LastGroup(groups, groups[last], kind);
      assert groups[last := groups[last]] == groups;
    }
  }

  /** What one more record adds to the records that apply. */
  lemma AppliedNext(recs: seq<Record>, n: nat, kind: Kind)
    requires n < |recs|
    ensures RulesFor(recs, n + 1, kind) ==
      RulesFor(recs, n, kind) +
      (if recs[n].Access? && Applies(recs, n, kind) then ToSeq(RuleFrom(recs[n].allow, recs[n].value)) else [])
    ensures DelaysFor(recs, n + 1, kind) ==
      DelaysFor(recs, n, kind) + (if recs[n].Delay? && Applies(recs, n, kind) then [recs[n].value] else [])
  {
  }

  lemma SelectedByAgents(g: Group, h: Group, kind: Kind)
    requires g.userAgents == h.userAgents
    ensures Selected(g, kind) == Selected(h, kind) && (g.userAgents == [] ==> !Selected(g, kind))
  {
  }

  lemma Regroup<T>(a: seq<T>, b: seq<T>, c: seq<T>)
    ensures (a + b) + c == a + (b + c) && a + [] == a
  {
  }

  lemma HoldsDirective(recs: seq<Record>, n: nat, groups: seq<Group>, open: seq<nat>, kind: Kind)
    requires n < |recs| && Mirrors(recs, n, groups, open) && Holds(recs, n, groups, kind) && !recs[n].UserAgent?
    ensures Holds(recs, n + 1, AddRecord(groups, recs[n]), kind)
  {
    hide RuleFrom, ValidToken, KindOf, Applies, GroupRules, GroupDelays, RulesFor, DelaysFor, Mirrors, Selected, ToSeq;
    var last, after := |groups| - 1, AddRecord(groups, recs[n]);
    MirrorsSelects(recs, n, groups, open, kind);
    AppliedNext(recs, n, kind);
    if groups == [] {
      Regroup(RulesFor(recs, n, kind), [], []);
      Regroup(DelaysFor(recs, n, kind), [], []);
    } else {
      var g, h := groups[last], after[last];
      SelectedByAgents(g, h, kind);
      LastGroup(groups, h, kind);
      LastGroup(groups, g, kind);
      assert groups[last := g] == groups && groups[last := h] == after;
      Regroup(GroupRules(groups[..last], kind), g.rules,
        if recs[n].Access? then ToSeq(RuleFrom(recs[n].allow, recs[n].value)) else []);
      Regroup(GroupDelays(groups[..last], kind), g.delays, if recs[n].Delay? then [recs[n].value] else []);
      Regroup(RulesFor(recs, n, kind), [], []);
      Regroup(DelaysFor(recs, n, kind), [], []);
    }
  }

  lemma HoldsNext(recs: seq<Record>, n: nat, groups: seq<Group>, open: seq<nat>, kind: Kind)
    requires n < |recs| && Mirrors(recs, n, groups, open) && Holds(recs, n, groups, kind)
    ensures Holds(recs, n + 1, AddRecord(groups, recs[n]), kind)
  {
    if recs[n].UserAgent? { HoldsAgent(recs, n, groups, open, kind); }
    else { HoldsDirective(recs, n, groups, open, kind); }
  }

  /** Some group names JoshBot. */
  ghost predicate SomeNames(groups: seq<Group>) { exists g :: g in groups && Names(g, JoshBot) }

  lemma NamedStays(recs: seq<Record>, n: nat, groups: seq<Group>)
    requires n < |recs| && (SomeNames(groups) || (AgentLine(recs[n]) && KindOf(recs[n].token) == JoshBot))
    ensures SomeNames(AddRecord(groups, recs[n]))
  {
    hide RuleFrom, ValidToken, KindOf, ToSeq;
    var r, after := recs[n], AddRecord(groups, recs[n]);
    if SomeNames(groups) {
      var g :| g in groups && Names(g, JoshBot);
      var x :| 0 <= x < |groups| && groups[x] == g;
      var i :| 0 <= i < |g.userAgents| && KindOf(g.userAgents[i]) == JoshBot;
      assert after[x].userAgents[i] == g.userAgents[i];
      assert after[x] in after && Names(after[x], JoshBot);
    } else {
      var h := after[|after| - 1];
      assert h.userAgents[|h.userAgents| - 1] == r.token;
      assert h in after && Names(h, JoshBot);
    }
  }

  lemma NamedComesFrom(recs: seq<Record>, n: nat, groups: seq<Group>)
    requires n < |recs| && SomeNames(AddRecord(groups, recs[n]))
    ensures SomeNames(groups) || (AgentLine(recs[n]) && KindOf(recs[n].token) == JoshBot)
  {
    hide RuleFrom, ValidToken, KindOf, ToSeq;
    var r, after := recs[n], AddRecord(groups, recs[n]);
    var g :| g in after && Names(g, JoshBot);
    var x :| 0 <= x < |after| && after[x] == g;
    var i :| 0 <= i < |g.userAgents| && KindOf(g.userAgents[i]) == JoshBot;
    if x < |groups| && i < |groups[x].userAgents| {
      assert Names(groups[x], JoshBot) && groups[x] in groups;
    } else {
      assert g.userAgents[i] == r.token;
    }
  }

  lemma NamedNext(recs: seq<Record>, n: nat, groups: seq<Group>)
    requires n < |recs| && (SomeNames(groups) <==> Named(recs, n))
    ensures SomeNames(AddRecord(groups, recs[n])) <==> Named(recs, n + 1)
  {
    assert Named(recs, n + 1) <==> Named(recs, n) || (AgentLine(recs[n]) && KindOf(recs[n].token) == JoshBot);
    hide SomeNames, AddRecord, KindOf, Named;
    if SomeNames(groups) || (AgentLine(recs[n]) && KindOf(recs[n].token) == JoshBot) { NamedStays(recs, n, groups); }
    if SomeNames(AddRecord(groups, recs[n])) { NamedComesFrom(recs, n, groups); }
  }

  /** Reading the records into groups. */
  method ParseGroups(recs: seq<Record>) returns (groups: seq<Group>)
    ensures Holds(recs, |recs|, groups, JoshBot) && Holds(recs, |recs|, groups, Everyone)
    ensures SomeNames(groups) <==> Named(recs, |recs|)
  {
    groups := [];
    ghost var open: seq<nat> := [];
    for n := 0 to |recs|
      invariant Mirrors(recs, n, groups, open)
      invariant Holds(recs, n, groups, JoshBot) && Holds(recs, n, groups, Everyone)
      invariant SomeNames(groups) <==> Named(recs, n)
    {
      MirrorsNext(recs, n, groups, open);
      HoldsNext(recs, n, groups, open, JoshBot);
      HoldsNext(recs, n, groups, open, Everyone);
      NamedNext(recs, n, groups);
      open := OpenNext(groups, open, recs[n], n);
      groups := ReadRecord(groups, recs[n]);
    }
  }

  /** The reader's loop body. */
  method ReadRecord(groups: seq<Group>, r: Record) returns (after: seq<Group>)
    ensures after == AddRecord(groups, r)
  {
    after := groups;
    ghost var added := AddRecord(groups, r);
    match r {
      case UserAgent(token) =>
        if ValidToken(token) {
          if after == [] || after[|after| - 1].hasDirectives {
            after := after + [Group([], [], [], false)];
          }
          var current := after[|after| - 1].(userAgents := after[|after| - 1].userAgents + [token]);
          after := after[..|after| - 1] + [current];
          assert [] + [token] == [token];
          assert current == added[|added| - 1] && after == added;
        } else {
          after := after + [Group([], [], [], false)];
        }
      case Access(allow, value) =>
        if after != [] && after[|after| - 1].userAgents != [] {
          var current := after[|after| - 1].(hasDirectives := true);
          var rule := MakeRule(allow, value);
          if rule.Some? {
            current := current.(rules := current.rules + [rule.value]);
          }
          assert current.rules == added[|groups| - 1].rules;
          after := after[..|after| - 1] + [current];
          assert after == added;
        }
      case Delay(value) =>
        if after != [] && after[|after| - 1].userAgents != [] {
          var current := after[|after| - 1].(hasDirectives := true);
          after := after[..|after| - 1] + [current.(delays := current.delays + [value])];
          assert after == added;
        }
    }
  }

  /** Selecting the applicable groups: the policy that results is the one the records set. */
  method Parse(recs: seq<Record>) returns (policy: Policy)
    ensures policy == PolicyFor(recs)
  {
    var groups := ParseGroups(recs);
    var exact, wildcard := Policy([], []), Policy([], []);
    var exactMatched := false;
    for i := 0 to |groups|
      invariant exact == Policy(GroupRules(groups[..i], JoshBot), GroupDelays(groups[..i], JoshBot))
      invariant wildcard == Policy(GroupRules(groups[..i], Everyone), GroupDelays(groups[..i], Everyone))
      invariant exactMatched == exists x :: 0 <= x < i && Names(groups[x], JoshBot)
    {
      assert groups[..i + 1][..i] == groups[..i];
      if Names(groups[i], JoshBot) {
        exactMatched := true;
        exact := Policy(exact.rules + groups[i].rules, exact.delays + groups[i].delays);
      } else if Names(groups[i], Everyone) {
        wildcard := Policy(wildcard.rules + groups[i].rules, wildcard.delays + groups[i].delays);
      }
    }
    assert groups[..|groups|] == groups;
    assert exactMatched == SomeNames(groups);
    policy := if exactMatched then exact else wildcard;
  }
}
