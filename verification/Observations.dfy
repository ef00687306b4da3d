/**
 The observation history of one origin: the append-only record of verification
 checks, the summary row kept beside it, the miss counter, and the purge that
 deletes old observations.

 The whole history is a sequence of checks in the order they were recorded; the
 stored observation with identity i is the i-th check. Purging removes stored
 observations, never history.
 */
module Observations {
  import opened Wrappers

  datatype Outcome = Valid | Absent | Invalid | UnsupportedVersion | Unavailable | RobotsDenied | CrossOriginRedirect

  datatype Identity = Undeclared | Affirmed | Declined

  datatype Declaration = Declaration(version: int, identity: Identity)

  /** Outcomes that settle the declaration state. */
  predicate Authoritative(o: Outcome) { o != Unavailable && o != RobotsDenied }

  /** Outcomes that count as a miss and are probed again later. */
  predicate ShouldReprobe(o: Outcome) { o != Valid && o != Unavailable }

  /** One recorded check; the declaration is present exactly on a valid outcome. */
  datatype Check = Check(at: int, outcome: Outcome, declared: Option<Declaration>)

  /** What validation admits: a non-zero time, and a version-one declaration exactly when valid. */
  predicate Admissible(c: Check) {
    && c.at != 0
    && (c.outcome == Valid <==> c.declared.Some?)
    && (c.declared.Some? ==> c.declared.value.version == 1)
  }

  datatype Observation = Observation(id: nat, check: Check)

  datatype Participation = Participation(at: int, initial: Declaration)

  /** The origins row. */
  datatype Summary = Summary(firstObserved: int, participation: Option<Participation>,
    latestAt: int, latestOutcome: Outcome)

  /** Everything stored about the checks of one origin. */
  datatype Ledger = Ledger(summary: Option<Summary>, stored: seq<Observation>, misses: nat, nextId: nat)

  const EMPTY: Ledger := Ledger(None, [], 0, 0)

  // ---- Recording ------------------------------------------------------------

  function FirstRow(c: Check): Summary {
    Summary(c.at, if c.declared.Some? then Some(Participation(c.at, c.declared.value)) else None, c.at, c.outcome)
  }

  /** The conflict clause of the summary upsert. */
  function Merge(s: Summary, c: Check): Summary {
    var earlier := c.declared.Some? && (s.participation.None? || c.at < s.participation.value.at);
    var newer := c.at >= s.latestAt;
    Summary(Min(s.firstObserved, c.at),
            if earlier then Some(Participation(c.at, c.declared.value)) else s.participation,
            if newer then c.at else s.latestAt,
            if newer then c.outcome else s.latestOutcome)
  }

  function Upsert(s: Option<Summary>, c: Check): Summary {
    if s.None? then FirstRow(c) else Merge(s.value, c)
  }

  function Record(l: Ledger, c: Check): Ledger {
    Ledger(Some(Upsert(l.summary, c)), l.stored + [Observation(l.nextId, c)],
           l.misses + (if ShouldReprobe(c.outcome) then 1 else 0), l.nextId + 1)
  }

  // ---- Reading back ----------------------------------------------------------

  /** The better of two candidates: a later identity wins unless its time is older. */
  function Pick(before: Option<Observation>, last: Observation, settled: bool): Option<Observation> {
    if settled && !Authoritative(last.check.outcome) then before
    else if before.None? || last.check.at >= before.value.check.at then Some(last)
    else before
  }

  /** The newest stored observation by time, then by identity; `settled` asks for authoritative ones only. */
  function Newest(obs: seq<Observation>, settled: bool): Option<Observation> {
    if obs == [] then None else Pick(Newest(obs[..|obs| - 1], settled), obs[|obs| - 1], settled)
  }

  lemma NewestAppend(obs: seq<Observation>, last: Observation, settled: bool)
    ensures Newest(obs + [last], settled) == Pick(Newest(obs, settled), last, settled)
  {
    assert (obs + [last])[..|obs|] == obs;
  }

  predicate Ascending(obs: seq<Observation>) {
    forall i, j :: 0 <= i < j < |obs| ==> obs[i].id < obs[j].id
  }

  predicate Counts(o: Observation, settled: bool) { settled ==> Authoritative(o.check.outcome) }

  /** x is not after y in the order of the queries: time first, then identity. */
  predicate NotAfter(x: Observation, y: Observation) {
    x.check.at < y.check.at || (x.check.at == y.check.at && x.id <= y.id)
  }

  /** The first row of `ORDER BY observed_at DESC, id DESC`. */
  ghost predicate IsNewest(obs: seq<Observation>, settled: bool, r: Option<Observation>) {
    && (r.None? <==> forall o :: o in obs ==> !Counts(o, settled))
    && (r.Some? ==> r.value in obs && Counts(r.value, settled)
                    && forall o :: o in obs && Counts(o, settled) ==> NotAfter(o, r.value))
  }

  lemma NewestStep(obs: seq<Observation>, last: Observation, settled: bool, before: Option<Observation>)
    requires IsNewest(obs, settled, before) && forall o :: o in obs ==> o.id < last.id
    ensures IsNewest(obs + [last], settled, Pick(before, last, settled))
  {
    var r := Pick(before, last, settled);
    var all := obs + [last];
    assert forall o :: o in all <==> o in obs || o == last;
    if r.None? { assert forall o :: o in all ==> !Counts(o, settled); }
    else { assert r.value in all; }
  }

  lemma {:induction false} NewestIsNewest(obs: seq<Observation>, settled: bool)
    requires Ascending(obs)
    ensures IsNewest(obs, settled, Newest(obs, settled))
  {
    if obs != [] {
      var k := |obs| - 1;
      NewestIsNewest(obs[..k], settled);
      assert obs == obs[..k] + [obs[k]];
      forall o | o in obs[..k] ensures o.id < obs[k].id {
        var i :| 0 <= i < k && obs[i] == o;
      }
      hide IsNewest;
      NewestStep(obs[..k], obs[k], settled, Newest(obs[..k], settled));
    }
  }

  lemma NewestUnique(obs: seq<Observation>, settled: bool, x: Option<Observation>, y: Option<Observation>)
    requires IsNewest(obs, settled, x) && IsNewest(obs, settled, y)
    requires forall a, b :: a in obs && b in obs && a.id == b.id ==> a == b
    ensures x == y
  {
    if x.Some? && y.Some? {
      assert NotAfter(x.value, y.value) && NotAfter(y.value, x.value);
    }
  }

  // ---- Purging ---------------------------------------------------------------

  /** Protected observations: the newest, and the newest authoritative one. */
  predicate Protected(obs: seq<Observation>, o: Observation) {
    Newest(obs, false) == Some(o) || Newest(obs, true) == Some(o)
  }

  function Keep(obs: seq<Observation>, all: seq<Observation>, cutoff: int): (kept: seq<Observation>)
    ensures forall o :: o in kept <==> o in obs && (o.check.at >= cutoff || Protected(all, o))
  {
    if obs == [] then []
    else
      var k := |obs| - 1;
      var before := Keep(obs[..k], all, cutoff);
      assert obs == obs[..k] + [obs[k]];
      if obs[k].check.at >= cutoff || Protected(all, obs[k]) then before + [obs[k]] else before
  }

  lemma {:induction false} KeepAscends(obs: seq<Observation>, all: seq<Observation>, cutoff: int)
    requires Ascending(obs)
    ensures Ascending(Keep(obs, all, cutoff))
  {
    if obs != [] {
      var k := |obs| - 1;
      KeepAscends(obs[..k], all, cutoff);
      var before := Keep(obs[..k], all, cutoff);
      forall i | 0 <= i < |before| ensures before[i].id < obs[k].id {
        assert before[i] in obs[..k];
      }
      hide Protected;
    }
  }

  function Purge(l: Ledger, cutoff: int): Ledger { l.(stored := Keep(l.stored, l.stored, cutoff)) }

  /** Purging never changes the newest or the newest authoritative observation. */
  lemma PurgeKeepsNewest(l: Ledger, cutoff: int, settled: bool)
    requires Ascending(l.stored)
    ensures Ascending(Purge(l, cutoff).stored)
    ensures Newest(Purge(l, cutoff).stored, settled) == Newest(l.stored, settled)
  {
    var kept := Purge(l, cutoff).stored;
    KeepAscends(l.stored, l.stored, cutoff);
    NewestIsNewest(l.stored, settled);
    NewestIsNewest(kept, settled);
    if Newest(l.stored, settled).Some? { assert Newest(l.stored, settled).value in kept; }
    assert IsNewest(kept, settled, Newest(l.stored, settled));
    forall a, b | a in kept && b in kept && a.id == b.id ensures a == b { AscendingIds(kept, a, b); }
    NewestUnique(kept, settled, Newest(l.stored, settled), Newest(kept, settled));
  }

  lemma AscendingIds(obs: seq<Observation>, a: Observation, b: Observation)
    requires Ascending(obs) && a in obs && b in obs && a.id == b.id
    ensures a == b
  {
    var i :| 0 <= i < |obs| && obs[i] == a;
    var j :| 0 <= j < |obs| && obs[j] == b;
    assert i == j;
  }

  // ---- The whole history -------------------------------------------------------

  /** Every check, as if nothing had ever been purged. */
  function Everything(h: seq<Check>): (obs: seq<Observation>)
    ensures |obs| == |h| && forall i :: 0 <= i < |h| ==> obs[i] == Observation(i, h[i])
  {
    seq(|h|, i requires 0 <= i < |h| => Observation(i, h[i]))
  }

  /** The summary row as a direct function of the whole history. */
  ghost predicate Summarizes(s: Summary, h: seq<Check>) {
    && FirstSeen(s.firstObserved, h) && FirstValid(s.participation, h) && LastSeen(s.latestAt, s.latestOutcome, h)
  }

  /** The earliest time of any check. */
  ghost predicate FirstSeen(t: int, h: seq<Check>) {
    (exists i :: 0 <= i < |h| && h[i].at == t) && forall i :: 0 <= i < |h| ==> t <= h[i].at
  }

  /** The earliest valid check with its declaration; among equal times the first recorded. */
  ghost predicate FirstValid(p: Option<Participation>, h: seq<Check>) {
    && (p.None? <==> forall i :: 0 <= i < |h| ==> h[i].declared.None?)
    && (p.Some? ==> exists i :: 0 <= i < |h| && IsFirstValid(p.value, h, i))
  }

  ghost predicate IsFirstValid(p: Participation, h: seq<Check>, i: nat)
    requires i < |h|
  {
    && h[i].declared == Some(p.initial) && h[i].at == p.at
    && forall j :: 0 <= j < |h| && h[j].declared.Some? ==> p.at < h[j].at || (p.at == h[j].at && i <= j)
  }

  /** The latest check; among equal times the last recorded. */
  ghost predicate LastSeen(t: int, o: Outcome, h: seq<Check>) {
    exists i :: 0 <= i < |h| && IsLast(t, o, h, i)
  }

  ghost predicate IsLast(t: int, o: Outcome, h: seq<Check>, i: nat)
    requires i < |h|
  {
    h[i].at == t && h[i].outcome == o && forall j :: 0 <= j < |h| ==> h[j].at < t || (h[j].at == t && j <= i)
  }

  function Misses(h: seq<Check>): nat {
    if h == [] then 0 else Misses(h[..|h| - 1]) + (if ShouldReprobe(h[|h| - 1].outcome) then 1 else 0)
  }

  /** Every stored observation is the check of the history with its identity. */
  ghost predicate Backed(obs: seq<Observation>, h: seq<Check>) {
    forall i :: 0 <= i < |obs| ==> obs[i].id < |h| && h[obs[i].id] == obs[i].check
  }

  /** What stays true of a ledger whose whole history is h, whatever was purged. */
  ghost predicate Reflects(l: Ledger, h: seq<Check>) {
    && l.nextId == |h| && l.misses == Misses(h)
    && (h == [] <==> l.summary.None?) && (l.summary.Some? ==> Summarizes(l.summary.value, h))
    && Ascending(l.stored) && Backed(l.stored, h)
    && Newest(l.stored, false) == Newest(Everything(h), false)
    && Newest(l.stored, true) == Newest(Everything(h), true)
  }

  lemma FirstSeenNext(s: Summary, h: seq<Check>, c: Check)
    requires FirstSeen(s.firstObserved, h)
    ensures FirstSeen(Merge(s, c).firstObserved, h + [c])
  {
    var t := Merge(s, c).firstObserved;
    if t == c.at { assert (h + [c])[|h|].at == t; }
    else {
      var i :| 0 <= i < |h| && h[i].at == s.firstObserved;
      assert (h + [c])[i].at == t;
    }
  }

  lemma FirstValidNext(s: Summary, h: seq<Check>, c: Check)
    requires FirstValid(s.participation, h)
    ensures FirstValid(Merge(s, c).participation, h + [c])
  {
    var p, h' := Merge(s, c).participation, h + [c];
    if p != s.participation {
      assert h'[|h|] == c;
      assert IsFirstValid(p.value, h', |h|);
      assert !(forall i :: 0 <= i < |h'| ==> h'[i].declared.None?);
    } else if p.Some? {
      var i :| 0 <= i < |h| && IsFirstValid(p.value, h, i);
      assert IsFirstValid(p.value, h', i);
      assert h'[i].declared.Some?;
    }
  }

  lemma LastSeenNext(s: Summary, h: seq<Check>, c: Check)
    requires LastSeen(s.latestAt, s.latestOutcome, h)
    ensures LastSeen(Merge(s, c).latestAt, Merge(s, c).latestOutcome, h + [c])
  {
    var m, h' := Merge(s, c), h + [c];
    var i :| 0 <= i < |h| && IsLast(s.latestAt, s.latestOutcome, h, i);
    assert IsLast(m.latestAt, m.latestOutcome, h', if c.at >= s.latestAt then |h| else i);
  }

  lemma UpsertSummarizes(l: Ledger, h: seq<Check>, c: Check)
    requires Admissible(c) && Reflects(l, h)
    ensures Summarizes(Upsert(l.summary, c), h + [c])
  {
    hide Newest, Ascending;
    var h' := h + [c];
    if l.summary.Some? {
      FirstSeenNext(l.summary.value, h, c);
      FirstValidNext(l.summary.value, h, c);
      LastSeenNext(l.summary.value, h, c);
    } else {
      assert h' == [c];
      var s := FirstRow(c);
      assert h'[0].at == s.firstObserved;
      assert IsLast(s.latestAt, s.latestOutcome, h', 0);
      if s.participation.Some? { assert IsFirstValid(s.participation.value, h', 0); }
    }
  }

  /** Appending a check moves the newest stored and the newest overall together. */
  lemma NewestMoves(l: Ledger, h: seq<Check>, c: Check, settled: bool)
    requires l.nextId == |h| && Newest(l.stored, settled) == Newest(Everything(h), settled)
    ensures Newest(Record(l, c).stored, settled) == Newest(Everything(h + [c]), settled)
  {
    hide Upsert, Newest, Pick;
    assert Everything(h + [c]) == Everything(h) + [Observation(|h|, c)];
    NewestAppend(Everything(h), Observation(|h|, c), settled);
    NewestAppend(l.stored, Observation(|h|, c), settled);
  }

  lemma MissesNext(h: seq<Check>, c: Check)
    ensures Misses(h + [c]) == Misses(h) + (if ShouldReprobe(c.outcome) then 1 else 0)
  {
    assert (h + [c])[..|h|] == h;
  }

  lemma StoredGrows(l: Ledger, h: seq<Check>, c: Check)
    requires l.nextId == |h| && Ascending(l.stored) && Backed(l.stored, h)
    ensures Ascending(Record(l, c).stored) && Backed(Record(l, c).stored, h + [c])
  {
    hide Upsert;
  }

  /** Recording a check extends the history by it. */
  lemma RecordReflects(l: Ledger, h: seq<Check>, c: Check)
    requires Admissible(c) && Reflects(l, h)
    ensures Reflects(Record(l, c), h + [c])
  {
    hide Summarizes, Newest, Pick, Ascending, Backed, Misses, Upsert, Everything;
    UpsertSummarizes(l, h, c);
    NewestMoves(l, h, c, false);
    NewestMoves(l, h, c, true);
    StoredGrows(l, h, c);
    MissesNext(h, c);
  }

  /** Purging changes no answer drawn from the whole history. */
  lemma PurgeReflects(l: Ledger, h: seq<Check>, cutoff: int)
    requires Reflects(l, h)
    ensures Reflects(Purge(l, cutoff), h)
  {
    PurgeKeepsNewest(l, cutoff, false);
    PurgeKeepsNewest(l, cutoff, true);
    var kept := Purge(l, cutoff).stored;
    forall i | 0 <= i < |kept| ensures kept[i].id < |h| && h[kept[i].id] == kept[i].check {
      assert kept[i] in l.stored;
    }
  }

  // ---- Arrival order -----------------------------------------------------------

  ghost predicate DistinctTimes(h: seq<Check>) {
    forall i, j :: 0 <= i < |h| && 0 <= j < |h| && h[i].at == h[j].at ==> i == j
  }

  lemma IndexOf(h: seq<Check>, k: seq<Check>, i: nat) returns (j: nat)
    requires multiset(h) == multiset(k) && i < |h|
    ensures j < |k| && k[j] == h[i]
  {
    assert h[i] in multiset(h);
    assert h[i] in multiset(k);
    j :| 0 <= j < |k| && k[j] == h[i];
  }

  /** With distinct times, the row does not depend on the order in which checks arrived. */
  lemma SummaryIgnoresArrivalOrder(s: Summary, r: Summary, h: seq<Check>, k: seq<Check>)
    requires multiset(h) == multiset(k) && DistinctTimes(h) && DistinctTimes(k)
    requires Summarizes(s, h) && Summarizes(r, k)
    ensures s == r
  {
    SameFirstSeen(s.firstObserved, r.firstObserved, h, k);
    SameLast(s, r, h, k);
    SameFirstValid(s.participation, r.participation, h, k);
  }

  lemma SameFirstSeen(t: int, u: int, h: seq<Check>, k: seq<Check>)
    requires multiset(h) == multiset(k) && FirstSeen(t, h) && FirstSeen(u, k)
    ensures t == u
  {
    var i :| 0 <= i < |h| && h[i].at == t;
    var j := IndexOf(h, k, i);
    var i' :| 0 <= i' < |k| && k[i'].at == u;
    var j' := IndexOf(k, h, i');
  }

  lemma SameLast(s: Summary, r: Summary, h: seq<Check>, k: seq<Check>)
    requires multiset(h) == multiset(k) && DistinctTimes(h) && DistinctTimes(k)
    requires LastSeen(s.latestAt, s.latestOutcome, h) && LastSeen(r.latestAt, r.latestOutcome, k)
    ensures s.latestAt == r.latestAt && s.latestOutcome == r.latestOutcome
  {
    var i :| 0 <= i < |h| && IsLast(s.latestAt, s.latestOutcome, h, i);
    var j := IndexOf(h, k, i);
    var i' :| 0 <= i' < |k| && IsLast(r.latestAt, r.latestOutcome, k, i');
    var j' := IndexOf(k, h, i');
    assert h[i].at == k[j].at && k[i'].at == h[j'].at;
    assert j == i';
  }

  lemma SameFirstValid(p: Option<Participation>, q: Option<Participation>, h: seq<Check>, k: seq<Check>)
    requires multiset(h) == multiset(k) && DistinctTimes(h) && DistinctTimes(k) && FirstValid(p, h) && FirstValid(q, k)
    ensures p == q
  {
    if p.Some? {
      var i :| 0 <= i < |h| && IsFirstValid(p.value, h, i);
      var j := IndexOf(h, k, i);
      assert k[j].declared.Some? && q.Some?;
      var i' :| 0 <= i' < |k| && IsFirstValid(q.value, k, i');
      var j' := IndexOf(k, h, i');
      assert h[j'].declared.Some?;
      assert j == i';
    } else {
      forall i' | 0 <= i' < |k| ensures k[i'].declared.None? {
        var j' := IndexOf(k, h, i');
      }
    }
  }

  /** The miss counter is the number of recorded misses. */
  lemma {:induction false} MissesCount(h: seq<Check>)
    ensures Misses(h) == |set i | 0 <= i < |h| && ShouldReprobe(h[i].outcome)|
  {
    var all := set i | 0 <= i < |h| && ShouldReprobe(h[i].outcome);
    if h == [] {
      assert all == {};
    } else {
      var k := |h| - 1;
      MissesCount(h[..k]);
      var before := set i | 0 <= i < k && ShouldReprobe(h[..k][i].outcome);
      assert all == before + (if ShouldReprobe(h[k].outcome) then {k} else {});
      assert k !in before;
    }
  }

  /** The row is determined by the history. */
  lemma SummaryUnique(s: Summary, r: Summary, h: seq<Check>)
    requires Summarizes(s, h) && Summarizes(r, h)
    ensures s == r
  {
    var i :| 0 <= i < |h| && h[i].at == s.firstObserved;
    var i' :| 0 <= i' < |h| && h[i'].at == r.firstObserved;
    var j :| 0 <= j < |h| && IsLast(s.latestAt, s.latestOutcome, h, j);
    var j' :| 0 <= j' < |h| && IsLast(r.latestAt, r.latestOutcome, h, j');
    if s.participation.Some? {
      var k :| 0 <= k < |h| && IsFirstValid(s.participation.value, h, k);
      assert h[k].declared.Some?;
      var k' :| 0 <= k' < |h| && IsFirstValid(r.participation.value, h, k');
    }
  }

  // ---- Runs ----------------------------------------------------------------------

  datatype Event = Recorded(check: Check) | Purged(cutoff: int)

  function Apply(l: Ledger, e: Event): Ledger {
    if e.Recorded? then Record(l, e.check) else Purge(l, e.cutoff)
  }

  function Replay(events: seq<Event>): Ledger {
    if events == [] then EMPTY else Apply(Replay(events[..|events| - 1]), events[|events| - 1])
  }

  /** The checks of a run in the order they were recorded. */
  function Checks(events: seq<Event>): seq<Check> {
    if events == [] then []
    else
      var before, e := Checks(events[..|events| - 1]), events[|events| - 1];
      if e.Recorded? then before + [e.check] else before
  }

  ghost predicate AllAdmissible(h: seq<Check>) { forall i :: 0 <= i < |h| ==> Admissible(h[i]) }

  /** After any interleaving of checks and purges the ledger answers for the whole history. */
  lemma {:induction false} ReplayReflects(events: seq<Event>)
    requires AllAdmissible(Checks(events))
    ensures Reflects(Replay(events), Checks(events))
  {
    if events != [] {
      var k := |events| - 1;
      var before := events[..k];
      assert AllAdmissible(Checks(before)) by {
        forall i | 0 <= i < |Checks(before)| ensures Admissible(Checks(before)[i]) {
          assert Checks(before)[i] == Checks(events)[i];
        }
      }
      ReplayReflects(before);
      hide Reflects;
      if events[k].Recorded? {
        assert Admissible(Checks(events)[|Checks(before)|]);
        RecordReflects(Replay(before), Checks(before), events[k].check);
      } else {
        PurgeReflects(Replay(before), Checks(before), events[k].cutoff);
      }
    } else {
      assert Everything([]) == [];
    }
  }

  /** Two runs with the same checks and any purges at all give the same answers. */
  lemma PurgesAreInvisible(a: seq<Event>, b: seq<Event>, settled: bool)
    requires AllAdmissible(Checks(a)) && Checks(a) == Checks(b)
    ensures Replay(a).summary == Replay(b).summary && Replay(a).misses == Replay(b).misses
    ensures Newest(Replay(a).stored, settled) == Newest(Replay(b).stored, settled)
  {
    hide Newest, Replay, Checks, Summarizes, Misses, Everything;
    ReplayReflects(a);
    ReplayReflects(b);
    if Checks(a) != [] {
      SummaryUnique(Replay(a).summary.value, Replay(b).summary.value, Checks(a));
    }
  }

  // ---- Current state of an origin ---------------------------------------------------

  datatype EffectiveState = Unknown | Verified | NotVerified

  datatype OriginStatus = OriginStatus(firstObserved: int, latest: Check,
    effective: Option<Check>, state: EffectiveState)

  /** The state query: the row joined with the newest observation and, if any, the newest authoritative one. */
  function OriginState(l: Ledger): Option<OriginStatus> {
    var latest, settled := Newest(l.stored, false), Newest(l.stored, true);
    if l.summary.None? || latest.None? then None
    else if settled.None? then Some(OriginStatus(l.summary.value.firstObserved, latest.value.check, None, Unknown))
    else Some(OriginStatus(l.summary.value.firstObserved, latest.value.check, Some(settled.value.check),
                           if settled.value.check.outcome == Valid then Verified else NotVerified))
  }

  lemma EverythingAscends(h: seq<Check>)
    ensures Ascending(Everything(h))
  {
  }

  /** The newest of the whole history is the check the row calls the latest. */
  lemma NewestIsLatest(h: seq<Check>, t: int, o: Outcome)
    requires LastSeen(t, o, h)
    ensures Newest(Everything(h), false).Some?
    ensures var c := Newest(Everything(h), false).value.check; c in h && c.at == t && c.outcome == o
  {
    var all := Everything(h);
    EverythingAscends(h);
    NewestIsNewest(all, false);
    var i :| 0 <= i < |h| && IsLast(t, o, h, i);
    assert all[i] in all && Counts(all[i], false);
    hide Newest;
    var n := Newest(all, false).value;
    var j :| 0 <= j < |all| && all[j] == n;
    assert NotAfter(all[i], n) && h[j] == n.check;
  }

  /** The check with this number is authoritative, and no authoritative one is later, by time and then by number. */
  ghost predicate IsSettled(h: seq<Check>, j: nat) {
    && j < |h| && Authoritative(h[j].outcome)
    && forall i :: 0 <= i < |h| && Authoritative(h[i].outcome) ==> h[i].at < h[j].at || (h[i].at == h[j].at && i <= j)
  }

  /** The newest authoritative of the whole history, if there is one. */
  lemma SettledOfHistory(h: seq<Check>)
    ensures var settled := Newest(Everything(h), true);
            && (settled.None? <==> forall i :: 0 <= i < |h| ==> !Authoritative(h[i].outcome))
            && (settled.Some? ==> IsSettled(h, settled.value.id) && h[settled.value.id] == settled.value.check)
  {
    var all := Everything(h);
    EverythingAscends(h);
    NewestIsNewest(all, true);
    hide Newest;
    assert forall i :: 0 <= i < |h| ==> all[i] in all && all[i].check == h[i];
    var settled := Newest(all, true);
    if settled.Some? {
      var j :| 0 <= j < |all| && all[j] == settled.value;
      assert h[j] == settled.value.check;
    }
  }

  /** An authoritative latest observation is the settled one. */
  lemma LatestSettles(h: seq<Check>)
    requires h != []
    ensures Newest(Everything(h), false).Some?
    ensures Authoritative(Newest(Everything(h), false).value.check.outcome) ==>
      Newest(Everything(h), true) == Newest(Everything(h), false)
  {
    var all := Everything(h);
    EverythingAscends(h);
    NewestIsNewest(all, true);
    NewestIsNewest(all, false);
    hide Newest;
    assert all[0] in all && Counts(all[0], false);
    var latest, settled := Newest(all, false), Newest(all, true);
    if Authoritative(latest.value.check.outcome) {
      assert Counts(latest.value, true) && latest.value in all;
      AscendingUniqueNewest(all, latest.value, settled.value);
    }
  }

  /**
   The state query answers for the whole history, whatever was purged: it finds an origin once
   checked, and agrees with its row.
   */
  lemma OriginStateHolds(l: Ledger, h: seq<Check>)
    requires Reflects(l, h)
    ensures OriginState(l).Some? <==> h != []
    ensures h != [] ==>
      var s, row := OriginState(l).value, l.summary.value;
      && FirstSeen(s.firstObserved, h) && s.latest in h && s.latest.at == row.latestAt &&
           s.latest.outcome == row.latestOutcome
      && (s.state == Unknown <==> forall i :: 0 <= i < |h| ==> !Authoritative(h[i].outcome))
      && (s.effective.None? <==> s.state == Unknown)
      && (s.effective.Some? ==>
            && (exists j: nat :: IsSettled(h, j) && h[j] == s.effective.value)
            && (s.state == Verified <==> s.effective.value.outcome == Valid))
      && (Authoritative(s.latest.outcome) ==> s.effective == Some(s.latest))
  {
    hide Misses, Backed, Ascending, Newest, Everything, FirstSeen, FirstValid, LastSeen;
    if h != [] {
      NewestIsLatest(h, l.summary.value.latestAt, l.summary.value.latestOutcome);
      SettledOfHistory(h);
      LatestSettles(h);
    }
  }

  lemma AscendingUniqueNewest(all: seq<Observation>, x: Observation, y: Observation)
    requires Ascending(all) && x in all && y in all && NotAfter(x, y) && NotAfter(y, x)
    ensures x == y
  {
    AscendingIds(all, x, y);
  }
}
