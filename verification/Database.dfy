/** The tables shared by the verification queue and the discovery store. */
module Database {
  import opened Wrappers
  import opened Observations
  import Queue
  import DiscoverySchedule
  import SourceLease

  datatype SourceState = SourceState(seeded: bool, automatic: bool, operatorBlocked: bool,
    blocked: bool, source: SourceLease.Source)

  const NEW_STATE := SourceState(false, false, false, false, SourceLease.NEW_SOURCE)

  datatype Candidate = Candidate(lastDiscovered: int, linked: bool, failures: nat, nextAttempt: Option<int>)

  /** A value of all tables. */
  datatype Tables = Tables(queue: map<string, Queue.Row>, ledgers: map<string, Ledger>,
    states: map<string, SourceState>,
                           schedule: set<string>, candidates: map<string, Candidate>)

  function LedgerOf(t: Tables, o: string): Ledger { if o in t.ledgers then t.ledgers[o] else EMPTY }

  function StateOf(t: Tables, o: string): SourceState { if o in t.states then t.states[o] else NEW_STATE }

  function SettledOf(l: Ledger): Option<DiscoverySchedule.Settled> {
    var newest := Newest(l.stored, true);
    if newest.None? then None
    else Some(DiscoverySchedule.Settled(newest.value.check.at, newest.value.check.outcome == Valid))
  }

  predicate Participated(l: Ledger) { l.summary.Some? && l.summary.value.participation.Some? }

  /** What the tables say about one origin. */
  function FactsOf(t: Tables, o: string): DiscoverySchedule.Facts {
    DiscoverySchedule.Facts(o in t.states, StateOf(t, o).seeded, StateOf(t, o).automatic, Participated(LedgerOf(t, o)),
                   SettledOf(LedgerOf(t, o)), if o in t.candidates then Some(t.candidates[o].lastDiscovered) else None,
                   o in t.schedule)
  }

  predicate Blocked(t: Tables, o: string) { StateOf(t, o).blocked }

  /** Every ledger answers for the whole recorded history of its origin. */
  ghost predicate LedgersAgree(ledgers: map<string, Ledger>, histories: map<string, seq<Check>>) {
    && (forall o :: o in ledgers <==> o in histories)
    && forall o :: o in ledgers ==> AllAdmissible(histories[o]) && Reflects(ledgers[o], histories[o])
  }

  /** Every origin is scheduled exactly for a reason. */
  ghost predicate AllJustified(t: Tables) { forall o :: DiscoverySchedule.Justified(FactsOf(t, o)) }

  ghost predicate Consistent(t: Tables, histories: map<string, seq<Check>>) {
    LedgersAgree(t.ledgers, histories) && AllJustified(t)
  }

  /** Recording a check moves the facts as the schedule rule expects. */
  lemma RecordIsObserve(l: Ledger, c: Check)
    requires Admissible(c)
    ensures SettledOf(Record(l, c)) ==
      (if Authoritative(c.outcome) && (SettledOf(l).None? || c.at >= SettledOf(l).value.at)
       then Some(DiscoverySchedule.Settled(c.at, c.outcome == Valid)) else SettledOf(l))
    ensures Participated(Record(l, c)) <==> Participated(l) || c.outcome == Valid
  {
    NewestAppend(l.stored, Observation(l.nextId, c), true);
    hide Newest;
  }

  lemma PurgeKeepsFacts(l: Ledger, cutoff: int)
    requires Ascending(l.stored)
    ensures SettledOf(Purge(l, cutoff)) == SettledOf(l) && Participated(Purge(l, cutoff)) == Participated(l)
  {
    PurgeKeepsNewest(l, cutoff, true);
  }

  class Database {
    var queue: map<string, Queue.Row>
    var ledgers: map<string, Ledger>
    var states: map<string, SourceState>
    var schedule: set<string>
    var candidates: map<string, Candidate>
    ghost var histories: map<string, seq<Check>>

    function Snapshot(): Tables
      reads this
    {
      Tables(queue, ledgers, states, schedule, candidates)
    }

    ghost predicate Valid()
      reads this
    {
      Consistent(Snapshot(), histories)
    }

    constructor ()
      ensures Valid() && Snapshot() == Tables(map[], map[], map[], {}, map[]) && histories == map[]
    {
      queue, ledgers, states, schedule, candidates, histories := map[], map[], map[], {}, map[], map[];
    }
  }

  /** The queue has no say in the facts. */
  lemma QueueIsSeparate(t: Tables, queue: map<string, Queue.Row>)
    requires AllJustified(t)
    ensures AllJustified(t.(queue := queue))
  {
    forall o ensures DiscoverySchedule.Justified(FactsOf(t.(queue := queue), o)) {
      assert FactsOf(t.(queue := queue), o) == FactsOf(t, o);
      hide FactsOf, DiscoverySchedule.Justified;
    }
  }

  /** The history of an origin, empty before its first check. */
  ghost function HistoryOf(histories: map<string, seq<Check>>, o: string): seq<Check> {
    if o in histories then histories[o] else []
  }

  lemma EmptyReflects()
    ensures Reflects(EMPTY, [])
  {
    assert Everything([]) == [];
  }

  /** Recording a check of one origin extends its history and leaves the others. */
  lemma LedgersNext(ledgers: map<string, Ledger>, histories: map<string, seq<Check>>, o: string, check: Check)
    requires LedgersAgree(ledgers, histories) && Admissible(check)
    ensures var before := if o in ledgers then ledgers[o] else EMPTY;
            LedgersAgree(ledgers[o := Record(before, check)], histories[o := HistoryOf(histories, o) + [check]])
  {
    hide Record, Reflects, Admissible;
    EmptyReflects();
    var before, past := if o in ledgers then ledgers[o] else EMPTY, HistoryOf(histories, o);
    RecordReflects(before, past, check);
    assert AllAdmissible(past + [check]);
    hide AllAdmissible, HistoryOf;
  }

  /** A ledger with a history has participated exactly as its settled state demands. */
  lemma LedgerGrounds(l: Ledger, h: seq<Check>)
    requires Reflects(l, h) && AllAdmissible(h)
    ensures Participated(l) ==> SettledOf(l).Some?
    ensures SettledOf(l).Some? && SettledOf(l).value.valid ==> Participated(l)
  {
    SettledOfHistory(h);
    hide Newest, Misses, Backed, FirstSeen, LastSeen;
    if Participated(l) {
      var i :| 0 <= i < |h| && IsFirstValid(l.summary.value.participation.value, h, i);
      assert Admissible(h[i]);
    }
    if SettledOf(l).Some? && SettledOf(l).value.valid {
      var j := Newest(Everything(h), true).value.id;
      assert Admissible(h[j]) && h[j].declared.Some?;
    }
  }

  /** Scheduled exactly for a reason, origin by origin. */
  ghost predicate Ruled(t: Tables) { forall o :: o in t.schedule <==> DiscoverySchedule.Reason(FactsOf(t, o)) }

  /** Ledgers that answer for their histories ground every origin, so the rule is all that is left to justify. */
  lemma LedgersGround(t: Tables, histories: map<string, seq<Check>>)
    requires LedgersAgree(t.ledgers, histories)
    ensures AllJustified(t) <==> Ruled(t)
  {
    hide Reflects, AllAdmissible, SettledOf, Participated, DiscoverySchedule.Reason;
    EmptyReflects();
    forall o ensures DiscoverySchedule.Grounded(FactsOf(t, o)) {
      if o in t.ledgers { LedgerGrounds(t.ledgers[o], histories[o]); } else { NothingGrounds(); }
    }
    assert forall o :: o in t.schedule <==> FactsOf(t, o).scheduled;
    hide DiscoverySchedule.Grounded, FactsOf;
    forall o
      ensures DiscoverySchedule.Justified(FactsOf(t, o)) <==>
        (o in t.schedule <==> DiscoverySchedule.Reason(FactsOf(t, o)))
    {
      assert DiscoverySchedule.Grounded(FactsOf(t, o));
    }
  }

  lemma NothingGrounds()
    ensures !Participated(EMPTY) && SettledOf(EMPTY).None?
  {
  }

  /** Source states that agree on what the facts use; new rows are neither seeded nor automatic. */
  ghost predicate Alike(before: map<string, SourceState>, after: map<string, SourceState>) {
    && (forall o :: o in before ==>
          o in after && after[o].seeded == before[o].seeded && after[o].automatic == before[o].automatic)
    && forall o :: o in after && o !in before ==> !after[o].seeded && !after[o].automatic
  }

  /** Blocks and leases of sources have no say in the facts. */
  lemma StatesAreSeparate(t: Tables, states: map<string, SourceState>)
    requires AllJustified(t) && Alike(t.states, states)
    ensures AllJustified(t.(states := states))
  {
    hide SettledOf, Participated;
    var t' := t.(states := states);
    forall o ensures DiscoverySchedule.Justified(FactsOf(t', o)) {
      assert DiscoverySchedule.Justified(FactsOf(t, o));
      assert FactsOf(t', o) == FactsOf(t, o) || FactsOf(t', o) == FactsOf(t, o).(known := true);
      hide FactsOf;
    }
  }
}
