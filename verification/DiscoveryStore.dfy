/** Seeds, discoveries, retention and crawl blocks: the discovery store's transactions over the shared tables. */
module DiscoveryStore {
  import opened Wrappers
  import opened Observations
  import opened Database
  import DiscoverySchedule

  // ---- Effects on the tables -----------------------------------------------------

  function Seeded(t: Tables, o: string): Tables {
    t.(states := t.states[o := StateOf(t, o).(seeded := true)], schedule := t.schedule + {o})
  }

  function Unseeded(t: Tables, o: string): Tables {
    if o !in t.states then t
    else t.(states := t.states[o := t.states[o].(seeded := false)],
            schedule := if DiscoverySchedule.Earned(FactsOf(t, o)) then t.schedule else t.schedule - {o})
  }

  function Rediscovery(t: Tables, o: string, linked: bool, now: int): Tables {
    var c :=
      if o !in t.candidates then Candidate(now, linked, 0, None)
      else
        var known := t.candidates[o];
        known.(lastDiscovered := Max(known.lastDiscovered, now), linked := known.linked || linked);
    var u := t.(candidates := t.candidates[o := c]);
    if DiscoverySchedule.Earned(FactsOf(u, o)) then u.(schedule := u.schedule + {o}) else u
  }

  lemma SeededFacts(t: Tables, o: string, x: string)
    ensures FactsOf(Seeded(t, o), x) == if x == o then DiscoverySchedule.AddSeed(FactsOf(t, o)) else FactsOf(t, x)
    ensures FactsOf(Unseeded(t, o), x) == if x == o then DiscoverySchedule.RemoveSeed(FactsOf(t, o)) else FactsOf(t, x)
  {
    hide SettledOf, Participated;
  }

  lemma RediscoveryFacts(t: Tables, o: string, linked: bool, now: int, x: string)
    ensures FactsOf(Rediscovery(t, o, linked, now), x) ==
      if x == o then DiscoverySchedule.Discover(FactsOf(t, o), now) else FactsOf(t, x)
  {
    hide SettledOf, Participated;
  }

  lemma SeedsKeep(t: Tables, o: string)
    requires AllJustified(t)
    ensures AllJustified(Seeded(t, o)) && AllJustified(Unseeded(t, o))
  {
    DiscoverySchedule.StepKeepsRule(FactsOf(t, o), DiscoverySchedule.DoAddSeed);
    DiscoverySchedule.StepKeepsRule(FactsOf(t, o), DiscoverySchedule.DoRemoveSeed);
    hide Seeded, Unseeded, FactsOf;
    forall x ensures DiscoverySchedule.Justified(FactsOf(Seeded(t, o), x)) &&
      DiscoverySchedule.Justified(FactsOf(Unseeded(t, o), x)) {
      SeededFacts(t, o, x);
    }
  }

  /** A candidate of one evidence batch. */
  datatype Evidence = Evidence(origin: string, linked: bool)

  function Discoveries(t: Tables, batch: seq<Evidence>, now: int): Tables {
    if batch == [] then t
    else
      var k := |batch| - 1;
      Rediscovery(Discoveries(t, batch[..k], now), batch[k].origin, batch[k].linked, now)
  }

  ghost predicate Mentions(batch: seq<Evidence>, o: string) { exists i :: 0 <= i < |batch| && batch[i].origin == o }

  lemma MentionsMore(batch: seq<Evidence>, k: nat, x: string)
    requires k + 1 == |batch|
    ensures Mentions(batch, x) <==> Mentions(batch[..k], x) || batch[k].origin == x
  {
    if i :| 0 <= i < k && batch[..k][i].origin == x { assert batch[i].origin == x; }
    if i :| 0 <= i < |batch| && batch[i].origin == x { assert i < k ==> batch[..k][i].origin == x; }
  }

  /** A batch is a discovery of every origin it mentions, however often, and of no other. */
  lemma {:induction false} DiscoveriesFacts(t: Tables, batch: seq<Evidence>, now: int, x: string)
    ensures FactsOf(Discoveries(t, batch, now), x) ==
      if Mentions(batch, x) then DiscoverySchedule.Discover(FactsOf(t, x), now) else FactsOf(t, x)
  {
    hide FactsOf, Mentions, Rediscovery;
    if batch == [] {
      assert !Mentions(batch, x) by { NothingMentioned(batch, x); }
    } else {
      var k := |batch| - 1;
      DiscoveriesFacts(t, batch[..k], now, x);
      RediscoveryFacts(Discoveries(t, batch[..k], now), batch[k].origin, batch[k].linked, now, x);
      MentionsMore(batch, k, x);
    }
  }

  lemma NothingMentioned(batch: seq<Evidence>, x: string)
    requires batch == []
    ensures !Mentions(batch, x)
  {
  }

  lemma DiscoveriesKeep(t: Tables, batch: seq<Evidence>, now: int)
    requires AllJustified(t)
    ensures AllJustified(Discoveries(t, batch, now))
  {
    hide FactsOf, Discoveries, Mentions, DiscoverySchedule.Discover, DiscoverySchedule.Justified;
    forall x ensures DiscoverySchedule.Justified(FactsOf(Discoveries(t, batch, now), x)) {
      DiscoveriesFacts(t, batch, now, x);
      DiscoverKeeps(FactsOf(t, x), now);
    }
  }

  lemma DiscoverKeeps(f: DiscoverySchedule.Facts, now: int)
    requires DiscoverySchedule.Justified(f)
    ensures DiscoverySchedule.Justified(DiscoverySchedule.Discover(f, now))
  {
    DiscoverySchedule.StepKeepsRule(f, DiscoverySchedule.DoDiscover(now));
  }

  lemma {:induction false} DiscoveriesFrame(t: Tables, batch: seq<Evidence>, now: int)
    ensures var u := Discoveries(t, batch, now); u == t.(candidates := u.candidates, schedule := u.schedule)
  {
    if batch != [] {
      DiscoveriesFrame(t, batch[..|batch| - 1], now);
      hide FactsOf;
    }
  }

  // ---- Purging every ledger --------------------------------------------------------

  function WithoutOld(t: Tables, cutoff: int): Tables {
    t.(ledgers := map o | o in t.ledgers :: Purge(t.ledgers[o], cutoff))
  }

  lemma WithoutOldFacts(t: Tables, histories: map<string, seq<Check>>, cutoff: int, o: string)
    requires LedgersAgree(t.ledgers, histories)
    ensures FactsOf(WithoutOld(t, cutoff), o) == FactsOf(t, o)
    ensures o in t.ledgers ==> Reflects(Purge(t.ledgers[o], cutoff), histories[o])
  {
    if o in t.ledgers {
      assert Ascending(t.ledgers[o].stored);
      hide Reflects, Purge, SettledOf, Participated;
      PurgeReflects(t.ledgers[o], histories[o], cutoff);
      PurgeKeepsFacts(t.ledgers[o], cutoff);
    }
  }

  /** Purging deletes observations and changes no fact and no answer. */
  lemma PurgeKeeps(t: Tables, histories: map<string, seq<Check>>, cutoff: int)
    requires LedgersAgree(t.ledgers, histories)
    ensures LedgersAgree(WithoutOld(t, cutoff).ledgers, histories)
    ensures forall o :: FactsOf(WithoutOld(t, cutoff), o) == FactsOf(t, o)
    ensures AllJustified(t) <==> AllJustified(WithoutOld(t, cutoff))
  {
    hide FactsOf, Reflects, AllAdmissible, DiscoverySchedule.Justified, Purge;
    forall o ensures FactsOf(WithoutOld(t, cutoff), o) == FactsOf(t, o) &&
      (o in t.ledgers ==> Reflects(Purge(t.ledgers[o], cutoff), histories[o])) {
      WithoutOldFacts(t, histories, cutoff, o);
    }
  }

  // ---- Seeds ------------------------------------------------------------------------

  function SeededOrigins(t: Tables): set<string> { set o | o in t.states && t.states[o].seeded }

  /** Every seed is already scheduled. */
  lemma SeedsAreScheduled(t: Tables)
    requires AllJustified(t)
    ensures SeededOrigins(t) <= t.schedule
  {
    hide SettledOf, Participated;
    forall o | o in SeededOrigins(t) ensures o in t.schedule {
      assert DiscoverySchedule.Justified(FactsOf(t, o));
    }
  }

  class DiscoveryStore {
    const db: Database

    constructor (db: Database)
      ensures this.db == db
    {
      this.db := db;
    }

    method AddCrawlSeed(o: string)
      requires db.Valid()
      modifies db`states, db`schedule
      ensures db.Valid() && db.Snapshot() == Seeded(old(db.Snapshot()), o)
    {
      hide AllJustified, LedgersAgree, FactsOf;
      SeedsKeep(db.Snapshot(), o);
      db.states := db.states[o := StateOf(db.Snapshot(), o).(seeded := true)];
      db.schedule := db.schedule + {o};
    }

    method RemoveCrawlSeed(o: string)
      requires db.Valid()
      modifies db`states, db`schedule
      ensures db.Valid() && db.Snapshot() == Unseeded(old(db.Snapshot()), o)
    {
      hide AllJustified, LedgersAgree, FactsOf;
      SeedsKeep(db.Snapshot(), o);
      if o in db.states {
        var keep := DiscoverySchedule.Earned(FactsOf(db.Snapshot(), o));
        db.states := db.states[o := db.states[o].(seeded := false)];
        if !keep { db.schedule := db.schedule - {o}; }
      }
    }

    /** The start-up repair inserts what is missing; in a consistent database nothing is. */
    method EnsureSeededSourcesScheduled() returns (inserted: nat)
      modifies db`schedule
      ensures db.schedule == old(db.schedule) + SeededOrigins(old(db.Snapshot()))
      ensures inserted == |SeededOrigins(old(db.Snapshot())) - old(db.schedule)|
      ensures old(db.Valid()) ==> inserted == 0 && db.Snapshot() == old(db.Snapshot())
    {
      var missing := SeededOrigins(db.Snapshot()) - db.schedule;
      if old(db.Valid()) {
        SeedsAreScheduled(db.Snapshot());
        assert missing == {} && db.schedule + missing == db.schedule;
      }
      hide AllJustified, LedgersAgree;
      assert db.schedule + missing == db.schedule + SeededOrigins(db.Snapshot());
      db.schedule := db.schedule + missing;
      inserted := |missing|;
    }

    /** Records one evidence batch, or nothing when its source is unknown or its run is over. */
    method RecordDiscovery(source: string, batch: seq<Evidence>, runActive: bool, now: int) returns (recorded: bool)
      requires db.Valid()
      modifies db`candidates, db`schedule
      ensures db.Valid()
      ensures recorded <==> batch == [] || ((source in db.ledgers || source in db.states) && runActive)
      ensures db.Snapshot() == if recorded then Discoveries(old(db.Snapshot()), batch, now) else old(db.Snapshot())
    {
      hide AllJustified, LedgersAgree, FactsOf, Rediscovery;
      ghost var t := db.Snapshot();
      if batch == [] { return true; }
      if !((source in db.ledgers || source in db.states) && runActive) { return false; }
      var u := Discoveries(db.Snapshot(), batch, now);
      DiscoveriesKeep(t, batch, now);
      DiscoveriesFrame(t, batch, now);
      db.candidates, db.schedule := u.candidates, u.schedule;
      recorded := true;
    }

    method PurgeObservations(cutoff: int)
      requires db.Valid()
      modifies db`ledgers
      ensures db.Valid() && db.Snapshot() == WithoutOld(old(db.Snapshot()), cutoff)
    {
      hide AllJustified, LedgersAgree, FactsOf, Purge, Keep;
      PurgeKeeps(db.Snapshot(), db.histories, cutoff);
      db.ledgers := map o | o in db.ledgers :: Purge(db.ledgers[o], cutoff);
    }
  }
}
