/** The verification queue's transactions over the shared tables. */
module VerificationQueue {
  import opened Wrappers
  import opened Observations
  import opened Database
  import Ordering
  import Queue
  import DiscoverySchedule

  datatype Reply = Done | LeaseLost | Rejected

  /** The claim order: probes first, then the earliest due, then the origin. */
  predicate Before(a: Queue.Row, ao: string, b: Queue.Row, bo: string) {
    var ra, rb := if a.mode == Queue.Probe then 0 else 1, if b.mode == Queue.Probe then 0 else 1;
    || ra < rb
    || (ra == rb && (a.availableAt < b.availableAt || (a.availableAt == b.availableAt && Ordering.Below(ao, bo))))
  }

  predicate CanClaim(c: Queue.Config, t: Tables, o: string, now: int) {
    o in t.queue && Queue.Claimable(c, t.queue[o], now, Blocked(t, o))
  }

  /** The first claimable row among some origins. */
  ghost predicate IsFirst(c: Queue.Config, t: Tables, among: set<string>, now: int, first: Option<string>) {
    && (first.None? <==> forall o :: o in among ==> !CanClaim(c, t, o, now))
    && (first.Some? ==>
          && first.value in among && CanClaim(c, t, first.value, now)
          && forall o :: o in among && o != first.value && CanClaim(c, t, o, now) ==>
               Before(t.queue[first.value], first.value, t.queue[o], o))
  }

  lemma BeforeIsTransitive(a: Queue.Row, ao: string, b: Queue.Row, bo: string, d: Queue.Row, do: string)
    requires Before(a, ao, b, bo) && Before(b, bo, d, do)
    ensures Before(a, ao, d, do)
  {
    if Ordering.Below(ao, bo) && Ordering.Below(bo, do) { Ordering.BelowIsTransitive(ao, bo, do); }
  }

  lemma BeforeIsTotal(a: Queue.Row, ao: string, b: Queue.Row, bo: string)
    requires ao != bo
    ensures Before(a, ao, b, bo) || Before(b, bo, a, ao)
  {
    Ordering.BelowIsTotal(ao, bo);
  }

  /** Considering one more origin. */
  lemma FirstOfMore(c: Queue.Config, t: Tables, seen: set<string>, now: int, first: Option<string>, o: string)
    requires IsFirst(c, t, seen, now, first) && o !in seen
    ensures !CanClaim(c, t, o, now) ==> IsFirst(c, t, seen + {o}, now, first)
    ensures CanClaim(c, t, o, now) && (first.None? || Before(t.queue[o], o, t.queue[first.value], first.value)) ==>
      IsFirst(c, t, seen + {o}, now, Some(o))
    ensures CanClaim(c, t, o, now) && first.Some? && !Before(t.queue[o], o, t.queue[first.value], first.value) ==>
      IsFirst(c, t, seen + {o}, now, first)
  {
    if CanClaim(c, t, o, now) && first.Some? {
      BeforeIsTotal(t.queue[o], o, t.queue[first.value], first.value);
      if Before(t.queue[o], o, t.queue[first.value], first.value) {
        forall x | x in seen && x != first.value && CanClaim(c, t, x, now)
          ensures Before(t.queue[o], o, t.queue[x], x)
        {
          BeforeIsTransitive(t.queue[o], o, t.queue[first.value], first.value, t.queue[x], x);
        }
      }
      hide Before;
    }
    hide CanClaim;
  }

  /** What a completed verification does to the tables. */
  function Completed(c: Queue.Config, t: Tables, o: string, l: Queue.Lease, v: Queue.Verdict, recheck: int,
                     now: int): Tables
    requires o in t.queue
  {
    var ledger := LedgerOf(t, o);
    var after := Queue.Complete(c, t.queue[o], l, v, recheck, now,
      Queue.Background(Participated(ledger), ledger.misses));
    var f := FactsOf(t, o);
    t.(queue := if after.Some? then t.queue[o := after.value] else t.queue - {o},
       ledgers := t.ledgers[o := Record(ledger, Check(now, v.outcome, v.declared))],
       schedule := if v.outcome == Valid then t.schedule + {o}
                   else if Authoritative(v.outcome) && !f.seeded && !(f.discovered.Some? && f.discovered.value > now)
                   then t.schedule - {o}
                   else t.schedule)
  }

  /** Completion is the schedule transaction of the same name on this origin, and touches no other. */
  lemma CompletionFacts(c: Queue.Config, t: Tables, o: string, l: Queue.Lease, v: Queue.Verdict, recheck: int, now: int,
                        x: string)
    requires o in t.queue && Queue.ValidVerdict(v) && now != 0
    ensures FactsOf(Completed(c, t, o, l, v, recheck, now), x) ==
      if x == o then DiscoverySchedule.Complete(FactsOf(t, o), now, v.outcome) else FactsOf(t, x)
  {
    hide SettledOf, Participated, Record, Queue.Complete;
    RecordIsObserve(LedgerOf(t, o), Check(now, v.outcome, v.declared));
  }

  /** Completion keeps every origin justified exactly when it is not out of order. */
  lemma CompletionKeeps(c: Queue.Config, t: Tables, o: string, l: Queue.Lease, v: Queue.Verdict, recheck: int, now: int)
    requires AllJustified(t) && o in t.queue && Queue.ValidVerdict(v) && now != 0
    ensures AllJustified(Completed(c, t, o, l, v, recheck, now)) <==>
      !DiscoverySchedule.OutOfOrder(FactsOf(t, o), now, v.outcome)
  {
    hide DiscoverySchedule.Justified, Completed, FactsOf, DiscoverySchedule.Complete, DiscoverySchedule.OutOfOrder;
    var t' := Completed(c, t, o, l, v, recheck, now);
    CompletionFacts(c, t, o, l, v, recheck, now, o);
    DiscoverySchedule.CompletionKeepsExactly(FactsOf(t, o), now, v.outcome);
    forall x | x != o ensures DiscoverySchedule.Justified(FactsOf(t', x)) {
      CompletionFacts(c, t, o, l, v, recheck, now, x);
    }
  }

  class VerificationQueue {
    const db: Database
    const config: Queue.Config

    constructor (db: Database, config: Queue.Config)
      requires Queue.ValidConfig(config)
      ensures this.db == db && this.config == config
    {
      this.db, this.config := db, config;
    }

    method Schedule(o: string, at: int, now: int)
      requires db.Valid()
      modifies db`queue
      ensures db.Valid()
      ensures db.queue == old(db.queue)[o :=
        Queue.Schedule(if o in old(db.queue) then Some(old(db.queue)[o]) else None, at, now)]
    {
      QueueIsSeparate(db.Snapshot(),
        db.queue[o := Queue.Schedule(if o in db.queue then Some(db.queue[o]) else None, at, now)]);
      db.queue := db.queue[o := Queue.Schedule(if o in db.queue then Some(db.queue[o]) else None, at, now)];
    }

    /** Leases the first eligible origin, or none. */
    method Claim(worker: string, now: int, paused: bool) returns (found: Option<string>, lease: Queue.Lease)
      requires db.Valid()
      modifies db`queue
      ensures db.Valid()
      ensures paused ==> found.None?
      ensures !paused ==> IsFirst(config, old(db.Snapshot()), old(db.queue).Keys, now, found)
      ensures found.None? ==> db.queue == old(db.queue)
      ensures found.Some? ==>
        && found.value in old(db.queue)
        && db.queue == old(db.queue)[found.value := Queue.Claim(config, old(db.queue)[found.value], worker, now)]
        && lease == Queue.Lease(worker, db.queue[found.value].generation, now, now + config.leaseDuration)
        && Queue.Holds(db.queue[found.value], lease, now + config.leaseDuration - 1)
    {
      found, lease := None, Queue.Lease(worker, 0, now, now);
      if paused { return; }
      ghost var t := db.Snapshot();
      var rest, keys := db.queue.Keys, db.queue.Keys;
      while rest != {}
        invariant rest <= keys == db.queue.Keys
        invariant db.Snapshot() == t && t.queue == old(db.queue)
        invariant IsFirst(config, t, keys - rest, now, found)
      {
        var o :| o in rest;
        FirstOfMore(config, t, keys - rest, now, found, o);
        assert keys - (rest - {o}) == keys - rest + {o};
        hide IsFirst;
        if CanClaim(config, db.Snapshot(), o, now) &&
          (found.None? || Before(db.queue[o], o, db.queue[found.value], found.value)) {
          found := Some(o);
        }
        rest := rest - {o};
      }
      assert keys - rest == keys;
      if found.Some? {
        var row := Queue.Claim(config, db.queue[found.value], worker, now);
        QueueIsSeparate(t, db.queue[found.value := row]);
        db.queue := db.queue[found.value := row];
        lease := Queue.Lease(worker, row.generation, now, now + config.leaseDuration);
      }
    }

    /** Extends a lease that is still authoritative. */
    method Renew(o: string, lease: Queue.Lease, now: int) returns (renewed: Option<Queue.Lease>)
      requires db.Valid()
      modifies db`queue
      ensures db.Valid()
      ensures renewed.Some? <==>
        o in old(db.queue) && Queue.Holds(old(db.queue)[o], lease, now) &&
          Queue.Unblocked(old(db.queue)[o], Blocked(old(db.Snapshot()), o))
      ensures renewed.None? ==> db.queue == old(db.queue)
      ensures renewed.Some? ==>
        && db.queue == old(db.queue)[o := Queue.Renew(config, old(db.queue)[o], now)]
        && renewed.value.worker == lease.worker && renewed.value.generation == lease.generation
        && renewed.value.expiresAt == db.queue[o].hold.value.expires >= now + config.leaseDuration
    {
      if o !in db.queue || !Queue.Holds(db.queue[o], lease, now) ||
        !Queue.Unblocked(db.queue[o], Blocked(db.Snapshot(), o)) {
        return None;
      }
      var row := Queue.Renew(config, db.queue[o], now);
      QueueIsSeparate(db.Snapshot(), db.queue[o := row]);
      db.queue := db.queue[o := row];
      renewed := Some(Queue.Lease(row.hold.value.worker, row.generation,
                                  if row.lastClaimed.Some? then row.lastClaimed.value else now,
                                  row.hold.value.expires));
    }

    method Reschedule(o: string, lease: Queue.Lease, at: int, now: int) returns (r: Reply)
      requires db.Valid()
      modifies db`queue
      ensures db.Valid() && (r.Done? || r.LeaseLost?)
      ensures r.Done? <==> o in old(db.queue) && Queue.Holds(old(db.queue)[o], lease, now)
      ensures r.Done? ==> db.queue == old(db.queue)[o := Queue.Reschedule(config, old(db.queue)[o], at)]
      ensures !r.Done? ==> db.queue == old(db.queue)
    {
      if o !in db.queue || !Queue.Holds(db.queue[o], lease, now) { return LeaseLost; }
      var row := Queue.Reschedule(config, db.queue[o], at);
      QueueIsSeparate(db.Snapshot(), db.queue[o := row]);
      db.queue := db.queue[o := row];
      r := Done;
    }

    method Abandon(o: string, lease: Queue.Lease, now: int) returns (r: Reply)
      requires db.Valid()
      modifies db`queue
      ensures db.Valid() && (r.Done? || r.LeaseLost?)
      ensures r.Done? <==> o in old(db.queue) && Queue.Holds(old(db.queue)[o], lease, now)
      ensures r.Done? ==> db.queue == old(db.queue)[o := Queue.Abandon(old(db.queue)[o])]
      ensures !r.Done? ==> db.queue == old(db.queue)
    {
      if o !in db.queue || !Queue.Holds(db.queue[o], lease, now) { return LeaseLost; }
      var row := Queue.Abandon(db.queue[o]);
      QueueIsSeparate(db.Snapshot(), db.queue[o := row]);
      db.queue := db.queue[o := row];
      r := Done;
    }

    /**
     Records the result and finalizes the lease in one step: a completion that takes effect
     keeps the row or removes it, records exactly one observation, and adjusts the schedule.
     */
    method CompleteVerification(o: string, lease: Queue.Lease, v: Queue.Verdict, recheck: int,
                                now: int) returns (r: Reply)
      requires db.Valid() && now != 0
      modifies db
      ensures r.Rejected? <==> !Queue.ValidVerdict(v) || recheck <= 0
      ensures r.Done? <==>
        && Queue.ValidVerdict(v) && recheck > 0 && o in old(db.queue) && Queue.Holds(old(db.queue)[o], lease, now)
        && Queue.Unblocked(old(db.queue)[o], Blocked(old(db.Snapshot()), o))
      ensures !r.Done? ==> db.Snapshot() == old(db.Snapshot()) && db.histories == old(db.histories)
      ensures r.Done? ==>
        && db.Snapshot() == Completed(config, old(db.Snapshot()), o, lease, v, recheck, now)
        && db.histories == old(db.histories)[o := HistoryOf(old(db.histories), o) + [Check(now, v.outcome, v.declared)]]
        && (db.Valid() <==> !DiscoverySchedule.OutOfOrder(FactsOf(old(db.Snapshot()), o), now, v.outcome))
    {
      hide Queue.Complete, Queue.Holds, Record, DiscoverySchedule.OutOfOrder, LedgersAgree, AllJustified, SettledOf,
           Participated;
      if !Queue.ValidVerdict(v) || recheck <= 0 { return Rejected; }
      ghost var t := db.Snapshot();
      if o !in db.queue || !Queue.Holds(db.queue[o], lease, now) ||
        !Queue.Unblocked(db.queue[o], Blocked(db.Snapshot(), o)) {
        return LeaseLost;
      }
      CompletionKeeps(config, t, o, lease, v, recheck, now);
      LedgersNext(db.ledgers, db.histories, o, Check(now, v.outcome, v.declared));
      var ledger, check := LedgerOf(db.Snapshot(), o), Check(now, v.outcome, v.declared);
      var seeded := StateOf(db.Snapshot(), o).seeded;
      var rediscovered := o in db.candidates && db.candidates[o].lastDiscovered > now;
      var background := Queue.Background(Participated(ledger), ledger.misses);
      var after := Queue.Complete(config, db.queue[o], lease, v, recheck, now, background);
      if after.Some? {
        db.queue := db.queue[o := after.value];
      } else {
        db.queue := db.queue - {o};
      }
      db.ledgers := db.ledgers[o := Record(ledger, check)];
      if v.outcome == Valid {
        db.schedule := db.schedule + {o};
      } else if Authoritative(v.outcome) && !seeded && !rediscovered {
        db.schedule := db.schedule - {o};
      }
      db.histories := db.histories[o := HistoryOf(db.histories, o) + [check]];
      assert db.Snapshot() == Completed(config, t, o, lease, v, recheck, now);
      r := Done;
    }
  }
}
