/** Claiming, renewing and completing crawl sources over the shared tables. */
module CrawlSources {
  import opened Wrappers
  import opened Database
  import Ordering
  import Retry
  import SourceLease

  /** What a claim is asked with. */
  datatype Request = Request(interval: int, duration: int, now: int, expansion: bool,
    pendingProbes: nat, maxPendingProbes: nat)

  function EligibilityOf(t: Tables, o: string, q: Request): SourceLease.Eligibility {
    var settled := SettledOf(LedgerOf(t, o));
    SourceLease.Eligibility(StateOf(t, o).blocked, StateOf(t, o).seeded, settled.Some? && settled.value.valid,
                            q.expansion, q.pendingProbes, q.maxPendingProbes)
  }

  predicate CanClaim(t: Tables, o: string, q: Request) {
    o in t.schedule && SourceLease.Claimable(StateOf(t, o).source, EligibilityOf(t, o, q), q.interval, q.now)
  }

  /** The claim order: never attempted first, then the longest ago, then the origin. */
  predicate Before(t: Tables, a: string, b: string) {
    var x, y := StateOf(t, a).source.lastAttempted, StateOf(t, b).source.lastAttempted;
    || (x.None? && y.Some?)
    || (x.Some? && y.Some? && x.value < y.value)
    || (x == y && Ordering.Below(a, b))
  }

  lemma BeforeIsTransitive(t: Tables, a: string, b: string, d: string)
    requires Before(t, a, b) && Before(t, b, d)
    ensures Before(t, a, d)
  {
    if Ordering.Below(a, b) && Ordering.Below(b, d) { Ordering.BelowIsTransitive(a, b, d); }
  }

  lemma BeforeIsTotal(t: Tables, a: string, b: string)
    requires a != b
    ensures Before(t, a, b) || Before(t, b, a)
  {
    Ordering.BelowIsTotal(a, b);
  }

  /** The first claimable source among some origins. */
  ghost predicate IsFirst(t: Tables, among: set<string>, q: Request, first: Option<string>) {
    && (first.None? <==> forall o :: o in among ==> !CanClaim(t, o, q))
    && (first.Some? ==>
          && first.value in among && CanClaim(t, first.value, q)
          && forall o :: o in among && o != first.value && CanClaim(t, o, q) ==> Before(t, first.value, o))
  }

  lemma FirstOfMore(t: Tables, seen: set<string>, q: Request, first: Option<string>, o: string)
    requires IsFirst(t, seen, q, first) && o !in seen
    ensures !CanClaim(t, o, q) ==> IsFirst(t, seen + {o}, q, first)
    ensures CanClaim(t, o, q) && (first.None? || Before(t, o, first.value)) ==> IsFirst(t, seen + {o}, q, Some(o))
    ensures CanClaim(t, o, q) && first.Some? && !Before(t, o, first.value) ==> IsFirst(t, seen + {o}, q, first)
  {
    hide CanClaim, Before;
    if CanClaim(t, o, q) && first.Some? {
      BeforeIsTotal(t, o, first.value);
      if Before(t, o, first.value) {
        forall x | x in seen && x != first.value && CanClaim(t, x, q) ensures Before(t, o, x) {
          BeforeIsTransitive(t, o, first.value, x);
        }
      }
    }
  }

  class CrawlSources {
    const db: Database

    constructor (db: Database)
      ensures this.db == db
    {
      this.db := db;
    }

    /** Leases the first eligible source of the schedule, inserting its state row when it has none. */
    method ClaimDiscoverySourceLease(q: Request, paused: bool) returns (found: Option<string>, generation: nat)
      requires db.Valid() && q.interval > 0 && q.duration > 0
      modifies db`states
      ensures db.Valid()
      ensures paused ==> found.None?
      ensures !paused ==> IsFirst(old(db.Snapshot()), db.schedule, q, found)
      ensures found.None? ==> db.states == old(db.states)
      ensures found.Some? ==>
        var s := StateOf(old(db.Snapshot()), found.value);
        && db.states == old(db.states)[found.value := s.(source := SourceLease.Claim(s.source, q.duration, q.now))]
        && generation == s.source.generation + 1
    {
      hide CanClaim, Before, AllJustified, LedgersAgree;
      found, generation := None, 0;
      if paused { return; }
      ghost var t := db.Snapshot();
      var rest, all := db.schedule, db.schedule;
      while rest != {}
        invariant rest <= all == db.schedule && db.Snapshot() == t
        invariant IsFirst(t, all - rest, q, found)
      {
        var o :| o in rest;
        FirstOfMore(t, all - rest, q, found, o);
        assert all - (rest - {o}) == all - rest + {o};
        hide IsFirst;
        if CanClaim(db.Snapshot(), o, q) && (found.None? || Before(db.Snapshot(), o, found.value)) { found := Some(o); }
        rest := rest - {o};
      }
      assert all - rest == all;
      if found.Some? {
        var s := StateOf(db.Snapshot(), found.value);
        generation := s.source.generation + 1;
        StatesAreSeparate(t, db.states[found.value := s.(source := SourceLease.Claim(s.source, q.duration, q.now))]);
        db.states := db.states[found.value := s.(source := SourceLease.Claim(s.source, q.duration, q.now))];
      }
    }

    method RenewDiscoverySourceLease(o: string, generation: nat, duration: int, now: int) returns (expires: Option<int>)
      requires db.Valid() && duration > 0
      modifies db`states
      ensures db.Valid()
      ensures expires.Some? <==> o in old(db.states) && SourceLease.Holds(old(db.states)[o].source, generation, now)
      ensures expires.None? ==> db.states == old(db.states)
      ensures expires.Some? ==>
        && db.states == old(db.states)[o :=
             old(db.states)[o].(source := SourceLease.Renew(old(db.states)[o].source, duration, now))]
        && db.states[o].source.expires == expires && expires.value >= now + duration
    {
      hide AllJustified, LedgersAgree;
      if o !in db.states || !SourceLease.Holds(db.states[o].source, generation, now) { return None; }
      var source := SourceLease.Renew(db.states[o].source, duration, now);
      StatesAreSeparate(db.Snapshot(), db.states[o := db.states[o].(source := source)]);
      db.states := db.states[o := db.states[o].(source := source)];
      expires := source.expires;
    }

    /** Ends a claim under its own generation; a lost lease changes nothing. */
    method CompleteDiscoverySourceLease(o: string, generation: nat, category: Retry.Category, retryAfter: int,
                                        now: int) returns (done: bool)
      requires db.Valid() && 0 <= retryAfter <= Retry.MAX_DELAY
      modifies db`states
      ensures db.Valid()
      ensures done <==> o in old(db.states) && SourceLease.Holds(old(db.states)[o].source, generation, now)
      ensures !done ==> db.states == old(db.states)
      ensures done ==>
        db.states == old(db.states)[o :=
          old(db.states)[o].(source := SourceLease.Complete(old(db.states)[o].source, category, retryAfter, now))]
    {
      hide AllJustified, LedgersAgree;
      if o !in db.states || !SourceLease.Holds(db.states[o].source, generation, now) { return false; }
      var source := SourceLease.Complete(db.states[o].source, category, retryAfter, now);
      StatesAreSeparate(db.Snapshot(), db.states[o := db.states[o].(source := source)]);
      db.states := db.states[o := db.states[o].(source := source)];
      done := true;
    }
  }
}
