/**
 Leases on crawl sources. A source's state row is never deleted, so its
 generation identifies a claim for good; the fence has no worker in it.
 */
module SourceLease {
  import opened Wrappers
  import opened Leases
  import Retry

  datatype Source = Source(generation: nat, expires: Option<int>, lastClaimed: Option<int>,
                           lastAttempted: Option<int>, failures: nat, nextAttempt: Option<int>)

  const NEW_SOURCE := Source(0, None, None, None, 0, None)

  function Columns(s: Source): Grant { Grant(s.generation, s.expires, s.lastClaimed) }

  /** When a source with no failures pending may run again, or when its retry is due. */
  predicate Due(s: Source, interval: int, now: int) {
    if s.nextAttempt.Some? then s.nextAttempt.value <= now
    else s.lastAttempted.Some? ==> s.lastAttempted.value <= now - interval
  }

  /** Why the source may be crawled now: it is seeded, it is a valid participant, or expansion has room for it. */
  datatype Eligibility = Eligibility(blocked: bool, seeded: bool, valid: bool,
    expansion: bool, pendingProbes: nat, maxPendingProbes: nat)

  predicate Claimable(s: Source, st: Eligibility, interval: int, now: int) {
    && !st.blocked && Due(s, interval, now) && (s.expires.Some? ==> s.expires.value <= now)
    && (st.seeded || st.valid || (st.expansion && st.pendingProbes < st.maxPendingProbes))
  }

  function Claim(s: Source, duration: int, now: int): Source {
    s.(generation := s.generation + 1, expires := Some(now + duration), lastClaimed := Some(now))
  }

  predicate Holds(s: Source, generation: nat, now: int) {
    s.generation == generation && s.expires.Some? && s.expires.value > now
  }

  function Renew(s: Source, duration: int, now: int): Source
    requires s.expires.Some?
  {
    s.(expires := Some(Max(s.expires.value, now + duration)))
  }

  function Complete(s: Source, category: Retry.Category, retryAfter: int, now: int): Source {
    var transient := Retry.Transient(category);
    s.(lastAttempted := Some(now), failures := if transient then s.failures + 1 else 0,
       nextAttempt := if transient then Some(now + Retry.Delay(s.failures + 1, retryAfter)) else None,
       expires := None)
  }

  // ---- Runs ----------------------------------------------------------------------

  datatype Op =
    | DoClaim(eligibility: Eligibility, interval: int, duration: int)
    | DoRenew(generation: nat, duration: int)
    | DoComplete(generation: nat, category: Retry.Category, retryAfter: int)

  /** Durations and intervals are validated before the store is asked. */
  predicate Effective(s: Source, op: Op, now: int) {
    match op
    case DoClaim(st, interval, duration) => interval > 0 && duration > 0 && Claimable(s, st, interval, now)
    case DoRenew(generation, duration) => duration > 0 && Holds(s, generation, now)
    case DoComplete(generation, _, retryAfter) => 0 <= retryAfter <= Retry.MAX_DELAY && Holds(s, generation, now)
  }

  function Apply(s: Source, op: Op, now: int): Source {
    if !Effective(s, op, now) then s
    else
      match op
      case DoClaim(_, _, duration) => Claim(s, duration, now)
      case DoRenew(_, duration) => Renew(s, duration, now)
      case DoComplete(_, category, retryAfter) => Complete(s, category, retryAfter, now)
  }

  function Logged(s: Source, op: Op, now: int): seq<Entry> {
    if !Effective(s, op, now) then []
    else
      match op
      case DoClaim(_, _, duration) => [Claimed(s.generation + 1, now, now + duration)]
      case DoRenew(generation, duration) => [Renewed(generation, Max(s.expires.value, now + duration))]
      case DoComplete(generation, _, _) => [Released(generation)]
  }

  /** A source and what happened to its leases. */
  datatype World = World(source: Source, log: seq<Entry>)

  ghost predicate Next(w: World, w': World) {
    exists op, now :: w'.source == Apply(w.source, op, now) && w'.log == w.log + Logged(w.source, op, now)
  }

  /** Clock readings are arbitrary. */
  ghost predicate Run(ws: seq<World>) {
    && ws != [] && ws[0] == World(NEW_SOURCE, [])
    && forall i, j :: 0 <= i && j == i + 1 && j < |ws| ==> Next(ws[i], ws[j])
  }

  ghost predicate Sound(w: World) { Inv(Columns(w.source), w.log) }

  lemma StepKeepsSound(w: World, w': World)
    requires Sound(w) && Next(w, w')
    ensures Sound(w')
  {
    var s := w.source;
    var op, now :| w'.source == Apply(s, op, now) && w'.log == w.log + Logged(s, op, now);
    hide Inv;
    if !Effective(s, op, now) {
      assert w.log + [] == w.log;
    } else {
      match op
      case DoClaim(_, _, duration) => ClaimKeeps(Columns(s), w.log, now, now + duration);
      case DoRenew(_, duration) => RenewKeeps(Columns(s), w.log, Max(s.expires.value, now + duration));
      case DoComplete(_, _, _) => ReleaseKeeps(Columns(s), w.log);
    }
  }

  lemma {:induction false} RunKeepsSound(ws: seq<World>, k: nat)
    requires Run(ws) && k < |ws|
    ensures Sound(ws[k])
  {
    if k > 0 {
      RunKeepsSound(ws, k - 1);
      hide Sound, Next;
      StepKeepsSound(ws[k - 1], ws[k]);
    }
  }

  /**
   For the whole existence of a source: one completion per claim, under the claimed generation
   only, and one holder at a time.
   */
  lemma LeasesHold(ws: seq<World>, k: nat)
    requires Run(ws) && k < |ws|
    ensures Fenced(ws[k].log) && Exclusive(ws[k].log)
  {
    RunKeepsSound(ws, k);
  }

  /** A lease that was claimed over never passes the fence again. */
  lemma SupersededLeaseIsLost(ws: seq<World>, k: nat, i: nat, j: nat, now: int)
    requires Run(ws) && k < |ws| && i < j < |ws[k].log| && ws[k].log[j].Claimed?
    ensures !Holds(ws[k].source, ws[k].log[i].gen, now)
  {
    RunKeepsSound(ws, k);
    assert Fenced(ws[k].log) && Current(Columns(ws[k].source), ws[k].log);
    assert ws[k].log[i].gen < ws[k].log[j].gen;
  }

  /** After a completion the source is next claimed when its retry is due or its interval has passed, and not before. */
  lemma NextClaimIsDue(s: Source, done: Op, now: int, claim: Op, later: int)
    requires done.DoComplete? && Effective(s, done, now) && claim.DoClaim?
    ensures Effective(Apply(s, done, now), claim, later) ==>
      later >= now + (if Retry.Transient(done.category) then Retry.Delay(s.failures + 1, done.retryAfter)
        else claim.interval)
  {
  }
}
