/**
 The request scheduler as concurrent callers use it. Each critical section of
 the source is one step: acquiring and releasing pins under the scheduler lock,
 setting a crawl delay, and the check-and-grant of `wait` under the two entry
 locks. Callers interleave freely; each step reads a clock that does not go
 backwards.
 */
module PacingRuns {
  import opened Wrappers
  import opened Pacing

  /** `neighborhood` gives the shared pacing group of an origin, when it has one. */
  datatype Config<!O, !G> = Config(minimum: int, capacity: nat, neighborhood: O -> Option<G>,
                                   lessOrigin: (O, O) -> bool, lessGroup: (G, G) -> bool)

  ghost predicate ValidConfig<O(!new), G(!new)>(c: Config<O, G>) {
    c.minimum >= 0 && StrictTotalOrder(c.lessOrigin) && StrictTotalOrder(c.lessGroup)
  }

  datatype Schedules<!O, !G> = Schedules(origins: Lane<O>, groups: Lane<G>)

  // ---- Steps on one lane ---------------------------------------------------

  function Unpin<K>(lane: Lane<K>, id: nat, now: int): Lane<K>
    requires id < |lane.heap|
  {
    lane.(heap := lane.heap[id := lane.heap[id].(users := lane.heap[id].users - 1, lastAccess := now)])
  }

  function Grant<K>(lane: Lane<K>, id: nat, now: int): Lane<K>
    requires id < |lane.heap|
  {
    lane.(heap := lane.heap[id := lane.heap[id].(lastStart := Some(now))])
  }

  function SetDelay<K>(lane: Lane<K>, id: nat, delay: int): Lane<K>
    requires id < |lane.heap|
  {
    lane.(heap := lane.heap[id := lane.heap[id].(crawlDelay := delay)])
  }

  lemma UnpinKeepsInv<K(!new)>(lane: Lane<K>, pins: map<PinId, Hold<K>>, hist: map<K, seq<Event>>, clock: int,
                               p: PinId, now: int, minimum: int, capacity: nat)
    requires LaneInv(lane, pins, hist, clock, minimum, capacity) && p in pins && clock <= now
    ensures pins[p].entry < |lane.heap|
    ensures LaneInv(Unpin(lane, pins[p].entry, now), pins - {p}, hist, now, minimum, capacity)
  {
    var id := pins[p].entry;
    var after := Unpin(lane, id, now);
    assert UsersCounted(after, pins - {p}) by {
      forall x | 0 <= x < |after.heap| ensures after.heap[x].users == |HoldsOn(pins - {p}, x)| {
        DroppedHold(pins, p, x);
      }
    }
    SameStartsKeepHistory(lane, hist, clock, now, minimum, after);
  }

  lemma DroppedHold<K>(pins: map<PinId, Hold<K>>, p: PinId, id: nat)
    requires p in pins
    ensures |HoldsOn(pins - {p}, id)| == |HoldsOn(pins, id)| - (if pins[p].entry == id then 1 else 0)
  {
    if pins[p].entry == id {
      assert HoldsOn(pins, id) == HoldsOn(pins - {p}, id) + {p};
    } else {
      assert HoldsOn(pins, id) == HoldsOn(pins - {p}, id);
    }
  }

  /** Steps that touch neither the map nor a last start keep every history in agreement. */
  lemma SameStartsKeepHistory<K(!new)>(lane: Lane<K>, hist: map<K, seq<Event>>,
    clock: int, now: int, minimum: int, after: Lane<K>)
    requires WellFormed(lane) && clock <= now
    requires after.table == lane.table && |after.heap| == |lane.heap|
    requires forall id :: 0 <= id < |lane.heap| ==> after.heap[id].lastStart == lane.heap[id].lastStart
    requires forall k :: Agrees(Past(hist, k), Held(lane, k), clock, minimum)
    ensures forall k :: Agrees(Past(hist, k), Held(after, k), now, minimum)
  {
    hide Agrees;
    forall k ensures Agrees(Past(hist, k), Held(after, k), now, minimum) {
      LaterAgrees(Past(hist, k), Held(lane, k), Held(after, k), clock, now, minimum);
    }
  }

  lemma SetDelayKeepsInv<K(!new)>(lane: Lane<K>, pins: map<PinId, Hold<K>>, hist: map<K, seq<Event>>, clock: int,
                                  id: nat, delay: int, now: int, minimum: int, capacity: nat)
    requires LaneInv(lane, pins, hist, clock, minimum, capacity) && id < |lane.heap| && clock <= now
    ensures LaneInv(SetDelay(lane, id, delay), pins, hist, now, minimum, capacity)
  {
    SameStartsKeepHistory(lane, hist, clock, now, minimum, SetDelay(lane, id, delay));
  }

  lemma LaterKeepsInv<K(!new)>(lane: Lane<K>, pins: map<PinId, Hold<K>>, hist: map<K, seq<Event>>, clock: int,
                               now: int, minimum: int, capacity: nat)
    requires LaneInv(lane, pins, hist, clock, minimum, capacity) && clock <= now
    ensures LaneInv(lane, pins, hist, now, minimum, capacity)
  {
    SameStartsKeepHistory(lane, hist, clock, now, minimum, lane);
  }

  ghost function RecordStart<K>(hist: map<K, seq<Event>>, k: K, now: int, spacing: int): map<K, seq<Event>> {
    hist[k := Past(hist, k) + [Start(now, spacing)]]
  }

  lemma StartAgrees(h: seq<Event>, e: Entry, clock: int, now: int, spacing: int, minimum: int)
    requires Agrees(h, Some(e), clock, minimum) && clock <= now && spacing >= minimum
    requires RemainingDelay(e.lastStart, spacing, now) == 0
    ensures Agrees(h + [Start(now, spacing)], Some(e.(lastStart := Some(now))), now, minimum)
  {
  }

  lemma GrantKeepsInv<K(!new)>(lane: Lane<K>, pins: map<PinId, Hold<K>>, hist: map<K, seq<Event>>, clock: int,
                               p: PinId, now: int, spacing: int, minimum: int, capacity: nat)
    requires LaneInv(lane, pins, hist, clock, minimum, capacity) && p in pins && clock <= now
    requires spacing >= minimum && pins[p].entry < |lane.heap|
    requires RemainingDelay(lane.heap[pins[p].entry].lastStart, spacing, now) == 0
    ensures LaneInv(Grant(lane, pins[p].entry, now), pins, RecordStart(hist, pins[p].key, now, spacing),
      now, minimum, capacity)
  {
    var key, id := pins[p].key, pins[p].entry;
    var after := Grant(lane, id, now);
    forall k ensures Agrees(Past(RecordStart(hist, key, now, spacing), k), Held(after, k), now, minimum) {
      assert Agrees(Past(hist, k), Held(lane, k), clock, minimum);
      hide Agrees;
      if k == key {
        StartAgrees(Past(hist, k), lane.heap[id], clock, now, spacing, minimum);
      } else {
        LaterAgrees(Past(hist, k), Held(lane, k), Held(after, k), clock, now, minimum);
      }
    }
  }

  // ---- The critical sections ----------------------------------------------

  /** Pinning a target: its origin, then its neighborhood; the origin pin is undone when the second fails. */
  ghost predicate TargetOutcome<O(!new), G(!new)>(c: Config<O, G>, s: Schedules<O, G>,
    o: O, now: int, s': Schedules<O, G>,
                                                  mid: Lane<O>, origin: Option<nat>, group: Option<nat>)
    requires WellFormed(s.origins) && WellFormed(s.groups)
  {
    && PinOutcome(s.origins, o, now, c.minimum, c.capacity, c.lessOrigin, mid, origin)
    && (if origin.None? || c.neighborhood(o).None? then s' == Schedules(mid, s.groups) && group.None?
        else
          && origin.value < |mid.heap|
          && PinOutcome(s.groups, c.neighborhood(o).value, now, c.minimum, c.capacity, c.lessGroup, s'.groups, group)
          && s'.origins == (if group.Some? then mid else Unpin(mid, origin.value, now)))
  }

  /** The grant condition of `wait`: nothing left to wait for on either entry. */
  predicate Ready<O, G>(c: Config<O, G>, s: Schedules<O, G>, origin: nat, group: Option<nat>, now: int)
    requires origin < |s.origins.heap| && (group.Some? ==> group.value < |s.groups.heap|)
  {
    && RemainingDelay(s.origins.heap[origin].lastStart, Spacing(s.origins.heap[origin], c.minimum), now) == 0
    && (group.Some? ==> RemainingDelay(s.groups.heap[group.value].lastStart, c.minimum, now) == 0)
  }

  function Granted<O, G>(s: Schedules<O, G>, origin: nat, group: Option<nat>, now: int): Schedules<O, G>
    requires origin < |s.origins.heap| && (group.Some? ==> group.value < |s.groups.heap|)
  {
    Schedules(Grant(s.origins, origin, now), if group.Some? then Grant(s.groups, group.value, now) else s.groups)
  }

  /** The scheduler object. Each method is one critical section of the source. */
  class RequestScheduler<O(==, !new), G(==, !new)> {
    const config: Config<O, G>
    var schedules: Schedules<O, G>

    ghost predicate Valid()
      reads this
    {
      ValidConfig(config) && WellFormed(schedules.origins) && WellFormed(schedules.groups)
    }

    constructor (c: Config<O, G>)
      requires ValidConfig(c)
      ensures Valid() && config == c && schedules == Schedules(Lane(map[], []), Lane(map[], []))
    {
      config := c;
      schedules := Schedules(Lane(map[], []), Lane(map[], []));
    }

    method Acquire(source: O, now: int) returns (r: Option<nat>)
      requires Valid()
      modifies this
      ensures Valid() && schedules.groups == old(schedules.groups)
      ensures PinOutcome(old(schedules.origins), source, now, config.minimum,
        config.capacity, config.lessOrigin, schedules.origins, r)
    {
      var after;
      after, r := Pin(schedules.origins, source, now, config.minimum, config.capacity, config.lessOrigin);
      PinHasShape(schedules.origins, source, now, config.minimum, config.capacity, config.lessOrigin, after, r);
      schedules := schedules.(origins := after);
    }

    method AcquireTarget(target: O, now: int) returns (origin: Option<nat>, group: Option<nat>, ghost mid: Lane<O>)
      requires Valid()
      modifies this
      ensures Valid()
      ensures TargetOutcome(config, old(schedules), target, now, schedules, mid, origin, group)
    {
      origin := Acquire(target, now);
      mid, group := schedules.origins, None;
      if origin.Some? && config.neighborhood(target).Some? {
        PinHasShape(old(schedules.origins), target, now, config.minimum, config.capacity,
          config.lessOrigin, mid, origin);
        var key := config.neighborhood(target).value;
        var after;
        after, group := Pin(schedules.groups, key, now, config.minimum, config.capacity, config.lessGroup);
        PinHasShape(schedules.groups, key, now, config.minimum, config.capacity, config.lessGroup, after, group);
        schedules := schedules.(groups := after);
        if group.None? {
          schedules := schedules.(origins := Unpin(schedules.origins, origin.value, now));
        }
      }
    }

    method ReleaseOrigin(id: nat, now: int)
      requires Valid() && id < |schedules.origins.heap|
      modifies this
      ensures Valid() && schedules == old(schedules).(origins := Unpin(old(schedules.origins), id, now))
    {
      schedules := schedules.(origins := Unpin(schedules.origins, id, now));
    }

    method ReleaseGroup(id: nat, now: int)
      requires Valid() && id < |schedules.groups.heap|
      modifies this
      ensures Valid() && schedules == old(schedules).(groups := Unpin(old(schedules.groups), id, now))
    {
      schedules := schedules.(groups := Unpin(schedules.groups, id, now));
    }

    method SetCrawlDelay(id: nat, delay: int)
      requires Valid() && id < |schedules.origins.heap|
      modifies this
      ensures Valid() && schedules == old(schedules).(origins := SetDelay(old(schedules.origins), id, delay))
    {
      schedules := schedules.(origins := SetDelay(schedules.origins, id, delay));
    }

    /** One pass of the loop in `wait`: grant the start, or report how long to wait. */
    method TryStart(origin: nat, group: Option<nat>, now: int) returns (wait: int)
      requires Valid() && origin < |schedules.origins.heap| && (group.Some? ==> group.value < |schedules.groups.heap|)
      modifies this
      ensures Valid()
      ensures wait == 0 <==> Ready(config, old(schedules), origin, group, now)
      ensures schedules == if wait == 0 then Granted(old(schedules), origin, group, now) else old(schedules)
    {
      var originDelay := config.minimum;
      if schedules.origins.heap[origin].crawlDelay > originDelay {
        originDelay := schedules.origins.heap[origin].crawlDelay;
      }
      wait := RemainingDelay(schedules.origins.heap[origin].lastStart, originDelay, now);
      if group.Some? {
        var groupWait := RemainingDelay(schedules.groups.heap[group.value].lastStart, config.minimum, now);
        if groupWait > wait {
          wait := groupWait;
        }
      }
      if wait == 0 {
        schedules := Granted(schedules, origin, group, now);
      }
    }
  }

  // ---- Runs ----------------------------------------------------------------

  /** The scheduler, who holds what, what each key has been granted so far, and the clock. */
  datatype World<!O, !G> = World(s: Schedules<O, G>, originPins: map<PinId, Hold<O>>, groupPins: map<PinId, Hold<G>>,
                                 originPast: map<O, seq<Event>>, groupPast: map<G, seq<Event>>, clock: int)

  /** What a caller does next. */
  datatype Action<O> =
    | AcquireOrigin(o: O, p: PinId)
    | AcquireTarget(o: O, p: PinId, q: PinId)
    | ReleaseOrigin(p: PinId)
    | ReleaseGroup(q: PinId)
    | SetCrawlDelay(p: PinId, delay: int)
    | TryStart(p: PinId, group: Option<PinId>)

  ghost predicate WorldInv<O(!new), G(!new)>(c: Config<O, G>, w: World<O, G>) {
    && LaneInv(w.s.origins, w.originPins, w.originPast, w.clock, c.minimum, c.capacity)
    && LaneInv(w.s.groups, w.groupPins, w.groupPast, w.clock, c.minimum, c.capacity)
  }

  ghost predicate Initial<O, G>(w: World<O, G>) {
    && w.s == Schedules(Lane(map[], []), Lane(map[], []))
    && w.originPins == map[] && w.groupPins == map[] && w.originPast == map[] && w.groupPast == map[]
  }

  /** A caller's pins for a start: the origin's, and the neighborhood's exactly when there is one. */
  ghost predicate PinnedFor<O, G>(c: Config<O, G>, w: World<O, G>, p: PinId, q: Option<PinId>) {
    && p in w.originPins && w.originPins[p].entry < |w.s.origins.heap|
    && (q.Some? <==> c.neighborhood(w.originPins[p].key).Some?)
    && (q.Some? ==> && q.value in w.groupPins && w.groupPins[q.value].entry < |w.s.groups.heap|
                    && w.groupPins[q.value].key == c.neighborhood(w.originPins[p].key).value)
  }

  ghost predicate AcquireStep<O(!new), G(!new)>(c: Config<O, G>, w: World<O, G>, o: O,
    p: PinId, now: int, w': World<O, G>)
    requires WellFormed(w.s.origins)
  {
    && p !in w.originPins
    && exists r :: && PinOutcome(w.s.origins, o, now, c.minimum, c.capacity, c.lessOrigin, w'.s.origins, r)
                   && w' == w.(s := w.s.(origins := w'.s.origins),
                               originPins := Holding(w.originPins, p, o, r),
                               originPast := RecordEvictions(w.originPast, w.s.origins, w'.s.origins, now, c.minimum),
                               clock := now)
  }

  ghost predicate TargetStep<O(!new), G(!new)>(c: Config<O, G>, w: World<O, G>, o: O,
    p: PinId, q: PinId, now: int, w': World<O, G>)
    requires WellFormed(w.s.origins) && WellFormed(w.s.groups)
  {
    && p !in w.originPins && q !in w.groupPins
    && exists mid, origin, group ::
         && TargetOutcome(c, w.s, o, now, w'.s, mid, origin, group)
         && var kept := origin.Some? && (group.Some? || c.neighborhood(o).None?);
            w' == World(w'.s,
                        Holding(w.originPins, p, o, if kept then origin else None),
                        if group.Some? && c.neighborhood(o).Some?
                        then Holding(w.groupPins, q, c.neighborhood(o).value, group) else w.groupPins,
                        RecordEvictions(w.originPast, w.s.origins, mid, now, c.minimum),
                        RecordEvictions(w.groupPast, w.s.groups, w'.s.groups, now, c.minimum),
                        now)
  }

  ghost predicate StartStep<O(!new), G(!new)>(c: Config<O, G>, w: World<O, G>, p: PinId,
    q: Option<PinId>, now: int, w': World<O, G>) {
    && PinnedFor(c, w, p, q)
    && var hold := w.originPins[p];
       var group := if q.Some? then Some(w.groupPins[q.value].entry) else None;
       if !Ready(c, w.s, hold.entry, group, now) then w' == w.(clock := now)
       else w' == w.(s := Granted(w.s, hold.entry, group, now),
                     originPast := RecordStart(w.originPast, hold.key, now,
                       Spacing(w.s.origins.heap[hold.entry], c.minimum)),
                     groupPast := if q.Some? then RecordStart(w.groupPast, w.groupPins[q.value].key, now, c.minimum)
                       else w.groupPast,
                     clock := now)
  }

  /** One critical section by one caller. */
  ghost predicate Step<O(!new), G(!new)>(c: Config<O, G>, w: World<O, G>, a: Action<O>, now: int, w': World<O, G>) {
    && WellFormed(w.s.origins) && WellFormed(w.s.groups) && w.clock <= now
    && match a
       case AcquireOrigin(o, p) => AcquireStep(c, w, o, p, now, w')
       case AcquireTarget(o, p, q) => TargetStep(c, w, o, p, q, now, w')
       case ReleaseOrigin(p) =>
         && p in w.originPins && w.originPins[p].entry < |w.s.origins.heap|
         && w' == w.(s := w.s.(origins := Unpin(w.s.origins, w.originPins[p].entry, now)),
              originPins := w.originPins - {p}, clock := now)
       case ReleaseGroup(q) =>
         && q in w.groupPins && w.groupPins[q].entry < |w.s.groups.heap|
         && w' == w.(s := w.s.(groups := Unpin(w.s.groups, w.groupPins[q].entry, now)),
              groupPins := w.groupPins - {q}, clock := now)
       case SetCrawlDelay(p, delay) =>
         && p in w.originPins && w.originPins[p].entry < |w.s.origins.heap|
         && w' == w.(s := w.s.(origins := SetDelay(w.s.origins, w.originPins[p].entry, delay)), clock := now)
       case TryStart(p, q) => StartStep(c, w, p, q, now, w')
  }

  lemma AcquireKeepsInv<O(!new), G(!new)>(c: Config<O, G>, w: World<O, G>, o: O, p: PinId, now: int, w': World<O, G>)
    requires ValidConfig(c) && WorldInv(c, w) && w.clock <= now && AcquireStep(c, w, o, p, now, w')
    ensures WorldInv(c, w')
  {
    assert WellFormed(w.s.origins);
    hide LaneInv, PinOutcome, RecordEvictions, Holding;
    var r :| && PinOutcome(w.s.origins, o, now, c.minimum, c.capacity, c.lessOrigin, w'.s.origins, r)
             && w' == w.(s := w.s.(origins := w'.s.origins),
                         originPins := Holding(w.originPins, p, o, r),
                         originPast := RecordEvictions(w.originPast, w.s.origins, w'.s.origins, now, c.minimum),
                         clock := now);
    PinKeepsInv(w.s.origins, w.originPins, w.originPast, w.clock, o, p, now, c.minimum,
      c.capacity, c.lessOrigin, w'.s.origins, r);
    LaterKeepsInv(w.s.groups, w.groupPins, w.groupPast, w.clock, now, c.minimum, c.capacity);
  }

  lemma TargetKeepsInv<O(!new), G(!new)>(c: Config<O, G>, w: World<O, G>, o: O, p: PinId,
    q: PinId, now: int, w': World<O, G>)
    requires ValidConfig(c) && WorldInv(c, w) && w.clock <= now && TargetStep(c, w, o, p, q, now, w')
    ensures WorldInv(c, w')
  {
    hide PinOutcome, RecordEvictions, WellFormed, Injective, HoldsLive, UsersCounted, Agrees, Held;
    var mid, origin, group :|
      && TargetOutcome(c, w.s, o, now, w'.s, mid, origin, group)
      && var kept := origin.Some? && (group.Some? || c.neighborhood(o).None?);
         w' == World(w'.s,
                     Holding(w.originPins, p, o, if kept then origin else None),
                     if group.Some? && c.neighborhood(o).Some?
                     then Holding(w.groupPins, q, c.neighborhood(o).value, group) else w.groupPins,
                     RecordEvictions(w.originPast, w.s.origins, mid, now, c.minimum),
                     RecordEvictions(w.groupPast, w.s.groups, w'.s.groups, now, c.minimum),
                     now);
    hide LaneInv;
    PinKeepsInv(w.s.origins, w.originPins, w.originPast, w.clock, o, p, now, c.minimum,
      c.capacity, c.lessOrigin, mid, origin);
    if origin.None? || c.neighborhood(o).None? {
      NothingEvicted(w.s.groups, w.groupPins, w.groupPast, w.clock, now, c.minimum, c.capacity);
    } else {
      PinKeepsInv(w.s.groups, w.groupPins, w.groupPast, w.clock, c.neighborhood(o).value, q, now, c.minimum, c.capacity,
                  c.lessGroup, w'.s.groups, group);
      if group.None? {
        var pins := Holding(w.originPins, p, o, origin);
        UnpinKeepsInv(mid, pins, w'.originPast, now, p, now, c.minimum, c.capacity);
        assert pins - {p} == w.originPins;
      }
    }
  }

  /** A lane nobody touched only sees the clock move. */
  lemma NothingEvicted<K(!new)>(lane: Lane<K>, pins: map<PinId, Hold<K>>, hist: map<K, seq<Event>>, clock: int,
                                now: int, minimum: int, capacity: nat)
    requires LaneInv(lane, pins, hist, clock, minimum, capacity) && clock <= now
    ensures WellFormed(lane)
    ensures LaneInv(lane, pins, RecordEvictions(hist, lane, lane, now, minimum), now, minimum, capacity)
  {
    LaterKeepsInv(lane, pins, hist, clock, now, minimum, capacity);
    var hist' := RecordEvictions(hist, lane, lane, now, minimum);
    assert Dropped(lane, lane) == {};
    forall k ensures Agrees(Past(hist', k), Held(lane, k), now, minimum) {
      assert Past(hist', k) == Past(hist, k);
    }
  }

  lemma StartKeepsInv<O(!new), G(!new)>(c: Config<O, G>, w: World<O, G>, p: PinId,
    q: Option<PinId>, now: int, w': World<O, G>)
    requires ValidConfig(c) && WorldInv(c, w) && w.clock <= now && StartStep(c, w, p, q, now, w')
    ensures WorldInv(c, w')
  {
    hide LaneInv, RecordStart;
    var hold := w.originPins[p];
    var group := if q.Some? then Some(w.groupPins[q.value].entry) else None;
    if Ready(c, w.s, hold.entry, group, now) {
      GrantKeepsInv(w.s.origins, w.originPins, w.originPast, w.clock, p, now,
                    Spacing(w.s.origins.heap[hold.entry], c.minimum), c.minimum, c.capacity);
      if q.Some? {
        GrantKeepsInv(w.s.groups, w.groupPins, w.groupPast, w.clock, q.value, now, c.minimum, c.minimum, c.capacity);
      } else {
        LaterKeepsInv(w.s.groups, w.groupPins, w.groupPast, w.clock, now, c.minimum, c.capacity);
      }
    } else {
      LaterKeepsInv(w.s.origins, w.originPins, w.originPast, w.clock, now, c.minimum, c.capacity);
      LaterKeepsInv(w.s.groups, w.groupPins, w.groupPast, w.clock, now, c.minimum, c.capacity);
    }
  }

  /** Every step of every caller keeps the invariant. */
  lemma StepKeepsInv<O(!new), G(!new)>(c: Config<O, G>, w: World<O, G>, a: Action<O>, now: int, w': World<O, G>)
    requires ValidConfig(c) && WorldInv(c, w) && Step(c, w, a, now, w')
    ensures WorldInv(c, w')
  {
    hide LaneInv, AcquireStep, TargetStep, StartStep;
    LaterKeepsInv(w.s.origins, w.originPins, w.originPast, w.clock, now, c.minimum, c.capacity);
    LaterKeepsInv(w.s.groups, w.groupPins, w.groupPast, w.clock, now, c.minimum, c.capacity);
    match a
    case AcquireOrigin(o, p) => AcquireKeepsInv(c, w, o, p, now, w');
    case AcquireTarget(o, p, q) => TargetKeepsInv(c, w, o, p, q, now, w');
    case ReleaseOrigin(p) => UnpinKeepsInv(w.s.origins, w.originPins, w.originPast,
      w.clock, p, now, c.minimum, c.capacity);
    case ReleaseGroup(q) => UnpinKeepsInv(w.s.groups, w.groupPins, w.groupPast, w.clock, q, now, c.minimum, c.capacity);
    case SetCrawlDelay(p, delay) =>
      SetDelayKeepsInv(w.s.origins, w.originPins, w.originPast, w.clock, w.originPins[p].entry,
        delay, now, c.minimum, c.capacity);
    case TryStart(p, q) => StartKeepsInv(c, w, p, q, now, w');
  }

  ghost predicate Next<O(!new), G(!new)>(c: Config<O, G>, w: World<O, G>, w': World<O, G>) {
    exists a, now :: Step(c, w, a, now, w')
  }

  /** Any interleaving of any callers' steps, from the empty scheduler. */
  ghost predicate Run<O(!new), G(!new)>(c: Config<O, G>, ws: seq<World<O, G>>) {
    && ws != [] && Initial(ws[0])
    && forall i, j :: 0 <= i && j == i + 1 && j < |ws| ==> Next(c, ws[i], ws[j])
  }

  lemma {:induction false} RunKeepsInv<O(!new), G(!new)>(c: Config<O, G>, ws: seq<World<O, G>>, i: nat)
    requires ValidConfig(c) && Run(c, ws) && i < |ws|
    ensures WorldInv(c, ws[i])
  {
    if i == 0 {
      StartsSafe(c, ws[0]);
    } else {
      RunKeepsInv(c, ws, i - 1);
      hide WorldInv, Step;
      assert Next(c, ws[i - 1], ws[i]);
      var a, now :| Step(c, ws[i - 1], a, now, ws[i]);
      StepKeepsInv(c, ws[i - 1], a, now, ws[i]);
    }
  }

  lemma StartsSafe<O(!new), G(!new)>(c: Config<O, G>, w: World<O, G>)
    requires Initial(w)
    ensures WorldInv(c, w)
  {
  }

  /** Two starts of one history are at least the minimum apart. */
  ghost predicate Apart(h: seq<Event>, minimum: int) {
    forall i, j :: 0 <= i < j < |h| && h[i].Start? && h[j].Start? ==> h[i].at + minimum <= h[j].at
  }

  lemma SpacedApart(h: seq<Event>, minimum: int)
    requires Spaced(h, minimum) && minimum >= 0
    ensures Apart(h, minimum)
  {
    forall i, j | 0 <= i < j < |h| && h[i].Start? && h[j].Start? ensures h[i].at + minimum <= h[j].at {
      StartsAreApart(h, minimum, i, j);
    }
  }

  /**
   The pacing promise, for every interleaving: starts of one origin and of one
   neighborhood keep the operator minimum, each start and each eviction also
   keeps the spacing its entry held at that moment, pinned entries are never
   replaced, and both maps stay within capacity.
   */
  lemma PacingHolds<O(!new), G(!new)>(c: Config<O, G>, ws: seq<World<O, G>>, i: nat, o: O, g: G)
    requires ValidConfig(c) && Run(c, ws) && i < |ws|
    ensures Apart(Past(ws[i].originPast, o), c.minimum) && Spaced(Past(ws[i].originPast, o), c.minimum)
    ensures Apart(Past(ws[i].groupPast, g), c.minimum) && Spaced(Past(ws[i].groupPast, g), c.minimum)
    ensures HoldsLive(ws[i].s.origins, ws[i].originPins) && HoldsLive(ws[i].s.groups, ws[i].groupPins)
    ensures |ws[i].s.origins.table| <= c.capacity && |ws[i].s.groups.table| <= c.capacity
  {
    var w := ws[i];
    RunKeepsInv(c, ws, i);
    assert Agrees(Past(w.originPast, o), Held(w.s.origins, o), w.clock, c.minimum);
    assert Agrees(Past(w.groupPast, g), Held(w.s.groups, g), w.clock, c.minimum);
    SpacedApart(Past(w.originPast, o), c.minimum);
    SpacedApart(Past(w.groupPast, g), c.minimum);
  }
}
