/**
 Outbound pacing: one map of schedule entries per origin and one per
 neighborhood, with pinning and bounded eviction. Entries live in a heap and
 maps refer to them by position, so a caller that pinned an entry keeps
 referring to that entry even if the map were to name another one.

 Times and delays are nanoseconds. A zero `lastStart` in the source is `None`.
 */
module Pacing {
  import opened Wrappers

  const CACHE_LIFETIME: int := 24 * 60 * 60 * 1_000_000_000

  datatype Entry = Entry(crawlDelay: int, lastStart: Option<int>, lastAccess: int, users: int)

  /** One schedule map and the entries it has ever held. */
  datatype Lane<!K> = Lane(table: map<K, nat>, heap: seq<Entry>)

  predicate WellFormed<K(==)>(lane: Lane<K>) {
    forall k :: k in lane.table ==> lane.table[k] < |lane.heap|
  }

  /** No two keys share an entry. */
  ghost predicate Injective<K>(lane: Lane<K>) {
    forall k, m :: k in lane.table && m in lane.table && lane.table[k] == lane.table[m] ==> k == m
  }

  /** The spacing an entry imposes. */
  function Spacing(e: Entry, minimum: int): int { Max(minimum, e.crawlDelay) }

  /** How long the last start still blocks a request. */
  function RemainingDelay(lastStart: Option<int>, delay: int, now: int): (wait: int)
    ensures wait >= 0
    ensures wait == 0 <==> lastStart.None? || lastStart.value + delay <= now
  {
    if lastStart.None? then 0
    else if lastStart.value + delay > now then lastStart.value + delay - now
    else 0
  }

  /** Idle, and its spacing has elapsed. */
  predicate Evictable(e: Entry, minimum: int, now: int) {
    e.users == 0 && (e.lastStart.None? || e.lastStart.value + Spacing(e, minimum) <= now)
  }

  predicate Stale(e: Entry, minimum: int, now: int) {
    Evictable(e, minimum, now) && e.lastAccess + CACHE_LIFETIME <= now
  }

  /** The entries that survive the sweep of a pin. */
  function Kept<K>(lane: Lane<K>, minimum: int, now: int): map<K, nat>
    requires WellFormed(lane)
  {
    map k | k in lane.table && !Stale(lane.heap[lane.table[k]], minimum, now) :: lane.table[k]
  }

  ghost predicate StrictTotalOrder<K(!new)>(less: (K, K) -> bool) {
    && (forall a :: !less(a, a))
    && (forall a, b, c :: less(a, b) && less(b, c) ==> less(a, c))
    && (forall a, b :: a == b || less(a, b) || less(b, a))
  }

  /** a was used longer ago than b; ties go to the smaller key. */
  predicate Older<K(==)>(lane: Lane<K>, a: K, b: K, less: (K, K) -> bool)
    requires WellFormed(lane) && a in lane.table && b in lane.table
  {
    var x, y := lane.heap[lane.table[a]].lastAccess, lane.heap[lane.table[b]].lastAccess;
    x < y || (x == y && less(a, b))
  }

  /** v is the entry to make room with. */
  ghost predicate Victim<K>(lane: Lane<K>, kept: map<K, nat>, v: K, minimum: int, now: int, less: (K, K) -> bool)
    requires WellFormed(lane) && kept.Keys <= lane.table.Keys
  {
    && v in kept && Evictable(lane.heap[lane.table[v]], minimum, now)
    && forall k :: k in kept && k != v && Evictable(lane.heap[lane.table[k]], minimum, now) ==> Older(lane, v, k, less)
  }

  /** The lane after adding a pin on an existing entry. */
  function Touch<K>(lane: Lane<K>, id: nat, now: int): Lane<K>
    requires id < |lane.heap|
  {
    lane.(heap := lane.heap[id := lane.heap[id].(users := lane.heap[id].users + 1, lastAccess := now)])
  }

  function Create<K>(lane: Lane<K>, key: K, now: int): Lane<K> {
    Lane(lane.table[key := |lane.heap|], lane.heap + [Entry(0, None, now, 1)])
  }

  /** What a pin may do: sweep stale entries, then find or create the key's entry, or fail when full. */
  ghost predicate PinOutcome<K(!new)>(lane: Lane<K>, key: K, now: int, minimum: int,
    capacity: nat, less: (K, K) -> bool,
                                after: Lane<K>, r: Option<nat>)
    requires WellFormed(lane)
  {
    var kept := Kept(lane, minimum, now);
    var swept := lane.(table := kept);
    if key in kept then r == Some(kept[key]) && after == Touch(swept, kept[key], now)
    else if |kept| < capacity then r == Some(|lane.heap|) && after == Create(swept, key, now)
    else if r.None? then
      after == swept && forall k :: k in kept ==> !Evictable(lane.heap[lane.table[k]], minimum, now)
    else
      && r == Some(|lane.heap|)
      && exists v :: Victim(lane, kept, v, minimum, now, less) && after == Create(lane.(table := kept - {v}), key, now)
  }

  /** The sweep loop of a pin and the choice it leads to. */
  method Pin<K(==, !new)>(lane: Lane<K>, key: K, now: int, minimum: int, capacity: nat, less: (K, K) -> bool)
    returns (after: Lane<K>, r: Option<nat>)
    requires WellFormed(lane) && StrictTotalOrder(less)
    ensures PinOutcome(lane, key, now, minimum, capacity, less, after, r)
  {
    var table, oldest := Sweep(lane, now, minimum, less);
    assert table == Kept(lane, minimum, now);
    after := lane.(table := table);
    if key in table {
      r := Some(table[key]);
      after := Touch(after, table[key], now);
    } else {
      if |table| >= capacity {
        if oldest.None? {
          return after, None;
        }
        after := after.(table := table - {oldest.value});
      }
      r := Some(|after.heap|);
      after := Create(after, key, now);
    }
  }

  /** The map part-way through the sweep: stale entries among those looked at are gone. */
  ghost function SweptSoFar<K>(lane: Lane<K>, todo: set<K>, minimum: int, now: int): map<K, nat>
    requires WellFormed(lane)
  {
    map k | k in lane.table && (k in todo || !Stale(lane.heap[lane.table[k]], minimum, now)) :: lane.table[k]
  }

  /** A survivor of the sweep that could make room. */
  ghost predicate Candidate<K>(lane: Lane<K>, todo: set<K>, k: K, minimum: int, now: int)
    requires WellFormed(lane)
  {
    && k in lane.table && k !in todo
    && Evictable(lane.heap[lane.table[k]], minimum, now) && !Stale(lane.heap[lane.table[k]], minimum, now)
  }

  ghost predicate OldestSoFar<K(!new)>(lane: Lane<K>, todo: set<K>, oldest: Option<K>,
    minimum: int, now: int, less: (K, K) -> bool)
    requires WellFormed(lane)
  {
    && (oldest.None? ==> forall k :: k in lane.table ==> !Candidate(lane, todo, k, minimum, now))
    && (oldest.Some? ==>
          && Candidate(lane, todo, oldest.value, minimum, now)
          && forall k :: k in lane.table && k != oldest.value && Candidate(lane, todo, k, minimum, now)
               ==> Older(lane, oldest.value, k, less))
  }

  lemma OldestExtends<K(!new)>(lane: Lane<K>, todo: set<K>, oldest: Option<K>, c: K,
    minimum: int, now: int, less: (K, K) -> bool)
    requires WellFormed(lane) && StrictTotalOrder(less) && todo <= lane.table.Keys && c in todo
    requires OldestSoFar(lane, todo, oldest, minimum, now, less)
    ensures var e := lane.heap[lane.table[c]];
            var better := Evictable(e, minimum, now) && !Stale(e, minimum, now) &&
              (oldest.None? || Older(lane, c, oldest.value, less));
            OldestSoFar(lane, todo - {c}, if better then Some(c) else oldest, minimum, now, less)
  {
    hide Stale, Evictable;
    forall k | k in lane.table && k != c
      ensures Candidate(lane, todo - {c}, k, minimum, now) == Candidate(lane, todo, k, minimum, now) { }
  }

  method Sweep<K(==, !new)>(lane: Lane<K>, now: int, minimum: int, less: (K, K) -> bool)
    returns (table: map<K, nat>, oldest: Option<K>)
    requires WellFormed(lane) && StrictTotalOrder(less)
    ensures table == Kept(lane, minimum, now)
    ensures oldest.None? ==> forall k :: k in table ==> !Evictable(lane.heap[lane.table[k]], minimum, now)
    ensures oldest.Some? ==> Victim(lane, table, oldest.value, minimum, now, less)
  {
    hide Older, StrictTotalOrder;
    table, oldest := lane.table, None;
    var todo := lane.table.Keys;
    assert table == SweptSoFar(lane, todo, minimum, now);
    while todo != {}
      invariant todo <= lane.table.Keys
      invariant table == SweptSoFar(lane, todo, minimum, now)
      invariant OldestSoFar(lane, todo, oldest, minimum, now, less)
      decreases |todo|
    {
      var candidate :| candidate in todo;
      OldestExtends(lane, todo, oldest, candidate, minimum, now, less);
      var entry := lane.heap[lane.table[candidate]];
      if Evictable(entry, minimum, now) {
        if entry.lastAccess + CACHE_LIFETIME <= now {
          table := table - {candidate};
        } else if oldest.None? || Older(lane, candidate, oldest.value, less) {
          oldest := Some(candidate);
        }
      }
      todo := todo - {candidate};
      assert table == SweptSoFar(lane, todo, minimum, now);
    }
    assert table == Kept(lane, minimum, now);
    forall k | k in table
      ensures Evictable(lane.heap[lane.table[k]], minimum, now) == Candidate(lane, {}, k, minimum, now)
    {
    }
  }

  // ---- Histories ---------------------------------------------------------

  /** What happened to one key: a granted start with the spacing it had to honour, or an eviction. */
  datatype Event = Start(at: int, spacing: int) | Evict(at: int, spacing: int)

  /** Every event keeps its own spacing from the start just before it. */
  ghost predicate Spaced(h: seq<Event>, minimum: int)
  {
    forall i :: 0 <= i < |h| ==>
      && h[i].spacing >= minimum
      && (i > 0 ==> h[i - 1].at <= h[i].at && (h[i - 1].Start? ==> h[i - 1].at + h[i].spacing <= h[i].at))
  }

  /** Any two starts are at least the operator minimum apart. */
  lemma {:induction false} StartsAreApart(h: seq<Event>, minimum: int, i: nat, j: nat)
    requires Spaced(h, minimum) && minimum >= 0 && i < j < |h| && h[i].Start?
    ensures h[i].at + minimum <= h[j].at
    decreases j - i
  {
    if i + 1 < j {
      StartsAreApart(h, minimum, i, j - 1);
      assert h[j - 1].at <= h[j].at;
    } else {
      assert h[j - 1].Start?;
    }
  }

  function Past<K>(hist: map<K, seq<Event>>, k: K): seq<Event> { if k in hist then hist[k] else [] }

  /** The history of a key agrees with the entry the map holds for it. */
  ghost predicate Agrees(h: seq<Event>, held: Option<Entry>, clock: int, minimum: int) {
    && Spaced(h, minimum)
    && (h != [] ==> h[|h| - 1].at <= clock)
    && (if h != [] && h[|h| - 1].Start? then held.Some? && held.value.lastStart == Some(h[|h| - 1].at)
        else held.Some? ==> held.value.lastStart.None?)
  }

  function Held<K>(lane: Lane<K>, k: K): Option<Entry>
    requires WellFormed(lane)
  {
    if k in lane.table then Some(lane.heap[lane.table[k]]) else None
  }

  // ---- One lane with its pins --------------------------------------------

  type PinId = nat

  /** A caller's hold on an entry. */
  datatype Hold<K> = Hold(key: K, entry: nat)

  ghost function HoldsOn<K>(pins: map<PinId, Hold<K>>, id: nat): set<PinId> {
    set p | p in pins && pins[p].entry == id
  }

  /** What every step keeps true of a lane. */
  ghost predicate LaneInv<K(!new)>(lane: Lane<K>, pins: map<PinId, Hold<K>>, hist: map<K, seq<Event>>,
                                   clock: int, minimum: int, capacity: nat)
  {
    && WellFormed(lane) && Injective(lane)
    && |lane.table| <= capacity
    && HoldsLive(lane, pins) && UsersCounted(lane, pins)
    && forall k :: Agrees(Past(hist, k), Held(lane, k), clock, minimum)
  }

  /** The keys whose entry a step dropped or replaced. */
  ghost function Dropped<K>(lane: Lane<K>, after: Lane<K>): set<K> {
    set k | k in lane.table && (k !in after.table || after.table[k] != lane.table[k])
  }

  ghost function RecordEvictions<K>(hist: map<K, seq<Event>>, lane: Lane<K>, after: Lane<K>, now: int,
                                    minimum: int): map<K, seq<Event>>
    requires WellFormed(lane)
  {
    map k | k in hist.Keys + lane.table.Keys ::
      if k in Dropped(lane, after) then Past(hist, k) + [Evict(now, Spacing(lane.heap[lane.table[k]], minimum))]
      else Past(hist, k)
  }

  /** How a pin changes the heap: one more user of an old entry, or one new entry. */
  ghost predicate HeapShape<K>(lane: Lane<K>, now: int, after: Lane<K>, r: Option<nat>) {
    var n := |lane.heap|;
    && (if r == Some(n) then |after.heap| == n + 1 && after.heap[n] == Entry(0, None, now, 1) else |after.heap| == n)
    && (r.Some? ==> r.value <= n)
    && forall id :: 0 <= id < n ==>
         after.heap[id] == if r == Some(id) then lane.heap[id].(users := lane.heap[id].users + 1, lastAccess := now)
                           else lane.heap[id]
  }

  /** How a pin changes the map: the key names the pinned entry, and what is dropped was evictable. */
  ghost predicate TableShape<K>(lane: Lane<K>, key: K, now: int, minimum: int, after: Lane<K>, r: Option<nat>)
    requires WellFormed(lane)
  {
    var n := |lane.heap|;
    && WellFormed(after)
    && (r.Some? ==> key in after.table && after.table[key] == r.value)
    && (forall k :: k in after.table ==>
          || (k == key && r == Some(n) && after.table[k] == n)
          || (k in lane.table && lane.table[k] == after.table[k]))
    && (forall k :: k in Dropped(lane, after) ==> Evictable(lane.heap[lane.table[k]], minimum, now))
  }

  /** t is the map with some evictable entries taken out. */
  ghost predicate Thinned<K>(lane: Lane<K>, t: map<K, nat>, minimum: int, now: int)
    requires WellFormed(lane)
  {
    && (forall k :: k in t ==> k in lane.table && t[k] == lane.table[k])
    && (forall k :: k in lane.table && k !in t ==> Evictable(lane.heap[lane.table[k]], minimum, now))
  }

  lemma TouchShape<K>(lane: Lane<K>, t: map<K, nat>, key: K, now: int, minimum: int)
    requires WellFormed(lane) && Thinned(lane, t, minimum, now) && key in t
    ensures var after := Touch(lane.(table := t), t[key], now);
            HeapShape(lane, now, after, Some(t[key])) && TableShape(lane, key, now, minimum, after, Some(t[key]))
  {
    hide Evictable;
  }

  lemma CreateShape<K>(lane: Lane<K>, t: map<K, nat>, key: K, now: int, minimum: int)
    requires WellFormed(lane) && Thinned(lane, t, minimum, now) && key !in t
    ensures var after := Create(lane.(table := t), key, now);
            HeapShape(lane, now, after, Some(|lane.heap|)) &&
              TableShape(lane, key, now, minimum, after, Some(|lane.heap|))
  {
    hide Evictable;
  }

  lemma PinHasShape<K(!new)>(lane: Lane<K>, key: K, now: int, minimum: int, capacity: nat, less: (K, K) -> bool,
                             after: Lane<K>, r: Option<nat>)
    requires WellFormed(lane) && PinOutcome(lane, key, now, minimum, capacity, less, after, r)
    ensures HeapShape(lane, now, after, r) && TableShape(lane, key, now, minimum, after, r)
  {
    hide Evictable, HeapShape, TableShape, Create, Touch;
    var kept := Kept(lane, minimum, now);
    assert Thinned(lane, kept, minimum, now);
    if key in kept {
      TouchShape(lane, kept, key, now, minimum);
    } else if |kept| < capacity {
      CreateShape(lane, kept, key, now, minimum);
    } else if r.None? {
      SweptShape(lane, kept, key, now, minimum);
    } else {
      var v :| Victim(lane, kept, v, minimum, now, less) && after == Create(lane.(table := kept - {v}), key, now);
      assert Thinned(lane, kept - {v}, minimum, now);
      CreateShape(lane, kept - {v}, key, now, minimum);
    }
  }

  lemma SweptShape<K>(lane: Lane<K>, t: map<K, nat>, key: K, now: int, minimum: int)
    requires WellFormed(lane) && Thinned(lane, t, minimum, now)
    ensures var after := lane.(table := t);
            HeapShape(lane, now, after, None) && TableShape(lane, key, now, minimum, after, None)
  {
    hide Evictable;
  }

  lemma PinWithinCapacity<K(!new)>(lane: Lane<K>, key: K, now: int, minimum: int, capacity: nat, less: (K, K) -> bool,
                                   after: Lane<K>, r: Option<nat>)
    requires WellFormed(lane) && |lane.table| <= capacity
    requires PinOutcome(lane, key, now, minimum, capacity, less, after, r)
    ensures |after.table| <= capacity
  {
    hide Evictable, Stale, WellFormed, Kept, Victim;
    KeptSize(lane, minimum, now);
    var kept := Kept(lane, minimum, now);
    if key !in kept && r.Some? {
      if |kept| < capacity {
        OneMoreKey(kept, key, |lane.heap|);
      } else {
        var v :| Victim(lane, kept, v, minimum, now, less) && after == Create(lane.(table := kept - {v}), key, now);
        assert v in kept by { VictimIsKept(lane, kept, v, minimum, now, less); }
        OneKeyLess(kept, v);
        OneMoreKey(kept - {v}, key, |lane.heap|);
      }
    }
  }

  lemma OneMoreKey<K>(t: map<K, nat>, key: K, id: nat)
    ensures |t[key := id]| <= |t| + 1
  {
    assert t[key := id].Keys == t.Keys + {key};
  }

  lemma OneKeyLess<K>(t: map<K, nat>, key: K)
    requires key in t
    ensures |t - {key}| + 1 == |t|
  {
    assert (t - {key}).Keys == t.Keys - {key};
  }

  lemma VictimIsKept<K(!new)>(lane: Lane<K>, kept: map<K, nat>, v: K, minimum: int, now: int, less: (K, K) -> bool)
    requires WellFormed(lane) && (forall k :: k in kept ==> k in lane.table && kept[k] == lane.table[k]) &&
      Victim(lane, kept, v, minimum, now, less)
    ensures v in kept
  {
  }

  lemma KeptSize<K>(lane: Lane<K>, minimum: int, now: int)
    requires WellFormed(lane)
    ensures |Kept(lane, minimum, now)| <= |lane.table|
    ensures forall k :: k in Kept(lane, minimum, now) ==>
      k in lane.table && Kept(lane, minimum, now)[k] == lane.table[k]
  {
    SubsetCard(Kept(lane, minimum, now).Keys, lane.table.Keys);
  }

  lemma PinKeepsInjective<K(!new)>(lane: Lane<K>, key: K, now: int, minimum: int, after: Lane<K>, r: Option<nat>)
    requires WellFormed(lane) && Injective(lane) && TableShape(lane, key, now, minimum, after, r)
    ensures Injective(after)
  {
    hide Evictable;
  }

  /** Pinned entries are never replaced. */
  ghost predicate HoldsLive<K>(lane: Lane<K>, pins: map<PinId, Hold<K>>) {
    forall p :: p in pins ==> pins[p].key in lane.table && lane.table[pins[p].key] == pins[p].entry
  }

  /** The user count of every entry is the number of holds on it. */
  ghost predicate UsersCounted<K>(lane: Lane<K>, pins: map<PinId, Hold<K>>) {
    forall id :: 0 <= id < |lane.heap| ==> lane.heap[id].users == |HoldsOn(pins, id)|
  }

  function Holding<K>(pins: map<PinId, Hold<K>>, p: PinId, key: K, r: Option<nat>): map<PinId, Hold<K>> {
    if r.Some? then pins[p := Hold(key, r.value)] else pins
  }

  lemma PinKeepsLive<K(!new)>(lane: Lane<K>, pins: map<PinId, Hold<K>>, key: K, p: PinId, now: int, minimum: int,
                              after: Lane<K>, r: Option<nat>)
    requires WellFormed(lane) && TableShape(lane, key, now, minimum, after, r)
    requires HoldsLive(lane, pins) && UsersCounted(lane, pins)
    ensures HoldsLive(after, Holding(pins, p, key, r))
  {
    forall q | q in pins ensures pins[q].key in after.table && after.table[pins[q].key] == pins[q].entry {
      var k := pins[q].key;
      assert q in HoldsOn(pins, lane.table[k]);
      assert k !in Dropped(lane, after);
    }
  }

  lemma HoldingOn<K>(pins: map<PinId, Hold<K>>, p: PinId, key: K, r: Option<nat>, id: nat)
    requires p !in pins
    ensures HoldsOn(Holding(pins, p, key, r), id) == HoldsOn(pins, id) + (if r == Some(id) then {p} else {})
    ensures |HoldsOn(Holding(pins, p, key, r), id)| == |HoldsOn(pins, id)| + (if r == Some(id) then 1 else 0)
  {
  }

  lemma PinKeepsCount<K>(lane: Lane<K>, pins: map<PinId, Hold<K>>, key: K, p: PinId, now: int,
                         after: Lane<K>, r: Option<nat>)
    requires WellFormed(lane) && HeapShape(lane, now, after, r)
    requires HoldsLive(lane, pins) && UsersCounted(lane, pins) && p !in pins
    ensures UsersCounted(after, Holding(pins, p, key, r))
  {
    assert HoldsOn(pins, |lane.heap|) == {};
    hide HoldsOn, Holding, HoldsLive;
    forall id | 0 <= id < |after.heap| ensures after.heap[id].users == |HoldsOn(Holding(pins, p, key, r), id)| {
      HoldingOn(pins, p, key, r, id);
    }
  }

  /** An eviction ends a key's history with the spacing it honoured. */
  lemma EvictAgrees(h: seq<Event>, e: Entry, held: Option<Entry>, clock: int, now: int, minimum: int)
    requires Agrees(h, Some(e), clock, minimum) && clock <= now && Evictable(e, minimum, now)
    requires held.Some? ==> held.value.lastStart.None?
    ensures Agrees(h + [Evict(now, Spacing(e, minimum))], held, now, minimum)
  {
  }

  lemma LaterAgrees(h: seq<Event>, held: Option<Entry>, held': Option<Entry>, clock: int, now: int, minimum: int)
    requires Agrees(h, held, clock, minimum) && clock <= now
    requires held.Some? ==> held'.Some? && held'.value.lastStart == held.value.lastStart
    requires held.None? && held'.Some? ==> held'.value.lastStart.None?
    ensures Agrees(h, held', now, minimum)
  {
  }

  lemma PinKeepsHistory<K(!new)>(lane: Lane<K>, hist: map<K, seq<Event>>, clock: int, key: K, now: int, minimum: int,
                                 after: Lane<K>, r: Option<nat>, k: K)
    requires WellFormed(lane) && clock <= now
    requires HeapShape(lane, now, after, r) && TableShape(lane, key, now, minimum, after, r)
    requires Agrees(Past(hist, k), Held(lane, k), clock, minimum)
    ensures Agrees(Past(RecordEvictions(hist, lane, after, now, minimum), k), Held(after, k), now, minimum)
  {
    hide Agrees, Evictable, Spacing;
    if k in Dropped(lane, after) {
      EvictAgrees(Past(hist, k), lane.heap[lane.table[k]], Held(after, k), clock, now, minimum);
    } else {
      LaterAgrees(Past(hist, k), Held(lane, k), Held(after, k), clock, now, minimum);
    }
  }

  /** A pin step keeps everything a lane promises. */
  lemma PinKeepsInv<K(!new)>(lane: Lane<K>, pins: map<PinId, Hold<K>>, hist: map<K, seq<Event>>, clock: int,
                             key: K, p: PinId, now: int, minimum: int, capacity: nat, less: (K, K) -> bool,
                             after: Lane<K>, r: Option<nat>)
    requires LaneInv(lane, pins, hist, clock, minimum, capacity) && clock <= now && p !in pins
    requires PinOutcome(lane, key, now, minimum, capacity, less, after, r)
    ensures WellFormed(after)
    ensures LaneInv(after, Holding(pins, p, key, r), RecordEvictions(hist, lane, after, now, minimum),
      now, minimum, capacity)
  {
    hide PinOutcome, HeapShape, Agrees, HoldsLive, UsersCounted, Injective, RecordEvictions, Past, Held, Dropped,
         Holding, Evictable;
    PinHasShape(lane, key, now, minimum, capacity, less, after, r);
    PinWithinCapacity(lane, key, now, minimum, capacity, less, after, r);
    PinKeepsInjective(lane, key, now, minimum, after, r);
    PinKeepsLive(lane, pins, key, p, now, minimum, after, r);
    PinKeepsCount(lane, pins, key, p, now, after, r);
    forall k ensures Agrees(Past(RecordEvictions(hist, lane, after, now, minimum), k), Held(after, k), now, minimum) {
      PinKeepsHistory(lane, hist, clock, key, now, minimum, after, r, k);
    }
  }
}
