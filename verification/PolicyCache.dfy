/**
 The robots policy cache (section 2.4 of RFC 9309): a bounded map with a
 24-hour lifetime, and single-flight fetching. Callers run concurrently; each
 critical section of the source, and the unlocked publication of a failure, is
 one step.
 */
module PolicyCache {
  import opened Wrappers

  const LIFETIME: int := 24 * 60 * 60 * 1_000_000_000

  datatype CacheEntry<P> = CacheEntry(policy: P, expiresAt: int, lastAccess: int)

  /** What a fetch came to. */
  datatype Outcome<P> = Fetched(policy: P) | Failed

  // ---- The two eviction loops ----------------------------------------------

  function Fresh<O, P>(cache: map<O, CacheEntry<P>>, now: int): map<O, CacheEntry<P>> {
    map k | k in cache && now < cache[k].expiresAt :: cache[k]
  }

  method EvictExpired<O(==), P>(cache: map<O, CacheEntry<P>>, now: int) returns (after: map<O, CacheEntry<P>>)
    ensures after == Fresh(cache, now)
  {
    after := cache;
    var todo := cache.Keys;
    while todo != {}
      invariant todo <= cache.Keys
      invariant after == map k | k in cache && (k in todo || now < cache[k].expiresAt) :: cache[k]
      decreases |todo|
    {
      var key :| key in todo;
      if cache[key].expiresAt <= now {
        after := after - {key};
      }
      todo := todo - {key};
    }
  }

  /** Only the least recently used entries are gone, and only as many as it takes. */
  ghost predicate Trimmed<O(!new), P(!new)>(cache: map<O, CacheEntry<P>>, bound: nat, after: map<O, CacheEntry<P>>) {
    && (forall k :: k in after ==> k in cache && after[k] == cache[k])
    && |after| == (if |cache| < bound then |cache| else if bound == 0 then 0 else bound - 1)
    && NoneOlderKept(cache, after)
  }

  ghost predicate NoneOlderKept<O(!new), P(!new)>(cache: map<O, CacheEntry<P>>, after: map<O, CacheEntry<P>>)
    requires forall k :: k in after ==> k in cache
  {
    forall k, m :: k in cache && k !in after && m in after ==> cache[k].lastAccess <= cache[m].lastAccess
  }

  method Oldest<O(==, !new), P>(cache: map<O, CacheEntry<P>>) returns (oldest: O)
    requires cache != map[]
    ensures oldest in cache && forall k :: k in cache ==> cache[oldest].lastAccess <= cache[k].lastAccess
  {
    oldest :| oldest in cache;
    var todo := cache.Keys - {oldest};
    while todo != {}
      invariant todo <= cache.Keys && oldest in cache
      invariant forall k :: k in cache && k !in todo ==> cache[oldest].lastAccess <= cache[k].lastAccess
      decreases |todo|
    {
      var key :| key in todo;
      if cache[key].lastAccess < cache[oldest].lastAccess {
        oldest := key;
      }
      todo := todo - {key};
    }
  }

  method EvictOverflow<O(==, !new), P(!new)>(cache: map<O, CacheEntry<P>>,
    bound: nat) returns (after: map<O, CacheEntry<P>>)
    ensures Trimmed(cache, bound, after)
  {
    after := cache;
    while |after| >= bound && after != map[]
      invariant forall k :: k in after ==> k in cache && after[k] == cache[k]
      invariant |after| <= |cache| && (|after| < |cache| ==> |after| + 1 >= bound)
      invariant NoneOlderKept(cache, after)
      decreases |after|
    {
      var key := Oldest(after);
      assert (after - {key}).Keys == after.Keys - {key};
      after := after - {key};
    }
  }

  // ---- The checker's shared state ------------------------------------------

  /** `pending[i]` is what the i-th fetch came to, once its channel is closed. */
  datatype Shared<!O, !P> = Shared(cache: map<O, CacheEntry<P>>, inflight: map<O, nat>,
    pending: seq<Option<Outcome<P>>>)

  /** What the first critical section tells its caller. */
  datatype Lookup<P> = Hit(policy: P) | Follow(fetch: nat) | Lead(fetch: nat)

  function LookupResult<O, P>(s: Shared<O, P>, o: O, now: int): Lookup<P> {
    if o in Fresh(s.cache, now) then Hit(s.cache[o].policy)
    else if o in s.inflight then Follow(s.inflight[o])
    else Lead(|s.pending|)
  }

  function AfterLookup<O, P>(s: Shared<O, P>, o: O, now: int): Shared<O, P> {
    var cache := Fresh(s.cache, now);
    match LookupResult(s, o, now)
    case Hit(_) => s.(cache := cache[o := cache[o].(lastAccess := now)])
    case Follow(_) => s.(cache := cache)
    case Lead(fetch) => Shared(cache, s.inflight[o := fetch], s.pending + [None])
  }

  /** The leader's last critical section after a successful fetch. */
  ghost predicate Stored<O(!new), P(!new)>(s: Shared<O, P>, o: O, fetch: nat, policy: P,
    now: int, bound: nat, s': Shared<O, P>)
    requires fetch < |s.pending|
  {
    exists kept :: Trimmed(Fresh(s.cache, now), bound, kept)
      && s' == Shared(kept[o := CacheEntry(policy, now + LIFETIME, now)], s.inflight - {o},
           s.pending[fetch := Some(Fetched(policy))])
  }

  class Checker<O(==, !new), P(==, !new)> {
    const bound: nat
    var shared: Shared<O, P>

    constructor (bound: nat)
      ensures this.bound == bound && shared == Shared(map[], map[], [])
    {
      this.bound := bound;
      shared := Shared(map[], map[], []);
    }

    /** The first critical section of policyFor. */
    method Begin(o: O, now: int) returns (r: Lookup<P>)
      modifies this
      ensures r == LookupResult(old(shared), o, now) && shared == AfterLookup(old(shared), o, now)
    {
      var cache := EvictExpired(shared.cache, now);
      if o in cache {
        r := Hit(cache[o].policy);
        shared := shared.(cache := cache[o := cache[o].(lastAccess := now)]);
      } else if o in shared.inflight {
        r := Follow(shared.inflight[o]);
        shared := shared.(cache := cache);
      } else {
        r := Lead(|shared.pending|);
        shared := Shared(cache, shared.inflight[o := |shared.pending|], shared.pending + [None]);
      }
    }

    /** A failed fetch is published before the in-flight mark is removed. */
    method PublishFailure(fetch: nat)
      requires fetch < |shared.pending|
      modifies this
      ensures shared == old(shared).(pending := old(shared).pending[fetch := Some(Failed)])
    {
      shared := shared.(pending := shared.pending[fetch := Some(Failed)]);
    }

    method Forget(o: O)
      modifies this
      ensures shared == old(shared).(inflight := old(shared).inflight - {o})
    {
      shared := shared.(inflight := shared.inflight - {o});
    }

    method Store(o: O, fetch: nat, policy: P, now: int)
      requires fetch < |shared.pending|
      modifies this
      ensures Stored(old(shared), o, fetch, policy, now, bound, shared)
    {
      var unexpired := EvictExpired(shared.cache, now);
      var kept := EvictOverflow(unexpired, bound);
      shared := Shared(kept[o := CacheEntry(policy, now + LIFETIME, now)], shared.inflight - {o},
                       shared.pending[fetch := Some(Fetched(policy))]);
    }
  }

  // ---- Runs of concurrent callers ------------------------------------------

  type Caller = nat

  /** Where a caller stands inside policyFor. */
  datatype At<O> =
    | Leading(o: O, fetch: nat)    // fetching the policy
    | Failing(o: O, fetch: nat)    // failure published, in-flight mark not yet removed
    | Following(o: O, fetch: nat)  // waiting for the leader's channel

  /** A successful fetch that reached the cache. */
  datatype Success<O, P> = Success(o: O, policy: P, at: int)

  /** A policy handed out from the cache. */
  datatype Served<O, P> = Served(o: O, policy: P, at: int)

  /** An outcome handed to the leader or to a follower of a fetch. */
  datatype Answer<P> = Answer(fetch: nat, outcome: Outcome<P>)

  datatype World<!O, !P> = World(s: Shared<O, P>, callers: map<Caller, At<O>>, clock: int,
                                 successes: seq<Success<O, P>>, served: seq<Served<O, P>>, answers: seq<Answer<P>>)

  datatype Action<O, P> =
    | Enter(t: Caller, o: O)
    | FetchFails(t: Caller)
    | FailureCleanup(t: Caller)
    | FetchSucceeds(t: Caller, policy: P)
    | FollowerWakes(t: Caller)
    | FollowerCancelled(t: Caller)

  /** Both are responsible for a fetch, and it is the same origin or the same fetch. */
  predicate Rivals<O(==)>(a: At<O>, b: At<O>) {
    !a.Following? && !b.Following? && (a.o == b.o || a.fetch == b.fetch)
  }

  ghost predicate EnterStep<O, P>(w: World<O, P>, t: Caller, o: O, now: int, w': World<O, P>) {
    && t !in w.callers
    && match LookupResult(w.s, o, now)
       case Hit(policy) =>
         w' == w.(s := AfterLookup(w.s, o, now), clock := now, served := w.served + [Served(o, policy, now)])
       case Follow(fetch) =>
         w' == w.(s := AfterLookup(w.s, o, now), clock := now, callers := w.callers[t := Following(o, fetch)])
       case Lead(fetch) =>
         w' == w.(s := AfterLookup(w.s, o, now), clock := now, callers := w.callers[t := Leading(o, fetch)])
  }

  ghost predicate Step<O(!new), P(!new)>(bound: nat, w: World<O, P>, a: Action<O, P>, now: int, w': World<O, P>) {
    && w.clock <= now
    && (!a.Enter? ==> a.t in w.callers && w.callers[a.t].fetch < |w.s.pending|)
    && match a
       case Enter(t, o) => EnterStep(w, t, o, now, w')
       case FetchFails(t) =>
         && w.callers[t].Leading?
         && w' == w.(s := w.s.(pending := w.s.pending[w.callers[t].fetch := Some(Failed)]), clock := now,
                     callers := w.callers[t := Failing(w.callers[t].o, w.callers[t].fetch)])
       case FailureCleanup(t) =>
         && w.callers[t].Failing?
         && w' == w.(s := w.s.(inflight := w.s.inflight - {w.callers[t].o}), clock := now, callers := w.callers - {t},
                     answers := w.answers + [Answer(w.callers[t].fetch, Failed)])
       case FetchSucceeds(t, policy) =>
         && w.callers[t].Leading?
         && Stored(w.s, w.callers[t].o, w.callers[t].fetch, policy, now, bound, w'.s)
         && w' == w.(s := w'.s, clock := now, callers := w.callers - {t},
                     successes := w.successes + [Success(w.callers[t].o, policy, now)],
                     answers := w.answers + [Answer(w.callers[t].fetch, Fetched(policy))])
       case FollowerWakes(t) =>
         && w.callers[t].Following? && w.s.pending[w.callers[t].fetch].Some?
         && w' == w.(clock := now, callers := w.callers - {t},
                     answers := w.answers + [Answer(w.callers[t].fetch, w.s.pending[w.callers[t].fetch].value)])
       case FollowerCancelled(t) =>
         && w.callers[t].Following? && w' == w.(clock := now, callers := w.callers - {t})
  }

  /** Single flight: an in-flight mark has at most one responsible caller, and no caller is responsible without one. */
  ghost predicate SingleFlight<O, P>(w: World<O, P>) { Flights(w.callers, w.s.inflight, w.s.pending) }

  ghost predicate Flights<O, P>(callers: map<Caller, At<O>>, inflight: map<O, nat>, pending: seq<Option<Outcome<P>>>) {
    && (forall t :: t in callers ==> callers[t].fetch < |pending|)
    && (forall t :: t in callers && !callers[t].Following? ==>
          callers[t].o in inflight && inflight[callers[t].o] == callers[t].fetch)
    && (forall t, u :: t in callers && u in callers && Rivals(callers[t], callers[u]) ==> t == u)
    && (forall o :: o in inflight ==> inflight[o] < |pending|)
    && (forall t :: t in callers ==> callers[t].Leading? ==> pending[callers[t].fetch].None?)
    && (forall t :: t in callers ==> callers[t].Failing? ==> pending[callers[t].fetch] == Some(Failed))
  }

  ghost predicate Backed<O(!new), P(!new)>(successes: seq<Success<O, P>>, o: O, policy: P, at: int) {
    exists i :: 0 <= i < |successes| && successes[i] == Success(o, policy, at)
  }

  /** Every cached policy was fetched successfully and is kept for one lifetime from then. */
  ghost predicate CacheBacked<O(!new), P(!new)>(w: World<O, P>) {
    forall o :: o in w.s.cache ==>
      && w.s.cache[o].expiresAt - LIFETIME <= w.clock
      && Backed(w.successes, o, w.s.cache[o].policy, w.s.cache[o].expiresAt - LIFETIME)
  }

  /** Everything served from the cache had been stored less than a lifetime before. */
  ghost predicate ServedFresh<O(!new), P(!new)>(w: World<O, P>) {
    forall i :: 0 <= i < |w.served| ==> WasFresh(w.successes, w.served[i])
  }

  ghost predicate WasFresh<O(!new), P(!new)>(successes: seq<Success<O, P>>, x: Served<O, P>) {
    exists stored :: stored <= x.at < stored + LIFETIME && Backed(successes, x.o, x.policy, stored)
  }

  /** Every caller of one fetch is told the same outcome. */
  ghost predicate AnswersAgree<O, P>(w: World<O, P>) {
    forall i :: 0 <= i < |w.answers| ==>
      w.answers[i].fetch < |w.s.pending| && w.s.pending[w.answers[i].fetch] == Some(w.answers[i].outcome)
  }

  ghost predicate Inv<O(!new), P(!new)>(bound: nat, w: World<O, P>) {
    SingleFlight(w) && CacheBacked(w) && ServedFresh(w) && AnswersAgree(w) && |w.s.cache| <= Max(bound, 1)
  }

  lemma BackedGrows<O(!new), P(!new)>(successes: seq<Success<O, P>>, more: Success<O, P>, o: O, policy: P, at: int)
    requires Backed(successes, o, policy, at) || more == Success(o, policy, at)
    ensures Backed(successes + [more], o, policy, at)
  {
    if more == Success(o, policy, at) {
      assert (successes + [more])[|successes|] == more;
    } else {
      var i :| 0 <= i < |successes| && successes[i] == Success(o, policy, at);
      assert (successes + [more])[i] == Success(o, policy, at);
    }
  }

  lemma WasFreshGrows<O(!new), P(!new)>(successes: seq<Success<O, P>>, more: Success<O, P>, x: Served<O, P>)
    requires WasFresh(successes, x)
    ensures WasFresh(successes + [more], x)
  {
    var stored :| stored <= x.at < stored + LIFETIME && Backed(successes, x.o, x.policy, stored);
    BackedGrows(successes, more, x.o, x.policy, stored);
  }

  lemma FreshIsSmaller<O, P>(cache: map<O, CacheEntry<P>>, now: int)
    ensures |Fresh(cache, now)| <= |cache|
  {
    assert cache.Keys == Fresh(cache, now).Keys + (cache.Keys - Fresh(cache, now).Keys);
  }

  lemma EnterKeepsInv<O(!new), P(!new)>(bound: nat, w: World<O, P>, t: Caller, o: O, now: int, w': World<O, P>)
    requires Inv(bound, w) && w.clock <= now && EnterStep(w, t, o, now, w')
    ensures Inv(bound, w')
  {
    FreshIsSmaller(w.s.cache, now);
    EnterServes(w, t, o, now, w');
    EnterFlies(w, t, o, now, w');
    if o in Fresh(w.s.cache, now) {
      assert w'.s.cache.Keys == Fresh(w.s.cache, now).Keys;
    }
  }

  lemma EnterServes<O(!new), P(!new)>(w: World<O, P>, t: Caller, o: O, now: int, w': World<O, P>)
    requires CacheBacked(w) && ServedFresh(w) && AnswersAgree(w) && w.clock <= now && EnterStep(w, t, o, now, w')
    ensures CacheBacked(w') && ServedFresh(w') && AnswersAgree(w')
  {
    hide Backed;
    if LookupResult(w.s, o, now).Hit? {
      var stored := w.s.cache[o].expiresAt - LIFETIME;
      assert WasFresh(w.successes, Served(o, w.s.cache[o].policy, now)) by {
        assert stored <= now < stored + LIFETIME && Backed(w.successes, o, w.s.cache[o].policy, stored);
      }
      hide WasFresh;
    }
  }

  lemma FollowerJoins<O(!new), P(!new)>(callers: map<Caller, At<O>>, inflight: map<O, nat>,
    pending: seq<Option<Outcome<P>>>, t: Caller, o: O)
    requires Flights(callers, inflight, pending) && t !in callers && o in inflight
    ensures Flights(callers[t := Following(o, inflight[o])], inflight, pending)
  {
  }

  lemma LeaderStarts<O(!new), P(!new)>(callers: map<Caller, At<O>>, inflight: map<O, nat>,
    pending: seq<Option<Outcome<P>>>, t: Caller, o: O)
    requires Flights(callers, inflight, pending) && t !in callers && o !in inflight
    ensures Flights(callers[t := Leading(o, |pending|)], inflight[o := |pending|], pending + [None])
  {
  }

  lemma EnterFlies<O(!new), P(!new)>(w: World<O, P>, t: Caller, o: O, now: int, w': World<O, P>)
    requires SingleFlight(w) && EnterStep(w, t, o, now, w')
    ensures SingleFlight(w')
  {
    hide Flights, Fresh;
    match LookupResult(w.s, o, now)
    case Hit(_) =>
    case Follow(_) => FollowerJoins(w.callers, w.s.inflight, w.s.pending, t, o);
    case Lead(_) => LeaderStarts(w.callers, w.s.inflight, w.s.pending, t, o);
  }

  lemma OneMoreEntry<O, P>(cache: map<O, CacheEntry<P>>, o: O, e: CacheEntry<P>)
    ensures |cache[o := e]| <= |cache| + 1
  {
    assert cache[o := e].Keys == cache.Keys + {o};
  }

  /** A store keeps old entries or drops them, adds its own, and stays within the bound. */
  lemma StoredCache<O(!new), P(!new)>(s: Shared<O, P>, o: O, fetch: nat, policy: P,
    now: int, bound: nat, s': Shared<O, P>)
    requires fetch < |s.pending| && Stored(s, o, fetch, policy, now, bound, s')
    ensures s'.inflight == s.inflight - {o} && s'.pending == s.pending[fetch := Some(Fetched(policy))]
    ensures |s'.cache| <= Max(bound, 1)
    ensures forall k :: k in s'.cache ==>
              (s'.cache[k] == CacheEntry(policy, now + LIFETIME, now) && k == o) ||
                (k in s.cache && s'.cache[k] == s.cache[k])
  {
    hide NoneOlderKept;
    var kept :| Trimmed(Fresh(s.cache, now), bound, kept)
                && s' == Shared(kept[o := CacheEntry(policy, now + LIFETIME, now)], s.inflight - {o},
                                s.pending[fetch := Some(Fetched(policy))]);
    OneMoreEntry(kept, o, CacheEntry(policy, now + LIFETIME, now));
  }

  lemma StoreKeepsInv<O(!new), P(!new)>(bound: nat, w: World<O, P>, a: Action<O, P>, now: int, w': World<O, P>)
    requires Inv(bound, w) && Step(bound, w, a, now, w') && a.FetchSucceeds?
    ensures CacheBacked(w') && ServedFresh(w') && |w'.s.cache| <= Max(bound, 1)
  {
    hide SingleFlight, AnswersAgree, Backed, WasFresh, Stored;
    var o, success := w.callers[a.t].o, Success(w.callers[a.t].o, a.policy, now);
    StoredCache(w.s, o, w.callers[a.t].fetch, a.policy, now, bound, w'.s);
    forall k | k in w'.s.cache
      ensures Backed(w'.successes, k, w'.s.cache[k].policy, w'.s.cache[k].expiresAt - LIFETIME)
    {
      BackedGrows(w.successes, success, k, w'.s.cache[k].policy, w'.s.cache[k].expiresAt - LIFETIME);
    }
    forall i | 0 <= i < |w'.served| ensures WasFresh(w'.successes, w'.served[i]) {
      WasFreshGrows(w.successes, success, w.served[i]);
    }
  }

  /** Settling a fetch badly is done once, by its one responsible caller. */
  lemma FailKeepsFlight<O(!new), P(!new)>(bound: nat, w: World<O, P>, a: Action<O, P>, now: int, w': World<O, P>)
    requires Inv(bound, w) && Step(bound, w, a, now, w') && a.FetchFails?
    ensures SingleFlight(w')
  {
    hide CacheBacked, ServedFresh, Stored, AnswersAgree;
  }

  /** And so is settling it well. */
  lemma SettleKeepsFlight<O(!new), P(!new)>(bound: nat, w: World<O, P>, a: Action<O, P>, now: int, w': World<O, P>)
    requires Inv(bound, w) && Step(bound, w, a, now, w') && a.FetchSucceeds?
    ensures SingleFlight(w')
  {
    hide CacheBacked, ServedFresh, Stored, AnswersAgree;
    StoredCache(w.s, w.callers[a.t].o, w.callers[a.t].fetch, a.policy, now, bound, w'.s);
  }

  lemma LeaveKeepsFlight<O(!new), P(!new)>(bound: nat, w: World<O, P>, a: Action<O, P>, now: int, w': World<O, P>)
    requires Inv(bound, w) && Step(bound, w, a, now, w') &&
      (a.FailureCleanup? || a.FollowerWakes? || a.FollowerCancelled?)
    ensures SingleFlight(w')
  {
    hide CacheBacked, ServedFresh, Stored, AnswersAgree;
  }

  /** A settled fetch never changes its outcome, and every answer repeats it. */
  lemma AnswersStayTrue<O(!new), P(!new)>(bound: nat, w: World<O, P>, a: Action<O, P>, now: int, w': World<O, P>)
    requires Inv(bound, w) && Step(bound, w, a, now, w') && !a.Enter?
    ensures AnswersAgree(w')
  {
    hide CacheBacked, ServedFresh, Stored, Rivals;
    if a.FetchSucceeds? {
      StoredCache(w.s, w.callers[a.t].o, w.callers[a.t].fetch, a.policy, now, bound, w'.s);
    }
    assert forall i :: 0 <= i < |w.answers| ==> w'.s.pending[w.answers[i].fetch] == w.s.pending[w.answers[i].fetch];
  }

  lemma StepKeepsInv<O(!new), P(!new)>(bound: nat, w: World<O, P>, a: Action<O, P>, now: int, w': World<O, P>)
    requires Inv(bound, w) && Step(bound, w, a, now, w')
    ensures Inv(bound, w')
  {
    hide SingleFlight, AnswersAgree, Backed, WasFresh, Stored, EnterStep;
    if a.Enter? {
      EnterKeepsInv(bound, w, a.t, a.o, now, w');
    } else {
      AnswersStayTrue(bound, w, a, now, w');
      if a.FetchSucceeds? {
        SettleKeepsFlight(bound, w, a, now, w');
      } else if a.FetchFails? {
        FailKeepsFlight(bound, w, a, now, w');
      } else {
        LeaveKeepsFlight(bound, w, a, now, w');
      }
      if a.FetchSucceeds? {
        StoreKeepsInv(bound, w, a, now, w');
      }
    }
  }

  ghost predicate Next<O(!new), P(!new)>(bound: nat, w: World<O, P>, w': World<O, P>) {
    exists a, now :: Step(bound, w, a, now, w')
  }

  /** Any interleaving of callers, from the empty checker. */
  ghost predicate Run<O(!new), P(!new)>(bound: nat, ws: seq<World<O, P>>) {
    && ws != [] && ws[0] == World(Shared(map[], map[], []), map[], ws[0].clock, [], [], [])
    && forall i, j :: 0 <= i && j == i + 1 && j < |ws| ==> Next(bound, ws[i], ws[j])
  }

  /**
   The cache's promises in every reachable state: one fetch in flight per
   origin, fresh and successful policies only, one answer per fetch, and a
   bounded size.
   */
  lemma {:induction false} CacheHolds<O(!new), P(!new)>(bound: nat, ws: seq<World<O, P>>, i: nat)
    requires Run(bound, ws) && i < |ws|
    ensures Inv(bound, ws[i])
  {
    if i > 0 {
      CacheHolds(bound, ws, i - 1);
      assert Next(bound, ws[i - 1], ws[i]);
      hide Inv, Step;
      var a, now :| Step(bound, ws[i - 1], a, now, ws[i]);
      StepKeepsInv(bound, ws[i - 1], a, now, ws[i]);
    }
  }

  // ---- Nobody waits in vain --------------------------------------------------------

  /** Some caller is responsible for the fetch of this origin. */
  ghost predicate Led<O>(callers: map<Caller, At<O>>, o: O) {
    exists t :: t in callers && !callers[t].Following? && callers[t].o == o
  }

  /** Some caller is carrying out this fetch. */
  ghost predicate Fetching<O>(callers: map<Caller, At<O>>, fetch: nat) {
    exists t :: t in callers && callers[t].Leading? && callers[t].fetch == fetch
  }

  /** Every in-flight mark has a responsible caller, and every unsettled fetch is being carried out. */
  ghost predicate Manned<O, P>(w: World<O, P>) {
    && (forall o :: o in w.s.inflight ==> Led(w.callers, o))
    && forall f :: 0 <= f < |w.s.pending| && w.s.pending[f].None? ==> Fetching(w.callers, f)
  }

  lemma LedStays<O(!new), P(!new)>(bound: nat, w: World<O, P>, a: Action<O, P>, now: int, w': World<O, P>, o: O)
    requires Step(bound, w, a, now, w') && Manned(w) && o in w'.s.inflight
    ensures Led(w'.callers, o)
  {
    hide Fresh, Trimmed, Fetching;
    if a.FetchSucceeds? { StoredCache(w.s, w.callers[a.t].o, w.callers[a.t].fetch, a.policy, now, bound, w'.s); }
    hide Stored;
    if o in w.s.inflight {
      assert Led(w.callers, o);
      var t :| t in w.callers && !w.callers[t].Following? && w.callers[t].o == o;
      assert t in w'.callers && !w'.callers[t].Following? && w'.callers[t].o == o;
    } else {
      assert a.Enter? && a.t in w'.callers && w'.callers[a.t].o == o;
    }
  }

  lemma FetchingStays<O(!new), P(!new)>(bound: nat, w: World<O, P>, a: Action<O, P>, now: int, w': World<O, P>, f: nat)
    requires Step(bound, w, a, now, w') && Manned(w) && f < |w'.s.pending| && w'.s.pending[f].None?
    ensures Fetching(w'.callers, f)
  {
    hide Fresh, Trimmed, Led;
    if a.FetchSucceeds? { StoredCache(w.s, w.callers[a.t].o, w.callers[a.t].fetch, a.policy, now, bound, w'.s); }
    hide Stored;
    if f < |w.s.pending| {
      assert w.s.pending[f].None? && Fetching(w.callers, f);
      var t :| t in w.callers && w.callers[t].Leading? && w.callers[t].fetch == f;
      assert t in w'.callers && w'.callers[t].Leading? && w'.callers[t].fetch == f;
    } else {
      assert a.Enter? && a.t in w'.callers && w'.callers[a.t].Leading? && w'.callers[a.t].fetch == f;
    }
  }

  /**
   In every run, whoever joins or follows a fetch waits for one that some caller is carrying out or
   that has ended.
   */
  lemma {:induction false} NobodyWaitsInVain<O(!new), P(!new)>(bound: nat, ws: seq<World<O, P>>, i: nat)
    requires Run(bound, ws) && i < |ws|
    ensures Manned(ws[i])
    ensures forall t :: t in ws[i].callers ==>
      ws[i].callers[t].fetch < |ws[i].s.pending| &&
        (ws[i].s.pending[ws[i].callers[t].fetch].Some? || Fetching(ws[i].callers, ws[i].callers[t].fetch))
  {
    CacheHolds(bound, ws, i);
    if i > 0 {
      NobodyWaitsInVain(bound, ws, i - 1);
      var w, w' := ws[i - 1], ws[i];
      assert Next(bound, w, w');
      var a, now :| Step(bound, w, a, now, w');
      hide Step, Led, Fetching;
      forall o | o in w'.s.inflight ensures Led(w'.callers, o) { LedStays(bound, w, a, now, w', o); }
      forall f | 0 <= f < |w'.s.pending| && w'.s.pending[f].None? ensures Fetching(w'.callers, f) {
        FetchingStays(bound, w, a, now, w', f);
      }
    }
  }

  /** Two answers for one fetch are equal, whoever got them. */
  lemma SameFetchSameAnswer<O(!new), P(!new)>(bound: nat, ws: seq<World<O, P>>, k: nat, i: nat, j: nat)
    requires Run(bound, ws) && k < |ws| && i < |ws[k].answers| && j < |ws[k].answers|
    requires ws[k].answers[i].fetch == ws[k].answers[j].fetch
    ensures ws[k].answers[i].outcome == ws[k].answers[j].outcome
  {
    CacheHolds(bound, ws, k);
  }
}
