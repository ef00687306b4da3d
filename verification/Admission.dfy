/**
 Automatic admission: turning discovered candidates into crawl sources within a
 run's promotion budget and the global limit on pending probes.
 */
module Admission {
  import opened Wrappers
  import opened Database
  import CrawlBlocks
  import DiscoverySchedule
  import Ordering
  import Queue
  import Retry

  datatype Outcome =
    | Pending | RetryDeferred | NetworkRejected | PolicyDeferred
    | Existing | CapacityDeferred | ExpansionPaused | Promoted

  // ---- Probe capacity --------------------------------------------------------------

  /** Probes that are due or being worked on occupy capacity; one waiting for a retry does not. */
  predicate Active(r: Queue.Row, at: int) {
    r.mode == Queue.Probe && (r.availableAt <= at || (r.hold.Some? && r.hold.value.expires > at))
  }

  function ActiveProbes(queue: map<string, Queue.Row>, at: int): set<string> {
    set o | o in queue && Active(queue[o], at)
  }

  /** A new probe row adds at most one. */
  lemma OneMoreProbe(queue: map<string, Queue.Row>, o: string, row: Queue.Row, at: int)
    requires o !in queue
    ensures |ActiveProbes(queue[o := row], at)| <= |ActiveProbes(queue, at)| + 1
  {
    var before, after := ActiveProbes(queue, at), ActiveProbes(queue[o := row], at);
    assert after <= before + {o};
    SubsetCard(after, before + {o});
  }

  /** Probe rows for the origins that have none, in order. */
  function WithProbes(queue: map<string, Queue.Row>, origins: seq<string>, availableAt: int): map<string, Queue.Row> {
    if origins == [] then queue
    else
      var k := |origins| - 1;
      var before := WithProbes(queue, origins[..k], availableAt);
      if origins[k] in before then before else before[origins[k] := Queue.NewRow(Queue.Probe, availableAt)]
  }

  /**
   Inserting no more probes than there is room for keeps the count within the larger of its old
   value and the limit.
   */
  lemma {:induction false} ProbesWithinLimit(queue: map<string, Queue.Row>, origins: seq<string>, availableAt: int,
                                             at: int)
    ensures |ActiveProbes(WithProbes(queue, origins, availableAt), at)| <= |ActiveProbes(queue, at)| + |origins|
  {
    if origins != [] {
      var k := |origins| - 1;
      ProbesWithinLimit(queue, origins[..k], availableAt, at);
      var before := WithProbes(queue, origins[..k], availableAt);
      hide WithProbes, ActiveProbes;
      if origins[k] !in before { OneMoreProbe(before, origins[k], Queue.NewRow(Queue.Probe, availableAt), at); }
    }
  }

  // ---- One candidate ----------------------------------------------------------------

  /** What a completion works with: limits, controls, clocks, resolution results and the exclusion policy. */
  datatype Env = Env(limit: nat, budget: nat, paused: bool, now: int, at: int,
                     decisions: map<string, Retry.Category>, policy: CrawlBlocks.Policy)

  /** The transaction's working state. */
  datatype Work = Work(t: Tables, promotions: nat, pending: nat, batch: map<string, Outcome>,
    durable: map<string, Outcome>)

  predicate Refused(env: Env, t: Tables, o: string) {
    Blocked(t, o) || env.policy.hostOf(o).None? || CrawlBlocks.HostExcluded(env.policy, env.policy.hostOf(o).value)
  }

  predicate Taken(f: DiscoverySchedule.Facts) {
    f.automatic || f.scheduled || (f.effective.Some? && f.effective.value.valid)
  }

  /** Whether the candidate gets as far as needing a queue row. */
  predicate Admissible(env: Env, t: Tables, o: string) {
    && o in env.decisions && !Retry.Transient(env.decisions[o]) && env.decisions[o] != Retry.UnsafeAddress
    && !Refused(env, t, o) && !Taken(FactsOf(t, o)) && !DiscoverySchedule.Stale(FactsOf(t, o))
  }

  function Decide(env: Env, w: Work, o: string): Outcome {
    if o in env.decisions && Retry.Transient(env.decisions[o]) then RetryDeferred
    else if o !in env.decisions || env.decisions[o] == Retry.UnsafeAddress then NetworkRejected
    else if Refused(env, w.t, o) then PolicyDeferred
    else if Taken(FactsOf(w.t, o)) then Existing
    else if DiscoverySchedule.Stale(FactsOf(w.t, o)) then PolicyDeferred
    else if o !in w.t.queue && w.pending >= env.limit then CapacityDeferred
    else if env.paused then ExpansionPaused
    else if w.promotions >= env.budget then CapacityDeferred
    else Promoted
  }

  predicate Enqueues(env: Env, w: Work, o: string) {
    Admissible(env, w.t, o) && o !in w.t.queue && w.pending < env.limit
  }

  predicate IsDurable(outcome: Outcome) { outcome in {NetworkRejected, Existing, Promoted} }

  /** The retry streak of a candidate: extended by a transient failure, kept by a rejection, cleared otherwise. */
  function Streak(env: Env, c: Candidate, outcome: Outcome): Candidate {
    if outcome == RetryDeferred then
      c.(failures := c.failures + 1, nextAttempt := Some(env.now + Retry.Delay(c.failures + 1, 0)))
    else if outcome == NetworkRejected then c
    else c.(failures := 0, nextAttempt := None)
  }

  function Admit(env: Env, w: Work, o: string): Work
    requires o in w.t.candidates
  {
    var outcome, enqueue := Decide(env, w, o), Enqueues(env, w, o);
    var promoted := outcome == Promoted;
    Work(w.t.(candidates := w.t.candidates[o := Streak(env, w.t.candidates[o], outcome)],
              queue := if enqueue then w.t.queue[o := Queue.NewRow(Queue.Probe, env.now)] else w.t.queue,
              states := if promoted then w.t.states[o := StateOf(w.t, o).(automatic := true)] else w.t.states,
              schedule := if promoted then w.t.schedule + {o} else w.t.schedule),
         if promoted then w.promotions + 1 else w.promotions,
         if enqueue then w.pending + 1 else w.pending,
         w.batch[o := outcome],
         if IsDurable(outcome) then w.durable[o := outcome] else w.durable)
  }

  lemma AdmitFacts(env: Env, w: Work, o: string, x: string)
    requires o in w.t.candidates
    ensures FactsOf(Admit(env, w, o).t, x) ==
      if x == o && Decide(env, w, o) == Promoted then DiscoverySchedule.Promote(FactsOf(w.t, o)) else FactsOf(w.t, x)
  {
    hide SettledOf, Participated, Decide, Enqueues;
  }

  /** Promotion respects every guard of the schedule rule. */
  lemma PromotedIsPromotable(env: Env, w: Work, o: string)
    requires o in w.t.candidates && Decide(env, w, o) == Promoted
    ensures DiscoverySchedule.Promotable(FactsOf(w.t, o)) && Admissible(env, w.t, o) && w.promotions < env.budget
    ensures o in w.t.queue || Enqueues(env, w, o)
  {
    hide SettledOf, Participated, Refused;
  }

  lemma AdmitKeepsRule(env: Env, w: Work, o: string)
    requires AllJustified(w.t) && o in w.t.candidates
    ensures AllJustified(Admit(env, w, o).t)
  {
    hide FactsOf, Admit, Decide, DiscoverySchedule.Justified, DiscoverySchedule.Promote, DiscoverySchedule.Promotable;
    if Decide(env, w, o) == Promoted {
      PromotedIsPromotable(env, w, o);
      PromotionKeeps(FactsOf(w.t, o));
    }
    forall x ensures DiscoverySchedule.Justified(FactsOf(Admit(env, w, o).t, x)) {
      AdmitFacts(env, w, o, x);
    }
  }

  lemma PromotionKeeps(f: DiscoverySchedule.Facts)
    requires DiscoverySchedule.Justified(f) && DiscoverySchedule.Promotable(f)
    ensures DiscoverySchedule.Justified(DiscoverySchedule.Promote(f))
  {
    DiscoverySchedule.StepKeepsRule(f, DiscoverySchedule.DoPromote);
  }

  // ---- A whole batch ------------------------------------------------------------------

  function PromotedIn(batch: map<string, Outcome>): set<string> { set o | o in batch && batch[o] == Promoted }

  function PendingIn(batch: map<string, Outcome>): set<string> { set o | o in batch && batch[o] == Pending }

  /** Deciding candidates one after the other. */
  function AdmitAll(env: Env, w: Work, order: seq<string>): Work
    requires ToSet(order) <= w.t.candidates.Keys
    ensures AdmitAll(env, w, order).t.candidates.Keys == w.t.candidates.Keys
  {
    if order == [] then w
    else
      var k := |order| - 1;
      assert order[k] in ToSet(order) && forall o :: o in ToSet(order[..k]) ==> o in ToSet(order);
      Admit(env, AdmitAll(env, w, order[..k]), order[k])
  }

  /** The promotion counter grows by exactly the number of candidates promoted, and stays within the budget. */
  predicate Budgeted(env: Env, start: Work, w: Work) {
    && |PromotedIn(w.batch)| <= w.promotions <= env.budget
    && w.promotions - |PromotedIn(w.batch)| == start.promotions - |PromotedIn(start.batch)|
  }

  /** The counter of pending probes covers the active ones. */
  predicate Capped(env: Env, start: nat, w: Work) {
    |ActiveProbes(w.t.queue, env.at)| <= w.pending <= Max(start, env.limit)
  }

  /** A promoted candidate is automatic, unblocked, not excluded, scheduled and queued. */
  predicate Installed(env: Env, t: Tables, o: string) {
    StateOf(t, o).automatic && !Refused(env, t, o) && o in t.schedule && o in t.queue
  }

  lemma PromotedNext(batch: map<string, Outcome>, o: string, outcome: Outcome)
    requires o in batch ==> batch[o] != Promoted
    ensures PromotedIn(batch[o := outcome]) == PromotedIn(batch) + if outcome == Promoted then {o} else {}
    ensures o !in PromotedIn(batch)
  {
  }

  lemma AdmitKeepsBudget(env: Env, start: Work, w: Work, o: string)
    requires Budgeted(env, start, w) && o in w.t.candidates && o in w.batch && w.batch[o] == Pending
    ensures Budgeted(env, start, Admit(env, w, o))
  {
    hide Decide, Enqueues, FactsOf, PromotedIn;
    PromotedNext(w.batch, o, Decide(env, w, o));
    if Decide(env, w, o) == Promoted { PromotedIsPromotable(env, w, o); }
  }

  lemma AdmitKeepsCap(env: Env, start: nat, w: Work, o: string)
    requires Capped(env, start, w) && o in w.t.candidates
    ensures Capped(env, start, Admit(env, w, o))
  {
    hide Decide, ActiveProbes, Admissible;
    if Enqueues(env, w, o) { OneMoreProbe(w.t.queue, o, Queue.NewRow(Queue.Probe, env.now), env.at); }
  }

  lemma AdmitInstalls(env: Env, w: Work, o: string)
    requires o in w.t.candidates
    ensures Decide(env, w, o) == Promoted ==> Installed(env, Admit(env, w, o).t, o)
    ensures forall x :: Installed(env, w.t, x) ==> Installed(env, Admit(env, w, o).t, x)
  {
    if Decide(env, w, o) == Promoted { PromotedIsPromotable(env, w, o); }
    hide Decide, Enqueues, FactsOf, CrawlBlocks.HostExcluded;
  }

  /** A decision is never left open. */
  lemma DecisionIsFinal(env: Env, w: Work, o: string)
    ensures Decide(env, w, o) != Pending
  {
  }

  /** What a transaction has established after deciding some of its candidates. */
  ghost predicate Admitted(env: Env, w: Work, w': Work, decided: set<string>) {
    && (AllJustified(w.t) ==> AllJustified(w'.t)) && Budgeted(env, w, w') && Capped(env, w.pending, w')
    && w'.t.candidates.Keys == w.t.candidates.Keys && w'.t.ledgers == w.t.ledgers
    && w'.batch.Keys == w.batch.Keys
    && (forall o :: o in w.batch && o !in decided ==> w'.batch[o] == w.batch[o])
    && (forall o :: o in w.batch && o in decided ==> w'.batch[o] != Pending)
    && (forall o :: o in w.batch && o in decided && w'.batch[o] == Promoted ==>
          !StateOf(w.t, o).automatic && Installed(env, w'.t, o))
    && (forall o :: StateOf(w.t, o).automatic ==> StateOf(w'.t, o).automatic)
    && (forall o :: o !in decided ==> StateOf(w'.t, o) == StateOf(w.t, o))
  }

  lemma AdmitFrame(env: Env, w: Work, o: string)
    requires o in w.t.candidates
    ensures var w' := Admit(env, w, o);
            && w'.t.candidates.Keys == w.t.candidates.Keys && w'.t.ledgers == w.t.ledgers
            && w'.batch == w.batch[o := Decide(env, w, o)]
            && (forall x :: x != o ==> StateOf(w'.t, x) == StateOf(w.t, x))
            && (StateOf(w.t, o).automatic ==> StateOf(w'.t, o).automatic)
            && (Decide(env, w, o) == Promoted ==> !StateOf(w.t, o).automatic)
  {
    if Decide(env, w, o) == Promoted { PromotedIsPromotable(env, w, o); }
    hide Decide, Enqueues, SettledOf, Participated;
  }

  lemma AdmittedNext(env: Env, w: Work, v: Work, decided: set<string>, o: string)
    requires Admitted(env, w, v, decided)
    requires o !in decided && o in w.batch && w.batch[o] == Pending && o in w.t.candidates
    ensures Admitted(env, w, Admit(env, v, o), decided + {o})
  {
    hide Admit, Decide, FactsOf, Budgeted, Capped, AllJustified, Installed, StateOf;
    if AllJustified(v.t) { AdmitKeepsRule(env, v, o); }
    AdmitKeepsBudget(env, w, v, o);
    AdmitKeepsCap(env, w.pending, v, o);
    AdmitInstalls(env, v, o);
    AdmitFrame(env, v, o);
    DecisionIsFinal(env, v, o);
  }

  // ---- Promotions in order ------------------------------------------------------------

  /** The candidates a batch promotes, in the order of their decisions. */
  function Promotions(env: Env, w: Work, order: seq<string>): seq<string>
    requires ToSet(order) <= w.t.candidates.Keys
  {
    if order == [] then []
    else
      var k := |order| - 1;
      assert order[k] in ToSet(order) && forall o :: o in ToSet(order[..k]) ==> o in ToSet(order);
      var before := Promotions(env, w, order[..k]);
      if Decide(env, AdmitAll(env, w, order[..k]), order[k]) == Promoted then before + [order[k]] else before
  }

  /** Each promotion counts, makes a new automatic source, and none is of the same origin as another. */
  ghost predicate PromotedInOrder(w: Work, w': Work, ps: seq<string>) {
    && w'.promotions == w.promotions + |ps|
    && (forall i :: 0 <= i < |ps| ==> !StateOf(w.t, ps[i]).automatic && StateOf(w'.t, ps[i]).automatic)
    && (forall i, j :: 0 <= i < j < |ps| ==> ps[i] != ps[j])
    && forall o :: StateOf(w.t, o).automatic ==> StateOf(w'.t, o).automatic
  }

  lemma PromotedNextInOrder(env: Env, w: Work, v: Work, ps: seq<string>, o: string)
    requires PromotedInOrder(w, v, ps) && o in v.t.candidates
    ensures PromotedInOrder(w, Admit(env, v, o), if Decide(env, v, o) == Promoted then ps + [o] else ps)
  {
    AdmitFrame(env, v, o);
    AdmitCounts(env, v, o);
    hide Admit, Decide, StateOf;
  }

  lemma AdmitCounts(env: Env, w: Work, o: string)
    requires o in w.t.candidates
    ensures Admit(env, w, o).promotions == w.promotions + (if Decide(env, w, o) == Promoted then 1 else 0)
    ensures Decide(env, w, o) == Promoted ==> StateOf(Admit(env, w, o).t, o).automatic
  {
    hide Decide, Enqueues;
  }

  lemma {:induction false} PromotionsHold(env: Env, w: Work, order: seq<string>)
    requires ToSet(order) <= w.t.candidates.Keys
    ensures PromotedInOrder(w, AdmitAll(env, w, order), Promotions(env, w, order))
  {
    if order != [] {
      var k := |order| - 1;
      assert order[k] in ToSet(order) && forall o :: o in ToSet(order[..k]) ==> o in ToSet(order);
      PromotionsHold(env, w, order[..k]);
      hide PromotedInOrder, Decide, Admit, ToSet;
      PromotedNextInOrder(env, w, AdmitAll(env, w, order[..k]), Promotions(env, w, order[..k]), order[k]);
    }
  }

  // ---- Runs and batches ---------------------------------------------------------------

  /** A crawl run with its stored budget, and its batch. */
  datatype CrawlRun = CrawlRun(budget: nat, promotions: nat, finished: bool, batch: map<string, Outcome>)

  /** Rows handed out by a query in ascending order. */
  ghost predicate InOrder(order: seq<string>, rows: set<string>) {
    Ordering.Ascending(order, x => x) && ToSet(order) == rows
  }

  /** Candidates a run may take into its batch. */
  predicate Eligible(t: Tables, policy: CrawlBlocks.Policy, durable: map<string, Outcome>, batch: map<string, Outcome>,
                     now: int, o: string) {
    && o in t.candidates && t.candidates[o].linked
    && (t.candidates[o].nextAttempt.Some? ==> t.candidates[o].nextAttempt.value <= now)
    && !StateOf(t, o).automatic && !Blocked(t, o) && o !in t.schedule
    && (SettledOf(LedgerOf(t, o)).None? || DiscoverySchedule.Rediscovered(FactsOf(t, o)))
    && !(SettledOf(LedgerOf(t, o)).Some? && SettledOf(LedgerOf(t, o)).value.valid)
    && o !in durable && o !in batch
    && policy.hostOf(o).Some? && !CrawlBlocks.HostExcluded(policy, policy.hostOf(o).value)
  }

  /** A run's batch and its promotions are within its budget, and its counter covers the promoted rows it still has. */
  ghost predicate RunHolds(run: CrawlRun, candidates: set<string>) {
    |run.batch.Keys| <= run.budget && |PromotedIn(run.batch)| <= run.promotions <= run.budget &&
      run.batch.Keys <= candidates
  }

  /** The counter is the number of promoted rows, as long as no row of the batch is purged. */
  predicate CounterExact(run: CrawlRun) { run.promotions == |PromotedIn(run.batch)| }

  ghost predicate RunsHold(runs: map<nat, CrawlRun>, candidates: set<string>) {
    forall r :: r in runs ==> RunHolds(runs[r], candidates)
  }

  predicate Promotes(run: CrawlRun, o: string) { o in run.batch && run.batch[o] == Promoted }

  /** Promoted origins are automatic, and no origin is promoted by two runs. */
  ghost predicate PromotedOnce(runs: map<nat, CrawlRun>, t: Tables) {
    && (forall r, o :: r in runs && Promotes(runs[r], o) ==> StateOf(t, o).automatic)
    && forall r, s, o :: r in runs && s in runs && Promotes(runs[r], o) && Promotes(runs[s], o) ==> r == s
  }

  function Allocated(batch: map<string, Outcome>, origins: seq<string>): map<string, Outcome> {
    map o | o in batch.Keys + ToSet(origins) :: if o in batch then batch[o] else Pending
  }

  /** New pending rows keep the batch within the budget and promote nothing. */
  lemma AllocationKeeps(run: CrawlRun, candidates: set<string>, origins: seq<string>)
    requires RunHolds(run, candidates) && |run.batch.Keys| + |origins| <= run.budget && ToSet(origins) <= candidates
    ensures RunHolds(run.(batch := Allocated(run.batch, origins)), candidates)
    ensures PromotedIn(Allocated(run.batch, origins)) == PromotedIn(run.batch)
  {
    var after := Allocated(run.batch, origins);
    assert PromotedIn(after) == PromotedIn(run.batch);
    assert after.Keys == run.batch.Keys + ToSet(origins);
    hide Allocated, ToSet, PromotedIn;
    ToSetCard(origins);
    UnionCard(run.batch.Keys, ToSet(origins));
  }

  lemma UnionCard(a: set<string>, b: set<string>)
    ensures |a + b| <= |a| + |b|
  {
  }

  lemma {:induction false} ToSetCard(order: seq<string>)
    ensures |ToSet(order)| <= |order|
  {
    if order != [] {
      var k := |order| - 1;
      ToSetCard(order[..k]);
      NextInSet(order, k);
      assert order[..k + 1] == order;
      UnionCard(ToSet(order[..k]), {order[k]});
    }
  }

  lemma NextInSet(order: seq<string>, i: nat)
    requires i < |order|
    ensures ToSet(order[..i + 1]) == ToSet(order[..i]) + {order[i]}
  {
    ToSetAppend(order[..i], order[i]);
    assert order[..i + 1] == order[..i] + [order[i]];
  }

  /** The candidates taken from the pool are known and new to the batch. */
  lemma PoolIsKnown(t: Tables, policy: CrawlBlocks.Policy, durable: map<string, Outcome>, batch: map<string, Outcome>,
                    now: int, pool: seq<string>, n: nat)
    requires InOrder(pool, set o | o in t.candidates && Eligible(t, policy, durable, batch, now, o)) && n <= |pool|
    ensures ToSet(pool[..n]) <= t.candidates.Keys && ToSet(pool[..n]) !! batch.Keys
  {
    forall o | o in ToSet(pool[..n]) ensures o in t.candidates && o !in batch {
      var i :| 0 <= i < n && pool[..n][i] == o;
      assert pool[i] == o;
      assert o in ToSet(pool);
    }
  }

  /** Replacing a run by one that promotes nothing new. */
  lemma RunReplaced(runs: map<nat, CrawlRun>, r: nat, run: CrawlRun, t: Tables)
    requires RunsHold(runs, t.candidates.Keys) && PromotedOnce(runs, t) && RunHolds(run, t.candidates.Keys)
    requires forall o :: Promotes(run, o) ==> r in runs && Promotes(runs[r], o)
    ensures RunsHold(runs[r := run], t.candidates.Keys) && PromotedOnce(runs[r := run], t)
  {
    hide RunHolds, Promotes;
  }

  lemma AdmissionStarts(env: Env, w: Work, run: CrawlRun)
    requires RunHolds(run, w.t.candidates.Keys) && w.batch == run.batch
    requires env.budget == run.budget && w.promotions == run.promotions &&
      w.pending == |ActiveProbes(w.t.queue, env.at)|
    ensures Admitted(env, w, w, {})
  {
    hide AllJustified;
  }

  lemma NotYetInOrder(order: seq<string>, i: nat)
    requires Ordering.Ascending(order, x => x) && i < |order|
    ensures order[i] !in ToSet(order[..i])
  {
    var key: string -> string := x => x;
    forall k | 0 <= k < i ensures order[..i][k] != order[i] {
      assert Ordering.Below(key(order[k]), key(order[i]));
      if order[k] == order[i] { Ordering.BelowIsAsymmetric(order[k], order[i]); }
    }
  }

  lemma AdmitAllNone(env: Env, w: Work)
    ensures ToSet<string>([]) == {} && AdmitAll(env, w, []) == w
  {
  }

  lemma AdmitAllNext(env: Env, w: Work, order: seq<string>, k: nat)
    requires k < |order| && ToSet(order[..k]) <= w.t.candidates.Keys && order[k] in w.t.candidates
    ensures ToSet(order[..k + 1]) <= w.t.candidates.Keys
    ensures AdmitAll(env, w, order[..k + 1]) == Admit(env, AdmitAll(env, w, order[..k]), order[k])
  {
    hide Admit;
    NextInSet(order, k);
    assert order[..k + 1][..k] == order[..k];
  }

  lemma PendingAt(order: seq<string>, batch: map<string, Outcome>, k: nat)
    requires InOrder(order, PendingIn(batch)) && k < |order|
    ensures order[k] in batch && batch[order[k]] == Pending && order[k] !in ToSet(order[..k])
  {
    NotYetInOrder(order, k);
    assert order[k] in ToSet(order);
  }

  /** Deciding candidates in order keeps everything the transaction has established, whatever it decides. */
  lemma {:induction false} AdmitAllHolds(env: Env, start: Work, order: seq<string>, i: nat)
    requires Admitted(env, start, start, {}) && InOrder(order, PendingIn(start.batch)) &&
      start.batch.Keys <= start.t.candidates.Keys
    requires i <= |order|
    ensures ToSet(order[..i]) <= start.t.candidates.Keys &&
      Admitted(env, start, AdmitAll(env, start, order[..i]), ToSet(order[..i]))
  {
    hide Admitted, AdmitAll, Admit, InOrder, PendingIn, ToSet;
    if i == 0 {
      assert order[..0] == [];
      AdmitAllNone(env, start);
    } else {
      var k := i - 1;
      AdmitAllHolds(env, start, order, k);
      PendingAt(order, start.batch, k);
      NextInSet(order, k);
      AdmitAllNext(env, start, order, k);
      AdmittedNext(env, start, AdmitAll(env, start, order[..k]), ToSet(order[..k]), order[k]);
    }
  }

  /** The loop over a run's pending candidates in canonical order. */
  method AdmitBatch(env: Env, start: Work, order: seq<string>) returns (w: Work)
    requires Admitted(env, start, start, {}) && InOrder(order, PendingIn(start.batch)) &&
      start.batch.Keys <= start.t.candidates.Keys
    ensures Admitted(env, start, w, PendingIn(start.batch))
    ensures ToSet(order) <= start.t.candidates.Keys && w == AdmitAll(env, start, order)
  {
    hide Admitted, Admit;
    w := start;
    assert order[..0] == [];
    for i := 0 to |order|
      invariant ToSet(order[..i]) <= start.t.candidates.Keys && w == AdmitAll(env, start, order[..i])
    {
      AdmitAllHolds(env, start, order, i + 1);
      NextInSet(order, i);
      assert order[..i + 1][..i] == order[..i];
      w := Admit(env, w, order[i]);
    }
    assert order[..|order|] == order;
    AdmitAllHolds(env, start, order, |order|);
  }

  /** What a completed transaction leaves behind. */
  lemma BatchIsDecided(env: Env, w: Work, w': Work)
    requires Admitted(env, w, w', PendingIn(w.batch))
    ensures PendingIn(w'.batch) == {}
    ensures forall o :: o in PromotedIn(w'.batch) && o !in PromotedIn(w.batch) ==>
      !StateOf(w.t, o).automatic && Installed(env, w'.t, o)
    ensures AllJustified(w.t) ==> AllJustified(w'.t)
    ensures w'.t.ledgers == w.t.ledgers && w'.t.candidates.Keys == w.t.candidates.Keys
    ensures w'.promotions <= env.budget && |ActiveProbes(w'.t.queue, env.at)| <= Max(w.pending, env.limit)
  {
    hide AllJustified, Installed, StateOf, ActiveProbes;
  }

  lemma CompletedRunHolds(run: CrawlRun, env: Env, w: Work, w': Work)
    requires RunHolds(run, w.t.candidates.Keys) && w.batch == run.batch && env.budget == run.budget
    requires Admitted(env, w, w', PendingIn(w.batch))
    requires w.promotions == run.promotions
    ensures RunHolds(run.(promotions := w'.promotions, batch := w'.batch), w'.t.candidates.Keys)
    ensures CounterExact(run) ==> CounterExact(run.(promotions := w'.promotions, batch := w'.batch))
    ensures forall o :: Promotes(run.(promotions := w'.promotions, batch := w'.batch), o) ==>
      Promotes(run, o) || (!StateOf(w.t, o).automatic && StateOf(w'.t, o).automatic)
    ensures forall o :: StateOf(w.t, o).automatic ==> StateOf(w'.t, o).automatic
  {
    hide AllJustified, Capped, Refused;
  }

  /** Completing a run's batch keeps every run within budget and every origin promoted once. */
  lemma CompletionKeeps(runs: map<nat, CrawlRun>, r: nat, env: Env, w: Work, w': Work)
    requires RunsHold(runs, w.t.candidates.Keys) && PromotedOnce(runs, w.t) && r in runs
    requires env.budget == runs[r].budget && w.batch == runs[r].batch && w.promotions == runs[r].promotions
    requires Admitted(env, w, w', PendingIn(w.batch))
    ensures var run := runs[r].(promotions := w'.promotions, batch := w'.batch);
            && RunsHold(runs[r := run], w'.t.candidates.Keys) && PromotedOnce(runs[r := run], w'.t)
            && (CounterExact(runs[r]) ==> CounterExact(run))
  {
    hide Admitted, RunHolds, Promotes, StateOf, PromotedIn, PendingIn, CounterExact, Installed, AllJustified,
         ActiveProbes;
    BatchIsDecided(env, w, w');
    CompletedRunHolds(runs[r], env, w, w');
  }

  /** Runs and promotions do not depend on the queue. */
  lemma QueueHasNoRuns(runs: map<nat, CrawlRun>, t: Tables, queue: map<string, Queue.Row>)
    requires PromotedOnce(runs, t)
    ensures PromotedOnce(runs, t.(queue := queue))
  {
    hide Promotes;
    assert forall o :: StateOf(t.(queue := queue), o) == StateOf(t, o);
  }

  // ---- Queueing probes ----------------------------------------------------------------------

  /** An origin that may get a probe row now: not excluded, not blocked, not queued. */
  predicate Probeable(t: Tables, policy: CrawlBlocks.Policy, o: string) {
    && policy.hostOf(o).Some? && !CrawlBlocks.HostExcluded(policy, policy.hostOf(o).value)
    && !Blocked(t, o) && o !in t.queue
  }

  function NewProbes(t: Tables, policy: CrawlBlocks.Policy, origins: seq<string>): seq<string> {
    if origins == [] then []
    else
      var k := |origins| - 1;
      var before := NewProbes(t, policy, origins[..k]);
      if Probeable(t, policy, origins[k]) then before + [origins[k]] else before
  }

  /** As many of some new origins as there is room for, in order. */
  function Fitting(origins: seq<string>, room: int): seq<string> { origins[..Min(Max(room, 0), |origins|)] }

  function Room(t: Tables, limit: nat, at: int): int { limit - |ActiveProbes(t.queue, at)| }

  predicate Distinct(origins: seq<string>) { forall i, j :: 0 <= i < j < |origins| ==> origins[i] != origins[j] }

  lemma AscendingIsDistinct(origins: seq<string>)
    requires Ordering.Ascending(origins, x => x)
    ensures Distinct(origins)
  {
    var key: string -> string := x => x;
    forall i, j | 0 <= i < j < |origins| ensures origins[i] != origins[j] {
      assert Ordering.Below(key(origins[i]), key(origins[j]));
      if origins[i] == origins[j] { Ordering.BelowIsAsymmetric(origins[i], origins[j]); }
    }
  }

  lemma {:induction false} NewProbesAreNew(t: Tables, policy: CrawlBlocks.Policy, origins: seq<string>)
    requires Distinct(origins)
    ensures Distinct(NewProbes(t, policy, origins))
    ensures forall o :: o in NewProbes(t, policy, origins) <==> o in origins && Probeable(t, policy, o)
  {
    if origins != [] {
      var k := |origins| - 1;
      NewProbesAreNew(t, policy, origins[..k]);
      assert origins == origins[..k] + [origins[k]];
      assert origins[k] !in origins[..k];
      hide Probeable;
    }
  }

  /** New rows are added exactly, and existing ones are left alone. */
  ghost predicate Added(queue: map<string, Queue.Row>, origins: seq<string>, availableAt: int,
                        after: map<string, Queue.Row>) {
    && (forall o :: o in after <==> o in queue || o in origins)
    && (forall o :: o in queue ==> o in after && after[o] == queue[o])
    && (forall o :: o in origins ==> o in after && after[o] == Queue.NewRow(Queue.Probe, availableAt))
    && |after.Keys| == |queue.Keys| + |origins|
  }

  lemma OneMoreKey(queue: map<string, Queue.Row>, o: string, row: Queue.Row)
    requires o !in queue
    ensures |queue[o := row].Keys| == |queue.Keys| + 1
  {
    assert queue[o := row].Keys == queue.Keys + {o};
  }

  lemma AddedOne(queue: map<string, Queue.Row>, origins: seq<string>, availableAt: int, before: map<string, Queue.Row>,
                 o: string)
    requires Added(queue, origins, availableAt, before) && o !in queue && o !in origins
    ensures Added(queue, origins + [o], availableAt, before[o := Queue.NewRow(Queue.Probe, availableAt)])
  {
    hide Queue.NewRow;
    NotAdded(queue, origins, availableAt, before, o);
    OneMoreKey(before, o, Queue.NewRow(Queue.Probe, availableAt));
    assert forall x :: x in origins + [o] <==> x in origins || x == o;
  }

  lemma NotAdded(queue: map<string, Queue.Row>, origins: seq<string>, availableAt: int, after: map<string, Queue.Row>,
                 o: string)
    requires Added(queue, origins, availableAt, after) && o !in queue && o !in origins
    ensures o !in after
  {
  }

  lemma ProbesNext(queue: map<string, Queue.Row>, origins: seq<string>, k: nat, availableAt: int)
    requires |origins| == k + 1
    ensures var before := WithProbes(queue, origins[..k], availableAt);
            WithProbes(queue, origins, availableAt) ==
              if origins[k] in before then before else before[origins[k] := Queue.NewRow(Queue.Probe, availableAt)]
  {
  }

  predicate Absent(queue: map<string, Queue.Row>, origins: seq<string>) {
    forall i :: 0 <= i < |origins| ==> origins[i] !in queue
  }

  lemma ShorterIsNew(queue: map<string, Queue.Row>, origins: seq<string>, k: nat)
    requires Distinct(origins) && Absent(queue, origins) && |origins| == k + 1
    ensures Distinct(origins[..k]) && Absent(queue, origins[..k]) && origins[k] !in origins[..k] && origins[k] !in queue
    ensures origins[..k] + [origins[k]] == origins
  {
  }

  lemma {:induction false} ProbesAdded(queue: map<string, Queue.Row>, origins: seq<string>, availableAt: int)
    requires Distinct(origins) && Absent(queue, origins)
    ensures Added(queue, origins, availableAt, WithProbes(queue, origins, availableAt))
  {
    if origins == [] {
      NothingAdded(queue, origins, availableAt);
    } else {
      hide Added, WithProbes, Distinct, Absent, Queue.NewRow;
      var k := |origins| - 1;
      ShorterIsNew(queue, origins, k);
      ProbesAdded(queue, origins[..k], availableAt);
      ProbesNext(queue, origins, k, availableAt);
      var before := WithProbes(queue, origins[..k], availableAt);
      NotAdded(queue, origins[..k], availableAt, before, origins[k]);
      AddedOne(queue, origins[..k], availableAt, before, origins[k]);
    }
  }

  lemma NothingAdded(queue: map<string, Queue.Row>, origins: seq<string>, availableAt: int)
    requires origins == []
    ensures Added(queue, origins, availableAt, WithProbes(queue, origins, availableAt))
  {
  }

  /** Queueing what fits keeps the active probes within the larger of their old number and the limit. */
  lemma FittingKeepsCap(t: Tables, limit: nat, at: int, origins: seq<string>, availableAt: int)
    ensures var queue := WithProbes(t.queue, Fitting(origins, Room(t, limit, at)), availableAt);
            |ActiveProbes(queue, at)| <= Max(|ActiveProbes(t.queue, at)|, limit)
  {
    hide ActiveProbes, WithProbes;
    ProbesWithinLimit(t.queue, Fitting(origins, Room(t, limit, at)), availableAt, at);
  }

  lemma FittingIsNew(queue: map<string, Queue.Row>, origins: seq<string>, room: int)
    requires Distinct(origins) && forall o :: o in origins ==> o !in queue
    ensures Distinct(Fitting(origins, room)) && |Fitting(origins, room)| == Min(Max(room, 0), |origins|)
    ensures Absent(queue, Fitting(origins, room))
  {
    var some := Fitting(origins, room);
    forall i | 0 <= i < |some| ensures some[i] !in queue { assert some[i] == origins[i]; }
  }

  lemma NotQueued(t: Tables, policy: CrawlBlocks.Policy)
    ensures forall o :: Probeable(t, policy, o) ==> o !in t.queue
  {
  }

  /** Candidates only ever redirected to, which get probes without a batch. */
  function RedirectOnly(t: Tables, policy: CrawlBlocks.Policy): set<string> {
    set o | o in t.candidates && !t.candidates[o].linked && Probeable(t, policy, o)
  }

  class Admissions {
    const db: Database
    const limit: nat
    const policy: CrawlBlocks.Policy
    var runs: map<nat, CrawlRun>
    var durable: map<string, Outcome>

    /** Every run keeps within its budget, its counter is exact, and no origin was promoted twice. */
    ghost predicate Valid()
      reads this, db
    {
      && db.Valid() && RunsHold(runs, db.candidates.Keys) && PromotedOnce(runs, db.Snapshot())
      && forall r :: r in runs ==> CounterExact(runs[r])
    }

    constructor (db: Database, limit: nat, policy: CrawlBlocks.Policy)
      requires db.Valid()
      ensures Valid() && this.db == db && this.limit == limit && this.policy == policy && runs == map[]
    {
      this.db, this.limit, this.policy := db, limit, policy;
      runs, durable := map[], map[];
    }

    /** A run is stored with its budget, which never changes. */
    method StartRun(r: nat, budget: nat)
      requires Valid() && r !in runs
      modifies this`runs
      ensures Valid() && runs == old(runs)[r := CrawlRun(budget, 0, false, map[])]
    {
      assert PromotedIn(map[]) == {};
      RunReplaced(runs, r, CrawlRun(budget, 0, false, map[]), db.Snapshot());
      hide RunsHold, PromotedOnce, LedgersAgree, AllJustified;
      runs := runs[r := CrawlRun(budget, 0, false, map[])];
    }

    /**
     Queues probes for the candidates that may get one, in order, as far as there is room: exactly
     that many rows are added.
     */
    method ScheduleProbes(origins: seq<string>, availableAt: int, at: int) returns (scheduled: nat)
      requires Valid() && Ordering.Ascending(origins, x => x)
      modifies db`queue
      ensures Valid()
      ensures var fits := NewProbes(old(db.Snapshot()), policy, origins);
              && db.queue == WithProbes(old(db.queue), Fitting(fits, Room(old(db.Snapshot()), limit, at)), availableAt)
              && scheduled == |db.queue.Keys| - |old(db.queue).Keys| ==
                   Min(Max(Room(old(db.Snapshot()), limit, at), 0), |fits|)
      ensures |ActiveProbes(db.queue, at)| <= Max(|ActiveProbes(old(db.queue), at)|, limit)
      ensures forall o :: o in old(db.queue) ==> o in db.queue && db.queue[o] == old(db.queue)[o]
    {
      hide AllJustified, LedgersAgree, RunsHold, PromotedOnce, CounterExact, ActiveProbes, Probeable, Distinct,
           WithProbes;
      var eligible: seq<string> := [];
      for i := 0 to |origins|
        invariant eligible == NewProbes(db.Snapshot(), policy, origins[..i])
      {
        assert origins[..i + 1][..i] == origins[..i];
        if Probeable(db.Snapshot(), policy, origins[i]) { eligible := eligible + [origins[i]]; }
      }
      assert origins[..|origins|] == origins;
      AscendingIsDistinct(origins);
      NewProbesAreNew(db.Snapshot(), policy, origins);
      NotQueued(db.Snapshot(), policy);
      var room := Room(db.Snapshot(), limit, at);
      FittingIsNew(db.queue, eligible, room);
      FittingKeepsCap(db.Snapshot(), limit, at, eligible, availableAt);
      ProbesAdded(db.queue, Fitting(eligible, room), availableAt);
      QueueIsSeparate(db.Snapshot(), WithProbes(db.queue, Fitting(eligible, room), availableAt));
      QueueHasNoRuns(runs, db.Snapshot(), WithProbes(db.queue, Fitting(eligible, room), availableAt));
      scheduled := |Fitting(eligible, room)|;
      db.queue := WithProbes(db.queue, Fitting(eligible, room), availableAt);
    }

    /**
     Allocates a run's batch from the eligible candidates in order, within what its budget
     leaves, and queues probes for redirect-only candidates as far as there is room.
     */
    method PendingAutomaticCandidates(r: nat, pool: seq<string>, redirects: seq<string>, now: int,
                                      at: int) returns (pending: Option<set<string>>)
      requires Valid()
      requires r in runs ==> InOrder(pool, set o | o in db.candidates &&
        Eligible(db.Snapshot(), policy, durable, runs[r].batch, now, o))
      requires InOrder(redirects, RedirectOnly(db.Snapshot(), policy))
      modifies this`runs, db`queue
      ensures Valid()
      ensures pending.None? <==> r !in old(runs) || old(runs)[r].finished
      ensures pending.None? ==> runs == old(runs) && db.queue == old(db.queue)
      ensures pending.Some? ==>
        && r in old(runs) && |old(runs)[r].batch.Keys| <= old(runs)[r].budget
        && var room := old(runs)[r].budget - |old(runs)[r].batch.Keys|;
           runs == old(runs)[r := old(runs)[r].(batch := Allocated(old(runs)[r].batch, Fitting(pool, room)))]
      ensures pending.Some? ==>
        && pending.value == PendingIn(runs[r].batch) && |runs[r].batch.Keys| <= runs[r].budget
        && db.queue == WithProbes(old(db.queue), Fitting(redirects, Room(old(db.Snapshot()), limit, at)), now)
        && |ActiveProbes(db.queue, at)| <= Max(|ActiveProbes(old(db.queue), at)|, limit)
    {
      hide Eligible, LedgersAgree, AllJustified, InOrder, PromotedOnce, PromotedIn, Allocated, ActiveProbes, WithProbes,
           RedirectOnly, CounterExact;
      if r !in runs || runs[r].finished { return None; }
      var room := runs[r].budget - |runs[r].batch.Keys|;
      var chosen := Fitting(pool, room);
      PoolIsKnown(db.Snapshot(), policy, durable, runs[r].batch, now, pool, |chosen|);
      AllocationKeeps(runs[r], db.candidates.Keys, chosen);
      var run := runs[r].(batch := Allocated(runs[r].batch, chosen));
      SamePromotions(runs[r], run);
      RunReplaced(runs, r, run, db.Snapshot());
      hide RunHolds, RunsHold;
      ghost var t := db.Snapshot();
      runs := runs[r := run];
      pending := Some(PendingIn(runs[r].batch));
      var probes := Fitting(redirects, Room(db.Snapshot(), limit, at));
      FittingKeepsCap(t, limit, at, redirects, now);
      QueueIsSeparate(t, WithProbes(db.queue, probes, now));
      QueueHasNoRuns(runs, t, WithProbes(db.queue, probes, now));
      db.queue := WithProbes(db.queue, probes, now);
    }

    /** Decides every pending candidate of a run in one transaction. */
    method CompleteAutomaticCandidates(r: nat, order: seq<string>, decisions: map<string, Retry.Category>, paused: bool,
                                       now: int, at: int)
      returns (done: bool)
      requires Valid()
      requires r in runs ==> InOrder(order, PendingIn(runs[r].batch))
      modifies this, db
      ensures Valid()
      ensures done <==> r in old(runs) && !old(runs)[r].finished && forall i :: 0 <= i < |order| ==>
        policy.hostOf(order[i]).Some?
      ensures !done ==> db.Snapshot() == old(db.Snapshot()) && runs == old(runs) && durable == old(durable)
      ensures done ==>
        var env := Env(limit, old(runs)[r].budget, paused, now, at, decisions, policy);
        var start := Work(old(db.Snapshot()), old(runs)[r].promotions,
          |ActiveProbes(old(db.queue), at)|, old(runs)[r].batch, old(durable));
        && ToSet(order) <= old(db.candidates).Keys
        && var w := AdmitAll(env, start, order);
           && db.Snapshot() == w.t && durable == w.durable
           && runs == old(runs)[r := old(runs)[r].(promotions := w.promotions, batch := w.batch)]
      ensures done ==>
        var env := Env(limit, old(runs)[r].budget, paused, now, at, decisions, policy);
        && r in runs && runs[r].promotions <= runs[r].budget == old(runs)[r].budget
        && PendingIn(runs[r].batch) == {}
        && |ActiveProbes(db.queue, at)| <= Max(|ActiveProbes(old(db.queue), at)|, limit)
        && forall o :: o in PromotedIn(runs[r].batch) && o !in PromotedIn(old(runs)[r].batch) ==>
             !StateOf(old(db.Snapshot()), o).automatic && Installed(env, db.Snapshot(), o)
    {
      hide AllJustified, LedgersAgree, PromotedOnce, Installed, ActiveProbes, InOrder, Admitted, AdmitAll, ToSet,
           PromotedIn, PendingIn, StateOf, CounterExact;
      done := false;
      if r !in runs || runs[r].finished { return; }
      if exists i :: 0 <= i < |order| && policy.hostOf(order[i]).None? { return; }
      var env := Env(limit, runs[r].budget, paused, now, at, decisions, policy);
      var start := Work(db.Snapshot(), runs[r].promotions, |ActiveProbes(db.queue, at)|, runs[r].batch, durable);
      AdmissionStarts(env, start, runs[r]);
      var w := AdmitBatch(env, start, order);
      CompletionKeeps(runs, r, env, start, w);
      BatchIsDecided(env, start, w);
      hide RunsHold;
      runs, durable := runs[r := runs[r].(promotions := w.promotions, batch := w.batch)], w.durable;
      db.queue, db.states, db.schedule, db.candidates := w.t.queue, w.t.states, w.t.schedule, w.t.candidates;
      assert db.Snapshot() == w.t;
      done := true;
    }
  }

  lemma SamePromotions(a: CrawlRun, b: CrawlRun)
    requires PromotedIn(a.batch) == PromotedIn(b.batch)
    ensures forall o :: Promotes(b, o) ==> Promotes(a, o)
    ensures a.promotions == b.promotions ==> (CounterExact(a) <==> CounterExact(b))
  {
    forall o | Promotes(b, o) ensures Promotes(a, o) { assert o in PromotedIn(b.batch); }
  }
}
