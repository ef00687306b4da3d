/** Every run of the whole store: all transactions on the shared tables, interleaved in any way. */
module StoreRuns {
  import opened Wrappers
  import opened Observations
  import opened Database
  import Admission
  import CrawlBlocks
  import DiscoverySchedule
  import DiscoveryStore
  import Queue
  import Registry
  import SourceLease
  import VerificationQueue

  /** A promotion that happened: which crawl run made which origin an automatic source. */
  datatype Promotion = Promotion(run: nat, origin: string)

  /**
   The tables, the crawl runs and the durable admission outcomes; and beside them every check
   ever recorded, the budget of every crawl run ever started, and every promotion ever made.
   */
  datatype World = World(t: Tables, runs: map<nat, Admission.CrawlRun>, durable: map<string, Admission.Outcome>,
                         histories: map<string, seq<Check>>, budgets: seq<nat>, promotions: seq<Promotion>)

  const EMPTY_STORE := World(Tables(map[], map[], map[], {}, map[]), map[], map[], map[], [], [])

  /**
   One transaction. Queue operations other than completion and probing touch the queue only,
   whatever they do there. Purging crawl runs drops finished runs, and with them rows of other
   batches that refer to them.
   */
  datatype Action =
    | OnQueue(queue: map<string, Queue.Row>)
    | Complete(config: Queue.Config, o: string, lease: Queue.Lease, verdict: Queue.Verdict, recheck: int, now: int)
    | AddSeed(o: string)
    | RemoveSeed(o: string)
    | Discover(evidence: seq<DiscoveryStore.Evidence>, now: int)
    | Purge(cutoff: int)
    | SetBlock(policy: CrawlBlocks.Policy, o: string, blocked: bool)
    | RecomputeBlocks(policy: CrawlBlocks.Policy)
    | OnSource(o: string, op: SourceLease.Op, now: int)
    | StartRun(budget: nat)
    | FinishRun(r: nat)
    | PurgeRuns(gone: set<nat>, lost: map<nat, set<string>>)
    | ScheduleProbes(policy: CrawlBlocks.Policy, limit: nat, origins: seq<string>, availableAt: int, at: int)
    | Allocate(r: nat, policy: CrawlBlocks.Policy, limit: nat, pool: seq<string>,
      redirects: seq<string>, now: int, at: int)
    | CompleteBatch(r: nat, env: Admission.Env, order: seq<string>)

  function Blocking(t: Tables, p: CrawlBlocks.Policy, o: string, blocked: bool): map<string, SourceState> {
    t.states[o := CrawlBlocks.Settle(p, o, StateOf(t, o).(operatorBlocked := blocked, blocked := blocked))]
  }

  function Remaining(runs: map<nat, Admission.CrawlRun>, gone: set<nat>,
                     lost: map<nat, set<string>>): map<nat, Admission.CrawlRun> {
    map r | r in runs && r !in gone :: if r in lost then runs[r].(batch := runs[r].batch - lost[r]) else runs[r]
  }

  /** The batch of a run at the start of its completion. */
  function Start(w: World, r: nat, at: int): Admission.Work
    requires r in w.runs
  {
    Admission.Work(w.t, w.runs[r].promotions, |Admission.ActiveProbes(w.t.queue, at)|, w.runs[r].batch, w.durable)
  }

  function Tagged(r: nat, origins: seq<string>): seq<Promotion> {
    if origins == [] then [] else Tagged(r, origins[..|origins| - 1]) + [Promotion(r, origins[|origins| - 1])]
  }

  /** The state after a run's pending candidates were decided in order. */
  function Decided(w: World, r: nat, env: Admission.Env, order: seq<string>): World
    requires r in w.runs && ToSet(order) <= w.t.candidates.Keys
  {
    var after := Admission.AdmitAll(env, Start(w, r, env.at), order);
    w.(t := after.t, durable := after.durable,
       runs := w.runs[r := w.runs[r].(promotions := after.promotions, batch := after.batch)],
       promotions := w.promotions + Tagged(r, Admission.Promotions(env, Start(w, r, env.at), order)))
  }

  predicate Active(w: World, r: nat) { r in w.runs && !w.runs[r].finished }

  ghost predicate AdmissionStep(a: Action, w: World, w': World) {
    match a
    case StartRun(budget) =>
      w' == w.(runs := w.runs[|w.budgets| := Admission.CrawlRun(budget, 0, false, map[])],
        budgets := w.budgets + [budget])
    case FinishRun(r) => Active(w, r) && w' == w.(runs := w.runs[r := w.runs[r].(finished := true)])
    case PurgeRuns(gone, lost) =>
      && (forall r :: r in gone ==> r in w.runs && w.runs[r].finished)
      && w' == w.(runs := Remaining(w.runs, gone, lost))
    case ScheduleProbes(policy, limit, origins, availableAt, at) =>
      var fits := Admission.Fitting(Admission.NewProbes(w.t, policy, origins), Admission.Room(w.t, limit, at));
      w' == w.(t := w.t.(queue := Admission.WithProbes(w.t.queue, fits, availableAt)))
    case Allocate(r, policy, limit, pool, redirects, now, at) =>
      && Active(w, r)
      && Admission.InOrder(pool, set o | o in w.t.candidates &&
           Admission.Eligible(w.t, policy, w.durable, w.runs[r].batch, now, o))
      && Admission.InOrder(redirects, Admission.RedirectOnly(w.t, policy))
      && var run := w.runs[r];
         var chosen := Admission.Fitting(pool, run.budget - |run.batch.Keys|);
         var probes := Admission.Fitting(redirects, Admission.Room(w.t, limit, at));
         w' == w.(runs := w.runs[r := run.(batch := Admission.Allocated(run.batch, chosen))],
                  t := w.t.(queue := Admission.WithProbes(w.t.queue, probes, now)))
    case CompleteBatch(r, env, order) =>
      && Active(w, r) && env.budget == w.runs[r].budget
      && Admission.InOrder(order, Admission.PendingIn(w.runs[r].batch)) && ToSet(order) <= w.t.candidates.Keys
      && w' == Decided(w, r, env, order)
    case _ => false
  }

  ghost predicate Step(a: Action, w: World, w': World) {
    match a
    case OnQueue(queue) => w' == w.(t := w.t.(queue := queue))
    case Complete(config, o, lease, v, recheck, now) =>
      && o != "" && now != 0 && Queue.ValidVerdict(v) && recheck > 0
      && o in w.t.queue && Queue.Holds(w.t.queue[o], lease, now) && Queue.Unblocked(w.t.queue[o], Blocked(w.t, o))
      && w' == w.(t := VerificationQueue.Completed(config, w.t, o, lease, v, recheck, now),
                  histories := w.histories[o := HistoryOf(w.histories, o) + [Check(now, v.outcome, v.declared)]])
    case AddSeed(o) => w' == w.(t := DiscoveryStore.Seeded(w.t, o))
    case RemoveSeed(o) => w' == w.(t := DiscoveryStore.Unseeded(w.t, o))
    case Discover(evidence, now) => w' == w.(t := DiscoveryStore.Discoveries(w.t, evidence, now))
    case Purge(cutoff) => w' == w.(t := DiscoveryStore.WithoutOld(w.t, cutoff))
    case SetBlock(p, o, blocked) => w' == w.(t := w.t.(states := Blocking(w.t, p, o, blocked)))
    case RecomputeBlocks(p) => w' == w.(t := w.t.(states := CrawlBlocks.Recomputed(p, w.t.states)))
    case OnSource(o, op, now) =>
      && SourceLease.Effective(StateOf(w.t, o).source, op, now) && (op.DoClaim? ==> o in w.t.schedule)
      && w' == w.(t := w.t.(states :=
           w.t.states[o := StateOf(w.t, o).(source := SourceLease.Apply(StateOf(w.t, o).source, op, now))]))
    case _ => AdmissionStep(a, w, w')
  }

  predicate Admits(a: Action) {
    a.StartRun? || a.FinishRun? || a.PurgeRuns? || a.ScheduleProbes? || a.Allocate? || a.CompleteBatch?
  }

  /** Any transactions with any clock readings. */
  ghost predicate Run(ws: seq<World>, acts: seq<Action>) {
    && |ws| == |acts| + 1 && ws[0] == EMPTY_STORE
    && forall i, j :: 0 <= i && j == i + 1 && j < |ws| ==> Step(acts[i], ws[i], ws[j])
  }

  /** A completion whose time is before a check that decides otherwise. */
  predicate Breaks(a: Action, w: World) {
    a.Complete? && DiscoverySchedule.OutOfOrder(FactsOf(w.t, a.o), a.now, a.verdict.outcome)
  }

  // ---- What every run keeps -----------------------------------------------------------------

  function CountOf(ps: seq<Promotion>, r: nat): nat {
    if ps == [] then 0 else CountOf(ps[..|ps| - 1], r) + (if ps[|ps| - 1].run == r then 1 else 0)
  }

  /** The counters of the crawl runs are the promotions they made, and no crawl run ever made more than its budget. */
  ghost predicate Accounted(w: World) {
    && (forall r :: r in w.runs ==>
          r < |w.budgets| && w.runs[r].budget == w.budgets[r] && w.runs[r].promotions == CountOf(w.promotions, r))
    && (forall r :: 0 <= r < |w.budgets| ==> CountOf(w.promotions, r) <= w.budgets[r])
    && (forall r :: |w.budgets| <= r ==> CountOf(w.promotions, r) == 0)
  }

  /** Every origin ever promoted is an automatic source still, and none was promoted twice. */
  ghost predicate PromotedOnceEver(ps: seq<Promotion>, t: Tables) {
    && (forall i :: 0 <= i < |ps| ==> StateOf(t, ps[i].origin).automatic)
    && forall i, j :: 0 <= i < j < |ps| ==> ps[i].origin != ps[j].origin
  }

  ghost predicate AdmissionHolds(w: World) {
    && Admission.RunsHold(w.runs, w.t.candidates.Keys) && Admission.PromotedOnce(w.runs, w.t)
    && Accounted(w) && PromotedOnceEver(w.promotions, w.t)
  }

  /** Every ledger answers for the whole history of its origin, which is a real one. */
  ghost predicate Recorded(w: World) { LedgersAgree(w.t.ledgers, w.histories) && "" !in w.t.ledgers }

  ghost predicate Inv(w: World) { Recorded(w) && AdmissionHolds(w) }

  /** Automatic sources stay automatic, and candidates stay known. */
  ghost predicate Grows(t: Tables, t': Tables) {
    t.candidates.Keys <= t'.candidates.Keys && forall o :: StateOf(t, o).automatic ==> StateOf(t', o).automatic
  }

  lemma RunsGrow(runs: map<nat, Admission.CrawlRun>, ps: seq<Promotion>, t: Tables, t': Tables)
    requires Grows(t, t') && Admission.RunsHold(runs, t.candidates.Keys) &&
      Admission.PromotedOnce(runs, t) && PromotedOnceEver(ps, t)
    ensures Admission.RunsHold(runs, t'.candidates.Keys) && Admission.PromotedOnce(runs, t') && PromotedOnceEver(ps, t')
  {
    hide StateOf, Admission.Promotes, Admission.PromotedIn;
  }

  // ---- Transactions outside admission ----------------------------------------------------------

  lemma CompleteKeeps(a: Action, w: World, w': World)
    requires Recorded(w) && a.Complete? && Step(a, w, w')
    ensures Recorded(w')
    ensures AllJustified(w.t) ==> (AllJustified(w'.t) <==> !Breaks(a, w))
  {
    hide LedgersAgree, AllJustified, Record, Queue.Complete, FactsOf, DiscoverySchedule.OutOfOrder;
    if AllJustified(w.t) {
      VerificationQueue.CompletionKeeps(a.config, w.t, a.o, a.lease, a.verdict, a.recheck, a.now);
    }
    LedgersNext(w.t.ledgers, w.histories, a.o, Check(a.now, a.verdict.outcome, a.verdict.declared));
  }

  lemma OneStateIsAlike(t: Tables, o: string, s: SourceState)
    requires s.seeded == StateOf(t, o).seeded && s.automatic == StateOf(t, o).automatic
    ensures Alike(t.states, t.states[o := s])
  {
  }

  lemma StatesAlike(a: Action, w: World, w': World)
    requires Step(a, w, w') && (a.SetBlock? || a.RecomputeBlocks? || a.OnSource?)
    ensures Alike(w.t.states, w'.t.states) && w' == w.(t := w.t.(states := w'.t.states))
  {
    hide Alike, CrawlBlocks.Due, CrawlBlocks.Recomputed, SourceLease.Apply, SourceLease.Effective, StateOf;
    match a {
      case RecomputeBlocks(p) => CrawlBlocks.RecomputedIsAlike(p, w.t.states);
      case SetBlock(p, o, blocked) =>
        OneStateIsAlike(w.t, o,
          CrawlBlocks.Settle(p, o, StateOf(w.t, o).(operatorBlocked := blocked, blocked := blocked)));
      case OnSource(o, op, now) =>
        OneStateIsAlike(w.t, o, StateOf(w.t, o).(source := SourceLease.Apply(StateOf(w.t, o).source, op, now)));
    }
  }

  lemma AlikeGrows(t: Tables, states: map<string, SourceState>)
    requires Alike(t.states, states)
    ensures Grows(t, t.(states := states))
  {
  }

  lemma SeedsGrow(t: Tables, o: string)
    ensures Grows(t, DiscoveryStore.Seeded(t, o)) && DiscoveryStore.Seeded(t, o).ledgers == t.ledgers
    ensures Grows(t, DiscoveryStore.Unseeded(t, o)) && DiscoveryStore.Unseeded(t, o).ledgers == t.ledgers
  {
    hide FactsOf;
  }

  lemma {:induction false} DiscoveriesGrow(t: Tables, evidence: seq<DiscoveryStore.Evidence>, now: int)
    ensures Grows(t, DiscoveryStore.Discoveries(t, evidence, now))
  {
    if evidence != [] {
      DiscoveriesGrow(t, evidence[..|evidence| - 1], now);
      hide FactsOf;
    }
  }

  lemma CompletedGrows(config: Queue.Config, t: Tables, o: string, lease: Queue.Lease, v: Queue.Verdict, recheck: int,
                       now: int)
    requires o in t.queue
    ensures Grows(t, VerificationQueue.Completed(config, t, o, lease, v, recheck, now))
  {
    hide FactsOf, Record, Queue.Complete;
  }

  /** Transactions that change neither ledgers nor crawl runs. */
  lemma TableStepKeeps(a: Action, w: World, w': World)
    requires Step(a, w, w') && !Admits(a) && !a.Complete? && !a.Purge?
    ensures Grows(w.t, w'.t) && w'.t.ledgers == w.t.ledgers && w' == w.(t := w'.t)
    ensures AllJustified(w.t) ==> AllJustified(w'.t)
  {
    if a.SetBlock? || a.RecomputeBlocks? || a.OnSource? {
      StatesAlike(a, w, w');
      hide Step, Alike, Grows, AllJustified;
      if AllJustified(w.t) { StatesAreSeparate(w.t, w'.t.states); }
      AlikeGrows(w.t, w'.t.states);
    } else {
      hide AllJustified, Grows, DiscoveryStore.Seeded, DiscoveryStore.Unseeded, DiscoveryStore.Discoveries;
      match a
      case OnQueue(queue) =>
        if AllJustified(w.t) { QueueIsSeparate(w.t, queue); }
        QueueGrows(w.t, queue);
      case AddSeed(o) =>
        if AllJustified(w.t) { DiscoveryStore.SeedsKeep(w.t, o); }
        SeedsGrow(w.t, o);
      case RemoveSeed(o) =>
        if AllJustified(w.t) { DiscoveryStore.SeedsKeep(w.t, o); }
        SeedsGrow(w.t, o);
      case Discover(evidence, now) =>
        if AllJustified(w.t) { DiscoveryStore.DiscoveriesKeep(w.t, evidence, now); }
        DiscoveryStore.DiscoveriesFrame(w.t, evidence, now);
        DiscoveriesGrow(w.t, evidence, now);
    }
  }

  /** What any transaction outside admission does: it records, and leaves the runs to themselves. */
  lemma PlainStepKeeps(a: Action, w: World, w': World)
    requires Recorded(w) && Step(a, w, w') && !Admits(a)
    ensures Recorded(w') && Grows(w.t, w'.t) && (AllJustified(w.t) ==> (AllJustified(w'.t) <==> !Breaks(a, w)))
    ensures w'.runs == w.runs && w'.durable == w.durable && w'.budgets == w.budgets && w'.promotions == w.promotions
  {
    hide LedgersAgree, AllJustified, Grows, VerificationQueue.Completed, DiscoverySchedule.OutOfOrder, FactsOf;
    if a.Complete? {
      CompleteKeeps(a, w, w');
      CompletedGrows(a.config, w.t, a.o, a.lease, a.verdict, a.recheck, a.now);
    } else if a.Purge? {
      DiscoveryStore.PurgeKeeps(w.t, w.histories, a.cutoff);
      PurgeGrows(w.t, a.cutoff);
    } else {
      hide Step;
      TableStepKeeps(a, w, w');
    }
  }

  lemma QueueGrows(t: Tables, queue: map<string, Queue.Row>)
    ensures Grows(t, t.(queue := queue))
  {
  }

  lemma PurgeGrows(t: Tables, cutoff: int)
    ensures Grows(t, DiscoveryStore.WithoutOld(t, cutoff))
  {
  }

  // ---- Admission ---------------------------------------------------------------------------------

  lemma {:induction false} CountTagged(ps: seq<Promotion>, r: nat, origins: seq<string>, s: nat)
    ensures CountOf(ps + Tagged(r, origins), s) == CountOf(ps, s) + (if s == r then |origins| else 0)
  {
    if origins == [] {
      assert ps + [] == ps;
    } else {
      var k := |origins| - 1;
      CountTagged(ps, r, origins[..k], s);
      var shorter, all := ps + Tagged(r, origins[..k]), ps + Tagged(r, origins);
      assert all == shorter + [Promotion(r, origins[k])];
      assert all[..|all| - 1] == shorter;
    }
  }

  lemma {:induction false} TaggedAt(r: nat, origins: seq<string>)
    ensures |Tagged(r, origins)| == |origins| && forall i :: 0 <= i < |origins| ==>
      Tagged(r, origins)[i] == Promotion(r, origins[i])
  {
    if origins != [] { TaggedAt(r, origins[..|origins| - 1]); }
  }

  /** Promotions of origins that were not automatic before cannot repeat an earlier one. */
  lemma EverNext(ps: seq<Promotion>, t: Tables, t': Tables, r: nat, origins: seq<string>)
    requires PromotedOnceEver(ps, t) && Grows(t, t')
    requires forall i :: 0 <= i < |origins| ==> !StateOf(t, origins[i]).automatic && StateOf(t', origins[i]).automatic
    requires forall i, j :: 0 <= i < j < |origins| ==> origins[i] != origins[j]
    ensures PromotedOnceEver(ps + Tagged(r, origins), t')
  {
    TaggedAt(r, origins);
    hide StateOf, Tagged;
  }

  /** The transaction starts from what the invariant gives, and ends with everything admission establishes. */
  lemma BatchAdmitted(w: World, r: nat, env: Admission.Env, order: seq<string>)
    requires Inv(w) && r in w.runs && env.budget == w.runs[r].budget
    requires Admission.InOrder(order, Admission.PendingIn(w.runs[r].batch)) && ToSet(order) <= w.t.candidates.Keys
    ensures var start := Start(w, r, env.at);
            Admission.Admitted(env, start, Admission.AdmitAll(env, start, order), Admission.PendingIn(start.batch))
  {
    hide Recorded, Admission.PromotedOnce, Accounted, PromotedOnceEver, Admission.Admitted, Admission.AdmitAll;
    hide Admission.ActiveProbes;
    var start := Start(w, r, env.at);
    Admission.AdmissionStarts(env, start, w.runs[r]);
    Admission.AdmitAllHolds(env, start, order, |order|);
    assert order[..|order|] == order;
  }

  lemma DecidedGrows(w: World, r: nat, env: Admission.Env, order: seq<string>)
    requires Inv(w) && r in w.runs && env.budget == w.runs[r].budget
    requires Admission.InOrder(order, Admission.PendingIn(w.runs[r].batch)) && ToSet(order) <= w.t.candidates.Keys
    ensures var t' := Decided(w, r, env, order).t;
            t'.ledgers == w.t.ledgers && Grows(w.t, t') && (AllJustified(w.t) ==> AllJustified(t'))
  {
    BatchAdmitted(w, r, env, order);
    hide Inv, Admission.AdmitAll, AllJustified, StateOf, Admission.Budgeted, Admission.Capped, Admission.Installed;
    hide Admission.Promotions;
  }

  lemma InvMeans(w: World)
    requires Inv(w)
    ensures Recorded(w) && AdmissionHolds(w)
  {
  }

  /** Promotions made by one run, within its budget, are accounted for. */
  lemma AccountedNext(w: World, r: nat, ps: seq<string>, batch: map<string, Admission.Outcome>, w': World)
    requires Accounted(w) && r in w.runs && w.runs[r].promotions + |ps| <= w.runs[r].budget
    requires w'.runs == w.runs[r := w.runs[r].(promotions := w.runs[r].promotions + |ps|, batch := batch)]
    requires w'.budgets == w.budgets && w'.promotions == w.promotions + Tagged(r, ps)
    ensures Accounted(w')
  {
    hide CountOf, Tagged;
    forall s: nat ensures CountOf(w'.promotions, s) == CountOf(w.promotions, s) + (if s == r then |ps| else 0) {
      CountTagged(w.promotions, r, ps, s);
    }
  }

  lemma DecidedAccounted(w: World, r: nat, env: Admission.Env, order: seq<string>)
    requires Inv(w) && r in w.runs && env.budget == w.runs[r].budget
    requires Admission.InOrder(order, Admission.PendingIn(w.runs[r].batch)) && ToSet(order) <= w.t.candidates.Keys
    ensures Accounted(Decided(w, r, env, order)) &&
      PromotedOnceEver(Decided(w, r, env, order).promotions, Decided(w, r, env, order).t)
  {
    hide Inv, Recorded, Accounted, PromotedOnceEver, Grows, Tagged, ToSet, AllJustified;
    hide Admission.InOrder, Admission.AdmitAll, Admission.Promotions, Admission.Admitted, Admission.RunsHold;
    hide Admission.PromotedOnce, Admission.ActiveProbes, Admission.PendingIn;
    BatchAdmitted(w, r, env, order);
    DecidedGrows(w, r, env, order);
    InvMeans(w);
    var start, w' := Start(w, r, env.at), Decided(w, r, env, order);
    var after, ps := Admission.AdmitAll(env, start, order), Admission.Promotions(env, start, order);
    Admission.PromotionsHold(env, start, order);
    Admission.BatchIsDecided(env, start, after);
    hide Admission.Installed, StateOf;
    EverNext(w.promotions, w.t, after.t, r, ps);
    AccountedNext(w, r, ps, after.batch, w');
  }

  lemma DecidedRuns(w: World, r: nat, env: Admission.Env, order: seq<string>)
    requires Inv(w) && r in w.runs && env.budget == w.runs[r].budget
    requires Admission.InOrder(order, Admission.PendingIn(w.runs[r].batch)) && ToSet(order) <= w.t.candidates.Keys
    ensures var w' := Decided(w, r, env, order);
            Admission.RunsHold(w'.runs, w'.t.candidates.Keys) && Admission.PromotedOnce(w'.runs, w'.t)
  {
    BatchAdmitted(w, r, env, order);
    InvMeans(w);
    hide Inv, Recorded, Admission.AdmitAll, Admission.Promotions, Admission.Admitted, Accounted, PromotedOnceEver;
    var start := Start(w, r, env.at);
    Admission.CompletionKeeps(w.runs, r, env, start, Admission.AdmitAll(env, start, order));
  }

  lemma BatchKeepsInv(a: Action, w: World, w': World)
    requires Inv(w) && Step(a, w, w') && a.CompleteBatch?
    ensures Inv(w')
  {
    assert w' == Decided(w, a.r, a.env, a.order) && w'.histories == w.histories;
    DecidedGrows(w, a.r, a.env, a.order);
    DecidedAccounted(w, a.r, a.env, a.order);
    DecidedRuns(w, a.r, a.env, a.order);
    hide Decided, Step, LedgersAgree, Accounted, PromotedOnceEver, Admission.RunsHold, Admission.PromotedOnce, Grows,
         AllJustified;
  }

  lemma AllocationKeepsRuns(w: World, r: nat, policy: CrawlBlocks.Policy, pool: seq<string>, now: int)
    requires AdmissionHolds(w) && Active(w, r)
    requires Admission.InOrder(pool, set o | o in w.t.candidates &&
      Admission.Eligible(w.t, policy, w.durable, w.runs[r].batch, now, o))
    ensures var run := w.runs[r];
            var after := run.(batch :=
              Admission.Allocated(run.batch, Admission.Fitting(pool, run.budget - |run.batch.Keys|)));
            AdmissionHolds(w.(runs := w.runs[r := after]))
  {
    hide Admission.InOrder, Admission.Eligible, Admission.Allocated, Admission.PromotedIn, Admission.PromotedOnce,
         CountOf, StateOf, PromotedOnceEver;
    var run := w.runs[r];
    var chosen := Admission.Fitting(pool, run.budget - |run.batch.Keys|);
    Admission.PoolIsKnown(w.t, policy, w.durable, run.batch, now, pool, |chosen|);
    Admission.AllocationKeeps(run, w.t.candidates.Keys, chosen);
    var after := run.(batch := Admission.Allocated(run.batch, chosen));
    Admission.SamePromotions(run, after);
    Admission.RunReplaced(w.runs, r, after, w.t);
    hide Admission.RunsHold, Admission.RunHolds;
  }

  /** Changing the queue alone. */
  lemma QueueKeeps(w: World, queue: map<string, Queue.Row>)
    requires Inv(w)
    ensures Inv(w.(t := w.t.(queue := queue)))
  {
    hide LedgersAgree, Admission.RunsHold, Admission.PromotedOnce, PromotedOnceEver, Grows, CountOf;
    QueueGrows(w.t, queue);
    RunsGrow(w.runs, w.promotions, w.t, w.t.(queue := queue));
  }

  lemma AllocateKeepsInv(a: Action, w: World, w': World)
    requires Inv(w) && Step(a, w, w') && a.Allocate?
    ensures Inv(w')
  {
    hide Recorded, AdmissionHolds, Admission.InOrder, Admission.Eligible, Admission.RedirectOnly;
    hide Admission.WithProbes, Admission.Allocated, Admission.ActiveProbes, Admission.Fitting;
    assert w'.runs == w.runs[a.r := w'.runs[a.r]] && Recorded(w.(runs := w'.runs)) by { RecordedAlone(w, w'.runs); }
    AllocationKeepsRuns(w, a.r, a.policy, a.pool, a.now);
    QueueKeeps(w.(runs := w'.runs), w'.t.queue);
  }

  lemma ProbesKeepInv(a: Action, w: World, w': World)
    requires Inv(w) && Step(a, w, w') && a.ScheduleProbes?
    ensures Inv(w')
  {
    hide Inv, Admission.WithProbes, Admission.NewProbes, Admission.ActiveProbes, Admission.Fitting;
    QueueKeeps(w, w'.t.queue);
  }

  /** A run that is new, or has the budget and the counter it had, is accounted for. */
  lemma AccountedStart(w: World, budget: nat, run: Admission.CrawlRun)
    requires Accounted(w) && run.budget == budget && run.promotions == 0
    ensures Accounted(w.(runs := w.runs[|w.budgets| := run], budgets := w.budgets + [budget]))
  {
    hide CountOf;
  }

  lemma AccountedReplaced(w: World, r: nat, run: Admission.CrawlRun)
    requires Accounted(w) && r in w.runs && run.budget == w.runs[r].budget && run.promotions == w.runs[r].promotions
    ensures Accounted(w.(runs := w.runs[r := run]))
  {
    hide CountOf;
  }

  lemma RecordedAlone(w: World, runs: map<nat, Admission.CrawlRun>)
    requires Recorded(w)
    ensures Recorded(w.(runs := runs))
  {
    hide LedgersAgree;
  }

  lemma NewRunHolds(budget: nat, candidates: set<string>)
    ensures var run := Admission.CrawlRun(budget, 0, false, map[]);
            Admission.RunHolds(run, candidates) && forall o :: !Admission.Promotes(run, o)
  {
    assert Admission.PromotedIn(map[]) == {};
  }

  lemma StartKeepsInv(a: Action, w: World, w': World)
    requires Inv(w) && Step(a, w, w') && a.StartRun?
    ensures Inv(w')
  {
    hide LedgersAgree, Accounted, Admission.RunsHold, Admission.RunHolds, Admission.Promotes, Admission.PromotedOnce,
         PromotedOnceEver;
    var run := Admission.CrawlRun(a.budget, 0, false, map[]);
    NewRunHolds(a.budget, w.t.candidates.Keys);
    Admission.RunReplaced(w.runs, |w.budgets|, run, w.t);
    AccountedStart(w, a.budget, run);
  }

  lemma FinishKeepsInv(a: Action, w: World, w': World)
    requires Inv(w) && Step(a, w, w') && a.FinishRun?
    ensures Inv(w')
  {
    hide LedgersAgree, Accounted, Admission.PromotedOnce, PromotedOnceEver, Admission.PromotedIn;
    var run := w.runs[a.r].(finished := true);
    Admission.RunReplaced(w.runs, a.r, run, w.t);
    AccountedReplaced(w, a.r, run);
    hide Admission.RunsHold, Admission.RunHolds;
  }

  lemma FewerRows(run: Admission.CrawlRun, rows: set<string>, candidates: set<string>)
    requires Admission.RunHolds(run, candidates)
    ensures Admission.RunHolds(run.(batch := run.batch - rows), candidates)
    ensures forall o :: Admission.Promotes(run.(batch := run.batch - rows), o) ==> Admission.Promotes(run, o)
  {
    var fewer := run.batch - rows;
    SubsetCard(fewer.Keys, run.batch.Keys);
    SubsetCard(Admission.PromotedIn(fewer), Admission.PromotedIn(run.batch));
  }

  /** Of the runs that remain, each is within its budget and promotes nothing it did not before. */
  ghost predicate Fewer(w: World, runs: map<nat, Admission.CrawlRun>) {
    forall r :: r in runs ==>
      && r in w.runs && Admission.RunHolds(runs[r], w.t.candidates.Keys)
      && runs[r].budget == w.runs[r].budget && runs[r].promotions == w.runs[r].promotions
      && forall o :: Admission.Promotes(runs[r], o) ==> Admission.Promotes(w.runs[r], o)
  }

  lemma RemainingAreFewer(w: World, gone: set<nat>, lost: map<nat, set<string>>)
    requires Admission.RunsHold(w.runs, w.t.candidates.Keys)
    ensures Fewer(w, Remaining(w.runs, gone, lost))
  {
    hide Admission.RunHolds, Admission.Promotes;
    forall r | r in w.runs && r in lost
      ensures Admission.RunHolds(w.runs[r].(batch := w.runs[r].batch - lost[r]), w.t.candidates.Keys)
      ensures forall o :: Admission.Promotes(w.runs[r].(batch := w.runs[r].batch - lost[r]), o) ==>
        Admission.Promotes(w.runs[r], o)
    {
      FewerRows(w.runs[r], lost[r], w.t.candidates.Keys);
    }
  }

  lemma FewerKeep(w: World, runs: map<nat, Admission.CrawlRun>)
    requires Fewer(w, runs) && Admission.PromotedOnce(w.runs, w.t) && Accounted(w)
    ensures Admission.RunsHold(runs, w.t.candidates.Keys) && Admission.PromotedOnce(runs, w.t) &&
      Accounted(w.(runs := runs))
  {
    hide CountOf, StateOf, Admission.RunHolds, Admission.Promotes;
  }

  lemma PurgeRunsKeepsInv(a: Action, w: World, w': World)
    requires Inv(w) && Step(a, w, w') && a.PurgeRuns?
    ensures Inv(w')
  {
    hide LedgersAgree, PromotedOnceEver, Accounted, Fewer, Remaining, Admission.RunsHold, Admission.PromotedOnce;
    RemainingAreFewer(w, a.gone, a.lost);
    FewerKeep(w, w'.runs);
  }

  /** Admission keeps the rule whenever it held. */
  lemma AdmissionKeepsRule(a: Action, w: World, w': World)
    requires Inv(w) && Step(a, w, w') && Admits(a) && AllJustified(w.t)
    ensures AllJustified(w'.t)
  {
    hide Inv, AllJustified, FactsOf, Remaining, Decided, Active, ToSet, Admission.WithProbes, Admission.NewProbes,
         Admission.Fitting;
    hide Admission.InOrder, Admission.Eligible, Admission.RedirectOnly, Admission.Allocated, Admission.Room,
         Admission.PendingIn;
    if a.CompleteBatch? {
      BatchKeepsRule(a, w, w');
    } else if a.ScheduleProbes? || a.Allocate? {
      QueueIsSeparate(w.t, w'.t.queue);
    }
  }

  lemma BatchKeepsRule(a: Action, w: World, w': World)
    requires Inv(w) && Step(a, w, w') && a.CompleteBatch? && AllJustified(w.t)
    ensures AllJustified(w'.t)
  {
    DecidedGrows(w, a.r, a.env, a.order);
    hide Inv, Decided, AllJustified, Admission.InOrder, Admission.PendingIn, ToSet;
  }

  /** Every transaction keeps the records and the runs, whatever its clock reads. */
  lemma StepKeepsInv(a: Action, w: World, w': World)
    requires Inv(w) && Step(a, w, w')
    ensures Inv(w')
  {
    hide Step;
    if !Admits(a) {
      hide Recorded, CountOf, Admission.RunsHold, Admission.PromotedOnce, PromotedOnceEver, Grows, AllJustified, Breaks;
      PlainStepKeeps(a, w, w');
      RunsGrow(w.runs, w.promotions, w.t, w'.t);
    } else {
      hide Inv;
      match a
      case StartRun(_) => StartKeepsInv(a, w, w');
      case FinishRun(_) => FinishKeepsInv(a, w, w');
      case PurgeRuns(_, _) => PurgeRunsKeepsInv(a, w, w');
      case ScheduleProbes(_, _, _, _, _) => ProbesKeepInv(a, w, w');
      case Allocate(_, _, _, _, _, _, _) => AllocateKeepsInv(a, w, w');
      case CompleteBatch(_, _, _) => BatchKeepsInv(a, w, w');
    }
  }

  /** And the schedule rule, except that a completion keeps it exactly when it is not out of order. */
  lemma StepKeepsRule(a: Action, w: World, w': World)
    requires Inv(w) && Step(a, w, w') && AllJustified(w.t)
    ensures AllJustified(w'.t) <==> !Breaks(a, w)
  {
    hide Step, Recorded, AdmissionHolds, AllJustified, Grows;
    if Admits(a) { AdmissionKeepsRule(a, w, w'); } else { PlainStepKeeps(a, w, w'); }
  }

  lemma StartHolds(w: World)
    requires w == EMPTY_STORE
    ensures Inv(w) && Ruled(w.t)
  {
    assert forall o :: FactsOf(w.t, o) == DiscoverySchedule.UNKNOWN;
  }

  lemma {:induction false} RunKeepsInv(ws: seq<World>, acts: seq<Action>, k: nat)
    requires Run(ws, acts) && k < |ws|
    ensures Inv(ws[k])
  {
    hide Inv, Step, Ruled;
    if k == 0 {
      StartHolds(ws[0]);
    } else {
      RunKeepsInv(ws, acts, k - 1);
      StepKeepsInv(acts[k - 1], ws[k - 1], ws[k]);
    }
  }

  // ---- The theorems ----------------------------------------------------------------------------------

  /**
   Up to any point of any run every origin was always scheduled exactly when it had a reason, if
   and only if no completion before that point was out of order.
   */
  lemma {:induction false} ScheduleHolds(ws: seq<World>, acts: seq<Action>, k: nat)
    requires Run(ws, acts) && k < |ws|
    ensures (forall i :: 0 <= i <= k ==> Ruled(ws[i].t)) <==> (forall i :: 0 <= i < k ==> !Breaks(acts[i], ws[i]))
  {
    hide Step, Breaks, Inv, Ruled, AllJustified;
    if k == 0 {
      StartHolds(ws[0]);
    } else {
      var j := k - 1;
      ScheduleHolds(ws, acts, j);
      RunKeepsInv(ws, acts, j);
      RunKeepsInv(ws, acts, k);
      RuleIsJustified(ws[j]);
      RuleIsJustified(ws[k]);
      if AllJustified(ws[j].t) { StepKeepsRule(acts[j], ws[j], ws[k]); }
    }
  }

  lemma RuleIsJustified(w: World)
    requires Inv(w)
    ensures Ruled(w.t) <==> AllJustified(w.t)
  {
    hide AdmissionHolds, LedgersAgree, Ruled, AllJustified;
    LedgersGround(w.t, w.histories);
  }

  /**
   In every reachable state of the store every ledger answers for the whole history of its
   origin, and the registry can be read and published; and as long as no completion was out of
   order, an origin is scheduled exactly when it has a reason.
   */
  lemma StoreHolds(ws: seq<World>, acts: seq<Action>, k: nat, rows: seq<string>, ps: seq<Registry.Participant>)
    requires Run(ws, acts) && k < |ws| && Registry.IsQuery(ws[k].t.ledgers, rows)
    requires |ps| == |rows| && forall i :: 0 <= i < |rows| ==>
      var row := Registry.ScanLedger(rows[i], ws[k].t.ledgers[rows[i]]); row.Ok? ==> Ok(ps[i]) == row
    ensures LedgersAgree(ws[k].t.ledgers, ws[k].histories)
    ensures forall i :: 0 <= i < |rows| ==> Registry.ScanLedger(rows[i], ws[k].t.ledgers[rows[i]]).Ok?
    ensures Registry.Publishable(ps)
    ensures (forall i :: 0 <= i < k ==> !Breaks(acts[i], ws[i])) ==>
      forall o :: o in ws[k].t.schedule <==> DiscoverySchedule.Reason(FactsOf(ws[k].t, o))
  {
    RunKeepsInv(ws, acts, k);
    ScheduleHolds(ws, acts, k);
    assert (forall i :: 0 <= i < k ==> !Breaks(acts[i], ws[i])) ==> Ruled(ws[k].t);
    hide Run, AdmissionHolds, Breaks, FactsOf, Registry.ScanLedger, Registry.Publishable, Reflects, AllAdmissible;
    Registry.RegistryAlwaysBuilds(ws[k].t.ledgers, ws[k].histories, rows, ps);
  }

  /**
   In every reachable state: every crawl run's batch and promotions are within its budget, its
   counter is the number of promotions it made, no crawl run ever started made more than its
   budget, and no origin was ever promoted twice.
   */
  lemma BudgetsHold(ws: seq<World>, acts: seq<Action>, k: nat)
    requires Run(ws, acts) && k < |ws|
    ensures forall r :: r in ws[k].runs ==>
      && |ws[k].runs[r].batch.Keys| <= ws[k].runs[r].budget && ws[k].runs[r].promotions <= ws[k].runs[r].budget
      && ws[k].runs[r].promotions == CountOf(ws[k].promotions, r)
    ensures forall r :: 0 <= r < |ws[k].budgets| ==> CountOf(ws[k].promotions, r) <= ws[k].budgets[r]
    ensures PromotedOnceEver(ws[k].promotions, ws[k].t) && Admission.PromotedOnce(ws[k].runs, ws[k].t)
  {
    RunKeepsInv(ws, acts, k);
    hide Run, Recorded, Admission.PromotedOnce, PromotedOnceEver, CountOf;
  }

  /**
   Every step that queues probes, in any state, keeps the active ones within the larger of their
   old number and the limit.
   */
  lemma ProbesStayCapped(a: Action, w: World, w': World)
    requires (a.ScheduleProbes? || a.Allocate?) && Step(a, w, w')
    ensures |Admission.ActiveProbes(w'.t.queue, a.at)| <= Max(|Admission.ActiveProbes(w.t.queue, a.at)|, a.limit)
  {
    hide Admission.ActiveProbes, Admission.WithProbes, Admission.NewProbes, Admission.InOrder, Admission.RedirectOnly;
    hide Admission.Allocated, Admission.Fitting, Admission.Eligible, Admission.Room;
    if a.ScheduleProbes? {
      Admission.FittingKeepsCap(w.t, a.limit, a.at, Admission.NewProbes(w.t, a.policy, a.origins), a.availableAt);
    } else {
      Admission.FittingKeepsCap(w.t, a.limit, a.at, a.redirects, a.now);
    }
  }

  /**
   Every completed batch of every run leaves nothing pending and the active probes within the
   larger of their old number and the limit; what it promotes was not automatic before and is
   installed after.
   */
  lemma BatchesAreDecided(ws: seq<World>, acts: seq<Action>, k: nat)
    requires Run(ws, acts) && k < |acts| && acts[k].CompleteBatch?
    ensures var a, w, w' := acts[k], ws[k], ws[k + 1];
            && a.r in w.runs && a.r in w'.runs && Admission.PendingIn(w'.runs[a.r].batch) == {}
            && (forall o | o in Admission.PromotedIn(w'.runs[a.r].batch) - Admission.PromotedIn(w.runs[a.r].batch) ::
                  !StateOf(w.t, o).automatic && Admission.Installed(a.env, w'.t, o))
            && |Admission.ActiveProbes(w'.t.queue, a.env.at)| <=
                 Max(|Admission.ActiveProbes(w.t.queue, a.env.at)|, a.env.limit)
  {
    RunKeepsInv(ws, acts, k);
    var n := k + 1;
    var a, w, w' := acts[k], ws[k], ws[n];
    assert Step(a, w, w');
    hide Run, Inv, Admission.ActiveProbes, Admission.InOrder, Admission.AdmitAll, Admission.Promotions;
    hide Admission.Installed, Admission.PromotedIn, Admission.PendingIn, StateOf;
    var start := Start(w, a.r, a.env.at);
    BatchAdmitted(w, a.r, a.env, a.order);
    Admission.BatchIsDecided(a.env, start, Admission.AdmitAll(a.env, start, a.order));
  }

  /** The order of decisions is never of unknown candidates: the guard on a batch completion shuts nothing out. */
  lemma PendingAreKnown(ws: seq<World>, acts: seq<Action>, k: nat, r: nat, order: seq<string>)
    requires Run(ws, acts) && k < |ws| && r in ws[k].runs
    requires Admission.InOrder(order, Admission.PendingIn(ws[k].runs[r].batch))
    ensures ToSet(order) <= ws[k].t.candidates.Keys
  {
    RunKeepsInv(ws, acts, k);
    hide Run, Recorded, Accounted, PromotedOnceEver, Admission.PromotedOnce, ToSet;
    assert Admission.RunHolds(ws[k].runs[r], ws[k].t.candidates.Keys);
  }
}
