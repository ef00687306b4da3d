/**
 The crawl runner: a crawl under a source lease that a second process renews while the
 crawl runs. The two meet in a channel of one report, and everybody else may act on the
 source in between.
 */
module CrawlRunner {
  import opened Wrappers
  import opened Leases
  import Retry
  import SourceLease

  /**
   The runner: crawling, waiting for the renewal process to report, or finished with or without
   asking for completion.
   */
  datatype Runner = Crawling | AwaitingReport | Asked | Stopped

  /** The renewal process: waiting for its timer, inside a store call, or finished with its report sent. */
  datatype Renewer = Waiting | Renewing | Reported

  datatype Report = Report(generation: nat, failed: bool)

  /**
   A renewal the process took for failed: whether the fence refused it, and whether the crawl had
   returned by then.
   */
  datatype Failure = Failure(refused: bool, late: bool, at: int)

  /** A completion the store was asked for, and whether it took effect. */
  datatype Request = Request(generation: nat, at: int, accepted: bool)

  datatype World = World(runner: Runner, renewer: Renewer, channel: Option<Report>, current: nat,
                         renewalCanceled: bool, parentCanceled: bool,
                         source: SourceLease.Source, log: seq<Entry>, failure: Option<Failure>, requests: seq<Request>)

  datatype Action =
    | TimerFires
    | RenewalAnswers(now: int, duration: int, fault: Fault)
    | RenewerStops
    | CrawlReturns
    | ParentCanceled
    | ReportArrives(now: int, category: Retry.Category, retryAfter: int, fault: Fault)
    | OthersAct(op: SourceLease.Op, now: int)

  /** Another process acts on the source: any operation, but not under this claim's generation. */
  predicate Foreign(op: SourceLease.Op, claimed: nat) {
    (op.DoRenew? ==> op.generation != claimed) && (op.DoComplete? ==> op.generation != claimed)
  }

  predicate Running(w: World) { w.runner == Crawling || w.runner == AwaitingReport }

  /** An operation on the source, unless the request is lost. */
  function Act(w: World, op: SourceLease.Op, now: int, fault: Fault): World {
    if fault == RequestLost then w
    else w.(source := SourceLease.Apply(w.source, op, now), log := w.log + SourceLease.Logged(w.source, op, now))
  }

  /**
   The answer to a renewal: the process goes on, or reports; a failure after cancellation is
   reported as none. A renewal whose answer is lost has taken effect all the same.
   */
  function Answered(w: World, now: int, duration: int, fault: Fault): World {
    var op := SourceLease.DoRenew(w.current, duration);
    var refused := fault != RequestLost && !SourceLease.Effective(w.source, op, now);
    var after := Act(w, op, now, fault);
    if fault == NoFault && !refused then after.(renewer := Waiting)
    else after.(renewer := Reported, failure := Some(Failure(refused, w.renewalCanceled, now)),
                channel := Some(Report(w.current, !(w.renewalCanceled || w.parentCanceled))))
  }

  /**
   The report read: the runner stops when its context ended or the renewal failed, and asks for
   completion otherwise.
   */
  function Read(w: World, r: Report, now: int, category: Retry.Category, retryAfter: int, fault: Fault): World {
    if w.parentCanceled || r.failed then w.(runner := Stopped, channel := None)
    else
      var op := SourceLease.DoComplete(r.generation, category, retryAfter);
      var accepted := fault != RequestLost && SourceLease.Effective(w.source, op, now);
      Act(w, op, now, fault).(runner := Asked, channel := None,
        requests := w.requests + [Request(r.generation, now, accepted)])
  }

  ghost predicate Step(claimed: nat, a: Action, w: World, w': World) {
    match a
    case TimerFires => w.renewer == Waiting && w' == w.(renewer := Renewing)
    case RenewalAnswers(now, duration, fault) => w.renewer == Renewing && duration > 0 &&
      w' == Answered(w, now, duration, fault)
    case RenewerStops =>
      && w.renewer == Waiting && (w.renewalCanceled || w.parentCanceled)
      && w' == w.(renewer := Reported, channel := Some(Report(w.current, false)))
    case CrawlReturns => w.runner == Crawling && w' == w.(runner := AwaitingReport, renewalCanceled := true)
    case ParentCanceled => Running(w) && w' == w.(parentCanceled := true)
    case ReportArrives(now, category, retryAfter, fault) =>
      && w.runner == AwaitingReport && w.channel.Some? && 0 <= retryAfter <= Retry.MAX_DELAY
      && w' == Read(w, w.channel.value, now, category, retryAfter, fault)
    case OthersAct(op, now) => Foreign(op, claimed) && w' == Act(w, op, now, NoFault)
  }

  ghost predicate Next(claimed: nat, w: World, w': World) { exists a :: Step(claimed, a, w, w') }

  /** The source is one that its own history of operations, the last of them this claim, has led to. */
  ghost predicate JustClaimed(claimed: nat, source: SourceLease.Source, log: seq<Entry>) {
    && (exists rs :: SourceLease.Run(rs) && rs[|rs| - 1] == SourceLease.World(source, log))
    && log != [] && log[|log| - 1].Claimed? && log[|log| - 1].gen == claimed == source.generation
  }

  /** From the claim on, every interleaving of the two processes and of everybody else. */
  ghost predicate Run(claimed: nat, ws: seq<World>) {
    && ws != [] && JustClaimed(claimed, ws[0].source, ws[0].log)
    && ws[0] == World(Crawling, Waiting, None, claimed, false, false, ws[0].source, ws[0].log, None, [])
    && forall i, j :: 0 <= i && j == i + 1 && j < |ws| ==> Next(claimed, ws[i], ws[j])
  }

  // ---- What every run keeps -----------------------------------------------------------------

  /** The two processes: one report, a failure only at its end, and the runner's decision by it. */
  ghost predicate Control(claimed: nat, w: World) {
    && w.current == claimed && (w.renewalCanceled <==> w.runner != Crawling)
    && (w.channel.Some? ==> w.renewer == Reported && w.channel.value.generation == claimed && Running(w))
    && (w.renewer != Reported ==> w.failure.None? && Running(w))
    && (w.renewer == Reported && w.channel.None? ==> !Running(w))
    && (w.channel.Some? && w.channel.value.failed ==> w.failure.Some? && !w.failure.value.late)
    && (w.channel.Some? && !w.channel.value.failed ==> w.parentCanceled || w.failure.None? || w.failure.value.late)
    && (!Running(w) ==> (w.runner == Asked <==> !w.parentCanceled && (w.failure.None? || w.failure.value.late)))
  }

  /** The requests: none before the runner asked, then one under the claimed generation. */
  ghost predicate Requested(claimed: nat, w: World) {
    if w.runner == Asked then |w.requests| == 1 && w.requests[0].generation == claimed else w.requests == []
  }

  /** The claim is over for the store at this time and ever after. */
  predicate Lost(s: SourceLease.Source, claimed: nat, at: int) {
    s.generation > claimed || (s.generation == claimed && (s.expires.None? || s.expires.value <= at))
  }

  ghost predicate Releases(log: seq<Entry>, claimed: nat) { exists i :: 0 <= i < |log| && log[i] == Released(claimed) }

  /**
   The store: fenced, past this claim or under it, lost to it after a refusal, and released exactly
   by its accepted request.
   */
  ghost predicate Stored(claimed: nat, w: World) {
    && SourceLease.Sound(SourceLease.World(w.source, w.log)) && w.source.generation >= claimed
    && (w.failure.Some? && w.failure.value.refused && w.requests == [] ==> Lost(w.source, claimed, w.failure.value.at))
    && (Releases(w.log, claimed) <==> w.requests != [] && w.requests[0].accepted)
    && (w.failure.Some? && w.failure.value.refused && w.requests != [] && w.requests[0].at >= w.failure.value.at ==>
          !w.requests[0].accepted)
  }

  ghost predicate Inv(claimed: nat, w: World) { Control(claimed, w) && Requested(claimed, w) && Stored(claimed, w) }

  lemma StepKeepsControl(claimed: nat, a: Action, w: World, w': World)
    requires Control(claimed, w) && Step(claimed, a, w, w')
    ensures Control(claimed, w')
  {
    hide SourceLease.Apply, SourceLease.Effective, SourceLease.Logged;
  }

  lemma StepKeepsRequested(claimed: nat, a: Action, w: World, w': World)
    requires Control(claimed, w) && Requested(claimed, w) && Step(claimed, a, w, w')
    ensures Requested(claimed, w')
  {
    hide SourceLease.Apply, SourceLease.Effective, SourceLease.Logged;
  }

  /** An operation on the source keeps it sound; only an accepted completion of the claim releases it. */
  lemma ActKeeps(claimed: nat, w: World, op: SourceLease.Op, now: int)
    requires SourceLease.Sound(SourceLease.World(w.source, w.log)) && w.source.generation >= claimed
    ensures var w' := Act(w, op, now, NoFault);
            && SourceLease.Sound(SourceLease.World(w'.source, w'.log)) && w'.source.generation >= claimed
            && (Releases(w'.log, claimed) <==>
                  Releases(w.log, claimed) ||
                    (op.DoComplete? && op.generation == claimed && SourceLease.Effective(w.source, op, now)))
  {
    var w' := Act(w, op, now, NoFault);
    assert SourceLease.Next(SourceLease.World(w.source, w.log), SourceLease.World(w'.source, w'.log));
    SourceLease.StepKeepsSound(SourceLease.World(w.source, w.log), SourceLease.World(w'.source, w'.log));
    hide SourceLease.Sound, SourceLease.Claimable, Retry.Transient;
    if SourceLease.Effective(w.source, op, now) {
      assert w'.log == w.log + [SourceLease.Logged(w.source, op, now)[0]];
      ReleasesMore(w.log, SourceLease.Logged(w.source, op, now)[0], claimed);
    } else {
      assert w.log + [] == w.log;
    }
  }

  lemma ReleasesMore(log: seq<Entry>, e: Entry, claimed: nat)
    ensures Releases(log + [e], claimed) <==> Releases(log, claimed) || e == Released(claimed)
  {
    if e == Released(claimed) { assert (log + [e])[|log|] == Released(claimed); }
    if i :| 0 <= i < |log| && log[i] == Released(claimed) { assert (log + [e])[i] == Released(claimed); }
  }

  /** Nobody else can give a lost claim back. */
  lemma LostStays(claimed: nat, s: SourceLease.Source, op: SourceLease.Op, now: int, at: int)
    requires Lost(s, claimed, at) && Foreign(op, claimed)
    ensures Lost(SourceLease.Apply(s, op, now), claimed, at)
  {
  }

  /** A refusal means the claim is lost; and a lost claim is not completed. */
  lemma RefusalLoses(claimed: nat, s: SourceLease.Source, duration: int, now: int)
    requires s.generation >= claimed && duration > 0
    ensures var op := SourceLease.DoRenew(claimed, duration);
            (SourceLease.Effective(s, op, now) <==> !Lost(s, claimed, now)) &&
              (Lost(s, claimed, now) ==> SourceLease.Apply(s, op, now) == s)
  {
  }

  lemma LostIsNotCompleted(claimed: nat, s: SourceLease.Source, category: Retry.Category, retryAfter: int, at: int,
                           now: int)
    requires Lost(s, claimed, at) && at <= now
    ensures !SourceLease.Effective(s, SourceLease.DoComplete(claimed, category, retryAfter), now)
  {
  }

  lemma StepKeepsStored(claimed: nat, a: Action, w: World, w': World)
    requires Inv(claimed, w) && Step(claimed, a, w, w')
    ensures Stored(claimed, w')
  {
    hide SourceLease.Apply, SourceLease.Effective, SourceLease.Logged, SourceLease.Sound, Releases, Lost;
    match a {
      case TimerFires =>
      case RenewerStops =>
      case CrawlReturns =>
      case ParentCanceled =>
      case RenewalAnswers(now, duration, fault) =>
        ActKeeps(claimed, w, SourceLease.DoRenew(w.current, duration), now);
        RefusalLoses(claimed, w.source, duration, now);
      case ReportArrives(now, category, retryAfter, fault) =>
        ActKeeps(claimed, w, SourceLease.DoComplete(claimed, category, retryAfter), now);
        if w.failure.Some? && w.failure.value.refused && w.failure.value.at <= now {
          LostIsNotCompleted(claimed, w.source, category, retryAfter, w.failure.value.at, now);
        }
      case OthersAct(op, now) =>
        ActKeeps(claimed, w, op, now);
        if w.failure.Some? && w.failure.value.refused && w.requests == [] {
          LostStays(claimed, w.source, op, now, w.failure.value.at);
        }
    }
  }

  lemma StepKeepsInv(claimed: nat, w: World, w': World)
    requires Inv(claimed, w) && Next(claimed, w, w')
    ensures Inv(claimed, w')
  {
    var a :| Step(claimed, a, w, w');
    hide Control, Requested, Stored, Step;
    StepKeepsControl(claimed, a, w, w');
    StepKeepsRequested(claimed, a, w, w');
    StepKeepsStored(claimed, a, w, w');
  }

  lemma StartHolds(claimed: nat, w: World)
    requires JustClaimed(claimed, w.source, w.log)
    requires w == World(Crawling, Waiting, None, claimed, false, false, w.source, w.log, None, [])
    ensures Inv(claimed, w)
  {
    var rs :| SourceLease.Run(rs) && rs[|rs| - 1] == SourceLease.World(w.source, w.log);
    SourceLease.RunKeepsSound(rs, |rs| - 1);
    hide SourceLease.Run;
    assert Fenced(w.log);
    assert forall i :: 0 <= i < |w.log| - 1 ==> w.log[i].gen < claimed;
  }

  lemma {:induction false} RunKeepsInv(claimed: nat, ws: seq<World>, k: nat)
    requires Run(claimed, ws) && k < |ws|
    ensures Inv(claimed, ws[k])
  {
    hide Inv, Next;
    if k == 0 {
      StartHolds(claimed, ws[0]);
    } else {
      RunKeepsInv(claimed, ws, k - 1);
      StepKeepsInv(claimed, ws[k - 1], ws[k]);
    }
  }

  // ---- What the runner guarantees --------------------------------------------------------------

  /**
   A claim is asked to be completed at most once and under its own generation, and the store
   releases it at most once, exactly when that request takes effect, answered or not.
   */
  lemma CompletesOnce(claimed: nat, ws: seq<World>, k: nat)
    requires Run(claimed, ws) && k < |ws|
    ensures |ws[k].requests| <= 1 && forall i :: 0 <= i < |ws[k].requests| ==> ws[k].requests[i].generation == claimed
    ensures Releases(ws[k].log, claimed) <==> ws[k].requests != [] && ws[k].requests[0].accepted
    ensures var log := ws[k].log;
            forall i, j :: 0 <= i < |log| && 0 <= j < |log| && log[i] == log[j] == Released(claimed) ==> i == j
  {
    RunKeepsInv(claimed, ws, k);
    hide Run;
    var log := ws[k].log;
    assert Fenced(log);
    forall i, j | 0 <= i < |log| && 0 <= j < |log| && log[i] == log[j] == Released(claimed) ensures i == j {
      OncePerGeneration(log, i, j);
    }
  }

  /** The runner asks exactly when its context lives and no renewal failed before the crawl returned. */
  lemma AsksExactly(claimed: nat, ws: seq<World>, k: nat)
    requires Run(claimed, ws) && k < |ws| && !Running(ws[k])
    ensures ws[k].requests != [] <==> !ws[k].parentCanceled && (ws[k].failure.None? || ws[k].failure.value.late)
  {
    RunKeepsInv(claimed, ws, k);
  }

  /**
   So it asks after a refused renewal if and only if the refusal was answered after the crawl
   returned and the context lives.
   */
  lemma AsksAfterRefusalExactly(claimed: nat, ws: seq<World>, k: nat)
    requires Run(claimed, ws) && k < |ws| && !Running(ws[k]) && ws[k].failure.Some? && ws[k].failure.value.refused
    ensures ws[k].requests != [] <==> ws[k].failure.value.late && !ws[k].parentCanceled
  {
    AsksExactly(claimed, ws, k);
  }

  /**
   And then the fence refuses: while time does not run backwards, no completion takes effect after
   a refused renewal.
   */
  lemma NothingAfterRefusal(claimed: nat, ws: seq<World>, k: nat)
    requires Run(claimed, ws) && k < |ws| && ws[k].failure.Some? && ws[k].failure.value.refused
    requires ws[k].requests != [] ==> ws[k].requests[0].at >= ws[k].failure.value.at
    ensures !Releases(ws[k].log, claimed)
  {
    RunKeepsInv(claimed, ws, k);
  }

  /** While the lease is unexpired nobody else changes the source. */
  lemma OthersCannotInterfere(claimed: nat, s: SourceLease.Source, op: SourceLease.Op, now: int)
    requires SourceLease.Holds(s, claimed, now) && Foreign(op, claimed)
    ensures SourceLease.Apply(s, op, now) == s
  {
  }

  // ---- A completion asked for after a refused renewal ----------------------------------------------

  lemma RunExtends(claimed: nat, ws: seq<World>, a: Action, w: World) returns (more: seq<World>)
    requires Run(claimed, ws) && Step(claimed, a, ws[|ws| - 1], w)
    ensures Run(claimed, more) && more == ws + [w]
  {
    more := ws + [w];
    assert Next(claimed, ws[|ws| - 1], w);
    hide Next, JustClaimed;
    forall i, j | 0 <= i && j == i + 1 && j < |more| ensures Next(claimed, more[i], more[j]) {
      if j < |ws| { assert Next(claimed, ws[i], ws[j]); }
    }
  }

  const ELIGIBLE := SourceLease.Eligibility(false, true, false, false, 0, 0)
  const CLAIMED := SourceLease.Source(1, Some(10), Some(0), None, 0, None)

  lemma ClaimedOnce()
    ensures JustClaimed(1, CLAIMED, [Claimed(1, 0, 10)])
  {
    var op := SourceLease.DoClaim(ELIGIBLE, 1, 10);
    var before, after := SourceLease.World(SourceLease.NEW_SOURCE, []), SourceLease.World(CLAIMED, [Claimed(1, 0, 10)]);
    assert SourceLease.Apply(before.source, op, 0) == CLAIMED &&
      SourceLease.Logged(before.source, op, 0) == [Claimed(1, 0, 10)];
    assert SourceLease.Next(before, after);
    assert SourceLease.Run([before, after]);
    assert [before, after][|[before, after]| - 1] == after;
  }

  /**
   The timer fires, the crawl returns, and only then the renewal is refused because the lease
   ran out at time ten: the runner asks for completion all the same, and the store refuses.
   */
  lemma LateRefusalStillAsks() returns (ws: seq<World>)
    ensures Run(1, ws)
    ensures var w := ws[|ws| - 1];
            w.failure == Some(Failure(true, true, 11)) && w.requests == [Request(1, 12, false)] && !Releases(w.log, 1)
  {
    ClaimedOnce();
    var w := World(Crawling, Waiting, None, 1, false, false, CLAIMED, [Claimed(1, 0, 10)], None, []);
    ws := [w];
    hide JustClaimed;
    w := w.(renewer := Renewing);
    ws := RunExtends(1, ws, TimerFires, w);
    w := w.(runner := AwaitingReport, renewalCanceled := true);
    ws := RunExtends(1, ws, CrawlReturns, w);
    w := w.(renewer := Reported, failure := Some(Failure(true, true, 11)), channel := Some(Report(1, false)));
    ws := RunExtends(1, ws, RenewalAnswers(11, 10, NoFault), w);
    w := w.(runner := Asked, channel := None, requests := [Request(1, 12, false)]);
    assert w.log + [] == w.log;
    ws := RunExtends(1, ws, ReportArrives(12, Retry.NoFailure, 0, NoFault), w);
  }
}
