/**
 The verification queue: one row per origin, leased to one worker at a time.

 Each operation is one database statement (or transaction) on the row; the
 functions give its effect. The clock reading of every operation is a parameter
 and nothing is assumed about how readings of different operations relate.
 */
module Queue {
  import opened Wrappers
  import opened Observations
  import Retry
  import opened Leases

  datatype Mode = Probe | Reprobe | Recurring

  datatype Config = Config(leaseDuration: int, minOriginInterval: int, firstReprobe: int)

  predicate ValidConfig(c: Config) { c.leaseDuration > 0 && c.minOriginInterval > 0 && c.firstReprobe >= 0 }

  const DEFAULT_FIRST_REPROBE: int := 12 * Retry.HOUR

  datatype Hold = Hold(worker: string, expires: int)

  datatype Row = Row(mode: Mode, availableAt: int, generation: nat, hold: Option<Hold>, lastClaimed: Option<int>,
                     failures: nat, category: Option<Retry.Category>, nextAttempt: Option<int>)

  /** What a worker is handed. */
  datatype Lease = Lease(worker: string, generation: nat, claimedAt: int, expiresAt: int)

  /** A verification result. */
  datatype Verdict = Verdict(outcome: Outcome, declared: Option<Declaration>, category: Retry.Category, retryAfter: int)

  /** The results completion accepts. */
  predicate ValidVerdict(v: Verdict) {
    && (v.outcome == Valid <==> v.declared.Some?) && (v.declared.Some? ==> v.declared.value.version == 1)
    && (v.outcome != Unavailable ==> v.category == Retry.NoFailure && v.retryAfter == 0)
    && 0 <= v.retryAfter <= Retry.MAX_DELAY
  }

  function NewRow(mode: Mode, availableAt: int): Row { Row(mode, availableAt, 0, None, None, 0, None, None) }

  predicate Leased(r: Row, now: int) { r.hold.Some? && r.hold.value.expires > now }

  /** Requested times are pushed past the politeness interval of the last claim. */
  function Polite(c: Config, r: Row, t: int): int {
    if r.lastClaimed.None? then t else Max(t, r.lastClaimed.value + c.minOriginInterval)
  }

  // ---- Operations on a row -------------------------------------------------------

  /** Explicit scheduling; an unexpired lease keeps its timing. */
  function Schedule(row: Option<Row>, at: int, now: int): Row {
    if row.None? then NewRow(Recurring, at)
    else
      var r := row.value;
      if Leased(r, now) then r.(mode := Recurring)
      else r.(mode := Recurring, availableAt := Min(r.availableAt, at), failures := 0,
        category := None, nextAttempt := None)
  }

  predicate Unblocked(r: Row, blocked: bool) { r.mode == Recurring || !blocked }

  predicate Claimable(c: Config, r: Row, now: int, blocked: bool) {
    && r.availableAt <= now && Unblocked(r, blocked)
    && (r.nextAttempt.Some? ==> r.nextAttempt.value <= now)
    && !Leased(r, now)
    && (r.lastClaimed.Some? ==> r.lastClaimed.value <= now - c.minOriginInterval)
  }

  function Claim(c: Config, r: Row, worker: string, now: int): Row {
    r.(generation := r.generation + 1, hold := Some(Hold(worker, now + c.leaseDuration)), lastClaimed := Some(now))
  }

  /** The fence every later operation of a worker must pass. */
  predicate Holds(r: Row, l: Lease, now: int) {
    r.hold.Some? && r.hold.value.worker == l.worker && r.generation == l.generation && r.hold.value.expires > now
  }

  function Renew(c: Config, r: Row, now: int): Row
    requires r.hold.Some?
  {
    r.(hold := Some(r.hold.value.(expires := Max(r.hold.value.expires, now + c.leaseDuration))))
  }

  function Reschedule(c: Config, r: Row, at: int): Row {
    r.(availableAt := Polite(c, r, at), failures := 0, category := None, nextAttempt := None, hold := None)
  }

  function Abandon(r: Row): Row { r.(hold := None) }

  function FailureCategory(v: Verdict): Retry.Category {
    if v.outcome == Unavailable && v.category == Retry.NoFailure then Retry.DeclarationUnavailable else v.category
  }

  predicate TransientFailure(v: Verdict) { v.outcome == Unavailable && Retry.Transient(FailureCategory(v)) }

  function FirstReprobe(c: Config): int { if c.firstReprobe == 0 then DEFAULT_FIRST_REPROBE else c.firstReprobe }

  /** What completion reads besides the row: past participation and recorded misses. */
  datatype Background = Background(participated: bool, misses: nat)

  function Requested(c: Config, r: Row, l: Lease, v: Verdict, recheck: int, now: int, b: Background): int {
    if TransientFailure(v)
    then Max(now + Retry.RetryWait(b.participated, r.failures + 1, v.retryAfter), l.claimedAt + c.minOriginInterval)
    else now + recheck
  }

  predicate Removes(r: Row, v: Verdict) {
    r.mode == Probe && v.outcome != Valid && !TransientFailure(v) && !ShouldReprobe(v.outcome)
  }

  /** Completion releases the lease and either keeps the row with its next due time or removes it. */
  function Complete(c: Config, r: Row, l: Lease, v: Verdict, recheck: int, now: int, b: Background): Option<Row> {
    if Removes(r, v) then None
    else
      var transient, missed := TransientFailure(v), r.mode != Recurring && ShouldReprobe(v.outcome);
      var requested := Requested(c, r, l, v, recheck, now, b);
      Some(r.(mode := if v.outcome == Valid then Recurring else if missed then Reprobe else r.mode,
              availableAt := Polite(c, r, if missed then now + Retry.ReprobeInterval(FirstReprobe(c), b.misses)
                else requested),
              failures := if transient then r.failures + 1 else 0,
              category := if transient then Some(FailureCategory(v)) else None,
              nextAttempt := if transient then Some(Polite(c, r, requested)) else None,
              hold := None))
  }

  // ---- Runs of one row -------------------------------------------------------------

  datatype Op =
    | DoSchedule(at: int, now: int)
    | DoClaim(worker: string, now: int, blocked: bool)
    | DoRenew(lease: Lease, now: int, blocked: bool)
    | DoReschedule(lease: Lease, at: int, now: int)
    | DoAbandon(lease: Lease, now: int)
    | DoComplete(lease: Lease, verdict: Verdict, recheck: int, now: int, blocked: bool, background: Background)

  /** Whether the operation takes effect; otherwise it changes nothing and the caller has lost its lease. */
  predicate Effective(c: Config, r: Row, op: Op) {
    match op
    case DoSchedule(_, _) => true
    case DoClaim(_, now, blocked) => Claimable(c, r, now, blocked)
    case DoRenew(l, now, blocked) => Holds(r, l, now) && Unblocked(r, blocked)
    case DoReschedule(l, _, now) => Holds(r, l, now)
    case DoAbandon(l, now) => Holds(r, l, now)
    case DoComplete(l, v, recheck, now, blocked, _) =>
      ValidVerdict(v) && recheck > 0 && Holds(r, l, now) && Unblocked(r, blocked)
  }

  function Apply(c: Config, r: Row, op: Op): Option<Row> {
    if !Effective(c, r, op) then Some(r)
    else
      match op
      case DoSchedule(at, now) => Some(Schedule(Some(r), at, now))
      case DoClaim(worker, now, _) => Some(Claim(c, r, worker, now))
      case DoRenew(_, now, _) => Some(Renew(c, r, now))
      case DoReschedule(_, at, _) => Some(Reschedule(c, r, at))
      case DoAbandon(_, _) => Some(Abandon(r))
      case DoComplete(l, v, recheck, now, _, b) => Complete(c, r, l, v, recheck, now, b)
  }

  predicate Releases(op: Op) { op.DoReschedule? || op.DoAbandon? || op.DoComplete? }

  /** The lease columns of the row. */
  function Columns(r: Row): Grant {
    Grant(r.generation, if r.hold.Some? then Some(r.hold.value.expires) else None, r.lastClaimed)
  }

  function Logged(c: Config, r: Row, op: Op): seq<Entry> {
    if !Effective(c, r, op) || op.DoSchedule? then []
    else if op.DoClaim? then [Claimed(r.generation + 1, op.now, op.now + c.leaseDuration)]
    else if op.DoRenew? then [Renewed(op.lease.generation, Renew(c, r, op.now).hold.value.expires)]
    else [Released(op.lease.generation)]
  }

  /** A row's life: from its insertion until a completion removes it. */
  datatype Life = Life(row: Option<Row>, log: seq<Entry>)

  ghost predicate Next(c: Config, w: Life, w': Life) {
    w.row.Some? && exists op :: w' == Life(Apply(c, w.row.value, op), w.log + Logged(c, w.row.value, op))
  }

  ghost predicate Run(c: Config, ws: seq<Life>) {
    && ValidConfig(c) && ws != [] && (exists mode, at :: ws[0] == Life(Some(NewRow(mode, at)), []))
    && forall i, j :: 0 <= i && j == i + 1 && j < |ws| ==> Next(c, ws[i], ws[j])
  }

  // ---- What every life guarantees ---------------------------------------------------

  ghost predicate Sound(c: Config, w: Life) {
    && Fenced(w.log) && Exclusive(w.log) && Spaced(w.log, c.minOriginInterval)
    && (w.row.Some? ==> Inv(Columns(w.row.value), w.log) && Recent(Columns(w.row.value), w.log))
  }

  /** An operation under the lease keeps the generation and the claim time; it extends the lease or ends it. */
  lemma HeldShape(c: Config, r: Row, op: Op)
    requires Effective(c, r, op) && (op.DoRenew? || Releases(op))
    ensures r.hold.Some? && op.lease.generation == r.generation == Columns(r).generation
    ensures Columns(r).expires == Some(r.hold.value.expires)
    ensures Releases(op) ==>
      Apply(c, r, op).Some? ==> Columns(Apply(c, r, op).value) == Columns(r).(expires := None)
    ensures op.DoRenew? ==>
      && Apply(c, r, op).Some? && Apply(c, r, op).value.hold.Some?
      && var until := Apply(c, r, op).value.hold.value.expires;
         && r.hold.value.expires <= until && Logged(c, r, op) == [Renewed(r.generation, until)]
         && Columns(Apply(c, r, op).value) == Columns(r).(expires := Some(until))
  {
  }

  lemma HeldKeepsSound(c: Config, w: Life, op: Op)
    requires ValidConfig(c) && w.row.Some? && Sound(c, w) && Effective(c, w.row.value, op) &&
      (op.DoRenew? || Releases(op))
    ensures Sound(c, Life(Apply(c, w.row.value, op), w.log + Logged(c, w.row.value, op)))
  {
    var r := w.row.value;
    HeldShape(c, r, op);
    assert Releases(op) ==> Logged(c, r, op) == [Released(r.generation)];
    hide Apply, Logged, Effective, Fenced, Exclusive, Current, Standing, Spaced, Recent, Columns;
    var g := Columns(r);
    if op.DoRenew? {
      var until := Apply(c, r, op).value.hold.value.expires;
      RenewKeeps(g, w.log, until);
      PaceKeeps(g, g.(expires := Some(until)), w.log, Renewed(r.generation, until), c.minOriginInterval);
    } else {
      ReleaseKeeps(g, w.log);
      PaceKeeps(g, g.(expires := None), w.log, Released(r.generation), c.minOriginInterval);
    }
  }

  /** A claim takes a free or expired row; scheduling and refused operations leave the lease alone. */
  lemma OtherShape(c: Config, r: Row, op: Op)
    requires !Effective(c, r, op) || op.DoSchedule? || op.DoClaim?
    ensures Apply(c, r, op).Some?
    ensures var g, g' := Columns(r), Columns(Apply(c, r, op).value);
            if op.DoClaim? && Effective(c, r, op)
            then && g' == Grant(g.generation + 1, Some(op.now + c.leaseDuration), Some(op.now))
                 && Logged(c, r, op) == [Claimed(g.generation + 1, op.now, op.now + c.leaseDuration)]
                 && (g.expires.Some? ==> g.expires.value <= op.now)
                 && (g.lastClaimed.Some? ==> g.lastClaimed.value + c.minOriginInterval <= op.now)
            else g' == g && Logged(c, r, op) == []
  {
  }

  lemma ClaimKeepsSound(c: Config, w: Life, op: Op)
    requires ValidConfig(c) && w.row.Some? && Sound(c, w) && Effective(c, w.row.value, op) && op.DoClaim?
    ensures Sound(c, Life(Apply(c, w.row.value, op), w.log + Logged(c, w.row.value, op)))
  {
    hide Apply, Logged, Effective, Fenced, Exclusive, Current, Standing, Spaced, Recent, Columns;
    var g, until := Columns(w.row.value), op.now + c.leaseDuration;
    OtherShape(c, w.row.value, op);
    ClaimKeeps(g, w.log, op.now, until);
    PaceKeeps(g, Grant(g.generation + 1, Some(until), Some(op.now)), w.log,
      Claimed(g.generation + 1, op.now, until), c.minOriginInterval);
  }

  lemma StepKeepsSound(c: Config, w: Life, w': Life)
    requires ValidConfig(c) && Sound(c, w) && Next(c, w, w')
    ensures Sound(c, w')
  {
    var r := w.row.value;
    var op :| w' == Life(Apply(c, r, op), w.log + Logged(c, r, op));
    hide Inv, Apply, Logged, Effective, Columns, Fenced, Exclusive, Spaced, Recent;
    if Effective(c, r, op) && (op.DoRenew? || Releases(op)) {
      HeldKeepsSound(c, w, op);
    } else if Effective(c, r, op) && op.DoClaim? {
      ClaimKeepsSound(c, w, op);
    } else {
      OtherShape(c, r, op);
      assert w.log + [] == w.log;
    }
  }

  lemma {:induction false} RunKeepsSound(c: Config, ws: seq<Life>, k: nat)
    requires Run(c, ws) && k < |ws|
    ensures Sound(c, ws[k])
  {
    if k > 0 {
      RunKeepsSound(c, ws, k - 1);
      hide Sound, Next;
      StepKeepsSound(c, ws[k - 1], ws[k]);
    }
  }

  /** In every life of a row: fencing, politeness and exclusive leases. */
  lemma LeasesHold(c: Config, ws: seq<Life>, k: nat)
    requires Run(c, ws) && k < |ws|
    ensures Fenced(ws[k].log) && Spaced(ws[k].log, c.minOriginInterval) && Exclusive(ws[k].log)
  {
    RunKeepsSound(c, ws, k);
  }

  // ---- Authority ----------------------------------------------------------------------

  function Claims(log: seq<Entry>): nat {
    if log == [] then 0 else Claims(log[..|log| - 1]) + (if log[|log| - 1].Claimed? then 1 else 0)
  }

  lemma ClaimsNext(log: seq<Entry>, e: Entry)
    ensures Claims(log + [e]) == Claims(log) + (if e.Claimed? then 1 else 0)
  {
    assert (log + [e])[..|log|] == log;
  }

  lemma GenerationStep(c: Config, r: Row, op: Op)
    ensures Apply(c, r, op).Some? ==>
      Apply(c, r, op).value.generation == r.generation + (if op.DoClaim? && Effective(c, r, op) then 1 else 0)
    ensures Logged(c, r, op) == [] || (|Logged(c, r, op)| == 1 && (Logged(c, r, op)[0].Claimed? <==> op.DoClaim?))
    ensures Logged(c, r, op) == [] && op.DoClaim? ==> !Effective(c, r, op)
  {
  }

  /** The generation counts the claims of the row's life. */
  lemma {:induction false} GenerationCountsClaims(c: Config, ws: seq<Life>, k: nat)
    requires Run(c, ws) && k < |ws|
    ensures ws[k].row.Some? ==> ws[k].row.value.generation == Claims(ws[k].log)
  {
    if k > 0 {
      GenerationCountsClaims(c, ws, k - 1);
      var w := ws[k - 1];
      assert Next(c, w, ws[k]);
      var r := w.row.value;
      var op :| ws[k] == Life(Apply(c, r, op), w.log + Logged(c, r, op));
      hide Claims, Apply, Logged, Effective, Next;
      GenerationStep(c, r, op);
      if Logged(c, r, op) == [] {
        assert w.log + [] == w.log;
      } else {
        assert Logged(c, r, op) == [Logged(c, r, op)[0]];
        ClaimsNext(w.log, Logged(c, r, op)[0]);
      }
    }
  }

  /**
   Nobody else can disturb an unexpired lease: not its holder, its generation, its expiry, nor when
   it was claimed.
   */
  lemma LeaseIsUndisturbed(c: Config, r: Row, op: Op)
    requires Leased(r, op.now)
    requires op.DoRenew? || Releases(op) ==>
      op.lease.worker != r.hold.value.worker || op.lease.generation != r.generation
    ensures Apply(c, r, op).Some?
    ensures var r' := Apply(c, r, op).value;
            r'.hold == r.hold && r'.generation == r.generation && r'.lastClaimed == r.lastClaimed
            && r'.availableAt == r.availableAt && r'.failures == r.failures && r'.nextAttempt == r.nextAttempt
  {
  }

  // ---- Modes ----------------------------------------------------------------------------

  function Rank(m: Mode): nat { match m case Probe => 0 case Reprobe => 1 case Recurring => 2 }

  /** A mode only rises, and only a probe is ever removed: by a terminal failure to reach the origin. */
  lemma ModeStep(c: Config, r: Row, op: Op)
    ensures Apply(c, r, op).Some? ==> Rank(r.mode) <= Rank(Apply(c, r, op).value.mode)
    ensures op.DoComplete? && Effective(c, r, op) ==>
      (Apply(c, r, op).None? <==> r.mode == Probe && op.verdict.outcome == Unavailable && !TransientFailure(op.verdict))
    ensures !op.DoComplete? ==> Apply(c, r, op).Some?
  {
  }

  /** Once an origin has left probing it stays queued and never returns to a lower mode. */
  lemma {:induction false} ModesRise(c: Config, ws: seq<Life>, i: nat, j: nat)
    requires Run(c, ws) && i <= j < |ws| && ws[i].row.Some?
    ensures ws[j].row.Some? ==> Rank(ws[i].row.value.mode) <= Rank(ws[j].row.value.mode)
    ensures ws[i].row.value.mode != Probe ==> ws[j].row.Some?
  {
    if i < j {
      ModesRise(c, ws, i, j - 1);
      assert Next(c, ws[j - 1], ws[j]);
      var r := ws[j - 1].row.value;
      var op :| ws[j] == Life(Apply(c, r, op), ws[j - 1].log + Logged(c, r, op));
      hide Run, Next, Apply, Logged;
      ModeStep(c, r, op);
    }
  }

  // ---- Due times ---------------------------------------------------------------------------

  /** Operations that neither schedule nor claim leave an unleased row alone. */
  ghost predicate Idle(c: Config, r: Row, ops: seq<Op>) {
    forall i :: 0 <= i < |ops| ==> !ops[i].DoSchedule? && !(ops[i].DoClaim? && Effective(c, r, ops[i]))
  }

  function Replay(c: Config, r: Row, ops: seq<Op>): Option<Row> {
    if ops == [] then Some(r)
    else
      var before := Replay(c, r, ops[..|ops| - 1]);
      if before.None? then None else Apply(c, before.value, ops[|ops| - 1])
  }

  lemma {:induction false} IdleRowStays(c: Config, r: Row, ops: seq<Op>)
    requires r.hold.None? && Idle(c, r, ops)
    ensures Replay(c, r, ops) == Some(r)
  {
    if ops != [] {
      IdleRowStays(c, r, ops[..|ops| - 1]);
    }
  }

  /** When a completed row is due: the retry wait, the reprobe interval, or the recheck time. */
  function DueAfter(c: Config, r: Row, v: Verdict, recheck: int, now: int, b: Background): int {
    if TransientFailure(v) then now + Retry.RetryWait(b.participated, r.failures + 1, v.retryAfter)
    else if r.mode != Recurring && ShouldReprobe(v.outcome) then now + Retry.ReprobeInterval(FirstReprobe(c), b.misses)
    else now + recheck
  }

  /**
   After a completion nobody claims the origin before it is due, nor within the interval, unless it
   is scheduled explicitly.
   */
  lemma NextClaimIsDue(c: Config, r: Row, done: Op, ops: seq<Op>, claim: Op)
    requires done.DoComplete? && Effective(c, r, done) && Apply(c, r, done).Some? && claim.DoClaim?
    requires Idle(c, Apply(c, r, done).value, ops)
    ensures var r' := Apply(c, r, done).value;
            && Replay(c, r', ops) == Some(r')
            && r'.failures == (if TransientFailure(done.verdict) then r.failures + 1 else 0)
            && (Effective(c, r', claim) ==>
                  && claim.now >= DueAfter(c, r, done.verdict, done.recheck, done.now, done.background)
                  && (r.lastClaimed.Some? ==> claim.now >= r.lastClaimed.value + c.minOriginInterval))
  {
    IdleRowStays(c, Apply(c, r, done).value, ops);
    hide Replay;
  }

  /** And with no block, no later than that: a due row can be claimed. */
  lemma DueRowIsClaimable(c: Config, r: Row, done: Op, now: int)
    requires done.DoComplete? && Effective(c, r, done) && Apply(c, r, done).Some?
    requires now >= DueAfter(c, r, done.verdict, done.recheck, done.now, done.background)
    requires r.lastClaimed.Some? && done.lease.claimedAt == r.lastClaimed.value &&
      now >= r.lastClaimed.value + c.minOriginInterval
    ensures Claimable(c, Apply(c, r, done).value, now, false)
  {
  }
}
