/**
 The verification worker: one claimed job from the claim to its end. It must commit
 before its lease runs out, and gives the lease back when it cannot.
 */
module Worker {
  import opened Wrappers
  import Observations
  import Queue
  import Retry

  datatype Config = Config(jobTimeout: int, completionGrace: int, recheck: int)

  predicate ValidConfig(w: Config) { w.jobTimeout > 0 && w.completionGrace > 0 && w.recheck > 0 }

  predicate HasCompletionBudget(leaseBudget: int, jobTimeout: int, completionGrace: int) {
    leaseBudget > 0 && completionGrace < leaseBudget && jobTimeout < leaseBudget - completionGrace
  }

  /** The start-up check of the runtime configuration. */
  predicate FitsLease(w: Config, q: Queue.Config) {
    !(w.completionGrace >= q.leaseDuration || w.jobTimeout >= q.leaseDuration - w.completionGrace)
  }

  /** What one verification comes to; a timeout is the worker's own. */
  datatype Finding = Settled(verdict: Queue.Verdict) | TimedOut | HardFailure

  /** What the environment does: how long things take, how the store answers, and what verification finds. */
  datatype Env = Env(verifyTime: nat -> int, beforeRenew: nat -> int, afterRenew: nat -> int, renewFault: nat -> Fault,
                     blocked: nat -> bool, finding: nat -> Finding,
                     commitTime: int, commitFault: Fault, commitBlocked: bool, background: Queue.Background,
                     abandonTime: int, abandonFault: Fault, contextLost: bool, contextLostLate: bool)

  /** Verification and completion honour their timeouts, and time does not run backwards. */
  ghost predicate Punctual(env: Env, w: Config) {
    && (forall i :: 0 <= env.verifyTime(i) <= w.jobTimeout)
    && (forall i :: env.beforeRenew(i) >= 0 && env.afterRenew(i) >= 0)
    && 0 <= env.commitTime <= w.completionGrace && 0 <= env.abandonTime <= w.completionGrace
  }

  /** Renewals are asked for at once, answered with time to spare, and neither blocked nor failing. */
  ghost predicate Prompt(env: Env, w: Config, q: Queue.Config) {
    forall i :: env.beforeRenew(i) == 0 && env.afterRenew(i) + w.jobTimeout + w.completionGrace < q.leaseDuration
                && !env.blocked(i) && env.renewFault(i) == NoFault
  }

  /** The row as the worker's lease has it, the lease, and the time. */
  datatype Held = Held(row: Queue.Row, lease: Queue.Lease, now: int)

  /** The row is held under this claim, at least as long as the worker's copy of the lease says. */
  predicate Tied(h: Held) {
    && h.row.hold.Some? && h.row.hold.value.worker == h.lease.worker && h.row.generation == h.lease.generation
    && h.lease.expiresAt <= h.row.hold.value.expires
  }

  // ---- One job --------------------------------------------------------------------------

  datatype Ensured = Ready(held: Held) | Refused(held: Held) | TooLittle(held: Held)

  predicate Enough(w: Config, h: Held) {
    HasCompletionBudget(h.lease.expiresAt - h.now, w.jobTimeout, w.completionGrace)
  }

  /**
   Renews only when the remaining time cannot hold one more job and its completion. A renewal
   whose answer is lost extends the row and leaves the worker with its old lease.
   */
  function EnsureBudget(w: Config, q: Queue.Config, env: Env, i: nat, h: Held): Ensured {
    if Enough(w, h) then Ready(h)
    else
      var at := h.now + env.beforeRenew(i);
      if env.renewFault(i) == RequestLost || !Queue.Effective(q, h.row, Queue.DoRenew(h.lease, at, env.blocked(i))) then
        Refused(h.(now := at))
      else
        var row := Queue.Renew(q, h.row, at);
        if env.renewFault(i) == AnswerLost then Refused(h.(row := row, now := at))
        else
          var renewed := Held(row, h.lease.(expiresAt := row.hold.value.expires), at + env.afterRenew(i));
          if Enough(w, renewed) then Ready(renewed) else TooLittle(renewed)
  }

  datatype Why = HardError | FailedRenewal | NoBudget | FailedCompletion

  datatype Attempt =
    | Verified(held: Held, verdict: Queue.Verdict, timedOut: bool)
    | Broken(held: Held, why: Why)

  /** A timeout counts as an unavailable declaration, and an unavailable one always has a category. */
  function VerdictOf(f: Finding): Queue.Verdict
    requires !f.HardFailure?
  {
    var v := if f.TimedOut? then Queue.Verdict(Observations.Unavailable, None, Retry.Timeout, 0) else f.verdict;
    v.(category := Queue.FailureCategory(v))
  }

  predicate Retryable(v: Queue.Verdict) { Queue.TransientFailure(v) && v.retryAfter <= 0 }

  /** One attempt: what it ends in, with the budget ensured first. */
  function Once(w: Config, q: Queue.Config, env: Env, i: nat, h: Held, timedOut: bool): Attempt {
    var e := EnsureBudget(w, q, env, i, h);
    if e.Refused? then Broken(e.held, FailedRenewal)
    else if e.TooLittle? then Broken(e.held, NoBudget)
    else
      var done := e.held.(now := e.held.now + env.verifyTime(i));
      if env.finding(i).HardFailure? then Broken(done, HardError)
      else Verified(done, VerdictOf(env.finding(i)), timedOut || env.finding(i).TimedOut?)
  }

  /** The attempts from the i-th on; there are at most two. */
  function Verify(w: Config, q: Queue.Config, env: Env, i: nat, h: Held, timedOut: bool): Attempt
    requires i < Retry.MAX_ATTEMPTS
    decreases Retry.MAX_ATTEMPTS - i
  {
    var a := Once(w, q, env, i, h, timedOut);
    if a.Verified? && Retryable(a.verdict) && i + 1 < Retry.MAX_ATTEMPTS
    then Verify(w, q, env, i + 1, a.held, a.timedOut) else a
  }

  /** One round of the loop, in terms of what it ensured and found. */
  lemma VerifyStep(w: Config, q: Queue.Config, env: Env, i: nat, h: Held, timedOut: bool)
    requires i < Retry.MAX_ATTEMPTS
    ensures var e, a := EnsureBudget(w, q, env, i, h), Verify(w, q, env, i, h, timedOut);
            var done := e.held.(now := e.held.now + env.verifyTime(i));
            if !e.Ready? then a == Broken(e.held, if e.Refused? then FailedRenewal else NoBudget)
            else if env.finding(i).HardFailure? then a == Broken(done, HardError)
            else
              var v, late := VerdictOf(env.finding(i)), timedOut || env.finding(i).TimedOut?;
              a == if Retryable(v) && i + 1 < Retry.MAX_ATTEMPTS
                   then Verify(w, q, env, i + 1, done, late) else Verified(done, v, late)
  {
    hide EnsureBudget, VerdictOf, Retryable;
  }

  /** The retry loop. */
  method VerifyWithRetries(w: Config, q: Queue.Config, env: Env, h: Held) returns (a: Attempt)
    ensures a == Verify(w, q, env, 0, h, false)
  {
    hide EnsureBudget, VerdictOf, Retryable, Verify, Enough;
    var i, current, anyTimeout := 0, h, false;
    while true
      invariant 0 <= i < Retry.MAX_ATTEMPTS
      invariant Verify(w, q, env, 0, h, false) == Verify(w, q, env, i, current, anyTimeout)
      decreases Retry.MAX_ATTEMPTS - i
    {
      VerifyStep(w, q, env, i, current, anyTimeout);
      var ensured := EnsureBudget(w, q, env, i, current);
      if !ensured.Ready? { return Broken(ensured.held, if ensured.Refused? then FailedRenewal else NoBudget); }
      current := ensured.held.(now := ensured.held.now + env.verifyTime(i));
      var finding := env.finding(i);
      if finding.HardFailure? { return Broken(current, HardError); }
      anyTimeout := anyTimeout || finding.TimedOut?;
      var v := VerdictOf(finding);
      if !Retryable(v) || i + 1 == Retry.MAX_ATTEMPTS { return Verified(current, v, anyTimeout); }
      i := i + 1;
    }
  }

  /**
   How a job ends: dropped with the context, committed, given back, or left alone after a
   completion that seemed to fail; `committed` says that it took effect all the same, and
   `accepted` that the row was given back.
   */
  datatype Ending =
    | Dropped
    | Committed(at: int, held: Held)
    | Abandoned(at: int, why: Why, held: Held, accepted: bool, committed: bool)
    | LeftAlone(at: int, held: Held, committed: bool)

  /** The job's result is in the store, whether or not the worker knows. */
  predicate Stored(e: Ending) { e.Committed? || (e.Abandoned? && e.committed) || (e.LeftAlone? && e.committed) }

  /** A request to give the row back; a completed one may be gone, and is free in any case. */
  predicate GivesBack(q: Queue.Config, env: Env, row: Option<Queue.Row>, l: Queue.Lease, at: int) {
    env.abandonFault != RequestLost && row.Some? && Queue.Effective(q, row.value, Queue.DoAbandon(l, at))
  }

  function Commit(w: Config, env: Env, a: Attempt): Queue.Op
    requires a.Verified?
  {
    Queue.DoComplete(a.held.lease, a.verdict, w.recheck, a.held.now + env.commitTime, env.commitBlocked, env.background)
  }

  /** Every broken attempt is given back; a verified one is completed, and given back when a timed-out job cannot be. */
  function Finish(w: Config, q: Queue.Config, env: Env, a: Attempt): Ending {
    if env.contextLost then Dropped
    else if a.Broken? then
      var at := a.held.now + env.abandonTime;
      Abandoned(at, a.why, a.held, GivesBack(q, env, Some(a.held.row), a.held.lease, at), false)
    else
      var at, op := a.held.now + env.commitTime, Commit(w, env, a);
      var committed := env.commitFault != RequestLost && Queue.Effective(q, a.held.row, op);
      var row := if committed then Queue.Apply(q, a.held.row, op) else Some(a.held.row);
      if committed && env.commitFault == NoFault then Committed(at, a.held)
      else if a.timedOut && !env.contextLostLate then
        var back := GivesBack(q, env, row, a.held.lease, at + env.abandonTime);
        Abandoned(at + env.abandonTime, FailedCompletion, a.held, back, committed)
      else LeftAlone(at, a.held, committed)
  }

  function Job(w: Config, q: Queue.Config, env: Env, h: Held): Ending {
    Finish(w, q, env, Verify(w, q, env, 0, h, false))
  }

  // ---- What the lease allows ----------------------------------------------------------------

  /**
   Whether or not it renews, the worker goes on under the same claim; it works only with time for
   the job and its completion.
   */
  lemma BudgetHolds(w: Config, q: Queue.Config, env: Env, i: nat, h: Held)
    requires ValidConfig(w) && Punctual(env, w) && Tied(h)
    ensures var e := EnsureBudget(w, q, env, i, h);
            && Tied(e.held) && SameClaim(h, e.held) && h.lease.expiresAt <= e.held.lease.expiresAt &&
                 h.now <= e.held.now
            && (e.Ready? ==> e.held.lease.expiresAt > e.held.now + w.jobTimeout + w.completionGrace)
            && (Enough(w, h) ==> e == Ready(h))
            && (Prompt(env, w, q) && h.now < h.lease.expiresAt ==> e.Ready?)
  {
  }

  predicate SameClaim(h: Held, h': Held) {
    h'.lease.generation == h.lease.generation && h'.lease.worker == h.lease.worker
  }

  /** An attempt is under the same claim; a verified one, or a hard failure, leaves time for a store call. */
  ghost predicate Holds(w: Config, h: Held, a: Attempt) {
    && Tied(a.held) && SameClaim(h, a.held) && h.now <= a.held.now
    && (a.Verified? || a.why == HardError ==> a.held.now + w.completionGrace < a.held.lease.expiresAt)
    && (a.Broken? ==> a.why != FailedCompletion)
  }

  lemma OnceHolds(w: Config, q: Queue.Config, env: Env, i: nat, h: Held, timedOut: bool)
    requires ValidConfig(w) && Punctual(env, w) && Tied(h)
    ensures Holds(w, h, Once(w, q, env, i, h, timedOut))
    ensures Prompt(env, w, q) && h.now < h.lease.expiresAt ==>
      var a := Once(w, q, env, i, h, timedOut); a.Verified? || a.why == HardError
  {
    assert 0 <= env.verifyTime(i) <= w.jobTimeout;
    hide EnsureBudget, VerdictOf, Punctual, Prompt;
    BudgetHolds(w, q, env, i, h);
  }

  /** After verification a completion still fits, whatever the attempts found. */
  lemma {:induction false} VerifyHolds(w: Config, q: Queue.Config, env: Env, i: nat, h: Held, timedOut: bool)
    requires ValidConfig(w) && Punctual(env, w) && Tied(h) && i < Retry.MAX_ATTEMPTS
    ensures Holds(w, h, Verify(w, q, env, i, h, timedOut))
    ensures Prompt(env, w, q) && h.now < h.lease.expiresAt ==>
      var a := Verify(w, q, env, i, h, timedOut); a.Verified? || a.why == HardError
    decreases Retry.MAX_ATTEMPTS - i
  {
    hide Once, Retryable, Punctual, Prompt;
    OnceHolds(w, q, env, i, h, timedOut);
    var a := Once(w, q, env, i, h, timedOut);
    if a.Verified? && Retryable(a.verdict) && i + 1 < Retry.MAX_ATTEMPTS {
      VerifyHolds(w, q, env, i + 1, a.held, a.timedOut);
    }
  }

  /** What a completed row answers to a request under the old lease. */
  lemma CompletedIsFree(w: Config, q: Queue.Config, env: Env, a: Attempt, at: int)
    requires a.Verified? && Queue.Effective(q, a.held.row, Commit(w, env, a))
    ensures !GivesBack(q, env, Queue.Apply(q, a.held.row, Commit(w, env, a)), a.held.lease, at)
  {
  }

  /**
   A completion is always asked for strictly before the lease runs out and under the claimed
   generation: the fence never refuses it. So the result of a verified job is stored exactly
   when the request is not lost, the result is well formed, and the origin is not blocked
   meanwhile; and the worker knows exactly when the answer is not lost either.
   */
  lemma CommitsBeforeExpiry(w: Config, q: Queue.Config, env: Env, h: Held)
    requires ValidConfig(w) && Punctual(env, w) && Tied(h)
    ensures var a, e := Verify(w, q, env, 0, h, false), Job(w, q, env, h);
            && (Stored(e) ==> a.Verified? && e.held == a.held && SameClaim(h, e.held))
            && (a.Verified? ==>
                  && a.held.now + env.commitTime < a.held.lease.expiresAt
                  && Queue.Holds(a.held.row, a.held.lease, a.held.now + env.commitTime))
            && (a.Verified? && !env.contextLost ==>
                  && (Stored(e) <==>
                        && env.commitFault != RequestLost && Queue.ValidVerdict(a.verdict)
                        && Queue.Unblocked(a.held.row, env.commitBlocked))
                  && (e.Committed? <==> Stored(e) && env.commitFault == NoFault))
  {
    hide Verify, Queue.Complete, VerdictOf;
    VerifyHolds(w, q, env, 0, h, false);
  }

  /**
   A lease given back is accepted exactly when the request is not lost and time remains of the
   row's lease: after a hard failure it always does, after a failed or useless renewal exactly
   when the call takes less than what remained, after a failed completion when both calls
   together do. A completion that took effect unknown to the worker is never undone by it.
   */
  lemma AbandonsExactly(w: Config, q: Queue.Config, env: Env, h: Held)
    requires ValidConfig(w) && Punctual(env, w) && Tied(h)
    ensures var e := Job(w, q, env, h);
            e.Abandoned? ==>
              && Tied(e.held) && SameClaim(h, e.held) && h.now <= e.held.now &&
                   (e.committed ==> e.why == FailedCompletion)
              && var asked, remained := env.abandonFault != RequestLost, e.held.row.hold.value.expires - e.held.now;
                 match e.why
                 case HardError => e.accepted <==> asked
                 case FailedRenewal => e.accepted <==> asked && env.abandonTime < remained
                 case NoBudget => e.accepted <==> asked && env.abandonTime < remained
                 case FailedCompletion => e.accepted <==>
                   asked && !e.committed && env.commitTime + env.abandonTime < remained
  {
    hide Verify, VerdictOf;
    VerifyHolds(w, q, env, 0, h, false);
    var a := Verify(w, q, env, 0, h, false);
    if a.Verified? && Queue.Effective(q, a.held.row, Commit(w, env, a)) {
      CompletedIsFree(w, q, env, a, a.held.now + env.commitTime + env.abandonTime);
    }
    hide Queue.Complete;
  }

  /** An abandon the fence refuses: the renewal comes when the lease has already run out, and so does the abandon. */
  lemma LateAbandonIsRefused() returns (w: Config, q: Queue.Config, env: Env, h: Held)
    ensures ValidConfig(w) && Queue.ValidConfig(q) && FitsLease(w, q) && Punctual(env, w) &&
      Tied(h) && h.now < h.lease.expiresAt
    ensures var e := Job(w, q, env, h);
            e.Abandoned? && e.why == FailedRenewal && !e.accepted && env.abandonFault == NoFault
  {
    w, q := Config(10, 5, 1), Queue.Config(20, 1, 0);
    env := Env(i => 0, i => 3, i => 0, i => NoFault, i => false, i => HardFailure,
               0, NoFault, false, Queue.Background(false, 0),
               0, NoFault, false, false);
    h := Held(Queue.Row(Queue.Recurring, 0, 1, Some(Queue.Hold("w", 20)), Some(0), 0, None, None),
      Queue.Lease("w", 1, 0, 20), 18);
    assert EnsureBudget(w, q, env, 0, h) == Refused(h.(now := 21));
  }

  /** With prompt renewals every job ends by completing, or by giving the lease back after a hard failure, in time. */
  lemma PromptJobEnds(w: Config, q: Queue.Config, env: Env, h: Held)
    requires ValidConfig(w) && Punctual(env, w) && Prompt(env, w, q) && Tied(h) &&
      h.now < h.lease.expiresAt && !env.contextLost
    ensures var e := Job(w, q, env, h);
            && (e.Committed? || e.LeftAlone? || (e.Abandoned? && (e.why == HardError || e.why == FailedCompletion)))
            && (e.Abandoned? && e.why == HardError && env.abandonFault != RequestLost ==> e.accepted)
  {
    hide Verify;
    VerifyHolds(w, q, env, 0, h, false);
    AbandonsExactly(w, q, env, h);
  }
}
