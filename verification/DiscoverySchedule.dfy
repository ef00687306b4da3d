/**
 Why an origin is in the discovery schedule.

 The schedule is a set of origins changed by seven different transactions. Each
 is modelled by what it does to the facts of one origin; the rule is that an
 origin is scheduled exactly when it has a reason to be.
 */
module DiscoverySchedule {
  import opened Wrappers
  import opened Observations

  /** The newest authoritative observation: its time, and whether it was valid. */
  datatype Settled = Settled(at: int, valid: bool)

  /** What the tables hold about one origin; `known` says that it has a source-state row. */
  datatype Facts = Facts(known: bool, seeded: bool, automatic: bool, participated: bool,
                         effective: Option<Settled>, discovered: Option<int>, scheduled: bool)

  const UNKNOWN := Facts(false, false, false, false, None, None, false)

  predicate Rediscovered(f: Facts) {
    f.effective.Some? && f.discovered.Some? && f.discovered.value > f.effective.value.at
  }

  /** The reasons other than being seeded. */
  predicate Earned(f: Facts) {
    || (f.effective.Some? && f.effective.value.valid)
    || (f.automatic && f.effective.None?)
    || ((f.automatic || f.participated) && Rediscovered(f))
  }

  predicate Reason(f: Facts) { f.seeded || Earned(f) }

  /** The facts about the tables the rule rests on, which hold whether or not it does. */
  predicate Grounded(f: Facts) {
    && (f.seeded || f.automatic ==> f.known)
    && (f.participated ==> f.effective.Some?)
    && (f.effective.Some? && f.effective.value.valid ==> f.participated)
  }

  /** The rule: scheduled exactly for a reason. */
  predicate Justified(f: Facts) { (f.scheduled <==> Reason(f)) && Grounded(f) }

  // ---- Transactions --------------------------------------------------------------

  function AddSeed(f: Facts): Facts { f.(known := true, seeded := true, scheduled := true) }

  /** Removing a seed deletes the schedule row unless another reason remains. */
  function RemoveSeed(f: Facts): Facts {
    if !f.known then f else f.(seeded := false, scheduled := f.scheduled && Earned(f))
  }

  /** The start-up repair. */
  function EnsureSeeded(f: Facts): Facts { f.(scheduled := f.scheduled || f.seeded) }

  function Discover(f: Facts, now: int): Facts {
    var g := f.(discovered := Some(if f.discovered.None? then now else Max(f.discovered.value, now)));
    g.(scheduled := g.scheduled || Earned(g))
  }

  /** Evidence that a candidate was already checked since it was last seen. */
  predicate Stale(f: Facts) {
    && f.effective.Some? && !f.effective.value.valid
    && f.discovered.Some? && f.discovered.value <= f.effective.value.at
  }

  /** What promotion requires of a candidate. */
  predicate Promotable(f: Facts) {
    && f.discovered.Some? && !f.automatic && !f.scheduled && !Stale(f)
    && !(f.effective.Some? && f.effective.value.valid)
  }

  function Promote(f: Facts): Facts { f.(known := true, automatic := true, scheduled := true) }

  /** A recorded check: the newest authoritative observation changes unless it is later. */
  function Observe(f: Facts, now: int, o: Outcome): Facts {
    f.(participated := f.participated || o == Valid,
       effective := if Authoritative(o) && (f.effective.None? || now >= f.effective.value.at)
                    then Some(Settled(now, o == Valid)) else f.effective)
  }

  /**
   Completing a verification schedules a valid origin and drops one found otherwise, unless seeded
   or discovered since.
   */
  function Complete(f: Facts, now: int, o: Outcome): Facts {
    Observe(f, now, o).(scheduled :=
      if o == Valid then true
      else if Authoritative(o) then f.scheduled && (f.seeded || (f.discovered.Some? && f.discovered.value > now))
      else f.scheduled)
  }

  // ---- The rule -------------------------------------------------------------------

  /**
   When a completion breaks the rule: its time is before an authoritative observation that
   decides otherwise, and neither a seed nor a later discovery covers the difference.
   */
  predicate OutOfOrder(f: Facts, now: int, o: Outcome) {
    && Authoritative(o) && f.effective.Some? && now < f.effective.value.at && !f.seeded
    && (if o == Valid then !f.effective.value.valid && !Rediscovered(f)
        else f.effective.value.valid && !(f.discovered.Some? && f.discovered.value > now))
  }

  /** A completion keeps the rule exactly when it is not out of order. */
  lemma CompletionKeepsExactly(f: Facts, now: int, o: Outcome)
    requires Justified(f)
    ensures Justified(Complete(f, now, o)) <==> !OutOfOrder(f, now, o)
  {
  }

  /** Two completions whose times run backwards: the later one drops a valid participant from the schedule. */
  lemma BackwardClockBreaksRule()
    ensures var f := Complete(Complete(UNKNOWN, 10, Valid), 5, Absent);
            Reason(f) && !f.scheduled
  {
  }

  datatype Action =
    | DoAddSeed | DoRemoveSeed | DoEnsureSeeded | DoDiscover(now: int)
    | DoPromote | DoComplete(now: int, outcome: Outcome) | DoPurge

  predicate Enabled(f: Facts, a: Action) { a.DoPromote? ==> Promotable(f) }

  predicate Breaks(f: Facts, a: Action) { a.DoComplete? && OutOfOrder(f, a.now, a.outcome) }

  function Apply(f: Facts, a: Action): Facts {
    match a
    case DoAddSeed => AddSeed(f)
    case DoRemoveSeed => RemoveSeed(f)
    case DoEnsureSeeded => EnsureSeeded(f)
    case DoDiscover(now) => Discover(f, now)
    case DoPromote => Promote(f)
    case DoComplete(now, o) => Complete(f, now, o)
    case DoPurge => f
  }

  /** Every transaction keeps the rule, a completion exactly when it is not out of order. */
  lemma StepKeepsRule(f: Facts, a: Action)
    requires Justified(f) && Enabled(f, a)
    ensures Justified(Apply(f, a)) <==> !Breaks(f, a)
  {
    if a.DoComplete? { CompletionKeepsExactly(f, a.now, a.outcome); }
  }

  lemma StepKeepsGrounded(f: Facts, a: Action)
    requires Grounded(f)
    ensures Grounded(Apply(f, a))
  {
  }

  /** Any interleaving of the transactions with any times. */
  ghost predicate Run(fs: seq<Facts>, acts: seq<Action>) {
    && |fs| == |acts| + 1 && fs[0] == UNKNOWN
    && forall i, j :: 0 <= i && j == i + 1 && j < |fs| ==> Enabled(fs[i], acts[i]) && fs[j] == Apply(fs[i], acts[i])
  }

  lemma {:induction false} RunIsGrounded(fs: seq<Facts>, acts: seq<Action>, k: nat)
    requires Run(fs, acts) && k < |fs|
    ensures Grounded(fs[k])
  {
    if k > 0 {
      RunIsGrounded(fs, acts, k - 1);
      hide Grounded, Apply, Enabled;
      StepKeepsGrounded(fs[k - 1], acts[k - 1]);
    }
  }

  /**
   In every run: up to any point the origin was always scheduled exactly when it had a reason,
   if and only if no completion before that point was out of order.
   */
  lemma {:induction false} ScheduleHolds(fs: seq<Facts>, acts: seq<Action>, k: nat)
    requires Run(fs, acts) && k < |fs|
    ensures (forall i :: 0 <= i <= k ==> (fs[i].scheduled <==> Reason(fs[i]))) <==>
      (forall i :: 0 <= i < k ==> !Breaks(fs[i], acts[i]))
  {
    if k > 0 {
      var j := k - 1;
      ScheduleHolds(fs, acts, j);
      RunIsGrounded(fs, acts, j);
      RunIsGrounded(fs, acts, k);
      if fs[j].scheduled <==> Reason(fs[j]) { StepKeepsRule(fs[j], acts[j]); }
      hide Breaks, Reason, Apply, Enabled, Grounded;
    }
  }

  /** Automatic origins stay automatic. */
  lemma {:induction false} AutomaticForever(fs: seq<Facts>, acts: seq<Action>, i: nat, j: nat)
    requires Run(fs, acts) && i <= j < |fs| && fs[i].automatic
    ensures fs[j].automatic
  {
    if i < j { AutomaticForever(fs, acts, i, j - 1); }
  }

  /** Over its whole existence an origin is promoted at most once, whatever the times of its completions. */
  lemma PromotedAtMostOnce(fs: seq<Facts>, acts: seq<Action>, i: nat, j: nat)
    requires Run(fs, acts) && i < j < |fs| && acts[i].DoPromote?
    ensures !Promotable(fs[j]) && (j < |acts| ==> !acts[j].DoPromote?)
  {
    var next := i + 1;
    assert fs[next] == Apply(fs[i], acts[i]);
    AutomaticForever(fs, acts, next, j);
    if j < |acts| {
      var after := j + 1;
      assert fs[after] == Apply(fs[j], acts[j]);
    }
  }
}
