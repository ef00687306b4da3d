/**
 What a generation-fenced lease guarantees, over the log of everything that
 happened to one leased row. Both lease protocols of the store use it.
 */
module Leases {
  import opened Wrappers

  /** The lease columns of a row; `expires` is absent while nobody holds it. */
  datatype Grant = Grant(generation: nat, expires: Option<int>, lastClaimed: Option<int>)

  datatype Entry =
    | Claimed(gen: nat, at: int, until: int)
    | Renewed(gen: nat, until: int)
    | Released(gen: nat)

  /** Generations never fall; a claim starts a new one; after a release nothing more happens under its generation. */
  ghost predicate Fenced(log: seq<Entry>) {
    forall i, j :: 0 <= i < j < |log| ==>
      log[i].gen <= log[j].gen && (log[i].Released? || log[j].Claimed? ==> log[i].gen < log[j].gen)
  }

  /** Claims are at least the interval apart. */
  ghost predicate Spaced(log: seq<Entry>, interval: int) {
    forall i, j :: 0 <= i < j < |log| && log[i].Claimed? && log[j].Claimed? ==> log[i].at + interval <= log[j].at
  }

  ghost predicate ReleasedBy(log: seq<Entry>, gen: nat, end: nat)
    requires end <= |log|
  {
    exists k :: 0 <= k < end && log[k] == Released(gen)
  }

  /** The next claim comes only after the lease before it was released or ran out in full. */
  ghost predicate Exclusive(log: seq<Entry>) {
    forall i, j :: 0 <= i < j < |log| && !log[i].Released? && log[j].Claimed? && log[j].gen == log[i].gen + 1 ==>
      ReleasedBy(log, log[i].gen, j) || log[i].until <= log[j].at
  }

  /** Where every lease of the current generation stands: released, or still held at least as long. */
  ghost predicate Standing(g: Grant, log: seq<Entry>) {
    forall i :: 0 <= i < |log| && !log[i].Released? && log[i].gen == g.generation ==>
      ReleasedBy(log, log[i].gen, |log|) || (g.expires.Some? && log[i].until <= g.expires.value)
  }

  ghost predicate Current(g: Grant, log: seq<Entry>) {
    && (forall i :: 0 <= i < |log| ==> log[i].gen <= g.generation)
    && (g.expires.Some? ==> forall i :: 0 <= i < |log| && log[i].Released? ==> log[i].gen < g.generation)
  }

  ghost predicate Inv(g: Grant, log: seq<Entry>) {
    Fenced(log) && Exclusive(log) && Current(g, log) && Standing(g, log)
  }

  /** The last claim time bounds every claim. */
  ghost predicate Recent(g: Grant, log: seq<Entry>) {
    forall i :: 0 <= i < |log| && log[i].Claimed? ==> g.lastClaimed.Some? && log[i].at <= g.lastClaimed.value
  }

  lemma ReleasedByGrows(log: seq<Entry>, e: Entry, gen: nat, end: nat)
    requires end <= |log| && ReleasedBy(log, gen, end)
    ensures ReleasedBy(log + [e], gen, end) && ReleasedBy(log + [e], gen, |log| + 1)
  {
    var k :| 0 <= k < end && log[k] == Released(gen);
    assert (log + [e])[k] == Released(gen);
  }

  lemma FencedNext(g: Grant, log: seq<Entry>, e: Entry)
    requires Fenced(log) && Current(g, log)
    requires e.gen >= g.generation && (e.Claimed? || g.expires.None? ==> e.gen > g.generation)
    ensures Fenced(log + [e])
  {
  }

  lemma ExclusiveNext(g: Grant, log: seq<Entry>, e: Entry)
    requires Exclusive(log) && Standing(g, log)
    requires e.Claimed? ==> e.gen == g.generation + 1 && (g.expires.Some? ==> g.expires.value <= e.at)
    ensures Exclusive(log + [e])
  {
    var log' := log + [e];
    forall i, j | 0 <= i < j < |log'| && !log'[i].Released? && log'[j].Claimed? && log'[j].gen == log'[i].gen + 1
      ensures ReleasedBy(log', log'[i].gen, j) || log'[i].until <= log'[j].at
    {
      if ReleasedBy(log, log[i].gen, j) { ReleasedByGrows(log, e, log[i].gen, j); }
    }
  }

  /** Standing survives a new entry when the row starts anew, only grants more, or records the release. */
  lemma StandingNext(g: Grant, g': Grant, log: seq<Entry>, e: Entry)
    requires Standing(g, log) && Current(g, log) && g.generation <= g'.generation
    requires g'.generation == g.generation && g.expires.Some? ==>
      e == Released(g.generation) || (g'.expires.Some? && g.expires.value <= g'.expires.value)
    requires !e.Released? ==> e.gen == g'.generation && g'.expires.Some? && e.until <= g'.expires.value
    ensures Standing(g', log + [e])
  {
    var log' := log + [e];
    forall i | 0 <= i < |log'| && !log'[i].Released? && log'[i].gen == g'.generation
      ensures ReleasedBy(log', log'[i].gen, |log'|) || (g'.expires.Some? && log'[i].until <= g'.expires.value)
    {
      if i < |log| && ReleasedBy(log, log[i].gen, |log|) { ReleasedByGrows(log, e, log[i].gen, |log|); }
      if e == Released(g.generation) { assert log'[|log|] == e; }
    }
  }

  // ---- The three kinds of step ---------------------------------------------------

  /** A claim of a free or expired row. */
  lemma ClaimKeeps(g: Grant, log: seq<Entry>, at: int, until: int)
    requires Inv(g, log) && (g.expires.Some? ==> g.expires.value <= at)
    ensures Inv(Grant(g.generation + 1, Some(until), Some(at)), log + [Claimed(g.generation + 1, at, until)])
  {
    hide Fenced, Exclusive, Standing;
    var e := Claimed(g.generation + 1, at, until);
    FencedNext(g, log, e);
    ExclusiveNext(g, log, e);
    StandingNext(g, Grant(g.generation + 1, Some(until), Some(at)), log, e);
  }

  /** A renewal never shortens the lease. */
  lemma RenewKeeps(g: Grant, log: seq<Entry>, until: int)
    requires Inv(g, log) && g.expires.Some? && g.expires.value <= until
    ensures Inv(g.(expires := Some(until)), log + [Renewed(g.generation, until)])
  {
    hide Fenced, Exclusive, Standing;
    var e := Renewed(g.generation, until);
    FencedNext(g, log, e);
    ExclusiveNext(g, log, e);
    StandingNext(g, g.(expires := Some(until)), log, e);
  }

  /** A release clears the lease and keeps the generation. */
  lemma ReleaseKeeps(g: Grant, log: seq<Entry>)
    requires Inv(g, log) && g.expires.Some?
    ensures Inv(g.(expires := None), log + [Released(g.generation)])
  {
    hide Fenced, Exclusive, Standing;
    var e := Released(g.generation);
    FencedNext(g, log, e);
    ExclusiveNext(g, log, e);
    StandingNext(g, g.(expires := None), log, e);
  }

  /** Claims stay the interval apart when each waits the interval after the last claim time. */
  lemma PaceKeeps(g: Grant, g': Grant, log: seq<Entry>, e: Entry, interval: int)
    requires Spaced(log, interval) && Recent(g, log) && interval >= 0
    requires if e.Claimed? then g'.lastClaimed == Some(e.at) &&
      (g.lastClaimed.Some? ==> g.lastClaimed.value + interval <= e.at)
             else g'.lastClaimed == g.lastClaimed
    ensures Spaced(log + [e], interval) && Recent(g', log + [e])
  {
  }

  // ---- Consequences for a lease holder ---------------------------------------------

  /** Each generation is claimed once and released at most once, and a release comes after its claim. */
  lemma OncePerGeneration(log: seq<Entry>, i: nat, j: nat)
    requires Fenced(log) && i < |log| && j < |log| && log[i].gen == log[j].gen
    ensures log[i].Claimed? && log[j].Claimed? ==> i == j
    ensures log[i].Released? && log[j].Released? ==> i == j
    ensures log[i].Claimed? && !log[j].Claimed? ==> i < j
    ensures log[j].Released? ==> i <= j
  {
    if i < j { assert log[i].gen <= log[j].gen; }
    if j < i { assert log[j].gen <= log[i].gen; }
  }

  /** After the next claim of the row, nothing under the old generation takes effect any more. */
  lemma SupersededIsOver(log: seq<Entry>, i: nat, claim: nat, k: nat)
    requires Fenced(log) && i < claim < |log| && log[claim].Claimed? && k < |log| && log[k].gen == log[i].gen
    ensures k < claim
  {
  }
}
