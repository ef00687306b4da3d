/** Crawl blocks: the operator's exact blocks, and the recomputation that adds excluded hosts. */
module CrawlBlocks {
  import opened Wrappers
  import opened Database
  import opened Exclusion

  /** What recomputation reads: the rule list, and how a stored origin parses to its host. */
  datatype Policy = Policy(config: string, space: char -> bool, hostOf: string -> Option<string>)

  predicate HostExcluded(p: Policy, host: string) { Excluded(Patterns(p.config, p.space), Lower(TrimDot(host))) }

  /** Whether recomputation decides the row at all. */
  predicate Managed(s: SourceState) { s.automatic && !s.seeded }

  /** What a managed row's block should be; an origin that no longer parses is blocked. */
  predicate Due(p: Policy, o: string, s: SourceState) {
    p.hostOf(o).None? || s.operatorBlocked || HostExcluded(p, p.hostOf(o).value)
  }

  function Settle(p: Policy, o: string, s: SourceState): SourceState {
    if Managed(s) then s.(blocked := Due(p, o, s)) else s
  }

  function Recomputed(p: Policy, states: map<string, SourceState>): map<string, SourceState> {
    map o | o in states :: Settle(p, o, states[o])
  }

  function Changed(p: Policy, states: map<string, SourceState>): set<string> {
    set o | o in states && Settle(p, o, states[o]) != states[o]
  }

  /** Recomputing again changes nothing and reports no change. */
  lemma RecomputeIsIdempotent(p: Policy, states: map<string, SourceState>)
    ensures Recomputed(p, Recomputed(p, states)) == Recomputed(p, states)
    ensures Changed(p, Recomputed(p, states)) == {}
  {
    var once := Recomputed(p, states);
    hide HostExcluded;
    forall o | o in once ensures Settle(p, o, once[o]) == once[o] {
      assert once[o] == Settle(p, o, states[o]);
    }
  }

  /** Blocks or unblocks one origin for the operator; exclusion still applies to an automatic unseeded one. */
  method SetExactCrawlBlock(db: Database, p: Policy, o: string, host: string, blocked: bool)
    requires db.Valid() && p.hostOf(o) == Some(host)
    modifies db`states
    ensures db.Valid() && o in db.states
    ensures var s := StateOf(old(db.Snapshot()), o).(operatorBlocked := blocked, blocked := blocked);
            db.states == old(db.states)[o := Settle(p, o, s)]
  {
    hide AllJustified, LedgersAgree, Excluded, Patterns, Lower, TrimDot;
    var s := StateOf(db.Snapshot(), o).(operatorBlocked := blocked, blocked := blocked);
    if s.automatic && !s.seeded {
      var excluded := Excludes(p.config, host, p.space);
      s := s.(blocked := s.blocked || excluded);
    }
    StatesAreSeparate(db.Snapshot(), db.states[o := s]);
    db.states := db.states[o := s];
  }

  /** The block of one managed row. */
  method EffectiveBlock(p: Policy, o: string, s: SourceState) returns (blocked: bool)
    ensures blocked == Due(p, o, s)
  {
    var host := p.hostOf(o);
    if host.None? { return true; }
    var excluded := Excludes(p.config, host.value, p.space);
    blocked := s.operatorBlocked || excluded;
  }

  lemma RecomputedIsAlike(p: Policy, states: map<string, SourceState>)
    ensures Alike(states, Recomputed(p, states))
  {
    hide Due;
  }

  /** The rows in `rest` are still to be decided; the others are settled and counted. */
  ghost predicate Progress(p: Policy, before: map<string, SourceState>, after: map<string, SourceState>,
                           rest: set<string>, changed: nat) {
    && after.Keys == before.Keys && rest <= before.Keys
    && (forall o :: o in before ==> after[o] == if o in rest then before[o] else Settle(p, o, before[o]))
    && changed == |Changed(p, before) - rest|
  }

  lemma ProgressStarts(p: Policy, before: map<string, SourceState>)
    ensures Progress(p, before, before, set o | o in before && Managed(before[o]), 0)
  {
    assert Changed(p, before) - (set o | o in before && Managed(before[o])) == {};
  }

  lemma CountStep(p: Policy, before: map<string, SourceState>, rest: set<string>, o: string)
    requires o in before && o in rest && Managed(before[o])
    ensures |Changed(p, before) - (rest - {o})| ==
      |Changed(p, before) - rest| + if Due(p, o, before[o]) == before[o].blocked then 0 else 1
  {
    hide Due;
    var all := Changed(p, before);
    if Due(p, o, before[o]) == before[o].blocked {
      assert o !in all;
      assert all - (rest - {o}) == all - rest;
    } else {
      assert o in all;
      assert all - (rest - {o}) == (all - rest) + {o};
    }
  }

  lemma ProgressStep(p: Policy, before: map<string, SourceState>, after: map<string, SourceState>, rest: set<string>,
                     changed: nat, o: string)
    requires Progress(p, before, after, rest, changed) && o in rest && Managed(before[o])
    ensures Due(p, o, before[o]) == before[o].blocked ==> Progress(p, before, after, rest - {o}, changed)
    ensures Due(p, o, before[o]) != before[o].blocked ==>
      Progress(p, before, after[o := before[o].(blocked := Due(p, o, before[o]))], rest - {o}, changed + 1)
  {
    hide Due, Changed;
    CountStep(p, before, rest, o);
    assert Settle(p, o, before[o]) == before[o].(blocked := Due(p, o, before[o]));
    hide Settle;
  }

  lemma ProgressEnds(p: Policy, before: map<string, SourceState>, after: map<string, SourceState>, changed: nat)
    requires Progress(p, before, after, {}, changed)
    ensures after == Recomputed(p, before) && changed == |Changed(p, before)|
  {
    hide Due;
    assert Changed(p, before) - {} == Changed(p, before);
  }

  /** The loop over managed rows writes only rows whose block is wrong, and counts them. */
  method RecomputeAutomaticCrawlBlocks(db: Database, p: Policy) returns (changed: nat)
    requires db.Valid()
    modifies db`states
    ensures db.Valid()
    ensures db.states == Recomputed(p, old(db.states)) && changed == |Changed(p, old(db.states))|
  {
    hide Due, AllJustified, LedgersAgree, Alike, Changed, Recomputed, Settle;
    ghost var before := db.states;
    RecomputedIsAlike(p, before);
    StatesAreSeparate(db.Snapshot(), Recomputed(p, before));
    var rest := set o | o in db.states && Managed(db.states[o]);
    changed := 0;
    ProgressStarts(p, before);
    while rest != {}
      invariant Progress(p, before, db.states, rest, changed)
      invariant forall o :: o in rest ==> o in before && Managed(before[o])
    {
      var o :| o in rest;
      ProgressStep(p, before, db.states, rest, changed, o);
      assert db.states[o] == before[o];
      hide Progress;
      var effective := EffectiveBlock(p, o, db.states[o]);
      if effective != db.states[o].blocked {
        db.states := db.states[o := db.states[o].(blocked := effective)];
        changed := changed + 1;
      }
      rest := rest - {o};
    }
    ProgressEnds(p, before, db.states, changed);
  }
}
