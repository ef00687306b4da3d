/**
 A queue row through all its lives. A completion may remove a probe, and the same
 origin may be inserted again later; the new row starts counting generations at
 zero, and the fence compares nothing but worker, generation and expiry.
 */
module QueueLives {
  import opened Wrappers
  import opened Queue
  import opened Leases
  import Observations
  import Retry

  /** A lease handed to a worker, with the life of the row it was claimed in. */
  datatype Issued = Issued(life: nat, lease: Lease)

  /** The row, which life it is in, what happened to its leases in this life, and every lease ever issued. */
  datatype World = World(row: Option<Row>, life: nat, log: seq<Entry>, issued: seq<Issued>)

  function IssuedBy(c: Config, w: World, op: Op): seq<Issued>
    requires w.row.Some?
  {
    if op.DoClaim? && Effective(c, w.row.value, op)
    then [Issued(w.life, Lease(op.worker, w.row.value.generation + 1, op.now, op.now + c.leaseDuration))]
    else []
  }

  /** An operation on the row; clock readings are arbitrary. */
  function Operated(c: Config, w: World, op: Op): World
    requires w.row.Some?
  {
    World(Apply(c, w.row.value, op), w.life, w.log + Logged(c, w.row.value, op), w.issued + IssuedBy(c, w, op))
  }

  /** A row is inserted again, by admission as a probe or by explicit scheduling. */
  function Inserted(w: World, mode: Mode, at: int): World { World(Some(NewRow(mode, at)), w.life + 1, [], w.issued) }

  ghost predicate Next(c: Config, w: World, w': World) {
    || (w.row.Some? && exists op :: w' == Operated(c, w, op))
    || (w.row.None? && exists mode, at :: w' == Inserted(w, mode, at))
  }

  ghost predicate Run(c: Config, ws: seq<World>) {
    && ValidConfig(c) && ws != [] && ws[0] == World(None, 0, [], [])
    && forall i, j :: 0 <= i && j == i + 1 && j < |ws| ==> Next(c, ws[i], ws[j])
  }

  // ---- What every run keeps ---------------------------------------------------------

  /** No two leases of one life have the same generation. */
  ghost predicate Numbered(issued: seq<Issued>) {
    forall i, j :: 0 <= i < j < |issued| && issued[i].life == issued[j].life ==>
      issued[i].lease.generation != issued[j].lease.generation
  }

  ghost predicate Earlier(issued: seq<Issued>, life: nat, generation: nat) {
    forall i :: 0 <= i < |issued| ==>
      issued[i].life <= life && (issued[i].life == life ==> issued[i].lease.generation <= generation)
  }

  /** The holder of the row is the last lease issued. */
  ghost predicate LastHolds(r: Row, life: nat, issued: seq<Issued>) {
    r.hold.Some? ==>
      && issued != []
      && var last := issued[|issued| - 1];
         last.life == life && last.lease.generation == r.generation && last.lease.worker == r.hold.value.worker
  }

  ghost predicate Kept(c: Config, w: World) {
    && Sound(c, Life(w.row, w.log)) && Numbered(w.issued)
    && (w.row.Some? ==>
          && w.row.value.generation == Claims(w.log)
          && Earlier(w.issued, w.life, w.row.value.generation) && LastHolds(w.row.value, w.life, w.issued))
    && (w.row.None? ==> forall i :: 0 <= i < |w.issued| ==> w.issued[i].life <= w.life)
  }

  /** Generation, log and holder after an operation. */
  lemma OperationShape(c: Config, r: Row, log: seq<Entry>, op: Op)
    requires r.generation == Claims(log)
    ensures Apply(c, r, op).Some? ==>
      var r' := Apply(c, r, op).value;
      && r'.generation == Claims(log + Logged(c, r, op))
      && (op.DoClaim? && Effective(c, r, op) ==>
            r'.generation == r.generation + 1 && r'.hold.Some? && r'.hold.value.worker == op.worker)
      && (!(op.DoClaim? && Effective(c, r, op)) ==>
            && r'.generation == r.generation
            && (r'.hold.Some? ==> r.hold.Some? && r'.hold.value.worker == r.hold.value.worker))
  {
    GenerationStep(c, r, op);
    if Logged(c, r, op) == [] {
      assert log + [] == log;
    } else {
      assert Logged(c, r, op) == [Logged(c, r, op)[0]];
      ClaimsNext(log, Logged(c, r, op)[0]);
    }
    hide Claims, Complete;
  }

  lemma IssueKeeps(issued: seq<Issued>, life: nat, generation: nat, l: Lease)
    requires Numbered(issued) && Earlier(issued, life, generation) && l.generation == generation + 1
    ensures Numbered(issued + [Issued(life, l)]) && Earlier(issued + [Issued(life, l)], life, generation + 1)
  {
  }

  lemma OperationKeeps(c: Config, w: World, op: Op)
    requires ValidConfig(c) && w.row.Some? && Kept(c, w)
    ensures Kept(c, Operated(c, w, op))
  {
    hide Sound, Claims, Apply, Effective, Logged, Numbered, Earlier;
    var r, w' := w.row.value, Operated(c, w, op);
    OperationShape(c, r, w.log, op);
    assert Queue.Next(c, Life(w.row, w.log), Life(w'.row, w'.log));
    StepKeepsSound(c, Life(w.row, w.log), Life(w'.row, w'.log));
    if op.DoClaim? && Effective(c, r, op) {
      IssueKeeps(w.issued, w.life, r.generation, IssuedBy(c, w, op)[0].lease);
    } else {
      assert w.issued + [] == w.issued;
    }
    if w'.row.None? {
      EarlierMeans(w'.issued, w.life, if op.DoClaim? && Effective(c, r, op) then r.generation + 1 else r.generation);
    }
  }

  lemma EarlierMeans(issued: seq<Issued>, life: nat, generation: nat)
    requires Earlier(issued, life, generation)
    ensures forall i :: 0 <= i < |issued| ==> issued[i].life <= life
  {
  }

  lemma InsertionKeeps(c: Config, w: World, mode: Mode, at: int)
    requires w.row.None? && Kept(c, w)
    ensures Kept(c, Inserted(w, mode, at))
  {
    assert Claims([]) == 0;
  }

  lemma StepKeeps(c: Config, w: World, w': World)
    requires ValidConfig(c) && Kept(c, w) && Next(c, w, w')
    ensures Kept(c, w')
  {
    if w.row.Some? {
      var op :| w' == Operated(c, w, op);
      hide Kept;
      OperationKeeps(c, w, op);
    } else {
      var mode, at :| w' == Inserted(w, mode, at);
      hide Kept;
      InsertionKeeps(c, w, mode, at);
    }
  }

  lemma {:induction false} RunKeeps(c: Config, ws: seq<World>, k: nat)
    requires Run(c, ws) && k < |ws|
    ensures Kept(c, ws[k])
  {
    if k > 0 {
      RunKeeps(c, ws, k - 1);
      hide Kept, Next;
      StepKeeps(c, ws[k - 1], ws[k]);
    }
  }

  /** In every life of every run: fencing, exclusive leases and claims the interval apart. */
  lemma EveryLifeIsFenced(c: Config, ws: seq<World>, k: nat)
    requires Run(c, ws) && k < |ws|
    ensures Fenced(ws[k].log) && Exclusive(ws[k].log) && Spaced(ws[k].log, c.minOriginInterval)
  {
    RunKeeps(c, ws, k);
  }

  // ---- Exactly which leases pass the fence ----------------------------------------------

  predicate Passes(w: World, i: nat, now: int)
    requires i < |w.issued|
  {
    w.row.Some? && Holds(w.row.value, w.issued[i].lease, now)
  }

  /**
   A lease of the present life passes the fence exactly while it is the last one issued and
   is neither released nor expired. A lease of an earlier life passes it exactly while the
   present life has had as many claims as its own generation, and the last of them is by
   the same worker and neither released nor expired.
   */
  lemma AuthorityExactly(c: Config, ws: seq<World>, k: nat, i: nat, now: int)
    requires Run(c, ws) && k < |ws| && i < |ws[k].issued|
    ensures var w := ws[k];
            && w.issued[i].life <= w.life
            && (w.issued[i].life == w.life ==>
                  (Passes(w, i, now) <==> i == |w.issued| - 1 && w.row.Some? && Leased(w.row.value, now)))
            && (w.issued[i].life < w.life ==>
                  (Passes(w, i, now) <==>
                     && w.row.Some? && Leased(w.row.value, now) && Claims(w.log) == w.issued[i].lease.generation
                     && w.issued[|w.issued| - 1].lease.worker == w.issued[i].lease.worker))
  {
    RunKeeps(c, ws, k);
    hide Run, Sound, Claims;
  }

  /**
   The fence admits the true holder only, if and only if no lease of an earlier life looks like the
   last one issued.
   */
  lemma FenceIsExact(c: Config, ws: seq<World>, k: nat, now: int)
    requires Run(c, ws) && k < |ws| && ws[k].row.Some? && Leased(ws[k].row.value, now)
    ensures var w := ws[k];
            && w.issued != []
            && var last := |w.issued| - 1;
               && Passes(w, last, now)
               && ((forall i :: 0 <= i < |w.issued| && Passes(w, i, now) ==> i == last) <==>
                   (forall i :: 0 <= i < last ==>
                      w.issued[i].lease.worker != w.issued[last].lease.worker ||
                        w.issued[i].lease.generation != w.issued[last].lease.generation))
  {
    RunKeeps(c, ws, k);
    hide Run, Sound, Claims, Numbered, Earlier;
    var w := ws[k];
    var last := |w.issued| - 1;
    forall i | 0 <= i < |w.issued|
      ensures Passes(w, i, now) <==>
        w.issued[i].lease.worker == w.issued[last].lease.worker &&
          w.issued[i].lease.generation == w.issued[last].lease.generation
    {
    }
    hide Passes;
    assert (forall i :: 0 <= i < |w.issued| && Passes(w, i, now) ==> i == last) ==>
      forall i :: 0 <= i < last ==> !Passes(w, i, now);
  }

  // ---- A run with two lives -----------------------------------------------------------------

  lemma RunExtends(c: Config, ws: seq<World>, w: World) returns (more: seq<World>)
    requires Run(c, ws) && Next(c, ws[|ws| - 1], w)
    ensures Run(c, more) && more == ws + [w]
  {
    more := ws + [w];
    hide Next;
    forall i, j | 0 <= i && j == i + 1 && j < |more| ensures Next(c, more[i], more[j]) {
      if j < |ws| { assert Next(c, ws[i], ws[j]); }
    }
  }

  lemma RunOperates(c: Config, ws: seq<World>, op: Op) returns (more: seq<World>)
    requires Run(c, ws) && ws[|ws| - 1].row.Some?
    ensures Run(c, more) && more == ws + [Operated(c, ws[|ws| - 1], op)]
  {
    var w := ws[|ws| - 1];
    hide Run, Operated;
    assert Next(c, w, Operated(c, w, op));
    more := RunExtends(c, ws, Operated(c, w, op));
  }

  lemma RunInserts(c: Config, ws: seq<World>, mode: Mode, at: int) returns (more: seq<World>)
    requires Run(c, ws) && ws[|ws| - 1].row.None?
    ensures Run(c, more) && more == ws + [Inserted(ws[|ws| - 1], mode, at)]
  {
    var w := ws[|ws| - 1];
    hide Run, Inserted;
    assert Next(c, w, Inserted(w, mode, at));
    more := RunExtends(c, ws, Inserted(w, mode, at));
  }

  function ClaimedRow(c: Config, worker: string, now: int): Row {
    Row(Probe, now, 1, Some(Hold(worker, now + c.leaseDuration)), Some(now), 0, None, None)
  }

  /** Claiming and losing a probe. */
  lemma ProbeOperations(c: Config, w: World, worker: string, t: int)
    requires ValidConfig(c) && w.row == Some(NewRow(Probe, t))
    ensures var l := Lease(worker, 1, t, t + c.leaseDuration);
            var lost := Verdict(Observations.Unavailable, None, Retry.Http4xx, 0);
            var claimed := Operated(c, w, DoClaim(worker, t, false));
            && claimed.row == Some(ClaimedRow(c, worker, t)) && claimed.life == w.life &&
                 claimed.issued == w.issued + [Issued(w.life, l)]
            && var done := Operated(c, claimed, DoComplete(l, lost, 1, t, false, Background(false, 0)));
               done.row == None && done.life == w.life && done.issued == claimed.issued
  {
    var l, lost := Lease(worker, 1, t, t + c.leaseDuration), Verdict(Observations.Unavailable, None, Retry.Http4xx, 0);
    var claimed := Operated(c, w, DoClaim(worker, t, false));
    assert claimed.row == Some(ClaimedRow(c, worker, t));
    assert claimed.issued + [] == claimed.issued;
  }

  /**
   A probe is claimed at time zero, completed as unreachable, admitted and claimed again by the
   same worker at time one: the lease of the first life passes the fence of the second, and the
   two claims are closer than any interval above one.
   */
  lemma StaleLeasePasses(c: Config, worker: string) returns (ws: seq<World>)
    requires ValidConfig(c)
    ensures Run(c, ws)
    ensures var w := ws[|ws| - 1];
            && w.life == 2 && |w.issued| == 2 && w.issued[0].life == 1 && w.issued[1].life == 2
            && w.issued[0].lease.claimedAt == 0 && w.issued[1].lease.claimedAt == 1
            && Passes(w, 0, 1)
  {
    hide Operated;
    var lost := Verdict(Observations.Unavailable, None, Retry.Http4xx, 0);
    ws := RunInserts(c, [World(None, 0, [], [])], Probe, 0);
    ProbeOperations(c, ws[|ws| - 1], worker, 0);
    ws := RunOperates(c, ws, DoClaim(worker, 0, false));
    ws := RunOperates(c, ws,
      DoComplete(Lease(worker, 1, 0, 0 + c.leaseDuration), lost, 1, 0, false, Background(false, 0)));
    ws := RunInserts(c, ws, Probe, 1);
    ProbeOperations(c, ws[|ws| - 1], worker, 1);
    ws := RunOperates(c, ws, DoClaim(worker, 1, false));
  }
}
