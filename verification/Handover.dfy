/**
 Handing registry snapshots from the exporter to the publisher through a
 directory per snapshot and a file that names the current one.

 The two are separate processes; the exporter may stop or crash between any two
 file operations and be started again.
 */
module Handover {
  import opened Wrappers

  type Name = string

  /**
   The exporter: not running, cleaning up after its start, between exports, writing a snapshot, or
   cleaning up after a new snapshot became current.
   */
  datatype Exporter =
    | Off
    | Starting(previous: Option<Name>)
    | Idle(previous: Option<Name>)
    | Exporting(name: Name, previous: Option<Name>)
    | Installed(name: Name, previous: Option<Name>)

  /**
   What the publisher is working on: the name it read, how often the current name changed since,
   and whether the exporter was restarted after a change.
   */
  datatype Reading = Reading(name: Name, moves: nat, restarted: bool)

  /** `used` collects every snapshot name there ever was. */
  datatype World = World(exporter: Exporter, current: Option<Name>, snapshots: set<Name>,
    reading: Option<Reading>, used: set<Name>)

  datatype Action =
    | Start | RemoveOne(name: Name) | CleanupDone | BeginExport(name: Name) | ExportFails | MoveCurrent | Stop
    | ReadCurrent | PublishDone

  function Moved(r: Option<Reading>): Option<Reading> {
    if r.Some? then Some(r.value.(moves := r.value.moves + 1)) else None
  }

  function Restarted(r: Option<Reading>): Option<Reading> {
    if r.Some? && r.value.moves > 0 then Some(r.value.(restarted := true)) else r
  }

  /** The snapshots a cleanup keeps. */
  function Kept(e: Exporter): set<Name> {
    match e
    case Starting(previous) => if previous.Some? then {previous.value} else {}
    case Installed(name, previous) => {name} + if previous.Some? then {previous.value} else {}
    case _ => {}
  }

  predicate Cleaning(e: Exporter) { e.Starting? || e.Installed? }

  ghost predicate Step(a: Action, w: World, w': World) {
    match a
    case Start => w.exporter.Off? && w' == w.(exporter := Starting(w.current), reading := Restarted(w.reading))
    case RemoveOne(name) =>
      && Cleaning(w.exporter) && name in w.snapshots && name !in Kept(w.exporter)
      && w' == w.(snapshots := w.snapshots - {name})
    case CleanupDone =>
      && Cleaning(w.exporter) && w.snapshots <= Kept(w.exporter)
      && w' == w.(exporter := Idle(if w.exporter.Installed? then Some(w.exporter.name) else w.exporter.previous))
    case BeginExport(name) =>
      && w.exporter.Idle? && name !in w.snapshots
      && w' == w.(exporter := Exporting(name, w.exporter.previous), snapshots := w.snapshots + {name},
           used := w.used + {name})
    case ExportFails =>
      && w.exporter.Exporting?
      && w' == w.(exporter := Idle(w.exporter.previous), snapshots := w.snapshots - {w.exporter.name})
    case MoveCurrent =>
      && w.exporter.Exporting?
      && w' == w.(exporter := Installed(w.exporter.name, w.exporter.previous),
           current := Some(w.exporter.name), reading := Moved(w.reading))
    case Stop => w' == w.(exporter := Off)
    case ReadCurrent => w.current.Some? && w' == w.(reading := Some(Reading(w.current.value, 0, false)))
    case PublishDone => w' == w.(reading := None)
  }

  ghost predicate Next(w: World, w': World) { exists a :: Step(a, w, w') }

  ghost predicate Run(ws: seq<World>) {
    && ws != [] && ws[0] == World(Off, None, {}, None, {})
    && forall i, j :: 0 <= i && j == i + 1 && j < |ws| ==> Next(ws[i], ws[j])
  }

  /** The current snapshot is there, and the exporter knows its name. */
  ghost predicate CurrentHolds(w: World) {
    && (w.current.Some? ==> w.current.value in w.snapshots)
    && match w.exporter
       case Off => true
       case Starting(previous) => previous == w.current
       case Idle(previous) => previous == w.current
       case Exporting(name, previous) => previous == w.current && name in w.snapshots && w.current != Some(name)
       case Installed(name, previous) => w.current == Some(name) && previous != Some(name)
  }

  /** What a publisher read stays there while the current name changes once. */
  ghost predicate ReadingHolds(w: World) {
    w.reading.Some? ==>
      var r := w.reading.value;
      && (r.moves == 0 ==> w.current == Some(r.name) && !r.restarted)
      && (r.moves == 1 && !r.restarted ==>
            && r.name in w.snapshots && w.current != Some(r.name) && !w.exporter.Starting?
            && (w.exporter.Installed? ==> w.exporter.previous == Some(r.name))
            && (w.exporter.Exporting? ==> w.exporter.name != r.name))
  }

  /** Between exports at most the current and the previous snapshot are kept. */
  ghost predicate Bounded(w: World) {
    && (w.exporter.Idle? ==> |w.snapshots| <= 2)
    && (w.exporter.Exporting? ==> |w.snapshots| <= 3)
  }

  ghost predicate Inv(w: World) { CurrentHolds(w) && ReadingHolds(w) && Bounded(w) }

  lemma StepKeepsBound(a: Action, w: World, w': World)
    requires Bounded(w) && Step(a, w, w') && (w.exporter.Exporting? ==> w.exporter.name in w.snapshots)
    ensures Bounded(w')
  {
    if a.CleanupDone? { SubsetCard(w.snapshots, Kept(w.exporter)); }
  }

  lemma StepKeepsCurrent(a: Action, w: World, w': World)
    requires CurrentHolds(w) && Step(a, w, w')
    ensures CurrentHolds(w')
  {
  }

  lemma StepKeepsReading(a: Action, w: World, w': World)
    requires CurrentHolds(w) && ReadingHolds(w) && Step(a, w, w')
    ensures ReadingHolds(w')
  {
  }

  lemma StepKeepsInv(w: World, w': World)
    requires Inv(w) && Next(w, w')
    ensures Inv(w')
  {
    var a :| Step(a, w, w');
    assert w.exporter.Exporting? ==> w.exporter.name in w.snapshots;
    hide Bounded, CurrentHolds, ReadingHolds, Step;
    StepKeepsCurrent(a, w, w');
    StepKeepsReading(a, w, w');
    StepKeepsBound(a, w, w');
  }

  lemma {:induction false} RunKeepsInv(ws: seq<World>, k: nat)
    requires Run(ws) && k < |ws|
    ensures Inv(ws[k])
  {
    if k > 0 {
      RunKeepsInv(ws, k - 1);
      hide Inv, Next;
      StepKeepsInv(ws[k - 1], ws[k]);
    }
  }

  /**
   The snapshot is still owed to the publisher: the current name has not changed, or once and with
   no restart after it.
   */
  predicate Owed(r: Reading) { r.moves == 0 || (r.moves == 1 && !r.restarted) }

  /**
   At every moment the current snapshot exists, and a snapshot the publisher read exists
   as long as it is owed, whatever restarts came before the current name changed.
   */
  lemma HandoverHolds(ws: seq<World>, k: nat)
    requires Run(ws) && k < |ws|
    ensures ws[k].current.Some? ==> ws[k].current.value in ws[k].snapshots
    ensures ws[k].reading.Some? && Owed(ws[k].reading.value) ==> ws[k].reading.value.name in ws[k].snapshots
    ensures ws[k].exporter.Idle? ==> |ws[k].snapshots| <= 2
  {
    RunKeepsInv(ws, k);
  }

  // ---- Exactly as long ------------------------------------------------------------------

  /** Every export takes a name that was never used; the random part of a name sees to that. */
  ghost predicate FreshNames(ws: seq<World>) {
    forall i, j :: 0 <= i && j == i + 1 && j < |ws| ==> FreshName(ws[i], ws[j])
  }

  predicate FreshName(w: World, w': World) {
    w.exporter.Idle? && w'.exporter.Exporting? ==> w'.exporter.name !in w.used
  }

  ghost predicate Known(w: World) {
    && w.snapshots <= w.used && (w.current.Some? ==> w.current.value in w.used)
    && (w.reading.Some? ==> w.reading.value.name in w.used)
    && (w.exporter.Exporting? ==> w.exporter.name in w.used)
  }

  /** A snapshot no longer owed is not protected by any cleanup, and is gone after it. */
  ghost predicate GoneHolds(w: World) {
    w.reading.Some? && w.reading.value.moves > 0 ==>
      var r := w.reading.value;
      && w.current != Some(r.name)
      && (w.exporter.Exporting? ==> w.exporter.name != r.name)
      && (!Owed(r) && (w.exporter.Idle? || w.exporter.Exporting?) ==> r.name !in w.snapshots)
      && (w.exporter.Installed? && !Owed(r) ==> r.moves > 1 && w.exporter.previous != Some(r.name))
  }

  lemma StepKeepsKnown(a: Action, w: World, w': World)
    requires Known(w) && CurrentHolds(w) && Step(a, w, w')
    ensures Known(w')
  {
  }

  lemma StepKeepsGone(a: Action, w: World, w': World)
    requires Known(w) && CurrentHolds(w) && ReadingHolds(w) && GoneHolds(w) && Step(a, w, w') && FreshName(w, w')
    ensures GoneHolds(w')
  {
  }

  lemma {:induction false} RunKeepsGone(ws: seq<World>, k: nat)
    requires Run(ws) && FreshNames(ws) && k < |ws|
    ensures Known(ws[k]) && GoneHolds(ws[k])
  {
    if k > 0 {
      var i := k - 1;
      RunKeepsGone(ws, i);
      RunKeepsInv(ws, i);
      assert Next(ws[i], ws[k]) && FreshName(ws[i], ws[k]);
      var a :| Step(a, ws[i], ws[k]);
      hide Run, FreshNames, Known, GoneHolds, CurrentHolds, ReadingHolds, Bounded, Step, FreshName;
      StepKeepsKnown(a, ws[i], ws[k]);
      StepKeepsGone(a, ws[i], ws[k]);
    }
  }

  /** Between exports, the snapshot the publisher read is there exactly as long as it is owed. */
  lemma HandoverIsExact(ws: seq<World>, k: nat)
    requires Run(ws) && FreshNames(ws) && k < |ws| && ws[k].exporter.Idle? && ws[k].reading.Some?
    ensures ws[k].reading.value.name in ws[k].snapshots <==> Owed(ws[k].reading.value)
  {
    HandoverHolds(ws, k);
    RunKeepsGone(ws, k);
  }

  // ---- The two ways to lose a snapshot -----------------------------------------------------

  lemma RunExtends(ws: seq<World>, a: Action, w: World) returns (more: seq<World>)
    requires Run(ws) && Step(a, ws[|ws| - 1], w)
    ensures Run(more) && more == ws + [w]
  {
    more := ws + [w];
    assert Next(ws[|ws| - 1], w);
    hide Next;
    forall i, j | 0 <= i && j == i + 1 && j < |more| ensures Next(more[i], more[j]) {
      if j < |ws| { assert Next(ws[i], ws[j]); }
    }
  }

  lemma RunStarts(ws: seq<World>)
    requires ws == [World(Off, None, {}, None, {})]
    ensures Run(ws)
  {
  }

  /**
   A run in which the publisher reads snapshot "a", the exporter restarts before anything changed,
   and "b" becomes current.
   */
  lemma ReadAndMoved() returns (ws: seq<World>)
    ensures Run(ws) && ws[|ws| - 1] ==
      World(Installed("b", Some("a")), Some("b"), {"a", "b"}, Some(Reading("a", 1, false)), {"a", "b"})
  {
    ws := [World(Off, None, {}, None, {})];
    hide Run, Next;
    RunStarts(ws);
    var read := Some(Reading("a", 0, false));
    ws := RunExtends(ws, Start, World(Starting(None), None, {}, None, {}));
    ws := RunExtends(ws, CleanupDone, World(Idle(None), None, {}, None, {}));
    ws := RunExtends(ws, BeginExport("a"), World(Exporting("a", None), None, {"a"}, None, {"a"}));
    ws := RunExtends(ws, MoveCurrent, World(Installed("a", None), Some("a"), {"a"}, None, {"a"}));
    ws := RunExtends(ws, ReadCurrent, World(Installed("a", None), Some("a"), {"a"}, read, {"a"}));
    ws := RunExtends(ws, Stop, World(Off, Some("a"), {"a"}, read, {"a"}));
    ws := RunExtends(ws, Start, World(Starting(Some("a")), Some("a"), {"a"}, read, {"a"}));
    ws := RunExtends(ws, CleanupDone, World(Idle(Some("a")), Some("a"), {"a"}, read, {"a"}));
    ws := RunExtends(ws, BeginExport("b"), World(Exporting("b", Some("a")), Some("a"), {"a", "b"}, read, {"a", "b"}));
    ws := RunExtends(ws, MoveCurrent,
      World(Installed("b", Some("a")), Some("b"), {"a", "b"}, Some(Reading("a", 1, false)), {"a", "b"}));
  }

  /** A restart after the change keeps the current snapshot only, so the one being published goes. */
  lemma RestartLosesReading() returns (ws: seq<World>)
    ensures Run(ws) && ws[|ws| - 1].reading == Some(Reading("a", 1, true)) && "a" !in ws[|ws| - 1].snapshots
  {
    ws := ReadAndMoved();
    hide Run, Next;
    var used := {"a", "b"};
    ws := RunExtends(ws, Stop, World(Off, Some("b"), {"a", "b"}, Some(Reading("a", 1, false)), used));
    ws := RunExtends(ws, Start, World(Starting(Some("b")), Some("b"), {"a", "b"}, Some(Reading("a", 1, true)), used));
    ws := RunExtends(ws, RemoveOne("a"),
      World(Starting(Some("b")), Some("b"), {"b"}, Some(Reading("a", 1, true)), used));
  }

  /** A second export loses it without any restart. */
  lemma SecondExportLosesReading() returns (ws: seq<World>)
    ensures Run(ws) && ws[|ws| - 1].reading == Some(Reading("a", 2, false)) && "a" !in ws[|ws| - 1].snapshots
  {
    ws := ReadAndMoved();
    hide Run, Next;
    var once, twice := Some(Reading("a", 1, false)), Some(Reading("a", 2, false));
    var used := {"a", "b", "c"};
    ws := RunExtends(ws, CleanupDone, World(Idle(Some("b")), Some("b"), {"a", "b"}, once, {"a", "b"}));
    ws := RunExtends(ws, BeginExport("c"), World(Exporting("c", Some("b")), Some("b"), {"a", "b", "c"}, once, used));
    ws := RunExtends(ws, MoveCurrent, World(Installed("c", Some("b")), Some("c"), {"a", "b", "c"}, twice, used));
    ws := RunExtends(ws, RemoveOne("a"), World(Installed("c", Some("b")), Some("c"), {"b", "c"}, twice, used));
  }
}
