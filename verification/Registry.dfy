/**
 The public registry: the rows read from stored participation state, and the
 deterministic snapshot built from them.

 JSON text is not modelled: a file carries the document it encodes.
 */
module Registry {
  import opened Wrappers
  import opened Observations
  import Ordering

  datatype Participant = Participant(origin: string, firstAt: int, initial: Declaration,
                                     latestAt: int, latest: Outcome, current: Option<Declaration>)

  // ---- Reading stored rows ---------------------------------------------------

  datatype ScanError =
    | InitialDeclaration | ParticipationTimes | NoState | StateOutcome | CurrentDeclaration | StrayDeclaration

  /** One row of the registry query: the summary joined with the newest authoritative observation. */
  function Scan(origin: string, s: Summary, effective: Option<Check>): Result<Participant, ScanError>
    requires s.participation.Some?
  {
    var p := s.participation.value;
    if p.initial.version != 1 then Err(InitialDeclaration)
    else if p.at > s.latestAt then Err(ParticipationTimes)
    else if effective.None? then Err(NoState)
    else if !Authoritative(effective.value.outcome) then Err(StateOutcome)
    else if effective.value.outcome == Valid
            && (effective.value.declared.None? || effective.value.declared.value.version != 1)
    then Err(CurrentDeclaration)
    else if effective.value.outcome != Valid && effective.value.declared.Some? then Err(StrayDeclaration)
    else Ok(Participant(origin, p.at, p.initial, s.latestAt, s.latestOutcome, effective.value.declared))
  }

  function Effective(l: Ledger): Option<Check> {
    var newest := Newest(l.stored, true);
    if newest.None? then None else Some(newest.value.check)
  }

  predicate Participates(l: Ledger) { l.summary.Some? && l.summary.value.participation.Some? }

  function ScanLedger(origin: string, l: Ledger): Result<Participant, ScanError>
    requires Participates(l)
  {
    Scan(origin, l.summary.value, Effective(l))
  }

  /** What the snapshot builder accepts. */
  predicate ValidParticipant(p: Participant) {
    && p.origin != "" && p.firstAt != 0 && p.latestAt != 0 && p.firstAt <= p.latestAt
    && p.initial.version == 1 && (p.current.Some? ==> p.current.value.version == 1)
    && (Authoritative(p.latest) ==> (p.latest == Valid <==> p.current.Some?))
  }

  /** A participant has a settled state, no earlier than its first valid check. */
  lemma EffectiveExists(l: Ledger, h: seq<Check>)
    requires Reflects(l, h) && AllAdmissible(h) && Participates(l)
    ensures Effective(l).Some? && Effective(l).value in h && Authoritative(Effective(l).value.outcome)
    ensures Authoritative(l.summary.value.latestOutcome) ==> Effective(l).value.outcome == l.summary.value.latestOutcome
  {
    hide Newest, Misses, Backed, FirstSeen;
    var all, s := Everything(h), l.summary.value;
    NewestIsNewest(all, true);
    var i :| 0 <= i < |h| && IsFirstValid(s.participation.value, h, i);
    assert Admissible(h[i]) && h[i].outcome == Valid;
    assert all[i] in all && Counts(all[i], true);
    var e := Newest(all, true).value;
    var j :| 0 <= j < |h| && IsLast(s.latestAt, s.latestOutcome, h, j);
    assert all[j] in all;
    assert h[e.id] == e.check;
  }

  /** Every row a run can store is read back without error, and the builder accepts what is read. */
  lemma StoredRowsAreReadable(origin: string, l: Ledger, h: seq<Check>)
    requires origin != "" && Reflects(l, h) && AllAdmissible(h) && Participates(l)
    ensures ScanLedger(origin, l).Ok? && ValidParticipant(ScanLedger(origin, l).value)
    ensures var p := ScanLedger(origin, l).value;
            && p.origin == origin && Summarizes(Summary(l.summary.value.firstObserved,
                 Some(Participation(p.firstAt, p.initial)), p.latestAt, p.latest), h)
            && Newest(Everything(h), true).Some? && p.current == Newest(Everything(h), true).value.check.declared
  {
    EffectiveExists(l, h);
    var s := l.summary.value;
    var i :| 0 <= i < |h| && IsFirstValid(s.participation.value, h, i);
    assert Admissible(h[i]);
    var j :| 0 <= j < |h| && IsLast(s.latestAt, s.latestOutcome, h, j);
    assert Admissible(h[j]);
    assert Admissible(Effective(l).value);
  }

  // ---- The query ----------------------------------------------------------------

  /** The rows of the registry query: every participating origin once, in ascending order. */
  ghost predicate IsQuery(store: map<string, Ledger>, rows: seq<string>) {
    && Ordering.Ascending(rows, x => x)
    && (forall i :: 0 <= i < |rows| ==> rows[i] in store && Participates(store[rows[i]]))
    && forall o :: o in store && Participates(store[o]) ==> o in rows
  }

  /** Reads the rows in order, stopping at the first one that cannot be read. */
  method RegistryOrigins(store: map<string, Ledger>, rows: seq<string>) returns (r: Result<seq<Participant>, ScanError>)
    requires IsQuery(store, rows)
    ensures r.Ok? <==> forall i :: 0 <= i < |rows| ==> ScanLedger(rows[i], store[rows[i]]).Ok?
    ensures r.Ok? ==> |r.value| == |rows| && forall i :: 0 <= i < |rows| ==>
      Ok(r.value[i]) == ScanLedger(rows[i], store[rows[i]])
    ensures r.Err? ==>
      exists i :: 0 <= i < |rows| && ScanLedger(rows[i], store[rows[i]]) == Err(r.error)
                  && forall k :: 0 <= k < i ==> ScanLedger(rows[k], store[rows[k]]).Ok?
  {
    var registry: seq<Participant> := [];
    for i := 0 to |rows|
      invariant |registry| == i
      invariant forall k :: 0 <= k < i ==> ScanLedger(rows[k], store[rows[k]]).Ok?
      invariant forall k :: 0 <= k < i ==> Ok(registry[k]) == ScanLedger(rows[k], store[rows[k]])
    {
      var row := ScanLedger(rows[i], store[rows[i]]);
      if row.Err? { return Err(row.error); }
      registry := registry + [row.value];
    }
    r := Ok(registry);
  }

  // ---- The snapshot ---------------------------------------------------------------

  datatype Entry = Entry(path: string, participant: Participant)

  datatype Document = Node(participant: Participant) | Index(nodes: seq<Entry>)

  datatype File = File(path: string, document: Document)

  datatype BuildError = InvalidRegistryOrigin | DuplicateOrigin

  const INDEX := "registry.json"

  function OriginOf(p: Participant): string { p.origin }

  function PathOf(f: File): string { f.path }

  function Entries(ps: seq<Participant>, path: string -> string): (es: seq<Entry>)
    ensures |es| == |ps| && forall i :: 0 <= i < |ps| ==> es[i] == Entry(path(ps[i].origin), ps[i])
  {
    seq(|ps|, i requires 0 <= i < |ps| => Entry(path(ps[i].origin), ps[i]))
  }

  function NodeFiles(ps: seq<Participant>, path: string -> string): (fs: seq<File>)
    ensures |fs| == |ps| && forall i :: 0 <= i < |ps| ==> fs[i] == File(path(ps[i].origin), Node(ps[i]))
  {
    seq(|ps|, i requires 0 <= i < |ps| => File(path(ps[i].origin), Node(ps[i])))
  }

  function Snapshot(ps: seq<Participant>, path: string -> string): seq<File> {
    var ordered := Ordering.Sort(ps, OriginOf);
    Ordering.Sort(NodeFiles(ordered, path) + [File(INDEX, Index(Entries(ordered, path)))], PathOf)
  }

  ghost predicate Publishable(ps: seq<Participant>) {
    (forall i :: 0 <= i < |ps| ==> ValidParticipant(ps[i])) && Ordering.DistinctKeys(ps, OriginOf)
  }

  /** The first participant that is refused, and why. */
  ghost predicate RefusedAt(ps: seq<Participant>, i: nat, e: BuildError) {
    && i < |ps| && Publishable(ps[..i])
    && (e == InvalidRegistryOrigin <==> !ValidParticipant(ps[i]))
    && (e == DuplicateOrigin ==> exists j :: 0 <= j < i && ps[j].origin == ps[i].origin)
  }

  /** The first loop: every participant is valid and no origin comes twice. */
  method Refusal(participants: seq<Participant>) returns (e: Option<BuildError>)
    ensures e.None? <==> Publishable(participants)
    ensures e.Some? ==> exists i :: RefusedAt(participants, i, e.value)
  {
    hide ValidParticipant;
    var seen: set<string> := {};
    for i := 0 to |participants|
      invariant Publishable(participants[..i])
      invariant forall o :: o in seen <==> exists k :: 0 <= k < i && participants[k].origin == o
    {
      var p := participants[i];
      if !ValidParticipant(p) {
        assert RefusedAt(participants, i, InvalidRegistryOrigin);
        return Some(InvalidRegistryOrigin);
      }
      if p.origin in seen {
        assert RefusedAt(participants, i, DuplicateOrigin);
        var j :| 0 <= j < i && participants[j].origin == p.origin;
        assert OriginOf(participants[j]) == OriginOf(participants[i]);
        return Some(DuplicateOrigin);
      }
      seen := seen + {p.origin};
      assert participants[..i + 1] == participants[..i] + [p];
    }
    assert participants[..|participants|] == participants;
    e := None;
  }

  method BuildRegistry(participants: seq<Participant>,
                       path: string -> string) returns (r: Result<seq<File>, BuildError>)
    ensures r.Ok? <==> Publishable(participants)
    ensures r.Ok? ==> r.value == Snapshot(participants, path)
    ensures r.Err? ==> exists i :: RefusedAt(participants, i, r.error)
  {
    hide Publishable, RefusedAt, Ordering.Sort;
    var refusal := Refusal(participants);
    if refusal.Some? { return Err(refusal.value); }
    var ordered := Ordering.Sort(participants, OriginOf);
    var nodes: seq<Entry>, files: seq<File> := [], [];
    for i := 0 to |ordered|
      invariant nodes == Entries(ordered[..i], path) && files == NodeFiles(ordered[..i], path)
    {
      var file := path(ordered[i].origin);
      nodes := nodes + [Entry(file, ordered[i])];
      files := files + [File(file, Node(ordered[i]))];
    }
    assert ordered[..|ordered|] == ordered;
    files := files + [File(INDEX, Index(nodes))];
    r := Ok(Ordering.Sort(files, PathOf));
  }

  /** Paths that tell the participants apart from each other and from the index. */
  ghost predicate PathsDistinct(ps: seq<Participant>, path: string -> string) {
    && (forall i :: 0 <= i < |ps| ==> path(ps[i].origin) != INDEX)
    && forall i, j :: 0 <= i < |ps| && 0 <= j < |ps| && path(ps[i].origin) == path(ps[j].origin) ==>
         ps[i].origin == ps[j].origin
  }

  /**
   The snapshot holds one file per participant and the index, in ascending order of path; the index
   lists every participant by origin.
   */
  ghost predicate IsSnapshot(ps: seq<Participant>, path: string -> string, ordered: seq<Participant>,
                             files: seq<File>) {
    && Ordering.Ascending(ordered, OriginOf) && multiset(ordered) == multiset(ps)
    && Ordering.Ascending(files, PathOf) && |files| == |ps| + 1
    && File(INDEX, Index(Entries(ordered, path))) in files
    && forall i :: 0 <= i < |ps| ==> File(path(ps[i].origin), Node(ps[i])) in files
  }

  lemma FilesAreDistinct(ordered: seq<Participant>, path: string -> string)
    requires Ordering.DistinctKeys(ordered, OriginOf) && PathsDistinct(ordered, path)
    ensures Ordering.DistinctKeys(NodeFiles(ordered, path) + [File(INDEX, Index(Entries(ordered, path)))], PathOf)
  {
    hide Entries;
    var nodes := NodeFiles(ordered, path);
    var files := nodes + [File(INDEX, Index(Entries(ordered, path)))];
    forall i, j | 0 <= i < j < |files| ensures PathOf(files[i]) != PathOf(files[j]) {
      assert OriginOf(ordered[i]) == ordered[i].origin;
      if j < |nodes| { assert OriginOf(ordered[j]) == ordered[j].origin; }
    }
  }

  lemma PathsDistinctMove(a: seq<Participant>, b: seq<Participant>, path: string -> string)
    requires multiset(a) == multiset(b) && PathsDistinct(a, path)
    ensures PathsDistinct(b, path)
  {
    forall i | 0 <= i < |b| ensures b[i] in a { assert b[i] in multiset(a); }
    forall i, j | 0 <= i < |b| && 0 <= j < |b| ensures path(b[i].origin) != INDEX &&
      (path(b[i].origin) == path(b[j].origin) ==> b[i].origin == b[j].origin) {
      var p :| 0 <= p < |a| && a[p] == b[i];
      var q :| 0 <= q < |a| && a[q] == b[j];
    }
  }

  lemma SnapshotContents(ps: seq<Participant>, path: string -> string)
    requires Publishable(ps) && PathsDistinct(ps, path)
    ensures IsSnapshot(ps, path, Ordering.Sort(ps, OriginOf), Snapshot(ps, path))
  {
    hide Ordering.Sort, ValidParticipant;
    var ordered := Ordering.Sort(ps, OriginOf);
    Ordering.SortAscends(ps, OriginOf);
    Ordering.DistinctKeysMove(ps, ordered, OriginOf);
    PathsDistinctMove(ps, ordered, path);
    FilesAreDistinct(ordered, path);
    var files := NodeFiles(ordered, path) + [File(INDEX, Index(Entries(ordered, path)))];
    Ordering.SortAscends(files, PathOf);
    var sorted := Snapshot(ps, path);
    assert |multiset(sorted)| == |multiset(files)| && |multiset(ordered)| == |multiset(ps)|;
    assert files[|ordered|] in multiset(sorted);
    forall i | 0 <= i < |ps| ensures File(path(ps[i].origin), Node(ps[i])) in sorted {
      assert ps[i] in multiset(ordered);
      var j :| 0 <= j < |ordered| && ordered[j] == ps[i];
      assert files[j] in multiset(sorted);
    }
  }

  /** The same participants in another order are accepted alike and published as the same files. */
  lemma OrderIsIrrelevant(ps: seq<Participant>, qs: seq<Participant>, path: string -> string)
    requires multiset(ps) == multiset(qs)
    ensures Publishable(ps) <==> Publishable(qs)
    ensures Publishable(ps) ==> Snapshot(ps, path) == Snapshot(qs, path)
  {
    hide ValidParticipant;
    if Publishable(ps) { PublishableMoves(ps, qs); }
    if Publishable(qs) { PublishableMoves(qs, ps); }
    if Publishable(ps) {
      Ordering.SortAscends(ps, OriginOf);
      Ordering.SortAscends(qs, OriginOf);
      Ordering.AscendingUnique(Ordering.Sort(ps, OriginOf), Ordering.Sort(qs, OriginOf), OriginOf);
    }
  }

  lemma PublishableMoves(ps: seq<Participant>, qs: seq<Participant>)
    requires multiset(ps) == multiset(qs) && Publishable(ps)
    ensures Publishable(qs)
  {
    hide ValidParticipant;
    Ordering.DistinctKeysMove(ps, qs, OriginOf);
    forall i | 0 <= i < |qs| ensures ValidParticipant(qs[i]) {
      assert qs[i] in multiset(ps);
    }
  }

  /** Whatever was checked and purged before, the registry is readable and publishable. */
  lemma RegistryAlwaysBuilds(store: map<string, Ledger>, histories: map<string, seq<Check>>, rows: seq<string>,
                             ps: seq<Participant>)
    requires IsQuery(store, rows) && "" !in store
    requires forall o :: o in store ==>
      o in histories && AllAdmissible(histories[o]) && Reflects(store[o], histories[o])
    requires |ps| == |rows| && forall i :: 0 <= i < |rows| ==> ScanLedger(rows[i], store[rows[i]]).Ok? ==>
      Ok(ps[i]) == ScanLedger(rows[i], store[rows[i]])
    ensures forall i :: 0 <= i < |rows| ==> ScanLedger(rows[i], store[rows[i]]).Ok?
    ensures Publishable(ps)
  {
    hide Scan, Reflects, AllAdmissible, Participates, ValidParticipant;
    forall i | 0 <= i < |rows| ensures ScanLedger(rows[i], store[rows[i]]).Ok? &&
      ValidParticipant(ps[i]) && ps[i].origin == rows[i] {
      StoredRowsAreReadable(rows[i], store[rows[i]], histories[rows[i]]);
    }
    forall i, j | 0 <= i < j < |ps| ensures OriginOf(ps[i]) != OriginOf(ps[j]) {
      var key: string -> string := x => x;
      assert Ordering.Below(key(rows[i]), key(rows[j]));
      if rows[i] == rows[j] { Ordering.BelowIsAsymmetric(rows[i], rows[j]); }
    }
  }
}
