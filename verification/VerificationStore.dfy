/** Recording verifications and reading an origin's state, outside the queue. */
module VerificationStore {
  import opened Wrappers
  import opened Observations
  import opened Database
  import Queue

  class VerificationStore {
    const db: Database

    constructor (db: Database)
      ensures this.db == db
    {
      this.db := db;
    }

    /** Records one check of any time; the ledger answers for the longer history and the schedule is left alone. */
    method RecordVerification(o: string, v: Queue.Verdict, at: int) returns (recorded: bool)
      requires LedgersAgree(db.ledgers, db.histories)
      modifies db`ledgers, db`histories
      ensures recorded <==> Queue.ValidVerdict(v) && at != 0
      ensures LedgersAgree(db.ledgers, db.histories)
      ensures recorded ==>
        && db.histories == old(db.histories)[o := HistoryOf(old(db.histories), o) + [Check(at, v.outcome, v.declared)]]
        && db.ledgers == old(db.ledgers)[o := Record(LedgerOf(old(db.Snapshot()), o), Check(at, v.outcome, v.declared))]
      ensures !recorded ==> db.histories == old(db.histories) && db.ledgers == old(db.ledgers)
    {
      hide LedgersAgree, Record;
      if !Queue.ValidVerdict(v) || at == 0 { return false; }
      var check := Check(at, v.outcome, v.declared);
      LedgersNext(db.ledgers, db.histories, o, check);
      db.ledgers := db.ledgers[o := Record(LedgerOf(db.Snapshot(), o), check)];
      db.histories := db.histories[o := HistoryOf(db.histories, o) + [check]];
      recorded := true;
    }

    /** The state of an origin, found exactly when it was ever checked. */
    method StateOfOrigin(o: string) returns (s: Option<OriginStatus>)
      requires LedgersAgree(db.ledgers, db.histories)
      ensures s == OriginState(LedgerOf(db.Snapshot(), o))
      ensures s.Some? <==> HistoryOf(db.histories, o) != []
    {
      s := OriginState(LedgerOf(db.Snapshot(), o));
      if o in db.ledgers {
        OriginStateHolds(db.ledgers[o], db.histories[o]);
      } else {
        EmptyReflects();
        OriginStateHolds(EMPTY, []);
      }
    }
  }
}
