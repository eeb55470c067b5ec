/** One guard for every restore: what the vault checks on its rows is what the runs of each part assume. */
module RestoreGuards {
  import opened Common
  import opened Recovery
  import opened Restore
  import C = ContinuityRuns
  import J = Journal
  import M = Memories
  import D = Disclosure
  import A = Analytics

  /** `m` has an entry for the key of each row, and no other. */
  ghost predicate KeyedBy<K(!new), V>(rows: set<Row>, key: Row -> K, m: map<K, V>) {
    && (forall r | r in rows :: key(r) in m)
    && (forall k | k in m :: exists r :: r in rows && key(r) == k)
  }

  lemma EmptyTogether<K(!new), V>(rows: set<Row>, key: Row -> K, m: map<K, V>)
    requires KeyedBy(rows, key, m)
    ensures rows == {} <==> m == map[]
  {
    if rows != {} {
      var r :| r in rows;
      assert key(r) in m;
    }
    if m != map[] {
      var k :| k in m;
    }
  }

  /** How the rows of a vault show in the states of the runs: each table through the key of its rows, the audit times
      through the rows that are not of start-up, the interactions as there being one, and as the rows counted. */
  datatype Keys = Keys(text: Row -> string, number: Row -> nat, time: Row -> Time)

  predicate Startup(r: Row) {
    |r| > 2 && r[2] == Str("core_started")
  }

  ghost predicate Shows(db: Db, keys: Keys, c: C.Sys, j: J.Sys, m: M.Tables, a: A.State) {
    && |db| == 18
    && KeyedBy(db[THREADS], keys.text, c.tables.threads) && (c.exchanged <==> db[INTERACTIONS] != {})
    && (forall r | r in db[AUDIT] && !Startup(r) :: keys.time(r) in c.audits)
    && (forall t | t in c.audits :: exists r :: r in db[AUDIT] && !Startup(r) && keys.time(r) == t)
    && KeyedBy(db[JOURNAL], keys.text, j.records)
    && KeyedBy(db[SOURCES], keys.number, m.sources) && KeyedBy(db[MEMORIES], keys.number, m.memories)
    && KeyedBy(db[GRANTS], keys.number, m.grants) && KeyedBy(db[RECEIPTS], keys.number, m.receipts)
    && KeyedBy(db[REPORTS], keys.text, a.reports) && (a.rows == [] <==> db[INTERACTIONS] == {})
  }

  /** The vault admits a restore if and only if the conversations, the journal, the memories and the analytics all do, and
      no client is enrolled. So no run restores what the vault would refuse, nor is refused what it would restore. */
  lemma OneGuard(db: Db, keys: Keys, c: C.Sys, j: J.Sys, m: M.Tables, a: A.State, archive: J.Records)
    requires Shows(db, keys, c, j, m, a)
    ensures Unused(db) <==>
      && C.Restores(c, true) && J.Restores(j, J.Op.Restore(archive, true)) && D.Empty(m) && A.Restorable(a, true)
      && db[CLIENTS] == {}
  {
    UnusedIs(db);
    EmptyTogether(db[THREADS], keys.text, c.tables.threads);
    EmptyTogether(db[JOURNAL], keys.text, j.records);
    EmptyTogether(db[SOURCES], keys.number, m.sources);
    EmptyTogether(db[MEMORIES], keys.number, m.memories);
    EmptyTogether(db[GRANTS], keys.number, m.grants);
    EmptyTogether(db[RECEIPTS], keys.number, m.receipts);
    EmptyTogether(db[REPORTS], keys.text, a.reports);
    OnlyStartup(db[AUDIT], keys.time, c.audits);
    hide KeyedBy;
  }

  lemma OnlyStartup(rows: set<Row>, time: Row -> Time, audits: set<Time>)
    requires forall r | r in rows && !Startup(r) :: time(r) in audits
    requires forall t | t in audits :: exists r :: r in rows && !Startup(r) && time(r) == t
    ensures audits == {} <==> forall r | r in rows :: Startup(r)
  {
    if forall r | r in rows :: Startup(r) {
      assert forall t :: t !in audits;
    }
    if audits == {} {
      forall r | r in rows ensures Startup(r) {
        assert !Startup(r) ==> time(r) in audits;
      }
    }
  }
}
