/** The vault's own tables: export, the emptiness test, and restore as one transaction. */
module Restore {
  import opened Common
  import opened Recovery

  const SOURCES := 0
  const MEMORIES := 1
  const HISTORY := 2
  const GRANTS := 3
  const RECEIPTS := 4
  const INTERACTIONS := 5
  const REPORTS := 6
  const SETTINGS := 7
  const POLICY := 8
  const DECISIONS := 9
  const JOURNAL := 10
  const AUDIT := 11
  const INSTANCE := 12
  const REQUESTS := 13
  const THREADS := 14
  const TURNS := 15
  const CLIENTS := 16
  const BINDINGS := 17
  const ARCHIVED := 16

  function Texts(n: nat): seq<Kind> {
    seq(n, _ => KText)
  }

  function Plain(kinds: seq<Kind>): TableDef {
    TableDef(kinds, [[0]], [], NoCheck)
  }

  const TABLES: seq<TableDef> := [
    Plain(Texts(5)),
    TableDef(Texts(6), [[0]], [Reference(1, SOURCES)], Status),
    TableDef([KInt] + Texts(4), [[0]], [Reference(1, MEMORIES)], NoCheck),
    Plain(Texts(4) + [KTextOrNull, KText]),
    Plain(Texts(4) + [KTextOrNull, KText]),
    Plain([KText, KText, KInt, KInt, KInt, KInt, KText]),
    TableDef([KText, KText, KReal, KText, KText], [[0], [1]], [], NoCheck),
    Plain(Texts(2)),
    TableDef([KInt, KInt, KText], [[0]], [], Singleton),
    TableDef([KInt, KText, KText], [[0], [1]], [], NoCheck),
    Plain(Texts(7)),
    Plain(Texts(4) + [KTextOrNull, KTextOrNull, KTextOrNull, KText]),
    TableDef([KInt, KText, KText, KInt], [[0]], [], Singleton),
    Plain([KText, KText, KTextOrNull, KInt, KInt, KText]),
    Plain(Texts(6) + [KTextOrNull, KText, KText, KInt, KTextOrNull]),
    TableDef(Texts(5) + [KTextOrNull, KText, KText, KInt], [[0, 1], [0, 8]], [Reference(0, THREADS)], NoCheck)
  ]

  const ALL: seq<TableDef> := TABLES + [
    TableDef(Texts(5) + [KTextOrNull, KText], [[0], [2]], [], NoCheck),
    TableDef(Texts(2), [[0]], [Reference(0, GRANTS), Reference(1, CLIENTS)], NoCheck)
  ]

  lemma TablesAreOrdered()
    ensures Ordered(ALL) && Ordered(TABLES) && |TABLES| == ARCHIVED && |ALL| == 18
  {
    forall t: nat | t < 18 ensures ALL[t].WellFormed(t) {
      DefIsWellFormed(t);
    }
    assert forall t | 0 <= t < ARCHIVED :: TABLES[t] == ALL[t];
  }

  lemma DefIsWellFormed(t: nat)
    requires t < 18
    ensures |ALL| == 18 && ALL[t].WellFormed(t)
  {
  }

  const MAX_ROWS := 10_000
  const MAX_PLAINTEXT := 400_000

  /** Reading a timestamp, compiling a policy document, and the serialised size of a row: nothing is assumed of them. */
  datatype Env = Env(clock: string -> Time, compiles: string -> bool, size: JsonRow -> nat)

  datatype Error =
    | Used | NoInstance | InvalidRows | PolicyRefused | DanglingReference | AuditRefused
    | UnsupportedTable | TooManyRecords | TooLarge | Binary

  const CONSENT := Str("analytics_consent")

  predicate KeptByPrune(env: Env, stamp: string, thread: Row) {
    |thread| > 8 && thread[8].Str? && env.clock(thread[8].s) > env.clock(stamp)
  }

  /** `revoked_at=COALESCE(revoked_at,now)`. */
  function Revoked(row: Row, stamp: string): Row {
    if |row| > 4 && row[4] == Null then row[4 := Str(stamp)] else row
  }

  /** `pending_request=NULL,revision=revision+1`; an overflow would make SQLite store a real. */
  function Reopened(row: Row): Row {
    if |row| > 10 && row[9].Int?
    then row[9 := if row[9].n < I64_MAX then Int(row[9].n + 1) else Real((row[9].n + 1) as real)][10 := Null]
    else row
  }

  function Owned(row: Row, instance: Cell): Row {
    if |row| > 1 then row[1 := instance] else row
  }

  function LiveThreads(env: Env, threads: set<Row>, stamp: string): set<Row> {
    set r | r in threads && KeptByPrune(env, stamp, r)
  }

  predicate OfThread(threads: set<Row>, turn: Row) {
    |turn| > 0 && exists p :: p in threads && |p| > 0 && p[0] == turn[0]
  }

  function LiveTurns(live: set<Row>, turns: set<Row>): set<Row> {
    set r | r in turns && OfThread(live, r)
  }

  function ReopenedThreads(threads: set<Row>): set<Row> {
    set r | r in threads :: Reopened(r)
  }

  function PrunedDb(env: Env, db: Db, stamp: string): Db
    requires |db| == 18
  {
    var live := LiveThreads(env, db[THREADS], stamp);
    db[THREADS := live][TURNS := LiveTurns(live, db[TURNS])]
  }

  /** The rows of table `t` after the updates that follow the insertions. */
  function UpdatedTable(t: nat, rows: set<Row>, instance: Cell, stamp: string): set<Row> {
    if t == GRANTS then set r | r in rows :: Revoked(r, stamp)
    else if t == SETTINGS then (set r | r in rows && (|r| == 0 || r[0] != CONSENT)) + {[CONSENT, Str("0")]}
    else if t == INSTANCE then set r | r in rows :: Owned(r, instance)
    else if t == THREADS then ReopenedThreads(rows)
    else rows
  }

  function UpdatedDb(rows: Db, instance: Cell, stamp: string): (db: Db)
    requires |rows| == 18
    ensures |db| == 18
  {
    seq(18, t requires 0 <= t < 18 => UpdatedTable(t, rows[t], instance, stamp))
  }

  /** What a restore makes of the archived rows: the target keeps its own instance id, every grant is revoked,
      open attempts are cleared at a new revision, consent is off, one audit row is added, no client comes along,
      and expired conversations are gone. */
  function Normalised(env: Env, rows: Db, instance: Cell, stamp: string, audit: Row): Db
    requires |rows| == 18
  {
    PrunedDb(env, Audited(UpdatedDb(rows, instance, stamp), audit), stamp)
  }

  function Audited(db: Db, audit: Row): Db
    requires |db| == 18
  {
    db[AUDIT := db[AUDIT] + {audit}]
  }

  /** `recovery_empty`: nothing but start-up has happened in this vault. */
  predicate Unused(db: Db)
    requires |db| == 18
  {
    && (forall t | t in [SOURCES, MEMORIES, GRANTS, RECEIPTS, INTERACTIONS, REPORTS, CLIENTS, THREADS, JOURNAL] ::
          db[t] == {})
    && (forall r | r in db[AUDIT] :: |r| > 2 && r[2] == Str("core_started"))
  }

  /** No source, memory, grant, receipt, interaction, report, client, conversation or exchange, and no audit row but of
      start-up. */
  predicate NeverUsed(db: Db)
    requires |db| == 18
  {
    && db[SOURCES] == {} && db[MEMORIES] == {} && db[GRANTS] == {} && db[RECEIPTS] == {} && db[INTERACTIONS] == {}
    && db[REPORTS] == {} && db[CLIENTS] == {} && db[THREADS] == {} && db[JOURNAL] == {}
    && forall r: Row | r in db[AUDIT] :: |r| > 2 && r[2] == Str("core_started")
  }

  lemma PolicyIs(env: Env, rows: set<Row>)
    ensures PolicyCompiles(env, rows) <==>
      exists doc: Row :: doc in rows && |doc| > 2 && doc[0] == Int(1) && doc[2].Str? && env.compiles(doc[2].s)
  {
  }

  lemma UnusedIs(db: Db)
    requires |db| == 18
    ensures Unused(db) <==> NeverUsed(db)
  {
    var counted := [SOURCES, MEMORIES, GRANTS, RECEIPTS, INTERACTIONS, REPORTS, CLIENTS, THREADS, JOURNAL];
    assert counted[0] == SOURCES && counted[1] == MEMORIES && counted[2] == GRANTS && counted[3] == RECEIPTS;
    assert counted[4] == INTERACTIONS && counted[5] == REPORTS && counted[6] == CLIENTS && counted[7] == THREADS;
    assert counted[8] == JOURNAL;
  }

  predicate PolicyCompiles(env: Env, rows: set<Row>) {
    exists r: Row :: r in rows && |r| > 2 && r[0] == Int(1) && r[2].Str? && env.compiles(r[2].s)
  }

  /** The rows an archive holds, by table; the two tables it never carries are empty. */
  function RowsOf(archive: Archive): (db: Db)
    requires |archive| == ARCHIVED
    ensures |db| == 18
  {
    TablesAreOrdered();
    seq(18, t requires 0 <= t < 18 => if t < ARCHIVED then RowSet(TABLES[t], archive[t]) else {})
  }

  /** A later row under the same key makes the audit insertion fail. */
  predicate AuditFits(rows: set<Row>, audit: Row) {
    forall r | r in rows :: |r| > 0 && |audit| > 0 && r[0] != audit[0]
  }

  /** `pragma_foreign_key_check` finds nothing. */
  predicate NoDangling(db: Db)
    requires |db| == 18
  {
    forall t | 0 <= t < 18 :: forall r | r in db[t] :: HasParents(ALL[t], db, r)
  }

  /** The foreign keys of the schema. */
  function Refs(t: nat): seq<Reference> {
    if t == MEMORIES then [Reference(1, SOURCES)]
    else if t == HISTORY then [Reference(1, MEMORIES)]
    else if t == TURNS then [Reference(0, THREADS)]
    else if t == BINDINGS then [Reference(0, GRANTS), Reference(1, CLIENTS)]
    else []
  }

  lemma RefsAre(t: nat)
    requires t < 18
    ensures |ALL| == 18 && ALL[t].refs == Refs(t) && (t < ARCHIVED ==> |TABLES| == ARCHIVED && TABLES[t] == ALL[t])
  {
  }

  /** The updates keep every row's first cell but that of the setting they write. */
  lemma UpdatedKeepsKey(t: nat, rows: set<Row>, instance: Cell, stamp: string, key: Cell)
    requires t != SETTINGS && HasKey(rows, key)
    ensures HasKey(UpdatedTable(t, rows, instance, stamp), key)
  {
    var p :| p in rows && |p| > 0 && p[0] == key;
    assert t == GRANTS ==> Revoked(p, stamp) in UpdatedTable(t, rows, instance, stamp);
    assert t == INSTANCE ==> Owned(p, instance) in UpdatedTable(t, rows, instance, stamp);
    assert t == THREADS ==> Reopened(p) in UpdatedTable(t, rows, instance, stamp);
  }

  lemma UpdatedParents(rows: Db, instance: Cell, stamp: string, t: nat, r: Row)
    requires |rows| == 18 && rows[BINDINGS] == {} && t < 18
    requires forall q | q in rows[t] :: HasParents(ALL[t], rows, q)
    requires r in UpdatedDb(rows, instance, stamp)[t]
    ensures HasParents(ALL[t], UpdatedDb(rows, instance, stamp), r)
  {
    RefsAre(t);
    hide Revoked, Owned, Reopened, HasKey, ReopenedThreads;
    forall f | f in Refs(t)
      ensures f.column < |r| && HasKey(UpdatedDb(rows, instance, stamp)[f.parent], r[f.column])
    {
      assert r in rows[t];
      UpdatedKeepsKey(f.parent, rows[f.parent], instance, stamp, r[f.column]);
    }
  }

  lemma LoadedReferences(archive: Archive, instance: Cell, stamp: string)
    requires |archive| == ARCHIVED && Loadable(TABLES, archive)
    ensures NoDangling(UpdatedDb(RowsOf(archive), instance, stamp))
  {
    TablesAreOrdered();
    var rows := RowsOf(archive);
    forall t, r | 0 <= t < 18 && r in rows[t] ensures HasParents(ALL[t], rows, r) {
      RefsAre(t);
      LoadedParents(TABLES, rows, archive, t, r);
    }
    forall t, r | 0 <= t < 18 && r in UpdatedDb(rows, instance, stamp)[t]
      ensures HasParents(ALL[t], UpdatedDb(rows, instance, stamp), r)
    {
      UpdatedParents(rows, instance, stamp, t, r);
    }
  }

  /* ---- How much an export weighs ---- */

  ghost function Weight(env: Env, rows: set<Row>): nat {
    if rows == {} then 0 else var r :| r in rows; env.size(EncodeRow(r)) + Weight(env, rows - {r})
  }

  /** The weight of a table does not depend on the order its rows are read in. */
  lemma {:induction false} WeightWithout(env: Env, rows: set<Row>, r: Row)
    requires r in rows
    ensures Weight(env, rows) == env.size(EncodeRow(r)) + Weight(env, rows - {r})
  {
    var first :| first in rows && Weight(env, rows) == env.size(EncodeRow(first)) + Weight(env, rows - {first});
    if first != r {
      WeightWithout(env, rows - {first}, r);
      WeightWithout(env, rows - {r}, first);
      assert rows - {first} - {r} == rows - {r} - {first};
    }
  }

  ghost function RowCount(db: Db, n: nat): nat
    requires n <= |db|
  {
    if n == 0 then 0 else RowCount(db, n - 1) + |db[n - 1]|
  }

  ghost function TotalWeight(env: Env, db: Db, n: nat): nat
    requires n <= |db|
  {
    if n == 0 then 0 else TotalWeight(env, db, n - 1) + Weight(env, db[n - 1])
  }

  lemma {:induction false} TotalsGrow(env: Env, db: Db, n: nat, m: nat)
    requires n <= m <= |db|
    ensures RowCount(db, n) <= RowCount(db, m) && TotalWeight(env, db, n) <= TotalWeight(env, db, m)
  {
    if n < m {
      TotalsGrow(env, db, n, m - 1);
    }
  }

  lemma NoBlobs(db: Db)
    requires Integrity(ALL, db)
    ensures |db| == 18 && forall t, row | 0 <= t < 18 && row in db[t] :: Blob !in row
  {
    TablesAreOrdered();
    forall t, row | 0 <= t < 18 && row in db[t] ensures Blob !in row {
      assert ALL[t].Accepts(row);
      assert forall c | 0 <= c < |row| :: Fits(ALL[t].kinds[c], row[c]);
    }
  }

  lemma ListsOneMore(list: seq<Row>, rows: set<Row>, rest: set<Row>, row: Row)
    requires rest <= rows && Lists(list, rows - rest) && row in rest
    ensures Lists(list + [row], rows - (rest - {row}))
    ensures ToJson(list + [row]) == ToJson(list) + [EncodeRow(row)]
  {
  }

  lemma InstanceWidth(db: Db)
    requires Integrity(ALL, db)
    ensures |db| == 18 && forall own | own in db[INSTANCE] :: |own| == 4
  {
    TablesAreOrdered();
    assert |ALL[INSTANCE].kinds| == 4;
  }

  class Vault {
    var tables: Db
    const env: Env

    ghost predicate Valid()
      reads this
    {
      Integrity(ALL, tables)
    }

    method Prune(stamp: string)
      requires |tables| == 18
      modifies this
      ensures tables == PrunedDb(env, old(tables), stamp)
    {
      var live := set r | r in tables[THREADS] && KeptByPrune(env, stamp, r);
      tables := tables[THREADS := live][TURNS := set r | r in tables[TURNS] && OfThread(live, r)];
    }

    /** Expired conversations are pruned first. Then the archive carries every row of every archived table, or none
        is made: for an unknown table, more than 10000 rows, or more than 400000 bytes of them. */
    method Export(stamp: string, unknownTable: bool) returns (r: Result<Archive, Error>)
      requires Valid() && |tables| == 18
      modifies this
      ensures Valid() && tables == PrunedDb(env, old(tables), stamp)
      ensures r.Success? <==>
        !unknownTable && RowCount(tables, ARCHIVED) <= MAX_ROWS && TotalWeight(env, tables, ARCHIVED) <= MAX_PLAINTEXT
      ensures r.Success? ==> Carries(TABLES, r.value, tables)
    {
      PruneKeepsIntegrity(env, tables, stamp);
      Prune(stamp);
      if unknownTable { return Failure(UnsupportedTable); }
      NoBlobs(tables);
      r := Snapshot(env, tables);
      TablesAreOrdered();
    }

    static method Snapshot(env: Env, db: Db) returns (r: Result<Archive, Error>)
      requires |db| == 18 && forall t, row | 0 <= t < 18 && row in db[t] :: Blob !in row
      ensures r.Success? <==> RowCount(db, ARCHIVED) <= 10_000 && TotalWeight(env, db, ARCHIVED) <= 400_000
      ensures r.Success? ==> |r.value| == ARCHIVED && forall t | 0 <= t < ARCHIVED :: IsTable(r.value[t], db[t])
    {
      var archive: Archive, rowCount, byteCount := [], 0, 0;
      for t := 0 to ARCHIVED
        invariant |archive| == t && forall u | 0 <= u < t :: IsTable(archive[u], db[u])
        invariant rowCount == RowCount(db, t) <= MAX_ROWS && byteCount == TotalWeight(env, db, t) <= MAX_PLAINTEXT
      {
        TotalsGrow(env, db, t + 1, ARCHIVED);
        var error, data, records, bytes := ExportTable(env, db[t], rowCount, byteCount);
        if error.Some? { return Failure(error.value); }
        archive, rowCount, byteCount := archive + [data], records, bytes;
      }
      r := Success(archive);
    }

    static method ExportTable(env: Env, rows: set<Row>, rowCount: nat, byteCount: nat)
      returns (error: Option<Error>, data: seq<JsonRow>, records: nat, bytes: nat)
      requires forall row | row in rows :: Blob !in row
      requires rowCount <= MAX_ROWS && byteCount <= MAX_PLAINTEXT
      ensures error.None? <==> rowCount + |rows| <= MAX_ROWS && byteCount + Weight(env, rows) <= MAX_PLAINTEXT
      ensures error.None? ==> records == rowCount + |rows| && bytes == byteCount + Weight(env, rows) && IsTable(data, rows)
    {
      var rest := rows;
      ghost var list: seq<Row> := [];
      data, records, bytes := [], rowCount, byteCount;
      while rest != {}
        invariant rest <= rows && Lists(list, rows - rest) && data == ToJson(list)
        invariant records == rowCount + |rows| - |rest| <= MAX_ROWS
        invariant bytes == byteCount + Weight(env, rows) - Weight(env, rest) <= MAX_PLAINTEXT
        decreases rest
      {
        var row :| row in rest;
        WeightWithout(env, rest, row);
        assert |rest| == |rest - {row}| + 1;
        records := records + 1;
        if records > MAX_ROWS { return Some(TooManyRecords), data, records, bytes; }
        if Blob in row { return Some(Binary), data, records, bytes; }
        bytes := bytes + env.size(EncodeRow(row));
        if bytes > MAX_PLAINTEXT { return Some(TooLarge), data, records, bytes; }
        ListsOneMore(list, rows, rest, row);
        data, list, rest := data + [EncodeRow(row)], list + [row], rest - {row};
      }
      assert rows - rest == rows;
      error := None;
    }

    /** The deletions, newest table first, with the cascade from grants to client bindings. */
    static method Emptied(db: Db) returns (tx: Db)
      requires |db| == 18
      ensures |tx| == 18 && (forall t | 0 <= t < ARCHIVED || t == BINDINGS :: tx[t] == {}) && tx[CLIENTS] == db[CLIENTS]
    {
      tx := db;
      for t := ARCHIVED downto 0
        invariant |tx| == 18 && tx[CLIENTS] == db[CLIENTS]
        invariant forall u | t <= u < ARCHIVED || (t <= GRANTS && u == BINDINGS) :: tx[u] == {}
      {
        tx := tx[t := {}];
        if t == GRANTS { tx := tx[BINDINGS := {}]; }
      }
    }

    /** One transaction: it succeeds exactly when the vault is unused and the archive is loadable with a policy
        that compiles, and then leaves the normalised rows; otherwise nothing has changed. */
    method RestoreArchive(archive: Archive, stamp: string, audit: Row) returns (r: Result<(), Error>)
      requires Valid() && |archive| == ARCHIVED
      modifies this
      ensures r.Success? <==>
        && Unused(old(tables)) && old(tables)[INSTANCE] != {} && Loadable(TABLES, archive)
        && PolicyCompiles(env, RowsOf(archive)[POLICY]) && AuditFits(RowsOf(archive)[AUDIT], audit)
      ensures r.Failure? ==> tables == old(tables)
      ensures r == Failure(Used) <==> !NeverUsed(old(tables))
      ensures r.Success? ==>
        var was := old(tables);
        && was[SOURCES] == {} && was[MEMORIES] == {} && was[GRANTS] == {} && was[RECEIPTS] == {}
        && was[INTERACTIONS] == {} && was[REPORTS] == {} && was[CLIENTS] == {} && was[THREADS] == {} && was[JOURNAL] == {}
        && forall a: Row | a in was[AUDIT] :: |a| > 2 && a[2] == Str("core_started")
      ensures r.Success? ==>
        exists own :: own in old(tables)[INSTANCE] && |own| > 1
                      && tables == Normalised(env, RowsOf(archive), own[1], stamp, audit)
    {
      InstanceWidth(tables);
      UnusedIs(tables);
      hide Unused, PolicyCompiles, AuditFits, Loadable, RowsOf, UpdatedDb, Audited, PrunedDb, Integrity;
      if !Unused(tables) { return Failure(Used); }
      if tables[INSTANCE] == {} { return Failure(NoInstance); }
      var own :| own in tables[INSTANCE];
      var done, tx := Transaction(env, tables, own[1], archive, stamp, audit);
      if done.Some? { return Failure(done.value); }
      tables := tx;
      Prune(stamp);
      r := Success(());
    }

    static method Transaction(env: Env, db: Db, instance: Cell, archive: Archive, stamp: string, audit: Row)
      returns (error: Option<Error>, tx: Db)
      requires |db| == 18 && db[CLIENTS] == {} && |archive| == ARCHIVED
      ensures error != Some(Used)
      ensures error.None? <==>
        && Loadable(TABLES, archive) && PolicyCompiles(env, RowsOf(archive)[POLICY])
        && AuditFits(RowsOf(archive)[AUDIT], audit)
      ensures error.None? ==> tx == Audited(UpdatedDb(RowsOf(archive), instance, stamp), audit)
    {
      TablesAreOrdered();
      hide Ordered, Loadable, GoodRow, NoDangling, HasParents, PolicyCompiles, AuditFits;
      tx := Emptied(db);
      var loaded;
      loaded, tx := Load(TABLES, tx, archive);
      if !loaded { return Some(InvalidRows), tx; }
      assert forall t | ARCHIVED <= t < 18 :: tx[t] == tx[|TABLES|..][t - ARCHIVED];
      assert tx == RowsOf(archive);
      tx := Update(tx, instance, stamp);
      if !PolicyCompiles(env, tx[POLICY]) { return Some(PolicyRefused), tx; }
      LoadedReferences(archive, instance, stamp);
      if !NoDangling(tx) { return Some(DanglingReference), tx; }
      if !AuditFits(tx[AUDIT], audit) { return Some(AuditRefused), tx; }
      tx := tx[AUDIT := tx[AUDIT] + {audit}];
      error := None;
    }

    static method Update(rows: Db, instance: Cell, stamp: string) returns (tx: Db)
      requires |rows| == 18
      ensures tx == UpdatedDb(rows, instance, stamp)
    {
      tx := rows;
      tx := tx[INSTANCE := set r | r in tx[INSTANCE] :: Owned(r, instance)];
      tx := tx[GRANTS := set r | r in tx[GRANTS] :: Revoked(r, stamp)];
      tx := tx[THREADS := set r | r in tx[THREADS] :: Reopened(r)];
      tx := tx[SETTINGS := (set r | r in tx[SETTINGS] && (|r| == 0 || r[0] != CONSENT)) + {[CONSENT, Str("0")]}];
    }
  }

  /* ---- What a restore leaves ---- */

  /** No thread is at the last revision an integer column can hold. */
  predicate RoomToReopen(threads: set<Row>) {
    forall r: Row | r in threads :: |r| > 10 && r[9].Int? && r[9].n < I64_MAX
  }

  lemma UpdatedTableOk(t: nat, rows: set<Row>, instance: Cell, stamp: string)
    requires t < 18 && |ALL| == 18 && TableOk(ALL[t], rows) && instance.Str? && (t == THREADS ==> RoomToReopen(rows))
    ensures TableOk(ALL[t], UpdatedTable(t, rows, instance, stamp))
  {
    hide TableOk, RoomToReopen, Texts;
    if t == GRANTS {
      GrantsOk(rows, stamp);
    } else if t == INSTANCE {
      InstanceOk(rows, instance);
    } else if t == THREADS {
      ThreadsOk(rows);
    } else if t == SETTINGS {
      SettingsOk(rows);
    }
  }

  lemma SettingsOk(rows: set<Row>)
    requires |ALL| == 18 && TableOk(ALL[SETTINGS], rows)
    ensures TableOk(ALL[SETTINGS], (set r | r in rows && (|r| == 0 || r[0] != CONSENT)) + {[CONSENT, Str("0")]})
  {
    DefsAre();
    var others := set r | r in rows && (|r| == 0 || r[0] != CONSENT);
    SubsetKeepsTable(ALL[SETTINGS], rows, others);
    assert forall r | r in rows :: |r| == 2;
    hide TableOk;
    ExtendKeepsTable(ALL[SETTINGS], others, [CONSENT, Str("0")]);
  }

  lemma DefsAre()
    ensures |ALL| == 18
    ensures ALL[GRANTS] == Plain(Texts(4) + [KTextOrNull, KText])
    ensures ALL[INSTANCE] == TableDef([KInt, KText, KText, KInt], [[0]], [], Singleton)
    ensures ALL[THREADS] == Plain(Texts(6) + [KTextOrNull, KText, KText, KInt, KTextOrNull])
    ensures ALL[AUDIT].keys == [[0]]
    ensures ALL[SETTINGS] == Plain(Texts(2))
  {
  }

  lemma KeysAre(t: nat)
    requires t < 18
    ensures |ALL| == 18
    ensures ALL[t].keys == if t == TURNS then [[0, 1], [0, 8]] else if t == REPORTS || t == DECISIONS then [[0], [1]]
                           else if t == CLIENTS then [[0], [2]] else [[0]]
  {
  }

  /** What two rows of one table may not share: two turns of a thread the request or the position, and any others the
      first column; two reports or decisions the id that is in their second, and two clients the token. */
  lemma RowsClash(t: nat, a: Row, b: Row)
    requires t < 18 && |ALL| == 18 && ALL[t].Accepts(a) && ALL[t].Accepts(b) && |a| == |b|
    requires if t == TURNS then |a| == 9 else |a| > 2 || (|a| == 2 && t != CLIENTS)
    ensures ALL[t].Clash(a, b) <==>
      if t == TURNS then a[0] == b[0] && (a[1] == b[1] || a[8] == b[8])
      else || a[0] == b[0]
           || ((t == REPORTS || t == DECISIONS) && a[1] == b[1])
           || (t == CLIENTS && a[2] == b[2])
  {
    KeysAre(t);
    var def := ALL[t];
    hide ALL;
    var keys := def.keys;
    assert keys[0] in keys;
    if |keys| == 2 {
      assert keys[1] in keys;
    }
  }

  lemma GrantsOk(rows: set<Row>, stamp: string)
    requires |ALL| == 18 && TableOk(ALL[GRANTS], rows)
    ensures TableOk(ALL[GRANTS], set r | r in rows :: Revoked(r, stamp))
  {
    DefsAre();
    forall r: Row | r in rows ensures ALL[GRANTS].Accepts(Revoked(r, stamp)) {
      AcceptsUpdate(ALL[GRANTS], r, 4, Str(stamp));
    }
    RewriteKeepsTable(ALL[GRANTS], rows, r => Revoked(r, stamp));
    assert (set r | r in rows :: Revoked(r, stamp)) == set r | r in rows :: (r => Revoked(r, stamp))(r);
  }

  lemma InstanceOk(rows: set<Row>, instance: Cell)
    requires |ALL| == 18 && TableOk(ALL[INSTANCE], rows) && instance.Str?
    ensures TableOk(ALL[INSTANCE], set r | r in rows :: Owned(r, instance))
  {
    DefsAre();
    forall r: Row | r in rows ensures ALL[INSTANCE].Accepts(Owned(r, instance)) {
      AcceptsUpdate(ALL[INSTANCE], r, 1, instance);
    }
    RewriteKeepsTable(ALL[INSTANCE], rows, r => Owned(r, instance));
    assert (set r | r in rows :: Owned(r, instance)) == set r | r in rows :: (r => Owned(r, instance))(r);
  }

  lemma ThreadsOk(rows: set<Row>)
    requires |ALL| == 18 && TableOk(ALL[THREADS], rows) && RoomToReopen(rows)
    ensures TableOk(ALL[THREADS], ReopenedThreads(rows))
  {
    DefsAre();
    forall r: Row | r in rows ensures ALL[THREADS].Accepts(Reopened(r)) {
      ReopenedOk(r);
    }
    hide Reopened, Fits;
    forall r: Row, k, c | r in rows && k in ALL[THREADS].keys && c in k
      ensures c < |r| == |Reopened(r)| && Reopened(r)[c] == r[c]
    {
      KeyReopened(r);
    }
    RewriteKeepsTable(ALL[THREADS], rows, Reopened);
  }

  lemma ReopenedOk(r: Row)
    requires |ALL| == 18 && ALL[THREADS].Accepts(r) && |r| > 10 && r[9].Int? && r[9].n < I64_MAX
    ensures ALL[THREADS].Accepts(Reopened(r))
  {
    DefsAre();
    assert Fits(ALL[THREADS].kinds[9], r[9]);
    AcceptsUpdate(ALL[THREADS], r, 9, Int(r[9].n + 1));
    AcceptsUpdate(ALL[THREADS], r[9 := Int(r[9].n + 1)], 10, Null);
  }

  lemma KeyReopened(r: Row)
    ensures |Reopened(r)| == |r| && (|r| > 0 ==> Reopened(r)[0] == r[0])
  {
  }

  lemma UpdatesKeepIntegrity(rows: Db, instance: Cell, stamp: string)
    requires Integrity(ALL, rows) && |rows| == 18 && rows[BINDINGS] == {} && instance.Str?
    requires RoomToReopen(rows[THREADS])
    ensures Integrity(ALL, UpdatedDb(rows, instance, stamp))
  {
    var db := UpdatedDb(rows, instance, stamp);
    forall t | 0 <= t < 18 ensures TableOk(ALL[t], db[t]) {
      UpdatedTableOk(t, rows[t], instance, stamp);
    }
    forall t, r | 0 <= t < 18 && r in db[t] ensures HasParents(ALL[t], db, r) {
      UpdatedParents(rows, instance, stamp, t, r);
    }
  }

  lemma AuditKeepsIntegrity(db: Db, audit: Row)
    requires Integrity(ALL, db) && |db| == 18
    requires ALL[AUDIT].Accepts(audit) && AuditFits(db[AUDIT], audit)
    ensures Integrity(ALL, Audited(db, audit))
  {
    DefsAre();
    ExtendKeepsTable(ALL[AUDIT], db[AUDIT], audit);
    forall t, r | 0 <= t < 18 && r in Audited(db, audit)[t] ensures HasParents(ALL[t], Audited(db, audit), r) {
      AuditIsNoParent(db, audit, t, r);
    }
  }

  lemma AuditIsNoParent(db: Db, audit: Row, t: nat, r: Row)
    requires |db| == 18 && t < 18 && (r in db[t] ==> HasParents(ALL[t], db, r)) && (r in db[t] || t == AUDIT)
    ensures HasParents(ALL[t], Audited(db, audit), r)
  {
    RefsAre(t);
  }

  lemma KeptReopened(env: Env, stamp: string, r: Row)
    ensures KeptByPrune(env, stamp, Reopened(r)) == KeptByPrune(env, stamp, r)
    ensures |Reopened(r)| == |r| && (|r| > 0 ==> Reopened(r)[0] == r[0])
  {
  }

  /** Reopening changes no expiry, so it may as well come after the prune. */
  lemma LiveReopened(env: Env, threads: set<Row>, stamp: string)
    ensures LiveThreads(env, ReopenedThreads(threads), stamp) == ReopenedThreads(LiveThreads(env, threads, stamp))
  {
    hide Reopened, KeptByPrune;
    forall r | r in threads ensures KeptByPrune(env, stamp, Reopened(r)) == KeptByPrune(env, stamp, r) {
      KeptReopened(env, stamp, r);
    }
  }

  lemma TurnsOfReopened(env: Env, live: set<Row>, turns: set<Row>, stamp: string)
    ensures LiveTurns(ReopenedThreads(live), turns) == LiveTurns(live, turns)
  {
    hide Reopened;
    forall p: Row | p in live ensures |Reopened(p)| == |p| && (|p| > 0 ==> Reopened(p)[0] == p[0]) {
      KeptReopened(env, stamp, p);
    }
    forall r | r in turns ensures OfThread(ReopenedThreads(live), r) <==> OfThread(live, r) {
      if OfThread(live, r) {
        var p :| p in live && |p| > 0 && p[0] == r[0];
        assert Reopened(p) in ReopenedThreads(live);
      }
    }
  }

  /** Expired conversations of the archive make no difference to what a restore leaves. */
  lemma PruneFirst(env: Env, rows: Db, instance: Cell, stamp: string, audit: Row)
    requires |rows| == 18
    ensures Normalised(env, rows, instance, stamp, audit) == Normalised(env, PrunedDb(env, rows, stamp), instance, stamp, audit)
  {
    hide Reopened, KeptByPrune, OfThread, Revoked, Owned;
    var threads, turns := rows[THREADS], rows[TURNS];
    var live := LiveThreads(env, threads, stamp);
    LiveReopened(env, threads, stamp);
    LiveReopened(env, live, stamp);
    TurnsOfReopened(env, live, turns, stamp);
    TurnsOfReopened(env, live, LiveTurns(live, turns), stamp);
    assert LiveThreads(env, live, stamp) == live && LiveTurns(live, LiveTurns(live, turns)) == LiveTurns(live, turns);
    var a := Normalised(env, rows, instance, stamp, audit);
    var b := Normalised(env, PrunedDb(env, rows, stamp), instance, stamp, audit);
    assert forall t | 0 <= t < 18 && t !in {THREADS, TURNS} :: a[t] == b[t];
    assert a[THREADS] == b[THREADS] && a[TURNS] == b[TURNS];
  }

  /** A restored vault satisfies every constraint of the schema, if and only if no conversation that it keeps was at the
      last revision an integer column can hold. */
  lemma RestoredIsConsistent(env: Env, rows: Db, instance: Cell, stamp: string, audit: Row)
    requires Integrity(ALL, rows) && |rows| == 18 && rows[BINDINGS] == {} && instance.Str?
    requires ALL[AUDIT].Accepts(audit) && AuditFits(rows[AUDIT], audit)
    ensures Integrity(ALL, Normalised(env, rows, instance, stamp, audit))
      <==> RoomToReopen(LiveThreads(env, rows[THREADS], stamp))
  {
    hide Integrity, RoomToReopen, AuditFits, LiveThreads, LiveTurns, ReopenedThreads;
    if RoomToReopen(LiveThreads(env, rows[THREADS], stamp)) {
      PruneKeepsIntegrity(env, rows, stamp);
      PruneFirst(env, rows, instance, stamp, audit);
      var kept := PrunedDb(env, rows, stamp);
      UpdatesKeepIntegrity(kept, instance, stamp);
      AuditKeepsIntegrity(UpdatedDb(kept, instance, stamp), audit);
      PruneKeepsIntegrity(env, Audited(UpdatedDb(kept, instance, stamp), audit), stamp);
    } else {
      NoRoomBreaks(env, rows, instance, stamp, audit);
    }
  }

  lemma NoRoomBreaks(env: Env, rows: Db, instance: Cell, stamp: string, audit: Row)
    requires Integrity(ALL, rows) && |rows| == 18 && !RoomToReopen(LiveThreads(env, rows[THREADS], stamp))
    ensures !Integrity(ALL, Normalised(env, rows, instance, stamp, audit))
  {
    DefsAre();
    hide KeptByPrune;
    var live := LiveThreads(env, rows[THREADS], stamp);
    var r: Row :| r in live && !(|r| > 10 && r[9].Int? && r[9].n < I64_MAX);
    assert ALL[THREADS].Accepts(r) && Fits(ALL[THREADS].kinds[9], r[9]);
    LiveReopened(env, rows[THREADS], stamp);
    var db := Normalised(env, rows, instance, stamp, audit);
    assert Reopened(r) in db[THREADS] && Reopened(r)[9].Real?;
    assert !Fits(ALL[THREADS].kinds[9], Reopened(r)[9]);
    assert !ALL[THREADS].Accepts(Reopened(r));
  }

  lemma PruneKeepsIntegrity(env: Env, db: Db, stamp: string)
    requires Integrity(ALL, db)
    ensures |db| == 18 && Integrity(ALL, PrunedDb(env, db, stamp))
  {
    TablesAreOrdered();
    hide KeptByPrune;
    var live := PrunedDb(env, db, stamp);
    forall t | 0 <= t < 18 ensures TableOk(ALL[t], live[t]) {
      SubsetKeepsTable(ALL[t], db[t], live[t]);
    }
    forall t, r | 0 <= t < 18 && r in live[t] ensures HasParents(ALL[t], live, r) {
      RefsAre(t);
      assert HasParents(ALL[t], db, r);
      PrunedParents(env, db, stamp, t, r);
    }
  }

  lemma PrunedParents(env: Env, db: Db, stamp: string, t: nat, r: Row)
    requires |db| == 18 && t < 18 && r in PrunedDb(env, db, stamp)[t] && HasParents(ALL[t], db, r)
    ensures HasParents(ALL[t], PrunedDb(env, db, stamp), r)
  {
    RefsAre(t);
  }

  /** Restoring an export: it loads, and the result is the normalisation of exactly the exported rows. */
  lemma ExportRestores(env: Env, source: Db, archive: Archive, instance: Cell, stamp: string, audit: Row)
    requires Integrity(ALL, source) && Carries(TABLES, archive, source)
    ensures |source| == 18 && |archive| == ARCHIVED && Loadable(TABLES, archive)
    ensures RowsOf(archive) == source[CLIENTS := {}][BINDINGS := {}]
    ensures Normalised(env, RowsOf(archive), instance, stamp, audit)
         == Normalised(env, source[CLIENTS := {}][BINDINGS := {}], instance, stamp, audit)
  {
    TablesAreOrdered();
    ArchiveLoads(TABLES, ALL, archive, source);
  }

  lemma RowWidths(db: Db)
    requires Integrity(ALL, db)
    ensures |db| == 18 && (forall g | g in db[GRANTS] :: |g| == 6) && (forall o | o in db[INSTANCE] :: |o| == 4)
    ensures forall c: Row | c in db[THREADS] :: |c| == 11 && c[9].Int? && c[9].n <= I64_MAX
  {
    DefsAre();
    forall c: Row | c in db[THREADS] ensures |c| == 11 && c[9].Int? && c[9].n <= I64_MAX {
      assert ALL[THREADS].Accepts(c) && Fits(ALL[THREADS].kinds[9], c[9]);
    }
  }

  /** Outside threads, turns and audit, the result is the updated rows; there it is some of them, and one more. */
  predicate Updates(rows: Db, db: Db, instance: Cell, stamp: string, audit: Row) {
    && |rows| == |db| == 18
    && (forall t | 0 <= t < 18 && t !in {AUDIT, THREADS, TURNS} :: db[t] == UpdatedTable(t, rows[t], instance, stamp))
    && db[THREADS] <= UpdatedTable(THREADS, rows[THREADS], instance, stamp)
    && db[TURNS] <= rows[TURNS] && db[AUDIT] == rows[AUDIT] + {audit}
  }

  lemma NormalisedTables(env: Env, rows: Db, instance: Cell, stamp: string, audit: Row)
    requires |rows| == 18
    ensures Updates(rows, Normalised(env, rows, instance, stamp, audit), instance, stamp, audit)
  {
  }

  /** Row by row: a grant keeps an earlier revocation and is otherwise revoked now. */
  ghost predicate GrantsRevoked(was: set<Row>, now: set<Row>, stamp: string) {
    && (forall g: Row | g in was && |g| == 6 :: (if g[4].Null? then g[4 := Str(stamp)] else g) in now)
    && (forall g: Row | g in now ::
          exists p: Row | p in was && |p| == 6 :: g == if p[4].Null? then p[4 := Str(stamp)] else p)
  }

  /** Every setting but consent stays, and consent is off. */
  ghost predicate ConsentOff(was: set<Row>, now: set<Row>) {
    && (forall s: Row | |s| == 2 && s[0] != CONSENT :: s in now <==> s in was)
    && [CONSENT, Str("0")] in now && (forall s: Row | s in now && |s| == 2 && s[0] == CONSENT :: s[1] == Str("0"))
  }

  /** All tables but grants, settings, the own instance, the conversations and the audit are as archived. */
  predicate OthersAsWere(rows: Db, db: Db)
    requires |rows| == |db| == 18
  {
    && db[SOURCES] == rows[SOURCES] && db[MEMORIES] == rows[MEMORIES] && db[HISTORY] == rows[HISTORY]
    && db[RECEIPTS] == rows[RECEIPTS] && db[INTERACTIONS] == rows[INTERACTIONS] && db[REPORTS] == rows[REPORTS]
    && db[POLICY] == rows[POLICY] && db[DECISIONS] == rows[DECISIONS] && db[JOURNAL] == rows[JOURNAL]
    && db[REQUESTS] == rows[REQUESTS] && db[CLIENTS] == rows[CLIENTS] && db[BINDINGS] == rows[BINDINGS]
  }

  /** A restore changes nothing but what it should. */
  lemma RestoreLeavesTheRest(env: Env, rows: Db, instance: Cell, stamp: string, audit: Row)
    requires Integrity(ALL, rows) && |rows| == 18
    ensures var db := Normalised(env, rows, instance, stamp, audit);
      && |db| == 18 && GrantsRevoked(rows[GRANTS], db[GRANTS], stamp) && ConsentOff(rows[SETTINGS], db[SETTINGS])
      && OthersAsWere(rows, db) && db[AUDIT] == rows[AUDIT] + {audit}
      && (forall o: Row | o in rows[INSTANCE] && |o| == 4 :: o[1 := instance] in db[INSTANCE])
  {
    RowWidths(rows);
    NormalisedTables(env, rows, instance, stamp, audit);
    UpdatedAre(rows, Normalised(env, rows, instance, stamp, audit), instance, stamp, audit);
    hide Integrity, Normalised, UpdatedTable, Updates, GrantsRevoked, ConsentOff, OthersAsWere;
    GrantsLeft(rows[GRANTS], instance, stamp);
    OwnLeft(rows[INSTANCE], instance, stamp);
    SettingsLeft(rows[SETTINGS], instance, stamp);
  }

  lemma UpdatedAre(rows: Db, db: Db, instance: Cell, stamp: string, audit: Row)
    requires Updates(rows, db, instance, stamp, audit)
    ensures |rows| == |db| == 18 && OthersAsWere(rows, db) && db[AUDIT] == rows[AUDIT] + {audit}
    ensures db[GRANTS] == UpdatedTable(GRANTS, rows[GRANTS], instance, stamp)
    ensures db[INSTANCE] == UpdatedTable(INSTANCE, rows[INSTANCE], instance, stamp)
    ensures db[SETTINGS] == UpdatedTable(SETTINGS, rows[SETTINGS], instance, stamp)
  {
    OthersLeft(rows, instance, stamp);
    hide UpdatedTable;
  }

  lemma GrantsLeft(grants: set<Row>, instance: Cell, stamp: string)
    requires forall g: Row | g in grants :: |g| == 6
    ensures GrantsRevoked(grants, UpdatedTable(GRANTS, grants, instance, stamp), stamp)
  {
    var after := UpdatedTable(GRANTS, grants, instance, stamp);
    forall g: Row | g in grants && |g| == 6 ensures (if g[4].Null? then g[4 := Str(stamp)] else g) in after {
      assert Revoked(g, stamp) in after;
    }
    forall g: Row | g in after
      ensures exists p: Row | p in grants && |p| == 6 :: g == if p[4].Null? then p[4 := Str(stamp)] else p
    {
      var p: Row :| p in grants && g == Revoked(p, stamp);
    }
  }

  lemma OwnLeft(own: set<Row>, instance: Cell, stamp: string)
    ensures var after := UpdatedTable(INSTANCE, own, instance, stamp);
      forall o: Row | o in own && |o| == 4 :: o[1 := instance] in after
  {
    forall o: Row | o in own && |o| == 4 ensures o[1 := instance] in UpdatedTable(INSTANCE, own, instance, stamp) {
      assert Owned(o, instance) in UpdatedTable(INSTANCE, own, instance, stamp);
    }
  }

  lemma SettingsLeft(settings: set<Row>, instance: Cell, stamp: string)
    ensures ConsentOff(settings, UpdatedTable(SETTINGS, settings, instance, stamp))
  {
  }

  lemma OthersLeft(rows: Db, instance: Cell, stamp: string)
    requires |rows| == 18
    ensures forall t | 0 <= t < 18 && t !in {GRANTS, SETTINGS, INSTANCE, THREADS} ::
      UpdatedTable(t, rows[t], instance, stamp) == rows[t]
  {
  }

  ghost predicate RevivesNothing(rows: Db, db: Db, instance: Cell)
    requires |rows| == |db| == 18
  {
    && (forall g | g in db[GRANTS] :: |g| == 6 && g[4] != Null)
    && (forall c | c in db[THREADS] :: |c| > 10 && c[10] == Null)
    && (forall s | s in db[SETTINGS] && |s| > 1 && s[0] == CONSENT :: s[1] == Str("0"))
    && (forall o | o in db[INSTANCE] :: |o| == 4 && o[1] == instance)
    && db[SOURCES] == rows[SOURCES] && db[MEMORIES] == rows[MEMORIES] && db[HISTORY] == rows[HISTORY]
    && db[RECEIPTS] == rows[RECEIPTS] && db[REPORTS] == rows[REPORTS]
    && !Unused(db)
  }

  lemma UpdatesReviveNothing(rows: Db, db: Db, instance: Cell, stamp: string, audit: Row)
    requires Updates(rows, db, instance, stamp, audit)
    requires (forall g | g in rows[GRANTS] :: |g| == 6) && (forall o | o in rows[INSTANCE] :: |o| == 4)
    requires (forall c: Row | c in rows[THREADS] :: |c| == 11 && c[9].Int?)
    requires |audit| > 2 && audit[2] == Str("recovery_restored")
    ensures RevivesNothing(rows, db, instance)
  {
    UpdatedRows(rows[GRANTS], rows[INSTANCE], rows[THREADS], instance, stamp);
    assert audit in db[AUDIT];
  }

  /** Recovery revives no access: every grant is revoked, every open attempt closed, consent off, the target's identity
      kept; reports, sources and memories are as archived; no second restore is possible. And every kept conversation is
      at the revision after its archived one, if and only if none was at the largest an integer column can hold. */
  lemma RestoreRevivesNothing(env: Env, rows: Db, instance: Cell, stamp: string, audit: Row)
    requires Integrity(ALL, rows) && |rows| == 18 && |audit| > 2 && audit[2] == Str("recovery_restored")
    ensures var db := Normalised(env, rows, instance, stamp, audit);
      && RevivesNothing(rows, db, instance)
      && ((forall c | c in db[THREADS] :: WasOpen(rows[THREADS], c))
          <==> RoomToReopen(LiveThreads(env, rows[THREADS], stamp)))
  {
    RowWidths(rows);
    NormalisedTables(env, rows, instance, stamp, audit);
    KeptThreads(env, rows, instance, stamp, audit);
    hide Integrity, Normalised, Updates, RevivesNothing, ReopenedThreads, LiveThreads, WasOpen, RoomToReopen;
    UpdatesReviveNothing(rows, Normalised(env, rows, instance, stamp, audit), instance, stamp, audit);
    NextRevisions(env, rows[THREADS], stamp);
  }

  lemma KeptThreads(env: Env, rows: Db, instance: Cell, stamp: string, audit: Row)
    requires |rows| == 18
    ensures var db := Normalised(env, rows, instance, stamp, audit);
      |db| == 18 && db[THREADS] == ReopenedThreads(LiveThreads(env, rows[THREADS], stamp))
  {
    LiveReopened(env, rows[THREADS], stamp);
  }

  lemma NextRevisions(env: Env, threads: set<Row>, stamp: string)
    requires forall c: Row | c in threads :: |c| == 11 && c[9].Int? && c[9].n <= I64_MAX
    ensures var live := LiveThreads(env, threads, stamp);
      (forall c | c in ReopenedThreads(live) :: WasOpen(threads, c)) <==> RoomToReopen(live)
  {
    hide KeptByPrune;
    var live := LiveThreads(env, threads, stamp);
    if !RoomToReopen(live) {
      var r: Row :| r in live && !(|r| > 10 && r[9].Int? && r[9].n < I64_MAX);
      assert Reopened(r) in ReopenedThreads(live) && Reopened(r)[9].Real?;
      assert !WasOpen(threads, Reopened(r));
    }
  }

  lemma UpdatedRows(grants: set<Row>, own: set<Row>, threads: set<Row>, instance: Cell, stamp: string)
    requires (forall g | g in grants :: |g| == 6) && (forall o | o in own :: |o| == 4)
    requires forall c: Row | c in threads :: |c| == 11 && c[9].Int?
    ensures forall g | g in UpdatedTable(GRANTS, grants, instance, stamp) :: |g| == 6 && g[4] != Null
    ensures forall o | o in UpdatedTable(INSTANCE, own, instance, stamp) :: |o| == 4 && o[1] == instance
    ensures forall c | c in UpdatedTable(THREADS, threads, instance, stamp) :: |c| > 10 && c[10] == Null
  {
  }

  /** `c` is a thread of `rows` at the next revision with nothing pending. */
  ghost predicate WasOpen(rows: set<Row>, c: Row) {
    exists p: Row :: p in rows && |p| > 10 && p[9].Int? && c == p[9 := Int(p[9].n + 1)][10 := Null]
  }
}
