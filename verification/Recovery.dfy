/** Export and restore of a whole vault as rows of scalar cells.

    `Db` holds one set of rows per table: the sixteen archived tables in the order of the
    allowlist, then the two tables an archive never carries. Encryption is left out: an
    archive here is its decrypted rows. */
module Recovery {
  import opened Common

  datatype Cell = Null | Int(n: int) | Real(x: real) | Str(s: string) | Blob
  datatype Json = JNull | JInt(n: int) | JReal(x: real) | JStr(s: string) | JOther

  type Row = seq<Cell>
  type JsonRow = seq<Json>
  type Db = seq<set<Row>>
  type Archive = seq<seq<JsonRow>>

  /* ---- Schemas ---- */

  datatype Kind = KText | KTextOrNull | KInt | KReal
  datatype Reference = Reference(column: nat, parent: nat)

  /** A CHECK constraint: column 0 must be the integer 1, or column 3 a memory status. */
  datatype Check = NoCheck | Singleton | Status

  /** Column kinds, unique keys and foreign keys (to column 0 of the parent) of one table. */
  datatype TableDef = TableDef(kinds: seq<Kind>, keys: seq<seq<nat>>, refs: seq<Reference>, check: Check)
  {
    predicate WellFormed(index: nat) {
      && |keys| > 0 && |kinds| > 0
      && (forall k | k in keys :: forall c | c in k :: c < |kinds|)
      && (forall r | r in refs :: r.column < |kinds| && r.parent < index)
    }

    predicate Accepts(row: Row) {
      && |row| == |kinds|
      && (forall c | 0 <= c < |row| :: Fits(kinds[c], row[c]))
      && match check {
           case NoCheck => true
           case Singleton => |row| > 0 && row[0] == Int(1)
           case Status => |row| > 3 && row[3] in {Str("proposed"), Str("confirmed"), Str("disputed"), Str("superseded")}
         }
    }

    /** The two rows agree on some unique key. */
    predicate Clash(a: Row, b: Row)
      requires Accepts(a) && Accepts(b)
    {
      exists k | k in keys :: forall c | c in k :: c < |a| && a[c] == b[c]
    }
  }

  predicate Fits(kind: Kind, cell: Cell) {
    match kind
    case KText => cell.Str?
    case KTextOrNull => cell.Str? || cell.Null?
    case KInt => cell.Int? && -I64_MAX - 1 <= cell.n <= I64_MAX
    case KReal => cell.Real?
  }

  /** Parents come before their children. */
  predicate Ordered(schema: seq<TableDef>) {
    forall t | 0 <= t < |schema| :: schema[t].WellFormed(t)
  }

  /** All constraints hold: column kinds and checks, unique keys, and references. */
  ghost predicate Integrity(schema: seq<TableDef>, db: Db) {
    && |db| == |schema|
    && (forall t | 0 <= t < |db| :: TableOk(schema[t], db[t]))
    && (forall t, r | 0 <= t < |db| && r in db[t] :: HasParents(schema[t], db, r))
  }

  ghost predicate TableOk(def: TableDef, rows: set<Row>) {
    && (forall r | r in rows :: def.Accepts(r))
    && (forall a, b | a in rows && b in rows && a != b :: !def.Clash(a, b))
  }

  predicate HasParents(def: TableDef, db: Db, row: Row) {
    forall f | f in def.refs :: f.column < |row| && f.parent < |db| && HasKey(db[f.parent], row[f.column])
  }

  predicate HasKey(rows: set<Row>, key: Cell) {
    exists p :: p in rows && |p| > 0 && p[0] == key
  }

  /* ---- Cells and JSON ---- */

  function Encode(cell: Cell): Json {
    match cell
    case Null => JNull
    case Int(n) => JInt(n)
    case Real(x) => JReal(x)
    case Str(s) => JStr(s)
    case Blob => JOther
  }

  function Decode(json: Json): Option<Cell> {
    match json
    case JNull => Some(Null)
    case JInt(n) => Some(if -I64_MAX - 1 <= n <= I64_MAX then Int(n) else Real(n as real))
    case JReal(x) => Some(Real(x))
    case JStr(s) => Some(Str(s))
    case JOther => None
  }

  function EncodeRow(row: Row): JsonRow {
    seq(|row|, i requires 0 <= i < |row| => Encode(row[i]))
  }

  predicate Readable(row: JsonRow) {
    forall i | 0 <= i < |row| :: Decode(row[i]).Some?
  }

  function DecodeRow(row: JsonRow): Row
    requires Readable(row)
  {
    seq(|row|, i requires 0 <= i < |row| => Decode(row[i]).value)
  }

  lemma RowRoundTrip(def: TableDef, row: Row)
    requires def.Accepts(row)
    ensures Readable(EncodeRow(row)) && DecodeRow(EncodeRow(row)) == row
  {
    forall i | 0 <= i < |row| ensures Decode(Encode(row[i])) == Some(row[i]) {
      assert Fits(def.kinds[i], row[i]);
    }
    assert DecodeRow(EncodeRow(row)) == row;
  }

  /* ---- Loading an archive ---- */

  /** Row `i` of table `t` can be inserted: right width, readable cells, accepted kinds. */
  predicate Insertable(def: TableDef, row: JsonRow) {
    |row| == |def.kinds| && Readable(row) && def.Accepts(DecodeRow(row))
  }

  ghost predicate HasJsonKey(def: TableDef, rows: seq<JsonRow>, key: Cell) {
    exists i :: 0 <= i < |rows| && Insertable(def, rows[i]) && |rows[i]| > 0 && DecodeRow(rows[i])[0] == key
  }

  /** What an archive must satisfy to be loaded at all, whatever the order its rows come in. */
  ghost predicate Loadable(schema: seq<TableDef>, archive: Archive) {
    && |archive| == |schema|
    && (forall t, i | 0 <= t < |archive| && 0 <= i < |archive[t]| :: GoodRow(schema, archive, t, i))
  }

  /** Row `i` of table `t` is insertable, clashes with no earlier row, and has its parents. */
  ghost predicate GoodRow(schema: seq<TableDef>, archive: Archive, t: nat, i: nat)
    requires t < |archive| == |schema| && i < |archive[t]|
  {
    && Insertable(schema[t], archive[t][i])
    && (forall j | 0 <= j < i && Insertable(schema[t], archive[t][j]) ::
          !schema[t].Clash(DecodeRow(archive[t][j]), DecodeRow(archive[t][i])))
    && (forall f | f in schema[t].refs ::
          f.parent < t && f.column < |archive[t][i]|
          && HasJsonKey(schema[f.parent], archive[f.parent], DecodeRow(archive[t][i])[f.column]))
  }

  function RowSet(def: TableDef, rows: seq<JsonRow>): set<Row> {
    set i | 0 <= i < |rows| && Insertable(def, rows[i]) :: DecodeRow(rows[i])
  }

  method Load(schema: seq<TableDef>, empty: Db, archive: Archive) returns (ok: bool, db: Db)
    requires Ordered(schema) && |archive| == |schema| <= |empty|
    requires forall t | 0 <= t < |schema| :: empty[t] == {}
    ensures ok <==> Loadable(schema, archive)
    ensures ok ==> |db| == |empty| && (forall t | 0 <= t < |schema| :: db[t] == RowSet(schema[t], archive[t]))
                   && db[|schema|..] == empty[|schema|..]
  {
    db := empty;
    ok := true;
    for t := 0 to |schema|
      invariant |db| == |empty| && db[t..] == empty[t..]
      invariant forall u | 0 <= u < t :: db[u] == RowSet(schema[u], archive[u])
      invariant forall u, i | 0 <= u < t && 0 <= i < |archive[u]| :: GoodRow(schema, archive, u, i)
    {
      var good, rows := LoadTable(schema, db, archive, t);
      if !good {
        return false, db;
      }
      db := db[t := rows];
    }
  }

  predicate ClashesWith(def: TableDef, rows: set<Row>, row: Row)
    requires def.Accepts(row)
  {
    exists r :: r in rows && def.Accepts(r) && def.Clash(r, row)
  }

  /** The checks of one insertion, against the rows inserted so far, are `GoodRow`. */
  lemma InsertionChecks(schema: seq<TableDef>, db: Db, archive: Archive, t: nat, i: nat)
    requires Ordered(schema) && t < |archive| == |schema| <= |db| && i < |archive[t]|
    requires forall u | 0 <= u < t :: db[u] == RowSet(schema[u], archive[u])
    ensures GoodRow(schema, archive, t, i) <==>
      && Insertable(schema[t], archive[t][i])
      && !ClashesWith(schema[t], RowSet(schema[t], archive[t][..i]), DecodeRow(archive[t][i]))
      && HasParents(schema[t], db, DecodeRow(archive[t][i]))
  {
    var def := schema[t];
    if Insertable(def, archive[t][i]) {
      var row := DecodeRow(archive[t][i]);
      var rows := RowSet(def, archive[t][..i]);
      assert forall j | 0 <= j < i :: archive[t][..i][j] == archive[t][j];
      assert ClashesWith(def, rows, row) <==>
        exists j :: 0 <= j < i && Insertable(def, archive[t][j]) && def.Clash(DecodeRow(archive[t][j]), row);
      forall f | f in def.refs
        ensures HasKey(db[f.parent], row[f.column]) <==> HasJsonKey(schema[f.parent], archive[f.parent], row[f.column])
      {
        assert db[f.parent] == RowSet(schema[f.parent], archive[f.parent]);
      }
    }
  }

  method LoadTable(schema: seq<TableDef>, db: Db, archive: Archive, t: nat) returns (ok: bool, rows: set<Row>)
    requires Ordered(schema) && t < |archive| == |schema| <= |db|
    requires forall u | 0 <= u < t :: db[u] == RowSet(schema[u], archive[u])
    ensures ok <==> forall i | 0 <= i < |archive[t]| :: GoodRow(schema, archive, t, i)
    ensures ok ==> rows == RowSet(schema[t], archive[t])
  {
    var def := schema[t];
    rows, ok := {}, true;
    for i := 0 to |archive[t]|
      invariant rows == RowSet(def, archive[t][..i])
      invariant forall j | 0 <= j < i :: GoodRow(schema, archive, t, j)
    {
      var json := archive[t][i];
      InsertionChecks(schema, db, archive, t, i);
      if !Insertable(def, json) || ClashesWith(def, rows, DecodeRow(json)) || !HasParents(def, db, DecodeRow(json)) {
        return false, rows;
      }
      rows := Extend(def, archive[t], i, rows);
    }
    assert archive[t][..|archive[t]|] == archive[t];
  }

  method Extend(def: TableDef, list: seq<JsonRow>, i: nat, rows: set<Row>) returns (more: set<Row>)
    requires i < |list| && Insertable(def, list[i]) && rows == RowSet(def, list[..i])
    ensures more == RowSet(def, list[..i + 1])
  {
    assert list[..i + 1] == list[..i] + [list[i]];
    more := rows + {DecodeRow(list[i])};
  }

  lemma LoadedParents(schema: seq<TableDef>, rows: Db, archive: Archive, t: nat, r: Row)
    requires Ordered(schema) && Loadable(schema, archive) && t < |schema| <= |rows|
    requires forall u | 0 <= u < |schema| :: rows[u] == RowSet(schema[u], archive[u])
    requires r in rows[t]
    ensures HasParents(schema[t], rows, r)
  {
    var i :| 0 <= i < |archive[t]| && Insertable(schema[t], archive[t][i]) && r == DecodeRow(archive[t][i]);
    assert GoodRow(schema, archive, t, i);
    InsertionChecks(schema, rows, archive, t, i);
  }

  lemma LoadedTableIsOk(schema: seq<TableDef>, archive: Archive, t: nat)
    requires Ordered(schema) && Loadable(schema, archive) && t < |schema|
    ensures TableOk(schema[t], RowSet(schema[t], archive[t]))
  {
    var rows := RowSet(schema[t], archive[t]);
    forall a, b | a in rows && b in rows && a != b ensures !schema[t].Clash(a, b) {
      var i :| 0 <= i < |archive[t]| && Insertable(schema[t], archive[t][i]) && a == DecodeRow(archive[t][i]);
      var j :| 0 <= j < |archive[t]| && Insertable(schema[t], archive[t][j]) && b == DecodeRow(archive[t][j]);
      assert GoodRow(schema, archive, t, i) && GoodRow(schema, archive, t, j);
      ClashIsSymmetric(schema[t], a, b);
    }
  }

  /** What has been loaded is consistent. */
  lemma LoadedIsConsistent(schema: seq<TableDef>, rows: Db, archive: Archive)
    requires Ordered(schema) && Loadable(schema, archive) && |rows| == |schema|
    requires forall u | 0 <= u < |schema| :: rows[u] == RowSet(schema[u], archive[u])
    ensures Integrity(schema, rows)
  {
    forall t | 0 <= t < |rows| ensures TableOk(schema[t], rows[t]) {
      LoadedTableIsOk(schema, archive, t);
    }
    forall t, r | 0 <= t < |rows| && r in rows[t] ensures HasParents(schema[t], rows, r) {
      LoadedParents(schema, rows, archive, t, r);
    }
  }

  lemma ClashIsSymmetric(def: TableDef, a: Row, b: Row)
    requires def.Accepts(a) && def.Accepts(b)
    ensures def.Clash(a, b) == def.Clash(b, a)
  {
  }

  lemma SubsetKeepsTable(def: TableDef, rows: set<Row>, some: set<Row>)
    requires TableOk(def, rows) && some <= rows
    ensures TableOk(def, some)
  {
  }

  lemma AcceptsUpdate(def: TableDef, row: Row, c: nat, cell: Cell)
    requires def.Accepts(row) && c < |row| && Fits(def.kinds[c], cell) && c !in {0, 3}
    ensures def.Accepts(row[c := cell])
  {
  }

  lemma ExtendKeepsTable(def: TableDef, rows: set<Row>, row: Row)
    requires TableOk(def, rows) && def.Accepts(row) && def.keys == [[0]]
    requires forall r | r in rows :: |r| > 0 && |row| > 0 && r[0] != row[0]
    ensures TableOk(def, rows + {row})
  {
  }

  /** Rewriting rows outside their keys keeps a table well-formed. */
  lemma RewriteKeepsTable(def: TableDef, rows: set<Row>, f: Row -> Row)
    requires TableOk(def, rows)
    requires forall r | r in rows :: def.Accepts(f(r))
    requires forall r, k, c | r in rows && k in def.keys && c in k :: c < |r| == |f(r)| && f(r)[c] == r[c]
    ensures TableOk(def, set r | r in rows :: f(r))
  {
    var image := set r | r in rows :: f(r);
    forall a, b | a in image && b in image && a != b ensures !def.Clash(a, b) {
      var p :| p in rows && f(p) == a;
      var q :| q in rows && f(q) == b;
      assert !def.Clash(p, q);
    }
  }

  /* ---- Export ---- */

  /** `list` holds each row of `rows` once. */
  ghost predicate Lists(list: seq<Row>, rows: set<Row>) {
    && (forall r :: r in list <==> r in rows)
    && (forall i, j | 0 <= i < j < |list| :: list[i] != list[j])
  }

  function ToJson(list: seq<Row>): seq<JsonRow> {
    seq(|list|, i requires 0 <= i < |list| => EncodeRow(list[i]))
  }

  /** The archive carries every row of every archived table, in some order. */
  ghost predicate Carries(schema: seq<TableDef>, archive: Archive, db: Db) {
    && |archive| == |schema| <= |db|
    && forall t | 0 <= t < |schema| :: IsTable(archive[t], db[t])
  }

  ghost predicate IsTable(data: seq<JsonRow>, rows: set<Row>) {
    exists list :: Lists(list, rows) && data == ToJson(list)
  }

  /** Whatever order its rows come in, an archive of a consistent vault loads, and loads to the same rows: the
      table order never breaks a reference. */
  lemma ArchiveLoads(schema: seq<TableDef>, all: seq<TableDef>, archive: Archive, db: Db)
    requires schema <= all && Ordered(schema) && Integrity(all, db) && Carries(schema, archive, db)
    ensures Loadable(schema, archive)
    ensures forall t | 0 <= t < |schema| :: RowSet(schema[t], archive[t]) == db[t]
  {
    forall t | 0 <= t < |schema|
      ensures RowSet(schema[t], archive[t]) == db[t]
      ensures forall i | 0 <= i < |archive[t]| :: GoodRow(schema, archive, t, i)
    {
      var list :| Lists(list, db[t]) && archive[t] == ToJson(list);
      ListedRows(schema[t], list, db[t]);
      forall i | 0 <= i < |list| ensures GoodRow(schema, archive, t, i) {
        assert all[t] == schema[t] && list[i] in db[t] && HasParents(all[t], db, list[i]);
        assert DecodeRow(archive[t][i]) == list[i];
        forall f | f in schema[t].refs
          ensures HasJsonKey(schema[f.parent], archive[f.parent], list[i][f.column])
        {
          var parents :| Lists(parents, db[f.parent]) && archive[f.parent] == ToJson(parents);
          ListedRows(schema[f.parent], parents, db[f.parent]);
          var p :| p in db[f.parent] && |p| > 0 && p[0] == list[i][f.column];
          var j :| 0 <= j < |parents| && parents[j] == p;
          assert DecodeRow(archive[f.parent][j]) == p;
        }
      }
    }
  }

  lemma ListedRows(def: TableDef, list: seq<Row>, rows: set<Row>)
    requires Lists(list, rows) && forall r | r in rows :: def.Accepts(r)
    ensures forall i | 0 <= i < |list| :: Insertable(def, ToJson(list)[i]) && DecodeRow(ToJson(list)[i]) == list[i]
    ensures RowSet(def, ToJson(list)) == rows
  {
    forall i | 0 <= i < |list| ensures Insertable(def, ToJson(list)[i]) && DecodeRow(ToJson(list)[i]) == list[i] {
      assert list[i] in list;
      RowRoundTrip(def, list[i]);
    }
    forall r | r in rows ensures r in RowSet(def, ToJson(list)) {
      var i :| 0 <= i < |list| && list[i] == r;
      assert DecodeRow(ToJson(list)[i]) == r;
    }
  }
}
