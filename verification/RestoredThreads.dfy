/** The continuity tables inside a vault's rows, and what a restore does to them: exactly
    `Continuity.Recovered` followed by a prune, the step the runs of the protocol assume. */
module RestoredThreads {
  import opened Common
  import opened Recovery
  import opened Restore
  import C = Continuity

  /* ---- Rows as keyed values ---- */

  /** `m` maps the key of each row to its value, and nothing else. */
  ghost predicate Indexes<K(!new), V>(rows: set<Row>, key: Row -> K, val: Row -> V, m: map<K, V>) {
    && (forall r | r in rows :: key(r) in m && m[key(r)] == val(r))
    && (forall k | k in m :: HasRow(rows, key, k))
  }

  ghost predicate HasRow<K(!new)>(rows: set<Row>, key: Row -> K, k: K) {
    exists r :: r in rows && key(r) == k
  }

  ghost predicate Distinct<K(!new)>(rows: set<Row>, key: Row -> K) {
    forall a, b | a in rows && b in rows && key(a) == key(b) :: a == b
  }

  ghost function RowWith<K(!new)>(rows: set<Row>, key: Row -> K, k: K): (r: Row)
    requires HasRow(rows, key, k)
    ensures r in rows && key(r) == k
  {
    var r :| r in rows && key(r) == k;
    r
  }

  ghost function Index<K(!new), V>(rows: set<Row>, key: Row -> K, val: Row -> V): (m: map<K, V>)
    requires Distinct(rows, key)
    ensures Indexes(rows, key, val, m)
  {
    var keys := set r | r in rows :: key(r);
    assert forall k | k in keys :: HasRow(rows, key, k);
    map k | k in keys :: val(RowWith(rows, key, k))
  }

  lemma IndexIsUnique<K(!new), V>(rows: set<Row>, key: Row -> K, val: Row -> V, a: map<K, V>, b: map<K, V>)
    requires Indexes(rows, key, val, a) && Indexes(rows, key, val, b)
    ensures a == b
  {
    forall k | k in a || k in b ensures k in a && k in b && a[k] == b[k] {
      var r :| r in rows && key(r) == k;
    }
  }

  ghost function Rewrite(rows: set<Row>, f: Row -> Row): set<Row> {
    set r | r in rows :: f(r)
  }

  ghost function MapValues<K, V>(m: map<K, V>, g: V -> V): map<K, V> {
    map k | k in m :: g(m[k])
  }

  lemma RewrittenIndex<K(!new), V>(
    rows: set<Row>, key: Row -> K, val: Row -> V, m: map<K, V>, f: Row -> Row, g: V -> V)
    requires Indexes(rows, key, val, m)
    requires forall r | r in rows :: key(f(r)) == key(r) && val(f(r)) == g(val(r))
    ensures Indexes(Rewrite(rows, f), key, val, MapValues(m, g))
  {
    forall k | k in m ensures HasRow(Rewrite(rows, f), key, k) {
      var r :| r in rows && key(r) == k;
      assert key(f(r)) == k;
    }
  }

  ghost function Filter(rows: set<Row>, keep: Row -> bool): set<Row> {
    set r | r in rows && keep(r)
  }

  ghost function FilterMap<K, V>(m: map<K, V>, live: (K, V) -> bool): map<K, V> {
    map k | k in m && live(k, m[k]) :: m[k]
  }

  lemma FilteredIndex<K(!new), V>(
    rows: set<Row>, key: Row -> K, val: Row -> V, m: map<K, V>, keep: Row -> bool, live: (K, V) -> bool)
    requires Indexes(rows, key, val, m)
    requires forall r | r in rows :: keep(r) == live(key(r), val(r))
    ensures Indexes(Filter(rows, keep), key, val, FilterMap(m, live))
  {
    forall k | k in m && live(k, m[k]) ensures HasRow(Filter(rows, keep), key, k) {
      var r :| r in rows && key(r) == k;
    }
  }

  /* ---- Threads and turns ---- */

  function At(row: Row, c: nat): Cell {
    if c < |row| then row[c] else Null
  }

  function Txt(cell: Cell): string {
    if cell.Str? then cell.s else ""
  }

  function Optional(cell: Cell): Option<string> {
    if cell.Str? then Some(cell.s) else None
  }

  function Num(cell: Cell): int {
    if cell.Int? then cell.n else 0
  }

  function IdOf(row: Row): Id {
    Txt(At(row, 0))
  }

  function ThreadOf(env: Env, r: Row): C.Thread {
    C.Thread(Txt(At(r, 1)), Txt(At(r, 2)), Txt(At(r, 3)), Txt(At(r, 4)), Txt(At(r, 5)), Optional(At(r, 6)),
             env.clock(Txt(At(r, 7))), env.clock(Txt(At(r, 8))), Num(At(r, 9)), Optional(At(r, 10)))
  }

  function KeyOf(row: Row): C.TurnKey {
    C.TurnKey(Txt(At(row, 0)), Txt(At(row, 1)))
  }

  function TurnOf(env: Env, r: Row): C.Turn {
    C.Turn(Txt(At(r, 2)), Txt(At(r, 3)), Txt(At(r, 4)), Optional(At(r, 5)), Txt(At(r, 6)),
           env.clock(Txt(At(r, 7))), Num(At(r, 8)))
  }

  function AsThread(env: Env): Row -> C.Thread {
    r => ThreadOf(env, r)
  }

  function AsTurn(env: Env): Row -> C.Turn {
    r => TurnOf(env, r)
  }

  /** These rows are the continuity tables `t`. */
  ghost predicate IsView(env: Env, threads: set<Row>, turns: set<Row>, t: C.Tables) {
    && Indexes(threads, IdOf, AsThread(env), t.threads)
    && Indexes(turns, KeyOf, AsTurn(env), t.turns)
  }

  /** Thread rows have their eleven cells, turns their thread and request ids, as texts where keys are read. */
  ghost predicate Typed(threads: set<Row>, turns: set<Row>) {
    && (forall r: Row | r in threads :: |r| == 11 && r[0].Str? && r[8].Str?)
    && (forall r: Row | r in turns :: |r| == 9 && r[0].Str? && r[1].Str?)
  }

  lemma ThreadDefs()
    ensures |ALL| == 18
    ensures ALL[THREADS].kinds == [KText, KText, KText, KText, KText, KText, KTextOrNull, KText, KText, KInt, KTextOrNull]
    ensures ALL[TURNS].kinds == [KText, KText, KText, KText, KText, KTextOrNull, KText, KText, KInt]
    ensures ALL[THREADS].keys == [[0]] && ALL[TURNS].keys == [[0, 1], [0, 8]]
  {
  }

  /** A consistent vault's rows are well-typed and well-keyed. */
  lemma ConsistentIsKeyed(db: Db)
    requires Integrity(ALL, db)
    ensures |db| == 18 && Typed(db[THREADS], db[TURNS])
    ensures Distinct(db[THREADS], IdOf) && Distinct(db[TURNS], KeyOf)
  {
    ThreadDefs();
    ThreadsAreKeyed(db[THREADS]);
    TurnsAreKeyed(db[TURNS]);
  }

  lemma ThreadsAreKeyed(rows: set<Row>)
    requires |ALL| == 18 && TableOk(ALL[THREADS], rows)
    ensures (forall r: Row | r in rows :: |r| == 11 && r[0].Str? && r[8].Str?) && Distinct(rows, IdOf)
  {
    ThreadDefs();
    forall r: Row | r in rows ensures |r| == 11 && r[0].Str? && r[8].Str? {
      assert Fits(ALL[THREADS].kinds[0], r[0]) && Fits(ALL[THREADS].kinds[8], r[8]);
    }
    forall a, b | a in rows && b in rows && IdOf(a) == IdOf(b) ensures a == b {
      assert [0] in ALL[THREADS].keys && a[0] == b[0];
      assert ALL[THREADS].Clash(a, b);
    }
  }

  lemma TurnsAreKeyed(rows: set<Row>)
    requires |ALL| == 18 && TableOk(ALL[TURNS], rows)
    ensures (forall r: Row | r in rows :: |r| == 9 && r[0].Str? && r[1].Str?) && Distinct(rows, KeyOf)
  {
    ThreadDefs();
    forall r: Row | r in rows ensures |r| == 9 && r[0].Str? && r[1].Str? {
      assert Fits(ALL[TURNS].kinds[0], r[0]) && Fits(ALL[TURNS].kinds[1], r[1]);
    }
    forall a, b | a in rows && b in rows && KeyOf(a) == KeyOf(b) ensures a == b {
      assert [0, 1] in ALL[TURNS].keys && a[0] == b[0] && a[1] == b[1];
      assert ALL[TURNS].Clash(a, b);
    }
  }

  ghost function View(env: Env, threads: set<Row>, turns: set<Row>): (t: C.Tables)
    requires Distinct(threads, IdOf) && Distinct(turns, KeyOf)
    ensures IsView(env, threads, turns, t)
  {
    C.Tables(Index(threads, IdOf, AsThread(env)), Index(turns, KeyOf, AsTurn(env)))
  }

  function Reopen(c: C.Thread): C.Thread {
    c.(pending := None, revision := c.revision + 1)
  }

  function ReopenAll(m: map<Id, C.Thread>): map<Id, C.Thread> {
    map id | id in m :: Reopen(m[id])
  }

  function Living(m: map<Id, C.Thread>, now: Time): map<Id, C.Thread> {
    map id | id in m && m[id].expires > now :: m[id]
  }

  function TurnsIn(m: map<Id, C.Thread>, n: map<C.TurnKey, C.Turn>): map<C.TurnKey, C.Turn> {
    map k | k in n && k.thread in m :: n[k]
  }

  lemma ReopenedRow(env: Env, r: Row)
    requires |r| == 11 && r[9].Int? && r[9].n < I64_MAX
    ensures IdOf(Reopened(r)) == IdOf(r) && ThreadOf(env, Reopened(r)) == Reopen(ThreadOf(env, r))
    ensures |Reopened(r)| == 11 && Reopened(r)[0] == r[0] && Reopened(r)[8] == r[8]
  {
  }

  lemma EachReopened(env: Env, threads: set<Row>)
    requires RoomToReopen(threads) && forall r: Row | r in threads :: |r| == 11
    ensures forall r | r in threads ::
      IdOf(Reopened(r)) == IdOf(r) && AsThread(env)(Reopened(r)) == Reopen(AsThread(env)(r))
  {
    hide ThreadOf, IdOf, Reopened, Reopen;
    forall r | r in threads
      ensures IdOf(Reopened(r)) == IdOf(r) && AsThread(env)(Reopened(r)) == Reopen(AsThread(env)(r))
    {
      ReopenedRow(env, r);
    }
  }

  lemma ReopenedRows(env: Env, threads: set<Row>, m: map<Id, C.Thread>)
    requires Indexes(threads, IdOf, AsThread(env), m) && RoomToReopen(threads)
    requires forall r: Row | r in threads :: |r| == 11
    ensures Indexes(ReopenedThreads(threads), IdOf, AsThread(env), ReopenAll(m))
  {
    EachReopened(env, threads);
    hide ThreadOf, IdOf, Reopened, Reopen, AsThread, RoomToReopen, Indexes;
    RewrittenIndex(threads, IdOf, AsThread(env), m, Reopened, Reopen);
    assert ReopenedThreads(threads) == Rewrite(threads, Reopened);
    assert ReopenAll(m) == MapValues(m, Reopen);
  }

  function Unexpired(env: Env, stamp: string): Row -> bool {
    r => KeptByPrune(env, stamp, r)
  }

  function LiveAt(now: Time): (Id, C.Thread) -> bool {
    (id: Id, c: C.Thread) => c.expires > now
  }

  lemma KeptRow(env: Env, stamp: string, r: Row)
    requires |r| == 11 && r[8].Str?
    ensures KeptByPrune(env, stamp, r) == (ThreadOf(env, r).expires > env.clock(stamp))
  {
  }

  lemma LiveRows(env: Env, threads: set<Row>, m: map<Id, C.Thread>, stamp: string)
    requires Indexes(threads, IdOf, AsThread(env), m)
    requires forall r: Row | r in threads :: |r| == 11 && r[8].Str?
    ensures Indexes(LiveThreads(env, threads, stamp), IdOf, AsThread(env), Living(m, env.clock(stamp)))
  {
    hide IdOf, ThreadOf, KeptByPrune, Indexes;
    forall r | r in threads
      ensures Unexpired(env, stamp)(r) == LiveAt(env.clock(stamp))(IdOf(r), AsThread(env)(r))
    {
      KeptRow(env, stamp, r);
    }
    FilteredIndex(threads, IdOf, AsThread(env), m, Unexpired(env, stamp), LiveAt(env.clock(stamp)));
    assert LiveThreads(env, threads, stamp) == Filter(threads, Unexpired(env, stamp));
    assert Living(m, env.clock(stamp)) == FilterMap(m, LiveAt(env.clock(stamp)));
  }

  function InThread(live: set<Row>): Row -> bool {
    r => OfThread(live, r)
  }

  function Within(m: map<Id, C.Thread>): (C.TurnKey, C.Turn) -> bool {
    (k: C.TurnKey, v: C.Turn) => k.thread in m
  }

  lemma LiveTurnRows(env: Env, live: set<Row>, turns: set<Row>, m: map<Id, C.Thread>, n: map<C.TurnKey, C.Turn>)
    requires Indexes(live, IdOf, AsThread(env), m) && Indexes(turns, KeyOf, AsTurn(env), n) && Typed(live, turns)
    ensures Indexes(LiveTurns(live, turns), KeyOf, AsTurn(env), TurnsIn(m, n))
  {
    hide ThreadOf, TurnOf, IdOf, KeyOf, OfThread, Indexes, AsThread, AsTurn;
    TurnsFollowThreads(env, live, turns, m);
    forall r | r in turns ensures InThread(live)(r) == Within(m)(KeyOf(r), AsTurn(env)(r)) {
    }
    FilteredIndex(turns, KeyOf, AsTurn(env), n, InThread(live), Within(m));
    assert LiveTurns(live, turns) == Filter(turns, InThread(live));
    assert TurnsIn(m, n) == FilterMap(n, Within(m));
  }

  lemma ReopenedTyped(threads: set<Row>, turns: set<Row>)
    requires Typed(threads, turns)
    ensures Typed(ReopenedThreads(threads), turns)
  {
  }

  lemma RestoredView(env: Env, threads: set<Row>, turns: set<Row>, t: C.Tables, stamp: string)
    requires IsView(env, threads, turns, t) && Typed(threads, turns) && RoomToReopen(threads)
    ensures var live := LiveThreads(env, ReopenedThreads(threads), stamp);
      IsView(env, live, LiveTurns(live, turns), C.Pruned(C.Recovered(t), env.clock(stamp)))
  {
    hide ThreadOf, TurnOf, IdOf, KeyOf, OfThread, KeptByPrune, Reopened, AsThread, AsTurn;
    ReopenedRows(env, threads, t.threads);
    ReopenedTyped(threads, turns);
    LiveRows(env, ReopenedThreads(threads), ReopenAll(t.threads), stamp);
    var live := LiveThreads(env, ReopenedThreads(threads), stamp);
    LiveTurnRows(env, live, turns, Living(ReopenAll(t.threads), env.clock(stamp)), t.turns);
    ReopenedTables(t, env.clock(stamp));
  }

  lemma ReopenedTables(t: C.Tables, now: Time)
    ensures var n := Living(ReopenAll(t.threads), now);
      C.Pruned(C.Recovered(t), now) == C.Tables(n, TurnsIn(n, t.turns))
  {
    assert C.Recovered(t).threads == ReopenAll(t.threads);
  }

  /** A turn survives the prune exactly when its thread does. */
  lemma TurnsFollowThreads(env: Env, live: set<Row>, turns: set<Row>, m: map<Id, C.Thread>)
    requires Indexes(live, IdOf, AsThread(env), m) && Typed(live, turns)
    ensures forall r | r in turns :: OfThread(live, r) <==> KeyOf(r).thread in m
  {
    forall r | r in turns ensures OfThread(live, r) <==> KeyOf(r).thread in m {
      if KeyOf(r).thread in m {
        var p :| p in live && IdOf(p) == KeyOf(r).thread;
        assert p[0] == r[0];
      }
      if OfThread(live, r) {
        var p :| p in live && |p| > 0 && p[0] == r[0];
        assert IdOf(p) in m;
      }
    }
  }

  /** Well-keyed rows have one view. */
  lemma ViewIsUnique(env: Env, threads: set<Row>, turns: set<Row>, t: C.Tables)
    requires Distinct(threads, IdOf) && Distinct(turns, KeyOf) && IsView(env, threads, turns, t)
    ensures View(env, threads, turns) == t
  {
    IndexIsUnique(threads, IdOf, AsThread(env), View(env, threads, turns).threads, t.threads);
    IndexIsUnique(turns, KeyOf, AsTurn(env), View(env, threads, turns).turns, t.turns);
  }

  lemma ReopenedAreKeyed(threads: set<Row>)
    requires Distinct(threads, IdOf)
    ensures Distinct(ReopenedThreads(threads), IdOf)
  {
    forall r ensures IdOf(Reopened(r)) == IdOf(r) {
    }
  }

  /** A restore acts on the conversations of the archive exactly as the protocol's restore step does, if and only if
      none that it keeps was at the largest revision an integer column can hold. */
  lemma RestoreReopensConversations(env: Env, rows: Db, instance: Cell, stamp: string, audit: Row)
    requires Integrity(ALL, rows) && |rows| == 18
    ensures Distinct(rows[THREADS], IdOf) && Distinct(rows[TURNS], KeyOf)
    ensures var db := Normalised(env, rows, instance, stamp, audit);
      && |db| == 18 && Distinct(db[THREADS], IdOf) && Distinct(db[TURNS], KeyOf)
      && (View(env, db[THREADS], db[TURNS])
            == C.Pruned(C.Recovered(View(env, rows[THREADS], rows[TURNS])), env.clock(stamp))
          <==> RoomToReopen(LiveThreads(env, rows[THREADS], stamp)))
  {
    ConsistentIsKeyed(rows);
    RowWidths(rows);
    NormalisedThreads(env, rows, instance, stamp, audit);
    hide KeptByPrune, Reopened, Indexes, OfThread, LiveThreads, LiveTurns, ReopenedThreads, Normalised, View, Distinct,
      IsView, Typed, RoomToReopen, IdOf, KeyOf;
    RestoredRows(env, rows[THREADS], rows[TURNS], stamp);
    RestoredAreKeyed(env, rows[THREADS], rows[TURNS], stamp);
    if RoomToReopen(LiveThreads(env, rows[THREADS], stamp)) {
      ReopensWithRoom(env, rows[THREADS], rows[TURNS], stamp);
    } else {
      LosesWithoutRoom(env, rows[THREADS], rows[TURNS], stamp);
    }
  }

  lemma ReopensWithRoom(env: Env, threads: set<Row>, turns: set<Row>, stamp: string)
    requires Distinct(threads, IdOf) && Distinct(turns, KeyOf) && Typed(threads, turns)
    requires RoomToReopen(LiveThreads(env, threads, stamp))
    ensures var live := LiveThreads(env, threads, stamp);
      && Distinct(ReopenedThreads(live), IdOf) && Distinct(LiveTurns(live, turns), KeyOf)
      && View(env, ReopenedThreads(live), LiveTurns(live, turns))
         == C.Pruned(C.Recovered(View(env, threads, turns)), env.clock(stamp))
  {
    hide KeptByPrune, Reopened, Indexes, OfThread, LiveThreads, LiveTurns, ReopenedThreads, View, Distinct, IsView, Typed,
      RoomToReopen, IdOf, KeyOf;
    var live, now := LiveThreads(env, threads, stamp), env.clock(stamp);
    var t := View(env, threads, turns);
    RestoredRows(env, threads, turns, stamp);
    RestoredAreKeyed(env, threads, turns, stamp);
    PrunedView(env, threads, turns, t, stamp);
    RestoredView(env, live, LiveTurns(live, turns), C.Pruned(t, now), stamp);
    RestoredTwice(t, now);
    ViewIsUnique(env, ReopenedThreads(live), LiveTurns(live, turns), C.Pruned(C.Recovered(t), now));
  }

  /** A revision that does not fit is stored as a real, and is not read back as the next revision. */
  lemma LosesWithoutRoom(env: Env, threads: set<Row>, turns: set<Row>, stamp: string)
    requires Distinct(threads, IdOf) && Distinct(turns, KeyOf) && Typed(threads, turns)
    requires forall c: Row | c in threads :: |c| == 11 && c[9].Int? && c[9].n <= I64_MAX
    requires !RoomToReopen(LiveThreads(env, threads, stamp))
    ensures var live := LiveThreads(env, threads, stamp);
      && Distinct(ReopenedThreads(live), IdOf) && Distinct(LiveTurns(live, turns), KeyOf)
      && View(env, ReopenedThreads(live), LiveTurns(live, turns))
         != C.Pruned(C.Recovered(View(env, threads, turns)), env.clock(stamp))
  {
    RestoredAreKeyed(env, threads, turns, stamp);
    var live := LiveThreads(env, threads, stamp);
    var r: Row :| r in live && !(|r| > 10 && r[9].Int? && r[9].n < I64_MAX);
    assert Reopened(r) in ReopenedThreads(live);
    LostRevision(env, r);
    hide Reopened, IdOf, ThreadOf, KeptByPrune, LiveTurns;
    var before := View(env, threads, turns).threads;
    var after := View(env, ReopenedThreads(live), LiveTurns(live, turns)).threads;
    assert before[IdOf(r)] == AsThread(env)(r) && after[IdOf(r)] == AsThread(env)(Reopened(r));
    assert AsThread(env)(r) == ThreadOf(env, r) && AsThread(env)(Reopened(r)) == ThreadOf(env, Reopened(r));
  }

  lemma LostRevision(env: Env, r: Row)
    requires |r| == 11 && r[9] == Int(I64_MAX)
    ensures IdOf(Reopened(r)) == IdOf(r)
    ensures ThreadOf(env, Reopened(r)).revision != ThreadOf(env, r).revision + 1
  {
  }

  /** Reopening before the prune or after it leaves the same rows. */
  lemma RestoredRows(env: Env, threads: set<Row>, turns: set<Row>, stamp: string)
    ensures var live := LiveThreads(env, threads, stamp);
      && LiveThreads(env, ReopenedThreads(threads), stamp) == ReopenedThreads(live)
         == LiveThreads(env, ReopenedThreads(live), stamp)
      && LiveTurns(ReopenedThreads(live), turns) == LiveTurns(live, turns)
         == LiveTurns(ReopenedThreads(live), LiveTurns(live, turns))
  {
    hide KeptByPrune, Reopened, OfThread;
    var live := LiveThreads(env, threads, stamp);
    LiveReopened(env, threads, stamp);
    LiveReopened(env, live, stamp);
    assert LiveThreads(env, live, stamp) == live;
    TurnsOfReopened(env, live, turns, stamp);
    TurnsOfReopened(env, live, LiveTurns(live, turns), stamp);
    assert LiveTurns(live, LiveTurns(live, turns)) == LiveTurns(live, turns);
  }

  lemma RestoredAreKeyed(env: Env, threads: set<Row>, turns: set<Row>, stamp: string)
    requires Distinct(threads, IdOf) && Distinct(turns, KeyOf)
    ensures var live := LiveThreads(env, threads, stamp);
      Distinct(ReopenedThreads(live), IdOf) && Distinct(LiveTurns(live, turns), KeyOf)
  {
    hide KeptByPrune, Reopened, OfThread;
    ReopenedAreKeyed(LiveThreads(env, threads, stamp));
  }

  lemma PrunedView(env: Env, threads: set<Row>, turns: set<Row>, t: C.Tables, stamp: string)
    requires IsView(env, threads, turns, t) && Typed(threads, turns)
    ensures var live := LiveThreads(env, threads, stamp);
      IsView(env, live, LiveTurns(live, turns), C.Pruned(t, env.clock(stamp))) && Typed(live, LiveTurns(live, turns))
  {
    hide ThreadOf, TurnOf, IdOf, KeyOf, OfThread, KeptByPrune, AsThread, AsTurn;
    LiveRows(env, threads, t.threads, stamp);
    var live := LiveThreads(env, threads, stamp);
    LiveTurnRows(env, live, turns, Living(t.threads, env.clock(stamp)), t.turns);
    assert C.Pruned(t, env.clock(stamp)).threads == Living(t.threads, env.clock(stamp));
  }

  lemma RestoredTwice(t: C.Tables, now: Time)
    ensures C.Pruned(C.Recovered(C.Pruned(t, now)), now) == C.Pruned(C.Recovered(t), now)
  {
    var once, twice := C.Pruned(C.Recovered(t), now), C.Pruned(C.Recovered(C.Pruned(t, now)), now);
    assert once.threads == twice.threads;
    forall k ensures k in once.turns <==> k in twice.turns {
      assert k in twice.turns <==> k in t.turns && k.thread in t.threads && t.threads[k.thread].expires > now;
    }
    assert once.turns == twice.turns;
  }

  lemma NormalisedThreads(env: Env, rows: Db, instance: Cell, stamp: string, audit: Row)
    requires |rows| == 18
    ensures var db := Normalised(env, rows, instance, stamp, audit);
      && |db| == 18
      && db[THREADS] == LiveThreads(env, ReopenedThreads(rows[THREADS]), stamp)
      && db[TURNS] == LiveTurns(db[THREADS], rows[TURNS])
  {
  }
}
