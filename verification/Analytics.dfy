/** Weekly reports: exact quantisation of the local counts, and a lifetime budget of four releases. */
module Analytics {
  import opened Common

  const BUCKETS := 8
  const LATTICE := 65_536
  const BUDGET := 4

  /* ---- Quantisation ---- */

  function Sum(s: seq<nat>): nat {
    if s == [] then 0 else Sum(s[..|s| - 1]) + s[|s| - 1]
  }

  lemma SumOfNone()
    ensures Sum([]) == 0
  {
  }

  lemma SumSnoc(s: seq<nat>, x: nat)
    ensures Sum(s + [x]) == Sum(s) + x
  {
    assert (s + [x])[..|s|] == s;
  }

  function Floors(counts: seq<nat>, n: nat): (f: seq<nat>)
    requires n > 0
    ensures |f| == |counts|
  {
    seq(|counts|, i requires 0 <= i < |counts| => Share(counts[i], n))
  }

  /** The whole units of a bucket's share. */
  function Share(count: nat, n: nat): nat
    requires n > 0
  {
    count * LATTICE / n
  }

  lemma DivBounds(a: nat, n: nat)
    requires n > 0
    ensures n * (a / n) <= a < n * (a / n) + n
  {
  }

  /** Rounding down loses less than one unit in each bucket. */
  lemma {:induction false} FloorsLose(counts: seq<nat>, n: nat)
    requires n > 0
    ensures n * Sum(Floors(counts, n)) <= LATTICE * Sum(counts)
    ensures counts != [] ==> LATTICE * Sum(counts) < n * Sum(Floors(counts, n)) + n * |counts|
  {
    if counts != [] {
      var init, last := counts[..|counts| - 1], counts[|counts| - 1];
      FloorsLose(init, n);
      var f := Floors(counts, n);
      assert f[..|f| - 1] == Floors(init, n) && f[|f| - 1] == last * LATTICE / n;
      OneMoreBucket(n, Sum(Floors(init, n)), Sum(init), last, |init|);
    }
  }

  lemma OneMoreBucket(n: nat, floors: nat, sum: nat, count: nat, buckets: nat)
    requires n > 0 && n * floors <= LATTICE * sum
    requires if buckets == 0 then sum == 0 else LATTICE * sum < n * floors + n * buckets
    ensures var more := floors + count * LATTICE / n;
      n * more <= LATTICE * (sum + count) < n * more + n * (buckets + 1)
  {
    DivBounds(count * LATTICE, n);
    Distribute(n, floors, count * LATTICE / n);
    Distribute(n, buckets, 1);
  }

  lemma Distribute(n: nat, a: nat, b: nat)
    ensures n * (a + b) == n * a + n * b
  {
  }

  /** What the buckets of one category hold: the counts of all rows, and of nothing else. */
  predicate Counted(counts: seq<nat>, n: nat) {
    |counts| == BUCKETS && Sum(counts) == n && n > 0
  }

  /** The residue never underflows and is at most seven units. */
  lemma Residue(counts: seq<nat>, n: nat)
    requires Counted(counts, n)
    ensures LATTICE - 7 <= Sum(Floors(counts, n)) <= LATTICE
  {
    FloorsLose(counts, n);
    var s := Sum(Floors(counts, n));
    if s > LATTICE {
      MoreThan(n, s, LATTICE);
    }
    Distribute(n, s, 8);
    if LATTICE > s + 7 {
      AtLeast(n, LATTICE, s + 8);
    }
  }

  lemma AtLeast(n: nat, a: nat, b: nat)
    requires a >= b
    ensures n * a >= n * b
  {
  }

  lemma MoreThan(n: nat, a: nat, b: nat)
    requires n > 0 && a > b
    ensures n * a >= n * b + n
  {
    Distribute(n, b, a - b);
    assert n * (a - b) >= n;
  }

  function Units(counts: seq<nat>, n: nat): (units: seq<nat>)
    requires Counted(counts, n)
    ensures |units| == BUCKETS
  {
    Residue(counts, n);
    var f := Floors(counts, n);
    f[1 := f[1] + (LATTICE - Sum(f))]
  }

  lemma {:induction false} SumUpdate(s: seq<nat>, i: nat, x: nat)
    requires i < |s|
    ensures Sum(s[i := x]) == Sum(s) - s[i] + x
    decreases |s|
  {
    var init := s[..|s| - 1];
    if i == |s| - 1 {
      assert s[i := x][..|s| - 1] == init;
    } else {
      assert s[i := x][..|s| - 1] == init[i := x];
      SumUpdate(init, i, x);
    }
  }

  lemma {:induction false} PartOfSum(s: seq<nat>, i: nat)
    requires i < |s|
    ensures s[i] <= Sum(s)
    decreases |s|
  {
    if i < |s| - 1 {
      PartOfSum(s[..|s| - 1], i);
    }
  }

  /** The units add up to exactly one whole, so each fits 64 bits with room to spare. */
  lemma UnitsAreWhole(counts: seq<nat>, n: nat)
    requires Counted(counts, n)
    ensures Sum(Units(counts, n)) == LATTICE && forall i | 0 <= i < BUCKETS :: Units(counts, n)[i] <= LATTICE
  {
    var f, u := Floors(counts, n), Units(counts, n);
    Residue(counts, n);
    SumUpdate(f, 1, f[1] + (LATTICE - Sum(f)));
    hide Floors, Units, Sum;
    forall i | 0 <= i < BUCKETS ensures u[i] <= LATTICE {
      PartOfSum(u, i);
    }
  }

  /** Each bucket is within one unit below its exact share, except that the second may be up to seven above. */
  lemma UnitsAreShares(counts: seq<nat>, n: nat, i: nat)
    requires Counted(counts, n) && i < BUCKETS
    ensures var u := Units(counts, n);
      LATTICE * counts[i] < n * u[i] + n && n * u[i] <= LATTICE * counts[i] + if i == 1 then 7 * n else 0
  {
    Residue(counts, n);
    FloorAt(counts, n, i);
    var f := Floors(counts, n)[i];
    var residue := LATTICE - Sum(Floors(counts, n));
    hide Floors, Sum;
    if i == 1 {
      Distribute(n, f, residue);
      AtLeast(n, 7, residue);
    }
  }

  lemma FloorAt(counts: seq<nat>, n: nat, i: nat)
    requires n > 0 && i < |counts|
    ensures n * Floors(counts, n)[i] <= LATTICE * counts[i] < n * Floors(counts, n)[i] + n
  {
    DivBounds(counts[i] * LATTICE, n);
  }

  function Distance(a: seq<nat>, b: seq<nat>): nat
    requires |a| == |b|
  {
    if a == [] then 0
    else
      var x, y := a[|a| - 1], b[|b| - 1];
      Distance(a[..|a| - 1], b[..|b| - 1]) + if x <= y then y - x else x - y
  }

  lemma {:induction false} DistanceBound(a: seq<nat>, b: seq<nat>)
    requires |a| == |b|
    ensures Distance(a, b) <= Sum(a) + Sum(b)
  {
    if a != [] {
      DistanceBound(a[..|a| - 1], b[..|b| - 1]);
    }
  }

  /** An installation-week without rows is one whole in the first bucket. */
  function Exact(counts: seq<nat>, n: nat): (units: seq<nat>)
    requires n > 0 ==> Counted(counts, n)
    ensures |units| == BUCKETS
  {
    if n == 0 then [LATTICE, 0, 0, 0, 0, 0, 0, 0] else Units(counts, n)
  }

  /** The sensitivity bound that the noise is scaled for: replacing everything an installation did in a week moves a
      histogram by at most two wholes. */
  lemma Sensitivity(c: seq<nat>, n: nat, d: seq<nat>, m: nat)
    requires (n > 0 ==> Counted(c, n)) && (m > 0 ==> Counted(d, m))
    ensures Sum(Exact(c, n)) == Sum(Exact(d, m)) == LATTICE
    ensures Distance(Exact(c, n), Exact(d, m)) <= 2 * LATTICE
  {
    Inactive();
    if n > 0 { UnitsAreWhole(c, n); }
    if m > 0 { UnitsAreWhole(d, m); }
    DistanceBound(Exact(c, n), Exact(d, m));
  }

  lemma Inactive()
    ensures Sum([LATTICE, 0, 0, 0, 0, 0, 0, 0]) == LATTICE
  {
    var s := [LATTICE, 0, 0, 0, 0, 0, 0, 0];
    SumUpdate(s, 0, 0);
    assert s[0 := 0] == seq(8, _ => 0);
    Zeros(8);
  }

  lemma {:induction false} Zeros(n: nat)
    ensures Sum(seq(n, _ => 0)) == 0
  {
    if n > 0 {
      assert seq(n, _ => 0)[..n - 1] == seq(n - 1, _ => 0);
      Zeros(n - 1);
    }
  }

  /* ---- Counting ---- */

  /** `bucket(c)` for the three categories topic, latency and tokens. */
  datatype Interaction = Interaction(week: string, topic: nat, latency: nat, tokens: nat)

  function Bucket(r: Interaction, c: nat): nat {
    if c == 0 then r.topic else if c == 1 then r.latency else r.tokens
  }

  predicate Known(r: Interaction) {
    r.topic < BUCKETS && r.latency < BUCKETS && r.tokens < BUCKETS
  }

  predicate AllKnown(rows: seq<Interaction>) {
    forall r | r in rows :: Known(r)
  }

  function OfWeek(rows: seq<Interaction>, week: string): seq<Interaction> {
    if rows == [] then []
    else OfWeek(rows[..|rows| - 1], week) + if rows[|rows| - 1].week == week then [rows[|rows| - 1]] else []
  }

  function Tally(rows: seq<Interaction>, c: nat, bucket: nat): nat {
    if rows == [] then 0
    else Tally(rows[..|rows| - 1], c, bucket) + if Bucket(rows[|rows| - 1], c) == bucket then 1 else 0
  }

  function Tallies(rows: seq<Interaction>, c: nat): (counts: seq<nat>)
    ensures |counts| == BUCKETS
  {
    seq(BUCKETS, i requires 0 <= i < BUCKETS => Tally(rows, c, i))
  }

  lemma NoRows()
    ensures forall c :: Tallies([], c) == [0, 0, 0, 0, 0, 0, 0, 0]
  {
  }

  function Raised(counts: seq<nat>, bucket: nat): seq<nat>
    requires bucket < |counts|
  {
    counts[bucket := counts[bucket] + 1]
  }

  lemma OneMoreRow(rows: seq<Interaction>, row: Interaction)
    requires Known(row)
    ensures forall c: nat :: Tallies(rows + [row], c) == Raised(Tallies(rows, c), Bucket(row, c))
  {
    assert (rows + [row])[..|rows|] == rows;
  }

  /** Every row is in one bucket of each category. */
  lemma {:induction false} TalliesCount(rows: seq<Interaction>, c: nat)
    requires AllKnown(rows)
    ensures Sum(Tallies(rows, c)) == |rows|
  {
    hide Tallies, Sum;
    if rows == [] {
      NoRows();
      Zeros(8);
      assert seq(8, _ => 0) == [0, 0, 0, 0, 0, 0, 0, 0];
    } else {
      var init, last := rows[..|rows| - 1], rows[|rows| - 1];
      assert rows == init + [last] && Known(last);
      TalliesCount(init, c);
      OneMoreRow(init, last);
      var b := Bucket(last, c);
      SumUpdate(Tallies(init, c), b, Tallies(init, c)[b] + 1);
    }
  }

  /** The three histograms of a week, in units. */
  function Histograms(rows: seq<Interaction>): (h: seq<seq<nat>>)
    requires AllKnown(rows)
    ensures |h| == 3
  {
    TalliesCount(rows, 0);
    TalliesCount(rows, 1);
    TalliesCount(rows, 2);
    [Exact(Tallies(rows, 0), |rows|), Exact(Tallies(rows, 1), |rows|), Exact(Tallies(rows, 2), |rows|)]
  }

  /** Two weeks of any two installations differ by at most two wholes in each histogram. */
  lemma HistogramsAreClose(a: seq<Interaction>, b: seq<Interaction>, c: nat)
    requires AllKnown(a) && AllKnown(b) && c < 3
    ensures Sum(Histograms(a)[c]) == LATTICE && |Histograms(a)[c]| == |Histograms(b)[c]|
    ensures Distance(Histograms(a)[c], Histograms(b)[c]) <= 2 * LATTICE
  {
    TalliesCount(a, c);
    TalliesCount(b, c);
    Sensitivity(Tallies(a, c), |a|, Tallies(b, c), |b|);
  }

  /** A row of the week in the bucket of its topic, its latency or its tokens. */
  predicate InBucket(r: Interaction, week: string, c: nat, bucket: nat) {
    r.week == week && (if c == 0 then r.topic else if c == 1 then r.latency else r.tokens) == bucket
  }

  function RowsIn(rows: seq<Interaction>, week: string, c: nat, bucket: nat): set<nat> {
    set i: nat | i < |rows| && InBucket(rows[i], week, c, bucket)
  }

  /** A bucket counts exactly the rows in it. */
  lemma {:induction false} TallyIsTheNumber(rows: seq<Interaction>, week: string, c: nat, bucket: nat)
    ensures Tally(OfWeek(rows, week), c, bucket) == |RowsIn(rows, week, c, bucket)|
  {
    hide InBucket, RowsIn, Tally, OfWeek;
    if rows == [] {
      NoneIn(week, c, bucket);
    } else {
      var init, last := rows[..|rows| - 1], rows[|rows| - 1];
      assert rows == init + [last];
      TallyIsTheNumber(init, week, c, bucket);
      OneMoreIn(init, last, week, c, bucket);
      OneMoreTallied(init, last, week, c, bucket);
    }
  }

  lemma NoneIn(week: string, c: nat, bucket: nat)
    ensures RowsIn([], week, c, bucket) == {} && Tally(OfWeek([], week), c, bucket) == 0
  {
  }

  lemma OneMoreIn(rows: seq<Interaction>, row: Interaction, week: string, c: nat, bucket: nat)
    ensures |RowsIn(rows + [row], week, c, bucket)|
      == |RowsIn(rows, week, c, bucket)| + if InBucket(row, week, c, bucket) then 1 else 0
  {
    hide InBucket;
    var before, after := RowsIn(rows, week, c, bucket), RowsIn(rows + [row], week, c, bucket);
    if InBucket(row, week, c, bucket) {
      assert after == before + {|rows|};
    } else {
      assert after == before;
    }
  }

  lemma OneMoreTallied(rows: seq<Interaction>, row: Interaction, week: string, c: nat, bucket: nat)
    ensures Tally(OfWeek(rows + [row], week), c, bucket)
      == Tally(OfWeek(rows, week), c, bucket) + if InBucket(row, week, c, bucket) then 1 else 0
  {
    assert (rows + [row])[..|rows|] == rows;
    var before := OfWeek(rows, week);
    if row.week == week {
      assert (before + [row])[..|before|] == before;
    } else {
      assert OfWeek(rows + [row], week) == before;
    }
  }

  /** Each histogram of a week counts its own category: in units of the lattice a bucket is within one of its share of
      the rows, the second at most seven above, and a week without rows is all in the first bucket. */
  lemma HistogramsCount(rows: seq<Interaction>, week: string, c: nat, bucket: nat)
    requires AllKnown(OfWeek(rows, week)) && c < 3 && bucket < BUCKETS
    ensures var n := |OfWeek(rows, week)|;
      var h := Histograms(OfWeek(rows, week))[c];
      var share := LATTICE * |RowsIn(rows, week, c, bucket)|;
      && |h| == 8
      && (n == 0 ==> h[bucket] == if bucket == 0 then 65_536 else 0)
      && (n > 0 ==> share < n * h[bucket] + n && n * h[bucket] <= share + if bucket == 1 then 7 * n else 0)
  {
    var ofWeek := OfWeek(rows, week);
    TalliesCount(ofWeek, 0);
    TalliesCount(ofWeek, 1);
    TalliesCount(ofWeek, 2);
    TallyIsTheNumber(rows, week, c, bucket);
    if |ofWeek| > 0 {
      UnitsAreShares(Tallies(ofWeek, c), |ofWeek|, bucket);
    }
    hide Units, Sum, Tally, RowsIn, OfWeek;
  }

  /** `OfWeek` holds the rows of the week, in order. */
  lemma {:induction false} OfWeekIs(rows: seq<Interaction>, week: string)
    ensures forall r | r in OfWeek(rows, week) :: r in rows && r.week == week
    ensures forall r | r in rows && r.week == week :: r in OfWeek(rows, week)
  {
    if rows != [] {
      OfWeekIs(rows[..|rows| - 1], week);
      assert rows == rows[..|rows| - 1] + [rows[|rows| - 1]];
    }
  }

  method Quantise(counts: array<nat>, n: nat) returns (units: array<nat>)
    requires n > 0 ==> Counted(counts[..], n)
    ensures fresh(units) && units[..] == Exact(counts[..], n)
  {
    units := new nat[BUCKETS](_ => 0);
    if n == 0 {
      units[0] := LATTICE;
      return;
    }
    hide Share, Sum;
    SumOfNone();
    Residue(counts[..], n);
    var total := 0;
    for i := 0 to BUCKETS
      invariant units[..i] == Floors(counts[..], n)[..i] && total == Sum(units[..i])
    {
      units[i] := Share(counts[i], n);
      total := total + units[i];
      SumSnoc(units[..i], units[i]);
      assert units[..i + 1] == units[..i] + [units[i]];
    }
    assert units[..] == units[..BUCKETS] == Floors(counts[..], n);
    units[1] := units[1] + (LATTICE - total);
  }

  /* ---- Reports ---- */

  datatype Report = Report(id: Id, week: string, epsilon: real, histograms: seq<seq<real>>)

  datatype Refusal = InvalidWeek | NoConsent | NotThisWeek | BudgetSpent | InvalidCategory | MechanismFailed

  /** What a vault keeps: released reports by week, the consent setting if one was made, and the local rows. */
  datatype State = State(reports: map<string, Report>, consent: Option<bool>, rows: seq<Interaction>)

  /** One request for a report; `release` is the noise, which may fail, and of which nothing else is assumed. */
  datatype Request = Request(
    week: string, validWeek: bool, consentDefault: bool, simulation: bool, currentWeek: string, id: Id,
    release: seq<seq<nat>> -> Option<seq<seq<real>>>)

  predicate Consents(s: State, q: Request) {
    if s.consent.Some? then s.consent.value else q.consentDefault
  }

  function Refused(s: State, q: Request): Option<Refusal> {
    if !q.validWeek then Some(InvalidWeek)
    else if !Consents(s, q) then Some(NoConsent)
    else if q.week in s.reports then None
    else if !q.simulation && q.week != q.currentWeek then Some(NotThisWeek)
    else if |s.reports| >= BUDGET then Some(BudgetSpent)
    else if !AllKnown(OfWeek(s.rows, q.week)) then Some(InvalidCategory)
    else if q.release(Histograms(OfWeek(s.rows, q.week))).None? then Some(MechanismFailed)
    else None
  }

  /** The report that a request returns when it is not refused. */
  function Released(s: State, q: Request): Report
    requires Refused(s, q).None?
  {
    if q.week in s.reports then s.reports[q.week]
    else Report(q.id, q.week, 1.0, q.release(Histograms(OfWeek(s.rows, q.week))).value)
  }

  function AfterPrepare(s: State, q: Request): State {
    if Refused(s, q).Some? then s else s.(reports := s.reports[q.week := Released(s, q)])
  }

  /** When a report is released, and why not, check by check. */
  lemma RefusedIff(s: State, q: Request)
    ensures Refused(s, q).None? <==>
      && q.validWeek && (s.consent == Some(true) || (s.consent == None && q.consentDefault))
      && (q.week in s.reports
          || (&& (q.simulation || q.week == q.currentWeek) && |s.reports| < 4
              && (forall r | r in OfWeek(s.rows, q.week) :: r.topic < 8 && r.latency < 8 && r.tokens < 8)
              && AllKnown(OfWeek(s.rows, q.week)) && q.release(Histograms(OfWeek(s.rows, q.week))).Some?))
    ensures Refused(s, q) == Some(InvalidWeek) <==> !q.validWeek
    ensures Refused(s, q) == Some(NoConsent) <==>
      q.validWeek && (s.consent == Some(false) || (s.consent == None && !q.consentDefault))
    ensures Refused(s, q).None? && q.week !in s.reports ==>
      var r := AfterPrepare(s, q).reports;
      && q.week in r && r.Keys == s.reports.Keys + {q.week} && r[q.week].week == q.week && r[q.week].epsilon == 1.0
      && AllKnown(OfWeek(s.rows, q.week))
      && Some(r[q.week].histograms) == q.release(Histograms(OfWeek(s.rows, q.week)))
  {
    hide Histograms, OfWeek;
  }

  class Vault {
    var reports: map<string, Report>
    var consent: Option<bool>
    var interactions: seq<Interaction>

    function Current(): State
      reads this
    {
      State(reports, consent, interactions)
    }

    constructor ()
      ensures Current() == State(map[], None, [])
    {
      reports, consent, interactions := map[], None, [];
    }

    /** Counts the rows of a week, quantises them, adds noise, and stores the report before it is returned. */
    method PrepareReport(q: Request) returns (r: Result<Report, Refusal>)
      modifies this`reports
      ensures Current() == AfterPrepare(old(Current()), q)
      ensures r == if Refused(old(Current()), q).Some? then Failure(Refused(old(Current()), q).value)
                   else Success(Released(old(Current()), q))
    {
      hide Histograms, OfWeek, AllKnown;
      if !q.validWeek { return Failure(InvalidWeek); }
      if !Consents(Current(), q) { return Failure(NoConsent); }
      if q.week in reports { return Success(reports[q.week]); }
      if !q.simulation && q.week != q.currentWeek { return Failure(NotThisWeek); }
      if |reports| >= BUDGET { return Failure(BudgetSpent); }
      var exact := Measure(OfWeek(interactions, q.week));
      if exact.None? { return Failure(InvalidCategory); }
      var noisy := q.release(exact.value);
      if noisy.None? { return Failure(MechanismFailed); }
      var report := Report(q.id, q.week, 1.0, noisy.value);
      reports := reports[q.week := report];
      r := Success(report);
    }
  }

  method Raise(counts: array<nat>, bucket: nat)
    requires bucket < counts.Length
    modifies counts
    ensures counts[..] == Raised(old(counts[..]), bucket)
  {
    counts[bucket] := counts[bucket] + 1;
  }

  /** The histograms of some rows; None if one of them is in no known category. */
  method Measure(rows: seq<Interaction>) returns (h: Option<seq<seq<nat>>>)
    ensures h == if AllKnown(rows) then Some(Histograms(rows)) else None
  {
    hide Tallies, Sum, Exact, Raised;
    var topics, latency, tokens := new nat[BUCKETS](_ => 0), new nat[BUCKETS](_ => 0), new nat[BUCKETS](_ => 0);
    NoRows();
    var n := 0;
    while n < |rows|
      invariant n <= |rows| && topics.Length == latency.Length == tokens.Length == BUCKETS
      invariant topics[..] == Tallies(rows[..n], 0) && latency[..] == Tallies(rows[..n], 1)
      invariant tokens[..] == Tallies(rows[..n], 2)
      invariant AllKnown(rows[..n])
    {
      var row := rows[n];
      assert row in rows && rows[..n + 1] == rows[..n] + [row];
      if row.topic >= BUCKETS || row.latency >= BUCKETS || row.tokens >= BUCKETS { return None; }
      OneMoreRow(rows[..n], row);
      Raise(topics, row.topic);
      Raise(latency, row.latency);
      Raise(tokens, row.tokens);
      n := n + 1;
    }
    assert rows[..n] == rows;
    TalliesCount(rows, 0);
    TalliesCount(rows, 1);
    TalliesCount(rows, 2);
    var a := Quantise(topics, n);
    var b := Quantise(latency, n);
    var c := Quantise(tokens, n);
    h := Some([a[..], b[..], c[..]]);
  }

  /* ---- Whole runs, of several installations that exchange archives ---- */

  datatype Sys = Sys(vaults: map<Id, State>, archives: seq<State>)

  datatype Op =
    | Install(vault: Id)
    | SetConsent(vault: Id, enabled: bool)
    | Record(vault: Id, row: Interaction)
    | Prepare(vault: Id, request: Request)
    | ClearHistory(vault: Id)
    | Archive(vault: Id)
    | Restore(vault: Id, archive: nat, otherwiseUnused: bool)

  /** A restore is for a vault without reports and rows, and without anything else. */
  predicate Restorable(v: State, otherwiseUnused: bool) {
    otherwiseUnused && v.reports == map[] && v.rows == []
  }

  /** What a step makes of the vault it names. */
  function Next(v: State, op: Op, archives: seq<State>): State {
    match op
    case SetConsent(_, enabled) => v.(consent := Some(enabled))
    case Record(_, row) => v.(rows := v.rows + [row])
    case Prepare(_, request) => AfterPrepare(v, request)
    case Restore(_, archive, otherwiseUnused) =>
      if archive < |archives| && Restorable(v, otherwiseUnused)
      then archives[archive].(consent := Some(false)) else v
    case _ => v
  }

  function Step(s: Sys, op: Op): Sys {
    if op.Install? then (if op.vault in s.vaults then s else s.(vaults := s.vaults[op.vault := State(map[], None, [])]))
    else if op.vault !in s.vaults then s
    else
      var v := s.vaults[op.vault];
      Sys(s.vaults[op.vault := Next(v, op, s.archives)], s.archives + if op.Archive? then [v] else [])
  }

  function Exec(s: Sys, ops: seq<Op>): Sys
    decreases |ops|
  {
    if ops == [] then s else Exec(Step(s, ops[0]), ops[1..])
  }

  predicate WithinBudget(v: State) {
    |v.reports| <= BUDGET && forall w | w in v.reports :: v.reports[w].week == w && v.reports[w].epsilon == 1.0
  }

  /** The privacy spent: the stored epsilons added up. */
  ghost function Spent(reports: map<string, Report>): real
    decreases |reports|
  {
    if reports == map[] then 0.0
    else
      var w :| w in reports;
      reports[w].epsilon + Spent(reports - {w})
  }

  lemma {:induction false} SpentIsTheCount(reports: map<string, Report>)
    requires forall w | w in reports :: reports[w].epsilon == 1.0
    ensures Spent(reports) == |reports| as real
    decreases |reports|
  {
    if reports != map[] {
      var w :| w in reports && Spent(reports) == reports[w].epsilon + Spent(reports - {w});
      assert (reports - {w}).Keys == reports.Keys - {w};
      SpentIsTheCount(reports - {w});
    }
  }

  lemma {:induction false} MoreReports(a: map<string, Report>, b: map<string, Report>)
    requires a.Keys <= b.Keys
    ensures |a| <= |b|
  {
    SubsetIsSmaller(a.Keys, b.Keys);
  }

  lemma {:induction false} SubsetIsSmaller(a: set<string>, b: set<string>)
    requires a <= b
    ensures |a| <= |b|
    decreases |a|
  {
    if a != {} {
      var w :| w in a;
      SubsetIsSmaller(a - {w}, b - {w});
    }
  }

  ghost predicate Inv(s: Sys) {
    (forall id | id in s.vaults :: WithinBudget(s.vaults[id])) && (forall a: State | a in s.archives :: WithinBudget(a))
  }

  /** Reports are only ever added. */
  predicate Extends(v: State, v': State) {
    forall w | w in v.reports :: w in v'.reports && v'.reports[w] == v.reports[w]
  }

  lemma PrepareKeeps(v: State, q: Request)
    requires WithinBudget(v)
    ensures WithinBudget(AfterPrepare(v, q)) && Extends(v, AfterPrepare(v, q))
  {
    hide Histograms, OfWeek, AllKnown;
    if Refused(v, q).None? && q.week !in v.reports {
      assert AfterPrepare(v, q).reports.Keys == v.reports.Keys + {q.week};
    }
  }

  lemma NextKeeps(v: State, op: Op, archives: seq<State>)
    requires WithinBudget(v) && forall a: State | a in archives :: WithinBudget(a)
    ensures WithinBudget(Next(v, op, archives)) && Extends(v, Next(v, op, archives))
  {
    hide AfterPrepare;
    if op.Prepare? {
      PrepareKeeps(v, op.request);
    } else if op.Restore? && op.archive < |archives| {
      assert archives[op.archive] in archives;
    }
  }

  lemma NothingReleased()
    ensures WithinBudget(State(map[], None, []))
  {
  }

  lemma Unextended(v: State)
    ensures Extends(v, v)
  {
  }

  lemma StepKeeps(s: Sys, op: Op)
    requires Inv(s)
    ensures Inv(Step(s, op))
    ensures forall id | id in s.vaults :: id in Step(s, op).vaults && Extends(s.vaults[id], Step(s, op).vaults[id])
  {
    hide Next, WithinBudget, Extends;
    NothingReleased();
    forall id | id in s.vaults ensures Extends(s.vaults[id], s.vaults[id]) {
      Unextended(s.vaults[id]);
    }
    if op.vault in s.vaults {
      NextKeeps(s.vaults[op.vault], op, s.archives);
    }
  }

  lemma {:induction false} RunKeeps(s: Sys, ops: seq<Op>)
    requires Inv(s)
    ensures Inv(Exec(s, ops))
    ensures forall id | id in s.vaults :: id in Exec(s, ops).vaults && Extends(s.vaults[id], Exec(s, ops).vaults[id])
    decreases |ops|
  {
    if ops != [] {
      StepKeeps(s, ops[0]);
      RunKeeps(Step(s, ops[0]), ops[1..]);
    }
  }

  const NOTHING := Sys(map[], [])

  /** What some run of installations and archives leads to. */
  ghost predicate Reachable(s: Sys) {
    exists ops :: Exec(NOTHING, ops) == s
  }

  lemma ReachableInv(s: Sys)
    requires Reachable(s)
    ensures Inv(s)
  {
    var ops :| Exec(NOTHING, ops) == s;
    RunKeeps(NOTHING, ops);
  }

  /** The lifetime budget: whatever happens to any number of installations and archives, each installation holds at
      most four reports, one to a week, has spent exactly their number, and never loses or changes a report or gets
      privacy back. */
  lemma LifetimeBudget(s: Sys, ops: seq<Op>, id: Id)
    requires Reachable(s) && id in s.vaults
    ensures var v, v' := s.vaults[id], Exec(s, ops).vaults;
      && id in v' && Extends(v, v'[id])
      && |v'[id].reports| <= BUDGET && (forall w | w in v'[id].reports :: v'[id].reports[w].week == w)
      && Spent(v'[id].reports) == |v'[id].reports| as real
      && Spent(v.reports) <= Spent(v'[id].reports)
  {
    ReachableInv(s);
    RunKeeps(s, ops);
    var now, later := s.vaults[id].reports, Exec(s, ops).vaults[id].reports;
    SpentIsTheCount(now);
    SpentIsTheCount(later);
    MoreReports(now, later);
  }

  /** A retry returns the very report released before, and spends nothing, however much later it comes. */
  lemma RetryReturnsTheSameReport(s: Sys, id: Id, first: Request, ops: seq<Op>, again: Request)
    requires Reachable(s) && id in s.vaults && Refused(s.vaults[id], first).None? && again.week == first.week
    ensures var later := Exec(Step(s, Prepare(id, first)), ops);
      && id in later.vaults
      && (Refused(later.vaults[id], again).None? ==> Released(later.vaults[id], again) == Released(s.vaults[id], first))
      && AfterPrepare(later.vaults[id], again) == later.vaults[id]
      && (Refused(later.vaults[id], again).Some? ==> !again.validWeek || !Consents(later.vaults[id], again))
  {
    hide Histograms, OfWeek, AllKnown, Exec, Inv, WithinBudget;
    var now := Step(s, Prepare(id, first));
    ReachableInv(s);
    StepKeeps(s, Prepare(id, first));
    RunKeeps(now, ops);
    var later := Exec(now, ops);
    assert now.vaults[id].reports[first.week] == Released(s.vaults[id], first);
    assert later.vaults[id].reports[first.week] == Released(s.vaults[id], first);
    if Refused(later.vaults[id], again).None? {
      assert AfterPrepare(later.vaults[id], again).reports == later.vaults[id].reports;
    }
  }
}
