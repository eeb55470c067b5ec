/** Usage statistics: the records of a period, totalled overall and by provider and model. */
module UsageStatistics {
  import opened Common
  import opened Journal

  /** What was reported of one token category, and by how many records. `sum` is None when nobody reported it. */
  datatype Observed = Observed(sum: Option<nat>, count: nat)

  datatype Totals = Totals(
    interactions: nat, succeeded: nat, failed: nat, aborted: nat, pending: nat, streaming: nat,
    requestBytes: nat, responseBytes: nat,
    input: Observed, output: Observed, cached: Observed, written: Observed, total: Observed,
    cost: Option<real>, priced: nat)

  datatype Overflow = Overflow

  type Key = (Id, string)

  const NOTHING := Observed(None, 0)
  const ZERO := Totals(0, 0, 0, 0, 0, 0, 0, 0, NOTHING, NOTHING, NOTHING, NOTHING, NOTHING, None, 0)

  function KeyOf(r: Record): Key {
    (r.provider, r.model)
  }

  /* ---- Totals as a sum ---- */

  function Plus(a: Observed, b: Observed): Observed {
    Observed(if a.sum.None? then b.sum else if b.sum.None? then a.sum else Some(a.sum.value + b.sum.value), a.count + b.count)
  }

  function PlusCost(a: Option<real>, b: Option<real>): Option<real> {
    if a.None? then b else if b.None? then a else Some(a.value + b.value)
  }

  function Combine(a: Totals, b: Totals): Totals {
    Totals(a.interactions + b.interactions, a.succeeded + b.succeeded, a.failed + b.failed, a.aborted + b.aborted,
           a.pending + b.pending, a.streaming + b.streaming, a.requestBytes + b.requestBytes, a.responseBytes + b.responseBytes,
           Plus(a.input, b.input), Plus(a.output, b.output), Plus(a.cached, b.cached), Plus(a.written, b.written),
           Plus(a.total, b.total), PlusCost(a.cost, b.cost), a.priced + b.priced)
  }

  function Seen(o: Option<nat>): Observed {
    Observed(o, if o.Some? then 1 else 0)
  }

  function Only(b: bool): nat {
    if b then 1 else 0
  }

  /** The totals of a single record. */
  function One(r: Record): Totals {
    Totals(1, Only(r.status.Succeeded?), Only(r.status.Failed?), Only(r.status.Aborted?), Only(r.status.Pending?),
           Only(r.status.Streaming?), r.requestBytes, r.responseBytes,
           Seen(r.tokens.input), Seen(r.tokens.output), Seen(r.tokens.cached), Seen(r.tokens.written), Seen(r.tokens.total),
           r.cost, Only(r.cost.Some?))
  }

  function Summed(rs: seq<Record>): Totals {
    if rs == [] then ZERO else Combine(Summed(rs[..|rs| - 1]), One(rs[|rs| - 1]))
  }

  predicate SmallObserved(o: Observed) {
    (o.sum.Some? ==> o.sum.value <= U64_MAX) && o.count <= U64_MAX
  }

  /** Every counter fits an unsigned 64-bit integer. */
  predicate Fits(t: Totals) {
    && t.interactions <= U64_MAX && t.succeeded <= U64_MAX && t.failed <= U64_MAX && t.aborted <= U64_MAX
    && t.pending <= U64_MAX && t.streaming <= U64_MAX && t.requestBytes <= U64_MAX && t.responseBytes <= U64_MAX
    && SmallObserved(t.input) && SmallObserved(t.output) && SmallObserved(t.cached) && SmallObserved(t.written)
    && SmallObserved(t.total) && t.priced <= U64_MAX
  }

  lemma CombineIsASum(a: Totals, b: Totals, c: Totals)
    ensures Combine(a, b) == Combine(b, a)
    ensures Combine(Combine(a, b), c) == Combine(a, Combine(b, c))
    ensures Combine(a, ZERO) == a
  {
  }

  lemma PartsFit(a: Totals, b: Totals)
    requires Fits(Combine(a, b))
    ensures Fits(a) && Fits(b)
  {
  }

  /* ---- What the totals mean ---- */

  function Known(rs: seq<Record>, pick: Record -> Option<nat>): seq<nat> {
    if rs == [] then []
    else
      var last := pick(rs[|rs| - 1]);
      Known(rs[..|rs| - 1], pick) + if last.Some? then [last.value] else []
  }

  function Sum(ns: seq<nat>): nat {
    if ns == [] then 0 else Sum(ns[..|ns| - 1]) + ns[|ns| - 1]
  }

  lemma {:induction false} SumSnoc(ns: seq<nat>, n: nat)
    ensures Sum(ns + [n]) == Sum(ns) + n
  {
    assert (ns + [n])[..|ns|] == ns;
  }

  /** An observation is the sum of the values that were known, and is None exactly when there were none. */
  ghost predicate Observes(o: Observed, rs: seq<Record>, pick: Record -> Option<nat>) {
    && o.count == |Known(rs, pick)|
    && o.sum == (if Known(rs, pick) == [] then None else Some(Sum(Known(rs, pick))))
  }

  lemma ObservesStep(o: Observed, rs: seq<Record>, pick: Record -> Option<nat>)
    requires rs != [] && Observes(o, rs[..|rs| - 1], pick)
    ensures Observes(Plus(o, Seen(pick(rs[|rs| - 1]))), rs, pick)
  {
    if pick(rs[|rs| - 1]).Some? {
      SumSnoc(Known(rs[..|rs| - 1], pick), pick(rs[|rs| - 1]).value);
    } else {
      assert Known(rs, pick) == Known(rs[..|rs| - 1], pick);
    }
  }

  function InputOf(r: Record): Option<nat> { r.tokens.input }
  function OutputOf(r: Record): Option<nat> { r.tokens.output }
  function CachedOf(r: Record): Option<nat> { r.tokens.cached }
  function WrittenOf(r: Record): Option<nat> { r.tokens.written }
  function TotalOf(r: Record): Option<nat> { r.tokens.total }

  function Number(rs: seq<Record>, status: Status): nat {
    if rs == [] then 0 else Number(rs[..|rs| - 1], status) + if rs[|rs| - 1].status == status then 1 else 0
  }

  function Bytes(rs: seq<Record>, pick: Record -> nat): nat {
    if rs == [] then 0 else Bytes(rs[..|rs| - 1], pick) + pick(rs[|rs| - 1])
  }

  function RequestOf(r: Record): nat { r.requestBytes }
  function ResponseOf(r: Record): nat { r.responseBytes }

  /** The records with a known cost. */
  function Priced(rs: seq<Record>): seq<Record> {
    if rs == [] then [] else Priced(rs[..|rs| - 1]) + if rs[|rs| - 1].cost.Some? then [rs[|rs| - 1]] else []
  }

  function Price(rs: seq<Record>): real {
    if rs == [] then 0.0
    else Price(rs[..|rs| - 1]) + if rs[|rs| - 1].cost.Some? then rs[|rs| - 1].cost.value else 0.0
  }

  /** Each counter by its own meaning. */
  ghost predicate Counts(t: Totals, rs: seq<Record>) {
    && t.interactions == |rs| == t.succeeded + t.failed + t.aborted + t.pending + t.streaming
    && t.succeeded == Number(rs, Succeeded) && t.failed == Number(rs, Failed) && t.aborted == Number(rs, Aborted)
    && t.pending == Number(rs, Pending) && t.streaming == Number(rs, Streaming)
    && t.requestBytes == Bytes(rs, RequestOf) && t.responseBytes == Bytes(rs, ResponseOf)
    && t.priced == |Priced(rs)| && t.cost == (if Priced(rs) == [] then None else Some(Price(rs)))
  }

  ghost predicate ObservesAll(t: Totals, rs: seq<Record>) {
    && Observes(t.input, rs, InputOf) && Observes(t.output, rs, OutputOf) && Observes(t.cached, rs, CachedOf)
    && Observes(t.written, rs, WrittenOf) && Observes(t.total, rs, TotalOf)
  }

  lemma {:induction false} Unpriced(rs: seq<Record>)
    ensures Priced(rs) == [] ==> Price(rs) == 0.0
  {
    if rs != [] {
      Unpriced(rs[..|rs| - 1]);
    }
  }

  lemma {:induction false} TotalsCount(rs: seq<Record>)
    ensures Counts(Summed(rs), rs)
  {
    if rs != [] {
      TotalsCount(rs[..|rs| - 1]);
      Unpriced(rs[..|rs| - 1]);
    }
  }

  lemma {:induction false} TotalsObserve(rs: seq<Record>)
    ensures ObservesAll(Summed(rs), rs)
  {
    if rs != [] {
      hide Observes, Plus, Seen;
      var init := rs[..|rs| - 1];
      TotalsObserve(init);
      ObservesStep(Summed(init).input, rs, InputOf);
      ObservesStep(Summed(init).output, rs, OutputOf);
      ObservesStep(Summed(init).cached, rs, CachedOf);
      ObservesStep(Summed(init).written, rs, WrittenOf);
      ObservesStep(Summed(init).total, rs, TotalOf);
    } else {
      assert Observes(NOTHING, rs, InputOf) && Observes(NOTHING, rs, OutputOf) && Observes(NOTHING, rs, CachedOf);
      assert Observes(NOTHING, rs, WrittenOf) && Observes(NOTHING, rs, TotalOf);
    }
  }

  /** A token category is unknown exactly when no record reported it. */
  lemma {:induction false} UnknownIffUnreported(rs: seq<Record>, pick: Record -> Option<nat>)
    ensures Known(rs, pick) == [] <==> forall r | r in rs :: pick(r).None?
  {
    if rs != [] {
      UnknownIffUnreported(rs[..|rs| - 1], pick);
      assert rs == rs[..|rs| - 1] + [rs[|rs| - 1]];
    }
  }

  /* ---- Groups ---- */

  function Group(rs: seq<Record>, k: Key): seq<Record> {
    Within(rs, {k})
  }

  function Within(rs: seq<Record>, keys: set<Key>): seq<Record> {
    if rs == [] then []
    else Within(rs[..|rs| - 1], keys) + if KeyOf(rs[|rs| - 1]) in keys then [rs[|rs| - 1]] else []
  }

  function Keys(rs: seq<Record>): set<Key> {
    set r | r in rs :: KeyOf(r)
  }

  /** A group holds the records of one provider and model, as often as they occur, and no others; and there is a key
      for exactly those that occur. */
  lemma {:induction false} GroupIs(rs: seq<Record>, provider: Id, model: string, r: Record)
    ensures multiset(Group(rs, (provider, model)))[r]
      == if r.provider == provider && r.model == model then multiset(rs)[r] else 0
    ensures (provider, model) in Keys(rs) <==> exists s | s in rs :: s.provider == provider && s.model == model
  {
    if rs != [] {
      var init, last := rs[..|rs| - 1], rs[|rs| - 1];
      assert rs == init + [last];
      GroupIs(init, provider, model, r);
    }
  }

  lemma WithinStep(rs: seq<Record>, keys: set<Key>)
    requires rs != []
    ensures Summed(Within(rs, keys))
      == if KeyOf(rs[|rs| - 1]) in keys then Combine(Summed(Within(rs[..|rs| - 1], keys)), One(rs[|rs| - 1]))
         else Summed(Within(rs[..|rs| - 1], keys))
  {
    var init := Within(rs[..|rs| - 1], keys);
    if KeyOf(rs[|rs| - 1]) in keys {
      assert (init + [rs[|rs| - 1]])[..|init|] == init;
    } else {
      assert Within(rs, keys) == init;
    }
  }

  lemma {:induction false} SplitKeys(rs: seq<Record>, a: set<Key>, b: set<Key>)
    requires a !! b
    ensures Summed(Within(rs, a + b)) == Combine(Summed(Within(rs, a)), Summed(Within(rs, b)))
  {
    if rs != [] {
      hide Combine, One;
      var init, last := rs[..|rs| - 1], One(rs[|rs| - 1]);
      SplitKeys(init, a, b);
      WithinStep(rs, a);
      WithinStep(rs, b);
      WithinStep(rs, a + b);
      var x, y := Summed(Within(init, a)), Summed(Within(init, b));
      CombineIsASum(x, y, last);
      CombineIsASum(y, last, x);
      CombineIsASum(x, last, y);
    } else {
      CombineIsASum(ZERO, ZERO, ZERO);
    }
  }

  lemma {:induction false} AllWithin(rs: seq<Record>, keys: set<Key>)
    requires Keys(rs) <= keys
    ensures Within(rs, keys) == rs
  {
    if rs != [] {
      var init, last := rs[..|rs| - 1], rs[|rs| - 1];
      assert rs == init + [last];
      assert forall r | r in init :: r in rs && KeyOf(r) in Keys(rs);
      assert last in rs && KeyOf(last) in Keys(rs);
      AllWithin(init, keys);
    }
  }

  function CombineAll(ts: map<Key, Totals>, order: seq<Key>): Totals
    requires forall k | k in order :: k in ts
  {
    if order == [] then ZERO else Combine(CombineAll(ts, order[..|order| - 1]), ts[order[|order| - 1]])
  }

  ghost predicate Distinct(order: seq<Key>) {
    forall i, j | 0 <= i < j < |order| :: order[i] != order[j]
  }

  ghost predicate GroupsOf(ts: map<Key, Totals>, rs: seq<Record>) {
    && ts.Keys == Keys(rs)
    && forall k | k in ts :: ts[k] == Summed(Group(rs, k))
  }

  /** Conservation: in whatever order the groups are listed, they add up to the overall totals, in every counter,
      every observation and the cost. */
  lemma GroupsAddUp(ts: map<Key, Totals>, rs: seq<Record>, order: seq<Key>)
    requires GroupsOf(ts, rs) && Distinct(order) && (set k | k in order) == Keys(rs)
    ensures CombineAll(ts, order) == Summed(rs)
  {
    SomeGroups(ts, rs, order);
    AllWithin(rs, set k | k in order);
  }

  lemma {:induction false} SomeGroups(ts: map<Key, Totals>, rs: seq<Record>, order: seq<Key>)
    requires GroupsOf(ts, rs) && Distinct(order) && forall k | k in order :: k in ts
    ensures CombineAll(ts, order) == Summed(Within(rs, set k | k in order))
  {
    hide Combine, One, Summed, Within;
    if order == [] {
      WithinNothing(rs);
      NoRows();
      assert (set k | k in order) == {};
    } else {
      var init, last := order[..|order| - 1], order[|order| - 1];
      SomeGroups(ts, rs, init);
      OneMoreKey(init, last, order);
      SplitKeys(rs, set k | k in init, {last});
      assert ts[last] == Summed(Group(rs, last));
    }
  }

  lemma OneMoreKey(init: seq<Key>, last: Key, order: seq<Key>)
    requires Distinct(order) && order == init + [last]
    ensures (set k | k in order) == (set k | k in init) + {last} && (set k | k in init) !! {last}
  {
    assert last !in init by {
      assert forall i | 0 <= i < |init| :: order[i] == init[i] && order[i] != order[|init|];
    }
  }

  lemma {:induction false} WithinNothing(rs: seq<Record>)
    ensures Within(rs, {}) == []
  {
    if rs != [] {
      WithinNothing(rs[..|rs| - 1]);
    }
  }

  /* ---- Checked addition, one record at a time ---- */

  method Add(total: nat, value: nat) returns (r: Result<nat, Overflow>)
    ensures r == if total + value <= U64_MAX then Success(total + value) else Failure(Overflow)
  {
    if total + value > U64_MAX { return Failure(Overflow); }
    r := Success(total + value);
  }

  method AddObservation(o: Observed, value: Option<nat>) returns (r: Result<Observed, Overflow>)
    requires SmallObserved(o)
    ensures r == if SmallObserved(Plus(o, Seen(value))) then Success(Plus(o, Seen(value))) else Failure(Overflow)
  {
    if value.None? { return Success(o); }
    var sum := Add(if o.sum.Some? then o.sum.value else 0, value.value);
    if sum.Failure? { return Failure(Overflow); }
    var count := Add(o.count, 1);
    if count.Failure? { return Failure(Overflow); }
    r := Success(Observed(Some(sum.value), count.value));
  }

  /* ---- Prefixes and groups of the rows read so far ---- */

  lemma ZeroFits()
    ensures Fits(ZERO)
  {
  }

  lemma NoRows()
    ensures Summed([]) == ZERO && Keys([]) == {}
  {
  }

  /** One more row changes the overall sum and the sum of its own group, and no other. */
  lemma NextRow(rows: seq<Record>, i: nat)
    requires i < |rows|
    ensures Summed(rows[..i + 1]) == Combine(Summed(rows[..i]), One(rows[i]))
    ensures Keys(rows[..i + 1]) == Keys(rows[..i]) + {KeyOf(rows[i])}
    ensures forall k: Key :: Summed(Group(rows[..i + 1], k)) == GroupAfter(rows, i, k)
  {
    hide Combine, One, Summed, Within;
    var next := rows[..i + 1];
    assert next[..|next| - 1] == rows[..i] && next == rows[..i] + [rows[i]];
    forall k: Key ensures Summed(Group(next, k)) == GroupAfter(rows, i, k) {
      WithinStep(next, {k});
    }
    SummedStep(next);
  }

  function GroupAfter(rows: seq<Record>, i: nat, k: Key): Totals
    requires i < |rows|
  {
    var before := Summed(Group(rows[..i], k));
    if k == KeyOf(rows[i]) then Combine(before, One(rows[i])) else before
  }

  lemma SummedStep(rs: seq<Record>)
    requires rs != []
    ensures Summed(rs) == Combine(Summed(rs[..|rs| - 1]), One(rs[|rs| - 1]))
  {
  }

  lemma {:induction false} PrefixFits(rows: seq<Record>, i: nat)
    requires i <= |rows|
    ensures Fits(Summed(rows)) ==> Fits(Summed(rows[..i]))
    decreases |rows|
  {
    hide Fits, Combine, One;
    if i < |rows| && Fits(Summed(rows)) {
      var init := rows[..|rows| - 1];
      PartsFit(Summed(init), One(rows[|rows| - 1]));
      assert init[..i] == rows[..i];
      PrefixFits(init, i);
    } else if i == |rows| {
      assert rows[..i] == rows;
    }
  }

  /** A group fits wherever the whole does. */
  lemma GroupFits(rs: seq<Record>, k: Key)
    requires Fits(Summed(rs))
    ensures Fits(Summed(Group(rs, k)))
  {
    var others := Keys(rs) - {k};
    SplitKeys(rs, {k}, others);
    AllWithin(rs, {k} + others);
    PartsFit(Summed(Group(rs, k)), Summed(Within(rs, others)));
  }

  lemma {:induction false} AbsentGroup(rs: seq<Record>, k: Key)
    requires k !in Keys(rs)
    ensures Summed(Group(rs, k)) == ZERO
  {
    if rs != [] {
      var init, last := rs[..|rs| - 1], rs[|rs| - 1];
      assert rs == init + [last];
      assert last in rs && forall r | r in init :: r in rs;
      assert KeyOf(last) in Keys(rs) && Keys(init) <= Keys(rs);
      AbsentGroup(init, k);
      WithinStep(rs, {k});
    }
  }

  /* ---- Counting ---- */

  function AfterStatus(t: Totals, s: Status): Totals {
    t.(interactions := t.interactions + 1, succeeded := t.succeeded + Only(s.Succeeded?), failed := t.failed + Only(s.Failed?),
       aborted := t.aborted + Only(s.Aborted?), pending := t.pending + Only(s.Pending?),
       streaming := t.streaming + Only(s.Streaming?))
  }

  function AfterTokens(t: Totals, u: Tokens): Totals {
    t.(input := Plus(t.input, Seen(u.input)), output := Plus(t.output, Seen(u.output)),
       cached := Plus(t.cached, Seen(u.cached)), written := Plus(t.written, Seen(u.written)),
       total := Plus(t.total, Seen(u.total)))
  }

  /** The totals of a period or of one of its groups; the counters go up one at a time. */
  class Counter {
    var t: Totals

    constructor ()
      ensures t == ZERO
    {
      t := ZERO;
    }

    /** Counts one more record; on overflow the counters are left half way. */
    method Count(r: Record) returns (ok: bool)
      requires Fits(t)
      modifies this
      ensures ok <==> Fits(Combine(old(t), One(r)))
      ensures ok ==> t == Combine(old(t), One(r))
    {
      hide Plus, Seen, SmallObserved;
      ghost var counted := AfterTokens(AfterStatus(t, r.status), r.tokens);
      assert Combine(t, One(r)).(requestBytes := 0, responseBytes := 0, cost := None, priced := 0)
             == counted.(requestBytes := 0, responseBytes := 0, cost := None, priced := 0);
      ok := CountStatus(r.status);
      if !ok { return; }
      var request := Add(t.requestBytes, r.requestBytes);
      if request.Failure? { return false; }
      var response := Add(t.responseBytes, r.responseBytes);
      if response.Failure? { return false; }
      t := t.(requestBytes := request.value, responseBytes := response.value);
      ok := CountTokens(r.tokens);
      if !ok { return; }
      if r.cost.Some? {
        var priced := Add(t.priced, 1);
        if priced.Failure? { return false; }
        t := t.(cost := PlusCost(t.cost, r.cost), priced := priced.value);
      }
    }

    method CountStatus(s: Status) returns (ok: bool)
      requires Fits(t)
      modifies this
      ensures ok <==> Fits(AfterStatus(old(t), s))
      ensures ok ==> t == AfterStatus(old(t), s)
    {
      hide SmallObserved;
      var n := Add(t.interactions, 1);
      if n.Failure? { return false; }
      var here := match s
        case Succeeded => t.succeeded
        case Failed => t.failed
        case Aborted => t.aborted
        case Pending => t.pending
        case Streaming => t.streaming;
      var m := Add(here, 1);
      if m.Failure? { return false; }
      t := t.(interactions := n.value);
      match s {
        case Succeeded => t := t.(succeeded := m.value);
        case Failed => t := t.(failed := m.value);
        case Aborted => t := t.(aborted := m.value);
        case Pending => t := t.(pending := m.value);
        case Streaming => t := t.(streaming := m.value);
      }
      ok := true;
    }

    method CountTokens(u: Tokens) returns (ok: bool)
      requires Fits(t)
      modifies this
      ensures ok <==> Fits(AfterTokens(old(t), u))
      ensures ok ==> t == AfterTokens(old(t), u)
    {
      hide Plus, Seen, SmallObserved;
      var input := AddObservation(t.input, u.input);
      if input.Failure? { return false; }
      var output := AddObservation(t.output, u.output);
      if output.Failure? { return false; }
      var cached := AddObservation(t.cached, u.cached);
      if cached.Failure? { return false; }
      var written := AddObservation(t.written, u.written);
      if written.Failure? { return false; }
      var total := AddObservation(t.total, u.total);
      if total.Failure? { return false; }
      t := t.(input := input.value, output := output.value, cached := cached.value, written := written.value,
              total := total.value);
      ok := true;
    }
  }

  ghost predicate Separate(models: map<Key, Counter>) {
    forall k, k' | k in models && k' in models && k != k' :: models[k] != models[k']
  }

  /** The counters hold the totals of the groups of `rs`. */
  ghost predicate Tally(models: map<Key, Counter>, rs: seq<Record>)
    reads models.Values
  {
    && models.Keys == Keys(rs)
    && forall k | k in models :: models[k].t == Summed(Group(rs, k))
  }

  /** Counts one more row in its group, with a new counter for a new group. It cannot overflow where the whole does
      not. */
  method CountInGroup(models: map<Key, Counter>, rows: seq<Record>, i: nat) returns (grown: map<Key, Counter>)
    requires i < |rows| && Separate(models) && Tally(models, rows[..i]) && Fits(Summed(rows[..i + 1]))
    modifies models.Values
    ensures Separate(grown) && Tally(grown, rows[..i + 1])
    ensures forall k | k in grown :: k !in models ==> fresh(grown[k])
    ensures forall k | k in grown :: k in models ==> grown[k] == models[k]
  {
    hide Combine, One, Fits, Within, Summed, Group, Keys;
    var k := KeyOf(rows[i]);
    NextRow(rows, i);
    GroupFits(rows[..i + 1], k);
    grown := models;
    if k !in models {
      AbsentGroup(rows[..i], k);
      var model := new Counter();
      grown := models[k := model];
    }
    assert Summed(Group(rows[..i + 1], k)) == GroupAfter(rows, i, k) == Combine(grown[k].t, One(rows[i]));
    PartsFit(grown[k].t, One(rows[i]));
    var counted := grown[k].Count(rows[i]);
    assert counted;
    forall k' | k' in grown ensures grown[k'].t == Summed(Group(rows[..i + 1], k')) {
      assert k' != k ==> models[k'] != grown[k] && models[k'].t == Summed(Group(rows[..i], k'));
      assert Summed(Group(rows[..i + 1], k')) == GroupAfter(rows, i, k');
    }
  }

  /** The statistics of the records in a period, overall and by provider and model. They fail only when a counter of the
      overall totals does not fit. */
  method JournalUsage(rows: seq<Record>) returns (r: Result<(Totals, map<Key, Totals>), Overflow>)
    ensures r.Success? <==> Fits(Summed(rows))
    ensures r.Success? ==> r.value.0 == Summed(rows) && GroupsOf(r.value.1, rows)
  {
    hide Combine, One, Fits, Within, Summed, Group;
    var totals := new Counter();
    var models: map<Key, Counter> := map[];
    ZeroFits();
    NoRows();
    var i := 0;
    while i < |rows|
      invariant i <= |rows| && fresh(totals) && (forall k | k in models :: fresh(models[k]) && models[k] != totals)
      invariant totals.t == Summed(rows[..i]) && Fits(totals.t)
      invariant Separate(models) && Tally(models, rows[..i])
    {
      NextRow(rows, i);
      var ok := totals.Count(rows[i]);
      if !ok {
        PrefixFits(rows, i + 1);
        return Failure(Overflow);
      }
      models := CountInGroup(models, rows, i);
      i := i + 1;
    }
    assert rows[..i] == rows;
    r := Success((totals.t, map k | k in models :: models[k].t));
  }
}
