/** The encrypted interaction ledger: one record per exchange, completed once, recovered after a crash. */
module Journal {
  import opened Common
  import opened Metering

  datatype Status = Pending | Streaming | Succeeded | Failed | Aborted

  datatype Tokens = Tokens(
    input: Option<nat>, output: Option<nat>, cached: Option<nat>, written: Option<nat>, total: Option<nat>)

  datatype Rates = Rates(input: real, output: real, cached: Option<real>, write: Option<real>)

  datatype Record = Record(
    provider: Id, model: string, streaming: bool, started: Time, finished: Option<Time>, status: Status,
    http: Option<nat>, header: Option<nat>, latency: Option<nat>,
    requestBytes: nat, responseBytes: nat, tokens: Tokens, error: Option<string>, rates: Option<Rates>, cost: Option<real>)

  datatype Finish = Finish(
    status: Status, http: Option<nat>, header: Option<nat>, latency: Option<nat>, tokens: Tokens, responseBytes: nat,
    error: Option<string>, finishedAt: Option<Time>)

  datatype Error = BadStatus | BadHttp | BadMetric | Shrinking | NotStreaming | LatencyOrder | Duplicate | BadEntry

  const NO_TOKENS := Tokens(None, None, None, None, None)

  predicate Terminal(s: Status) {
    s.Succeeded? || s.Failed? || s.Aborted?
  }

  const KNOWN_ERRORS: set<string> := {
    "provider_timeout", "provider_unavailable", "provider_http_error", "invalid_response", "response_too_large",
    "stream_interrupted", "stream_timeout", "upstream_stream_error", "upstream_stream_incomplete",
    "client_disconnected", "process_restarted", "permission_denied", "no_text_content", "invalid_request",
    "extractor_unavailable", "extractor_invalid_output", "storage_failure", "unknown_error" }

  function Sanitized(code: string): string {
    if code in KNOWN_ERRORS then code else "unknown_error"
  }

  function Or<T>(a: Option<T>, b: Option<T>): Option<T> {
    if a.Some? then a else b
  }

  predicate Metric(n: Option<nat>) {
    Bounded(n)
  }

  /** The ranges a completion must respect, whatever it completes. */
  function Refused(f: Finish): Option<Error> {
    if f.status.Pending? then Some(BadStatus)
    else if f.http.Some? && !(100 <= f.http.value <= 599) then Some(BadHttp)
    else if !(Metric(f.header) && Metric(f.latency) && Metric(f.tokens.input) && Metric(f.tokens.output)
              && Metric(f.tokens.cached) && Metric(f.tokens.written) && Metric(f.tokens.total)
              && f.responseBytes <= I64_MAX) then Some(BadMetric)
    else None
  }

  /** What an open record demands of its next completion. */
  function Conflict(r: Record, f: Finish): Option<Error> {
    if f.responseBytes < r.responseBytes then Some(Shrinking)
    else if f.status.Streaming? && !r.streaming then Some(NotStreaming)
    else
      var header, latency := Or(f.header, r.header), Or(f.latency, r.latency);
      if header.Some? && latency.Some? && latency.value < header.value then Some(LatencyOrder) else None
  }

  function MergedTokens(a: Tokens, b: Tokens): Tokens {
    Tokens(Or(a.input, b.input), Or(a.output, b.output), Or(a.cached, b.cached), Or(a.written, b.written), Or(a.total, b.total))
  }

  function Merged(r: Record, f: Finish, now: Time): Record {
    var tokens := MergedTokens(f.tokens, r.tokens);
    r.(status := f.status, http := Or(f.http, r.http), header := Or(f.header, r.header), latency := Or(f.latency, r.latency),
       tokens := tokens, responseBytes := f.responseBytes,
       error := Or(if f.error.Some? then Some(Sanitized(f.error.value)) else None, r.error),
       finished := if Terminal(f.status) then Some(if f.finishedAt.Some? then f.finishedAt.value else now) else r.finished,
       cost := EstimatedCost(r.rates, tokens))
  }

  /* ---- Cost ---- */

  /** Cost in real numbers; a rate is needed only for a category that was used. */
  function EstimatedCost(rates: Option<Rates>, t: Tokens): Option<real> {
    if rates.None? || t.input.None? || t.output.None? || t.cached.None? || t.written.None? then None
    else if t.cached.value + t.written.value > U64_MAX || t.input.value < t.cached.value + t.written.value then None
    else if (t.cached.value > 0 && rates.value.cached.None?) || (t.written.value > 0 && rates.value.write.None?) then None
    else
      Some(Charge(rates.value, t) / 1_000_000.0)
  }

  /** The charge in millionths, category by category. */
  function Charge(rates: Rates, t: Tokens): real
    requires AllKnown(t) && CoversCache(rates, t) && t.cached.value + t.written.value <= t.input.value
  {
    var uncached := t.input.value - (t.cached.value + t.written.value);
    uncached as real * rates.input + t.output.value as real * rates.output
    + CacheCost(t.cached.value, rates.cached) + CacheCost(t.written.value, rates.write)
  }

  function CacheCost(count: nat, rate: Option<real>): real
    requires count > 0 ==> rate.Some?
  {
    if count == 0 then 0.0 else count as real * rate.value
  }

  function TokensOf(c: Counts): Tokens {
    Tokens(c.input, c.output, c.cached, c.written, c.total)
  }

  predicate AllKnown(t: Tokens) {
    t.input.Some? && t.output.Some? && t.cached.Some? && t.written.Some?
  }

  predicate CoversCache(rates: Rates, t: Tokens)
    requires AllKnown(t)
  {
    (t.cached.value > 0 ==> rates.cached.Some?) && (t.written.value > 0 ==> rates.write.Some?)
  }

  /** The charge in millionths when every input category is priced alike. */
  function FlatCharge(rates: Rates, t: Tokens): real
    requires AllKnown(t)
  {
    t.input.value as real * rates.input + t.output.value as real * rates.output
  }

  /** For anything one trace meters, the subtraction never underflows: with all four counts known, only a missing rate
      leaves the cost unknown, and the charged categories partition the input. */
  lemma CostPartitionsInput(noCacheWrite: bool, us: seq<Usage>, rates: Rates)
    ensures var t := TokensOf(Metered(Unmetered(noCacheWrite), us));
      AllKnown(t) ==>
        && t.input.value >= t.cached.value + t.written.value
        && (EstimatedCost(Some(rates), t).Some? <==> CoversCache(rates, t))
        && (rates.cached == rates.write == Some(rates.input) ==>
              EstimatedCost(Some(rates), t) == Some(FlatCharge(rates, t) / 1_000_000.0))
  {
    hide EstimatedCost, Charge, FlatCharge;
    TokensAddUp(Unmetered(noCacheWrite), us);
    var t := TokensOf(Metered(Unmetered(noCacheWrite), us));
    if AllKnown(t) {
      PricedIffCovered(t, rates);
      if rates.cached == rates.write == Some(rates.input) {
        FlatRate(t, rates);
      }
    }
  }

  lemma PricedIffCovered(t: Tokens, rates: Rates)
    requires AllKnown(t) && t.input.value <= U64_MAX && t.cached.value + t.written.value <= t.input.value
    ensures EstimatedCost(Some(rates), t)
      == if CoversCache(rates, t) then Some(Charge(rates, t) / 1_000_000.0) else None
  {
    hide Charge;
  }

  /** At one rate for all three input categories, the split of the input does not matter. */
  lemma FlatRate(t: Tokens, rates: Rates)
    requires AllKnown(t) && t.cached.value + t.written.value <= t.input.value
    requires rates.cached == rates.write == Some(rates.input)
    ensures Charge(rates, t) == FlatCharge(rates, t)
  {
    var cached, written := t.cached.value, t.written.value;
    var uncached: int := t.input.value - (cached + written);
    CacheAtRate(cached, rates.input);
    CacheAtRate(written, rates.input);
    ThreeParts(uncached as real, cached as real, written as real, rates.input);
    assert uncached as real + cached as real + written as real == t.input.value as real;
  }

  /** Each category has its own rate: one more token of it changes the charge by that rate, and a token that moves
      from the uncached input to a cache category changes it by the difference. */
  lemma MarginalCharge(t: Tokens, rates: Rates)
    requires AllKnown(t) && t.cached.value + t.written.value < t.input.value && rates.cached.Some? && rates.write.Some?
    ensures Charge(rates, t.(input := Some(t.input.value + 1))) == Charge(rates, t) + rates.input
    ensures Charge(rates, t.(output := Some(t.output.value + 1))) == Charge(rates, t) + rates.output
    ensures Charge(rates, t.(cached := Some(t.cached.value + 1))) == Charge(rates, t) + rates.cached.value - rates.input
    ensures Charge(rates, t.(written := Some(t.written.value + 1))) == Charge(rates, t) + rates.write.value - rates.input
  {
    var uncached := t.input.value - (t.cached.value + t.written.value);
    OneMore(uncached, rates.input);
    OneMore(uncached - 1, rates.input);
    OneMore(t.output.value, rates.output);
    OneMore(t.cached.value, rates.cached.value);
    OneMore(t.written.value, rates.write.value);
  }

  lemma OneMore(n: nat, rate: real)
    ensures (n + 1) as real * rate == n as real * rate + rate
    ensures CacheCost(n, Some(rate)) == n as real * rate && CacheCost(n + 1, Some(rate)) == n as real * rate + rate
  {
    assert (n + 1) as real == n as real + 1.0;
  }

  lemma CacheAtRate(count: nat, rate: real)
    ensures CacheCost(count, Some(rate)) == count as real * rate
  {
  }

  lemma ThreeParts(a: real, b: real, c: real, rate: real)
    ensures a * rate + b * rate + c * rate == (a + b + c) * rate
  {
  }

  /** Without cache tokens no cache rate is needed. */
  lemma UncachedCost(t: Tokens, rates: Rates)
    requires AllKnown(t) && t.cached == t.written == Some(0) && t.input.value <= U64_MAX
    ensures EstimatedCost(Some(rates), t) == Some(FlatCharge(rates, t) / 1_000_000.0)
  {
    PricedIffCovered(t, rates);
    assert Charge(rates, t) == FlatCharge(rates, t);
    hide Charge, FlatCharge, EstimatedCost;
  }

  /** Without rates, or with a count unknown, there is no cost. */
  lemma NoCost(t: Tokens, rates: Option<Rates>)
    requires rates.None? || t.input.None? || t.output.None? || t.cached.None? || t.written.None?
    ensures EstimatedCost(rates, t).None?
  {
  }

  /* ---- What holds of every record ---- */

  predicate GoodRecord(r: Record) {
    && (r.finished.Some? <==> Terminal(r.status))
    && (r.header.Some? && r.latency.Some? ==> r.header.value <= r.latency.value)
    && (r.status.Streaming? ==> r.streaming)
    && (r.http.Some? ==> 100 <= r.http.value <= 599)
    && r.responseBytes <= I64_MAX
  }

  function Rank(s: Status): nat {
    if s.Pending? then 0 else if s.Streaming? then 1 else 2
  }

  /** `r` may become `r'`: never once complete, and never with fewer bytes or an earlier stage. */
  predicate Evolves(r: Record, r': Record) {
    && (Terminal(r.status) ==> r' == r)
    && r.responseBytes <= r'.responseBytes
    && Rank(r.status) <= Rank(r'.status)
    && r'.started == r.started && r'.provider == r.provider && r'.model == r.model && r'.streaming == r.streaming
    && (r.http.Some? ==> r'.http.Some?) && (r.tokens.total.Some? ==> r'.tokens.total.Some?)
  }

  lemma MergeEvolves(r: Record, f: Finish, now: Time)
    requires GoodRecord(r) && !Terminal(r.status) && Refused(f).None? && Conflict(r, f).None?
    ensures GoodRecord(Merged(r, f, now)) && Evolves(r, Merged(r, f, now))
  {
  }

  /** The ranges and the order that a completion of `r` must respect. */
  predicate Acceptable(f: Finish, r: Record) {
    && f.status != Pending && (f.http.Some? ==> 100 <= f.http.value <= 599)
    && r.status in {Pending, Streaming} && r.responseBytes <= f.responseBytes <= I64_MAX
    && (f.status == Streaming ==> r.streaming)
    && var header, latency := if f.header.Some? then f.header else r.header, if f.latency.Some? then f.latency else r.latency;
    && (header.Some? && latency.Some? ==> header.value <= latency.value)
    && (f.header.Some? ==> f.header.value <= I64_MAX) && (f.latency.Some? ==> f.latency.value <= I64_MAX)
    && (f.tokens.input.Some? ==> f.tokens.input.value <= I64_MAX)
    && (f.tokens.output.Some? ==> f.tokens.output.value <= I64_MAX)
    && (f.tokens.cached.Some? ==> f.tokens.cached.value <= I64_MAX)
    && (f.tokens.written.Some? ==> f.tokens.written.value <= I64_MAX)
    && (f.tokens.total.Some? ==> f.tokens.total.value <= I64_MAX)
  }

  /** A completion is accepted exactly in those ranges and that order. */
  lemma AcceptedIff(f: Finish, r: Record)
    ensures Acceptable(f, r) <==> Refused(f).None? && !Terminal(r.status) && Conflict(r, f).None?
  {
  }

  /** Field by field: what is reported replaces what was, and what is not reported stays; a finished record knows when. */
  predicate Reports(f: Finish, was: Record, after: Record, now: Time) {
    && after.status == f.status && after.responseBytes == f.responseBytes
    && after.http == (if f.http.Some? then f.http else was.http)
    && after.header == (if f.header.Some? then f.header else was.header)
    && after.latency == (if f.latency.Some? then f.latency else was.latency)
    && after.tokens.input == (if f.tokens.input.Some? then f.tokens.input else was.tokens.input)
    && after.tokens.output == (if f.tokens.output.Some? then f.tokens.output else was.tokens.output)
    && after.tokens.cached == (if f.tokens.cached.Some? then f.tokens.cached else was.tokens.cached)
    && after.tokens.written == (if f.tokens.written.Some? then f.tokens.written else was.tokens.written)
    && after.tokens.total == (if f.tokens.total.Some? then f.tokens.total else was.tokens.total)
    && (f.error.None? ==> after.error == was.error)
    && (f.error.Some? ==> after.error == Some(if f.error.value in KNOWN_ERRORS then f.error.value else "unknown_error"))
    && after.cost == EstimatedCost(was.rates, after.tokens) && after.rates == was.rates
    && after.started == was.started && after.requestBytes == was.requestBytes && after.streaming == was.streaming
    && after.provider == was.provider && after.model == was.model
    && (f.status == Streaming ==> after.finished == was.finished)
    && (f.status in {Succeeded, Failed, Aborted} ==>
          after.finished == Some(if f.finishedAt.Some? then f.finishedAt.value else now))
  }

  lemma MergeReports(r: Record, f: Finish, now: Time)
    requires !Terminal(r.status) && Refused(f).None? && Conflict(r, f).None?
    ensures Reports(f, r, Merged(r, f, now), now) && Acceptable(f, r)
  {
    AcceptedIff(f, r);
    hide EstimatedCost, KNOWN_ERRORS;
  }

  /** What a restart makes of a record left open: aborted now, for that reason, and otherwise as it was. */
  predicate AbortedFrom(was: Record, after: Record, now: Time) {
    && after.status == Aborted && after.error == Some("process_restarted") && after.finished == Some(now)
    && after.http == was.http && after.header == was.header && after.latency == was.latency
    && after.tokens == was.tokens && after.requestBytes == was.requestBytes && after.responseBytes == was.responseBytes
    && after.started == was.started && after.provider == was.provider && after.model == was.model
    && after.streaming == was.streaming && after.rates == was.rates
  }

  lemma ClosedIs(r: Record, now: Time)
    ensures if Terminal(r.status) then Closed(r, now) == r else AbortedFrom(r, Closed(r, now), now)
  {
    hide EstimatedCost;
  }

  type Records = map<Id, Record>

  ghost predicate Inv(s: Records) {
    forall id | id in s :: GoodRecord(s[id])
  }

  function AfterFinish(s: Records, now: Time, id: Id, f: Finish): Records {
    if Refused(f).Some? || id !in s || Terminal(s[id].status) || Conflict(s[id], f).Some? then s
    else s[id := Merged(s[id], f, now)]
  }

  function AfterPrune(s: Records, cutoff: Time): Records {
    map id | id in s && s[id].started >= cutoff :: s[id]
  }

  /** The completion that recovery writes over an interrupted exchange. */
  function Interrupted(r: Record): Finish {
    Finish(Aborted, None, None, None, NO_TOKENS, r.responseBytes, Some("process_restarted"), None)
  }

  /** After a restart: pruned, and every record that was left open is aborted. */
  function AfterRecovery(s: Records, cutoff: Time, now: Time): Records {
    var kept := AfterPrune(s, cutoff);
    map id | id in kept :: Closed(kept[id], now)
  }

  function Closed(r: Record, now: Time): Record {
    if Terminal(r.status) then r else Merged(r, Interrupted(r), now)
  }

  function Open(s: Records): set<Id> {
    set id | id in s && !Terminal(s[id].status)
  }

  /** Recovery is never refused, leaves nothing open, and a second one finds nothing to do. */
  lemma RecoveryCloses(s: Records, cutoff: Time, now: Time, later: Time)
    requires Inv(s)
    ensures forall id | id in s && !Terminal(s[id].status) ::
      Refused(Interrupted(s[id])).None? && Conflict(s[id], Interrupted(s[id])).None?
    ensures var r := AfterRecovery(s, cutoff, now);
      Inv(r) && Open(r) == {} && AfterRecovery(r, cutoff, later) == r
  {
    var kept := AfterPrune(s, cutoff);
    forall id | id in kept && !Terminal(kept[id].status) ensures GoodRecord(Merged(kept[id], Interrupted(kept[id]), now)) {
      MergeEvolves(kept[id], Interrupted(kept[id]), now);
    }
    var r := AfterRecovery(s, cutoff, now);
    assert AfterPrune(r, cutoff) == r;
  }

  /** Record by record, what a restart leaves: the records within retention, finished ones as they were, open ones
      aborted. */
  ghost predicate RecoveredFrom(s: Records, after: Records, cutoff: Time, now: Time) {
    && (forall id :: id in after <==> id in s && s[id].started >= cutoff)
    && (forall id | id in after && s[id].status in {Succeeded, Failed, Aborted} :: after[id] == s[id])
    && (forall id | id in after && s[id].status in {Pending, Streaming} :: AbortedFrom(s[id], after[id], now))
  }

  lemma RecoveryIs(s: Records, cutoff: Time, now: Time)
    ensures RecoveredFrom(s, AfterRecovery(s, cutoff, now), cutoff, now)
  {
    hide AbortedFrom;
    forall id | id in s ensures if Terminal(s[id].status) then Closed(s[id], now) == s[id]
                                else AbortedFrom(s[id], Closed(s[id], now), now)
    {
      ClosedIs(s[id], now);
    }
  }

  /** Completing one interrupted exchange, as recovery does: it is never refused. */
  lemma InterruptionCloses(s: Records, now: Time, id: Id)
    requires Inv(s) && id in s && !Terminal(s[id].status)
    ensures Refused(Interrupted(s[id])).None? && Conflict(s[id], Interrupted(s[id])).None?
    ensures AfterFinish(s, now, id, Interrupted(s[id])) == s[id := Closed(s[id], now)]
    ensures Inv(s[id := Closed(s[id], now)])
  {
    hide Merged;
    MergeEvolves(s[id], Interrupted(s[id]), now);
  }

  class Ledger {
    var records: Records
    var enabled: bool
    var retention: nat

    ghost predicate Valid()
      reads this
    {
      Inv(records)
    }

    constructor (enabled: bool, retention: nat)
      ensures Valid() && records == map[] && this.enabled == enabled && this.retention == retention
    {
      records := map[];
      this.enabled, this.retention := enabled, retention;
    }

    method Prune(now: Time)
      requires Valid()
      modifies this`records
      ensures Valid() && records == AfterPrune(old(records), now - retention)
      ensures forall id :: id in records <==> id in old(records) && old(records)[id].started >= now - retention
      ensures forall id | id in records :: records[id] == old(records)[id]
    {
      records := map id | id in records && records[id].started >= now - retention :: records[id];
    }

    /** A new exchange starts pending, with nothing metered. `wellFormed` is the verdict on its text metadata. */
    method Start(now: Time, id: Id, provider: Id, model: string, streaming: bool, requestBytes: nat,
        rates: Option<Rates>, wellFormed: bool)
      returns (r: Result<bool, Error>)
      requires Valid()
      modifies this`records
      ensures Valid()
      ensures var kept := AfterPrune(old(records), now - retention);
        && (r == Success(true) <==> enabled && wellFormed && requestBytes <= I64_MAX && id !in kept)
        && records == if r == Success(true)
                      then kept[id := Opened(provider, model, streaming, now, requestBytes, rates)] else kept
      ensures r == Success(true) ==>
        && id in records && records[id].status == Pending && records[id].started == now
        && records[id].provider == provider && records[id].model == model && records[id].streaming == streaming
        && records[id].requestBytes == requestBytes && records[id].responseBytes == 0 && records[id].rates == rates
        && records[id].tokens == Tokens(None, None, None, None, None) && records[id].cost == None
        && records[id].finished == None && records[id].http == None && records[id].error == None
    {
      Prune(now);
      if !enabled { return Success(false); }
      if !wellFormed { return Failure(BadEntry); }
      if requestBytes > I64_MAX { return Failure(BadMetric); }
      if id in records { return Failure(Duplicate); }
      records := records[id := Opened(provider, model, streaming, now, requestBytes, rates)];
      r := Success(true);
    }

    /** Completes an open record; a completed one, or one that has been cleared, is left alone. */
    method Finish(now: Time, id: Id, f: Finish) returns (r: Result<bool, Error>)
      requires Valid()
      modifies this`records
      ensures Valid() && records == AfterFinish(old(records), now, id, f)
      ensures r == Success(true) <==>
        Refused(f).None? && id in old(records) && !Terminal(old(records)[id].status) && Conflict(old(records)[id], f).None?
      ensures Refused(f).None? && (id !in old(records) || Terminal(old(records)[id].status)) ==> r == Success(false)
      ensures r == Success(true) ==> id in old(records) && Acceptable(f, old(records)[id])
      ensures r != Success(true) ==> records == old(records)
      ensures r == Success(true) ==>
        && records.Keys == old(records).Keys
        && (forall other | other in records && other != id :: records[other] == old(records)[other])
        && Reports(f, old(records)[id], records[id], now)
    {
      if Refused(f).Some? { return Failure(Refused(f).value); }
      if id !in records { return Success(false); }
      var record := records[id];
      if Terminal(record.status) { return Success(false); }
      if Conflict(record, f).Some? { return Failure(Conflict(record, f).value); }
      MergeEvolves(record, f, now);
      MergeReports(record, f, now);
      records := records[id := Merged(record, f, now)];
      r := Success(true);
    }

    method DeleteHistory() returns (removed: nat)
      requires Valid()
      modifies this`records
      ensures Valid() && records == map[] && removed == |old(records)|
    {
      removed := |records|;
      records := map[];
    }

    /** Aborts what a crash left open, and counts it. No completion on the way is refused, so there is no error
        result. */
    method RecoverInterrupted(now: Time) returns (count: nat)
      requires Valid()
      modifies this`records
      ensures RecoveredFrom(old(records), records, now - retention, now)
      ensures Valid() && records == AfterRecovery(old(records), now - retention, now)
      ensures count == |Open(AfterPrune(old(records), now - retention))|
    {
      hide Merged, Evolves, GoodRecord, Refused, Conflict, AfterFinish, Interrupted, RecoveredFrom, Reports, Acceptable;
      Prune(now);
      ghost var kept := records;
      var rest := set id | id in records && !Terminal(records[id].status);
      count := 0;
      while rest != {}
        invariant Valid() && rest <= Open(kept) && records.Keys == kept.Keys
        invariant forall id | id in rest :: records[id] == kept[id]
        invariant forall id | id in kept && id !in rest :: records[id] == Closed(kept[id], now)
        invariant count + |rest| == |Open(kept)|
        decreases rest
      {
        var id :| id in rest;
        InterruptionCloses(records, now, id);
        var done := Finish(now, id, Interrupted(records[id]));
        assert done == Success(true);
        count := count + 1;
        rest := rest - {id};
      }
      assert records == AfterRecovery(old(records), now - retention, now);
      RecoveryIs(old(records), now - retention, now);
    }
  }

  function Opened(provider: Id, model: string, streaming: bool, now: Time, requestBytes: nat,
      rates: Option<Rates>): Record {
    Record(provider, model, streaming, now, None, Pending, None, None, None, requestBytes, 0, NO_TOKENS, None, rates, None)
  }

  /* ---- Whole runs ---- */

  datatype Op =
    | Start(id: Id, provider: Id, model: string, streaming: bool, requestBytes: nat, rates: Option<Rates>)
    | Complete(id: Id, f: Finish)
    | Prune(cutoff: Time)
    | Clear
    | Recover(cutoff: Time)
    | Restore(archive: Records, otherwiseUnused: bool)

  /** `used` holds the ids of every exchange ever recorded. */
  datatype Sys = Sys(records: Records, used: set<Id>)

  function Step(s: Sys, op: Op, now: Time): Sys {
    match op
    case Start(id, provider, model, streaming, requestBytes, rates) =>
      if id in s.used then s
      else Sys(s.records[id := Opened(provider, model, streaming, now, requestBytes, rates)], s.used + {id})
    case Complete(id, f) => s.(records := AfterFinish(s.records, now, id, f))
    case Prune(cutoff) => s.(records := AfterPrune(s.records, cutoff))
    case Clear => s.(records := map[])
    case Recover(cutoff) => s.(records := AfterRecovery(s.records, cutoff, now))
    case Restore(archive, otherwiseUnused) => if Restores(s, op) then Sys(archive, s.used + archive.Keys) else s
  }

  /** A restore is for an unused vault, which has no records. */
  predicate Restores(s: Sys, op: Op) {
    op.Restore? && op.otherwiseUnused && s.records == map[]
  }

  /** Archives come from ledgers that keep the structure. */
  ghost predicate Sound(ops: seq<(Op, Time)>) {
    forall i | 0 <= i < |ops| && ops[i].0.Restore? :: Inv(ops[i].0.archive)
  }

  /** No step of the run restores an archive. */
  ghost predicate Undisturbed(s: Sys, ops: seq<(Op, Time)>)
    decreases |ops|
  {
    ops != [] ==> !Restores(s, ops[0].0) && Undisturbed(Step(s, ops[0].0, ops[0].1), ops[1..])
  }

  function Exec(s: Sys, ops: seq<(Op, Time)>): Sys
    decreases |ops|
  {
    if ops == [] then s else Exec(Step(s, ops[0].0, ops[0].1), ops[1..])
  }

  ghost predicate SysInv(s: Sys) {
    Inv(s.records) && s.records.Keys <= s.used
  }

  lemma StepKeeps(s: Sys, op: Op, now: Time)
    requires SysInv(s) && (op.Restore? ==> Inv(op.archive))
    ensures SysInv(Step(s, op, now)) && s.used <= Step(s, op, now).used
  {
    if !Restores(s, op) {
      StepEvolves(s, op, now);
    }
  }

  lemma StepEvolves(s: Sys, op: Op, now: Time)
    requires SysInv(s) && !Restores(s, op)
    ensures var s' := Step(s, op, now);
      && SysInv(s')
      && (forall id | id in s.used :: id in s'.records ==> id in s.records && Evolves(s.records[id], s'.records[id]))
  {
    match op
    case Complete(id, f) =>
      if Refused(f).None? && id in s.records && !Terminal(s.records[id].status) && Conflict(s.records[id], f).None? {
        MergeEvolves(s.records[id], f, now);
      }
    case Recover(cutoff) =>
      RecoveryCloses(s.records, cutoff, now, now);
      forall id | id in s.records && !Terminal(s.records[id].status)
        ensures Evolves(s.records[id], Merged(s.records[id], Interrupted(s.records[id]), now))
      {
        MergeEvolves(s.records[id], Interrupted(s.records[id]), now);
      }
    case _ =>
  }

  lemma {:induction false} RunKeeps(s: Sys, ops: seq<(Op, Time)>)
    requires SysInv(s) && Sound(ops)
    ensures SysInv(Exec(s, ops)) && s.used <= Exec(s, ops).used
    decreases |ops|
  {
    if ops != [] {
      StepKeeps(s, ops[0].0, ops[0].1);
      RunKeeps(Step(s, ops[0].0, ops[0].1), ops[1..]);
    }
  }

  lemma {:induction false} RunEvolves(s: Sys, ops: seq<(Op, Time)>)
    requires SysInv(s) && Undisturbed(s, ops)
    ensures Evolved(s, Exec(s, ops)) && s.used <= Exec(s, ops).used
    decreases |ops|
  {
    if ops != [] {
      StepEvolves(s, ops[0].0, ops[0].1);
      RunEvolves(Step(s, ops[0].0, ops[0].1), ops[1..]);
    }
  }

  /** Every record that was ever made has evolved, or is gone. */
  ghost predicate Evolved(s: Sys, s': Sys) {
    forall id | id in s.used :: id in s'.records ==> id in s.records && Evolves(s.records[id], s'.records[id])
  }

  const EMPTY := Sys(map[], {})

  /** What some run leaves of an empty ledger. */
  ghost predicate Reachable(s: Sys) {
    exists ops :: Sound(ops) && Exec(EMPTY, ops) == s
  }

  /** In every reachable ledger, and after every later run, records have their structure. Until an archive is
      restored, a completed record never changes, bytes and stages never go back, and a cleared or pruned record does
      not return. */
  lemma Lifecycle(s: Sys, ops: seq<(Op, Time)>)
    requires Reachable(s) && Sound(ops)
    ensures SysInv(s) && SysInv(Exec(s, ops)) && s.used <= Exec(s, ops).used
    ensures Undisturbed(s, ops) ==> Evolved(s, Exec(s, ops))
  {
    var before :| Sound(before) && Exec(EMPTY, before) == s;
    RunKeeps(EMPTY, before);
    RunKeeps(s, ops);
    if Undisturbed(s, ops) {
      RunEvolves(s, ops);
    }
  }

  /** A restore into the emptied ledger does bring a cleared record back, as it was when it was archived. */
  lemma RestoreBringsBack(s: Sys, archive: Records, now: Time)
    ensures Exec(s, [(Clear, now), (Restore(archive, true), now)]).records == archive
  {
    var ops := [(Clear, now), (Restore(archive, true), now)];
    assert ops[1..] == [ops[1]] && ops[1..][1..] == [];
    var cleared := Step(s, Clear, now);
    assert Exec(s, ops) == Exec(cleared, ops[1..]) == Exec(Step(cleared, Restore(archive, true), now), []);
  }
}
