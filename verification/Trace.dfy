/** One exchange with a provider: the guard that meters a response and completes its journal record once. */
module Trace {
  import opened Common
  import opened Metering
  import Journal

  /** How a provider's stream came to an end; `Dropped` when the client went away. */
  datatype Ending = Closed | Interrupted | Stalled | Dropped

  type Parser = string -> Option<Event>

  /* ---- The verdict on a whole response ---- */

  predicate Success2xx(http: Option<nat>) {
    http.Some? && 200 <= http.value < 300
  }

  /** A stream of a known protocol has to announce its own end. */
  predicate Unfinished(streaming: bool, protocol: Protocol, ended: bool) {
    streaming && !protocol.Local? && !ended
  }

  function Outcome(http: Option<nat>, streaming: bool, protocol: Protocol, m: Meter, ending: Ending): Journal.Status {
    if ending.Dropped? && !m.failed then Journal.Aborted
    else if ending.Closed? && !m.failed && Success2xx(http) && !Unfinished(streaming, protocol, m.ended) then Journal.Succeeded
    else Journal.Failed
  }

  /** The reason given with an outcome: a provider's own error before anything else. */
  function Reason(http: Option<nat>, streaming: bool, protocol: Protocol, m: Meter, ending: Ending): Option<string> {
    if m.failed then Some("upstream_stream_error")
    else
      match ending
      case Interrupted => Some("stream_interrupted")
      case Stalled => Some("stream_timeout")
      case Dropped => Some("client_disconnected")
      case Closed =>
        if http.None? || http.value < 200 || http.value > 299 then Some("provider_http_error")
        else if streaming && protocol != Local && !m.ended then Some("upstream_stream_incomplete")
        else None
  }

  /** The final status as a function of the whole stream. It does not mention how the stream was cut into chunks. */
  function Verdict(
    parse: Parser, http: Option<nat>, streaming: bool, protocol: Protocol, m: Meter, stream: string, limit: nat,
    ending: Ending)
    : Journal.Status
  {
    if |stream| > limit then Journal.Failed
    else Outcome(http, streaming, protocol, Scanned(parse, protocol, m, stream).meter, ending)
  }

  /** Success means just what it should: nothing in the complete lines was an error, and the end was announced. */
  lemma SucceededIff(
    parse: Parser, http: Option<nat>, streaming: bool, protocol: Protocol, m: Meter, stream: string, limit: nat,
    ending: Ending)
    requires !m.failed
    ensures Verdict(parse, http, streaming, protocol, m, stream, limit, ending).Succeeded? <==>
      && |stream| <= limit && ending.Closed? && http.Some? && 200 <= http.value <= 299
      && (forall l | l in Kept(Lines(stream)) :: !Fails(parse, l))
      && (streaming && !protocol.Local? && !m.ended ==> exists l | l in Kept(Lines(stream)) :: Ends(parse, protocol, l))
  {
    MeterIsLineByLine(parse, protocol, m, Kept(Lines(stream)));
  }

  /** Only a client that went away, in time and without an error from the provider, aborts an exchange. */
  lemma AbortedIff(
    parse: Parser, http: Option<nat>, streaming: bool, protocol: Protocol, m: Meter, stream: string, limit: nat,
    ending: Ending)
    requires !m.failed
    ensures Verdict(parse, http, streaming, protocol, m, stream, limit, ending).Aborted? <==>
      |stream| <= limit && ending.Dropped? && forall l | l in Kept(Lines(stream)) :: !Fails(parse, l)
    ensures Verdict(parse, http, streaming, protocol, m, stream, limit, ending) in
      {Journal.Succeeded, Journal.Failed, Journal.Aborted}
  {
    MeterIsLineByLine(parse, protocol, m, Kept(Lines(stream)));
  }

  /** The lines that count are the complete ones of at most 65536 bytes. */
  lemma {:induction false} KeptLines(lines: seq<string>, l: string)
    ensures l in Kept(lines) <==> l in lines && |l| <= 65_536
  {
    if lines != [] {
      KeptLines(lines[..|lines| - 1], l);
      assert lines == lines[..|lines| - 1] + [lines[|lines| - 1]];
    }
  }

  predicate Fails(parse: Parser, line: string) {
    "data:" <= line && parse(line[5..]).Some? && IsError(parse(line[5..]).value)
  }

  predicate Ends(parse: Parser, protocol: Protocol, line: string) {
    && "data:" <= line
    && match protocol
       case OpenAi => TrimAscii(line[5..]) == "[DONE]"
       case Anthropic =>
         var parsed := parse(line[5..]);
         parsed.Some? && !IsError(parsed.value) && parsed.value.kind == Some("message_stop")
       case Local => false
  }

  lemma {:induction false} MeterIsLineByLine(parse: Parser, protocol: Protocol, m: Meter, lines: seq<string>)
    ensures AfterLines(parse, protocol, m, lines).failed <==> m.failed || exists l | l in lines :: Fails(parse, l)
    ensures AfterLines(parse, protocol, m, lines).ended <==> m.ended || exists l | l in lines :: Ends(parse, protocol, l)
  {
    if lines != [] {
      var init, last := lines[..|lines| - 1], lines[|lines| - 1];
      MeterIsLineByLine(parse, protocol, m, init);
      assert lines == init + [last];
      assert last in lines;
    }
  }

  /* ---- What one trace may leave in its record ---- */

  /** The open record of a trace: not yet metered, and behind the trace in bytes and headers. */
  ghost predicate Behind(r: Journal.Record, streaming: bool, header: Option<nat>, bytes: nat) {
    && r.streaming == streaming && r.tokens == Journal.NO_TOKENS && r.latency.None?
    && r.responseBytes <= bytes && (r.header.None? || r.header == header)
  }

  /** The counters and status code the journal can hold. */
  predicate Reportable(f: Journal.Finish) {
    && (f.http.Some? ==> 100 <= f.http.value <= 599)
    && f.responseBytes <= I64_MAX && Bounded(f.header) && Bounded(f.latency)
  }

  /** A completion closes its open record exactly when it is reportable: the metered counts never stand in the way. */
  lemma CompletionCloses(s: Journal.Records, now: Time, id: Id, streaming: bool, f: Journal.Finish, c: Counts)
    requires Journal.Inv(s) && id in s && !Journal.Terminal(s[id].status)
    requires Journal.Terminal(f.status) && f.latency.Some? && (f.header.Some? ==> f.header.value <= f.latency.value)
    requires Behind(s[id], streaming, f.header, f.responseBytes)
    requires Consistent(c) && f.tokens == Journal.TokensOf(c)
    ensures id in Journal.AfterFinish(s, now, id, f)
    ensures var r := Journal.AfterFinish(s, now, id, f)[id];
      && (Journal.Terminal(r.status) <==> Reportable(f))
      && (Reportable(f) ==>
            && r.status == f.status && r.tokens == f.tokens && r.responseBytes == f.responseBytes && r.latency == f.latency
            && r.header == f.header && (f.http.Some? ==> r.http == f.http)
            && (f.error.Some? ==> r.error == Some(Journal.Sanitized(f.error.value)))
            && r.cost == Journal.EstimatedCost(s[id].rates, f.tokens) && (f.finishedAt.None? ==> r.finished == Some(now)))
      && (!Reportable(f) ==> r == s[id])
  {
    hide Journal.EstimatedCost, Journal.Sanitized;
    assert Reportable(f) <==> Journal.Refused(f).None?;
    assert Journal.Conflict(s[id], f).None?;
  }

  /** A status code from 600 to 999 is one that no completion can report: the record stays open until a restart. */
  lemma OddStatusStaysOpen(s: Journal.Records, now: Time, id: Id, f: Journal.Finish)
    requires f.http.Some? && 600 <= f.http.value <= 999
    ensures Journal.AfterFinish(s, now, id, f) == s
  {
  }

  class ExchangeTrace {
    const ledger: Journal.Ledger
    const id: Id
    const streaming: bool
    const protocol: Protocol
    const parse: Parser
    const start: Time
    var http: Option<nat>
    var header: Option<nat>
    var responseBytes: nat
    var status: Journal.Status
    var error: Option<string>
    var completed: bool
    var failed: bool
    var ended: bool
    var counts: Counts
    var pending: string
    var discard: bool
    ghost var seen: Time
    ghost var terminalWrites: nat

    ghost predicate Valid()
      reads this, ledger
    {
      && ledger.Valid()
      && Consistent(counts) && Additive(counts) && |pending| <= LINE_LIMIT && responseBytes <= U64_MAX
      && start <= seen && (header.Some? ==> header.value <= Min(seen - start, U64_MAX))
      && terminalWrites <= 1 && (!completed ==> terminalWrites == 0 && OwnRecord())
    }

    predicate IsOpen()
      reads this, ledger
    {
      id in ledger.records && !Journal.Terminal(ledger.records[id].status)
    }

    ghost predicate OwnRecord()
      reads this, ledger
    {
      IsOpen() ==> Behind(ledger.records[id], streaming, header, responseBytes)
    }

    function State(): Scan
      reads this
    {
      Scan(Meter(counts, failed, ended), pending, discard)
    }

    ghost predicate Fresh()
      reads this
    {
      State() == Scan(Meter(Unmetered(counts.noCacheWrite), false, false), "", false) && responseBytes == 0 && !completed
    }

    /** The guard of an exchange that `ledger` has just recorded, or was not enabled to record. */
    constructor (ledger: Journal.Ledger, id: Id, streaming: bool, protocol: Protocol, parse: Parser,
        noCacheWrite: bool, now: Time)
      requires ledger.Valid()
      requires id in ledger.records && !Journal.Terminal(ledger.records[id].status) ==>
        Behind(ledger.records[id], streaming, None, 0)
      ensures Valid() && Fresh() && this.ledger == ledger && this.id == id && this.parse == parse
      ensures this.streaming == streaming && this.protocol == protocol && http.None? && header.None? && seen == now
      ensures counts.noCacheWrite == noCacheWrite
    {
      this.ledger, this.id, this.streaming, this.protocol, this.parse, start := ledger, id, streaming, protocol, parse, now;
      http, header, responseBytes, status, error := None, None, 0, Journal.Pending, None;
      completed, failed, ended, pending, discard := false, false, false, "", false;
      counts := Unmetered(noCacheWrite);
      seen, terminalWrites := now, 0;
    }

    function Report(latency: Option<nat>): Journal.Finish
      reads this
    {
      Journal.Finish(status, http, header, latency, Journal.TokensOf(counts), responseBytes, error, None)
    }

    function Elapsed(now: Time): nat
      reads this
      requires start <= now
    {
      Min(now - start, U64_MAX)
    }

    /** The response head arrived. `available` says whether the vault could be locked. */
    method Headers(code: nat, now: Time, available: bool)
      requires Valid() && Fresh() && header.None? && seen <= now
      modifies this, ledger`records
      ensures Valid() && Fresh() && http == Some(code) && header == Some(Elapsed(now)) && seen == now
      ensures counts == old(counts)
      ensures ledger.records ==
        if streaming && available then Journal.AfterFinish(old(ledger.records), now, id, Report(None)) else old(ledger.records)
      ensures streaming ==> status == Journal.Streaming
      ensures streaming && available && old(IsOpen()) && 100 <= code <= 599 && now - start <= I64_MAX ==>
        && id in ledger.records && ledger.records[id].status == Journal.Streaming
        && ledger.records[id].http == Some(code) && ledger.records[id].header == Some(now - start)
        && ledger.records[id].responseBytes == 0
    {
      hide Consistent, Additive, Journal.AfterFinish, Journal.Inv, Journal.Refused, Journal.Conflict, Journal.Merged;
      http := Some(code);
      header := Some(Elapsed(now));
      seen := now;
      if streaming {
        status := Journal.Streaming;
        if available {
          HeadersKeepBehind(ledger.records, now, id, Report(None));
          if IsOpen() && 100 <= code <= 599 && now - start <= I64_MAX {
            HeadIsRecorded(ledger.records, now, id, Report(None));
          }
          var _ := ledger.Finish(now, id, Report(None));
        }
      }
    }

    /** One usage object, of either provider's form or of both. */
    method Usage(u: Usage)
      modifies this`counts
      ensures counts == AfterUsage(old(counts), u)
    {
      hide Safe, TokenSum, Reported, OutputField;
      if u.prompt.Present? { Prompt(u); }
      if u.input.Present? || u.cacheRead.Present? || u.cacheCreation.Present? { SeparateParts(u); }
      if OutputField(u).Present? { counts := counts.(output := Safe(OutputField(u))); }
      var summed := TokenSum(counts.input, counts.output);
      counts := counts.(total := if u.total.Present? then Reported(counts, Safe(u.total)) else summed);
      if (u.prompt.Present? && Safe(u.prompt).None?) || (OutputField(u).Present? && Safe(OutputField(u)).None?) {
        counts := counts.(total := None);
      }
      if counts.parts.Some? && counts.input.None? { counts := counts.(total := None); }
    }

    method Prompt(u: Usage)
      requires u.prompt.Present?
      modifies this`counts
      ensures counts == AfterPrompt(old(counts), u)
    {
      hide Safe;
      var input, cached := Safe(u.prompt), Safe(u.promptCached);
      var written := if u.cacheWrite.Present? then Safe(u.cacheWrite) else if counts.noCacheWrite then Some(0) else None;
      if input.Some?
         && (Exceeds(cached, input.value) || Exceeds(written, input.value)
             || (cached.Some? && written.Some? && cached.value + written.value > input.value)) {
        cached, written := None, None;
      }
      counts := counts.(input := input, cached := cached, written := written);
    }

    method SeparateParts(u: Usage)
      requires u.input.Present? || u.cacheRead.Present? || u.cacheCreation.Present?
      modifies this`counts
      ensures counts == AfterParts(old(counts), u)
    {
      hide Safe, TokenSum;
      var parts := if counts.parts.Some? then counts.parts.value else Parts(None, None, None);
      if u.input.Present? { parts := parts.(uncached := Safe(u.input)); }
      if u.cacheRead.Present? { parts := parts.(read := Safe(u.cacheRead)); }
      if u.cacheCreation.Present? { parts := parts.(written := Safe(u.cacheCreation)); }
      counts := counts.(parts := Some(parts), cached := parts.read, written := parts.written,
                        input := TokenSum(TokenSum(parts.uncached, parts.read), parts.written));
    }

    /** A complete line is in `pending`. */
    method Line()
      modifies this`counts, this`failed, this`ended
      ensures State().meter == AfterLine(parse, protocol, old(State().meter), pending)
    {
      if "data:" <= pending {
        var data := pending[5..];
        if protocol.OpenAi? && TrimAscii(data) == "[DONE]" { ended := true; }
        var parsed := parse(data);
        if parsed.Some? {
          if IsError(parsed.value) {
            failed := true;
          } else {
            if protocol.Anthropic? && parsed.value.kind == Some("message_stop") { ended := true; }
            if parsed.value.usage.Some? { Usage(parsed.value.usage.value); }
          }
        }
      }
    }

    /** A chunk of the body; its bytes are parsed only in a stream, and are forwarded whatever they hold. */
    method Chunk(chunk: string, sse: bool)
      requires Valid() && !completed
      modifies this`responseBytes, this`counts, this`failed, this`ended, this`pending, this`discard
      ensures Valid() && responseBytes == Min(old(responseBytes) + |chunk|, U64_MAX)
      ensures State() == if sse then AfterBytes(parse, protocol, old(State()), chunk) else old(State())
    {
      hide Consistent, Additive, AfterUsage, AfterLine, Journal.Inv;
      responseBytes := Min(responseBytes + |chunk|, U64_MAX);
      if !sse { return; }
      var i := 0;
      while i < |chunk|
        invariant i <= |chunk|
        invariant State() == AfterBytes(parse, protocol, old(State()), chunk[..i])
        invariant Consistent(counts) && Additive(counts) && |pending| <= LINE_LIMIT
        invariant responseBytes == Min(old(responseBytes) + |chunk|, U64_MAX)
      {
        assert chunk[..i + 1][..|chunk[..i + 1]| - 1] == chunk[..i];
        var byte := chunk[i];
        if byte == '\n' {
          if !discard {
            LineKeeps(parse, protocol, State().meter, pending);
            Line();
          }
          pending := "";
          discard := false;
        } else if !discard {
          if |pending| < LINE_LIMIT {
            pending := pending + [byte];
          } else {
            pending := "";
            discard := true;
          }
        }
        i := i + 1;
      }
      assert chunk[..i] == chunk;
    }

    /** Completes the exchange, the first time it is called. */
    method Complete(outcome: Journal.Status, why: Option<string>, now: Time, available: bool)
      requires Valid() && seen <= now && Journal.Terminal(outcome)
      modifies this`completed, this`status, this`error, this`seen, this`terminalWrites, ledger`records
      ensures Valid() && completed
      ensures old(completed) ==> ledger.records == old(ledger.records) && status == old(status) && error == old(error)
      ensures !old(completed) ==>
        && status == (if failed then Journal.Failed else outcome)
        && error == (if failed then Some("upstream_stream_error") else why)
        && ledger.records ==
             if available then Journal.AfterFinish(old(ledger.records), now, id, Report(Some(Elapsed(now))))
             else old(ledger.records)
      ensures !old(completed) && available && old(IsOpen()) ==> Recorded(now)
    {
      hide Consistent, Additive, Journal.AfterFinish, Journal.Inv, Reportable, Journal.TokensOf, AfterBytes, Behind;
      if completed { return; }
      completed := true;
      status := if failed then Journal.Failed else outcome;
      error := if failed then Some("upstream_stream_error") else why;
      seen := now;
      if available {
        Write(now);
      }
    }

    /** The one terminal write of the guard. */
    method Write(now: Time)
      requires completed && Journal.Terminal(status) && ledger.Valid() && Consistent(counts) && OwnRecord()
      requires terminalWrites == 0 && start <= now && (header.Some? ==> header.value <= Elapsed(now))
      modifies this`terminalWrites, ledger`records
      ensures ledger.Valid() && terminalWrites == 1
      ensures ledger.records == Journal.AfterFinish(old(ledger.records), now, id, Report(Some(Elapsed(now))))
      ensures old(IsOpen()) ==> Recorded(now)
    {
      hide Consistent, Journal.AfterFinish, Journal.Inv, Reportable, Journal.TokensOf, Journal.Refused, Journal.Conflict,
        Journal.Merged, Journal.Sanitized, Behind;
      var report := Report(Some(Elapsed(now)));
      if IsOpen() {
        CompletionCloses(ledger.records, now, id, streaming, report, counts);
      }
      terminalWrites := 1;
      var _ := ledger.Finish(now, id, report);
    }

    /** The record says what the trace found, exactly if the journal can hold it. */
    ghost predicate Recorded(now: Time)
      reads this, ledger
      requires start <= now
    {
      var report := Report(Some(Elapsed(now)));
      && id in ledger.records
      && (Journal.Terminal(ledger.records[id].status) <==> Reportable(report))
      && (Reportable(report) ==>
            && ledger.records[id].status == status && ledger.records[id].tokens == Journal.TokensOf(counts)
            && ledger.records[id].responseBytes == responseBytes
            && (error.Some? ==> ledger.records[id].error == Some(Journal.Sanitized(error.value))))
    }

    method ResponseComplete(now: Time, available: bool)
      requires Valid() && !completed && seen <= now
      modifies this`completed, this`status, this`error, this`seen, this`terminalWrites, ledger`records
      ensures Valid() && completed && status == Outcome(http, streaming, protocol, State().meter, Closed)
      ensures error == Reason(http, streaming, protocol, State().meter, Closed)
      ensures available && old(IsOpen()) ==> Recorded(now)
    {
      if Success2xx(http) {
        if Unfinished(streaming, protocol, ended) {
          Complete(Journal.Failed, Some("upstream_stream_incomplete"), now, available);
        } else {
          Complete(Journal.Succeeded, None, now, available);
        }
      } else {
        Complete(Journal.Failed, Some("provider_http_error"), now, available);
      }
    }

    /** The guard goes out of scope. */
    method Drop(now: Time, available: bool)
      requires Valid() && seen <= now
      modifies this`completed, this`status, this`error, this`seen, this`terminalWrites, ledger`records
      ensures Valid() && completed
      ensures old(completed) ==> ledger.records == old(ledger.records) && status == old(status)
      ensures !old(completed) ==> status == Outcome(http, streaming, protocol, State().meter, Dropped)
      ensures !old(completed) ==> error == Reason(http, streaming, protocol, State().meter, Dropped)
      ensures !old(completed) && available && old(IsOpen()) ==> Recorded(now)
    {
      if !completed {
        Complete(Journal.Aborted, Some("client_disconnected"), now, available);
      }
    }
  }

  lemma HeadersKeepBehind(s: Journal.Records, now: Time, id: Id, f: Journal.Finish)
    requires Journal.Inv(s) && f.status.Streaming? && f.tokens == Journal.NO_TOKENS && f.latency.None? && f.responseBytes == 0
    requires id in s && !Journal.Terminal(s[id].status) ==> Behind(s[id], true, f.header, 0)
    ensures var s' := Journal.AfterFinish(s, now, id, f);
      id in s' && !Journal.Terminal(s'[id].status) ==> Behind(s'[id], true, f.header, 0)
  {
    hide Journal.EstimatedCost, Journal.Refused, Journal.Sanitized;
  }

  /** What the head of a stream leaves in its record. */
  lemma HeadIsRecorded(s: Journal.Records, now: Time, id: Id, f: Journal.Finish)
    requires Journal.Inv(s) && id in s && !Journal.Terminal(s[id].status) && Behind(s[id], true, f.header, 0)
    requires f.status.Streaming? && f.tokens == Journal.NO_TOKENS && f.latency.None? && f.responseBytes == 0
    requires f.http.Some? && 100 <= f.http.value <= 599 && Bounded(f.header)
    ensures id in Journal.AfterFinish(s, now, id, f)
    ensures var after := Journal.AfterFinish(s, now, id, f)[id];
      && after.status == Journal.Streaming && after.http == f.http && after.responseBytes == 0
      && (f.header.Some? ==> after.header == f.header) && after.finished == s[id].finished
  {
    hide Journal.EstimatedCost, Journal.Sanitized;
  }

  lemma LineKeeps(parse: Parser, protocol: Protocol, m: Meter, line: string)
    requires Consistent(m.counts) && Additive(m.counts)
    ensures var m' := AfterLine(parse, protocol, m, line); Consistent(m'.counts) && Additive(m'.counts)
  {
    hide Consistent, Additive, AfterUsage;
    if "data:" <= line && parse(line[5..]).Some? && parse(line[5..]).value.usage.Some? {
      UsageKeeps(m.counts, parse(line[5..]).value.usage.value);
    }
  }

  /** Forwards a provider's stream of at most `limit` bytes, chunk by chunk. Whatever the chunks, a stream within the
      limit is forwarded unchanged and in full, and the final status depends on its bytes alone. */
  method Forward(trace: ExchangeTrace, chunks: seq<string>, ending: Ending, limit: nat, now: Time, available: bool)
    returns (forwarded: seq<string>)
    requires trace.Valid() && trace.Fresh() && trace.seen <= now
    modifies trace, trace.ledger`records
    ensures trace.Valid() && trace.completed
    ensures forwarded <= chunks && |Concat(forwarded)| <= limit
    ensures forwarded == chunks <==> |Concat(chunks)| <= limit
    ensures trace.status == Verdict(trace.parse, old(trace.http), trace.streaming, trace.protocol,
                                    old(trace.State()).meter, Concat(chunks), limit, ending)
    ensures |Concat(chunks)| <= limit ==>
      trace.State() == Scanned(trace.parse, trace.protocol, old(trace.State()).meter, Concat(chunks))
    ensures trace.error == if |Concat(chunks)| <= limit
                           then Reason(old(trace.http), trace.streaming, trace.protocol, trace.State().meter, ending)
                           else if trace.failed then Some("upstream_stream_error") else Some("response_too_large")
    ensures available && old(trace.IsOpen()) ==> trace.Recorded(now)
  {
    hide Verdict, Scanned, AfterBytes, Consistent, Additive, Behind, Journal.Inv, Journal.AfterFinish, Reportable;
    forwarded := [];
    ghost var start, records, http := trace.State(), trace.ledger.records, trace.http;
    var used := 0;
    var i := 0;
    while i < |chunks|
      invariant i <= |chunks| && forwarded == chunks[..i] && used == |Concat(forwarded)| <= limit
      invariant trace.Valid() && !trace.completed && trace.seen <= now
      invariant trace.State() == AfterChunks(trace.parse, trace.protocol, start, forwarded)
      invariant trace.http == http && trace.ledger.records == records
    {
      assert chunks[..i + 1][..|chunks[..i + 1]| - 1] == chunks[..i];
      trace.Chunk(chunks[i], true);
      if |chunks[i]| > limit - used {
        trace.Complete(Journal.Failed, Some("response_too_large"), now, available);
        PrefixLength(chunks, i + 1);
        TooLong(trace.parse, http, trace.streaming, trace.protocol, start.meter, Concat(chunks), limit, ending);
        return;
      }
      forwarded := chunks[..i + 1];
      used := used + |chunks[i]|;
      i := i + 1;
    }
    assert chunks[..i] == chunks;
    ChunkingIsIrrelevant(trace.parse, trace.protocol, start.meter, chunks);
    WithinLimit(trace.parse, http, trace.streaming, trace.protocol, start.meter, Concat(chunks), limit, ending);
    match ending
    case Closed => trace.ResponseComplete(now, available);
    case Interrupted => trace.Complete(Journal.Failed, Some("stream_interrupted"), now, available);
    case Stalled => trace.Complete(Journal.Failed, Some("stream_timeout"), now, available);
    case Dropped => trace.Drop(now, available);
  }

  lemma TooLong(
    parse: Parser, http: Option<nat>, streaming: bool, protocol: Protocol, m: Meter, stream: string, limit: nat,
    ending: Ending)
    requires |stream| > limit
    ensures Verdict(parse, http, streaming, protocol, m, stream, limit, ending) == Journal.Failed
  {
  }

  lemma WithinLimit(
    parse: Parser, http: Option<nat>, streaming: bool, protocol: Protocol, m: Meter, stream: string, limit: nat,
    ending: Ending)
    requires |stream| <= limit
    ensures Verdict(parse, http, streaming, protocol, m, stream, limit, ending)
      == Outcome(http, streaming, protocol, Scanned(parse, protocol, m, stream).meter, ending)
  {
  }

  lemma {:induction false} PrefixLength(chunks: seq<string>, i: nat)
    requires i <= |chunks|
    ensures |Concat(chunks[..i])| <= |Concat(chunks)|
    decreases |chunks| - i
  {
    if i == |chunks| {
      assert chunks[..i] == chunks;
    } else {
      assert chunks[..i + 1][..|chunks[..i + 1]| - 1] == chunks[..i];
      PrefixLength(chunks, i + 1);
    }
  }

  /** Reads a body that is not a stream. Too long, or cut short, it fails the exchange; otherwise it is all there. */
  method ReadBody(trace: ExchangeTrace, announced: Option<nat>, chunks: seq<string>, interrupted: Option<string>,
      limit: nat,
      now: Time, available: bool)
    returns (body: Option<string>)
    requires trace.Valid() && trace.Fresh() && trace.seen <= now
    modifies trace, trace.ledger`records
    ensures trace.Valid() && trace.State() == old(trace.State())
    ensures body.Some? <==>
      (announced.Some? ==> announced.value <= limit) && interrupted.None? && |Concat(chunks)| <= limit
    ensures body.Some? ==>
      body.value == Concat(chunks) && !trace.completed && trace.ledger.records == old(trace.ledger.records)
    ensures body.None? ==>
      trace.completed && trace.status.Failed? && (available && old(trace.IsOpen()) ==> trace.Recorded(now))
    ensures body.None? ==>
      trace.error == if trace.failed then Some("upstream_stream_error")
                     else if (announced.Some? && announced.value > limit) || |Concat(chunks)| > limit
                     then Some("response_too_large")
                     else interrupted
  {
    hide Consistent, Additive, Behind, Journal.Inv, Journal.AfterFinish, Reportable, AfterBytes;
    if announced.Some? && announced.value > limit {
      trace.Complete(Journal.Failed, Some("response_too_large"), now, available);
      return None;
    }
    ghost var records := trace.ledger.records;
    var bytes := "";
    var i := 0;
    while i < |chunks|
      invariant i <= |chunks| && bytes == Concat(chunks[..i]) && |bytes| <= limit
      invariant trace.Valid() && !trace.completed && trace.seen <= now && trace.State() == old(trace.State())
      invariant trace.ledger.records == records
    {
      assert chunks[..i + 1][..|chunks[..i + 1]| - 1] == chunks[..i];
      trace.Chunk(chunks[i], false);
      if |chunks[i]| > limit - |bytes| {
        trace.Complete(Journal.Failed, Some("response_too_large"), now, available);
        PrefixLength(chunks, i + 1);
        return None;
      }
      bytes := bytes + chunks[i];
      i := i + 1;
    }
    assert chunks[..i] == chunks;
    if interrupted.Some? {
      trace.Complete(Journal.Failed, interrupted, now, available);
      return None;
    }
    body := Some(bytes);
  }
}
