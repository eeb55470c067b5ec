/** Token accounting and line parsing of a provider's response: the pure part of the exchange trace.

    A JSON text is read by `parse`, of which nothing is assumed; an event keeps what the trace looks at. */
module Metering {
  import opened Common

  const LINE_LIMIT := 65_536

  datatype Protocol = OpenAi | Anthropic | Local

  /** A member of the usage object: absent, or present with its value when that is an unsigned 64-bit number. */
  datatype Field = Absent | Present(number: Option<nat>)

  datatype Usage = Usage(
    prompt: Field, promptCached: Field, cacheWrite: Field,
    input: Field, cacheRead: Field, cacheCreation: Field,
    completion: Field, output: Field, total: Field)

  /** `members` counts the top-level members of an object, 0 for another value. */
  datatype Event = Event(kind: Option<string>, errorObject: bool, members: nat, usage: Option<Usage>)

  datatype Parts = Parts(uncached: Option<nat>, read: Option<nat>, written: Option<nat>)

  datatype Counts = Counts(
    input: Option<nat>, output: Option<nat>, cached: Option<nat>, written: Option<nat>, total: Option<nat>,
    parts: Option<Parts>, noCacheWrite: bool)

  /* ---- Bounded arithmetic with partial knowledge ---- */

  function Safe(f: Field): Option<nat> {
    if f.Present? && f.number.Some? && f.number.value <= I64_MAX then f.number else None
  }

  function TokenSum(a: Option<nat>, b: Option<nat>): Option<nat> {
    if a.None? || b.None? || a.value + b.value > U64_MAX || a.value + b.value > I64_MAX then None
    else Some(a.value + b.value)
  }

  predicate Exceeds(part: Option<nat>, whole: nat) {
    part.Some? && part.value > whole
  }

  /** OpenAI form: cached and written tokens are part of the prompt, or unknown. */
  function AfterPrompt(c: Counts, u: Usage): Counts {
    if u.prompt.Absent? then c
    else
      var input := Safe(u.prompt);
      var cached := Safe(u.promptCached);
      var written := if u.cacheWrite.Present? then Safe(u.cacheWrite) else if c.noCacheWrite then Some(0) else None;
      var impossible := input.Some? &&
        (Exceeds(cached, input.value) || Exceeds(written, input.value)
         || (cached.Some? && written.Some? && cached.value + written.value > input.value));
      c.(input := input, cached := if impossible then None else cached, written := if impossible then None else written)
  }

  /** A field that is present replaces the part. */
  function Replace(part: Option<nat>, f: Field): Option<nat> {
    if f.Present? then Safe(f) else part
  }

  /** Anthropic form: the input is the sum of three parts, unknown until all are known. */
  function AfterParts(c: Counts, u: Usage): Counts {
    if u.input.Absent? && u.cacheRead.Absent? && u.cacheCreation.Absent? then c
    else
      var known := if c.parts.Some? then c.parts.value else Parts(None, None, None);
      var p := Parts(
        Replace(known.uncached, u.input), Replace(known.read, u.cacheRead), Replace(known.written, u.cacheCreation));
      c.(parts := Some(p), input := TokenSum(TokenSum(p.uncached, p.read), p.written), cached := p.read, written := p.written)
  }

  function OutputField(u: Usage): Field {
    if u.completion.Present? then u.completion else u.output
  }

  function AfterOutput(c: Counts, u: Usage): Counts {
    if OutputField(u).Present? then c.(output := Safe(OutputField(u))) else c
  }

  function Reported(c: Counts, total: Option<nat>): Option<nat> {
    var summed := TokenSum(c.input, c.output);
    if total.None? || (summed.Some? && summed != total) || Exceeds(c.input, total.value) || Exceeds(c.output, total.value)
    then None else total
  }

  function AfterTotal(c: Counts, u: Usage): Counts {
    var total := if u.total.Present? then Reported(c, Safe(u.total)) else TokenSum(c.input, c.output);
    var unsafeCount := (u.prompt.Present? && Safe(u.prompt).None?)
                       || (OutputField(u).Present? && Safe(OutputField(u)).None?)
                       || (c.parts.Some? && c.input.None?);
    c.(total := if unsafeCount then None else total)
  }

  function AfterUsage(c: Counts, u: Usage): Counts {
    AfterTotal(AfterOutput(AfterParts(AfterPrompt(c, u), u), u), u)
  }

  function Metered(c: Counts, us: seq<Usage>): Counts
    decreases |us|
  {
    if us == [] then c else Metered(AfterUsage(c, us[0]), us[1..])
  }

  function Unmetered(noCacheWrite: bool): Counts {
    Counts(None, None, None, None, None, None, noCacheWrite)
  }

  predicate Bounded(o: Option<nat>) {
    o.Some? ==> o.value <= I64_MAX
  }

  /** Known counts fit a signed 64-bit integer, and the known cache counts fit in a known input. */
  predicate Consistent(c: Counts) {
    && Bounded(c.input) && Bounded(c.output) && Bounded(c.cached) && Bounded(c.written) && Bounded(c.total)
    && (c.parts.Some? ==> Bounded(c.parts.value.uncached) && Bounded(c.parts.value.read) && Bounded(c.parts.value.written))
    && (c.input.Some? && c.cached.Some? ==> c.cached.value <= c.input.value)
    && (c.input.Some? && c.written.Some? ==> c.written.value <= c.input.value)
    && (c.input.Some? && c.cached.Some? && c.written.Some? ==> c.cached.value + c.written.value <= c.input.value)
  }

  /** A known total is the sum of a known input and output, unless that sum is out of range. */
  predicate Additive(c: Counts) {
    c.total.Some? && c.input.Some? && c.output.Some? ==>
      && c.input.value <= c.total.value && c.output.value <= c.total.value
      && (c.total.value == c.input.value + c.output.value <==> c.input.value + c.output.value <= I64_MAX)
  }

  lemma PromptKeeps(c: Counts, u: Usage)
    requires Consistent(c)
    ensures Consistent(AfterPrompt(c, u))
  {
  }

  lemma PartsKeep(c: Counts, u: Usage)
    requires Consistent(c)
    ensures Consistent(AfterParts(c, u))
  {
  }

  lemma OutputKeeps(c: Counts, u: Usage)
    requires Consistent(c)
    ensures Consistent(AfterOutput(c, u))
  {
  }

  lemma TotalAdds(c: Counts, u: Usage)
    requires Consistent(c)
    ensures Consistent(AfterTotal(c, u)) && Additive(AfterTotal(c, u))
  {
    var total := if u.total.Present? then Reported(c, Safe(u.total)) else TokenSum(c.input, c.output);
    assert Bounded(total);
    assert Additive(c.(total := total)) && Additive(c.(total := None));
  }

  lemma UsageKeeps(c: Counts, u: Usage)
    requires Consistent(c)
    ensures Consistent(AfterUsage(c, u)) && Additive(AfterUsage(c, u))
  {
    hide AfterPrompt, AfterParts, AfterOutput, AfterTotal, Consistent, Additive;
    PromptKeeps(c, u);
    PartsKeep(AfterPrompt(c, u), u);
    OutputKeeps(AfterParts(AfterPrompt(c, u), u), u);
    TotalAdds(AfterOutput(AfterParts(AfterPrompt(c, u), u), u), u);
  }

  /** Over every sequence of events, of either form or mixed. The total is exactly the sum whenever the sum is in
      range; `TotalWithoutSum` shows that it need not be when it is not. */
  lemma {:induction false} TokensAddUp(c: Counts, us: seq<Usage>)
    requires Consistent(c) && Additive(c)
    ensures Consistent(Metered(c, us)) && Additive(Metered(c, us))
    decreases |us|
  {
    if us != [] {
      UsageKeeps(c, us[0]);
      TokensAddUp(AfterUsage(c, us[0]), us[1..]);
    }
  }

  /* ---- Which report a count comes from ---- */

  /** The last report of one field, as far as it could be read; None when it was never reported. */
  function LastReport(us: seq<Usage>, field: Usage -> Field): Option<nat> {
    if us == [] then None
    else if field(us[|us| - 1]).Present? then Safe(field(us[|us| - 1]))
    else LastReport(us[..|us| - 1], field)
  }

  function InputField(u: Usage): Field { u.input }
  function ReadField(u: Usage): Field { u.cacheRead }
  function CreationField(u: Usage): Field { u.cacheCreation }

  predicate Separate(u: Usage) {
    u.prompt.Absent?
  }

  lemma {:induction false} MeteredSnoc(c: Counts, us: seq<Usage>, u: Usage)
    ensures Metered(c, us + [u]) == AfterUsage(Metered(c, us), u)
    decreases |us|
  {
    hide AfterUsage;
    if us == [] {
      assert [u][1..] == [];
      assert Metered(AfterUsage(c, u), []) == AfterUsage(c, u);
      assert [] + [u] == [u];
    } else {
      assert (us + [u])[1..] == us[1..] + [u];
      MeteredSnoc(AfterUsage(c, us[0]), us[1..], u);
    }
  }

  /** Where input is reported apart from the cache, each part is the last one reported, in whatever events the reports
      came, and the input is their sum, unknown until all three are known. */
  lemma {:induction false} SeparateCounts(noCacheWrite: bool, us: seq<Usage>)
    requires forall i | 0 <= i < |us| :: Separate(us[i])
    ensures var c := Metered(Unmetered(noCacheWrite), us);
      && c.cached == LastReport(us, ReadField) && c.written == LastReport(us, CreationField)
      && c.input == TokenSum(TokenSum(LastReport(us, InputField), LastReport(us, ReadField)), LastReport(us, CreationField))
      && c.output == LastReport(us, OutputField)
      && (if c.parts.Some? then c.parts.value == Parts(LastReport(us, InputField), c.cached, c.written)
          else LastReport(us, InputField).None? && c.cached.None? && c.written.None?)
    decreases |us|
  {
    hide Safe, TokenSum, AfterTotal;
    if us != [] {
      var init, last := us[..|us| - 1], us[|us| - 1];
      SeparateCounts(noCacheWrite, init);
      assert us == init + [last];
      MeteredSnoc(Unmetered(noCacheWrite), init, last);
      TotalAlone(AfterOutput(AfterParts(Metered(Unmetered(noCacheWrite), init), last), last), last);
    } else {
      assert TokenSum(TokenSum(None, None), None).None? by { NothingToSum(); }
    }
  }

  /** `count` is what can be read of a field: its number, when it has one that fits a signed 64-bit integer. */
  predicate Reads(field: Field, count: Option<nat>) {
    match field
    case Present(Some(n)) => count == if n <= I64_MAX then Some(n) else None
    case _ => count == None
  }

  lemma SafeReads(field: Field)
    ensures Reads(field, Safe(field))
  {
  }

  /** The cache counts that were read fit into an input that was read. */
  predicate CacheFits(input: Option<nat>, cached: Option<nat>, written: Option<nat>) {
    input.Some? ==>
      && (cached.Some? ==> cached.value <= input.value) && (written.Some? ==> written.value <= input.value)
      && (cached.Some? && written.Some? ==> cached.value + written.value <= input.value)
  }

  /** No input is reported, in either form. */
  predicate Silent(u: Usage) {
    u.prompt.Absent? && u.input.Absent? && u.cacheRead.Absent? && u.cacheCreation.Absent?
  }

  /** Where input is reported as a prompt that includes its cache, the counts are those of the last such event, each from
      its own field. A missing cache-write count is zero for a provider known to have none, and unknown otherwise; and
      cache counts that do not fit into the prompt are both unknown. */
  lemma {:induction false} InclusiveCounts(
    c: Counts, u: Usage, later: seq<Usage>, input: Option<nat>, cached: Option<nat>, written: Option<nat>)
    requires u.prompt.Present? && u.input.Absent? && u.cacheRead.Absent? && u.cacheCreation.Absent?
    requires forall i | 0 <= i < |later| :: Silent(later[i])
    requires Reads(u.prompt, input) && Reads(u.promptCached, cached)
    requires u.cacheWrite.Absent? ==> written == if c.noCacheWrite then Some(0) else None
    requires u.cacheWrite.Present? ==> Reads(u.cacheWrite, written)
    ensures var c' := Metered(c, [u] + later);
      && c'.input == input && c'.noCacheWrite == c.noCacheWrite
      && c'.cached == (if CacheFits(input, cached, written) then cached else None)
      && c'.written == (if CacheFits(input, cached, written) then written else None)
    decreases |later|
  {
    if later == [] {
      assert ([u] + later)[1..] == [];
      PromptCounts(c, u);
    } else {
      var init, last := later[..|later| - 1], later[|later| - 1];
      InclusiveCounts(c, u, init, input, cached, written);
      assert [u] + later == ([u] + init) + [last];
      MeteredSnoc(c, [u] + init, last);
      SilentKeeps(Metered(c, [u] + init), last);
    }
  }

  lemma PromptCounts(c: Counts, u: Usage)
    requires u.prompt.Present? && u.input.Absent? && u.cacheRead.Absent? && u.cacheCreation.Absent?
    ensures Metered(c, [u]) == AfterUsage(c, u)
    ensures var written := if u.cacheWrite.Absent? then (if c.noCacheWrite then Some(0) else None) else Safe(u.cacheWrite);
      var c' := AfterUsage(c, u);
      && c'.input == Safe(u.prompt) && c'.noCacheWrite == c.noCacheWrite
      && c'.cached == (if CacheFits(Safe(u.prompt), Safe(u.promptCached), written) then Safe(u.promptCached) else None)
      && c'.written == (if CacheFits(Safe(u.prompt), Safe(u.promptCached), written) then written else None)
  {
    assert [u][1..] == [];
    hide Safe;
  }

  lemma SilentKeeps(c: Counts, u: Usage)
    requires Silent(u)
    ensures var c' := AfterUsage(c, u);
      c'.input == c.input && c'.cached == c.cached && c'.written == c.written && c'.noCacheWrite == c.noCacheWrite
  {
  }

  /** The output is the last one reported, under either of its names. */
  lemma {:induction false} LastOutput(c: Counts, before: seq<Usage>, u: Usage, later: seq<Usage>, output: Option<nat>)
    requires forall i | 0 <= i < |later| :: later[i].completion.Absent? && later[i].output.Absent?
    requires if u.completion.Present? then Reads(u.completion, output) else u.output.Present? && Reads(u.output, output)
    ensures Metered(c, before + [u] + later).output == output
    decreases |later|
  {
    if later == [] {
      assert before + [u] + later == before + [u];
      MeteredSnoc(c, before, u);
    } else {
      var init, last := later[..|later| - 1], later[|later| - 1];
      LastOutput(c, before, u, init, output);
      assert before + [u] + later == (before + [u] + init) + [last];
      MeteredSnoc(c, before + [u] + init, last);
    }
  }

  /** A count of this event, or of an earlier one, stands in the way of a total. */
  predicate Unreadable(c: Counts, u: Usage) {
    || (u.prompt.Present? && Reads(u.prompt, None))
    || (u.completion.Present? && Reads(u.completion, None))
    || (u.completion.Absent? && u.output.Present? && Reads(u.output, None))
    || (c.parts.Some? && c.input.None?)
  }

  /** The total after an event: where none is reported it is the sum, and a reported one is believed when nothing known
      contradicts it. */
  lemma TotalCounts(c: Counts, u: Usage, reported: Option<nat>)
    requires Consistent(c) && Reads(u.total, reported)
    ensures var c' := AfterUsage(c, u);
      var sum := if c'.input.Some? && c'.output.Some? && c'.input.value + c'.output.value <= I64_MAX
                 then Some(c'.input.value + c'.output.value) else None;
      c'.total == if Unreadable(c', u) then None
                  else if u.total.Absent? then sum
                  else if && reported.Some? && (sum.Some? ==> sum == reported)
                          && (c'.input.Some? ==> c'.input.value <= reported.value)
                          && (c'.output.Some? ==> c'.output.value <= reported.value)
                  then reported else None
  {
    UsageKeeps(c, u);
    hide AfterPrompt, AfterParts, AfterOutput, Consistent, Additive;
    var before := AfterOutput(AfterParts(AfterPrompt(c, u), u), u);
    TotalAlone(before, u);
    SumIs(before.input, before.output);
  }

  lemma SumIs(a: Option<nat>, b: Option<nat>)
    ensures TokenSum(a, b) == if a.Some? && b.Some? && a.value + b.value <= I64_MAX then Some(a.value + b.value) else None
  {
  }

  /** What one line does to the meter, field by field. */
  lemma LineCounts(parse: string -> Option<Event>, protocol: Protocol, m: Meter, line: string)
    ensures var m' := AfterLine(parse, protocol, m, line);
      var event := if |line| >= 5 && line[..5] == "data:" then parse(line[5..]) else None;
      var error := event.Some? && event.value.errorObject
                   && (event.value.kind == Some("error") || event.value.members == 1);
      && m'.counts == (if event.Some? && !error && event.value.usage.Some? then Metered(m.counts, [event.value.usage.value])
                       else m.counts)
      && (m'.failed <==> m.failed || error)
  {
    if "data:" <= line && parse(line[5..]).Some? && parse(line[5..]).value.usage.Some? {
      assert [parse(line[5..]).value.usage.value][1..] == [];
    }
    hide AfterUsage;
  }

  lemma TotalAlone(c: Counts, u: Usage)
    ensures AfterTotal(c, u) == c.(total := AfterTotal(c, u).total)
  {
  }

  lemma NothingToSum()
    ensures TokenSum(TokenSum(None, None), None).None?
  {
  }

  /** A provider that reports the largest count for both input and total, and one output token, is believed. */
  lemma TotalWithoutSum()
    ensures var most := Present(Some(I64_MAX));
      var u := Usage(most, Absent, Absent, Absent, Absent, Absent, Present(Some(1)), Absent, most);
      var c := Metered(Unmetered(false), [u]);
      c.total == Some(I64_MAX) && c.input == Some(I64_MAX) && c.output == Some(1)
  {
    var most := Present(Some(I64_MAX));
    var u := Usage(most, Absent, Absent, Absent, Absent, Absent, Present(Some(1)), Absent, most);
    assert [u][1..] == [];
    assert Metered(Unmetered(false), [u]) == AfterUsage(Unmetered(false), u);
  }

  /* ---- Lines ---- */

  datatype Meter = Meter(counts: Counts, failed: bool, ended: bool)

  predicate Space(c: char) {
    c == ' ' || c == '\t' || c == '\n' || c == '\r' || c == 12 as char
  }

  function TrimAscii(s: string): string {
    if s != "" && Space(s[0]) then TrimAscii(s[1..])
    else if s != "" && Space(s[|s| - 1]) then TrimAscii(s[..|s| - 1])
    else s
  }

  predicate AllSpace(s: string) {
    forall c | c in s :: Space(c)
  }

  ghost predicate Trims(s: string, inner: string) {
    exists before, after :: AllSpace(before) && AllSpace(after) && s == before + inner + after
  }

  lemma TrimsMore(s: string, inner: string, c: char)
    requires Trims(s, inner) && Space(c)
    ensures Trims([c] + s, inner) && Trims(s + [c], inner)
  {
    var before, after :| AllSpace(before) && AllSpace(after) && s == before + inner + after;
    assert AllSpace([c] + before) && [c] + s == ([c] + before) + inner + after;
    assert AllSpace(after + [c]) && s + [c] == before + inner + (after + [c]);
  }

  /** Trimming takes white space from both ends, all of it, and nothing else. */
  lemma {:induction false} TrimIsInner(s: string)
    ensures Trims(s, TrimAscii(s))
    ensures TrimAscii(s) != "" ==> !Space(TrimAscii(s)[0]) && !Space(TrimAscii(s)[|TrimAscii(s)| - 1])
    decreases |s|
  {
    hide Space, Trims;
    if s != "" && Space(s[0]) {
      TrimIsInner(s[1..]);
      TrimsMore(s[1..], TrimAscii(s), s[0]);
      assert s == [s[0]] + s[1..];
    } else if s != "" && Space(s[|s| - 1]) {
      TrimIsInner(s[..|s| - 1]);
      TrimsMore(s[..|s| - 1], TrimAscii(s), s[|s| - 1]);
      assert s == s[..|s| - 1] + [s[|s| - 1]];
    } else {
      TrimsNothing(s);
    }
  }

  lemma TrimsNothing(s: string)
    ensures Trims(s, s)
  {
    assert AllSpace("") && s == "" + s + "";
  }

  predicate IsError(e: Event) {
    e.errorObject && (e.kind == Some("error") || e.members == 1)
  }

  /** What one complete line does. Only `data:` lines count; an error object ends the metering of its own line. */
  function AfterLine(parse: string -> Option<Event>, protocol: Protocol, m: Meter, line: string): Meter {
    if !("data:" <= line) then m
    else
      var data := line[5..];
      var done := m.(ended := m.ended || (protocol.OpenAi? && TrimAscii(data) == "[DONE]"));
      match parse(data)
      case None => done
      case Some(e) =>
        if IsError(e) then done.(failed := true)
        else
          done.(ended := done.ended || (protocol.Anthropic? && e.kind == Some("message_stop")),
                counts := if e.usage.Some? then AfterUsage(m.counts, e.usage.value) else m.counts)
  }

  /** The complete lines of a stream, without their line feeds, and what follows the last of them. */
  function Lines(s: string): seq<string> {
    if s == "" then []
    else if s[|s| - 1] == '\n' then Lines(s[..|s| - 1]) + [Rest(s[..|s| - 1])]
    else Lines(s[..|s| - 1])
  }

  function Rest(s: string): string {
    if s == "" || s[|s| - 1] == '\n' then "" else Rest(s[..|s| - 1]) + [s[|s| - 1]]
  }

  function Unlines(lines: seq<string>): string {
    if lines == [] then "" else Unlines(lines[..|lines| - 1]) + lines[|lines| - 1] + "\n"
  }

  /** `Lines` and `Rest` take the stream apart, losing and inventing nothing. */
  lemma {:induction false} LinesAreTheStream(s: string)
    ensures s == Unlines(Lines(s)) + Rest(s)
    ensures '\n' !in Rest(s) && forall l | l in Lines(s) :: '\n' !in l
  {
    if s != "" {
      var init := s[..|s| - 1];
      LinesAreTheStream(init);
      assert s == init + [s[|s| - 1]];
    }
  }

  function Kept(lines: seq<string>): seq<string> {
    if lines == [] then []
    else Kept(lines[..|lines| - 1]) + if |lines[|lines| - 1]| <= LINE_LIMIT then [lines[|lines| - 1]] else []
  }

  function AfterLines(parse: string -> Option<Event>, protocol: Protocol, m: Meter, lines: seq<string>): Meter {
    if lines == [] then m
    else AfterLine(parse, protocol, AfterLines(parse, protocol, m, lines[..|lines| - 1]), lines[|lines| - 1])
  }

  /* ---- The incremental parser ---- */

  datatype Scan = Scan(meter: Meter, pending: string, discard: bool)

  function AfterByte(parse: string -> Option<Event>, protocol: Protocol, s: Scan, byte: char): Scan {
    if byte == '\n' then
      Scan(if s.discard then s.meter else AfterLine(parse, protocol, s.meter, s.pending), "", false)
    else if s.discard then s
    else if |s.pending| < LINE_LIMIT then s.(pending := s.pending + [byte])
    else s.(pending := "", discard := true)
  }

  function AfterBytes(parse: string -> Option<Event>, protocol: Protocol, s: Scan, bytes: string): Scan {
    if bytes == "" then s
    else AfterByte(parse, protocol, AfterBytes(parse, protocol, s, bytes[..|bytes| - 1]), bytes[|bytes| - 1])
  }

  function AfterChunks(parse: string -> Option<Event>, protocol: Protocol, s: Scan, chunks: seq<string>): Scan {
    if chunks == [] then s
    else AfterBytes(parse, protocol, AfterChunks(parse, protocol, s, chunks[..|chunks| - 1]), chunks[|chunks| - 1])
  }

  function Concat(chunks: seq<string>): string {
    if chunks == [] then "" else Concat(chunks[..|chunks| - 1]) + chunks[|chunks| - 1]
  }

  lemma {:induction false} BytesSplit(parse: string -> Option<Event>, protocol: Protocol, s: Scan, a: string, b: string)
    ensures AfterBytes(parse, protocol, s, a + b) == AfterBytes(parse, protocol, AfterBytes(parse, protocol, s, a), b)
  {
    if b == "" {
      assert a + b == a;
    } else {
      assert (a + b)[..|a + b| - 1] == a + b[..|b| - 1];
      BytesSplit(parse, protocol, s, a, b[..|b| - 1]);
    }
  }

  /** What the parser holds after a whole stream. */
  function Scanned(parse: string -> Option<Event>, protocol: Protocol, m: Meter, stream: string): Scan {
    Scan(AfterLines(parse, protocol, m, Kept(Lines(stream))),
         if |Rest(stream)| <= LINE_LIMIT then Rest(stream) else "",
         |Rest(stream)| > LINE_LIMIT)
  }

  lemma {:induction false} ScanIsLineByLine(parse: string -> Option<Event>, protocol: Protocol, m: Meter,
      stream: string)
    ensures AfterBytes(parse, protocol, Scan(m, "", false), stream) == Scanned(parse, protocol, m, stream)
  {
    if stream != "" {
      var init := stream[..|stream| - 1];
      ScanIsLineByLine(parse, protocol, m, init);
      if stream[|stream| - 1] == '\n' {
        assert Lines(stream)[..|Lines(stream)| - 1] == Lines(init);
        var kept := Kept(Lines(stream));
        if |Rest(init)| <= LINE_LIMIT {
          assert kept == Kept(Lines(init)) + [Rest(init)];
          assert kept[..|kept| - 1] == Kept(Lines(init));
        } else {
          assert kept == Kept(Lines(init));
        }
      }
    }
  }

  /** However the bytes are cut into chunks, the result is that of handling, in order, each complete line of at most
      65536 bytes; the buffer never holds more than that. */
  lemma {:induction false} ChunkingIsIrrelevant(
    parse: string -> Option<Event>, protocol: Protocol, m: Meter, chunks: seq<string>)
    ensures AfterChunks(parse, protocol, Scan(m, "", false), chunks) == Scanned(parse, protocol, m, Concat(chunks))
    ensures |AfterChunks(parse, protocol, Scan(m, "", false), chunks).pending| <= LINE_LIMIT
  {
    ChunksAreTheStream(parse, protocol, Scan(m, "", false), chunks);
    ScanIsLineByLine(parse, protocol, m, Concat(chunks));
  }

  lemma {:induction false} ChunksAreTheStream(
    parse: string -> Option<Event>, protocol: Protocol, s: Scan, chunks: seq<string>)
    ensures AfterChunks(parse, protocol, s, chunks) == AfterBytes(parse, protocol, s, Concat(chunks))
  {
    if chunks != [] {
      var init := chunks[..|chunks| - 1];
      ChunksAreTheStream(parse, protocol, s, init);
      BytesSplit(parse, protocol, s, Concat(init), chunks[|chunks| - 1]);
    }
  }
}
