/** The unsaved chat history: what the desktop sends, and what the core accepts. */
module HistoryContract {
  import opened Common
  import opened JsonValues
  import opened ContentPolicy
  import opened Attachments

  const BYTE_LIMIT := 100_000
  const MESSAGE_LIMIT := 20

  datatype Role = User | Assistant

  datatype Entry = Entry(role: Role, text: string, attachments: seq<TextAttachment>)

  /** The encoded size of some attachments, the same on both sides. */
  type Wire = seq<TextAttachment> -> nat

  function Size(e: Entry, wire: Wire): nat {
    |e.text| + if e.attachments == [] then 0 else wire(e.attachments)
  }

  function Total(h: seq<Entry>, wire: Wire): nat {
    if h == [] then 0 else Size(h[0], wire) + Total(h[1..], wire)
  }

  /** What a history costs: the bytes of every text, and the encoded size of the files of every entry that has some. */
  lemma {:induction false} TotalIs(a: seq<Entry>, b: seq<Entry>, wire: Wire)
    ensures Total(a + b, wire) == Total(a, wire) + Total(b, wire)
    ensures |a| == 1 && a[0].attachments == [] ==> Total(a, wire) == |a[0].text|
    ensures |a| == 1 && a[0].attachments != [] ==> Total(a, wire) == |a[0].text| + wire(a[0].attachments)
  {
    if a == [] {
      assert a + b == b;
    } else {
      assert (a + b)[1..] == a[1..] + b;
      TotalIs(a[1..], b, wire);
      assert |a| == 1 ==> a[1..] == [];
    }
  }

  function RoleAt(i: nat): Role {
    if i % 2 == 0 then User else Assistant
  }

  predicate Alternates(h: seq<Entry>) {
    |h| % 2 == 0 && forall i | 0 <= i < |h| :: h[i].role == RoleAt(i)
  }

  /** What may be sent together with a message, as far as the desktop looks. */
  predicate Sendable(message: string, h: seq<Entry>, wire: Wire) {
    |h| <= MESSAGE_LIMIT && Alternates(h) && (h != [] ==> |message| + Total(h, wire) <= BYTE_LIMIT)
  }

  /** What the core demands. */
  predicate Acceptable(message: string, h: seq<Entry>, wire: Wire, blank: string -> bool) {
    && !blank(message) && |message| + Total(h, wire) <= BYTE_LIMIT && |h| <= MESSAGE_LIMIT && |h| % 2 == 0
    && forall i | 0 <= i < |h| :: Expected(h[i], i, blank)
  }

  predicate Expected(e: Entry, i: nat, blank: string -> bool) {
    e.role == RoleAt(i) && !blank(e.text) && (e.role == Assistant ==> e.attachments == [])
  }

  lemma {:induction false} TotalSuffix(h: seq<Entry>, k: nat, wire: Wire)
    requires k <= |h|
    ensures Total(h[k..], wire) <= Total(h, wire)
    decreases k
  {
    if k > 0 {
      assert h[k - 1..][1..] == h[k..];
      TotalSuffix(h, k - 1, wire);
    } else {
      assert h[0..] == h;
    }
  }

  lemma {:induction false} TotalSnoc(h: seq<Entry>, e: Entry, wire: Wire)
    ensures Total(h + [e], wire) == Total(h, wire) + Size(e, wire)
  {
    if h == [] {
      assert (h + [e])[1..] == [];
    } else {
      assert (h + [e])[1..] == h[1..] + [e];
      TotalSnoc(h[1..], e, wire);
    }
  }

  function Suffix(entries: seq<Entry>, n: nat): seq<Entry>
    requires n <= |entries|
  {
    entries[|entries| - n..]
  }

  /** A pair that does not belong, or does not fit, stops every longer suffix too. */
  lemma Blocked(entries: seq<Entry>, n: nat, longer: nat, message: string, wire: Wire)
    requires n % 2 == 0 && n + 2 <= longer <= |entries| && !PairFits(entries, n, message, wire)
    ensures !Sendable(message, Suffix(entries, longer), wire)
  {
    hide Total;
    var h := Suffix(entries, longer);
    var k := longer - (n + 2);
    assert h[k..] == Suffix(entries, n + 2);
    TotalSuffix(h, k, wire);
    if Alternates(h) {
      assert h[k] == entries[|entries| - n - 2] && h[k + 1] == entries[|entries| - n - 1];
      assert k % 2 == 0 && RoleAt(k) == User && RoleAt(k + 1) == Assistant;
    }
  }

  /** `history` is the longest suffix of the log that may be sent. */
  predicate IsBuilt(entries: seq<Entry>, message: string, history: seq<Entry>, wire: Wire) {
    && |history| <= |entries| && history == Suffix(entries, |history|) && Sendable(message, history, wire)
    && forall n | |history| < n <= |entries| :: !Sendable(message, Suffix(entries, n), wire)
  }

  /** The desktop sends the longest suffix of its log that may be sent. */
  method BuildHistory(entries: seq<Entry>, message: string, wire: Wire) returns (history: seq<Entry>)
    ensures IsBuilt(entries, message, history, wire)
  {
    hide Sendable, Suffix, Total, Size;
    NothingSendable(message, entries, wire);
    var bytes := |message|;
    history := [];
    var i := |entries| - 2;
    while i >= 0 && |history| < MESSAGE_LIMIT
      invariant |history| <= |entries| && i == |entries| - |history| - 2 && |history| % 2 == 0
      invariant history == Suffix(entries, |history|) && Sendable(message, history, wire)
      invariant bytes == |message| + Total(history, wire)
    {
      var user, reply := entries[i], entries[i + 1];
      OnePairMore(entries, |history|, wire);
      if user.role != User || reply.role != Assistant || bytes + Size(user, wire) + Size(reply, wire) > BYTE_LIMIT {
        NoLonger(entries, |history|, message, wire);
        return;
      }
      PairSendable(message, user, reply, history, wire);
      bytes := bytes + Size(user, wire) + Size(reply, wire);
      history := [user, reply] + history;
      i := i - 2;
    }
    NoLonger(entries, |history|, message, wire);
  }

  predicate PairFits(entries: seq<Entry>, n: nat, message: string, wire: Wire)
    requires n + 2 <= |entries|
  {
    && entries[|entries| - n - 2].role == User && entries[|entries| - n - 1].role == Assistant
    && |message| + Total(Suffix(entries, n + 2), wire) <= BYTE_LIMIT
  }

  lemma OnePairMore(entries: seq<Entry>, n: nat, wire: Wire)
    requires n + 2 <= |entries|
    ensures var user, reply := entries[|entries| - n - 2], entries[|entries| - n - 1];
      && Suffix(entries, n + 2) == [user, reply] + Suffix(entries, n)
      && Total(Suffix(entries, n + 2), wire) == Size(user, wire) + Size(reply, wire) + Total(Suffix(entries, n), wire)
  {
    var both := Suffix(entries, n + 2);
    assert both[1..][1..] == Suffix(entries, n);
  }

  lemma NoLonger(entries: seq<Entry>, n: nat, message: string, wire: Wire)
    requires n <= |entries| && n % 2 == 0
    requires n + 2 > |entries| || n >= MESSAGE_LIMIT || !PairFits(entries, n, message, wire)
    ensures forall longer | n < longer <= |entries| :: !Sendable(message, Suffix(entries, longer), wire)
  {
    forall longer | n < longer <= |entries| ensures !Sendable(message, Suffix(entries, longer), wire) {
      hide Total;
      if longer % 2 == 0 && n < MESSAGE_LIMIT {
        Blocked(entries, n, longer, message, wire);
      }
    }
  }

  lemma NothingSendable(message: string, entries: seq<Entry>, wire: Wire)
    ensures Sendable(message, [], wire) && Suffix(entries, 0) == [] && Total([], wire) == 0
  {
  }

  lemma PairSendable(message: string, user: Entry, reply: Entry, h: seq<Entry>, wire: Wire)
    requires Sendable(message, h, wire) && |h| < MESSAGE_LIMIT && user.role == User && reply.role == Assistant
    requires |message| + Total([user, reply] + h, wire) <= BYTE_LIMIT
    ensures Sendable(message, [user, reply] + h, wire)
  {
    hide Total;
    PairAlternates(user, reply, h);
  }

  lemma PairAlternates(user: Entry, reply: Entry, h: seq<Entry>)
    requires Alternates(h) && user.role == User && reply.role == Assistant
    ensures Alternates([user, reply] + h)
  {
    var both := [user, reply] + h;
    assert RoleAt(0) == User && RoleAt(1) == Assistant;
    forall i | 2 <= i < |both| ensures both[i].role == RoleAt(i) {
      assert both[i] == h[i - 2] && RoleAt(i) == RoleAt(i - 2);
    }
  }

  /** The core checks a history as it turns it into provider messages. */
  method ChatMessages(message: string, history: seq<Entry>, wire: Wire,
      blank: string -> bool) returns (r: Option<seq<Json>>)
    ensures r.Some? <==> Acceptable(message, history, wire, blank)
    ensures r.Some? ==> r.value == Rendered(history) + [RenderedAs("user", Text(message))]
  {
    hide RenderedAs, Rendered, RoleAt, Total, Size;
    NoHistory(wire);
    if blank(message) || |message| > BYTE_LIMIT {
      TotalPrefix(history, 0, wire);
      return None;
    }
    if |history| > MESSAGE_LIMIT || |history| % 2 != 0 { return None; }
    var bytes, messages := |message|, [];
    for i := 0 to |history|
      invariant bytes == |message| + Total(history[..i], wire) <= BYTE_LIMIT && messages == Rendered(history[..i])
      invariant forall j | 0 <= j < i :: Expected(history[j], j, blank)
    {
      var entry := history[i];
      assert history[..i + 1] == history[..i] + [entry];
      TotalSnoc(history[..i], entry, wire);
      TotalPrefix(history, i + 1, wire);
      RenderedSnoc(history[..i], entry);
      if entry.role != RoleAt(i) || blank(entry.text) { return None; }
      bytes := bytes + Size(entry, wire);
      if bytes > BYTE_LIMIT { return None; }
      if entry.role == Assistant && entry.attachments != [] { return None; }
      messages := messages + [RenderedEntry(entry)];
    }
    assert history[..|history|] == history;
    r := Some(messages + [RenderedAs("user", Text(message))]);
  }

  lemma NoHistory(wire: Wire)
    ensures Total([], wire) == 0 && Rendered([]) == []
  {
  }

  lemma RenderedSnoc(h: seq<Entry>, e: Entry)
    ensures Rendered(h + [e]) == Rendered(h) + [RenderedEntry(e)]
  {
    assert (h + [e])[..|h|] == h;
  }

  lemma {:induction false} TotalPrefix(h: seq<Entry>, k: nat, wire: Wire)
    requires k <= |h|
    ensures Total(h[..k], wire) <= Total(h, wire)
    decreases |h| - k
  {
    if k == |h| {
      assert h[..k] == h;
    } else {
      assert h[..k + 1] == h[..k] + [h[k]];
      TotalSnoc(h[..k], h[k], wire);
      TotalPrefix(h, k + 1, wire);
    }
  }

  function RenderedAs(role: string, content: Json): Json {
    Object([Member("content", content), Member("role", Text(role))])
  }

  /** A text with its files, the files as blocks after it. */
  function FileContent(text: string, files: seq<TextAttachment>): Json {
    if files == [] then Text(text) else Array([TextBlock(text)] + FileBlocks(files))
  }

  function RenderedEntry(e: Entry): Json {
    RenderedAs(if e.role == User then "user" else "assistant", FileContent(e.text, e.attachments))
  }

  function Rendered(h: seq<Entry>): seq<Json> {
    if h == [] then [] else Rendered(h[..|h| - 1]) + [RenderedEntry(h[|h| - 1])]
  }

  /** A message says what an entry says: its role, and its text alone or as a block before its files. */
  predicate Says(m: Json, e: Entry) {
    && Get(m, "role") == Some(Text(if e.role == User then "user" else "assistant"))
    && (e.attachments == [] ==> Get(m, "content") == Some(Text(e.text)))
    && (e.attachments != [] ==> Blocks(m) == [TextBlock(e.text)] + FileBlocks(e.attachments))
  }

  lemma EntrySays(e: Entry)
    ensures Says(RenderedEntry(e), e)
  {
    hide FileBlocks, TextBlock;
    RoleIs(if e.role == User then "user" else "assistant", FileContent(e.text, e.attachments));
  }

  /** Every entry becomes one message, in order. */
  lemma {:induction false} RenderedIs(h: seq<Entry>)
    ensures |Rendered(h)| == |h|
    ensures forall i | 0 <= i < |h| :: Says(Rendered(h)[i], h[i])
  {
    hide Says, RenderedEntry;
    if h != [] {
      RenderedIs(h[..|h| - 1]);
      EntrySays(h[|h| - 1]);
    }
  }

  lemma RoleIs(role: string, content: Json)
    ensures Get(RenderedAs(role, content), "role") == Some(Text(role))
    ensures Get(RenderedAs(role, content), "content") == Some(content)
  {
    var ms := RenderedAs(role, content).members;
    assert Lookup(ms, "role") == Lookup(ms[1..], "role");
  }

  /** The contract between the two: for a log of complete pairs that are not blank, and a message that may be sent at
      all, the history that the desktop builds is accepted, and it is the longest suffix of the log that would be. */
  lemma BuiltHistoryIsAccepted(log: seq<Entry>, message: string, history: seq<Entry>, wire: Wire, blank: string -> bool)
    requires Alternates(log)
    requires forall i | 0 <= i < |log| :: !blank(log[i].text) && (log[i].role == Assistant ==> log[i].attachments == [])
    requires !blank(message) && |message| <= BYTE_LIMIT
    requires IsBuilt(log, message, history, wire)
    ensures Acceptable(message, history, wire, blank)
    ensures forall n | |history| < n <= |log| :: !Acceptable(message, Suffix(log, n), wire, blank)
  {
    NoHistory(wire);
    assert history == Suffix(log, |history|);
    forall n | |history| < n <= |log| ensures !Acceptable(message, Suffix(log, n), wire, blank) {
      assert !Sendable(message, Suffix(log, n), wire);
    }
  }

  function AllFiles(h: seq<Entry>): seq<TextAttachment> {
    if h == [] then [] else AllFiles(h[..|h| - 1]) + h[|h| - 1].attachments
  }

  /** The files of a history survive the trip: preparing the rendered messages returns them all, in order. */
  lemma {:induction false} HistoryFilesSurvive(h: seq<Entry>)
    ensures FilesIn(BlocksIn(Rendered(h))) == Some(AllFiles(h))
  {
    hide FilesIn, RenderedEntry;
    NoMessage(_ => "");
    if h != [] {
      var init, last := h[..|h| - 1], h[|h| - 1];
      HistoryFilesSurvive(init);
      EntryFiles(last);
      assert Rendered(h)[..|Rendered(h)| - 1] == Rendered(init);
      FilesAppend(BlocksIn(Rendered(init)), Blocks(RenderedEntry(last)));
    }
  }

  lemma EntryFiles(e: Entry)
    ensures FilesIn(Blocks(RenderedEntry(e))) == Some(e.attachments)
  {
    hide IsFile, FileBlock, TextBlock, BlockFile;
    var content := FileContent(e.text, e.attachments);
    assert Get(RenderedEntry(e), "content") == Some(content);
    if e.attachments != [] {
      FilesRoundTrip(e.attachments);
      FilesAppend([TextBlock(e.text)], FileBlocks(e.attachments));
      TextIsNoFile(e.text);
      FilesSnoc([], TextBlock(e.text));
      assert [] + [TextBlock(e.text)] == [TextBlock(e.text)];
      BothLaws(Some([]), Some([]), None);
      BothLaws(Some(e.attachments), None, None);
    }
  }
}
