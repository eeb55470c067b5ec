/** Text attachments of a chat request: taken out of the body, quoted as text for the provider, returned for
    inspection. */
module Attachments {
  import opened Common
  import opened JsonValues
  import opened ContentPolicy

  datatype Refusal = InvalidAttachments | NoMessages | NeedsUserMessage | NeedsTextContent | InvalidFileBlock

  /** How a file is written for the provider; nothing is assumed of the text it gives. */
  type Quote = TextAttachment -> string

  /** An attachment as it is decoded: an object of exactly its three members, or an array of their three values. */
  function ParseFile(v: Json): Option<TextAttachment> {
    match v
    case Object(ms) =>
      var name, kind, text := Lookup(ms, "name"), Lookup(ms, "media_type"), Lookup(ms, "text");
      if |ms| == 3 && name.Some? && kind.Some? && text.Some? && name.value.Text? && kind.value.Text? && text.value.Text?
      then Some(TextAttachment(name.value.s, kind.value.s, text.value.s)) else None
    case Array(items) =>
      if |items| == 3 && items[0].Text? && items[1].Text? && items[2].Text?
      then Some(TextAttachment(items[0].s, items[1].s, items[2].s)) else None
    case _ => None
  }

  function ParseFiles(items: seq<Json>): Option<seq<TextAttachment>> {
    if items == [] then Some([])
    else
      var before, last := ParseFiles(items[..|items| - 1]), ParseFile(items[|items| - 1]);
      if before.None? || last.None? then None else Some(before.value + [last.value])
  }

  predicate IsFile(block: Json) {
    Get(block, "type") == Some(Text("omni_text_file"))
  }

  function BlockFile(block: Json): Option<TextAttachment> {
    if block.Object? then ParseFile(Object(Without(block.members, "type"))) else None
  }

  function FileBlock(f: TextAttachment): Json {
    Object([Member("media_type", Text(f.mediaType)), Member("name", Text(f.name)), Member("text", Text(f.text)),
            Member("type", Text("omni_text_file"))])
  }

  function TextBlock(text: string): Json {
    Object([Member("text", Text(text)), Member("type", Text("text"))])
  }

  /** A block as the provider gets it. */
  function OpenedBlock(block: Json, quote: Quote): Json {
    if IsFile(block) && BlockFile(block).Some? then TextBlock(quote(BlockFile(block).value)) else block
  }

  function OpenedBlocks(blocks: seq<Json>, quote: Quote): seq<Json> {
    if blocks == [] then []
    else OpenedBlocks(blocks[..|blocks| - 1], quote) + [OpenedBlock(blocks[|blocks| - 1], quote)]
  }

  function Blocks(message: Json): seq<Json> {
    var content := Get(message, "content");
    if content.Some? && content.value.Array? then content.value.items else []
  }

  function WithContent(message: Json, content: Json): Json
    requires message.Object?
  {
    Object(Put(message.members, "content", content))
  }

  function OpenedMessage(message: Json, quote: Quote): Json {
    var content := Get(message, "content");
    if content.Some? && content.value.Array? then WithContent(message, Array(OpenedBlocks(content.value.items, quote)))
    else message
  }

  function OpenedMessages(messages: seq<Json>, quote: Quote): seq<Json> {
    if messages == [] then []
    else OpenedMessages(messages[..|messages| - 1], quote) + [OpenedMessage(messages[|messages| - 1], quote)]
  }

  function BlocksIn(messages: seq<Json>): seq<Json> {
    if messages == [] then [] else BlocksIn(messages[..|messages| - 1]) + Blocks(messages[|messages| - 1])
  }

  /** The files among some blocks, in order; None when a file block is malformed. */
  function FilesIn(blocks: seq<Json>): Option<seq<TextAttachment>> {
    if blocks == [] then Some([])
    else
      var before, last := FilesIn(blocks[..|blocks| - 1]), blocks[|blocks| - 1];
      if before.None? || !IsFile(last) then before
      else if BlockFile(last).None? then None
      else Some(before.value + [BlockFile(last).value])
  }

  function FileBlocks(files: seq<TextAttachment>): seq<Json> {
    if files == [] then [] else FileBlocks(files[..|files| - 1]) + [FileBlock(files[|files| - 1])]
  }

  /** New attachments join the content of a user's message. */
  function AttachTo(message: Json, files: seq<TextAttachment>): Result<Json, Refusal> {
    if Get(message, "role") != Some(Text("user")) then Failure(NeedsUserMessage)
    else
      match Get(message, "content")
      case Some(Text(text)) => Success(WithContent(message, Array([TextBlock(text)] + FileBlocks(files))))
      case Some(Array(blocks)) => Success(WithContent(message, Array(blocks + FileBlocks(files))))
      case _ => Failure(NeedsTextContent)
  }

  function AttachToLast(messages: seq<Json>, files: seq<TextAttachment>): Result<seq<Json>, Refusal> {
    if files == [] then Success(messages)
    else if messages == [] then Failure(NeedsUserMessage)
    else
      var last := AttachTo(messages[|messages| - 1], files);
      if last.Failure? then Failure(last.error) else Success(messages[..|messages| - 1] + [last.value])
  }

  function NewFiles(body: Json): Option<seq<TextAttachment>> {
    match Get(body, "omni_attachments")
    case None => Some([])
    case Some(Array(items)) => ParseFiles(items)
    case _ => None
  }

  function WithoutNew(body: Json): seq<Member> {
    if body.Object? then Without(body.members, "omni_attachments") else []
  }

  function Messages(members: seq<Member>): Option<seq<Json>> {
    var m := Lookup(members, "messages");
    if m.Some? && m.value.Array? then Some(m.value.items) else None
  }

  function Prepared(body: Json, quote: Quote): Result<(Json, seq<TextAttachment>), Refusal> {
    if NewFiles(body).None? then Failure(InvalidAttachments)
    else if Messages(WithoutNew(body)).None? then Failure(NoMessages)
    else
      var attached := AttachToLast(Messages(WithoutNew(body)).value, NewFiles(body).value);
      if attached.Failure? then Failure(attached.error)
      else
        var files := FilesIn(BlocksIn(attached.value));
        if files.None? then Failure(InvalidFileBlock)
        else
          Success((Object(Put(WithoutNew(body), "messages", Array(OpenedMessages(attached.value, quote)))), files.value))
  }

  /* ---- Laws of the pieces ---- */

  function Both(a: Option<seq<TextAttachment>>, b: Option<seq<TextAttachment>>): Option<seq<TextAttachment>> {
    if a.None? || b.None? then None else Some(a.value + b.value)
  }

  lemma BothLaws(a: Option<seq<TextAttachment>>, b: Option<seq<TextAttachment>>, c: Option<seq<TextAttachment>>)
    ensures Both(Both(a, b), c) == Both(a, Both(b, c)) && Both(a, Some([])) == a == Both(Some([]), a)
  {
    if a.Some? {
      assert a.value + [] == a.value == [] + a.value;
      if b.Some? && c.Some? {
        assert (a.value + b.value) + c.value == a.value + (b.value + c.value);
      }
    }
  }

  function FileOf(block: Json): Option<seq<TextAttachment>> {
    if !IsFile(block) then Some([]) else if BlockFile(block).None? then None else Some([BlockFile(block).value])
  }

  lemma FilesSnoc(blocks: seq<Json>, block: Json)
    ensures FilesIn(blocks + [block]) == Both(FilesIn(blocks), FileOf(block))
  {
    assert (blocks + [block])[..|blocks|] == blocks;
    BothLaws(FilesIn(blocks), None, None);
  }

  lemma {:induction false} FilesAppend(a: seq<Json>, b: seq<Json>)
    ensures FilesIn(a + b) == Both(FilesIn(a), FilesIn(b))
  {
    BothLaws(FilesIn(a), None, None);
    if b == [] {
      assert a + b == a;
    } else {
      hide Both, FileOf, FilesIn;
      var init, last := b[..|b| - 1], b[|b| - 1];
      assert a + b == (a + init) + [last] && b == init + [last];
      FilesAppend(a, init);
      FilesSnoc(a + init, last);
      FilesSnoc(init, last);
      BothLaws(FilesIn(a), FilesIn(init), FileOf(last));
    }
  }

  /** Writing a file block and reading it back. */
  lemma FileRoundTrip(f: TextAttachment)
    ensures IsFile(FileBlock(f)) && BlockFile(FileBlock(f)) == Some(f)
  {
    var ms := FileBlock(f).members;
    assert Lookup(ms, "type") == Some(Text("omni_text_file")) by {
      assert Lookup(ms[1..], "type") == Lookup(ms[2..], "type") == Lookup(ms[3..], "type");
    }
    var rest := [ms[0], ms[1], ms[2]];
    assert Without(ms, "type") == rest by {
      assert Without(ms[3..], "type") == [];
      assert Without(ms[2..], "type") == [ms[2]];
      assert Without(ms[1..], "type") == [ms[1], ms[2]];
    }
    assert Lookup(rest, "name") == Lookup(rest[1..], "name");
    assert Lookup(rest, "text") == Lookup(rest[1..], "text") == Lookup(rest[2..], "text");
  }

  lemma {:induction false} FilesRoundTrip(files: seq<TextAttachment>)
    ensures FilesIn(FileBlocks(files)) == Some(files) && |FileBlocks(files)| == |files|
  {
    if files != [] {
      hide IsFile, BlockFile, FileBlock;
      var last := FileBlock(files[|files| - 1]);
      FilesRoundTrip(files[..|files| - 1]);
      FileRoundTrip(files[|files| - 1]);
      var blocks := FileBlocks(files);
      assert blocks[..|blocks| - 1] == FileBlocks(files[..|files| - 1]) && blocks[|blocks| - 1] == last;
      assert files[..|files| - 1] + [files[|files| - 1]] == files;
    }
  }

  lemma TextIsNoFile(text: string)
    ensures !IsFile(TextBlock(text))
  {
    var ms := TextBlock(text).members;
    assert Lookup(ms, "type") == Lookup(ms[1..], "type") == Some(Text("text"));
  }

  lemma ContentIs(message: Json, content: Json)
    requires Get(message, "content").Some?
    ensures Get(WithContent(message, content), "content") == Some(content)
    ensures content.Array? ==> Blocks(WithContent(message, content)) == content.items
    ensures forall key: string | key != "content" :: Get(WithContent(message, content), key) == Get(message, key)
  {
    forall key: string ensures Get(WithContent(message, content), key)
      == if key == "content" then Some(content) else Get(message, key)
    {
      GetPut(message.members, "content", content, key);
    }
  }

  /** What a file is decoded from, and what a file becomes for the provider: a text block of its quotation. */
  lemma OpenedFileIs(block: Json, f: TextAttachment, quote: Quote)
    requires block.Object? && Get(block, "type") == Some(Text("omni_text_file"))
    ensures BlockFile(block) == Some(f) ==>
      && Get(block, "name") == Some(Text(f.name)) && Get(block, "media_type") == Some(Text(f.mediaType))
      && Get(block, "text") == Some(Text(f.text))
      && Get(OpenedBlock(block, quote), "type") == Some(Text("text"))
      && Get(OpenedBlock(block, quote), "text") == Some(Text(quote(f)))
  {
    GetWithout(block.members, "type", "name");
    GetWithout(block.members, "type", "media_type");
    GetWithout(block.members, "type", "text");
    TextBlockIs(quote(f));
  }

  lemma TextBlockIs(text: string)
    ensures Get(TextBlock(text), "type") == Some(Text("text")) && Get(TextBlock(text), "text") == Some(Text(text))
  {
    var ms := TextBlock(text).members;
    assert Lookup(ms, "type") == Lookup(ms[1..], "type");
  }

  /** A new file is decoded from exactly three members, or from exactly three values in their order. */
  lemma ParsedIs(v: Json, f: TextAttachment)
    ensures ParseFile(v) == Some(f) <==>
      || (v.Object? && |v.members| == 3 && Get(v, "name") == Some(Text(f.name))
          && Get(v, "media_type") == Some(Text(f.mediaType)) && Get(v, "text") == Some(Text(f.text)))
      || (v.Array? && v.items == [Text(f.name), Text(f.mediaType), Text(f.text)])
  {
  }

  lemma {:induction false} ParsedEach(items: seq<Json>)
    ensures ParseFiles(items).None? <==> exists v | v in items :: ParseFile(v).None?
    ensures ParseFiles(items).Some? ==>
      && |ParseFiles(items).value| == |items|
      && forall i | 0 <= i < |items| :: ParseFile(items[i]) == Some(ParseFiles(items).value[i])
  {
    hide ParseFile;
    if items != [] {
      ParsedEach(items[..|items| - 1]);
      assert items == items[..|items| - 1] + [items[|items| - 1]];
    }
  }

  /** The new files of a request, in their order: none without the member, and undecodable if it is no array or one of
      them is not a file. */
  lemma NewFilesAre(body: Json)
    ensures var news, given := NewFiles(body), Get(body, "omni_attachments");
      && (given.None? ==> news == Some([]))
      && (news.None? <==> given.Some? && (given.value.Array? ==> exists v | v in given.value.items :: ParseFile(v).None?))
      && (news.Some? && given.Some? ==>
            && |news.value| == |given.value.items|
            && forall i | 0 <= i < |news.value| :: ParseFile(given.value.items[i]) == Some(news.value[i]))
  {
    if Get(body, "omni_attachments").Some? && Get(body, "omni_attachments").value.Array? {
      ParsedEach(Get(body, "omni_attachments").value.items);
    }
  }

  /** A message takes new files if it is a user's text or blocks. */
  predicate TakesFiles(m: Json) {
    && Get(m, "role") == Some(Text("user"))
    && Get(m, "content").Some? && (Get(m, "content").value.Text? || Get(m, "content").value.Array?)
  }

  /** New files join a user's message alone. They come after what it said: its text as one block, or its blocks. Its
      other members stay. */
  lemma AttachedMessage(message: Json, files: seq<TextAttachment>)
    ensures var r, content := AttachTo(message, files), Get(message, "content");
      && (r.Success? <==> TakesFiles(message))
      && (r.Failure? ==> r.error == if Get(message, "role") == Some(Text("user")) then NeedsTextContent else NeedsUserMessage)
      && (r.Success? ==>
            && (forall key: string | key != "content" :: Get(r.value, key) == Get(message, key))
            && Blocks(r.value)
               == (if content.value.Text? then [TextBlock(content.value.s)] else content.value.items) + FileBlocks(files))
  {
    hide FileBlock, TextBlock;
    var content := Get(message, "content");
    if content.Some? && (content.value.Text? || content.value.Array?) {
      var before := if content.value.Text? then [TextBlock(content.value.s)] else content.value.items;
      ContentIs(message, Array(before + FileBlocks(files)));
    }
  }

  lemma AttachedFiles(message: Json, files: seq<TextAttachment>)
    requires AttachTo(message, files).Success?
    ensures FilesIn(Blocks(AttachTo(message, files).value)) == Both(FilesIn(Blocks(message)), Some(files))
  {
    hide IsFile, BlockFile, FileBlock, TextBlock, WithContent;
    var content := Get(message, "content").value;
    FilesRoundTrip(files);
    var before := if content.Text? then [TextBlock(content.s)] else content.items;
    ContentIs(message, Array(before + FileBlocks(files)));
    FilesAppend(before, FileBlocks(files));
    if content.Text? {
      TextIsNoFile(content.s);
      assert FilesIn([]) == Some([]) && before[..0] == [];
    }
  }

  /** The files returned are those of the blocks already there, in message order, then the new attachments. */
  lemma NewFilesComeLast(messages: seq<Json>, files: seq<TextAttachment>)
    requires AttachToLast(messages, files).Success?
    ensures FilesIn(BlocksIn(AttachToLast(messages, files).value)) == Both(FilesIn(BlocksIn(messages)), Some(files))
  {
    BothLaws(FilesIn(BlocksIn(messages)), None, None);
    if files != [] {
      hide AttachTo, Blocks, FilesIn, Both;
      var init, last := messages[..|messages| - 1], messages[|messages| - 1];
      var attached := AttachTo(last, files).value;
      AttachedFiles(last, files);
      var all := init + [attached];
      assert all[..|all| - 1] == init && all[|all| - 1] == attached;
      FilesAppend(BlocksIn(init), Blocks(last));
      FilesAppend(BlocksIn(init), Blocks(attached));
      BothLaws(FilesIn(BlocksIn(init)), FilesIn(Blocks(last)), Some(files));
    }
  }

  lemma {:induction false} OpenedBlocksAt(blocks: seq<Json>, quote: Quote)
    requires FilesIn(blocks).Some?
    ensures |OpenedBlocks(blocks, quote)| == |blocks|
    ensures forall i | 0 <= i < |blocks| :: OpenedBlocks(blocks, quote)[i] == OpenedBlock(blocks[i], quote)
    ensures forall i | 0 <= i < |blocks| :: !IsFile(OpenedBlocks(blocks, quote)[i])
  {
    hide IsFile, BlockFile;
    if blocks != [] {
      OpenedBlocksAt(blocks[..|blocks| - 1], quote);
      var last := blocks[|blocks| - 1];
      if IsFile(last) {
        TextIsNoFile(quote(BlockFile(last).value));
      }
    }
  }

  lemma {:induction false} NoFiles(blocks: seq<Json>, quote: Quote)
    requires forall i | 0 <= i < |blocks| :: !IsFile(blocks[i])
    ensures FilesIn(blocks) == Some([]) && OpenedBlocks(blocks, quote) == blocks
  {
    if blocks != [] {
      NoFiles(blocks[..|blocks| - 1], quote);
    }
  }

  /** A message after opening: its files are gone, its other blocks and its other members are where they were. */
  lemma OpenedMessageKeeps(m: Json, quote: Quote)
    requires FilesIn(Blocks(m)).Some?
    ensures var m' := OpenedMessage(m, quote);
      && (forall key: string | key != "content" :: Get(m', key) == Get(m, key))
      && (Get(m, "content").None? || !Get(m, "content").value.Array? ==> m' == m)
      && |Blocks(m')| == |Blocks(m)|
      && (forall i | 0 <= i < |Blocks(m)| :: Blocks(m')[i] == OpenedBlock(Blocks(m)[i], quote) && !IsFile(Blocks(m')[i]))
      && FilesIn(Blocks(m')) == Some([]) && OpenedMessage(m', quote) == m'
  {
    hide IsFile, OpenedBlock;
    if Get(m, "content").Some? && Get(m, "content").value.Array? {
      var items := OpenedBlocks(Blocks(m), quote);
      OpenedBlocksAt(Blocks(m), quote);
      ContentIs(m, Array(items));
      NoFiles(items, quote);
      PutSame(OpenedMessage(m, quote).members, "content");
    }
  }

  lemma OpenedMessageOnce(m: Json, quote: Quote)
    requires FilesIn(Blocks(m)).Some?
    ensures FilesIn(Blocks(OpenedMessage(m, quote))) == Some([])
    ensures OpenedMessage(OpenedMessage(m, quote), quote) == OpenedMessage(m, quote)
  {
    OpenedMessageKeeps(m, quote);
  }

  /** Opening keeps every message in its place. */
  lemma {:induction false} OpenedMessagesKeep(messages: seq<Json>, quote: Quote)
    requires FilesIn(BlocksIn(messages)).Some?
    ensures |OpenedMessages(messages, quote)| == |messages|
    ensures forall i | 0 <= i < |messages| ::
      FilesIn(Blocks(messages[i])).Some? && OpenedMessages(messages, quote)[i] == OpenedMessage(messages[i], quote)
  {
    hide OpenedMessage, Blocks, FilesIn;
    if messages != [] {
      var init, last := messages[..|messages| - 1], messages[|messages| - 1];
      FilesAppend(BlocksIn(init), Blocks(last));
      OpenedMessagesKeep(init, quote);
    }
  }

  /** A second opening finds nothing to do. */
  lemma {:induction false} OpenedOnce(messages: seq<Json>, quote: Quote)
    requires FilesIn(BlocksIn(messages)).Some?
    ensures var out := OpenedMessages(messages, quote);
      FilesIn(BlocksIn(out)) == Some([]) && OpenedMessages(out, quote) == out
  {
    hide OpenedMessage, OpenedMessages, Blocks, BlocksIn, FilesIn, OpenedBlock;
    NoMessage(quote);
    BothLaws(Some([]), None, None);
    if messages != [] {
      var init, last := messages[..|messages| - 1], messages[|messages| - 1];
      assert messages == init + [last];
      var before, after := OpenedMessages(init, quote), OpenedMessage(last, quote);
      OneMoreMessage(init, last, quote);
      FilesAppend(BlocksIn(init), Blocks(last));
      OpenedOnce(init, quote);
      OpenedMessageOnce(last, quote);
      OneMoreMessage(before, after, quote);
      FilesAppend(BlocksIn(before), Blocks(after));
    }
  }

  lemma NoMessage(quote: Quote)
    ensures FilesIn(BlocksIn([])) == Some([]) && OpenedMessages([], quote) == []
  {
  }

  lemma OneMoreMessage(messages: seq<Json>, m: Json, quote: Quote)
    ensures OpenedMessages(messages + [m], quote) == OpenedMessages(messages, quote) + [OpenedMessage(m, quote)]
    ensures BlocksIn(messages + [m]) == BlocksIn(messages) + Blocks(m)
  {
    assert (messages + [m])[..|messages|] == messages;
  }

  lemma AttachedInPlace(messages: seq<Json>, files: seq<TextAttachment>)
    requires AttachToLast(messages, files).Success?
    ensures |AttachToLast(messages, files).value| == |messages|
    ensures forall i | 0 <= i < |messages| - 1 :: AttachToLast(messages, files).value[i] == messages[i]
    ensures files == [] ==> AttachToLast(messages, files).value == messages
  {
  }

  /** Preparing loses and invents nothing. */
  lemma PreparingKeepsRequests(body: Json, quote: Quote)
    requires Prepared(body, quote).Success?
    ensures var (out, files) := Prepared(body, quote).value;
      var messages := Messages(WithoutNew(body)).value;
      var attached := AttachToLast(messages, NewFiles(body).value).value;
      var sent := OpenedMessages(attached, quote);
      && Get(body, "messages") == Some(Array(messages)) && Get(out, "messages") == Some(Array(sent))
      && FilesIn(BlocksIn(messages)).Some? && files == FilesIn(BlocksIn(messages)).value + NewFiles(body).value
      && |sent| == |messages| == |attached|
      && (forall i | 0 <= i < |sent| :: FilesIn(Blocks(attached[i])).Some? && sent[i] == OpenedMessage(attached[i], quote))
      && (forall i | 0 <= i < |sent| - 1 :: attached[i] == messages[i])
      && (NewFiles(body).value == [] ==> attached == messages)
      && (forall key: string | key != "messages" && key != "omni_attachments" :: Get(out, key) == Get(body, key))
  {
    HasMessages(body, quote);
    hide OpenedMessage, OpenedMessages, Blocks, BlocksIn, FilesIn, AttachToLast, NewFiles, Get, Put, Prepared, WithoutNew;
    var messages := Messages(WithoutNew(body)).value;
    var attached := AttachToLast(messages, NewFiles(body).value).value;
    NewFilesComeLast(messages, NewFiles(body).value);
    AttachedInPlace(messages, NewFiles(body).value);
    OpenedMessagesKeep(attached, quote);
    NewMembers(body, Array(OpenedMessages(attached, quote)));
  }

  lemma {:induction false} MalformedIff(blocks: seq<Json>)
    ensures FilesIn(blocks).None? <==> exists b | b in blocks :: IsFile(b) && BlockFile(b).None?
  {
    hide IsFile, BlockFile;
    if blocks != [] {
      MalformedIff(blocks[..|blocks| - 1]);
      assert blocks == blocks[..|blocks| - 1] + [blocks[|blocks| - 1]];
    }
  }

  lemma MessagesOf(body: Json)
    ensures Messages(WithoutNew(body)) == match Get(body, "messages")
                                          case Some(Array(items)) => Some(items)
                                          case _ => None
  {
    if body.Object? {
      GetWithout(body.members, "omni_attachments", "messages");
    }
  }

  /** A request is prepared exactly if its new files can be decoded, it has a list of messages, the last of them takes
      the new files if there are any, and no file block is malformed. */
  lemma PreparedIff(body: Json, quote: Quote)
    ensures var messages := Get(body, "messages");
      Prepared(body, quote).Success? <==>
        && NewFiles(body).Some? && messages.Some? && messages.value.Array?
        && (NewFiles(body).value == []
            || (messages.value.items != [] && TakesFiles(messages.value.items[|messages.value.items| - 1])))
        && forall b | b in BlocksIn(messages.value.items) && IsFile(b) :: BlockFile(b).Some?
  {
    MessagesOf(body);
    hide OpenedMessages, BlocksIn, FilesIn, ParseFiles, Lookup, Put, Without, AttachTo, WithoutNew, IsFile, BlockFile;
    var news, messages := NewFiles(body), Messages(WithoutNew(body));
    if news.Some? && messages.Some? {
      if messages.value != [] {
        AttachedMessage(messages.value[|messages.value| - 1], news.value);
      }
      if AttachToLast(messages.value, news.value).Success? {
        NewFilesComeLast(messages.value, news.value);
        MalformedIff(BlocksIn(messages.value));
      }
    }
  }

  /** Why one is refused, in this order. */
  lemma RefusedFor(body: Json, quote: Quote)
    ensures var r, messages := Prepared(body, quote), Get(body, "messages");
      && (NewFiles(body).None? ==> r == Failure(InvalidAttachments))
      && (NewFiles(body).Some? && (messages.None? || !messages.value.Array?) ==> r == Failure(NoMessages))
      && (NewFiles(body).Some? && NewFiles(body).value != [] && messages.Some? && messages.value.Array? ==>
            var items := messages.value.items;
            && (items == [] || Get(items[|items| - 1], "role") != Some(Text("user")) ==> r == Failure(NeedsUserMessage))
            && (items != [] && Get(items[|items| - 1], "role") == Some(Text("user")) && !TakesFiles(items[|items| - 1]) ==>
                  r == Failure(NeedsTextContent)))
  {
    MessagesOf(body);
    hide OpenedMessages, BlocksIn, FilesIn, ParseFiles, Lookup, Put, Without, WithContent, WithoutNew;
  }

  /** Preparing what has been prepared changes nothing and returns no files. */
  lemma PreparingTwice(body: Json, quote: Quote)
    requires Prepared(body, quote).Success?
    ensures Prepared(Prepared(body, quote).value.0, quote) == Success((Prepared(body, quote).value.0, []))
  {
    HasMessages(body, quote);
    hide OpenedMessages, BlocksIn, FilesIn, AttachToLast, ParseFiles, Lookup, Put, Without;
    var messages := Messages(WithoutNew(body)).value;
    var attached := AttachToLast(messages, NewFiles(body).value).value;
    var sent := Array(OpenedMessages(attached, quote));
    var out := Prepared(body, quote).value.0;
    OpenedOnce(attached, quote);
    NewMembers(body, sent);
    assert Get(out, "omni_attachments").None? && Get(out, "messages") == Some(sent);
    WithoutAbsent(out.members, "omni_attachments");
    PutSame(out.members, "messages");
    NothingToAttach(OpenedMessages(attached, quote));
  }

  lemma NewMembers(body: Json, sent: Json)
    requires body.Object? && Lookup(WithoutNew(body), "messages").Some?
    ensures var out := Object(Put(WithoutNew(body), "messages", sent));
      && Get(out, "messages") == Some(sent) && Get(out, "omni_attachments").None?
      && forall key: string | key != "messages" && key != "omni_attachments" :: Get(out, key) == Get(body, key)
    ensures Get(body, "messages") == Lookup(WithoutNew(body), "messages")
  {
    hide Lookup, Put, Without;
    GetWithout(body.members, "omni_attachments", "messages");
    forall key: string ensures Get(Object(Put(WithoutNew(body), "messages", sent)), key)
      == (if key == "messages" then Some(sent) else if key == "omni_attachments" then None else Get(body, key))
    {
      GetWithout(body.members, "omni_attachments", key);
      GetPut(WithoutNew(body), "messages", sent, key);
    }
  }

  lemma HasMessages(body: Json, quote: Quote)
    requires Prepared(body, quote).Success?
    ensures body.Object? && NewFiles(body).Some? && Messages(WithoutNew(body)).Some?
    ensures var attached := AttachToLast(Messages(WithoutNew(body)).value, NewFiles(body).value);
      && attached.Success? && FilesIn(BlocksIn(attached.value)).Some?
      && Prepared(body, quote).value.0
         == Object(Put(WithoutNew(body), "messages", Array(OpenedMessages(attached.value, quote))))
      && Prepared(body, quote).value.1 == FilesIn(BlocksIn(attached.value)).value
  {
    assert Messages([]).None?;
  }

  lemma NothingToAttach(messages: seq<Json>)
    ensures AttachToLast(messages, []) == Success(messages)
  {
  }

  lemma {:induction false} WithoutAbsent(members: seq<Member>, key: string)
    requires Lookup(members, key).None?
    ensures Without(members, key) == members
  {
    if members != [] {
      WithoutAbsent(members[1..], key);
    }
  }

  /* ---- The rewriting, block by block ---- */

  method OpenBlocks(blocks: seq<Json>, quote: Quote) returns (r: Option<(seq<Json>, seq<TextAttachment>)>)
    ensures r == if FilesIn(blocks).None? then None else Some((OpenedBlocks(blocks, quote), FilesIn(blocks).value))
  {
    hide IsFile, BlockFile;
    var rest, files := blocks, [];
    for j := 0 to |blocks|
      invariant |rest| == |blocks| && rest[..j] == OpenedBlocks(blocks[..j], quote) && rest[j..] == blocks[j..]
      invariant FilesIn(blocks[..j]) == Some(files)
    {
      assert blocks[..j + 1] == blocks[..j] + [blocks[j]] && blocks[..j + 1][..j] == blocks[..j];
      if IsFile(rest[j]) {
        var file := BlockFile(rest[j]);
        if file.None? {
          FilesAppend(blocks[..j + 1], blocks[j + 1..]);
          assert blocks == blocks[..j + 1] + blocks[j + 1..];
          return None;
        }
        files := files + [file.value];
        rest := rest[j := TextBlock(quote(file.value))];
      }
    }
    assert blocks[..|blocks|] == blocks && rest[..|blocks|] == rest;
    r := Some((rest, files));
  }

  method OpenMessage(m: Json, quote: Quote) returns (r: Option<(Json, seq<TextAttachment>)>)
    ensures r == if FilesIn(Blocks(m)).None? then None else Some((OpenedMessage(m, quote), FilesIn(Blocks(m)).value))
  {
    NoMessage(quote);
    hide FilesIn, OpenedBlocks;
    var content := Get(m, "content");
    if content.None? || !content.value.Array? { return Some((m, [])); }
    var done := OpenBlocks(content.value.items, quote);
    if done.None? { return None; }
    r := Some((WithContent(m, Array(done.value.0)), done.value.1));
  }

  /** Takes the attachments out of a request body, which keeps them as quoted text. */
  method PrepareFiles(body: Json, quote: Quote) returns (r: Result<(Json, seq<TextAttachment>), Refusal>)
    ensures r == Prepared(body, quote)
  {
    hide FilesIn, Blocks, BlocksIn, OpenedMessage, OpenedMessages, AttachToLast, NewFiles, WithoutNew, Messages, Put;
    if NewFiles(body).None? { return Failure(InvalidAttachments); }
    var members := WithoutNew(body);
    if Messages(members).None? { return Failure(NoMessages); }
    var attached := AttachToLast(Messages(members).value, NewFiles(body).value);
    if attached.Failure? { return Failure(attached.error); }
    var done := OpenAll(attached.value, quote);
    if done.None? { return Failure(InvalidFileBlock); }
    r := Success((Object(Put(members, "messages", Array(done.value.0))), done.value.1));
  }

  method OpenAll(original: seq<Json>, quote: Quote) returns (r: Option<(seq<Json>, seq<TextAttachment>)>)
    ensures r == if FilesIn(BlocksIn(original)).None? then None
                 else Some((OpenedMessages(original, quote), FilesIn(BlocksIn(original)).value))
  {
    hide FilesIn, Blocks, BlocksIn, OpenedMessage, OpenedMessages;
    var messages, files := original, [];
    NoMessage(quote);
    for i := 0 to |original|
      invariant |messages| == |original|
      invariant messages[..i] == OpenedMessages(original[..i], quote) && messages[i..] == original[i..]
      invariant FilesIn(BlocksIn(original[..i])) == Some(files)
    {
      assert original[..i + 1] == original[..i] + [original[i]];
      OneMoreMessage(original[..i], original[i], quote);
      FilesAppend(BlocksIn(original[..i]), Blocks(original[i]));
      var done := OpenMessage(messages[i], quote);
      if done.None? {
        FirstsFail(original, i + 1);
        return None;
      }
      files := files + done.value.1;
      messages := messages[i := done.value.0];
      assert messages[..i + 1] == messages[..i] + [messages[i]];
    }
    assert original[..|original|] == original && messages[..|original|] == messages;
    r := Some((messages, files));
  }

  lemma {:induction false} FirstsFail(messages: seq<Json>, i: nat)
    requires i <= |messages| && FilesIn(BlocksIn(messages[..i])).None?
    ensures FilesIn(BlocksIn(messages)).None?
    decreases |messages|
  {
    if i == |messages| {
      assert messages[..i] == messages;
    } else {
      var init := messages[..|messages| - 1];
      assert init[..i] == messages[..i];
      FirstsFail(init, i);
      FilesAppend(BlocksIn(init), Blocks(messages[|messages| - 1]));
    }
  }

  /* ---- Preparation and inspection together ---- */

  lemma {:induction false} FileTexts(files: seq<TextAttachment>, f: TextAttachment)
    requires f in files
    ensures f.name in AttachmentTexts(files) && f.text in AttachmentTexts(files)
  {
    var init, last := files[..|files| - 1], files[|files| - 1];
    assert files == init + [last];
    if f in init {
      FileTexts(init, f);
    }
  }

  /** Quoting a file does not hide it: if a request is allowed, inspected together with the files taken from it when
      it was prepared, then the literal of a block rule is in no name or text of those files, whatever was added to
      the request in between. By `PreparingKeepsRequests` they are all that were attached, in an old message or
      anew. */
  lemma AttachedFilesAreInspected(
    body: Json, quote: Quote, sent: Json, p: Policy, bytes: nat, source: Json, isJson: string -> bool,
    wire: TextAttachment -> nat, size: nat)
    requires Prepared(body, quote).Success?
    requires var files := Prepared(body, quote).value.1;
      Verdict(p, Visited(Inspected(bytes, sent, files, isJson, wire).(bytes := size), source)).None?
    ensures var files := Prepared(body, quote).value.1;
      forall r: Rule, literal, f: TextAttachment | r in p.rules && r.blocks && Literal(r, literal) && f in files ::
        !Contains(f.name, literal) && !Contains(f.text, literal)
  {
    hide Prepared, Verdict, Inspected, Visited, Nodes, Contains, Literal, AttachmentTexts, Texts;
    var files := Prepared(body, quote).value.1;
    InspectionHidesNothing(p, bytes, sent, files, source, isJson, wire, size);
    forall f: TextAttachment | f in files
      ensures f.name in Decoded(sent, files, source) && f.text in Decoded(sent, files, source)
    {
      FileTexts(files, f);
    }
  }
}
