/** Importing one exported ChatGPT conversation: the branch from the root to the current node, and nothing invented. */
module ChatImport {
  import opened Common

  const CAPTURE_BYTE_LIMIT := 100_000
  const MESSAGE_LIMIT := 500
  const NODE_LIMIT := 20_000

  /** A field of unknown type: null or undefined, a string, or something else. */
  datatype Field = Absent | Str(s: string) | Odd

  /** A content block with text of its own, or anything else. */
  datatype Block = Plain(text: string) | Other

  datatype Parts = Nothing | Whole(text: string) | Blocks(blocks: seq<Block>) | Strange

  datatype Message =
    | NoMessage
    | Malformed
    | Message(hidden: bool, channel: Field, recipient: Field, contentType: Field, role: Field, parts: Parts)

  datatype Node = Node(parent: Field, message: Message) | NotRecord

  type Mapping = map<string, Node>

  datatype Imported = Imported(role: string, text: string)

  datatype Conversation = Conversation(messages: seq<Imported>, omitted: nat)

  datatype Error =
    | TooManyNodes | Ambiguous | Cycle | MissingNode | BadParent | BadMessage | MessageTooLong | TooManyMessages

  /* ---- The branch ---- */

  predicate Usable(m: Mapping, id: string) {
    id in m && m[id].Node?
  }

  /** `path` leads from `start` to a root by parent references that all resolve. */
  predicate IsBranch(m: Mapping, start: string, path: seq<string>) {
    && path != [] && path[0] == start && (forall i | 0 <= i < |path| :: Usable(m, path[i]))
    && (forall i | 0 <= i < |path| - 1 :: m[path[i]].parent == Str(path[i + 1]))
    && m[path[|path| - 1]].parent.Absent?
  }

  predicate Distinct(path: seq<string>) {
    forall i, j | 0 <= i < j < |path| :: path[i] != path[j]
  }

  /** Equal nodes are equally far from the root. */
  lemma {:induction false} SameDistance(m: Mapping, start: string, path: seq<string>, i: nat, j: nat)
    requires IsBranch(m, start, path) && i <= j < |path| && path[i] == path[j]
    ensures i == j
    decreases |path| - j
  {
    if i < |path| - 1 {
      var next := path[i + 1];
    }
    if j < |path| - 1 {
      SameDistance(m, start, path, i + 1, j + 1);
    }
  }

  lemma BranchIsAcyclic(m: Mapping, start: string, path: seq<string>)
    requires IsBranch(m, start, path)
    ensures Distinct(path)
  {
    forall i, j | 0 <= i < j < |path| ensures path[i] != path[j] {
      if path[i] == path[j] {
        SameDistance(m, start, path, i, j);
      }
    }
  }

  /** What has been walked so far. */
  predicate IsWalk(m: Mapping, start: string, path: seq<string>, current: Field) {
    && (forall i | 0 <= i < |path| :: Usable(m, path[i]))
    && (forall i | 0 <= i < |path| - 1 :: m[path[i]].parent == Str(path[i + 1]))
    && (if path == [] then current == Str(start) else path[0] == start && m[path[|path| - 1]].parent == current)
  }

  /** Every branch begins with what has been walked. */
  lemma {:induction false} WalkIsPrefix(m: Mapping, start: string, walk: seq<string>, current: Field,
      branch: seq<string>)
    requires IsWalk(m, start, walk, current) && IsBranch(m, start, branch)
    ensures |walk| <= |branch| && walk == branch[..|walk|]
    ensures if |walk| == |branch| then current.Absent? else current == Str(branch[|walk|])
  {
    if walk != [] {
      var init, last := walk[..|walk| - 1], walk[|walk| - 1];
      var before := if init == [] then Str(start) else m[init[|init| - 1]].parent;
      WalkIsPrefix(m, start, init, before, branch);
    }
  }

  /** The branch is unique. */
  lemma OneBranch(m: Mapping, start: string, a: seq<string>, b: seq<string>)
    requires IsBranch(m, start, a) && IsBranch(m, start, b)
    ensures a == b
  {
    WalkIsPrefix(m, start, a, Absent, b);
  }

  ghost predicate HasBranch(m: Mapping, start: string) {
    exists path :: IsBranch(m, start, path)
  }

  lemma Stuck(m: Mapping, start: string, walk: seq<string>, current: Field)
    requires IsWalk(m, start, walk, current)
    requires current.Odd? || (current.Str? && (current.s in walk || !Usable(m, current.s)))
    ensures !HasBranch(m, start)
  {
    if HasBranch(m, start) {
      var branch :| IsBranch(m, start, branch);
      WalkIsPrefix(m, start, walk, current, branch);
      BranchIsAcyclic(m, start, branch);
    }
  }

  lemma WalkOn(m: Mapping, start: string, walk: seq<string>, id: string)
    requires IsWalk(m, start, walk, Str(id)) && Usable(m, id) && Distinct(walk) && id !in walk
    ensures IsWalk(m, start, walk + [id], m[id].parent) && Distinct(walk + [id])
    ensures (set k | k in walk + [id]) == (set k | k in walk) + {id}
  {
  }

  lemma Arrived(m: Mapping, start: string, walk: seq<string>)
    requires IsWalk(m, start, walk, Absent)
    ensures IsBranch(m, start, walk)
  {
  }

  lemma FewerLeft(keys: set<string>, seen: set<string>, id: string)
    requires id in keys && id !in seen
    ensures |keys - (seen + {id})| < |keys - seen|
  {
    assert keys - seen == (keys - (seen + {id})) + {id};
  }

  /** Walks to the root. It terminates on every mapping, and fails exactly when there is no branch to find. */
  method Walk(m: Mapping, start: string) returns (r: Result<seq<string>, Error>)
    ensures r.Success? <==> HasBranch(m, start)
    ensures r.Success? ==> IsBranch(m, start, r.value) && Distinct(r.value)
  {
    var current, seen, branch := Str(start), {}, [];
    assert IsWalk(m, start, branch, current);
    hide IsWalk, IsBranch, Distinct;
    while current.Str?
      invariant IsWalk(m, start, branch, current) && Distinct(branch) && !current.Odd?
      invariant seen == (set id | id in branch) && seen <= m.Keys
      decreases |m.Keys - seen|
    {
      var id := current.s;
      if id in seen {
        Stuck(m, start, branch, current);
        return Failure(Cycle);
      }
      if !Usable(m, id) {
        Stuck(m, start, branch, current);
        return Failure(MissingNode);
      }
      WalkOn(m, start, branch, id);
      FewerLeft(m.Keys, seen, id);
      seen := seen + {id};
      branch := branch + [id];
      current := m[id].parent;
      if current.Odd? {
        Stuck(m, start, branch, current);
        return Failure(BadParent);
      }
    }
    Arrived(m, start, branch);
    r := Success(branch);
  }

  /* ---- What is kept of a branch ---- */

  function JoinLines(texts: seq<string>): string {
    if texts == [] then ""
    else if |texts| == 1 then texts[0]
    else JoinLines(texts[..|texts| - 1]) + "\n" + texts[|texts| - 1]
  }

  function PlainTexts(blocks: seq<Block>): (texts: seq<string>)
    ensures |texts| <= |blocks|
  {
    if blocks == [] then []
    else PlainTexts(blocks[..|blocks| - 1]) + if blocks[|blocks| - 1].Plain? then [blocks[|blocks| - 1].text] else []
  }

  function TextOf(p: Parts): string {
    match p
    case Whole(text) => text
    case Blocks(blocks) => JoinLines(PlainTexts(blocks))
    case _ => ""
  }

  function OmittedBlocks(p: Parts): nat {
    match p
    case Blocks(blocks) => |blocks| - |PlainTexts(blocks)|
    case Strange => 1
    case _ => 0
  }

  predicate Visible(m: Message) {
    && m.Message? && !m.hidden && (m.channel.Absent? || m.channel == Str("final"))
    && (m.recipient.Absent? || m.recipient == Str("all"))
    && m.contentType == Str("text") && (m.role == Str("user") || m.role == Str("assistant"))
  }

  /** The message kept of a node, if any: a visible one whose text is not blank. */
  function KeptOf(n: Node, blank: string -> bool): seq<Imported> {
    if n.Node? && Visible(n.message) && !blank(TextOf(n.message.parts))
    then [Imported(n.message.role.s, TextOf(n.message.parts))] else []
  }

  /** What is counted as omitted in a node: all of an invisible message, or the unreadable blocks of a visible one. */
  function OmittedOf(n: Node): int {
    if n.NotRecord? || n.message.NoMessage? then 0
    else if !Visible(n.message) then 1
    else OmittedBlocks(n.message.parts)
  }

  /** A message is kept with its role and text exactly if it is not hidden, on no channel but the final one, to nobody
      but all, a text of the user or the assistant, and not blank. */
  lemma KeptIff(n: Node, blank: string -> bool, k: Imported)
    ensures k in KeptOf(n, blank) <==>
      && n.Node? && n.message.Message? && !n.message.hidden
      && n.message.channel in {Absent, Str("final")} && n.message.recipient in {Absent, Str("all")}
      && n.message.contentType == Str("text") && n.message.role == Str(k.role) && k.role in {"user", "assistant"}
      && k.text == TextOf(n.message.parts) && !blank(k.text)
    ensures |KeptOf(n, blank)| <= 1
  {
  }

  /** The texts of the plain blocks in order, a line break between them; the others are counted as omitted. */
  lemma TextsOf(a: seq<Block>, b: seq<Block>)
    ensures PlainTexts(a) != [] && PlainTexts(b) != [] ==>
      TextOf(Blocks(a + b)) == TextOf(Blocks(a)) + "\n" + TextOf(Blocks(b))
    ensures PlainTexts(b) == [] ==> TextOf(Blocks(a + b)) == TextOf(Blocks(a))
    ensures PlainTexts(a) == [] ==> TextOf(Blocks(a + b)) == TextOf(Blocks(b))
    ensures OmittedBlocks(Blocks(a + b)) == OmittedBlocks(Blocks(a)) + OmittedBlocks(Blocks(b))
  {
    hide JoinLines, PlainTexts;
    PlainAppend(a, b);
    assert PlainTexts(a) + [] == PlainTexts(a) && [] + PlainTexts(b) == PlainTexts(b);
    if PlainTexts(a) != [] && PlainTexts(b) != [] {
      JoinAppend(PlainTexts(a), PlainTexts(b));
    }
  }

  lemma TextOfOne(x: Block)
    ensures PlainTexts([x]) == (if x.Plain? then [x.text] else []) && PlainTexts([]) == []
    ensures TextOf(Blocks([x])) == if x.Plain? then x.text else ""
    ensures OmittedBlocks(Blocks([x])) == if x.Plain? then 0 else 1
  {
    assert [x][..0] == [];
  }

  lemma {:induction false} PlainAppend(a: seq<Block>, b: seq<Block>)
    ensures PlainTexts(a + b) == PlainTexts(a) + PlainTexts(b)
  {
    if b == [] {
      assert a + b == a;
    } else {
      assert (a + b)[..|a + b| - 1] == a + b[..|b| - 1];
      PlainAppend(a, b[..|b| - 1]);
    }
  }

  lemma {:induction false} JoinAppend(a: seq<string>, b: seq<string>)
    requires a != [] && b != []
    ensures JoinLines(a + b) == JoinLines(a) + "\n" + JoinLines(b)
  {
    assert (a + b)[..|a + b| - 1] == a + b[..|b| - 1];
    if |b| > 1 {
      JoinAppend(a, b[..|b| - 1]);
    } else {
      assert a + b[..0] == a;
    }
  }

  function Kept(m: Mapping, path: seq<string>, blank: string -> bool): seq<Imported>
    requires Within(m, path)
  {
    if path == [] then [] else Kept(m, path[..|path| - 1], blank) + KeptOf(m[path[|path| - 1]], blank)
  }

  function Omitted(m: Mapping, path: seq<string>): int
    requires Within(m, path)
  {
    if path == [] then 0 else Omitted(m, path[..|path| - 1]) + OmittedOf(m[path[|path| - 1]])
  }

  /** The messages of a branch are those of its nodes, in order, and what is omitted adds up. */
  lemma {:induction false} KeptInOrder(m: Mapping, a: seq<string>, b: seq<string>, blank: string -> bool)
    requires Within(m, a + b) && Within(m, a) && Within(m, b)
    ensures Kept(m, a + b, blank) == Kept(m, a, blank) + Kept(m, b, blank)
    ensures Omitted(m, a + b) == Omitted(m, a) + Omitted(m, b)
  {
    if b == [] {
      assert a + b == a;
    } else {
      assert (a + b)[..|a + b| - 1] == a + b[..|b| - 1];
      KeptInOrder(m, a, b[..|b| - 1], blank);
    }
  }

  /** What one node adds: nothing without a message, one omission for an invisible message, and the unreadable blocks
      of a visible one. */
  lemma OmittedIs(m: Mapping, id: string, blank: string -> bool)
    requires Usable(m, id)
    ensures Kept(m, [id], blank) == KeptOf(m[id], blank)
    ensures m[id].message.NoMessage? ==> Omitted(m, [id]) == 0
    ensures m[id].message.Message? && KeptOf(m[id], (text: string) => false) == [] ==> Omitted(m, [id]) == 1
    ensures KeptOf(m[id], (text: string) => false) != [] ==> Omitted(m, [id]) == OmittedBlocks(m[id].message.parts)
  {
    assert [id][..0] == [];
  }

  predicate Within(m: Mapping, path: seq<string>) {
    forall i | 0 <= i < |path| :: Usable(m, path[i])
  }

  predicate Sound(m: Mapping, path: seq<string>, blank: string -> bool)
    requires Within(m, path)
  {
    && (forall id | id in path :: !m[id].message.Malformed?)
    && (forall k: Imported | k in Kept(m, path, blank) :: |k.text| <= CAPTURE_BYTE_LIMIT)
    && |Kept(m, path, blank)| <= MESSAGE_LIMIT
  }

  lemma SoundStep(m: Mapping, path: seq<string>, blank: string -> bool)
    requires path != [] && Within(m, path)
    ensures var init, last := path[..|path| - 1], m[path[|path| - 1]];
      Sound(m, path, blank) <==>
        && Sound(m, init, blank) && !last.message.Malformed?
        && (forall k: Imported | k in KeptOf(last, blank) :: |k.text| <= CAPTURE_BYTE_LIMIT)
        && |Kept(m, init, blank)| + |KeptOf(last, blank)| <= MESSAGE_LIMIT
  {
    assert path == path[..|path| - 1] + [path[|path| - 1]];
  }

  lemma {:induction false} SoundPrefix(m: Mapping, path: seq<string>, i: nat, blank: string -> bool)
    requires i <= |path| && Within(m, path)
    ensures Sound(m, path, blank) ==> Sound(m, path[..i], blank)
    decreases |path|
  {
    if i == |path| {
      assert path[..i] == path;
    } else {
      assert path[..|path| - 1][..i] == path[..i];
      SoundStep(m, path, blank);
      SoundPrefix(m, path[..|path| - 1], i, blank);
    }
  }

  /* ---- Which node the branch starts from ---- */

  /** Nodes that are nobody's parent. */
  function Leaves(m: Mapping): set<string> {
    set id | id in m && forall other | other in m && m[other].Node? :: m[other].parent != Str(id)
  }

  /** The current node, or the only leaf where there is no current node. */
  predicate StartsAt(m: Mapping, current: Field, start: string) {
    if current.Str? then current.s == start else Leaves(m) == {start}
  }

  /** Without a current node the import starts from the only node that is nobody's parent. */
  lemma StartsIff(m: Mapping, current: Field, start: string)
    ensures StartsAt(m, current, start) <==>
      if current.Str? then current == Str(start)
      else start in m && forall id | id in m ::
        id == start <==> forall other | other in m && m[other].Node? :: m[other].parent != Str(id)
  {
    if StartsAt(m, current, start) && !current.Str? {
      assert forall id | id in m :: id in Leaves(m) <==> id == start;
    }
  }

  /** Everything that an import needs. */
  ghost predicate Importable(m: Mapping, current: Field, used: nat, blank: string -> bool, path: seq<string>) {
    && used + |m| <= NODE_LIMIT && path != [] && Within(m, path) && StartsAt(m, current, path[0]) && IsBranch(m, path[0], path)
    && Sound(m, Reverse(path), blank)
  }

  method AddNode(c: Conversation, n: Node, blank: string -> bool) returns (r: Result<Conversation, Error>)
    requires n.Node? && |c.messages| <= MESSAGE_LIMIT
    ensures r.Success? <==>
      && !n.message.Malformed? && |c.messages| + |KeptOf(n, blank)| <= MESSAGE_LIMIT
      && forall k: Imported | k in KeptOf(n, blank) :: |k.text| <= CAPTURE_BYTE_LIMIT
    ensures r.Success? ==>
      r.value.messages == c.messages + KeptOf(n, blank) && r.value.omitted == c.omitted + OmittedOf(n)
  {
    if n.message.NoMessage? { return Success(c); }
    if n.message.Malformed? { return Failure(BadMessage); }
    if !Visible(n.message) { return Success(c.(omitted := c.omitted + 1)); }
    var text := TextOf(n.message.parts);
    var counted := c.(omitted := c.omitted + OmittedBlocks(n.message.parts));
    if blank(text) { return Success(counted); }
    if |text| > CAPTURE_BYTE_LIMIT {
      assert Imported(n.message.role.s, text) in KeptOf(n, blank);
      return Failure(MessageTooLong);
    }
    if |c.messages| + 1 > MESSAGE_LIMIT { return Failure(TooManyMessages); }
    r := Success(counted.(messages := c.messages + [Imported(n.message.role.s, text)]));
  }

  /** Messages are taken in order, one node after the other. */
  method AddMessages(m: Mapping, path: seq<string>, blank: string -> bool) returns (r: Result<Conversation, Error>)
    requires Within(m, path)
    ensures r.Success? <==> Sound(m, path, blank)
    ensures r.Success? ==> r.value.messages == Kept(m, path, blank) && r.value.omitted == Omitted(m, path)
  {
    var c := Conversation([], 0);
    NoNodes(m, blank);
    hide KeptOf, OmittedOf, Sound, Kept, Omitted, Within;
    for i := 0 to |path|
      invariant Within(m, path[..i]) && Sound(m, path[..i], blank)
      invariant c.messages == Kept(m, path[..i], blank) && c.omitted == Omitted(m, path[..i])
    {
      NextNode(m, path, i, blank);
      var added := AddNode(c, m[path[i]], blank);
      if added.Failure? { return Failure(added.error); }
      c := added.value;
    }
    assert path[..|path|] == path;
    r := Success(c);
  }

  lemma NoNodes(m: Mapping, blank: string -> bool)
    ensures Within(m, []) && Sound(m, [], blank) && Kept(m, [], blank) == [] && Omitted(m, []) == 0
  {
  }

  /** Taking node `i` after those before it. */
  lemma NextNode(m: Mapping, path: seq<string>, i: nat, blank: string -> bool)
    requires i < |path| && Within(m, path) && Within(m, path[..i]) && Sound(m, path[..i], blank)
    ensures Usable(m, path[i]) && Within(m, path[..i + 1]) && |Kept(m, path[..i], blank)| <= MESSAGE_LIMIT
    ensures Kept(m, path[..i + 1], blank) == Kept(m, path[..i], blank) + KeptOf(m[path[i]], blank)
    ensures Omitted(m, path[..i + 1]) == Omitted(m, path[..i]) + OmittedOf(m[path[i]])
    ensures Sound(m, path[..i + 1], blank) <==>
      && !m[path[i]].message.Malformed?
      && |Kept(m, path[..i], blank)| + |KeptOf(m[path[i]], blank)| <= MESSAGE_LIMIT
      && forall k: Imported | k in KeptOf(m[path[i]], blank) :: |k.text| <= CAPTURE_BYTE_LIMIT
    ensures Sound(m, path, blank) ==> Sound(m, path[..i + 1], blank)
  {
    hide KeptOf, OmittedOf, Sound;
    SoundIsSmall(m, path[..i], blank);
    assert path[..i + 1] == path[..i] + [path[i]] && path[..i + 1][..i] == path[..i];
    SoundStep(m, path[..i + 1], blank);
    SoundPrefix(m, path, i + 1, blank);
  }

  lemma SoundIsSmall(m: Mapping, path: seq<string>, blank: string -> bool)
    requires Within(m, path) && Sound(m, path, blank)
    ensures |Kept(m, path, blank)| <= MESSAGE_LIMIT
  {
  }

  /** An import succeeds exactly when the start is clear, its chain of parents reaches a root without a cycle or a
      gap, and its messages are sound and small enough. It then holds the messages of that chain alone, root first,
      and counts every node off the chain as omitted. */
  method ChatGpt(m: Mapping, current: Field, used: nat, blank: string -> bool) returns (r: Result<Conversation, Error>)
    ensures r.Success? <==> exists path :: Importable(m, current, used, blank, path)
    ensures forall path | Importable(m, current, used, blank, path) ::
      && r.Success? && r.value.messages == Kept(m, Reverse(path), blank)
      && r.value.omitted == |m| - |path| + Omitted(m, Reverse(path))
  {
    if used + |m| > NODE_LIMIT { return Failure(TooManyNodes); }
    hide Leaves, IsBranch, Sound, Kept, Omitted, StartsAt;
    var start := StartOf(m, current);
    if start.None? { return Failure(Ambiguous); }
    var branch := Walk(m, start.value);
    if branch.Failure? { return Failure(branch.error); }
    InMapping(m, start.value, branch.value);
    DistinctCount(m, branch.value);
    var added := AddMessages(m, Reverse(branch.value), blank);
    forall path | Importable(m, current, used, blank, path) ensures path == branch.value {
      OneBranch(m, start.value, path, branch.value);
    }
    if added.Failure? { return Failure(added.error); }
    assert Importable(m, current, used, blank, branch.value);
    r := Success(added.value.(omitted := |m| - |branch.value| + added.value.omitted));
  }

  /** The node to start from; none where several leaves, or no leaf, could be meant. */
  method StartOf(m: Mapping, current: Field) returns (start: Option<string>)
    ensures forall id :: StartsAt(m, current, id) <==> start == Some(id)
  {
    if current.Str? { return Some(current.s); }
    var leaves := Leaves(m);
    if |leaves| != 1 { return None; }
    var id :| id in leaves;
    Alone(leaves, id);
    start := Some(id);
  }

  lemma Alone(ids: set<string>, id: string)
    requires id in ids && |ids| == 1
    ensures ids == {id}
  {
    assert |ids - {id}| == 0;
  }

  lemma InMapping(m: Mapping, start: string, path: seq<string>)
    requires IsBranch(m, start, path)
    ensures path != [] && path[0] == start && Within(m, path) && Within(m, Reverse(path))
  {
  }

  lemma {:induction false} DistinctCount(m: Mapping, path: seq<string>)
    requires Distinct(path) && forall i | 0 <= i < |path| :: path[i] in m
    ensures |path| <= |m|
    decreases |path|
  {
    if path != [] {
      var init, last := path[..|path| - 1], path[|path| - 1];
      DistinctCount(m - {last}, init);
      assert (m - {last}).Keys == m.Keys - {last};
    }
  }
}
