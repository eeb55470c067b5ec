/** What a request policy sees of a request, and the verdict it reaches. */
module ContentPolicy {
  import opened Common
  import opened JsonValues

  const MAX_DEPTH := 64

  datatype Code =
    | RequestTooLarge | TooDeep | Opaque | TooManyFiles | TypeNotAllowed | FileTooLarge
    | InvalidName | MediaTypeMismatch | Uninspectable | InvalidJson | BlockedPattern | RequiredPatternMissing

  datatype Violation = Violation(code: Code, rule: Option<string>)

  datatype TextAttachment = TextAttachment(name: string, mediaType: string, text: string)

  datatype File = File(extension: string, bytes: nat)

  /** What an inspection has collected: the text leaves in order, and the last fault met. */
  datatype Content = Content(bytes: nat, leaves: seq<string>, files: seq<File>, violation: Option<Violation>)

  /* ---- Every value of a tree ---- */

  datatype Node = Node(depth: nat, key: Option<string>, value: Json)

  function Child(v: Json, i: nat): Json
    requires i < Arity(v)
  {
    if v.Array? then v.items[i] else v.members[i].value
  }

  function KeyAt(v: Json, i: nat): Option<string>
    requires i < Arity(v)
  {
    if v.Array? then None else Some(v.members[i].key)
  }

  /** A value and everything below it, in traversal order, however deep. */
  function Nodes(n: Node): seq<Node>
    decreases n.value, Arity(n.value) + 1
  {
    [n] + NodesBelow(n, Arity(n.value))
  }

  function NodesBelow(n: Node, i: nat): seq<Node>
    requires i <= Arity(n.value)
    decreases n.value, i
  {
    if i == 0 then []
    else
      var child := if n.value.Array? then n.value.items[i - 1] else n.value.members[i - 1].value;
      NodesBelow(n, i - 1) + Nodes(Node(n.depth + 1, KeyAt(n.value, i - 1), child))
  }

  function Texts(ns: seq<Node>): seq<string> {
    if ns == [] then []
    else Texts(ns[..|ns| - 1]) + if ns[|ns| - 1].value.Text? then [ns[|ns| - 1].value.s] else []
  }

  const OPAQUE_KEYS: set<string> := {
    "file_id", "file_data", "file_url", "image_url", "input_audio", "audio", "video", "attachments", "omni_attachments" }

  const OPAQUE_TYPES: set<string> := {
    "image", "image_url", "document", "file", "input_file", "input_image", "input_audio", "video", "omni_text_file" }

  /** A member that stands for content the inspection cannot read. */
  predicate OpaqueMember(key: Option<string>, value: Json) {
    key.Some? && (key.value in OPAQUE_KEYS || (key.value == "type" && value.Text? && value.s in OPAQUE_TYPES))
  }

  predicate Readable(n: Node) {
    n.depth <= MAX_DEPTH && !OpaqueMember(n.key, n.value)
  }

  /* ---- What a visit reaches ---- */

  function Reached(v: Json, depth: nat): seq<string>
    decreases v, Arity(v) + 1
  {
    if depth > MAX_DEPTH then []
    else if v.Text? then [v.s]
    else ReachedBelow(v, depth, Arity(v))
  }

  function ReachedBelow(v: Json, depth: nat, i: nat): seq<string>
    requires i <= Arity(v)
    decreases v, i
  {
    if i == 0 then []
    else
      var child := if v.Array? then v.items[i - 1] else v.members[i - 1].value;
      ReachedBelow(v, depth, i - 1) + Reached(child, depth + 1)
  }

  function Fault(code: Code): Option<Violation> {
    Some(Violation(code, None))
  }

  function Later(a: Option<Violation>, b: Option<Violation>): Option<Violation> {
    if b.Some? then b else a
  }

  /** The last fault that a visit records. */
  function Faults(v: Json, depth: nat): Option<Violation>
    decreases v, Arity(v) + 1
  {
    if depth > MAX_DEPTH then Fault(TooDeep) else FaultsBelow(v, depth, Arity(v))
  }

  function FaultsBelow(v: Json, depth: nat, i: nat): Option<Violation>
    requires i <= Arity(v)
    decreases v, i
  {
    if i == 0 then None
    else
      var child := if v.Array? then v.items[i - 1] else v.members[i - 1].value;
      var before := FaultsBelow(v, depth, i - 1);
      var here := if OpaqueMember(KeyAt(v, i - 1), child) then Fault(Opaque) else None;
      Later(Later(before, here), Faults(child, depth + 1))
  }

  predicate AllReadable(ns: seq<Node>) {
    forall n | n in ns :: Readable(n)
  }

  lemma AllReadableAppend(a: seq<Node>, b: seq<Node>)
    ensures AllReadable(a + b) <==> AllReadable(a) && AllReadable(b)
  {
    assert forall n | n in a || n in b :: n in a + b;
  }

  /** A visit without a fault has reached every text of the tree, and there is no fault exactly when every value is at
      most 64 levels down and none is opaque. */
  lemma {:induction false} VisitIsComplete(v: Json, depth: nat, key: Option<string>)
    requires !OpaqueMember(key, v)
    ensures Faults(v, depth).None? <==> AllReadable(Nodes(Node(depth, key, v)))
    ensures Faults(v, depth).None? ==> Reached(v, depth) == Texts(Nodes(Node(depth, key, v)))
    decreases v, Arity(v) + 1
  {
    var root := Node(depth, key, v);
    assert root in Nodes(root);
    if depth <= MAX_DEPTH {
      BelowIsComplete(v, depth, key, Arity(v));
      AllReadableAppend([root], NodesBelow(root, Arity(v)));
      TextsAppend([root], NodesBelow(root, Arity(v)));
      assert Texts([root]) == if v.Text? then [v.s] else [];
    }
  }

  lemma {:induction false} BelowIsComplete(v: Json, depth: nat, key: Option<string>, i: nat)
    requires i <= Arity(v)
    ensures FaultsBelow(v, depth, i).None? <==> AllReadable(NodesBelow(Node(depth, key, v), i))
    ensures FaultsBelow(v, depth, i).None? ==> ReachedBelow(v, depth, i) == Texts(NodesBelow(Node(depth, key, v), i))
    decreases v, i
  {
    if i > 0 {
      var child := if v.Array? then v.items[i - 1] else v.members[i - 1].value;
      BelowIsComplete(v, depth, key, i - 1);
      if !OpaqueMember(KeyAt(v, i - 1), child) {
        VisitIsComplete(child, depth + 1, KeyAt(v, i - 1));
      }
      OneMoreIsComplete(Node(depth, key, v), i - 1);
    }
  }

  lemma OneMoreIsComplete(n: Node, i: nat)
    requires i < Arity(n.value)
    requires FaultsBelow(n.value, n.depth, i).None? <==> AllReadable(NodesBelow(n, i))
    requires FaultsBelow(n.value, n.depth, i).None? ==> ReachedBelow(n.value, n.depth, i) == Texts(NodesBelow(n, i))
    requires var node := Node(n.depth + 1, KeyAt(n.value, i), Child(n.value, i));
      !OpaqueMember(node.key, node.value) ==>
        && (Faults(node.value, node.depth).None? <==> AllReadable(Nodes(node)))
        && (Faults(node.value, node.depth).None? ==> Reached(node.value, node.depth) == Texts(Nodes(node)))
    ensures FaultsBelow(n.value, n.depth, i + 1).None? <==> AllReadable(NodesBelow(n, i + 1))
    ensures FaultsBelow(n.value, n.depth, i + 1).None? ==> ReachedBelow(n.value, n.depth, i + 1) == Texts(NodesBelow(n, i + 1))
  {
    hide Faults, FaultsBelow, Reached, ReachedBelow, Texts, OpaqueMember, AllReadable, Nodes, NodesBelow, Child, KeyAt;
    var node := Node(n.depth + 1, KeyAt(n.value, i), Child(n.value, i));
    OneMore(n.value, n.depth, i);
    NodesStep(n, i);
    AllReadableAppend(NodesBelow(n, i), Nodes(node));
    TextsAppend(NodesBelow(n, i), Nodes(node));
    if OpaqueMember(node.key, node.value) {
      RootUnreadable(node);
    }
  }

  /** What is wrong with a value that cannot be read. */
  function Wrong(n: Node): Code {
    if n.depth > 64 then TooDeep else Opaque
  }

  /** The last value of some that cannot be read. */
  ghost predicate LastWrong(ns: seq<Node>, code: Code) {
    exists i | 0 <= i < |ns| :: !Readable(ns[i]) && Wrong(ns[i]) == code && AllReadable(ns[i + 1..])
  }

  ghost predicate FaultOf(fault: Option<Violation>, ns: seq<Node>) {
    if AllReadable(ns) then fault.None? else fault.Some? && fault.value.rule.None? && LastWrong(ns, fault.value.code)
  }

  lemma LastOfTwo(a: seq<Node>, b: seq<Node>, code: Code)
    requires if AllReadable(b) then LastWrong(a, code) else LastWrong(b, code)
    ensures LastWrong(a + b, code)
  {
    if AllReadable(b) {
      var i :| 0 <= i < |a| && !Readable(a[i]) && Wrong(a[i]) == code && AllReadable(a[i + 1..]);
      assert (a + b)[i] == a[i] && (a + b)[i + 1..] == a[i + 1..] + b;
      AllReadableAppend(a[i + 1..], b);
    } else {
      var i :| 0 <= i < |b| && !Readable(b[i]) && Wrong(b[i]) == code && AllReadable(b[i + 1..]);
      assert (a + b)[|a| + i] == b[i] && (a + b)[|a| + i + 1..] == b[i + 1..];
    }
  }

  lemma FaultOfBoth(x: Option<Violation>, a: seq<Node>, y: Option<Violation>, b: seq<Node>)
    requires FaultOf(x, a) && FaultOf(y, b)
    ensures FaultOf(Later(x, y), a + b)
  {
    AllReadableAppend(a, b);
    if !AllReadable(a + b) {
      LastOfTwo(a, b, Later(x, y).value.code);
    }
  }

  lemma {:induction false} NodesAreDeeper(n: Node)
    ensures forall m: Node | m in Nodes(n) :: m.depth >= n.depth
    decreases n.value, Arity(n.value) + 1
  {
    DeeperBelow(n, Arity(n.value));
  }

  lemma {:induction false} DeeperBelow(n: Node, i: nat)
    requires i <= Arity(n.value)
    ensures forall m: Node | m in NodesBelow(n, i) :: m.depth >= n.depth
    decreases n.value, i
  {
    if i > 0 {
      var child := if n.value.Array? then n.value.items[i - 1] else n.value.members[i - 1].value;
      DeeperBelow(n, i - 1);
      NodesAreDeeper(Node(n.depth + 1, KeyAt(n.value, i - 1), child));
    }
  }

  function Opening(key: Option<string>, v: Json): Option<Violation> {
    if OpaqueMember(key, v) then Fault(Opaque) else None
  }

  /** A visit reports the last value, in traversal order, that is too deep or opaque. */
  lemma {:induction false} FaultIsTheLast(v: Json, depth: nat, key: Option<string>)
    ensures FaultOf(Later(Opening(key, v), Faults(v, depth)), Nodes(Node(depth, key, v)))
    decreases v, Arity(v) + 1
  {
    hide OpaqueMember;
    var root := Node(depth, key, v);
    if depth > MAX_DEPTH {
      NodesAreDeeper(root);
      var all := Nodes(root);
      assert all[0] == root && !Readable(all[0]);
      assert !Readable(all[|all| - 1]) && all[|all|..] == [];
      assert LastWrong(all, TooDeep);
    } else {
      assert FaultOf(Opening(key, v), [root]) by {
        assert [root][1..] == [];
        assert OpaqueMember(key, v) ==> !Readable([root][0]) && AllReadable([root][1..]);
      }
      FaultBelow(v, depth, key, Arity(v));
      FaultOfBoth(Opening(key, v), [root], Faults(v, depth), NodesBelow(root, Arity(v)));
    }
  }

  lemma {:induction false} FaultBelow(v: Json, depth: nat, key: Option<string>, i: nat)
    requires i <= Arity(v)
    ensures FaultOf(FaultsBelow(v, depth, i), NodesBelow(Node(depth, key, v), i))
    decreases v, i
  {
    hide OpaqueMember, FaultOf;
    var root := Node(depth, key, v);
    if i == 0 {
      NoFaultBelow(v, depth, root);
    } else {
      var child := if v.Array? then v.items[i - 1] else v.members[i - 1].value;
      var member := KeyAt(v, i - 1);
      FaultBelow(v, depth, key, i - 1);
      FaultIsTheLast(child, depth + 1, member);
      OneMore(v, depth, i - 1);
      NodesStep(root, i - 1);
      FaultOfBoth(FaultsBelow(v, depth, i - 1), NodesBelow(root, i - 1),
                  Later(Opening(member, child), Faults(child, depth + 1)), Nodes(Node(depth + 1, member, child)));
    }
  }

  lemma NoFaultBelow(v: Json, depth: nat, n: Node)
    requires n.value == v
    ensures FaultOf(FaultsBelow(v, depth, 0), NodesBelow(n, 0))
  {
  }

  lemma RootUnreadable(n: Node)
    requires OpaqueMember(n.key, n.value)
    ensures !AllReadable(Nodes(n))
  {
    assert n in Nodes(n) && !Readable(n);
  }

  lemma NodesStep(n: Node, i: nat)
    requires i < Arity(n.value)
    ensures NodesBelow(n, i + 1) == NodesBelow(n, i) + Nodes(Node(n.depth + 1, KeyAt(n.value, i), Child(n.value, i)))
  {
  }

  lemma OneMore(v: Json, depth: nat, i: nat)
    requires i < Arity(v)
    ensures ReachedBelow(v, depth, i + 1) == ReachedBelow(v, depth, i) + Reached(Child(v, i), depth + 1)
    ensures FaultsBelow(v, depth, i + 1)
      == Later(Later(FaultsBelow(v, depth, i), if OpaqueMember(KeyAt(v, i), Child(v, i)) then Fault(Opaque) else None),
               Faults(Child(v, i), depth + 1))
  {
  }

  lemma {:induction false} TextsAppend(a: seq<Node>, b: seq<Node>)
    ensures Texts(a + b) == Texts(a) + Texts(b)
  {
    if b == [] {
      assert a + b == a;
    } else {
      assert (a + b)[..|a + b| - 1] == a + b[..|b| - 1];
      TextsAppend(a, b[..|b| - 1]);
    }
  }

  /* ---- The two texts that rules are matched against ---- */

  /** Leaves on lines of their own. */
  function Lined(leaves: seq<string>): string {
    if leaves == [] then ""
    else
      var before := Lined(leaves[..|leaves| - 1]);
      (if before == "" then "" else before + "\n") + leaves[|leaves| - 1]
  }

  /** Leaves one after the other. */
  function Joined(leaves: seq<string>): string {
    if leaves == [] then "" else Joined(leaves[..|leaves| - 1]) + leaves[|leaves| - 1]
  }

  /** Both texts keep the order of the leaves; in the one a line break stands between them, in the other nothing. */
  lemma TextsInOrder(a: seq<string>, b: seq<string>)
    ensures Joined(a + b) == Joined(a) + Joined(b)
    ensures a != [] && b != [] && "" !in a && "" !in b ==> Lined(a + b) == Lined(a) + "\n" + Lined(b)
  {
    hide Joined, Lined;
    JoinedAppend(a, b);
    if a != [] && b != [] && "" !in a && "" !in b {
      LinedAppend(a, b);
    }
  }

  lemma TextOfOne(leaf: string)
    ensures Joined([leaf]) == leaf == Lined([leaf])
  {
    assert [leaf][..0] == [];
  }

  lemma {:induction false} JoinedAppend(a: seq<string>, b: seq<string>)
    ensures Joined(a + b) == Joined(a) + Joined(b)
  {
    if b == [] {
      assert a + b == a;
    } else {
      assert (a + b)[..|a + b| - 1] == a + b[..|b| - 1];
      var init, last := b[..|b| - 1], b[|b| - 1];
      JoinedAppend(a, init);
      assert (Joined(a) + Joined(init)) + last == Joined(a) + (Joined(init) + last);
    }
  }

  lemma {:induction false} LinedAppend(a: seq<string>, b: seq<string>)
    requires a != [] && b != [] && "" !in a && "" !in b
    ensures Lined(a + b) == Lined(a) + "\n" + Lined(b)
  {
    var init, last := b[..|b| - 1], b[|b| - 1];
    assert (a + b)[..|a + b| - 1] == a + init && (a + b)[|a + b| - 1] == last;
    assert a[0] in a && b[0] in b;
    NotBlank(a + init);
    if init == [] {
      assert a + init == a;
    } else {
      NotBlank(init);
      LinedAppend(a, init);
    }
  }

  lemma NotBlank(leaves: seq<string>)
    requires leaves != [] && "" !in leaves
    ensures Lined(leaves) != ""
  {
  }

  lemma ContainsIn(a: string, b: string, c: string, p: string)
    requires Contains(b, p)
    ensures Contains(a + b + c, p)
  {
    var i :| 0 <= i <= |b| && OccursAt(b, p, i);
    assert (a + b + c)[|a| + i..|a| + i + |p|] == b[i..i + |p|];
    assert OccursAt(a + b + c, p, |a| + i);
  }

  lemma {:induction false} LeafInJoined(leaves: seq<string>, leaf: string, p: string)
    requires leaf in leaves && Contains(leaf, p)
    ensures Contains(Joined(leaves), p)
  {
    var init, last := leaves[..|leaves| - 1], leaves[|leaves| - 1];
    assert leaves == init + [last];
    if leaf in init {
      LeafInJoined(init, leaf, p);
      ContainsIn("", Joined(init), last, p);
      assert "" + Joined(init) + last == Joined(leaves);
    } else {
      ContainsIn(Joined(init), last, "", p);
      assert Joined(init) + last + "" == Joined(leaves);
    }
  }

  /** What is found across a line break, and has no line break itself, is on one side of it. */
  lemma AcrossLine(a: string, b: string, p: string)
    requires Contains(a + "\n" + b, p) && '\n' !in p
    ensures Contains(a, p) || Contains(b, p)
  {
    var s := a + "\n" + b;
    var i :| 0 <= i <= |s| && OccursAt(s, p, i);
    if i + |p| <= |a| {
      assert a[i..i + |p|] == s[i..i + |p|];
      assert OccursAt(a, p, i);
    } else if i > |a| {
      var j := i - |a| - 1;
      assert b == s[|a| + 1..];
      assert b[j..j + |p|] == s[i..i + |p|];
      assert OccursAt(b, p, j);
    } else {
      BreakInside(a, b, p, i);
    }
  }

  lemma BreakInside(a: string, b: string, p: string, i: nat)
    requires OccursAt(a + "\n" + b, p, i) && i <= |a| < i + |p|
    ensures '\n' in p
  {
    assert p[|a| - i] == (a + "\n" + b)[|a|];
  }

  lemma {:induction false} LinedInLeaf(leaves: seq<string>, p: string)
    requires Contains(Lined(leaves), p) && '\n' !in p && p != ""
    ensures exists leaf | leaf in leaves :: Contains(leaf, p)
  {
    if leaves != [] {
      var init, last := leaves[..|leaves| - 1], leaves[|leaves| - 1];
      assert leaves == init + [last];
      if Lined(init) != "" {
        AcrossLine(Lined(init), last, p);
      }
      if Lined(init) != "" && Contains(Lined(init), p) {
        LinedInLeaf(init, p);
      } else {
        assert Lined(init) == "" ==> Lined(leaves) == last;
        assert last in leaves && Contains(last, p);
      }
    }
  }

  /* ---- Rules ---- */

  datatype Rule = Rule(id: string, blocks: bool, matches: string -> bool)

  datatype Policy = Policy(maxRequest: nat, maxFile: nat, maxFiles: nat, extensions: seq<string>, rules: seq<Rule>)

  ghost predicate Literal(r: Rule, p: string) {
    forall t :: r.matches(t) <==> Contains(t, p)
  }

  predicate Flags(r: Rule, leaves: seq<string>) {
    r.matches(Lined(leaves)) || r.matches(Joined(leaves))
  }

  /** A literal without a line break is flagged exactly when it occurs in the leaves read one after the other; then no
      single leaf needs to be searched. */
  lemma LiteralFlags(r: Rule, p: string, leaves: seq<string>)
    requires Literal(r, p) && '\n' !in p && p != ""
    ensures Flags(r, leaves) <==> Contains(Joined(leaves), p)
  {
    if Contains(Lined(leaves), p) {
      LinedInLeaf(leaves, p);
      var leaf :| leaf in leaves && Contains(leaf, p);
      LeafInJoined(leaves, leaf, p);
    }
  }

  function FileFault(p: Policy, f: File): Option<Violation> {
    if f.extension !in p.extensions then Fault(TypeNotAllowed)
    else if f.bytes > p.maxFile then Fault(FileTooLarge)
    else None
  }

  function FirstFileFault(p: Policy, files: seq<File>): Option<Violation> {
    if files == [] then None
    else if FileFault(p, files[0]).Some? then FileFault(p, files[0])
    else FirstFileFault(p, files[1..])
  }

  function RuleFault(r: Rule, c: Content, blocking: bool): Option<Violation> {
    if r.blocks != blocking then None
    else if blocking then (if Flags(r, c.leaves) then Some(Violation(BlockedPattern, Some(r.id))) else None)
    else if r.matches(Lined(c.leaves)) then None
    else Some(Violation(RequiredPatternMissing, Some(r.id)))
  }

  function FirstRuleFault(rules: seq<Rule>, c: Content, blocking: bool): Option<Violation> {
    if rules == [] then None
    else if RuleFault(rules[0], c, blocking).Some? then RuleFault(rules[0], c, blocking)
    else FirstRuleFault(rules[1..], c, blocking)
  }

  /** Size, inspection, files, block rules, then required rules: the first objection is the verdict. */
  function Verdict(p: Policy, c: Content): Option<Violation> {
    if c.bytes > p.maxRequest then Fault(RequestTooLarge)
    else if c.violation.Some? then c.violation
    else if |c.files| > p.maxFiles then Fault(TooManyFiles)
    else if FirstFileFault(p, c.files).Some? then FirstFileFault(p, c.files)
    else if FirstRuleFault(p.rules, c, true).Some? then FirstRuleFault(p.rules, c, true)
    else FirstRuleFault(p.rules, c, false)
  }

  lemma {:induction false} NoRuleFault(rules: seq<Rule>, c: Content, blocking: bool)
    ensures FirstRuleFault(rules, c, blocking).None? <==> forall r: Rule | r in rules :: RuleFault(r, c, blocking).None?
  {
    if rules != [] {
      NoRuleFault(rules[1..], c, blocking);
      assert rules == [rules[0]] + rules[1..];
    }
  }

  lemma {:induction false} NoFileFault(p: Policy, files: seq<File>)
    ensures FirstFileFault(p, files).None? <==> forall f: File | f in files :: FileFault(p, f).None?
  {
    if files != [] {
      NoFileFault(p, files[1..]);
      assert files == [files[0]] + files[1..];
    }
  }

  /** Allowed means no objection at all: block rules win wherever they stand in the list, required rules all hold. */
  lemma AllowedIff(p: Policy, c: Content)
    ensures Verdict(p, c).None? <==>
      && c.bytes <= p.maxRequest && c.violation.None? && |c.files| <= p.maxFiles
      && (forall f: File | f in c.files :: f.extension in p.extensions && f.bytes <= p.maxFile)
      && (forall r: Rule | r in p.rules :: if r.blocks then !Flags(r, c.leaves) else r.matches(Lined(c.leaves)))
  {
    NoFileFault(p, c.files);
    NoRuleFault(p.rules, c, true);
    NoRuleFault(p.rules, c, false);
  }

  predicate FileAllowed(p: Policy, f: File) {
    f.extension in p.extensions && f.bytes <= p.maxFile
  }

  /** The first file that is not allowed gives the reason. */
  lemma {:induction false} FirstFileNames(p: Policy, files: seq<File>, k: nat)
    requires k < |files| && !FileAllowed(p, files[k]) && forall i | 0 <= i < k :: FileAllowed(p, files[i])
    ensures FirstFileFault(p, files)
      == Some(Violation(if files[k].extension in p.extensions then FileTooLarge else TypeNotAllowed, None))
  {
    if k > 0 {
      assert FileAllowed(p, files[0]);
      FirstFileNames(p, files[1..], k - 1);
    }
  }

  predicate Passes(r: Rule, c: Content, blocking: bool) {
    r.blocks != blocking || if blocking then !Flags(r, c.leaves) else r.matches(Lined(c.leaves))
  }

  /** The first rule of its kind that does not pass is the one named. */
  lemma {:induction false} FirstRuleNames(rules: seq<Rule>, c: Content, blocking: bool, k: nat)
    requires k < |rules| && !Passes(rules[k], c, blocking) && forall i | 0 <= i < k :: Passes(rules[i], c, blocking)
    ensures FirstRuleFault(rules, c, blocking)
      == Some(Violation(if blocking then BlockedPattern else RequiredPatternMissing, Some(rules[k].id)))
  {
    if k > 0 {
      assert Passes(rules[0], c, blocking);
      FirstRuleNames(rules[1..], c, blocking, k - 1);
    }
  }

  predicate Handled(p: Policy, c: Content) {
    c.bytes <= p.maxRequest && c.violation.None?
  }

  predicate FilesAllowed(p: Policy, c: Content) {
    |c.files| <= p.maxFiles && forall f: File | f in c.files :: FileAllowed(p, f)
  }

  /** Which objection is named: the size, then the inspection's fault, then the number of files, then the first file
      not allowed, then the first block rule that matches in either text wherever it stands, then the first required
      rule that does not match. */
  lemma VerdictNames(p: Policy, c: Content)
    ensures c.bytes > p.maxRequest ==> Verdict(p, c) == Some(Violation(RequestTooLarge, None))
    ensures c.bytes <= p.maxRequest && c.violation.Some? ==> Verdict(p, c) == c.violation
    ensures Handled(p, c) && |c.files| > p.maxFiles ==> Verdict(p, c) == Some(Violation(TooManyFiles, None))
    ensures forall k | 0 <= k < |c.files| && Handled(p, c) && |c.files| <= p.maxFiles && !FileAllowed(p, c.files[k])
        && (forall i | 0 <= i < k :: FileAllowed(p, c.files[i])) ::
      Verdict(p, c) == Some(Violation(if c.files[k].extension in p.extensions then FileTooLarge else TypeNotAllowed, None))
    ensures forall k | 0 <= k < |p.rules| && Handled(p, c) && FilesAllowed(p, c) && !Passes(p.rules[k], c, true)
        && (forall i | 0 <= i < k :: Passes(p.rules[i], c, true)) ::
      Verdict(p, c) == Some(Violation(BlockedPattern, Some(p.rules[k].id)))
    ensures forall k | 0 <= k < |p.rules| && Handled(p, c) && FilesAllowed(p, c) && !Passes(p.rules[k], c, false)
        && (forall r: Rule | r in p.rules :: Passes(r, c, true)) && (forall i | 0 <= i < k :: Passes(p.rules[i], c, false)) ::
      Verdict(p, c) == Some(Violation(RequiredPatternMissing, Some(p.rules[k].id)))
  {
    NoFileFault(p, c.files);
    NoRuleFault(p.rules, c, true);
    forall k | 0 <= k < |c.files| && !FileAllowed(p, c.files[k]) && forall i | 0 <= i < k :: FileAllowed(p, c.files[i])
      ensures FirstFileFault(p, c.files)
        == Some(Violation(if c.files[k].extension in p.extensions then FileTooLarge else TypeNotAllowed, None))
    {
      FirstFileNames(p, c.files, k);
    }
    forall blocking, k | 0 <= k < |p.rules| && !Passes(p.rules[k], c, blocking)
        && forall i | 0 <= i < k :: Passes(p.rules[i], c, blocking)
      ensures FirstRuleFault(p.rules, c, blocking)
        == Some(Violation(if blocking then BlockedPattern else RequiredPatternMissing, Some(p.rules[k].id)))
    {
      FirstRuleNames(p.rules, c, blocking, k);
    }
  }

  /* ---- Attachments ---- */

  const FILE_TYPES: map<string, string> := map[
    "txt" := "text/plain", "md" := "text/markdown", "csv" := "text/csv", "json" := "application/json",
    "log" := "text/plain", "yaml" := "application/yaml", "yml" := "application/yaml"]

  predicate Control(c: char) {
    c < ' ' || c == 127 as char
  }

  function Lower(s: string): string {
    if s == "" then "" else [if 'A' <= s[0] <= 'Z' then (s[0] as int + 32) as char else s[0]] + Lower(s[1..])
  }

  /** Only capital letters change, each to its small one. */
  lemma {:induction false} LowerIs(s: string)
    ensures |Lower(s)| == |s|
    ensures forall i | 0 <= i < |s| ::
      if 'A' <= s[i] <= 'Z' then Lower(s)[i] as int - 'a' as int == s[i] as int - 'A' as int else Lower(s)[i] == s[i]
  {
    if s != "" {
      LowerIs(s[1..]);
    }
  }

  /** What follows the last dot, in lower case; nothing without a dot. */
  function Extension(name: string): string {
    if '.' in name then Lower(AfterDot(name)) else ""
  }

  function AfterDot(name: string): string
    requires '.' in name
  {
    var last := name[|name| - 1];
    if last == '.' then "" else AfterDot(name[..|name| - 1]) + [last]
  }

  /** It is what follows the last dot: a name splits into a stem, a dot, and a part without a dot. */
  lemma {:induction false} AfterLastDot(name: string)
    requires '.' in name
    ensures '.' !in AfterDot(name) && |AfterDot(name)| < |name|
    ensures name == name[..|name| - |AfterDot(name)| - 1] + "." + AfterDot(name)
  {
    var init, last := name[..|name| - 1], name[|name| - 1];
    assert name == init + [last];
    if last != '.' {
      AfterLastDot(init);
    }
  }

  predicate BadName(name: string) {
    name == "" || |name| > 180 || name[0] == '.'
    || exists c | c in name :: Control(c) || c == '/' || c == '\\' || c == ':'
  }

  predicate Binary(text: string) {
    "MZ" <= text || [127 as char, 'E', 'L', 'F'] <= text || "%PDF-" <= text || ['P', 'K', 3 as char, 4 as char] <= text
    || exists c | c in text :: Control(c) && c != '\n' && c != '\r' && c != '\t'
  }

  function AttachmentFault(a: TextAttachment, isJson: string -> bool): Option<Violation> {
    var extension := Extension(a.name);
    if BadName(a.name) then Fault(InvalidName)
    else if extension !in FILE_TYPES || FILE_TYPES[extension] != a.mediaType then Fault(MediaTypeMismatch)
    else if Binary(a.text) then Fault(Uninspectable)
    else if extension == "json" && !isJson(a.text) then Fault(InvalidJson)
    else None
  }

  /** An attachment is in order exactly if its name is short and plain, its media type is the one of its extension, its
      text is text, and a JSON file holds JSON. */
  lemma AttachmentInOrder(a: TextAttachment, isJson: string -> bool)
    ensures AttachmentFault(a, isJson).None? <==>
      && 0 < |a.name| <= 180 && a.name[0] != '.'
      && (forall c | c in a.name :: 32 <= c as int && c as int != 127 && c != '/' && c != '\\' && c != ':')
      && Extension(a.name) in FILE_TYPES && FILE_TYPES[Extension(a.name)] == a.mediaType
      && !("MZ" <= a.text) && !([127 as char, 'E', 'L', 'F'] <= a.text) && !("%PDF-" <= a.text)
      && !(['P', 'K', 3 as char, 4 as char] <= a.text)
      && (forall c | c in a.text :: (32 <= c as int && c as int != 127) || c == '\n' || c == '\r' || c == '\t')
      && (Extension(a.name) == "json" ==> isJson(a.text))
  {
    hide Extension;
    assert forall c | c in a.name :: Control(c) <==> c as int < 32 || c as int == 127;
    assert forall c | c in a.text :: Control(c) <==> c as int < 32 || c as int == 127;
  }

  function Attached(c: Content, a: TextAttachment, isJson: string -> bool, wire: nat): Content {
    Content(Min(c.bytes + wire, U64_MAX), c.leaves + [a.name, a.text], c.files + [File(Extension(a.name), |a.text|)],
            Later(c.violation, AttachmentFault(a, isJson)))
  }

  function Visited(c: Content, v: Json): Content {
    c.(leaves := c.leaves + Reached(v, 0), violation := Later(c.violation, Faults(v, 0)))
  }

  function Inspected(bytes: nat, body: Json, attachments: seq<TextAttachment>, isJson: string -> bool,
      wire: TextAttachment -> nat): Content {
    if attachments == [] then Visited(Content(bytes, [], [], None), body)
    else
      var init, last := attachments[..|attachments| - 1], attachments[|attachments| - 1];
      Attached(Inspected(bytes, body, init, isJson, wire), last, isJson, wire(last))
  }

  /** Every decoded text of a request: the body's, the attachments' names and texts, and the added source's. */
  function Decoded(body: Json, attachments: seq<TextAttachment>, source: Json): seq<string> {
    Texts(Nodes(Node(0, None, body))) + AttachmentTexts(attachments) + Texts(Nodes(Node(0, None, source)))
  }

  function AttachmentTexts(attachments: seq<TextAttachment>): seq<string> {
    if attachments == [] then []
    else
      AttachmentTexts(attachments[..|attachments| - 1])
      + [attachments[|attachments| - 1].name, attachments[|attachments| - 1].text]
  }

  lemma {:induction false} InspectedLeaves(
    bytes: nat, body: Json, attachments: seq<TextAttachment>, isJson: string -> bool, wire: TextAttachment -> nat)
    ensures var c := Inspected(bytes, body, attachments, isJson, wire);
      && c.leaves == Reached(body, 0) + AttachmentTexts(attachments)
      && (c.violation.None? <==>
            Faults(body, 0).None? && forall a: TextAttachment | a in attachments :: AttachmentFault(a, isJson).None?)
  {
    hide Extension, AttachmentFault, Reached, Faults;
    if attachments != [] {
      var init, last := attachments[..|attachments| - 1], attachments[|attachments| - 1];
      InspectedLeaves(bytes, body, init, isJson, wire);
      assert attachments == init + [last];
    }
  }

  function Wires(attachments: seq<TextAttachment>, wire: TextAttachment -> nat): nat {
    if attachments == [] then 0
    else Wires(attachments[..|attachments| - 1], wire) + wire(attachments[|attachments| - 1])
  }

  /** Each attachment is listed in its place with its extension and its size, and the bytes are those of the request and
      of every attachment as it is sent, as far as an unsigned 64-bit integer counts. */
  lemma {:induction false} InspectedFiles(
    bytes: nat, body: Json, attachments: seq<TextAttachment>, isJson: string -> bool, wire: TextAttachment -> nat)
    requires bytes <= U64_MAX
    ensures var c := Inspected(bytes, body, attachments, isJson, wire);
      && |c.files| == |attachments| && c.bytes == Min(bytes + Wires(attachments, wire), U64_MAX)
      && forall i | 0 <= i < |attachments| ::
        c.files[i].extension == Extension(attachments[i].name) && c.files[i].bytes == |attachments[i].text|
  {
    hide Extension, AttachmentFault, Reached, Faults;
    if attachments != [] {
      var init, last := attachments[..|attachments| - 1], attachments[|attachments| - 1];
      InspectedFiles(bytes, body, init, isJson, wire);
    }
  }

  predicate InOrder(attachments: seq<TextAttachment>, isJson: string -> bool) {
    forall a: TextAttachment | a in attachments :: AttachmentFault(a, isJson).None?
  }

  /** The fault of a request is that of its last faulty attachment; without one, that of its body. */
  lemma {:induction false} InspectedFault(
    bytes: nat, body: Json, attachments: seq<TextAttachment>, isJson: string -> bool, wire: TextAttachment -> nat, k: nat)
    requires k <= |attachments| && InOrder(attachments[k..], isJson)
    requires k > 0 ==> AttachmentFault(attachments[k - 1], isJson).Some?
    ensures var fault := Inspected(bytes, body, attachments, isJson, wire).violation;
      if k > 0 then fault == AttachmentFault(attachments[k - 1], isJson) else FaultOf(fault, Nodes(Node(0, None, body)))
  {
    hide Extension, AttachmentFault, Reached, Faults, Nodes, FaultOf, InOrder;
    if attachments == [] {
      FaultIsTheLast(body, 0, None);
      assert Opening(None, body).None?;
    } else if k < |attachments| {
      FewerInOrder(attachments, isJson, k);
      InspectedFault(bytes, body, attachments[..|attachments| - 1], isJson, wire, k);
    }
  }

  lemma FewerInOrder(attachments: seq<TextAttachment>, isJson: string -> bool, k: nat)
    requires k < |attachments| && InOrder(attachments[k..], isJson)
    ensures var init, last := attachments[..|attachments| - 1], attachments[|attachments| - 1];
      InOrder(init[k..], isJson) && AttachmentFault(last, isJson).None?
  {
    hide AttachmentFault;
    assert attachments[|attachments| - 1] == attachments[k..][|attachments| - k - 1];
    assert attachments[k..] == attachments[..|attachments| - 1][k..] + [attachments[|attachments| - 1]];
  }

  /** Inspection hides nothing: if a request with its source is allowed, then every value was within reach and readable,
      and the literal of a block rule occurs in no decoded text, nor across decoded texts read one after the other. */
  lemma InspectionHidesNothing(
    p: Policy, bytes: nat, body: Json, attachments: seq<TextAttachment>, source: Json, isJson: string -> bool,
    wire: TextAttachment -> nat, sent: nat)
    requires var c := Inspected(bytes, body, attachments, isJson, wire);
      Verdict(p, Visited(c.(bytes := sent), source)).None?
    ensures AllReadable(Nodes(Node(0, None, body))) && AllReadable(Nodes(Node(0, None, source)))
    ensures forall a: TextAttachment | a in attachments :: AttachmentFault(a, isJson).None?
    ensures forall r: Rule, literal | r in p.rules && r.blocks && Literal(r, literal) ::
      !Contains(Joined(Decoded(body, attachments, source)), literal)
    ensures var texts := Decoded(body, attachments, source);
      forall r: Rule, literal, t | r in p.rules && r.blocks && Literal(r, literal) && t in texts :: !Contains(t, literal)
  {
    var c := Inspected(bytes, body, attachments, isJson, wire);
    var seen := Visited(c.(bytes := sent), source);
    InspectedLeaves(bytes, body, attachments, isJson, wire);
    VisitIsComplete(body, 0, None);
    VisitIsComplete(source, 0, None);
    AllowedIff(p, seen);
    assert seen.leaves == Decoded(body, attachments, source);
    var texts := Decoded(body, attachments, source);
    forall r: Rule, literal, t | r in p.rules && r.blocks && Literal(r, literal) && t in texts
      ensures !Contains(t, literal)
    {
      if Contains(t, literal) {
        LeafInJoined(seen.leaves, t, literal);
      }
    }
  }

  /** For a policy of literal block rules without line breaks, the verdict is exact: it allows a request if and only if
      all of it could be read, its sizes and files are within the policy, and no literal occurs in its decoded text. */
  lemma LiteralPolicyIsExact(
    p: Policy, bytes: nat, body: Json, attachments: seq<TextAttachment>, source: Json, isJson: string -> bool,
    wire: TextAttachment -> nat, sent: nat, literal: Rule -> string)
    requires forall r: Rule | r in p.rules ::
      r.blocks && Literal(r, literal(r)) && '\n' !in literal(r) && literal(r) != ""
    ensures var c := Inspected(bytes, body, attachments, isJson, wire);
      Verdict(p, Visited(c.(bytes := sent), source)).None? <==>
        && sent <= p.maxRequest && |c.files| <= p.maxFiles
        && AllReadable(Nodes(Node(0, None, body))) && AllReadable(Nodes(Node(0, None, source)))
        && (forall a: TextAttachment | a in attachments :: AttachmentFault(a, isJson).None?)
        && (forall f: File | f in c.files :: f.extension in p.extensions && f.bytes <= p.maxFile)
        && (forall r: Rule | r in p.rules :: !Contains(Joined(Decoded(body, attachments, source)), literal(r)))
  {
    hide Inspected, AllReadable, AttachmentFault, Nodes, Contains, Joined, Lined, Verdict;
    var c := Inspected(bytes, body, attachments, isJson, wire);
    var seen := Visited(c.(bytes := sent), source);
    InspectedLeaves(bytes, body, attachments, isJson, wire);
    VisitIsComplete(body, 0, None);
    VisitIsComplete(source, 0, None);
    AllowedIff(p, seen);
    assert seen.violation.None? ==> seen.leaves == Decoded(body, attachments, source);
    forall r: Rule | r in p.rules ensures Flags(r, seen.leaves) <==> Contains(Joined(seen.leaves), literal(r)) {
      LiteralFlags(r, literal(r), seen.leaves);
    }
  }
}
