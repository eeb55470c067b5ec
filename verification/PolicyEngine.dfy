/** The inspection of one request as it runs, and the vault's verdicts. */
module PolicyEngine {
  import opened Common
  import opened JsonValues
  import opened ContentPolicy

  class Inspection {
    var bytes: nat
    var text: string
    var joined: string
    var files: seq<File>
    var violation: Option<Violation>
    ghost var leaves: seq<string>

    ghost predicate Valid()
      reads this
    {
      text == Lined(leaves) && joined == Joined(leaves)
    }

    ghost function View(): Content
      reads this
    {
      Content(bytes, leaves, files, violation)
    }

    constructor (bytes: nat, body: Json, attachments: seq<TextAttachment>, isJson: string -> bool,
        wire: TextAttachment -> nat)
      ensures Valid() && View() == Inspected(bytes, body, attachments, isJson, wire)
    {
      this.bytes, text, joined, files, violation, leaves := bytes, "", "", [], None, [];
      new;
      hide Reached, Faults, Lined, Joined, Attached;
      assert Valid() by { EmptyTexts(); }
      Visit(body, 0);
      var i := 0;
      assert attachments[..0] == [];
      while i < |attachments|
        invariant i <= |attachments| && Valid()
        invariant View() == Inspected(bytes, body, attachments[..i], isJson, wire)
      {
        assert attachments[..i + 1][..i] == attachments[..i];
        Attach(attachments[i], isJson, wire(attachments[i]));
        i := i + 1;
      }
      assert attachments[..i] == attachments;
    }

    method Attach(a: TextAttachment, isJson: string -> bool, wire: nat)
      requires Valid()
      modifies this
      ensures Valid() && View() == Attached(old(View()), a, isJson, wire)
    {
      hide Lined, Joined, AttachmentFault, Extension;
      bytes := Min(bytes + wire, U64_MAX);
      if AttachmentFault(a, isJson).Some? { violation := AttachmentFault(a, isJson); }
      files := files + [File(Extension(a.name), |a.text|)];
      Push(a.name);
      Push(a.text);
    }

    method Push(leaf: string)
      requires Valid()
      modifies this`text, this`joined, this`leaves
      ensures Valid() && leaves == old(leaves) + [leaf]
    {
      if text != "" { text := text + "\n"; }
      text := text + leaf;
      joined := joined + leaf;
      leaves := leaves + [leaf];
      assert leaves[..|leaves| - 1] == old(leaves);
    }

    method Visit(v: Json, depth: nat)
      requires Valid()
      modifies this`text, this`joined, this`leaves, this`violation
      ensures Valid() && leaves == old(leaves) + Reached(v, depth) && violation == Later(old(violation), Faults(v, depth))
      decreases v
    {
      hide Reached, ReachedBelow, Faults, FaultsBelow, OpaqueMember, Lined, Joined;
      WholeVisit(v, depth);
      if depth > MAX_DEPTH {
        violation := Fault(TooDeep);
        return;
      }
      if v.Text? {
        Push(v.s);
        return;
      }
      var i := 0;
      while i < Arity(v)
        invariant i <= Arity(v) && Valid()
        invariant leaves == old(leaves) + ReachedBelow(v, depth, i)
        invariant violation == Later(old(violation), FaultsBelow(v, depth, i))
      {
        OneMore(v, depth, i);
        var item := if v.Array? then v.items[i] else v.members[i].value;
        if OpaqueMember(KeyAt(v, i), item) { violation := Fault(Opaque); }
        Visit(item, depth + 1);
        i := i + 1;
      }
    }

    method IncludeSource(v: Json)
      requires Valid()
      modifies this`text, this`joined, this`leaves, this`violation
      ensures Valid() && View() == Visited(old(View()), v)
    {
      Visit(v, 0);
    }

    method AccountWireSize(size: nat)
      requires Valid()
      modifies this`bytes
      ensures Valid() && View() == old(View()).(bytes := size)
    {
      bytes := size;
    }
  }

  lemma EmptyTexts()
    ensures Lined([]) == "" && Joined([]) == ""
  {
  }

  lemma WholeVisit(v: Json, depth: nat)
    ensures Reached(v, depth) == if depth > MAX_DEPTH then [] else if v.Text? then [v.s] else ReachedBelow(v, depth, Arity(v))
    ensures Faults(v, depth) == if depth > MAX_DEPTH then Fault(TooDeep) else FaultsBelow(v, depth, Arity(v))
    ensures ReachedBelow(v, depth, 0) == [] && FaultsBelow(v, depth, 0).None? && (v.Text? ==> Arity(v) == 0)
  {
  }

  /** The first objection of one policy. */
  method Evaluate(p: Policy, content: Inspection) returns (r: Option<Violation>)
    requires content.Valid()
    ensures r == Verdict(p, content.View())
  {
    if content.bytes > p.maxRequest { return Fault(RequestTooLarge); }
    if content.violation.Some? { return content.violation; }
    if |content.files| > p.maxFiles { return Fault(TooManyFiles); }
    for i := 0 to |content.files|
      invariant FirstFileFault(p, content.files) == FirstFileFault(p, content.files[i..])
    {
      if content.files[i].extension !in p.extensions { return Fault(TypeNotAllowed); }
      if content.files[i].bytes > p.maxFile { return Fault(FileTooLarge); }
    }
    for i := 0 to |p.rules|
      invariant FirstRuleFault(p.rules, content.View(), true) == FirstRuleFault(p.rules[i..], content.View(), true)
    {
      var rule := p.rules[i];
      if rule.blocks && (rule.matches(content.text) || rule.matches(content.joined)) {
        return Some(Violation(BlockedPattern, Some(rule.id)));
      }
    }
    for i := 0 to |p.rules|
      invariant FirstRuleFault(p.rules, content.View(), false) == FirstRuleFault(p.rules[i..], content.View(), false)
    {
      var rule := p.rules[i];
      if !rule.blocks && !rule.matches(content.text) { return Some(Violation(RequiredPatternMissing, Some(rule.id))); }
    }
    r := None;
  }

  datatype Layer = Managed | Local | Combined

  datatype Decision = Decision(allowed: bool, layer: Layer, reason: Option<Violation>, revision: nat, bytes: nat,
      files: nat)

  const RETAINED := 1000

  /** The last `n` of a trail. */
  function Last<T>(s: seq<T>, n: nat): (r: seq<T>)
    ensures |r| == Min(|s|, n)
    ensures forall i | 0 <= i < |r| :: r[i] == s[|s| - |r| + i]
  {
    if |s| <= n then s else s[|s| - n..]
  }

  class PolicyVault {
    var revision: nat
    var local: Policy
    var decisions: seq<Decision>

    ghost predicate Valid()
      reads this
    {
      |decisions| <= RETAINED
    }

    /** Replaces the local policy by one that compiles, but only if nobody else has done so since `expected`. A policy
        that does not compile is an error, and nothing is replaced. */
    method Save(expected: nat, policy: Policy, compiles: bool) returns (r: Option<bool>)
      requires Valid()
      modifies this`revision, this`local
      ensures Valid() && (r.None? <==> !compiles) && (r == Some(true) <==> compiles && expected == old(revision))
      ensures revision == old(revision) + (if r == Some(true) then 1 else 0)
      ensures local == (if r == Some(true) then policy else old(local))
    {
      if !compiles { return None; }
      var saved := revision == expected;
      if saved {
        revision, local := revision + 1, policy;
      }
      r := Some(saved);
    }

    /** A request is allowed exactly if both layers allow it: the local policy cannot weaken the managed one. */
    method PolicyEvaluate(managed: Option<Policy>, content: Inspection, persist: bool) returns (d: Decision)
      requires Valid() && content.Valid()
      modifies this`decisions
      ensures Valid() && decisions == if persist then Last(old(decisions) + [d], RETAINED) else old(decisions)
      ensures d.allowed <==>
        Verdict(local, content.View()).None? && (managed.Some? ==> Verdict(managed.value, content.View()).None?)
      ensures d.layer == (if d.allowed then Combined
                          else if managed.Some? && Verdict(managed.value, content.View()).Some? then Managed else Local)
      ensures d.reason == (if d.layer == Combined then None
                           else if d.layer == Managed && managed.Some? then Verdict(managed.value, content.View())
                           else Verdict(local, content.View()))
      ensures d.revision == revision && d.bytes == content.bytes && d.files == |content.files|
    {
      var reason, layer := None, Combined;
      if managed.Some? {
        reason := Evaluate(managed.value, content);
        layer := Managed;
      }
      if reason.None? {
        reason := Evaluate(local, content);
        layer := Local;
      }
      d := Decision(reason.None?, if reason.None? then Combined else layer, reason, revision, content.bytes, |content.files|);
      if persist {
        decisions := Last(decisions + [d], RETAINED);
      }
    }
  }
}
