/** Runs of the disclosure protocol: a request reads its context, injects it, and later revalidates and
    records a receipt, while edits, deletions, revocations, restores and other requests interleave. */
module Disclosure {
  import opened Common
  import opened Memories

  /** What the request body carries of a memory. */
  datatype Entry = Entry(memory: Key, source: Key, content: string, status: Status)

  datatype Stage = Selected(memories: seq<Memory>) | Sent(receipt: Option<Key>) | Refused
  datatype Request = Request(grant: Key, destination: string, body: seq<Entry>, stage: Stage)

  /** A recorded disclosure, with the receipt, and the vault and the time at the instant it was written. */
  datatype Disclosed = Disclosed(
    request: nat, grant: Key, destination: string, body: seq<Entry>, receipt: Receipt, tables: Tables, now: Time)

  /** `used` holds every memory, source and grant id the vault has held. */
  datatype Sys = Sys(tables: Tables, now: Time, requests: map<nat, Request>, used: set<Key>, log: seq<Disclosed>)

  datatype Op =
    | Tick(elapsed: nat)
    | Add(id: Key, source: Key, content: string, status: Status, kind: string)
    | Update(id: Key, text: Option<string>, state: Option<Status>)
    | Delete(id: Key)
    | DeleteSource(id: Key)
    | NewGrant(id: Key, destination: string, scope: Scope, seconds: int)
    | Revoke(id: Key)
    | Restore(archive: Tables)
    | Begin(i: nat, grant: Key, destination: string, principal: bool)
    | Drop(i: nat)
    | Record(i: nat, principal: bool, receipt: Key)

  function Inject(ms: seq<Memory>): seq<Entry> {
    seq(|ms|, i requires 0 <= i < |ms| => Entry(ms[i].id, ms[i].source, ms[i].content, ms[i].status))
  }

  /** The request may be sent now: its principal is still authorised and its selection is still the context. */
  ghost predicate Current(text: Text, s: Sys, i: nat) {
    && i in s.requests && s.requests[i].stage.Selected?
    && Context(text, s.tables, s.now, s.requests[i].grant, s.requests[i].destination, "")
         == Success(s.requests[i].stage.memories)
  }

  predicate Empty(t: Tables) {
    t.sources == map[] && t.memories == map[] && t.grants == map[] && t.receipts == map[]
  }

  ghost function Step(text: Text, s: Sys, op: Op): Sys {
    match op
    case Tick(d) => s.(now := s.now + d)
    case Add(id, source, content, status, kind) =>
      if id in s.used || source in s.used || id == source then s
      else s.(tables := AfterAdd(s.tables, s.now, id, source, content, status, kind), used := s.used + {id, source})
    case Update(id, content, status) =>
      if id !in s.tables.memories then s else s.(tables := AfterUpdate(s.tables, s.now, id, content, status))
    case Delete(id) => if id !in s.tables.memories then s else s.(tables := AfterDelete(s.tables, id))
    case DeleteSource(id) => s.(tables := AfterDeleteSource(s.tables, id))
    case NewGrant(id, destination, scope, seconds) =>
      if id in s.used || !(1 <= seconds <= LONGEST_GRANT) || !GoodScope(s.tables, scope) then s
      else s.(tables := AfterGrant(s.tables, s.now, id, destination, scope, seconds), used := s.used + {id})
    case Revoke(id) => s.(tables := AfterRevoke(s.tables, s.now, id))
    case Restore(archive) =>
      if !Empty(s.tables) then s
      else s.(tables := archive.(grants := map g | g in archive.grants :: RevokeAt(archive.grants[g], s.now)),
              used := s.used + archive.memories.Keys + archive.sources.Keys + archive.grants.Keys)
    case Begin(i, grant, destination, principal) =>
      if i in s.requests || !principal then s
      else
        var context := Context(text, s.tables, s.now, grant, destination, "");
        s.(requests := s.requests[i :=
          if context.Success? then Request(grant, destination, Inject(context.value), Selected(context.value))
          else Request(grant, destination, [], Refused)])
    case Drop(i) =>
      if i in s.requests && s.requests[i].stage.Selected?
      then s.(requests := s.requests[i := s.requests[i].(stage := Refused)]) else s
    case Record(i, principal, receipt) =>
      if i !in s.requests || !s.requests[i].stage.Selected? || receipt in s.tables.receipts then s
      else
        var r := s.requests[i];
        var ms := r.stage.memories;
        if !principal || !Current(text, s, i) then s.(requests := s.requests[i := r.(stage := Refused)])
        else if ms == [] then s.(requests := s.requests[i := r.(stage := Sent(None))])
        else
          s.(requests := s.requests[i := r.(stage := Sent(Some(receipt)))],
             tables := AfterReceipt(s.tables, s.now, receipt, r.destination, r.grant, ms),
             log := s.log + [DisclosedBy(s, i, receipt)])
  }

  /** What request `i` discloses now, with the receipt that is written of it. */
  function DisclosedBy(s: Sys, i: nat, receipt: Key): Disclosed
    requires i in s.requests && s.requests[i].stage.Selected?
  {
    var r := s.requests[i];
    var after := AfterReceipt(s.tables, s.now, receipt, r.destination, r.grant, r.stage.memories);
    Disclosed(i, r.grant, r.destination, r.body, after.receipts[receipt], s.tables, s.now)
  }

  ghost function Exec(text: Text, s: Sys, ops: seq<Op>): (r: Sys)
    ensures s.log <= r.log
    decreases |ops|
  {
    if ops == [] then s else Exec(text, Step(text, s, ops[0]), ops[1..])
  }

  /** Archives are consistent, and not from the future. */
  ghost predicate Sound(s: Sys, op: Op) {
    op.Restore? ==> Inv(op.archive) && forall m | m in op.archive.memories :: op.archive.memories[m].updated <= s.now
  }

  ghost predicate SoundRun(text: Text, s: Sys, ops: seq<Op>)
    decreases |ops|
  {
    ops != [] ==> Sound(s, ops[0]) && SoundRun(text, Step(text, s, ops[0]), ops[1..])
  }

  ghost predicate SysInv(s: Sys) {
    && Inv(s.tables)
    && s.tables.memories.Keys <= s.used && s.tables.sources.Keys <= s.used && s.tables.grants.Keys <= s.used
    && (forall m | m in s.tables.memories :: s.tables.memories[m].updated <= s.now)
    && (forall i | i in s.requests && s.requests[i].stage.Selected? ::
          s.requests[i].body == Inject(s.requests[i].stage.memories) && s.requests[i].grant in s.used)
  }

  lemma StepKeeps(text: Text, s: Sys, op: Op)
    requires SysInv(s) && Sound(s, op)
    ensures SysInv(Step(text, s, op))
  {
  }

  /* ---- Every disclosure is justified ---- */

  /** Each entry of the body is a confirmed memory as it stands, in the scope of an unrevoked, unexpired grant for
      this destination. The body is the whole context of that instant, and the receipt names just that. */
  ghost predicate JustifiedBody(text: Text, d: Disclosed) {
    && WholeContext(text, d)
    && d.grant in d.tables.grants
    && d.tables.grants[d.grant].revoked.None? && d.tables.grants[d.grant].expires > d.now
    && d.tables.grants[d.grant].destination == d.destination
    && forall e | e in d.body ::
         && Authorised(d.tables, d.tables.grants[d.grant].scope, e.memory)
         && e.memory in d.tables.memories && d.tables.memories[e.memory].status == Confirmed
         && (d.tables.grants[d.grant].scope.Only? ==> e.memory in d.tables.grants[d.grant].scope.ids)
         && e == Entry(e.memory, d.tables.memories[e.memory].source, d.tables.memories[e.memory].content, Confirmed)
  }

  ghost predicate WholeContext(text: Text, d: Disclosed) {
    var context := Context(text, d.tables, d.now, d.grant, d.destination, "");
    && context.Success? && d.body == Inject(context.value)
    && d.receipt == Receipt(d.destination, Ids(context.value), d.now, Some(d.grant))
  }

  lemma RecordIsJustified(text: Text, s: Sys, i: nat, receipt: Key)
    requires SysInv(s) && Current(text, s, i)
    ensures JustifiedBody(text, DisclosedBy(s, i, receipt))
  {
    var r := s.requests[i];
    ContextIsJustified(text, s.tables, s.now, r.grant, r.destination, "");
    forall e | e in r.body ensures exists m :: m in r.stage.memories && e == Entry(m.id, m.source, m.content, m.status) {
      var k :| 0 <= k < |r.body| && r.body[k] == e;
      assert r.stage.memories[k] in r.stage.memories;
    }
  }

  lemma {:induction false} JustifiedRun(text: Text, s: Sys, ops: seq<Op>)
    requires SysInv(s) && SoundRun(text, s, ops)
    requires forall d | d in s.log :: JustifiedBody(text, d)
    ensures SysInv(Exec(text, s, ops)) && forall d | d in Exec(text, s, ops).log :: JustifiedBody(text, d)
    decreases |ops|
  {
    if ops != [] {
      var op := ops[0];
      StepKeeps(text, s, op);
      if op.Record? && Current(text, s, op.i) {
        RecordIsJustified(text, s, op.i, op.receipt);
      }
      JustifiedRun(text, Step(text, s, op), ops[1..]);
    }
  }

  const START := Sys(Tables(map[], map[], map[], map[]), 0, map[], {}, [])

  /** What some run leaves of a new vault. */
  ghost predicate Reachable(text: Text, s: Sys) {
    exists ops :: SoundRun(text, START, ops) && Exec(text, START, ops) == s
  }

  /** In every reachable state, whatever interleaved: at the instant a receipt was recorded, what the request carried
      was justified. */
  lemma EveryDisclosureIsJustified(text: Text, s: Sys)
    requires Reachable(text, s)
    ensures SysInv(s) && forall d | d in s.log :: JustifiedBody(text, d)
  {
    var ops :| SoundRun(text, START, ops) && Exec(text, START, ops) == s;
    JustifiedRun(text, START, ops);
  }

  /** Only a request whose principal is authorised begins, and only one whose principal still is when it is recorded
      discloses anything; the record is of that request, under its own grant and destination, at this instant. */
  lemma OnlyAPrincipalSends(text: Text, s: Sys, op: Op)
    ensures var s' := Step(text, s, op);
      && (forall i | i in s'.requests && i !in s.requests ::
            op.Begin? && op.i == i && op.principal && s'.requests[i].grant == op.grant
            && s'.requests[i].destination == op.destination)
      && (s'.log != s.log ==>
            && op.Record? && op.principal && op.i in s.requests && |s'.log| == |s.log| + 1
            && var d := s'.log[|s.log|];
               && d.request == op.i && d.grant == s.requests[op.i].grant && d.destination == s.requests[op.i].destination
               && d.body == s.requests[op.i].body && d.tables == s.tables && d.now == s.now)
  {
    hide Current, Context, GoodScope, Inject;
  }

  /* ---- What stops a send, for good ---- */

  /** The grant can never authorise again. */
  ghost predicate Spent(s: Sys, grant: Key) {
    && grant in s.used
    && (grant in s.tables.grants ==> s.tables.grants[grant].revoked.Some? || s.tables.grants[grant].expires <= s.now)
  }

  /** The selected memory is gone or has been changed since it was read. */
  ghost predicate Stale(s: Sys, m: Memory) {
    m.id in s.used && (m.id in s.tables.memories ==> s.tables.memories[m.id].updated > m.updated)
  }

  /** Request `i` is decided, or waits with a spent grant or a stale memory. */
  ghost predicate Stopped(s: Sys, i: nat) {
    i in s.requests &&
    match s.requests[i].stage
    case Selected(ms) => Spent(s, s.requests[i].grant) || exists m :: m in ms && Stale(s, m)
    case _ => true
  }

  /** No step of the run records a disclosure of request `i`. */
  ghost predicate NeverSends(text: Text, s: Sys, ops: seq<Op>, i: nat) {
    forall d | d in Exec(text, s, ops).log[|s.log|..] :: d.request != i
  }

  lemma SpentStays(text: Text, s: Sys, op: Op, grant: Key)
    requires SysInv(s) && Sound(s, op) && Spent(s, grant)
    ensures Spent(Step(text, s, op), grant)
  {
  }

  lemma StaleStays(text: Text, s: Sys, op: Op, m: Memory)
    requires SysInv(s) && Sound(s, op) && !op.Restore? && Stale(s, m)
    ensures Stale(Step(text, s, op), m)
  {
  }

  /** A restore revokes every grant it brings in, so no earlier request survives it. */
  lemma RestoreSpends(text: Text, s: Sys, archive: Tables, grant: Key)
    requires Empty(s.tables) && grant in s.used
    ensures Spent(Step(text, s, Restore(archive)), grant)
  {
  }

  lemma StoppedIsNotCurrent(text: Text, s: Sys, i: nat)
    requires SysInv(s) && Stopped(s, i)
    ensures !Current(text, s, i)
  {
    var r := s.requests[i];
    ContextIsJustified(text, s.tables, s.now, r.grant, r.destination, "");
  }

  lemma StoppedStays(text: Text, s: Sys, op: Op, i: nat)
    requires SysInv(s) && Sound(s, op) && Stopped(s, i)
    ensures Stopped(Step(text, s, op), i)
    ensures forall d | d in Step(text, s, op).log[|s.log|..] :: d.request != i
  {
    var s' := Step(text, s, op);
    StoppedIsNotCurrent(text, s, i);
    if s.requests[i].stage.Selected? && s'.requests[i].stage.Selected? {
      var r := s.requests[i];
      if Spent(s, r.grant) {
        SpentStays(text, s, op, r.grant);
      } else {
        var m :| m in r.stage.memories && Stale(s, m);
        if !op.Restore? {
          StaleStays(text, s, op, m);
        }
        assert Stale(s', m);
      }
    }
  }

  /** A stopped request is never recorded, in any run. */
  lemma {:induction false} StoppedForGood(text: Text, s: Sys, ops: seq<Op>, i: nat)
    requires SysInv(s) && SoundRun(text, s, ops) && Stopped(s, i)
    ensures NeverSends(text, s, ops, i)
    decreases |ops|
  {
    if ops != [] {
      var mid := Step(text, s, ops[0]);
      StepKeeps(text, s, ops[0]);
      StoppedStays(text, s, ops[0], i);
      StoppedForGood(text, mid, ops[1..], i);
      var s' := Exec(text, s, ops);
      assert s'.log[|s.log|..] == mid.log[|s.log|..] + s'.log[|mid.log|..];
    }
  }

  lemma {:induction false} SpentRun(text: Text, s: Sys, ops: seq<Op>, grant: Key)
    requires SysInv(s) && SoundRun(text, s, ops) && Spent(s, grant)
    ensures forall d | d in Exec(text, s, ops).log[|s.log|..] :: d.grant != grant
    decreases |ops|
  {
    if ops != [] {
      var mid := Step(text, s, ops[0]);
      StepKeeps(text, s, ops[0]);
      SpentStays(text, s, ops[0], grant);
      SpentRun(text, mid, ops[1..], grant);
      var s' := Exec(text, s, ops);
      assert s'.log[|s.log|..] == mid.log[|s.log|..] + s'.log[|mid.log|..];
    }
  }

  /** Once a grant is revoked, expired or gone, no run ever discloses under it again. */
  lemma SpentGrantNeverAuthorises(text: Text, s: Sys, ops: seq<Op>, grant: Key)
    requires Reachable(text, s) && SoundRun(text, s, ops) && Spent(s, grant)
    ensures forall d | d in Exec(text, s, ops).log[|s.log|..] :: d.grant != grant
  {
    EveryDisclosureIsJustified(text, s);
    SpentRun(text, s, ops, grant);
  }

  /** What stops a waiting request: revoking its grant, its expiry, a restore, deleting a selected memory or its source,
      or editing one later; and giving it up, or finding its principal no longer authorised when it is recorded. */
  ghost predicate Interferes(s: Sys, op: Op, i: nat)
    requires i in s.requests && s.requests[i].stage.Selected?
  {
    var r := s.requests[i];
    match op
    case Revoke(g) => g == r.grant
    case Tick(d) => r.grant in s.tables.grants && s.tables.grants[r.grant].expires <= s.now + d
    case Restore(_) => Empty(s.tables)
    case Delete(id) => exists m :: m in r.stage.memories && m.id == id && id in s.used
    case DeleteSource(id) =>
      exists m :: m in r.stage.memories && m.id in s.used
                  && (m.id in s.tables.memories ==> s.tables.memories[m.id].source == id)
    case Update(id, _, _) => id in s.tables.memories && exists m :: m in r.stage.memories && m.id == id && m.updated < s.now
    case Drop(j) => j == i
    case Record(j, principal, receipt) => j == i && !principal && receipt !in s.tables.receipts
    case _ => false
  }

  lemma InterferenceStops(text: Text, s: Sys, op: Op, ops: seq<Op>, i: nat)
    requires Reachable(text, s) && Sound(s, op) && SoundRun(text, Step(text, s, op), ops)
    requires i in s.requests && s.requests[i].stage.Selected? && Interferes(s, op, i)
    ensures var s1 := Step(text, s, op);
      Stopped(s1, i) && NeverSends(text, s1, ops, i)
  {
    EveryDisclosureIsJustified(text, s);
    var s1 := Step(text, s, op);
    StepKeeps(text, s, op);
    StopsNow(text, s, op, i);
    StoppedForGood(text, s1, ops, i);
  }

  lemma StopsNow(text: Text, s: Sys, op: Op, i: nat)
    requires SysInv(s) && i in s.requests && s.requests[i].stage.Selected? && Interferes(s, op, i)
    ensures Stopped(Step(text, s, op), i)
  {
    var s1 := Step(text, s, op);
    match op {
      case DeleteSource(id) =>
        var m :| m in s.requests[i].stage.memories && m.id in s.used
                 && (m.id in s.tables.memories ==> s.tables.memories[m.id].source == id);
        assert Stale(s1, m);
      case Restore(archive) => RestoreSpends(text, s, archive, s.requests[i].grant);
      case Delete(id) =>
        var m :| m in s.requests[i].stage.memories && m.id == id;
        assert Stale(s1, m);
      case Update(id, _, _) =>
        var m :| m in s.requests[i].stage.memories && m.id == id && m.updated < s.now;
        assert Stale(s1, m);
      case _ =>
    }
  }

  /** An edit of a selected memory stops the request for good exactly when the clock has moved since that memory was
      last written: within one instant, undoing the edit would let the request through. */
  lemma EditStopsExactly(text: Text, s: Sys, i: nat, m: Memory, content: Option<string>, status: Option<Status>,
      receipt: Key)
    requires Reachable(text, s) && Current(text, s, i) && m in s.requests[i].stage.memories && receipt !in s.tables.receipts
    ensures var s1 := Step(text, s, Update(m.id, content, status));
      s.now > m.updated <==>
      forall ops | SoundRun(text, s1, ops) :: NeverSends(text, s1, ops, i)
  {
    EveryDisclosureIsJustified(text, s);
    var r := s.requests[i];
    ContextIsJustified(text, s.tables, s.now, r.grant, r.destination, "");
    assert m == View(s.tables, m.id);
    var op := Update(m.id, content, status);
    var s1 := Step(text, s, op);
    if s.now > m.updated {
      forall ops | SoundRun(text, s1, ops)
        ensures NeverSends(text, s1, ops, i)
      {
        InterferenceStops(text, s, op, ops, i);
      }
    } else {
      UndoneEditSends(text, s, i, m, content, status, receipt);
    }
  }

  /** Within the instant of the last write, the edit, its undoing and the send make one run. */
  lemma UndoneEditSends(
    text: Text, s: Sys, i: nat, m: Memory, content: Option<string>, status: Option<Status>, receipt: Key)
    requires SysInv(s) && Current(text, s, i) && receipt !in s.tables.receipts && s.now <= m.updated
    requires m in s.requests[i].stage.memories && m.id in s.tables.memories
    requires s.tables.memories[m.id].source in s.tables.sources && m == View(s.tables, m.id)
    ensures var s1 := Step(text, s, Update(m.id, content, status));
      exists ops :: SoundRun(text, s1, ops) && !NeverSends(text, s1, ops, i)
  {
    var s1 := Step(text, s, Update(m.id, content, status));
    var undo := Update(m.id, Some(m.content), Some(m.status));
    var send := Record(i, true, receipt);
    UndoRestores(text, s, m, content, status);
    SendDiscloses(text, s, i, receipt);
    hide Step, Current, SysInv;
    var s3 := Step(text, s, send);
    var ops := [undo, send];
    assert ops[1..] == [send] && [send][1..] == [];
    assert Exec(text, s1, ops) == Exec(text, s, [send]) == Exec(text, s3, []) == s3;
    assert SoundRun(text, s3, []) && SoundRun(text, s, [send]) && SoundRun(text, s1, ops);
    var d := s3.log[|s1.log|];
    assert d in Exec(text, s1, ops).log[|s1.log|..] && d.request == i;
    assert !NeverSends(text, s1, ops, i);
  }

  lemma UndoRestores(text: Text, s: Sys, m: Memory, content: Option<string>, status: Option<Status>)
    requires SysInv(s) && s.now <= m.updated && m.id in s.tables.memories
    requires s.tables.memories[m.id].source in s.tables.sources && m == View(s.tables, m.id)
    ensures var s1 := Step(text, s, Update(m.id, content, status));
      Step(text, s1, Update(m.id, Some(m.content), Some(m.status))) == s && s1.log == s.log
  {
    var s1 := Step(text, s, Update(m.id, content, status));
    var s2 := Step(text, s1, Update(m.id, Some(m.content), Some(m.status)));
    assert s2.tables.memories == s.tables.memories;
  }

  lemma SendDiscloses(text: Text, s: Sys, i: nat, receipt: Key)
    requires Current(text, s, i) && receipt !in s.tables.receipts && s.requests[i].stage.memories != []
    ensures var s1 := Step(text, s, Record(i, true, receipt));
      |s1.log| == |s.log| + 1 && s1.log[|s.log|].request == i
  {
  }
}
