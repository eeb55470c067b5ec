/** Runs of the continuity protocol: any number of outstanding attempts, finishing late, twice
    or in any order, interleaved with clears, deletions, expiry, revocations and restores. */
module ContinuityRuns {
  import opened Common
  import opened Continuity

  /** One prepared send. It is answered once the provider's response has been recorded among the interactions, which
      comes before its reply can be stored. */
  datatype Attempt = Attempt(token: Token, issued: Time, answered: bool)

  /** What an archive carries of the tables that matter here. */
  datatype Archive = Archive(tables: Tables, audits: set<Time>, exchanged: bool)

  /** `expiry` holds the threads the vault has ever held, `revoked` the grants known to be revoked, `attempts` every
      send ever prepared, `audits` the times of the audit rows other than start-up, and `log` the attempts whose reply
      was stored, in order. `exchanged` says that there is an interaction row; no operation deletes one. A send is
      given up when it is older than `patience`. */
  datatype Sys = Sys(
    tables: Tables, now: Time, expiry: map<Id, Time>, revoked: set<Id>, attempts: seq<Attempt>,
    audits: set<Time>, exchanged: bool, patience: nat, log: seq<nat>)

  datatype Op =
    | Tick(seconds: nat)
    | Prune
    | PruneAudit(days: nat)
    | Create(id: Id, c: Creation, authorised: bool)
    | Prepare(q: Query, authorised: bool)
    | Respond(i: nat)
    | Finish(i: nat, a: Answer)
    | Clear(id: Id, request: Id)
    | Delete(id: Id)
    | Revoke(grant: Id)
    | Restore(archive: Archive, otherwiseUnused: bool)

  function Start(patience: nat): Sys {
    Sys(Tables(map[], map[]), 0, map[], {}, [], {}, false, patience, [])
  }

  predicate MayUse(s: Sys, q: Query, authorised: bool) {
    authorised && (q.grant.Some? ==> q.grant.value !in s.revoked)
  }

  predicate Issues(text: Text, s: Sys, q: Query, authorised: bool) {
    WellFormed(text, q) && Admit(text, Pruned(s.tables, s.now), MayUse(s, q, authorised), q) == Success(Fresh)
  }

  predicate Late(s: Sys, a: Attempt) {
    s.now - a.issued > s.patience
  }

  /** The attempt reaches `finish`: it was answered, and not given up. */
  predicate Arrives(s: Sys, i: nat) {
    i < |s.attempts| && s.attempts[i].answered && !Late(s, s.attempts[i])
  }

  predicate Stores(s: Sys, i: nat, a: Answer) {
    Arrives(s, i) && CanStore(s.tables, s.now, s.attempts[i].token, a.reply)
  }

  /** `recovery_empty`: no thread, no interaction, no audit row but start-up, and nothing else. */
  predicate Restores(s: Sys, otherwiseUnused: bool) {
    otherwiseUnused && s.tables.threads == map[] && !s.exchanged && s.audits == {}
  }

  function Grants(tables: Tables): set<Id> {
    set id | id in tables.threads && tables.threads[id].grant.Some? :: tables.threads[id].grant.value
  }

  function Expiries(tables: Tables): map<Id, Time> {
    map id | id in tables.threads :: tables.threads[id].expires
  }

  function Recent(audits: set<Time>, cutoff: Time): set<Time> {
    set a | a in audits && a >= cutoff
  }

  function Created(text: Text, s: Sys, id: Id, c: Creation, authorised: bool): Sys {
    var tables := AfterCreate(text, s.tables, s.now, id, c, authorised);
    if MayCreate(text, Pruned(s.tables, s.now), c, authorised)
    then s.(tables := tables, expiry := s.expiry[id := s.now + c.days * DAY], audits := s.audits + {s.now})
    else s.(tables := tables)
  }

  function Finished(s: Sys, i: nat, a: Answer): Sys
    requires Arrives(s, i)
  {
    var t := s.attempts[i].token;
    if Stores(s, i, a)
    then s.(tables := AfterFinish(s.tables, s.now, t, a), audits := s.audits + {s.now}, log := s.log + [i])
    else s.(tables := AfterFinish(s.tables, s.now, t, a))
  }

  function Restored(s: Sys, archive: Archive): Sys {
    s.(tables := Pruned(Recovered(archive.tables), s.now), expiry := Expiries(archive.tables) + s.expiry,
       revoked := s.revoked + Grants(archive.tables), audits := archive.audits + {s.now}, exchanged := archive.exchanged)
  }

  function Step(text: Text, s: Sys, op: Op): Sys {
    match op
    case Tick(d) => s.(now := s.now + d)
    case Prune => s.(tables := Pruned(s.tables, s.now))
    case PruneAudit(days) => if days == 0 then s else s.(audits := Recent(s.audits, s.now - days * DAY))
    case Create(id, c, authorised) => if id in s.expiry then s else Created(text, s, id, c, authorised)
    case Prepare(q, authorised) =>
      s.(tables := AfterPrepare(text, s.tables, s.now, MayUse(s, q, authorised), q),
         attempts := s.attempts
                     + if Issues(text, s, q, authorised) then [Attempt(TokenOf(text, q), s.now, false)] else [])
    case Respond(i) =>
      if i >= |s.attempts| then s
      else s.(attempts := s.attempts[i := s.attempts[i].(answered := true)], exchanged := true)
    case Finish(i, a) => if Arrives(s, i) then Finished(s, i, a) else s
    case Clear(id, request) => s.(tables := AfterClear(s.tables, id, request))
    case Delete(id) =>
      s.(tables := AfterDelete(s.tables, id), audits := s.audits + if id in s.tables.threads then {s.now} else {})
    case Revoke(grant) => s.(revoked := s.revoked + {grant})
    case Restore(archive, otherwiseUnused) => if Restores(s, otherwiseUnused) then Restored(s, archive) else s
  }

  function Exec(text: Text, s: Sys, ops: seq<Op>): (r: Sys)
    ensures s.log <= r.log
    decreases |ops|
  {
    if ops == [] then s else Exec(text, Step(text, s, ops[0]), ops[1..])
  }

  /** An archive is consistent, and a thread in it that this vault has held expires when it always did: thread ids are
      unique, and no operation writes an expiry. */
  ghost predicate Sound(s: Sys, op: Op) {
    op.Restore? ==>
      && Inv(op.archive.tables) && (op.archive.tables.turns != map[] ==> op.archive.exchanged)
      && forall id | id in op.archive.tables.threads && id in s.expiry ::
           op.archive.tables.threads[id].expires == s.expiry[id]
  }

  ghost predicate SoundRun(text: Text, s: Sys, ops: seq<Op>)
    decreases |ops|
  {
    ops != [] ==> Sound(s, ops[0]) && SoundRun(text, Step(text, s, ops[0]), ops[1..])
  }

  /* ---- What holds in every state ---- */

  /** While its thread is away without having expired, an attempt is old, or an audit row from after it is there. */
  ghost predicate Remembered(s: Sys, a: Attempt) {
    && a.issued <= s.now && a.token.id in s.expiry
    && (a.token.id in s.tables.threads || s.expiry[a.token.id] <= s.now || s.now - a.issued > DAY
        || exists audit | audit in s.audits :: a.issued <= audit)
  }

  ghost predicate Dated(tables: Tables, expiry: map<Id, Time>) {
    forall id | id in tables.threads :: id in expiry && tables.threads[id].expires == expiry[id]
  }

  ghost predicate SysInv(s: Sys) {
    && Inv(s.tables) && Dated(s.tables, s.expiry)
    && (s.tables.turns != map[] || s.log != [] || (exists a | a in s.attempts :: a.answered) ==> s.exchanged)
    && (forall i | 0 <= i < |s.attempts| :: Remembered(s, s.attempts[i]))
    && (forall i | i in s.log :: i < |s.attempts|)
  }

  lemma StartIsSound(patience: nat)
    ensures SysInv(Start(patience)) && LogInv(Start(patience)) && Settled(Start(patience))
  {
  }

  lemma TablesKeep(text: Text, s: Sys, op: Op)
    requires Inv(s.tables) && Dated(s.tables, s.expiry) && Sound(s, op)
    ensures Inv(Step(text, s, op).tables)
  {
    hide Inv;
    match op
    case Prune => PrunedKeeps(s.tables, s.now);
    case Create(id, c, authorised) =>
      if id !in s.expiry { CreateKeeps(text, s.tables, s.now, id, c, authorised); }
    case Prepare(q, authorised) => PrepareKeeps(text, s.tables, s.now, MayUse(s, q, authorised), q);
    case Finish(i, a) => if i < |s.attempts| { FinishKeeps(s.tables, s.now, s.attempts[i].token, a); }
    case Clear(id, request) => ClearKeeps(s.tables, id, request);
    case Delete(id) => DeleteKeeps(s.tables, id);
    case Restore(archive, otherwiseUnused) =>
      RecoveredKeeps(archive.tables);
      PrunedKeeps(Recovered(archive.tables), s.now);
    case _ =>
  }

  /** What no operation changes in a thread. */
  predicate SameBinding(c: Thread, d: Thread) {
    && d.expires == c.expires && d.provider == c.provider && d.destination == c.destination && d.model == c.model
    && d.grant == c.grant
  }

  /** What an operation may make of a thread that was there: it may go, and otherwise keeps its binding, its expiry and
      its turns. */
  ghost predicate Advances(a: Tables, b: Tables, id: Id) {
    id in b.threads ==>
      && id in a.threads && SameBinding(a.threads[id], b.threads[id])
      && forall k | k in a.turns && k.thread == id :: k in b.turns && b.turns[k] == a.turns[k]
  }

  lemma PrunedAdvances(t: Tables, now: Time, id: Id)
    ensures Advances(t, Pruned(t, now), id)
  {
  }

  lemma PrepareAdvances(text: Text, t: Tables, now: Time, authorised: bool, q: Query, id: Id)
    ensures Advances(t, AfterPrepare(text, t, now, authorised, q), id)
  {
    hide WellFormed;
  }

  lemma FinishAdvances(t: Tables, now: Time, u: Token, a: Answer, id: Id)
    requires Inv(t)
    ensures Advances(t, AfterFinish(t, now, u, a), id)
  {
    hide Placed, Unique;
  }

  lemma CreateAdvances(text: Text, t: Tables, now: Time, added: Id, c: Creation, authorised: bool, id: Id)
    requires id != added
    ensures Advances(t, AfterCreate(text, t, now, added, c, authorised), id)
  {
    hide MayCreate;
  }

  lemma AdvancesStep(text: Text, s: Sys, op: Op, id: Id)
    requires Inv(s.tables) && id in s.expiry && (op.Restore? ==> !Restores(s, op.otherwiseUnused))
    ensures Advances(s.tables, Step(text, s, op).tables, id)
  {
    hide Inv, AfterCreate, AfterPrepare, AfterFinish, MayCreate;
    match op
    case Prune => PrunedAdvances(s.tables, s.now, id);
    case Create(added, c, authorised) =>
      if added !in s.expiry { CreateAdvances(text, s.tables, s.now, added, c, authorised, id); }
    case Prepare(q, authorised) => PrepareAdvances(text, s.tables, s.now, MayUse(s, q, authorised), q, id);
    case Finish(i, a) => if i < |s.attempts| { FinishAdvances(s.tables, s.now, s.attempts[i].token, a, id); }
    case _ =>
  }

  /** A thread that is new in the tables has been created or restored, with the expiry noted then. */
  lemma NewThreadIsDated(text: Text, s: Sys, op: Op, id: Id)
    requires Inv(s.tables) && Dated(s.tables, s.expiry) && id !in s.expiry && id in Step(text, s, op).tables.threads
    ensures var s' := Step(text, s, op);
      id in s'.expiry && s'.tables.threads[id].expires == s'.expiry[id]
  {
    hide MayCreate, WellFormed, Inv;
    if op.Prepare? {
      PrepareAdvances(text, s.tables, s.now, MayUse(s, op.q, op.authorised), op.q, id);
    } else if op.Create? && op.id != id {
      CreateAdvances(text, s.tables, s.now, op.id, op.c, op.authorised, id);
    } else if op.Finish? && op.i < |s.attempts| {
      FinishAdvances(s.tables, s.now, s.attempts[op.i].token, op.a, id);
    }
  }

  lemma DatesKeep(text: Text, s: Sys, op: Op)
    requires Inv(s.tables) && Dated(s.tables, s.expiry) && Sound(s, op)
    ensures Dated(Step(text, s, op).tables, Step(text, s, op).expiry)
  {
    hide Inv, AfterCreate, AfterPrepare, AfterFinish, AfterClear, AfterDelete, MayCreate;
    var s' := Step(text, s, op);
    forall id | id in s'.tables.threads ensures id in s'.expiry && s'.tables.threads[id].expires == s'.expiry[id] {
      if id !in s.expiry {
        NewThreadIsDated(text, s, op, id);
      } else if op.Restore? && Restores(s, op.otherwiseUnused) {
      } else {
        AdvancesStep(text, s, op, id);
        ExpiryKeeps(text, s, op, id);
      }
    }
  }

  /** No operation writes an expiry. */
  lemma ExpiryKeeps(text: Text, s: Sys, op: Op, id: Id)
    requires id in s.expiry
    ensures id in Step(text, s, op).expiry && Step(text, s, op).expiry[id] == s.expiry[id]
  {
  }

  /** The attempts there were are all there, and at most answered since. */
  lemma AttemptsKeep(text: Text, s: Sys, op: Op, i: nat)
    requires i < |s.attempts|
    ensures var s' := Step(text, s, op);
      && i < |s'.attempts| && s'.attempts[i].token == s.attempts[i].token && s'.attempts[i].issued == s.attempts[i].issued
      && s.now <= s'.now && s'.patience == s.patience
  {
  }

  /** The audit rows that a step takes away are more than a day old. */
  lemma AuditsKeep(text: Text, s: Sys, op: Op, audit: Time)
    requires audit in s.audits && s.now - audit <= DAY
    ensures audit in Step(text, s, op).audits
  {
  }

  lemma RememberedStep(text: Text, s: Sys, op: Op, i: nat)
    requires SysInv(s) && Sound(s, op) && i < |s.attempts|
    ensures Remembered(Step(text, s, op), Step(text, s, op).attempts[i])
  {
    var s', a := Step(text, s, op), s.attempts[i];
    assert Remembered(s, a);
    AttemptsKeep(text, s, op, i);
    DatesKeep(text, s, op);
    var id := a.token.id;
    ExpiryKeeps(text, s, op, id);
    if id in s.tables.threads && id !in s'.tables.threads && s.expiry[id] > s'.now {
      assert op == Delete(id) by { OnlyDeletionTakes(text, s, op, id); }
      assert s.now in s'.audits;
    } else if id !in s.tables.threads && s.expiry[id] > s.now && s.now - a.issued <= DAY {
      var audit :| audit in s.audits && a.issued <= audit;
      AuditsKeep(text, s, op, audit);
    }
  }

  /** A thread that has not expired goes only when it is deleted. */
  lemma OnlyDeletionTakes(text: Text, s: Sys, op: Op, id: Id)
    requires SysInv(s) && id in s.tables.threads && id !in Step(text, s, op).tables.threads
    requires s.expiry[id] > Step(text, s, op).now
    ensures op == Delete(id)
  {
    hide Inv, Remembered, WellFormed, MayCreate, AfterPrepare, AfterFinish, AfterCreate;
    assert s.tables.threads[id].expires == s.expiry[id];
    match op
    case Create(added, c, authorised) => CreateLeaves(text, s.tables, s.now, added, c, authorised, id);
    case Prepare(q, authorised) => PrepareLeaves(text, s.tables, s.now, MayUse(s, q, authorised), q, id);
    case Finish(i, a) => if i < |s.attempts| { FinishLeaves(s.tables, s.now, s.attempts[i].token, a, id); }
    case _ =>
  }

  lemma CreateLeaves(text: Text, t: Tables, now: Time, added: Id, c: Creation, authorised: bool, id: Id)
    requires id in t.threads && t.threads[id].expires > now
    ensures id in AfterCreate(text, t, now, added, c, authorised).threads
  {
    hide MayCreate;
  }

  lemma PrepareLeaves(text: Text, t: Tables, now: Time, authorised: bool, q: Query, id: Id)
    requires id in t.threads && t.threads[id].expires > now
    ensures id in AfterPrepare(text, t, now, authorised, q).threads
  {
    hide WellFormed;
  }

  lemma FinishLeaves(t: Tables, now: Time, u: Token, a: Answer, id: Id)
    requires id in t.threads && t.threads[id].expires > now
    ensures id in AfterFinish(t, now, u, a).threads
  {
  }

  lemma StepKeeps(text: Text, s: Sys, op: Op)
    requires SysInv(s) && Sound(s, op)
    ensures SysInv(Step(text, s, op))
  {
    TablesKeep(text, s, op);
    DatesKeep(text, s, op);
    RowsKeep(text, s, op);
    var s' := Step(text, s, op);
    forall i | 0 <= i < |s'.attempts| ensures Remembered(s', s'.attempts[i]) {
      if i < |s.attempts| {
        RememberedStep(text, s, op, i);
      } else {
        NewAttempt(text, s, op, i);
      }
    }
  }

  lemma NewAttempt(text: Text, s: Sys, op: Op, i: nat)
    requires SysInv(s) && |s.attempts| <= i < |Step(text, s, op).attempts|
    ensures Remembered(Step(text, s, op), Step(text, s, op).attempts[i])
    ensures Outstanding(Step(text, s, op), i)
  {
    hide Inv;
  }

  /** A stored turn, a stored reply or an answered attempt leaves its interaction behind. */
  lemma RowsKeep(text: Text, s: Sys, op: Op)
    requires SysInv(s) && Sound(s, op)
    ensures var s' := Step(text, s, op);
      && (s'.tables.turns != map[] || s'.log != [] || (exists a | a in s'.attempts :: a.answered) ==> s'.exchanged)
      && (forall i | i in s'.log :: i < |s'.attempts|)
  {
    hide Inv, Remembered, WellFormed, MayCreate;
    if op.Respond? && op.i < |s.attempts| {
    } else {
      assert forall a | a in Step(text, s, op).attempts && a.answered :: a in s.attempts;
    }
  }

  /* ---- Fencing ---- */

  /** Attempt `i` is over: given up, or its thread is expired, gone or past it. */
  predicate Dead(s: Sys, i: nat) {
    && i < |s.attempts| && s.attempts[i].token.id in s.expiry
    && (|| Late(s, s.attempts[i])
        || s.expiry[s.attempts[i].token.id] <= s.now
        || Over(s.tables, s.revoked, s.attempts[i].token))
  }

  /** The thread is gone, past the token, or can never again be pending for it. */
  predicate Over(tables: Tables, revoked: set<Id>, t: Token) {
    t.id in tables.threads ==>
      var c := tables.threads[t.id];
      || t.revision < c.revision
      || t.revision >= RETAINED_EXCHANGES
      || KeyOf(t) in tables.turns
      || (c.pending.None? && c.grant.Some? && c.grant.value in revoked)
  }

  function KeyOf(t: Token): TurnKey {
    TurnKey(t.id, t.request)
  }

  /** Attempt `i` may still be stored. */
  predicate Outstanding(s: Sys, i: nat) {
    && i < |s.attempts| && s.attempts[i].token.id in s.tables.threads
    && s.tables.threads[s.attempts[i].token.id].pending == Some(s.attempts[i].token.request)
    && s.tables.threads[s.attempts[i].token.id].revision == s.attempts[i].token.revision
  }

  /** Every attempt is the pending one of its thread, or over. */
  predicate Settled(s: Sys) {
    forall i | 0 <= i < |s.attempts| :: Dead(s, i) || Outstanding(s, i)
  }

  /** The step restores an archive where sends may outlive the audit rows that should forbid it. */
  predicate Unguarded(s: Sys, op: Op) {
    op.Restore? && Restores(s, op.otherwiseUnused) && s.patience > DAY
  }

  /** No step of the run is unguarded: nothing is restored, or sends are given up within a day. */
  ghost predicate Guarded(text: Text, s: Sys, ops: seq<Op>)
    decreases |ops|
  {
    ops != [] ==> !Unguarded(s, ops[0]) && Guarded(text, Step(text, s, ops[0]), ops[1..])
  }

  /** Where sends are given up within a day, every run is guarded. */
  lemma {:induction false} PatientIsGuarded(text: Text, s: Sys, ops: seq<Op>)
    requires s.patience <= DAY
    ensures Guarded(text, s, ops)
    decreases |ops|
  {
    if ops != [] {
      PatienceKeeps(text, s, ops[0]);
      PatientIsGuarded(text, Step(text, s, ops[0]), ops[1..]);
    }
  }

  /** Once a response has been recorded, there is no restore, and every run is guarded. */
  lemma {:induction false} RespondedIsGuarded(text: Text, s: Sys, ops: seq<Op>)
    requires s.exchanged
    ensures Guarded(text, s, ops)
    decreases |ops|
  {
    if ops != [] {
      RespondedKeeps(text, s, ops[0]);
      RespondedIsGuarded(text, Step(text, s, ops[0]), ops[1..]);
    }
  }

  lemma RespondedKeeps(text: Text, s: Sys, op: Op)
    requires s.exchanged
    ensures Step(text, s, op).exchanged && !Unguarded(s, op)
  {
  }

  /** An attempt that is over stays so, and no step stores it. A guarded restore finds every attempt expired or given
      up: what took its thread away left an audit row, and that row outlasts the attempt. */
  lemma DeadStep(text: Text, s: Sys, op: Op, i: nat)
    requires SysInv(s) && Sound(s, op) && Dead(s, i) && !Unguarded(s, op)
    ensures Dead(Step(text, s, op), i)
    ensures i !in Step(text, s, op).log[|s.log|..]
  {
    assert Remembered(s, s.attempts[i]);
    AttemptsKeep(text, s, op, i);
    ExpiryKeeps(text, s, op, s.attempts[i].token.id);
    if !Late(s, s.attempts[i]) && s.expiry[s.attempts[i].token.id] > s.now {
      if !op.Restore? {
        EndedStays(text, s, op, i);
      } else if Restores(s, op.otherwiseUnused) {
        EmptyFences(s, op.otherwiseUnused, i);
      }
    }
    OverIsNotStored(text, s, op, i);
  }

  lemma OverIsNotStored(text: Text, s: Sys, op: Op, i: nat)
    requires SysInv(s) && Dead(s, i)
    ensures i !in Step(text, s, op).log[|s.log|..]
  {
    hide Remembered, Placed, Unique, AfterFinish, AfterPrepare, AfterCreate, AfterClear, AfterDelete, Recovered, Pruned;
  }

  /** The guard of a restore leaves no attempt that could still be stored. */
  lemma EmptyFences(s: Sys, otherwiseUnused: bool, i: nat)
    requires SysInv(s) && i < |s.attempts| && s.patience <= DAY && Restores(s, otherwiseUnused)
    ensures Late(s, s.attempts[i]) || s.expiry[s.attempts[i].token.id] <= s.now
  {
    assert Remembered(s, s.attempts[i]);
  }

  lemma OverStays(text: Text, s: Sys, op: Op, t: Token)
    requires Inv(s.tables) && Dated(s.tables, s.expiry) && !op.Restore? && t.id in s.expiry && s.expiry[t.id] > s.now
    requires Over(s.tables, s.revoked, t)
    ensures Over(Step(text, s, op).tables, Step(text, s, op).revoked, t)
  {
    hide MayCreate, WellFormed, Unique;
    match op
    case Prepare(q, authorised) => OverPrepare(text, s, q, authorised, t);
    case Finish(i, a) => if i < |s.attempts| { OverFinish(s, s.attempts[i].token, a, t); }
    case _ =>
  }

  lemma OverPrepare(text: Text, s: Sys, q: Query, authorised: bool, t: Token)
    requires Inv(s.tables) && Over(s.tables, s.revoked, t)
    ensures Over(AfterPrepare(text, s.tables, s.now, MayUse(s, q, authorised), q), s.revoked, t)
  {
    hide WellFormed, Unique, Placed;
  }

  lemma OverFinish(s: Sys, u: Token, a: Answer, t: Token)
    requires Inv(s.tables) && Over(s.tables, s.revoked, t)
    ensures Over(AfterFinish(s.tables, s.now, u, a), s.revoked, t)
  {
    hide Unique, Placed;
  }

  lemma EndedStays(text: Text, s: Sys, op: Op, i: nat)
    requires SysInv(s) && Dead(s, i) && !op.Restore?
    requires !Late(s, s.attempts[i]) && s.expiry[s.attempts[i].token.id] > s.now
    ensures Dead(Step(text, s, op), i)
  {
    AttemptsKeep(text, s, op, i);
    ExpiryKeeps(text, s, op, s.attempts[i].token.id);
    OverStays(text, s, op, s.attempts[i].token);
    hide Step, Over;
  }

  /** A late reply is never stored: once an attempt is over, no guarded run stores it. */
  lemma {:induction false} LateReplyNeverStored(text: Text, s: Sys, ops: seq<Op>, i: nat)
    requires SysInv(s) && SoundRun(text, s, ops) && Dead(s, i) && Guarded(text, s, ops)
    ensures i !in Exec(text, s, ops).log[|s.log|..] && Dead(Exec(text, s, ops), i)
    decreases |ops|
  {
    hide Step, Dead, SysInv, Sound, Unguarded;
    if ops != [] {
      var mid := Step(text, s, ops[0]);
      StepKeeps(text, s, ops[0]);
      DeadStep(text, s, ops[0], i);
      PatienceKeeps(text, s, ops[0]);
      LateReplyNeverStored(text, mid, ops[1..], i);
      var s' := Exec(text, s, ops);
      assert s'.log[|s.log|..] == mid.log[|s.log|..] + s'.log[|mid.log|..];
    }
  }

  lemma PatienceKeeps(text: Text, s: Sys, op: Op)
    ensures Step(text, s, op).patience == s.patience && s.log <= Step(text, s, op).log
  {
  }

  lemma SettledStep(text: Text, s: Sys, op: Op)
    requires SysInv(s) && Settled(s) && Sound(s, op) && !Unguarded(s, op)
    ensures Settled(Step(text, s, op))
  {
    var s' := Step(text, s, op);
    forall i | 0 <= i < |s'.attempts| ensures Dead(s', i) || Outstanding(s', i) {
      if i >= |s.attempts| {
        NewAttempt(text, s, op, i);
      } else if Dead(s, i) {
        DeadStep(text, s, op, i);
      } else if op.Restore? {
        assert Outstanding(s, i) && !Restores(s, op.otherwiseUnused);
      } else {
        OutstandingStep(text, s, op, i);
      }
    }
  }

  predicate Pends(tables: Tables, t: Token) {
    && t.id in tables.threads && tables.threads[t.id].pending == Some(t.request)
    && tables.threads[t.id].revision == t.revision
  }

  lemma PendsPrepare(text: Text, s: Sys, q: Query, authorised: bool, t: Token)
    requires Pends(s.tables, t) && s.tables.threads[t.id].expires > s.now
    ensures Pends(AfterPrepare(text, s.tables, s.now, MayUse(s, q, authorised), q), t)
  {
    hide WellFormed;
  }

  lemma PendsFinish(s: Sys, u: Token, a: Answer, t: Token)
    requires Pends(s.tables, t) && s.tables.threads[t.id].expires > s.now
    ensures var after := AfterFinish(s.tables, s.now, u, a);
      Pends(after, t) || Over(after, s.revoked, t)
  {
  }

  lemma PendsCreate(text: Text, s: Sys, added: Id, c: Creation, authorised: bool, t: Token)
    requires Pends(s.tables, t) && s.tables.threads[t.id].expires > s.now && added != t.id
    ensures Pends(AfterCreate(text, s.tables, s.now, added, c, authorised), t)
  {
    hide MayCreate;
  }

  lemma OutstandingStep(text: Text, s: Sys, op: Op, i: nat)
    requires SysInv(s) && Sound(s, op) && Outstanding(s, i) && !op.Restore?
    ensures Dead(Step(text, s, op), i) || Outstanding(Step(text, s, op), i)
  {
    Recall(s, i);
    var t := s.attempts[i].token;
    AttemptsKeep(text, s, op, i);
    ExpiryKeeps(text, s, op, t.id);
    if s.expiry[t.id] > s.now {
      hide Inv, Remembered, WellFormed, MayCreate, AfterPrepare, AfterFinish, AfterCreate;
      assert Pends(s.tables, t) && s.tables.threads[t.id].expires == s.expiry[t.id];
      match op
      case Create(id, c, authorised) => if id !in s.expiry { PendsCreate(text, s, id, c, authorised, t); }
      case Prepare(q, authorised) => PendsPrepare(text, s, q, authorised, t);
      case Finish(j, a) => if j < |s.attempts| { PendsFinish(s, s.attempts[j].token, a, t); }
      case _ =>
    }
  }

  lemma Recall(s: Sys, i: nat)
    requires SysInv(s) && i < |s.attempts|
    ensures Remembered(s, s.attempts[i]) && s.attempts[i].token.id in s.expiry
  {
  }

  lemma {:induction false} StructureRun(text: Text, s: Sys, ops: seq<Op>)
    requires SysInv(s) && SoundRun(text, s, ops)
    ensures SysInv(Exec(text, s, ops)) && Exec(text, s, ops).patience == s.patience
    decreases |ops|
  {
    hide Step, SysInv, Sound;
    if ops != [] {
      StepKeeps(text, s, ops[0]);
      PatienceKeeps(text, s, ops[0]);
      StructureRun(text, Step(text, s, ops[0]), ops[1..]);
    }
  }

  lemma {:induction false} SettledRun(text: Text, s: Sys, ops: seq<Op>)
    requires SysInv(s) && Settled(s) && SoundRun(text, s, ops) && Guarded(text, s, ops)
    ensures Settled(Exec(text, s, ops))
    decreases |ops|
  {
    hide Step, Settled, SysInv, Sound, Unguarded;
    if ops != [] {
      StepKeeps(text, s, ops[0]);
      SettledStep(text, s, ops[0]);
      SettledRun(text, Step(text, s, ops[0]), ops[1..]);
    }
  }

  /** `s` is what some run leaves of a new vault whose sends are given up after `s.patience`. */
  ghost predicate Reachable(text: Text, s: Sys) {
    exists ops :: SoundRun(text, Start(s.patience), ops) && Exec(text, Start(s.patience), ops) == s
  }

  /** The same, by a guarded run. */
  ghost predicate GuardedReachable(text: Text, s: Sys) {
    exists ops ::
      && SoundRun(text, Start(s.patience), ops) && Guarded(text, Start(s.patience), ops)
      && Exec(text, Start(s.patience), ops) == s
  }

  lemma PatientReach(text: Text, s: Sys)
    requires Reachable(text, s) && s.patience <= DAY
    ensures GuardedReachable(text, s)
  {
    var ops :| SoundRun(text, Start(s.patience), ops) && Exec(text, Start(s.patience), ops) == s;
    PatientIsGuarded(text, Start(s.patience), ops);
  }

  /** In every reachable state the thread structure holds, and no thread has more than 100 turns. */
  lemma ReachableStructure(text: Text, s: Sys)
    requires Reachable(text, s)
    ensures SysInv(s) && forall id :: |TurnsOf(s.tables, id)| <= RETAINED_EXCHANGES
  {
    var ops :| SoundRun(text, Start(s.patience), ops) && Exec(text, Start(s.patience), ops) == s;
    StartIsSound(s.patience);
    StructureRun(text, Start(s.patience), ops);
    forall id ensures |TurnsOf(s.tables, id)| <= RETAINED_EXCHANGES {
      AtMostHundredTurns(s.tables, id);
    }
  }

  /** In every state reached by a guarded run each attempt is the pending one of its thread, or over for good. */
  lemma ReachableIsSettled(text: Text, s: Sys)
    requires GuardedReachable(text, s)
    ensures SysInv(s) && Settled(s)
  {
    var ops :|
      && SoundRun(text, Start(s.patience), ops) && Guarded(text, Start(s.patience), ops)
      && Exec(text, Start(s.patience), ops) == s;
    StartIsSound(s.patience);
    StructureRun(text, Start(s.patience), ops);
    SettledRun(text, Start(s.patience), ops);
  }

  /** The steps that close a thread's open attempt. */
  predicate Closes(s: Sys, op: Op, id: Id) {
    match op
    case Clear(i, request) => i == id && id in s.tables.threads && s.tables.threads[id].pending == Some(request)
    case Delete(i) => i == id
    case Finish(i, a) => Stores(s, i, a) && s.attempts[i].token.id == id
    case Tick(d) => id in s.expiry && s.expiry[id] <= s.now + d
    case Restore(archive, otherwiseUnused) => Restores(s, otherwiseUnused)
    case _ => false
  }

  lemma ClosedIsDead(text: Text, s: Sys, op: Op, i: nat)
    requires SysInv(s) && Settled(s) && Sound(s, op) && !Unguarded(s, op)
    requires i < |s.attempts| && Closes(s, op, s.attempts[i].token.id)
    ensures Dead(Step(text, s, op), i)
  {
    if Dead(s, i) {
      DeadStep(text, s, op, i);
    } else {
      hide Remembered, WellFormed, MayCreate, Unique, Placed;
      assert Outstanding(s, i);
      Recall(s, i);
      AttemptsKeep(text, s, op, i);
    }
  }

  /** In a state reached by a guarded run, a clear, a deletion, a stored reply, the expiry or a guarded restore ends
      every earlier attempt on the thread, for every later guarded run and whatever request id is prepared again. */
  lemma ClosedForGood(text: Text, s: Sys, op: Op, ops: seq<Op>, i: nat)
    requires GuardedReachable(text, s) && i < |s.attempts| && Closes(s, op, s.attempts[i].token.id)
    requires Sound(s, op) && SoundRun(text, Step(text, s, op), ops)
    requires !Unguarded(s, op) && Guarded(text, Step(text, s, op), ops)
    ensures var s1 := Step(text, s, op);
      Dead(s1, i) && i !in Exec(text, s1, ops).log[|s1.log|..]
  {
    ReachableIsSettled(text, s);
    StepKeeps(text, s, op);
    ClosedIsDead(text, s, op, i);
    LateReplyNeverStored(text, Step(text, s, op), ops, i);
  }

  /** After the first recorded response, closing a thread's attempts needs no condition on what follows. */
  lemma ClosedOnceResponded(text: Text, s: Sys, op: Op, ops: seq<Op>, i: nat)
    requires GuardedReachable(text, s) && s.exchanged && i < |s.attempts| && Closes(s, op, s.attempts[i].token.id)
    requires Sound(s, op) && SoundRun(text, Step(text, s, op), ops)
    ensures var s1 := Step(text, s, op);
      Dead(s1, i) && i !in Exec(text, s1, ops).log[|s1.log|..]
  {
    RespondedKeeps(text, s, op);
    RespondedIsGuarded(text, Step(text, s, op), ops);
    ClosedForGood(text, s, op, ops, i);
  }

  /* ---- Exactly once ---- */

  /** The turn stored for `t` is still there, unless its thread is gone. */
  predicate Kept(tables: Tables, t: Token) {
    t.id in tables.threads ==>
      && KeyOf(t) in tables.turns
      && tables.turns[KeyOf(t)].user == t.message
      && tables.turns[KeyOf(t)].position == t.revision + 1
  }

  function TokenAt(s: Sys, i: nat): Token
    requires i < |s.attempts|
  {
    s.attempts[i].token
  }

  predicate Differ(t: Token, u: Token) {
    t.id == u.id ==> t.request != u.request && t.revision != u.revision
  }

  /** No request, and no revision, of a thread is stored twice. */
  predicate Once(s: Sys)
    requires forall j | 0 <= j < |s.log| :: s.log[j] < |s.attempts|
  {
    forall j, k | 0 <= j < k < |s.log| :: Differ(TokenAt(s, s.log[j]), TokenAt(s, s.log[k]))
  }

  predicate LogInv(s: Sys) {
    && (forall j | 0 <= j < |s.log| :: s.log[j] < |s.attempts|)
    && (forall i | i in s.log :: TokenAt(s, i).id in s.expiry && Kept(s.tables, TokenAt(s, i)))
    && Once(s)
  }

  /** What is stored stays stored: with a stored reply there is an interaction, and so there is no restore. */
  lemma KeptStays(text: Text, s: Sys, op: Op, t: Token)
    requires SysInv(s) && s.exchanged && t.id in s.expiry && Kept(s.tables, t)
    ensures Kept(Step(text, s, op).tables, t)
  {
    AdvancesStep(text, s, op, t.id);
  }

  /** A reply that is stored repeats neither the request nor the revision of one that was stored before. */
  lemma StoredIsNew(s: Sys, i: nat, a: Answer, t: Token)
    requires SysInv(s) && Stores(s, i, a) && Kept(s.tables, t)
    ensures Differ(t, TokenAt(s, i))
  {
    hide Unique, Remembered;
  }

  lemma StoredIsKept(s: Sys, i: nat, a: Answer)
    requires SysInv(s) && Stores(s, i, a)
    ensures Kept(Finished(s, i, a).tables, TokenAt(s, i))
  {
    hide Placed, Unique, Remembered;
  }

  lemma LogStep(text: Text, s: Sys, op: Op)
    requires SysInv(s) && LogInv(s)
    ensures LogInv(Step(text, s, op))
  {
    hide Kept, Remembered, Inv;
    var s' := Step(text, s, op);
    forall i | i in s.log
      ensures i < |s'.attempts| && TokenAt(s', i) == TokenAt(s, i)
      ensures TokenAt(s, i).id in s'.expiry && Kept(s'.tables, TokenAt(s, i))
    {
      AttemptsKeep(text, s, op, i);
      ExpiryKeeps(text, s, op, TokenAt(s, i).id);
      KeptStays(text, s, op, TokenAt(s, i));
    }
    if op.Finish? && Stores(s, op.i, op.a) {
      StoredIsKept(s, op.i, op.a);
      forall i | i in s.log ensures Differ(TokenAt(s, i), TokenAt(s, op.i)) {
        StoredIsNew(s, op.i, op.a, TokenAt(s, i));
      }
      assert s'.log == s.log + [op.i];
      Recall(s, op.i);
    } else {
      LogKeeps(text, s, op);
    }
  }

  lemma LogKeeps(text: Text, s: Sys, op: Op)
    requires !op.Finish? || !Stores(s, op.i, op.a)
    ensures Step(text, s, op).log == s.log
  {
  }

  lemma {:induction false} LogRun(text: Text, s: Sys, ops: seq<Op>)
    requires SysInv(s) && LogInv(s) && SoundRun(text, s, ops)
    ensures LogInv(Exec(text, s, ops))
    decreases |ops|
  {
    hide Step, SysInv, LogInv, Sound;
    if ops != [] {
      StepKeeps(text, s, ops[0]);
      LogStep(text, s, ops[0]);
      LogRun(text, Step(text, s, ops[0]), ops[1..]);
    }
  }

  /** Exactly-once storage in every reachable state, restores included and however long a send may take: each request
      id, and each revision, of a thread is stored at most once, and what is stored for it is what was asked. */
  lemma ExactlyOnce(text: Text, s: Sys)
    requires Reachable(text, s)
    ensures LogInv(s)
  {
    var ops :| SoundRun(text, Start(s.patience), ops) && Exec(text, Start(s.patience), ops) == s;
    StartIsSound(s.patience);
    LogRun(text, Start(s.patience), ops);
  }

  /* ---- Revoked grants ---- */

  lemma {:induction false} StaysRevoked(text: Text, s: Sys, ops: seq<Op>)
    ensures s.revoked <= Exec(text, s, ops).revoked
    decreases |ops|
  {
    if ops != [] {
      OneStepRevokes(text, s, ops[0]);
      hide Step;
      StaysRevoked(text, Step(text, s, ops[0]), ops[1..]);
    }
  }

  lemma OneStepRevokes(text: Text, s: Sys, op: Op)
    ensures s.revoked <= Step(text, s, op).revoked
  {
  }

  /** A grant that was revoked, or that a restore brought in, admits no send of any later run: neither a fresh one nor
      the replay of a stored one. */
  lemma SpentGrantAdmitsNothing(text: Text, s: Sys, op: Op, ops: seq<Op>, grant: Id, q: Query, authorised: bool)
    requires q.grant == Some(grant)
    requires match op
             case Revoke(revoked) => revoked == grant
             case Restore(archive, otherwiseUnused) =>
               Restores(s, otherwiseUnused) && exists id | id in archive.tables.threads ::
                 archive.tables.threads[id].grant == Some(grant)
             case _ => false
    ensures var end := Exec(text, Step(text, s, op), ops);
      !Issues(text, end, q, authorised) && Admit(text, Pruned(end.tables, end.now), MayUse(end, q, authorised), q).Failure?
  {
    assert grant in Step(text, s, op).revoked;
    StaysRevoked(text, Step(text, s, op), ops);
  }

  /* ---- Stored exchanges ---- */

  /** The thread of `k` is gone for good, or its binding, its expiry and the turn stored under `k` are as they were. */
  predicate Unmoved(s: Sys, s': Sys, k: TurnKey) {
    k.thread in s'.tables.threads ==>
      && k.thread in s.tables.threads && SameBinding(s.tables.threads[k.thread], s'.tables.threads[k.thread])
      && (k in s.tables.turns ==> k in s'.tables.turns && s'.tables.turns[k] == s.tables.turns[k])
  }

  lemma UnmovedStep(text: Text, s: Sys, op: Op, k: TurnKey)
    requires SysInv(s) && s.exchanged && k.thread in s.expiry
    ensures Unmoved(s, Step(text, s, op), k) && Step(text, s, op).exchanged
  {
    hide Step, Inv, Remembered;
    StaysExchanged(text, s, op);
    AdvancesStep(text, s, op, k.thread);
  }

  lemma StaysExchanged(text: Text, s: Sys, op: Op)
    requires s.exchanged
    ensures Step(text, s, op).exchanged && (op.Restore? ==> !Restores(s, op.otherwiseUnused))
  {
    hide AfterCreate, AfterPrepare, AfterFinish, AfterClear, AfterDelete, MayCreate;
  }

  lemma {:induction false} UnmovedRun(text: Text, s: Sys, ops: seq<Op>, k: TurnKey)
    requires SysInv(s) && SoundRun(text, s, ops) && s.exchanged && k.thread in s.expiry
    ensures Unmoved(s, Exec(text, s, ops), k)
    decreases |ops|
  {
    hide Step, SysInv, Sound;
    if ops != [] {
      StepKeeps(text, s, ops[0]);
      UnmovedStep(text, s, ops[0], k);
      ExpiryKeeps(text, s, ops[0], k.thread);
      UnmovedRun(text, Step(text, s, ops[0]), ops[1..], k);
    }
  }

  /** A stored exchange never changes while its thread lives, in any later run. */
  lemma StoredTurnsAreImmutable(text: Text, s: Sys, ops: seq<Op>, k: TurnKey)
    requires Reachable(text, s) && SoundRun(text, s, ops) && k in s.tables.turns
    ensures Unmoved(s, Exec(text, s, ops), k)
  {
    ReachableStructure(text, s);
    UnmovedRun(text, s, ops, k);
  }

  /** Retries replay: after any later run, repeating a stored send gets the stored reply back, marks nothing
      pending and stores nothing; the same request id with other content is refused. */
  lemma RetryReplays(text: Text, s: Sys, ops: seq<Op>, q: Query, authorised: bool)
    requires Reachable(text, s) && SoundRun(text, s, ops) && TurnKey(q.id, q.request) in s.tables.turns
    ensures var turn := s.tables.turns[TurnKey(q.id, q.request)];
      var s' := Exec(text, s, ops);
      var live := Pruned(s'.tables, s'.now);
      q.id in live.threads && Bound(live.threads[q.id], q) && MayUse(s', q, authorised) ==>
        && Admit(text, live, MayUse(s', q, authorised), q) ==
             (if turn.hash == text.hash(q.message) then Success(Replay(turn)) else Failure(ReusedRequest))
        && (WellFormed(text, q) ==> AfterPrepare(text, s'.tables, s'.now, MayUse(s', q, authorised), q) == live)
  {
    StoredTurnsAreImmutable(text, s, ops, TurnKey(q.id, q.request));
  }

  /* ---- From the send to the replay of its reply ---- */

  /** A prepared value that replays `a`. */
  predicate ReplaysReply(admitted: Result<Admission, Error>, t: Token, a: Answer) {
    && admitted.Success? && admitted.value.Replay?
    && admitted.value.turn.user == t.message && admitted.value.turn.reply == a.reply
    && admitted.value.turn.receipt == a.receipt && admitted.value.turn.interaction == a.interaction
  }

  lemma StoredReply(text: Text, s: Sys, i: nat, a: Answer)
    requires SysInv(s) && Stores(s, i, a)
    ensures var s' := Step(text, s, Finish(i, a));
      var t := s.attempts[i].token;
      && KeyOf(t) in s'.tables.turns && s'.exchanged && t.id in s'.expiry
      && var turn := s'.tables.turns[KeyOf(t)];
      && turn.hash == t.hash && turn.user == t.message && turn.reply == a.reply && turn.receipt == a.receipt
      && turn.interaction == a.interaction && turn.created == s.now
  {
    hide Inv, Remembered;
    Recall(s, i);
    assert s.attempts[i] in s.attempts;
  }

  lemma {:induction false} TokenStays(text: Text, s: Sys, ops: seq<Op>, i: nat)
    requires i < |s.attempts|
    ensures i < |Exec(text, s, ops).attempts| && Exec(text, s, ops).attempts[i].token == s.attempts[i].token
    decreases |ops|
  {
    hide Step;
    if ops != [] {
      AttemptsKeep(text, s, ops[0], i);
      TokenStays(text, Step(text, s, ops[0]), ops[1..], i);
    }
  }

  lemma SendIsAttempt(text: Text, s: Sys, q: Query, authorised: bool)
    requires Issues(text, s, q, authorised)
    ensures var s1 := Step(text, s, Prepare(q, authorised));
      |s1.attempts| == |s.attempts| + 1 && s1.attempts[|s.attempts|].token == TokenOf(text, q)
  {
  }

  /** The steps of one send: prepared, any run, its reply stored, any run. */
  function Trip(text: Text, s: Sys, q: Query, authorised: bool, mid: seq<Op>, a: Answer, later: seq<Op>): (Sys, Sys, Sys) {
    var prepared := Step(text, s, Prepare(q, authorised));
    var waiting := Exec(text, prepared, mid);
    (prepared, waiting, Exec(text, Step(text, waiting, Finish(|s.attempts|, a)), later))
  }

  /** End to end: a query is admitted as fresh, later its reply is stored, and after any further run the same send gets
      just that reply back, wherever its thread is alive and bound alike and its grant is usable; the same request id with
      a message of another hash is refused. */
  lemma SendIsReplayed(
    text: Text, s: Sys, q: Query, authorised: bool, mid: seq<Op>, a: Answer, later: seq<Op>, retry: Query, usable: bool)
    requires Reachable(text, s) && Issues(text, s, q, authorised)
    requires var (prepared, waiting, end) := Trip(text, s, q, authorised, mid, a, later);
      && SoundRun(text, prepared, mid) && Stores(waiting, |s.attempts|, a)
      && SoundRun(text, Step(text, waiting, Finish(|s.attempts|, a)), later)
    requires retry.id == q.id && retry.request == q.request
    ensures var (prepared, waiting, end) := Trip(text, s, q, authorised, mid, a, later);
      var live := Pruned(end.tables, end.now);
      q.id in live.threads && Bound(live.threads[q.id], retry) && MayUse(end, retry, usable) ==>
        if text.hash(retry.message) == text.hash(q.message)
        then ReplaysReply(Admit(text, live, MayUse(end, retry, usable), retry), TokenOf(text, q), a)
        else Admit(text, live, MayUse(end, retry, usable), retry) == Failure(ReusedRequest)
  {
    var i := |s.attempts|;
    var (prepared, waiting, end) := Trip(text, s, q, authorised, mid, a, later);
    var stored := Step(text, waiting, Finish(i, a));
    ReachableStructure(text, s);
    SendIsAttempt(text, s, q, authorised);
    StepKeeps(text, s, Prepare(q, authorised));
    StructureRun(text, prepared, mid);
    TokenStays(text, prepared, mid, i);
    StepKeeps(text, waiting, Finish(i, a));
    StoredReply(text, waiting, i, a);
    UnmovedRun(text, stored, later, TurnKey(q.id, q.request));
    RetryOutcome(text, end, stored.tables.turns[TurnKey(q.id, q.request)], retry, usable);
  }

  /** What a retry meets where the turn of its request is still stored. */
  lemma RetryOutcome(text: Text, s: Sys, turn: Turn, retry: Query, usable: bool)
    requires retry.id in s.tables.threads ==>
      TurnKey(retry.id, retry.request) in s.tables.turns && s.tables.turns[TurnKey(retry.id, retry.request)] == turn
    ensures var live := Pruned(s.tables, s.now);
      retry.id in live.threads && Bound(live.threads[retry.id], retry) && MayUse(s, retry, usable) ==>
        Admit(text, live, MayUse(s, retry, usable), retry)
          == if text.hash(retry.message) == turn.hash then Success(Replay(turn)) else Failure(ReusedRequest)
  {
  }
}
