/** When a restore keeps every reply to an earlier send out of the restored conversations, exactly. */
module RestoreFence {
  import opened Common
  import opened Continuity
  import opened ContinuityRuns

  /** After `s`, the archive is restored, and a later run stores the reply to a send from before. */
  ghost predicate Crosses(text: Text, s: Sys, archive: Archive, later: seq<Op>) {
    var restore := Restore(archive, true);
    && Reachable(text, s) && Restores(s, true) && Sound(s, restore) && SoundRun(text, Step(text, s, restore), later)
    && exists i | i in Exec(text, Step(text, s, restore), later).log :: i < |s.attempts|
  }

  /** No reply crosses a restore where sends are given up within a day, the shortest time that audit rows are kept. */
  lemma NothingCrosses(text: Text, s: Sys, archive: Archive, later: seq<Op>)
    requires s.patience <= DAY && Reachable(text, s) && Restores(s, true)
    requires Sound(s, Restore(archive, true)) && SoundRun(text, Step(text, s, Restore(archive, true)), later)
    ensures forall i | i in Exec(text, Step(text, s, Restore(archive, true)), later).log :: i >= |s.attempts|
  {
    var restore := Restore(archive, true);
    var s1 := Step(text, s, restore);
    ReachableStructure(text, s);
    PatientReach(text, s);
    PatienceKeeps(text, s, restore);
    PatientIsGuarded(text, s1, later);
    assert s1.log == [];
    var log := Exec(text, s1, later).log;
    assert log[|s1.log|..] == log;
    forall i | 0 <= i < |s.attempts| ensures i !in log {
      ClosedForGood(text, s, restore, later, i);
    }
  }

  /* ---- A reply that does cross ---- */

  /** A conversation and a send that the vault would take. */
  datatype Case = Case(id: Id, request: Id, message: string, name: string)

  predicate Acceptable(text: Text, c: Case) {
    text.uuid(c.request) && !text.Blank(c.message) && |c.message| <= MESSAGE_LIMIT && text.Label(c.name).Some?
  }

  function CreationOf(c: Case): Creation {
    Creation(c.name, c.name, "", "", c.name, None, 30, true)
  }

  function At(text: Text, c: Case, revision: int, pending: Option<Id>): Tables {
    Tables(map[c.id := ThreadOf(text, 0, CreationOf(c)).(revision := revision, pending := pending)], map[])
  }

  function Send(text: Text, c: Case, revision: int): Query {
    Query(c.id, c.request, revision, "", "", text.trim(c.name), None, c.message)
  }

  function Prepared(text: Text, c: Case, revision: int, now: Time): Attempt {
    Attempt(TokenOf(text, Send(text, c, revision)), now, false)
  }

  /** The vault of the case: its tables, time, sends and audit rows. */
  function Scene(text: Text, c: Case, patience: nat, tables: Tables, now: Time, attempts: seq<Attempt>,
      audits: set<Time>): Sys {
    Sys(tables, now, map[c.id := 30 * DAY], {}, attempts, audits, false, patience, [])
  }

  lemma ThreadIsLive(text: Text, c: Case, revision: int, pending: Option<Id>, now: Time)
    requires now < 30 * DAY
    ensures Continuity.Pruned(At(text, c, revision, pending), now) == At(text, c, revision, pending)
  {
    assert Continuity.Pruned(At(text, c, revision, pending), now).threads == At(text, c, revision, pending).threads;
  }

  lemma Creates(text: Text, c: Case, patience: nat)
    requires Acceptable(text, c)
    ensures Step(text, Start(patience), Op.Create(c.id, CreationOf(c), true))
      == Scene(text, c, patience, At(text, c, 0, None), 0, [], {0})
  {
    assert Continuity.Pruned(Tables(map[], map[]), 0) == Tables(map[], map[]);
    assert At(text, c, 0, None).threads == map[][c.id := ThreadOf(text, 0, CreationOf(c))];
  }

  lemma Prepares(text: Text, c: Case, s: Sys, revision: int)
    requires Acceptable(text, c) && s.tables == At(text, c, revision, None) && s.now < 30 * DAY && 0 <= revision < 2
    ensures Step(text, s, Op.Prepare(Send(text, c, revision), true))
      == s.(tables := At(text, c, revision, Some(c.request)), attempts := s.attempts + [Prepared(text, c, revision, s.now)])
  {
    ThreadIsLive(text, c, revision, None, s.now);
    assert At(text, c, revision, Some(c.request)).threads
      == At(text, c, revision, None).threads[c.id := At(text, c, revision, None).threads[c.id].(pending := Some(c.request))];
  }

  lemma Clears(text: Text, c: Case, s: Sys)
    requires s.tables == At(text, c, 0, Some(c.request))
    ensures Step(text, s, Op.Clear(c.id, c.request)) == s.(tables := At(text, c, 1, None))
  {
    assert At(text, c, 1, None).threads
      == s.tables.threads[c.id := s.tables.threads[c.id].(pending := None, revision := 1)];
  }

  /** The vault after the conversation was created and archived, prepared, cleared, prepared again and deleted, all at
      once, and a day later the audit was pruned. */
  function Emptied(text: Text, c: Case, patience: nat): Sys {
    Scene(text, c, patience, Tables(map[], map[]), DAY + 1, [Prepared(text, c, 0, 0), Prepared(text, c, 1, 0)], {})
  }

  function Saved(text: Text, c: Case): Archive {
    Archive(At(text, c, 0, None), {0}, false)
  }

  lemma ExecStep(text: Text, s: Sys, op: Op, ops: seq<Op>)
    ensures Exec(text, s, [op] + ops) == Exec(text, Step(text, s, op), ops)
    ensures !op.Restore? && SoundRun(text, Step(text, s, op), ops) ==> SoundRun(text, s, [op] + ops)
  {
    assert ([op] + ops)[1..] == ops;
  }

  lemma Leaves(text: Text, c: Case, s: Sys, patience: nat, attempts: seq<Attempt>)
    requires s == Scene(text, c, patience, At(text, c, 1, Some(c.request)), 0, attempts, {0})
    ensures var s1 := Step(text, s, Op.Delete(c.id));
      var s2 := Step(text, s1, Tick(DAY + 1));
      Step(text, s2, PruneAudit(1)) == Scene(text, c, patience, Tables(map[], map[]), DAY + 1, attempts, {})
  {
    var s1 := Step(text, s, Op.Delete(c.id));
    assert s1.tables.threads == map[] && s1.tables.turns == map[] && s1.audits == {0};
    assert Recent({0}, 1) == {};
  }

  /** The vault when the second send is pending. */
  function Waiting(text: Text, c: Case, patience: nat): Sys {
    Scene(text, c, patience, At(text, c, 1, Some(c.request)), 0, [Prepared(text, c, 0, 0), Prepared(text, c, 1, 0)], {0})
  }

  lemma ReachesWaiting(text: Text, c: Case, patience: nat)
    requires Acceptable(text, c)
    ensures var s1 := Step(text, Start(patience), Op.Create(c.id, CreationOf(c), true));
      var s2 := Step(text, s1, Op.Prepare(Send(text, c, 0), true));
      var s3 := Step(text, s2, Op.Clear(c.id, c.request));
      Step(text, s3, Op.Prepare(Send(text, c, 1), true)) == Waiting(text, c, patience)
  {
    hide Step, At, Prepared;
    var s1 := Step(text, Start(patience), Op.Create(c.id, CreationOf(c), true));
    var s2 := Step(text, s1, Op.Prepare(Send(text, c, 0), true));
    Creates(text, c, patience);
    Prepares(text, c, s1, 0);
    Clears(text, c, s2);
    Prepares(text, c, Step(text, s2, Op.Clear(c.id, c.request)), 1);
  }

  lemma ReachesEmptied(text: Text, c: Case, patience: nat)
    requires Acceptable(text, c)
    ensures Reachable(text, Emptied(text, c, patience))
  {
    hide Step, Exec, SoundRun, At, Prepared;
    var s0 := Start(patience);
    var op1, op2, op3 := Op.Create(c.id, CreationOf(c), true), Op.Prepare(Send(text, c, 0), true), Op.Clear(c.id, c.request);
    var op4, op5, op6, op7 := Op.Prepare(Send(text, c, 1), true), Op.Delete(c.id), Tick(DAY + 1), PruneAudit(1);
    var s3 := Step(text, Step(text, Step(text, s0, op1), op2), op3);
    var s4 := Waiting(text, c, patience);
    var s7 := Emptied(text, c, patience);
    ReachesWaiting(text, c, patience);
    Leaves(text, c, s4, patience, s4.attempts);
    NoSteps(text, s7);
    ExecStep(text, Step(text, Step(text, s4, op5), op6), op7, []);
    ExecStep(text, Step(text, s4, op5), op6, [op7] + []);
    ExecStep(text, s4, op5, [op6] + ([op7] + []));
    var rest := [op5] + ([op6] + ([op7] + []));
    ExecStep(text, s3, op4, rest);
    ExecStep(text, Step(text, Step(text, s0, op1), op2), op3, [op4] + rest);
    ExecStep(text, Step(text, s0, op1), op2, [op3] + ([op4] + rest));
    ExecStep(text, s0, op1, [op2] + ([op3] + ([op4] + rest)));
  }

  lemma NoSteps(text: Text, s: Sys)
    ensures Exec(text, s, []) == s && SoundRun(text, s, [])
  {
  }

  /** The retry that makes the thread pending again, the response to the old send, and its reply. */
  function After(text: Text, c: Case): seq<Op> {
    [Op.Prepare(Send(text, c, 1), true)] + ([Respond(1)] + ([Op.Finish(1, Answer("", None, ""))] + []))
  }

  lemma RestoresSaved(text: Text, c: Case, patience: nat)
    ensures var s, restore := Emptied(text, c, patience), Restore(Saved(text, c), true);
      && Restores(s, true) && Sound(s, restore)
      && Step(text, s, restore).(expiry := s.expiry, audits := {}) == s.(tables := At(text, c, 1, None))
      && Step(text, s, restore).expiry == s.expiry
  {
    var s := Emptied(text, c, patience);
    ThreadIsLive(text, c, 1, None, s.now);
    assert Recovered(At(text, c, 0, None)).threads == At(text, c, 1, None).threads;
    assert Expiries(At(text, c, 0, None)) + s.expiry == s.expiry;
    assert Grants(At(text, c, 0, None)) == {};
  }

  lemma LateReplyIsStored(text: Text, c: Case, s: Sys)
    requires s.tables == At(text, c, 1, Some(c.request)) && s.log == [] && s.now == DAY + 1 && s.patience > DAY
    requires |s.attempts| > 1 && s.attempts[1] == Prepared(text, c, 1, 0)
    ensures Step(text, Step(text, s, Respond(1)), Op.Finish(1, Answer("", None, ""))).log == [1]
  {
  }

  /** Where a send may take longer than a day, its reply can cross. */
  lemma SlowReplyCrosses(text: Text, c: Case, patience: nat)
    requires Acceptable(text, c) && patience > DAY
    ensures Crosses(text, Emptied(text, c, patience), Saved(text, c), After(text, c))
  {
    var s := Emptied(text, c, patience);
    var op1, op2, op3 := Op.Prepare(Send(text, c, 1), true), Respond(1), Op.Finish(1, Answer("", None, ""));
    var s0 := Step(text, s, Restore(Saved(text, c), true));
    var s1 := Step(text, s0, op1);
    var s2 := Step(text, s1, op2);
    var s3 := Step(text, s2, op3);
    ReachesEmptied(text, c, patience);
    RestoresSaved(text, c, patience);
    hide Step, Exec, SoundRun, At, Reachable, Sound;
    Prepares(text, c, s0, 1);
    LateReplyIsStored(text, c, s1);
    NoSteps(text, s3);
    ExecStep(text, s2, op3, []);
    ExecStep(text, s1, op2, [op3] + []);
    ExecStep(text, s0, op1, [op2] + ([op3] + []));
    assert 1 in Exec(text, s0, After(text, c)).log;
  }

  /** The restore fence, exactly: no reply to an earlier send is ever stored after a restore if and only if sends are
      given up within a day. The clients give them up after three minutes, by a clock that need not be the vault's. */
  lemma FenceHoldsIff(text: Text, c: Case, patience: nat)
    requires Acceptable(text, c)
    ensures patience <= DAY <==>
      forall s: Sys, archive, later | s.patience == patience :: !Crosses(text, s, archive, later)
  {
    if patience <= DAY {
      forall s: Sys, archive, later | s.patience == patience ensures !Crosses(text, s, archive, later) {
        if Crosses(text, s, archive, later) {
          NothingCrosses(text, s, archive, later);
        }
      }
    } else {
      SlowReplyCrosses(text, c, patience);
    }
  }
}
