/** Rotating a tunnel's identity key: one client file, one admission server, and an unreliable network between them.

    Either side may crash at any step. Requests and acknowledgements may be lost, delayed, reordered and repeated. */
module Rotation {
  import opened Common

  datatype Identity = Identity(epoch: nat, key: string)

  /** The client's configuration file, replaced as a whole. */
  datatype File = File(current: Identity, pending: Option<Identity>)

  datatype Request = Open(epoch: nat) | Prepare(next: Identity) | Commit(next: Identity)

  /** Where the supervisor is; after a crash it is `Down`. */
  datatype Phase =
    | Down | Starting | Idle
    | Drafted(next: Identity) | Pending | PrepareSent | EarlyCommitSent | Tunnelled | CommitSent | Committed

  datatype Server = Server(current: Identity, pending: Option<Identity>, previous: Option<string>)

  datatype State = State(
    file: File, phase: Phase, memory: Server, disk: Server, requests: set<Request>, acks: set<Request>, used: set<string>)

  datatype Op =
    | Start | OpenAcked | Draft(key: string) | PersistPending
    | SendPrepare | PrepareAcked | PrepareTimeout | EarlyCommitAcked | SendCommit | CommitAcked | PersistCommitted | Crash
    | Deliver(request: Request, handshake: bool, admitted: bool)
    | Save | ExpirePending | ExpirePrevious | ServerCrash

  /* ---- The server ---- */

  predicate Accepts(s: Server, r: Request, handshake: bool) {
    match r
    case Open(epoch) => epoch == s.current.epoch
    case Prepare(next) =>
      && next.epoch == s.current.epoch + 1 && next.key != s.current.key && s.previous.None?
      && (s.pending.Some? ==> s.pending.value == next)
    case Commit(next) => next == s.current || (s.pending == Some(next) && handshake)
  }

  function Handled(s: Server, r: Request): Server {
    match r
    case Open(_) => s
    case Prepare(next) => s.(pending := Some(next))
    case Commit(next) => if next == s.current then s else Server(next, None, Some(s.current.key))
  }

  /* ---- Steps: an operation that is not possible changes nothing ---- */

  function ClientStep(s: State, op: Op): State {
    match op
    case Start => if s.phase != Down then s
      else if s.file.pending.Some? then s.(phase := Pending)
      else s.(phase := Starting, requests := s.requests + {Open(s.file.current.epoch)})
    case OpenAcked => if s.phase == Starting && Open(s.file.current.epoch) in s.acks then s.(phase := Idle) else s
    case Draft(key) =>
      if s.phase == Idle && key !in s.used && s.file.pending.None?
      then s.(phase := Drafted(Identity(s.file.current.epoch + 1, key))) else s
    case PersistPending =>
      if !s.phase.Drafted? then s
      else
        var next := s.phase.next;
        s.(phase := Pending, file := s.file.(pending := Some(next)), used := s.used + {next.key})
    case SendPrepare =>
      if s.phase == Pending && s.file.pending.Some?
      then s.(phase := PrepareSent, requests := s.requests + {Prepare(s.file.pending.value)}) else s
    case PrepareAcked =>
      if s.phase == PrepareSent && s.file.pending.Some? && Prepare(s.file.pending.value) in s.acks
      then s.(phase := Tunnelled) else s
    case PrepareTimeout =>
      if s.phase == PrepareSent && s.file.pending.Some?
      then s.(phase := EarlyCommitSent, requests := s.requests + {Commit(s.file.pending.value)}) else s
    case EarlyCommitAcked =>
      if s.phase == EarlyCommitSent && s.file.pending.Some? && Commit(s.file.pending.value) in s.acks
      then s.(phase := Tunnelled) else s
    case SendCommit =>
      if s.phase == Tunnelled && s.file.pending.Some?
      then s.(phase := CommitSent, requests := s.requests + {Commit(s.file.pending.value)}) else s
    case CommitAcked =>
      if s.phase == CommitSent && s.file.pending.Some? && Commit(s.file.pending.value) in s.acks
      then s.(phase := Committed) else s
    case PersistCommitted =>
      if s.phase == Committed && s.file.pending.Some?
      then s.(phase := Idle, file := File(s.file.pending.value, None)) else s
    case Crash => s.(phase := Down)
    case _ => s
  }

  /** The state is saved before an acknowledgement is sent; a packet that is accepted but then fails changes memory
      only. */
  function ServerStep(s: State, op: Op): State {
    match op
    case Deliver(r, handshake, admitted) =>
      if r !in s.requests || !Accepts(s.memory, r, handshake) then s
      else
        var memory := Handled(s.memory, r);
        if admitted then s.(memory := memory, disk := memory, acks := s.acks + {r}) else s.(memory := memory)
    case Save => s.(disk := s.memory)
    case ExpirePending => s.(memory := s.memory.(pending := None))
    case ExpirePrevious => s.(memory := s.memory.(previous := None))
    case ServerCrash => s.(memory := s.disk)
    case _ => s
  }

  predicate OfServer(op: Op) {
    op.Deliver? || op.Save? || op.ExpirePending? || op.ExpirePrevious? || op.ServerCrash?
  }

  function Step(s: State, op: Op): State {
    if OfServer(op) then ServerStep(s, op) else ClientStep(s, op)
  }

  function Exec(s: State, ops: seq<Op>): State
    decreases |ops|
  {
    if ops == [] then s else Exec(Step(s, ops[0]), ops[1..])
  }

  /** Both sides as enrolment leaves them. */
  function Enrolled(key: string): State {
    var server := Server(Identity(0, key), None, None);
    State(File(Identity(0, key), None), Down, server, server, {}, {}, {key})
  }

  /* ---- Custody ---- */

  /** The server has committed the key the file calls current or the key it calls pending, and prepares none but the
      latter. */
  predicate InCustody(f: File, s: Server) {
    || (s.current == f.current && (s.pending.Some? ==> s.pending == f.pending))
    || (Some(s.current) == f.pending && s.pending.None?)
  }

  predicate WellNumbered(f: File) {
    f.pending.Some? ==> f.pending.value.epoch == f.current.epoch + 1 && f.pending.value.key != f.current.key
  }

  /** No request offers a key that the file does not hold, but for epochs already over. */
  predicate Offered(f: File, used: set<string>, r: Request) {
    r.Open? || (r.next.key in used && (r.next.epoch <= f.current.epoch || f.pending == Some(r.next)))
  }

  /** An acknowledged commit of the pending key has been made, durably. */
  predicate Truthful(f: File, memory: Server, disk: Server, ack: Request) {
    ack.Commit? && f.pending == Some(ack.next) ==> memory.current == ack.next && disk.current == ack.next
  }

  predicate PhaseFits(s: State) {
    match s.phase
    case Down => true
    case Starting => s.file.pending.None?
    case Idle => s.file.pending.None?
    case Drafted(next) => s.file.pending.None? && next.epoch == s.file.current.epoch + 1 && next.key !in s.used
    case Committed => s.file.pending.Some? && s.memory.current == s.disk.current == s.file.pending.value
    case _ => s.file.pending.Some?
  }

  ghost predicate Inv(s: State) {
    && WellNumbered(s.file) && InCustody(s.file, s.memory) && InCustody(s.file, s.disk) && PhaseFits(s)
    && s.file.current.key in s.used && (s.file.pending.Some? ==> s.file.pending.value.key in s.used) && s.acks <= s.requests
    && s.disk.current.epoch <= s.memory.current.epoch
    && (forall r | r in s.requests :: Offered(s.file, s.used, r))
    && (forall r | r in s.acks :: Truthful(s.file, s.memory, s.disk, r))
  }

  lemma EnrolledInv(key: string)
    ensures Inv(Enrolled(key))
  {
  }

  /** Whatever is delivered, the server stays in custody; and a commit that it accepts is of its new current key. */
  lemma HandledKeepsCustody(f: File, used: set<string>, s: Server, r: Request, handshake: bool)
    requires WellNumbered(f) && InCustody(f, s) && Offered(f, used, r) && Accepts(s, r, handshake)
    ensures InCustody(f, Handled(s, r)) && (r.Commit? ==> Handled(s, r).current == r.next)
    ensures Some(s.current) == f.pending ==> Handled(s, r).current == s.current
    ensures s.current.epoch <= Handled(s, r).current.epoch
  {
  }

  lemma ServerStepKeeps(s: State, op: Op)
    requires Inv(s) && OfServer(op)
    ensures Inv(ServerStep(s, op))
  {
    hide Accepts, Handled, Offered;
    if op.Deliver? && op.request in s.requests && Accepts(s.memory, op.request, op.handshake) {
      HandledKeepsCustody(s.file, s.used, s.memory, op.request, op.handshake);
    }
  }

  lemma ClientStepKeeps(s: State, op: Op)
    requires Inv(s)
    ensures Inv(ClientStep(s, op))
  {
  }

  lemma StepKeeps(s: State, op: Op)
    requires Inv(s)
    ensures Inv(Step(s, op))
  {
    if OfServer(op) {
      ServerStepKeeps(s, op);
    } else {
      ClientStepKeeps(s, op);
    }
  }

  lemma {:induction false} RunKeeps(s: State, ops: seq<Op>)
    requires Inv(s)
    ensures Inv(Exec(s, ops))
    decreases |ops|
  {
    hide Inv, Step;
    if ops != [] {
      StepKeeps(s, ops[0]);
      RunKeeps(Step(s, ops[0]), ops[1..]);
    }
  }

  /** What some run leads to from enrolment. */
  ghost predicate Reachable(s: State) {
    exists key, ops :: Exec(Enrolled(key), ops) == s
  }

  lemma ReachableInv(s: State)
    requires Reachable(s)
    ensures Inv(s)
  {
    var key, ops :| Exec(Enrolled(key), ops) == s;
    EnrolledInv(key);
    RunKeeps(Enrolled(key), ops);
  }

  /** Custody in every reachable state, with crashes anywhere on the way: the client's file holds the private key of
      the identity that the server has committed, in memory and on disk, and the server's epoch is the file's or one
      more. */
  lemma CustodyHolds(s: State)
    requires Reachable(s)
    ensures s.memory.current == s.file.current || Some(s.memory.current) == s.file.pending
    ensures s.disk.current == s.file.current || Some(s.disk.current) == s.file.pending
    ensures s.file.current.epoch <= s.disk.current.epoch <= s.memory.current.epoch <= s.file.current.epoch + 1
  {
    ReachableInv(s);
  }

  /** The durable identity never goes back, and no epoch ever has two of them: a retired key is never used again. */
  lemma IdentityAdvances(s: State, ops: seq<Op>)
    requires Reachable(s)
    ensures var t := Exec(s, ops);
      && s.disk.current.epoch <= t.disk.current.epoch && s.file.current.epoch <= t.file.current.epoch
      && (s.disk.current.epoch == t.disk.current.epoch ==> s.disk.current == t.disk.current)
  {
    ReachableInv(s);
    RunAdvances(s, ops);
  }

  lemma {:induction false} RunAdvances(s: State, ops: seq<Op>)
    requires Inv(s)
    ensures var t := Exec(s, ops);
      && s.disk.current.epoch <= t.disk.current.epoch && s.file.current.epoch <= t.file.current.epoch
      && (s.disk.current.epoch == t.disk.current.epoch ==> s.disk.current == t.disk.current)
    decreases |ops|
  {
    hide Inv, Step;
    if ops != [] {
      StepAdvances(s, ops[0]);
      StepKeeps(s, ops[0]);
      RunAdvances(Step(s, ops[0]), ops[1..]);
    }
  }

  lemma StepAdvances(s: State, op: Op)
    requires Inv(s)
    ensures var t := Step(s, op);
      && s.disk.current.epoch <= t.disk.current.epoch && s.file.current.epoch <= t.file.current.epoch
      && (s.disk.current.epoch == t.disk.current.epoch ==> s.disk.current == t.disk.current)
  {
    hide Accepts, Handled, Offered, Truthful;
    if op.Deliver? && op.request in s.requests && Accepts(s.memory, op.request, op.handshake) {
      HandledKeepsCustody(s.file, s.used, s.memory, op.request, op.handshake);
    }
  }

  /** Outside a rotation the two sides agree, so a connection or its renewal is not refused as stale; at any other epoch
      it is. */
  lemma OpenIsNotStale(s: State)
    requires Reachable(s) && s.file.pending.None?
    ensures s.memory.current == s.disk.current == s.file.current
    ensures forall epoch: nat, handshake :: Accepts(s.memory, Open(epoch), handshake) <==> epoch == s.file.current.epoch
  {
    ReachableInv(s);
  }

  /** What a step may do to the server. Its committed identity changes only when a commit of the prepared identity comes
      with a handshake, and then the old key stays as the previous one; or when a crash takes it back to what was saved.
      It prepares only the next epoch's identity, under another key, never while a previous key is still accepted, and
      never in place of another one that it has prepared. An acknowledgement is of a request that was sent, and by then
      the state is saved. */
  lemma ServerChanges(s: State, op: Op)
    ensures var t := Step(s, op);
      && (t.memory.current != s.memory.current ==>
            || (op == ServerCrash && t.memory == s.disk)
            || (op.Deliver? && op.handshake && s.memory.pending.Some? && op.request == Commit(s.memory.pending.value)
                && t.memory == Server(s.memory.pending.value, None, Some(s.memory.current.key))))
      && (t.memory.pending.Some? && t.memory.pending != s.memory.pending ==>
            || (op == ServerCrash && t.memory == s.disk)
            || (op.Deliver? && op.request == Prepare(t.memory.pending.value) && s.memory.previous.None?
                && s.memory.pending.None? && t.memory.current == s.memory.current
                && t.memory.pending.value.epoch == s.memory.current.epoch + 1
                && t.memory.pending.value.key != s.memory.current.key))
      && (t.acks != s.acks ==>
            op.Deliver? && op.admitted && op.request in s.requests && t.acks == s.acks + {op.request} && t.disk == t.memory)
      && (t.disk != s.disk ==> t.disk == t.memory)
      && (op == ServerCrash ==> t.memory == t.disk == s.disk)
  {
  }

  /** Neither side touches the other: what the server does leaves the file, and what the client does leaves the
      server. */
  lemma SidesAreApart(s: State, op: Op)
    ensures var t := Step(s, op);
      if OfServer(op) then t.file == s.file && t.phase == s.phase && t.requests == s.requests && t.used == s.used
      else t.memory == s.memory && t.disk == s.disk && t.acks == s.acks
  {
  }

  /** The file gives up its old identity only for the pending one, and only when the server has it in memory and on
      disk. */
  lemma FileChanges(s: State, op: Op)
    requires Inv(s)
    ensures var t := Step(s, op);
      t.file != s.file ==>
        || (t.file.current == s.file.current && s.file.pending.None? && t.file.pending.Some?
            && t.file.pending.value.epoch == s.file.current.epoch + 1 && t.file.pending.value.key !in s.used)
        || (Some(t.file.current) == s.file.pending && t.file.pending.None?
            && s.memory.current == s.disk.current == t.file.current)
  {
  }

  /** The client goes on to its tunnel only after an acknowledged preparation, or commit, of the pending identity, and to
      persisting it only after its acknowledged commit; and it sends no request for any other identity. */
  lemma ClientWaits(s: State, op: Op)
    requires !OfServer(op)
    ensures var t, n := Step(s, op), s.file.pending;
      && (t.phase == Tunnelled && s.phase != Tunnelled ==>
            n.Some? && if s.phase == PrepareSent then Prepare(n.value) in s.acks
                       else s.phase == EarlyCommitSent && Commit(n.value) in s.acks)
      && (t.phase == Committed && s.phase != Committed ==> s.phase == CommitSent && n.Some? && Commit(n.value) in s.acks)
      && (t.phase == Idle && s.phase == Starting ==> Open(s.file.current.epoch) in s.acks)
      && (forall request | request in t.requests - s.requests ::
            if request.Open? then n.None? && request.epoch == s.file.current.epoch else n == Some(request.next))
  {
  }

  /* ---- Completion ---- */

  /** Reconnecting after a crash: if the commit was already made, the server refuses the preparation and the client
      times out, then commits again. */
  function Reconnect(s: State, n: Identity): seq<Op> {
    [Crash, Start, SendPrepare] +
    if s.memory.current == n then [PrepareTimeout, Deliver(Commit(n), true, true), EarlyCommitAcked]
    else [ExpirePrevious, Deliver(Prepare(n), true, true), PrepareAcked]
  }

  function Conclude(n: Identity): seq<Op> {
    [SendCommit, Deliver(Commit(n), true, true), CommitAcked, PersistCommitted]
  }

  lemma {:induction false} ExecAppend(s: State, a: seq<Op>, b: seq<Op>)
    ensures Exec(s, a + b) == Exec(Exec(s, a), b)
    decreases |a|
  {
    if a == [] {
      assert a + b == b;
    } else {
      assert (a + b)[1..] == a[1..] + b;
      ExecAppend(Step(s, a[0]), a[1..], b);
    }
  }

  lemma ThreeSteps(s: State, a: Op, b: Op, c: Op)
    ensures Exec(s, [a, b, c]) == Step(Step(Step(s, a), b), c)
  {
    hide Step;
    var ops := [a, b, c];
    assert ops[1..] == [b, c] && ops[1..][1..] == [c] && ops[1..][1..][1..] == [];
    assert Exec(s, ops) == Exec(Step(s, a), ops[1..]);
    assert Exec(Step(s, a), ops[1..]) == Exec(Step(Step(s, a), b), ops[1..][1..]);
    assert Exec(Step(Step(s, a), b), [c]) == Exec(Step(Step(Step(s, a), b), c), []);
  }

  lemma Reconnects(s: State, n: Identity)
    requires Inv(s) && s.file.pending == Some(n)
    ensures var t := Exec(s, Reconnect(s, n));
      && t.phase == Tunnelled && t.file == s.file
      && (t.memory.current == n || t.memory.pending == Some(n))
  {
    hide Exec;
    var start := [Crash, Start, SendPrepare];
    var u := Exec(s, start);
    ThreeSteps(s, Crash, Start, SendPrepare);
    if s.memory.current == n {
      CommitsAgain(u, n);
      ExecAppend(s, start, [PrepareTimeout, Deliver(Commit(n), true, true), EarlyCommitAcked]);
    } else {
      PreparesAgain(u, n);
      ExecAppend(s, start, [ExpirePrevious, Deliver(Prepare(n), true, true), PrepareAcked]);
    }
  }

  lemma CommitsAgain(u: State, n: Identity)
    requires u.phase == PrepareSent && u.file.pending == Some(n) && u.memory.current == n
    ensures var t := Exec(u, [PrepareTimeout, Deliver(Commit(n), true, true), EarlyCommitAcked]);
      t.phase == Tunnelled && t.file == u.file && t.memory.current == n
  {
    hide Exec;
    ThreeSteps(u, PrepareTimeout, Deliver(Commit(n), true, true), EarlyCommitAcked);
  }

  lemma PreparesAgain(u: State, n: Identity)
    requires u.phase == PrepareSent && u.file.pending == Some(n) && u.memory.current != n && Prepare(n) in u.requests
    requires WellNumbered(u.file) && InCustody(u.file, u.memory)
    ensures var t := Exec(u, [ExpirePrevious, Deliver(Prepare(n), true, true), PrepareAcked]);
      t.phase == Tunnelled && t.file == u.file && t.memory.pending == Some(n)
  {
    hide Exec;
    ThreeSteps(u, ExpirePrevious, Deliver(Prepare(n), true, true), PrepareAcked);
  }

  lemma Concludes(t: State, n: Identity)
    requires t.phase == Tunnelled && t.file.pending == Some(n) && (t.memory.current == n || t.memory.pending == Some(n))
    ensures var u := Exec(t, Conclude(n));
      u.phase == Idle && u.file == File(n, None) && u.memory.current == n && u.disk.current == n
  {
    var deliver := Deliver(Commit(n), true, true);
    ThreeSteps(t, SendCommit, deliver, CommitAcked);
    var last := [PersistCommitted];
    assert last[1..] == [];
    ExecAppend(t, [SendCommit, deliver, CommitAcked], [PersistCommitted]);
    assert Conclude(n) == [SendCommit, deliver, CommitAcked] + [PersistCommitted];
  }

  /** From every reachable state with a rotation under way, wherever either side stopped, a restart can complete it. */
  lemma RestartCanComplete(s: State, n: Identity)
    requires Reachable(s) && s.file.pending == Some(n)
    ensures var t := Exec(s, Reconnect(s, n) + Conclude(n));
      t.phase == Idle && t.file == File(n, None) && t.memory.current == n && t.disk.current == n
  {
    ReachableInv(s);
    Reconnects(s, n);
    ExecAppend(s, Reconnect(s, n), Conclude(n));
    Concludes(Exec(s, Reconnect(s, n)), n);
  }

  /* ---- The client's own control flow ---- */

  /** How one control request ends: acknowledged, timed out, or with any other failure. */
  datatype Reply = Acked | TimedOut | Failed

  datatype Replies = Replies(prepare: Reply, early: Reply, tunnel: bool, commit: Reply)

  predicate Connects(r: Replies) {
    (r.prepare.Acked? || (r.prepare.TimedOut? && r.early.Acked?)) && r.tunnel && r.commit.Acked?
  }

  /** The identity that a rotation is for: the one already pending, or a fresh one. */
  function Target(f: File, key: string): Identity {
    if f.pending.Some? then f.pending.value else Identity(f.current.epoch + 1, key)
  }

  function Sent(n: Identity, r: Replies): seq<Request> {
    [Prepare(n)] + (if r.prepare.TimedOut? then [Commit(n)] else [])
    + if (r.prepare.Acked? || (r.prepare.TimedOut? && r.early.Acked?)) && r.tunnel then [Commit(n)] else []
  }

  /* ---- Replacing a file as a whole ---- */

  /** What a file holds: nothing that can be read, or a whole configuration. */
  datatype Content = Torn | Whole(file: File)

  /** A directory with the configuration and its temporary file. `after` holds everything that the configuration may
      hold after a crash: until the directory is synchronised both the old and the new name may survive, and a file
      that was not synchronised may be torn. */
  class Disk {
    var now: Content
    var temporary: Content
    var synchronised: bool
    var after: set<Content>

    predicate Holds(f: File)
      reads this
    {
      now == Whole(f) && after == {Whole(f)}
    }

    constructor (f: File)
      ensures Holds(f)
    {
      now, temporary, synchronised, after := Whole(f), Torn, false, {Whole(f)};
    }

    method Write(f: File)
      modifies this`temporary, this`synchronised
      ensures temporary == Whole(f) && !synchronised
    {
      temporary, synchronised := Whole(f), false;
    }

    method Synchronise()
      modifies this`synchronised
      ensures synchronised
    {
      synchronised := true;
    }

    method Replace()
      modifies this`now, this`temporary, this`after
      ensures now == old(temporary) && temporary == Torn
      ensures after == old(after) + {old(temporary)} + if synchronised then {} else {Torn}
    {
      now, after := temporary, after + {temporary} + if synchronised then {} else {Torn};
      temporary := Torn;
    }

    method SynchroniseDirectory()
      requires synchronised
      modifies this`after
      ensures after == {now}
    {
      after := {now};
    }

    /** Persists a configuration, or stops after some of its four steps. Wherever it stops, a crash leaves the old
        configuration or the new one, whole; and only the new one once it is done. */
    method Persist(f: File, steps: nat, ghost before: File)
      requires Holds(before)
      modifies this
      ensures after <= {Whole(before), Whole(f)} && after != {}
      ensures steps >= 4 ==> Holds(f)
      ensures steps < 3 ==> Holds(before)
    {
      if steps == 0 { return; }
      Write(f);
      if steps == 1 { return; }
      Synchronise();
      if steps == 2 { return; }
      Replace();
      if steps == 3 { return; }
      SynchroniseDirectory();
    }
  }

  /** Where the state machine takes a persisted step at once, the supervisor may be stopped inside it. Whatever `Persist`
      then leaves, the machine has a run to it: the crash came just before the step, or just after it. */
  lemma PersistIsOneStep(s: State, op: Op, left: Content)
    requires if op.PersistPending? then s.phase.Drafted?
             else op.PersistCommitted? && s.phase.Committed? && s.file.pending.Some?
    requires left in {Whole(s.file), Whole(Step(s, op).file)}
    ensures var t := Exec(s, if left == Whole(s.file) then [Crash] else [op, Crash]);
      && left == Whole(t.file) && t.phase == Down
      && t.memory == s.memory && t.disk == s.disk && t.requests == s.requests && t.acks == s.acks
  {
    OneStep(s, Crash);
    OneStep(s, op);
    OneStep(Step(s, op), Crash);
    ExecAppend(s, [op], [Crash]);
    assert [op] + [Crash] == [op, Crash];
  }

  class Supervisor {
    var config: File
    const disk: Disk
    var sent: seq<Request>

    predicate Persisted()
      reads this, disk
    {
      disk.Holds(config)
    }

    constructor (file: File, disk: Disk)
      requires disk.Holds(file)
      ensures Persisted() && config == file && this.disk == disk && sent == []
    {
      config, this.disk, sent := file, disk, [];
    }

    /** Sends one request of a rotation, whose identity is on disk by then; the reply comes from outside. */
    method Control(request: Request)
      requires !request.Open? && Persisted() && config.pending == Some(request.next)
      modifies this`sent
      ensures sent == old(sent) + [request]
    {
      sent := sent + [request];
    }

    /** One rotation. Each request goes through `Control`, so nothing is sent before the pending identity is on disk.
        The file turns to the new identity exactly when its commit was acknowledged; in every other case it keeps
        both. */
    method Rotate(key: string, r: Replies) returns (connected: bool)
      requires Persisted()
      modifies this`config, this`sent, disk
      ensures Persisted() && (connected <==> Connects(r))
      ensures sent == old(sent) + Sent(Target(old(config), key), r)
      ensures config == if connected then File(Target(old(config), key), None)
                        else old(config).(pending := Some(Target(old(config), key)))
    {
      ghost var before := config;
      if config.pending.None? {
        config := config.(pending := Some(Identity(config.current.epoch + 1, key)));
        disk.Persist(config, 4, before);
      }
      ghost var kept := config;
      var pending := config.pending.value;
      Control(Prepare(pending));
      if r.prepare.TimedOut? {
        Control(Commit(pending));
        if !r.early.Acked? { return false; }
      } else if !r.prepare.Acked? {
        return false;
      }
      if !r.tunnel { return false; }
      Control(Commit(pending));
      if !r.commit.Acked? { return false; }
      config := File(pending, None);
      disk.Persist(config, 4, kept);
      connected := true;
    }
  }

  /** The steps of the state machine that a rotation goes through when its process is not stopped from outside. */
  function Script(f: File, key: string, r: Replies): seq<Op> {
    (if f.pending.None? then [Draft(key), PersistPending] else [])
    + [SendPrepare]
    + if r.prepare.TimedOut? then [PrepareTimeout] + (if r.early.Acked? then [EarlyCommitAcked] + Rest(r) else [Crash])
      else if r.prepare.Acked? then [PrepareAcked] + Rest(r)
      else [Crash]
  }

  function Rest(r: Replies): seq<Op> {
    if !r.tunnel then [Crash] else if r.commit.Acked? then [SendCommit, CommitAcked, PersistCommitted] else [SendCommit, Crash]
  }

  /** The acknowledgements that a rotation relies on arrive. The client does not look at the server, so they may be
      any. */
  predicate Arrives(acks: set<Request>, n: Identity, r: Replies) {
    && (r.prepare.Acked? ==> Prepare(n) in acks)
    && (r.early.Acked? || r.commit.Acked? ==> Commit(n) in acks)
  }

  lemma OneStep(s: State, op: Op)
    ensures Exec(s, [op]) == Step(s, op)
  {
    assert [op][1..] == [];
  }

  lemma RestRuns(t: State, n: Identity, r: Replies)
    requires t.phase == Tunnelled && t.file.pending == Some(n) && Arrives(t.acks, n, r)
    ensures var u := Exec(t, Rest(r));
      && u.file == (if r.tunnel && r.commit.Acked? then File(n, None) else t.file)
      && u.phase == (if r.tunnel && r.commit.Acked? then Idle else Down)
      && u.requests == t.requests + if r.tunnel then {Commit(n)} else {}
  {
    hide Exec;
    OneStep(t, Crash);
    OneStep(t, SendCommit);
    OneStep(Step(t, SendCommit), Crash);
    ExecAppend(t, [SendCommit], [Crash]);
    assert [SendCommit] + [Crash] == [SendCommit, Crash];
    ThreeSteps(t, SendCommit, CommitAcked, PersistCommitted);
  }

  lemma PrepareRuns(u: State, n: Identity, key: string, r: Replies)
    requires u.phase == Pending && u.file.pending == Some(n) && Arrives(u.acks, n, r)
    ensures var t := Exec(u, Script(u.file, key, r));
      && t.file == (if Connects(r) then File(n, None) else u.file)
      && t.phase == (if Connects(r) then Idle else Down)
      && t.requests == u.requests + (set q | q in Sent(n, r))
  {
    hide Exec, Rest;
    if r.prepare.TimedOut? {
      ThreeSteps(u, SendPrepare, PrepareTimeout, EarlyCommitAcked);
      ThreeSteps(u, SendPrepare, PrepareTimeout, Crash);
      if r.early.Acked? {
        RestRuns(Exec(u, [SendPrepare, PrepareTimeout, EarlyCommitAcked]), n, r);
        ExecAppend(u, [SendPrepare, PrepareTimeout, EarlyCommitAcked], Rest(r));
        assert Script(u.file, key, r) == [SendPrepare, PrepareTimeout, EarlyCommitAcked] + Rest(r);
      } else {
        assert Script(u.file, key, r) == [SendPrepare, PrepareTimeout, Crash];
      }
    } else {
      AnsweredRuns(u, n, key, r);
    }
  }

  lemma AnsweredRuns(u: State, n: Identity, key: string, r: Replies)
    requires u.phase == Pending && u.file.pending == Some(n) && Arrives(u.acks, n, r) && !r.prepare.TimedOut?
    ensures var t := Exec(u, Script(u.file, key, r));
      && t.file == (if Connects(r) then File(n, None) else u.file)
      && t.phase == (if Connects(r) then Idle else Down)
      && t.requests == u.requests + (set q | q in Sent(n, r))
  {
    hide Exec, Rest;
    var next := if r.prepare.Acked? then PrepareAcked else Crash;
    var a := Step(u, SendPrepare);
    OneStep(u, SendPrepare);
    OneStep(a, next);
    ExecAppend(u, [SendPrepare], [next]);
    assert [SendPrepare] + [next] == [SendPrepare, next];
    if r.prepare.Acked? {
      RestRuns(Step(a, next), n, r);
      ExecAppend(u, [SendPrepare, next], Rest(r));
      assert Script(u.file, key, r) == [SendPrepare, next] + Rest(r);
    } else {
      assert Script(u.file, key, r) == [SendPrepare, next];
    }
  }

  /** `Supervisor.Rotate` is a run of the client's steps: it leaves the same file and has sent the same requests. */
  lemma RotateIsARun(s: State, key: string, r: Replies)
    requires s.phase == (if s.file.pending.Some? then Pending else Idle) && key !in s.used
    requires Arrives(s.acks, Target(s.file, key), r)
    ensures var n, t := Target(s.file, key), Exec(s, Script(s.file, key, r));
      && t.file == (if Connects(r) then File(n, None) else s.file.(pending := Some(n)))
      && t.phase == (if Connects(r) then Idle else Down)
      && t.requests == s.requests + (set q | q in Sent(n, r))
  {
    hide Sent, Arrives, Exec, Step, Connects, Script;
    var n := Target(s.file, key);
    if s.file.pending.Some? {
      PrepareRuns(s, n, key, r);
    } else {
      DraftRuns(s, key);
      var u := Exec(s, [Draft(key), PersistPending]);
      PrepareRuns(u, n, key, r);
      ScriptSplits(s.file, u.file, key, r);
      ExecAppend(s, [Draft(key), PersistPending], Script(u.file, key, r));
    }
  }

  lemma DraftRuns(s: State, key: string)
    requires s.phase == Idle && s.file.pending.None? && key !in s.used
    ensures var u := Exec(s, [Draft(key), PersistPending]);
      && u.phase == Pending && u.file == s.file.(pending := Some(Target(s.file, key)))
      && u.requests == s.requests && u.acks == s.acks
  {
    hide Exec;
    OneStep(s, Draft(key));
    OneStep(Step(s, Draft(key)), PersistPending);
    ExecAppend(s, [Draft(key)], [PersistPending]);
    assert [Draft(key)] + [PersistPending] == [Draft(key), PersistPending];
  }

  lemma ScriptSplits(f: File, g: File, key: string, r: Replies)
    requires f.pending.None? && g.pending.Some?
    ensures Script(f, key, r) == [Draft(key), PersistPending] + Script(g, key, r)
  {
    hide Rest;
  }
}
