/** Opt-in, destination-bound conversation continuity.

    The two continuity tables are maps keyed by their primary keys. `Tables` is their
    value; the functions below say what each operation makes of it, and `Store` (at the
    end) carries the operations out on its fields and is proved against them. */
module Continuity {
  import opened Common

  const RETAINED_EXCHANGES := 100
  const MESSAGE_LIMIT := 60_000
  const REPLY_LIMIT := 100_000
  const HISTORY_BYTES := 40_000
  const HISTORY_PAIRS := 10
  const CONVERSATIONS := 64
  const DAY := 86_400

  datatype Thread = Thread(
    title: string, scope: string, provider: Id, destination: string, model: string,
    grant: Option<Id>, created: Time, expires: Time, revision: int, pending: Option<Id>)

  datatype TurnKey = TurnKey(thread: Id, request: Id)

  datatype Turn = Turn(
    hash: string, user: string, reply: string, receipt: Option<Id>, interaction: Id,
    created: Time, position: int)

  datatype Tables = Tables(threads: map<Id, Thread>, turns: map<TurnKey, Turn>)

  /** SHA-256, `str::trim`, "has no control character" and UUID syntax, of which nothing is assumed. */
  datatype Text = Text(hash: string -> string, trim: string -> string, plain: string -> bool, uuid: string -> bool)
  {
    predicate Blank(s: string) {
      trim(s) == ""
    }

    /** A name of 1 to 120 bytes without control characters, trimmed. */
    function Label(s: string): Option<string> {
      if Blank(s) || |trim(s)| > 120 || !plain(trim(s)) then None else Some(trim(s))
    }
  }

  datatype Error =
    | BadRequestId | BadMessage | Missing | WrongBinding | Unauthorised | ReusedRequest
    | StillPending | StaleRevision | Exhausted | ReplyTooLong | PendingChanged
    | NoConsent | BadRetention | TooMany | BadLabel | Constraint

  datatype Query = Query(
    id: Id, request: Id, revision: int, provider: Id, destination: string, model: string,
    grant: Option<Id>, message: string)

  /** What an outstanding request carries from `prepare` to `finish`. */
  datatype Token = Token(id: Id, request: Id, hash: string, revision: int, message: string)

  datatype Role = User | Assistant
  datatype Message = Message(role: Role, content: string)

  datatype Prepared = Prepared(token: Token, history: seq<Message>, replay: Option<Turn>)

  /* ---- What each operation does to the tables ---- */

  function Pruned(s: Tables, now: Time): Tables {
    var live := map id | id in s.threads && s.threads[id].expires > now :: s.threads[id];
    Tables(live, map k | k in s.turns && k.thread in live :: s.turns[k])
  }

  datatype Creation = Creation(
    title: string, scope: string, provider: Id, destination: string, model: string, grant: Option<Id>,
    days: int, consent: bool)

  /** `live` holds the unexpired conversations. */
  predicate MayCreate(text: Text, live: Tables, c: Creation, authorised: bool) {
    && c.consent && 1 <= c.days <= 30 && |live.threads| < CONVERSATIONS
    && (c.grant.Some? ==> authorised)
    && text.Label(c.title).Some? && text.Label(c.scope).Some? && text.Label(c.model).Some?
  }

  function ThreadOf(text: Text, now: Time, c: Creation): Thread {
    Thread(text.trim(c.title), text.trim(c.scope), c.provider, c.destination, text.trim(c.model), c.grant,
           now, now + c.days * DAY, 0, None)
  }

  function AfterCreate(text: Text, s: Tables, now: Time, id: Id, c: Creation, authorised: bool): Tables {
    if !c.consent || !(1 <= c.days <= 30) then s
    else
      var p := Pruned(s, now);
      if MayCreate(text, p, c, authorised) then p.(threads := p.threads[id := ThreadOf(text, now, c)]) else p
  }

  datatype Admission = Replay(turn: Turn) | Fresh

  predicate WellFormed(text: Text, q: Query) {
    text.uuid(q.request) && !text.Blank(q.message) && |q.message| <= MESSAGE_LIMIT
  }

  predicate Bound(t: Thread, q: Query) {
    t.provider == q.provider && t.destination == q.destination && t.model == q.model && t.grant == q.grant
  }

  /** The verdict on a well-formed query. `authorised` is the outcome of reading the grant. */
  function Admit(text: Text, s: Tables, authorised: bool, q: Query): Result<Admission, Error> {
    if q.id !in s.threads then Failure(Missing)
    else
      var t := s.threads[q.id];
      var key := TurnKey(q.id, q.request);
      if !Bound(t, q) then Failure(WrongBinding)
      else if q.grant.Some? && !authorised then Failure(Unauthorised)
      else if key in s.turns then
        if s.turns[key].hash != text.hash(q.message) then Failure(ReusedRequest) else Success(Replay(s.turns[key]))
      else if t.pending.Some? then Failure(StillPending)
      else if t.revision != q.revision then Failure(StaleRevision)
      else if q.revision >= RETAINED_EXCHANGES then Failure(Exhausted)
      else Success(Fresh)
  }

  function TokenOf(text: Text, q: Query): Token {
    Token(q.id, q.request, text.hash(q.message), q.revision, q.message)
  }

  function AfterPrepare(text: Text, s: Tables, now: Time, authorised: bool, q: Query): Tables {
    if !WellFormed(text, q) then s
    else
      var p := Pruned(s, now);
      if Admit(text, p, authorised, q) == Success(Fresh)
      then p.(threads := p.threads[q.id := p.threads[q.id].(pending := Some(q.request))])
      else p
  }

  predicate CanStore(s: Tables, now: Time, t: Token, reply: string) {
    && |reply| <= REPLY_LIMIT
    && t.id in s.threads
    && s.threads[t.id].expires > now
    && s.threads[t.id].pending == Some(t.request)
    && s.threads[t.id].revision == t.revision
  }

  datatype Answer = Answer(reply: string, receipt: Option<Id>, interaction: Id)

  function TurnOf(t: Token, a: Answer, now: Time): Turn {
    Turn(t.hash, t.message, a.reply, a.receipt, a.interaction, now, t.revision + 1)
  }

  function AfterFinish(s: Tables, now: Time, t: Token, a: Answer): Tables {
    if |a.reply| > REPLY_LIMIT then s
    else
      var p := Pruned(s, now);
      if CanStore(s, now, t, a.reply) then Stored(p, now, t, a) else p
  }

  function Stored(s: Tables, now: Time, t: Token, a: Answer): Tables
    requires t.id in s.threads
  {
    Tables(
      s.threads[t.id := s.threads[t.id].(pending := None, revision := s.threads[t.id].revision + 1)],
      s.turns[TurnKey(t.id, t.request) := TurnOf(t, a, now)])
  }

  function AfterClear(s: Tables, id: Id, expected: Id): Tables {
    if id in s.threads && s.threads[id].pending == Some(expected)
    then s.(threads := s.threads[id := s.threads[id].(pending := None, revision := s.threads[id].revision + 1)])
    else s
  }

  function AfterDelete(s: Tables, id: Id): Tables {
    Tables(s.threads - {id}, map k | k in s.turns && k.thread != id :: s.turns[k])
  }

  /** What recovery makes of the continuity tables of an archive (see `Recovery`). */
  function Recovered(s: Tables): Tables {
    s.(threads := map id | id in s.threads :: s.threads[id].(pending := None, revision := s.threads[id].revision + 1))
  }

  /* ---- The structure every operation keeps ---- */

  ghost predicate Inv(s: Tables) {
    Placed(s) && Unique(s) && PendingIsNew(s)
  }

  /** Each turn belongs to a thread, at a position from 1 to that thread's revision and at most 100. */
  ghost predicate Placed(s: Tables) {
    forall k | k in s.turns ::
      k.thread in s.threads && 1 <= s.turns[k].position <= Min(s.threads[k.thread].revision, RETAINED_EXCHANGES)
  }

  /** No two turns of a thread share a position. */
  ghost predicate Unique(s: Tables) {
    forall k, l | k in s.turns && l in s.turns && k.thread == l.thread && k != l ::
      s.turns[k].position != s.turns[l].position
  }

  /** A pending request is not a stored one, and may still be stored. */
  ghost predicate PendingIsNew(s: Tables) {
    forall id | id in s.threads ::
      && 0 <= s.threads[id].revision
      && (s.threads[id].pending.Some? ==>
            TurnKey(id, s.threads[id].pending.value) !in s.turns && s.threads[id].revision < RETAINED_EXCHANGES)
  }

  /** The turns of one thread; at most one per position from 1 to 100. */
  function TurnsOf(s: Tables, id: Id): set<TurnKey> {
    set k | k in s.turns && k.thread == id
  }

  lemma {:induction false} SmallByPosition(s: Tables, keys: set<TurnKey>, id: Id, bound: nat)
    requires Inv(s) && keys <= TurnsOf(s, id)
    requires forall k :: k in keys ==> s.turns[k].position <= bound
    ensures |keys| <= bound
    decreases bound
  {
    if k :| k in keys && s.turns[k].position == bound {
      SmallByPosition(s, keys - {k}, id, bound - 1);
    } else if bound > 0 {
      SmallByPosition(s, keys, id, bound - 1);
    } else {
      assert keys == {};
    }
  }

  lemma AtMostHundredTurns(s: Tables, id: Id)
    requires Inv(s)
    ensures |TurnsOf(s, id)| <= RETAINED_EXCHANGES
  {
    SmallByPosition(s, TurnsOf(s, id), id, RETAINED_EXCHANGES);
  }

  /** Every operation keeps the structure. */
  lemma PrunedKeeps(s: Tables, now: Time)
    requires Inv(s)
    ensures Inv(Pruned(s, now))
  {
  }

  lemma CreateKeeps(text: Text, s: Tables, now: Time, id: Id, c: Creation, authorised: bool)
    requires Inv(s) && id !in s.threads
    ensures Inv(AfterCreate(text, s, now, id, c, authorised))
  {
    PrunedKeeps(s, now);
  }

  lemma PrepareKeeps(text: Text, s: Tables, now: Time, authorised: bool, q: Query)
    requires Inv(s)
    ensures Inv(AfterPrepare(text, s, now, authorised, q))
  {
    PrunedKeeps(s, now);
    hide Inv, Pruned;
    var p := Pruned(s, now);
    if WellFormed(text, q) && Admit(text, p, authorised, q) == Success(Fresh) {
      PendingKeeps(p, q.id, q.request);
    }
  }

  lemma PendingKeeps(s: Tables, id: Id, request: Id)
    requires Inv(s) && id in s.threads && TurnKey(id, request) !in s.turns && s.threads[id].revision < RETAINED_EXCHANGES
    ensures Inv(s.(threads := s.threads[id := s.threads[id].(pending := Some(request))]))
  {
    var s' := s.(threads := s.threads[id := s.threads[id].(pending := Some(request))]);
    assert Placed(s');
    assert Unique(s');
    assert PendingIsNew(s');
  }

  lemma StoredKeeps(s: Tables, now: Time, t: Token, a: Answer)
    requires Inv(s) && CanStore(s, now, t, a.reply)
    ensures TurnKey(t.id, t.request) !in s.turns
    ensures forall k | k in s.turns && k.thread == t.id :: s.turns[k].position != t.revision + 1
    ensures Inv(Stored(s, now, t, a))
  {
    var s' := Stored(s, now, t, a);
    assert Placed(s');
    assert Unique(s');
    assert PendingIsNew(s');
  }

  lemma FinishKeeps(s: Tables, now: Time, t: Token, a: Answer)
    requires Inv(s)
    ensures Inv(AfterFinish(s, now, t, a))
  {
    PrunedKeeps(s, now);
    if CanStore(s, now, t, a.reply) {
      StoredKeeps(Pruned(s, now), now, t, a);
    }
  }

  lemma ClearKeeps(s: Tables, id: Id, expected: Id)
    requires Inv(s)
    ensures Inv(AfterClear(s, id, expected))
  {
    var s' := AfterClear(s, id, expected);
    assert Unique(s');
    assert PendingIsNew(s');
  }

  lemma DeleteKeeps(s: Tables, id: Id)
    requires Inv(s)
    ensures Inv(AfterDelete(s, id))
  {
    var s' := AfterDelete(s, id);
    assert Unique(s');
    assert PendingIsNew(s');
  }

  lemma RecoveredKeeps(s: Tables)
    requires Inv(s)
    ensures Inv(Recovered(s))
  {
    var s' := Recovered(s);
    assert Unique(s');
    assert PendingIsNew(s');
  }

  /* ---- Chronological order and the selected history ---- */

  /** The turns of thread `id` at positions 1 to `hi`, in position order. */
  ghost function Ordered(turns: map<TurnKey, Turn>, id: Id, hi: nat): seq<Turn> {
    if hi == 0 then []
    else if k :| k in turns && k.thread == id && turns[k].position == hi
    then Ordered(turns, id, hi - 1) + [turns[k]]
    else Ordered(turns, id, hi - 1)
  }

  ghost predicate IsTurnOf(s: Tables, id: Id, t: Turn) {
    exists k :: k in s.turns && k.thread == id && s.turns[k] == t
  }

  /** `all` holds exactly the turns of thread `id` at positions 1 to `hi`, with rising positions. */
  ghost predicate Chronological(s: Tables, id: Id, hi: nat, all: seq<Turn>) {
    && (forall t | t in all :: 1 <= t.position <= hi && IsTurnOf(s, id, t))
    && (forall i, j | 0 <= i < j < |all| :: all[i].position < all[j].position)
    && (forall k | k in s.turns && k.thread == id && s.turns[k].position <= hi :: s.turns[k] in all)
  }

  lemma {:induction false} OrderedIsChronological(s: Tables, id: Id, hi: nat)
    requires Inv(s)
    ensures Chronological(s, id, hi, Ordered(s.turns, id, hi))
  {
    if hi > 0 {
      OrderedIsChronological(s, id, hi - 1);
      var all, older := Ordered(s.turns, id, hi), Ordered(s.turns, id, hi - 1);
      if all != older {
        var k :| k in s.turns && k.thread == id && s.turns[k].position == hi && all == older + [s.turns[k]];
        assert IsTurnOf(s, id, s.turns[k]);
        assert forall l | l in s.turns && l.thread == id && s.turns[l].position == hi :: l == k;
      }
    }
  }

  lemma {:induction false} OrderedAgree(a: map<TurnKey, Turn>, b: map<TurnKey, Turn>, id: Id, hi: nat)
    requires forall k: TurnKey | k.thread == id :: (k in a) == (k in b) && (k in a ==> a[k] == b[k])
    requires forall k, l | k in a && l in a && k.thread == l.thread && k != l :: a[k].position != a[l].position
    ensures Ordered(a, id, hi) == Ordered(b, id, hi)
  {
    if hi > 0 {
      OrderedAgree(a, b, id, hi - 1);
    }
  }

  /** A finished exchange becomes the newest turn of its thread and moves no other turn. */
  lemma {:induction false} FinishAppends(s: Tables, now: Time, t: Token, a: Answer)
    requires Inv(s) && CanStore(s, now, t, a.reply)
    ensures var s' := AfterFinish(s, now, t, a);
      && t.id in s'.threads
      && Ordered(s'.turns, t.id, s'.threads[t.id].revision) == Ordered(s.turns, t.id, t.revision) + [TurnOf(t, a, now)]
      && (forall id | id in s'.threads && id != t.id ::
            Ordered(s'.turns, id, s'.threads[id].revision) == Ordered(s.turns, id, s.threads[id].revision))
  {
    var s' := AfterFinish(s, now, t, a);
    OrderedExtends(s.turns, s'.turns, t, TurnOf(t, a, now), t.revision);
    forall id | id in s'.threads && id != t.id
      ensures Ordered(s'.turns, id, s'.threads[id].revision) == Ordered(s.turns, id, s.threads[id].revision)
    {
      OrderedAgree(s.turns, s'.turns, id, s.threads[id].revision);
    }
  }

  lemma {:induction false} OrderedExtends(
    a: map<TurnKey, Turn>, b: map<TurnKey, Turn>, t: Token, turn: Turn, hi: nat)
    requires hi <= t.revision && turn.position == t.revision + 1
    requires var key := TurnKey(t.id, t.request);
      && key !in a && key in b && b[key] == turn
      && (forall k: TurnKey | k.thread == t.id && k != key :: (k in a) == (k in b) && (k in a ==> a[k] == b[k]))
    requires forall k, l | k in a && l in a && k.thread == l.thread && k != l :: a[k].position != a[l].position
    requires forall k | k in a && k.thread == t.id :: a[k].position <= t.revision
    ensures Ordered(b, t.id, hi) == Ordered(a, t.id, hi)
    ensures hi == t.revision ==> Ordered(b, t.id, hi + 1) == Ordered(a, t.id, hi) + [turn]
  {
    if hi > 0 {
      OrderedExtends(a, b, t, turn, hi - 1);
    }
  }

  function Bytes(turns: seq<Turn>): nat {
    if turns == [] then 0 else |turns[0].user| + |turns[0].reply| + Bytes(turns[1..])
  }

  function Flatten(turns: seq<Turn>): seq<Message> {
    if turns == [] then []
    else [Message(User, turns[0].user), Message(Assistant, turns[0].reply)] + Flatten(turns[1..])
  }

  /** The last `n` exchanges may be sent again. */
  predicate Admissible(all: seq<Turn>, n: nat) {
    n <= |all| && n <= HISTORY_PAIRS && Bytes(all[|all| - n..]) <= HISTORY_BYTES
  }

  /** The longest admissible suffix of `all`: no longer one is admissible. */
  ghost predicate IsHistory(all: seq<Turn>, history: seq<Message>) {
    exists n: nat :: Admissible(all, n) && history == Flatten(all[|all| - n..]) && forall m: nat | m > n :: !Admissible(all, m)
  }

  lemma {:induction false} BytesOfSuffix(a: seq<Turn>, b: seq<Turn>)
    ensures Bytes(a + b) == Bytes(a) + Bytes(b)
  {
    if a == [] {
      assert a + b == b;
    } else {
      assert (a + b)[1..] == a[1..] + b;
      BytesOfSuffix(a[1..], b);
    }
  }

  lemma {:induction false} FlattenAppends(a: seq<Turn>, t: Turn)
    ensures Flatten(a + [t]) == Flatten(a) + [Message(User, t.user), Message(Assistant, t.reply)]
  {
    if a != [] {
      assert (a + [t])[1..] == a[1..] + [t];
      FlattenAppends(a[1..], t);
    } else {
      assert a + [t] == [t];
    }
  }

  /** A history alternates what was asked and what was answered, each exchange in its place. */
  lemma {:induction false} FlattenAt(turns: seq<Turn>, i: nat)
    requires i < |turns|
    ensures |Flatten(turns)| == 2 * |turns|
    ensures Flatten(turns)[2 * i] == Message(User, turns[i].user)
    ensures Flatten(turns)[2 * i + 1] == Message(Assistant, turns[i].reply)
    ensures Bytes([turns[i]]) == |turns[i].user| + |turns[i].reply|
  {
    if |turns| == 1 {
      assert Flatten(turns[1..]) == [];
    } else {
      FlattenAt(turns[1..], if i == 0 then 0 else i - 1);
    }
  }

  lemma FlattenNone()
    ensures Flatten([]) == []
  {
  }

  /** Once a suffix is too long, so is every longer one. */
  lemma LongerIsInadmissible(all: seq<Turn>, n: nat, m: nat)
    requires n <= m && !Admissible(all, n)
    ensures !Admissible(all, m)
  {
    if m <= |all| {
      assert all[|all| - m..] == all[|all| - m..|all| - n] + all[|all| - n..];
      BytesOfSuffix(all[|all| - m..|all| - n], all[|all| - n..]);
    }
  }

  /** What the selection loop builds: the newest `i` exchanges, and one more if it fits. */
  lemma OneMoreRow(all: seq<Turn>, rows: seq<Turn>, i: nat)
    requires i < |rows| <= |all| && Reverse(rows) == all[|all| - |rows|..]
    ensures Reverse(rows[..i]) == all[|all| - i..]
    ensures Reverse(rows[..i + 1]) == [rows[i]] + Reverse(rows[..i])
    ensures Bytes(all[|all| - i - 1..]) == |rows[i].user| + |rows[i].reply| + Bytes(all[|all| - i..])
  {
    hide Reverse, Bytes;
    RowIsRecent(all, rows);
    assert rows[..i + 1] == rows[..i] + [rows[i]];
    ReverseAppends(rows[..i], rows[i]);
    assert all[|all| - i - 1..] == [rows[i]] + all[|all| - i..];
    BytesOfFirst(rows[i], all[|all| - i..]);
  }

  lemma RowIsRecent(all: seq<Turn>, rows: seq<Turn>)
    requires |rows| <= |all| && Reverse(rows) == all[|all| - |rows|..]
    ensures forall j | 0 <= j < |rows| :: rows[j] == all[|all| - 1 - j]
  {
    assert forall j | 0 <= j < |rows| :: rows[j] == Reverse(rows)[|rows| - 1 - j] == all[|all| - 1 - j];
  }

  lemma BytesOfFirst(turn: Turn, turns: seq<Turn>)
    ensures Bytes([turn] + turns) == |turn.user| + |turn.reply| + Bytes(turns)
  {
    assert ([turn] + turns)[1..] == turns;
  }

  /* ---- What each check of an operation decides ---- */

  lemma CreateOutcome(text: Text, s: Tables, now: Time, id: Id, c: Creation, authorised: bool)
    ensures var p := Pruned(s, now);
      var title, scope, model := text.Label(c.title), text.Label(c.scope), text.Label(c.model);
      && (MayCreate(text, p, c, authorised) <==>
            && c.consent && 1 <= c.days <= 30 && |p.threads| < CONVERSATIONS && (c.grant.Some? ==> authorised)
            && title.Some? && scope.Some? && model.Some?)
      && AfterCreate(text, s, now, id, c, authorised)
         == (if !c.consent || !(1 <= c.days <= 30) then s
             else if MayCreate(text, p, c, authorised) then p.(threads := p.threads[id := ThreadOf(text, now, c)]) else p)
      && (MayCreate(text, p, c, authorised) ==>
            ThreadOf(text, now, c) == Thread(title.value, scope.value, c.provider, c.destination, model.value, c.grant,
                                             now, now + c.days * DAY, 0, None))
  {
    hide Pruned;
  }

  lemma FinishOutcome(s: Tables, now: Time, t: Token, a: Answer)
    requires Inv(s)
    ensures var p, key := Pruned(s, now), TurnKey(t.id, t.request);
      && (CanStore(s, now, t, a.reply) <==>
            && |a.reply| <= REPLY_LIMIT && t.id in p.threads && p.threads[t.id].pending == Some(t.request)
            && p.threads[t.id].revision == t.revision)
      && (forall id | id in p.threads :: p.threads[id].expires > now)
      && AfterFinish(s, now, t, a)
         == (if |a.reply| > REPLY_LIMIT then s
             else if CanStore(s, now, t, a.reply)
             then Tables(p.threads[t.id := p.threads[t.id].(pending := None, revision := p.threads[t.id].revision + 1)],
                         p.turns[key := TurnOf(t, a, now)])
             else p)
      && (CanStore(s, now, t, a.reply) ==>
            key !in p.turns && forall k | k in p.turns && k.thread == t.id :: p.turns[k].position != t.revision + 1)
  {
    PrunedKeeps(s, now);
    if CanStore(s, now, t, a.reply) {
      StoredKeeps(Pruned(s, now), now, t, a);
    }
  }

  /** What a reply leaves behind, field by field. */
  predicate HoldsReply(s: Tables, now: Time, t: Token, a: Answer) {
    && TurnKey(t.id, t.request) in s.turns
    && var turn := s.turns[TurnKey(t.id, t.request)];
    && turn.hash == t.hash && turn.user == t.message && turn.reply == a.reply && turn.receipt == a.receipt
    && turn.interaction == a.interaction && turn.created == now && turn.position == t.revision + 1
    && t.id in s.threads && s.threads[t.id].pending == None && s.threads[t.id].revision == t.revision + 1
  }

  lemma StoredHoldsReply(s: Tables, now: Time, t: Token, a: Answer)
    ensures CanStore(s, now, t, a.reply) ==> HoldsReply(AfterFinish(s, now, t, a), now, t, a)
    ensures CanStore(s, now, t, a.reply) <==>
      && |a.reply| <= REPLY_LIMIT && t.id in s.threads && s.threads[t.id].pending == Some(t.request)
      && s.threads[t.id].revision == t.revision && s.threads[t.id].expires > now
  {
  }

  /* ---- The operations, carried out in place ---- */

  class Store {
    var threads: map<Id, Thread>
    var turns: map<TurnKey, Turn>
    const text: Text

    ghost function State(): Tables
      reads this
    {
      Tables(threads, turns)
    }

    ghost predicate Valid()
      reads this
    {
      Inv(State())
    }

    constructor (text: Text)
      ensures Valid() && State() == Tables(map[], map[]) && this.text == text
    {
      threads, turns := map[], map[];
      this.text := text;
    }

    /** DELETE of the expired threads, with the cascade to their turns. */
    method Prune(now: Time)
      modifies this
      ensures State() == Pruned(old(State()), now)
      ensures forall id :: id in threads <==> id in old(threads) && old(threads)[id].expires > now
      ensures forall k :: k in turns <==> k in old(turns) && k.thread in threads
      ensures forall id | id in threads :: threads[id] == old(threads)[id]
      ensures forall k | k in turns :: turns[k] == old(turns)[k]
    {
      threads := map id | id in threads && threads[id].expires > now :: threads[id];
      turns := map k | k in turns && k.thread in threads :: turns[k];
    }

    method Create(now: Time, id: Id, c: Creation, authorised: bool) returns (r: Result<Thread, Error>)
      requires Valid() && id !in threads
      modifies this
      ensures Valid() && State() == AfterCreate(text, old(State()), now, id, c, authorised)
      ensures r.Success? <==> MayCreate(text, Pruned(old(State()), now), c, authorised)
      ensures r.Success? ==> r.value == ThreadOf(text, now, c)
      ensures r.Success? ==>
        && c.consent && 1 <= c.days <= 30 && (c.grant.Some? ==> authorised)
        && id in threads && threads[id] == r.value
        && r.value.provider == c.provider && r.value.destination == c.destination && r.value.grant == c.grant
        && r.value.title == text.trim(c.title) && r.value.scope == text.trim(c.scope) && r.value.model == text.trim(c.model)
        && r.value.created == now && r.value.expires == now + c.days * DAY
        && r.value.revision == 0 && r.value.pending == None
    {
      CreateKeeps(text, State(), now, id, c, authorised);
      CreateOutcome(text, State(), now, id, c, authorised);
      hide Inv, Pruned, MayCreate, AfterCreate, ThreadOf;
      if !c.consent { return Failure(NoConsent); }
      if !(1 <= c.days <= 30) { return Failure(BadRetention); }
      Prune(now);
      var title, scope, model := text.Label(c.title), text.Label(c.scope), text.Label(c.model);
      if |threads| >= CONVERSATIONS {
        r := Failure(TooMany);
      } else if c.grant.Some? && !authorised {
        r := Failure(Unauthorised);
      } else if title.None? || scope.None? || model.None? {
        r := Failure(BadLabel);
      } else {
        r := Success(Thread(title.value, scope.value, c.provider, c.destination, model.value, c.grant,
                            now, now + c.days * DAY, 0, None));
        threads := threads[id := r.value];
      }
    }

    method Delete(id: Id) returns (found: bool)
      requires Valid()
      modifies this
      ensures Valid() && State() == AfterDelete(old(State()), id) && found == (id in old(threads))
      ensures threads == old(threads) - {id} && forall k :: k in turns <==> k in old(turns) && k.thread != id
      ensures forall k | k in turns :: turns[k] == old(turns)[k]
    {
      DeleteKeeps(State(), id);
      found := id in threads;
      threads := threads - {id};
      turns := map k | k in turns && k.thread != id :: turns[k];
    }

    method Clear(id: Id, expected: Id) returns (r: Result<(), Error>)
      requires Valid()
      modifies this
      ensures Valid() && State() == AfterClear(old(State()), id, expected)
      ensures r.Success? <==> id in old(threads) && old(threads)[id].pending == Some(expected)
      ensures turns == old(turns) && (r.Failure? ==> threads == old(threads))
      ensures r.Success? ==>
        var t := old(threads)[id];
        threads == old(threads)[id := t.(pending := None, revision := t.revision + 1)]
    {
      ClearKeeps(State(), id, expected);
      if id !in threads || threads[id].pending != Some(expected) { return Failure(PendingChanged); }
      var t := threads[id];
      threads := threads[id := t.(pending := None, revision := t.revision + 1)];
      r := Success(());
    }

    /** `ORDER BY position DESC LIMIT 10`. */
    method Latest(id: Id, revision: nat) returns (rows: seq<Turn>)
      requires Valid()
      ensures var all := Ordered(turns, id, revision);
        |rows| == Min(|all|, HISTORY_PAIRS) && Reverse(rows) == all[|all| - |rows|..]
    {
      rows := [];
      var p := revision;
      while p > 0 && |rows| < HISTORY_PAIRS
        invariant 0 <= p <= revision && |rows| <= HISTORY_PAIRS
        invariant Ordered(turns, id, revision) == Ordered(turns, id, p) + Reverse(rows)
      {
        if k :| k in turns && k.thread == id && turns[k].position == p {
          ReverseAppends(rows, turns[k]);
          rows := rows + [turns[k]];
        }
        p := p - 1;
      }
    }

    /** Admission, replay and selection of one send. Every failure but the first two leaves
        the expired threads pruned, as the read of the conversation does that. */
    method Prepare(now: Time, authorised: bool, q: Query) returns (r: Result<Prepared, Error>)
      requires Valid()
      modifies this
      ensures Valid() && State() == AfterPrepare(text, old(State()), now, authorised, q)
      ensures !WellFormed(text, q) ==> r.Failure? && r.error in {BadRequestId, BadMessage}
      ensures WellFormed(text, q) ==>
        var p := Pruned(old(State()), now);
        match Admit(text, p, authorised, q)
        case Failure(e) => r == Failure(e)
        case Success(Replay(turn)) => r == Success(Prepared(TokenOf(text, q), [], Some(turn)))
        case Success(Fresh) => r.Success? && r.value.token == TokenOf(text, q) && r.value.replay == None
                               && IsHistory(Ordered(p.turns, q.id, q.revision), r.value.history)
      ensures r.Success? ==>
        && q.id in old(threads) && var c := old(threads)[q.id];
        && c.expires > now && c.provider == q.provider && c.destination == q.destination && c.model == q.model
        && c.grant == q.grant && (q.grant.Some? ==> authorised)
      ensures r.Success? && r.value.replay.Some? ==>
        && TurnKey(q.id, q.request) in old(turns) && r.value.replay.value == old(turns)[TurnKey(q.id, q.request)]
        && r.value.replay.value.hash == text.hash(q.message)
      ensures r.Success? && r.value.replay.None? ==>
        && TurnKey(q.id, q.request) !in old(turns) && old(threads)[q.id].pending == None
        && old(threads)[q.id].revision == q.revision < RETAINED_EXCHANGES
        && q.id in threads && threads[q.id] == old(threads)[q.id].(pending := Some(q.request))
        && r.value.token == Token(q.id, q.request, text.hash(q.message), q.revision, q.message)
    {
      PrepareKeeps(text, State(), now, authorised, q);
      PrunedKeeps(State(), now);
      if !text.uuid(q.request) { return Failure(BadRequestId); }
      if text.Blank(q.message) || |q.message| > MESSAGE_LIMIT { return Failure(BadMessage); }
      Prune(now);
      if q.id !in threads { return Failure(Missing); }
      var t := threads[q.id];
      if !Bound(t, q) { return Failure(WrongBinding); }
      if q.grant.Some? && !authorised { return Failure(Unauthorised); }
      var key := TurnKey(q.id, q.request);
      var token := Token(q.id, q.request, text.hash(q.message), q.revision, q.message);
      if key in turns {
        if turns[key].hash != token.hash { return Failure(ReusedRequest); }
        return Success(Prepared(token, [], Some(turns[key])));
      }
      if t.pending.Some? { return Failure(StillPending); }
      if t.revision != q.revision { return Failure(StaleRevision); }
      if q.revision >= RETAINED_EXCHANGES { return Failure(Exhausted); }
      var history := Select(q.id, q.revision);
      threads := threads[q.id := t.(pending := Some(q.request))];
      r := Success(Prepared(token, history, None));
    }

    method Select(id: Id, revision: nat) returns (history: seq<Message>)
      requires Valid()
      ensures IsHistory(Ordered(turns, id, revision), history)
    {
      hide Ordered, Inv, Reverse, Flatten, Admissible;
      ghost var all := Ordered(turns, id, revision);
      var rows := Latest(id, revision);
      var pairs := Fit(all, rows);
      ghost var chosen := Reverse(pairs);
      assert Flatten([]) == [] by { FlattenNone(); }
      history := [];
      for j := 0 to |pairs|
        invariant history == Flatten(chosen[..j])
      {
        var pair := pairs[|pairs| - 1 - j];
        assert chosen[..j + 1] == chosen[..j] + [pair];
        FlattenAppends(chosen[..j], pair);
        history := history + [Message(User, pair.user), Message(Assistant, pair.reply)];
      }
      assert chosen[..|pairs|] == all[|all| - |pairs|..];
    }

    /** The budget loop over the newest rows. */
    static method Fit(ghost all: seq<Turn>, rows: seq<Turn>) returns (pairs: seq<Turn>)
      requires |rows| == Min(|all|, HISTORY_PAIRS) && Reverse(rows) == all[|all| - |rows|..]
      ensures |pairs| <= |all| && Reverse(pairs) == all[|all| - |pairs|..]
      ensures Admissible(all, |pairs|) && forall m: nat | m > |pairs| :: !Admissible(all, m)
    {
      var budget, i := HISTORY_BYTES, 0;
      while i < |rows|
        invariant 0 <= i <= |rows| && budget == HISTORY_BYTES - Bytes(all[|all| - i..]) >= 0
      {
        OneMoreRow(all, rows, i);
        var size := |rows[i].user| + |rows[i].reply|;
        if size > budget { break; }
        budget := budget - size;
        i := i + 1;
      }
      pairs := rows[..i];
      assert Reverse(pairs) == all[|all| - i..] by {
        if i < |rows| { OneMoreRow(all, rows, i); } else { assert rows[..i] == rows; }
      }
      assert !Admissible(all, i + 1) by {
        if i < |rows| { OneMoreRow(all, rows, i); }
      }
      forall m: nat | m > i ensures !Admissible(all, m) {
        LongerIsInadmissible(all, i + 1, m);
      }
    }

    /** Stores the reply if, and only if, this attempt is still the thread's pending one at the
        revision it was prepared for. The insertion never meets a violated table constraint. */
    method Finish(now: Time, t: Token, a: Answer) returns (r: Result<bool, Error>)
      requires Valid()
      modifies this
      ensures Valid() && State() == AfterFinish(old(State()), now, t, a)
      ensures r == if |a.reply| > REPLY_LIMIT then Failure(ReplyTooLong)
                   else Success(CanStore(old(State()), now, t, a.reply))
      ensures r == Success(true) <==>
        && |a.reply| <= REPLY_LIMIT && t.id in old(threads) && old(threads)[t.id].pending == Some(t.request)
        && old(threads)[t.id].revision == t.revision && old(threads)[t.id].expires > now
      ensures r == Success(true) ==> HoldsReply(State(), now, t, a)
    {
      hide Inv, Pruned, CanStore, AfterFinish, TurnOf, HoldsReply;
      StoredHoldsReply(State(), now, t, a);
      FinishOutcome(State(), now, t, a);
      FinishKeeps(State(), now, t, a);
      if |a.reply| > REPLY_LIMIT { return Failure(ReplyTooLong); }
      Prune(now);
      if t.id !in threads { return Success(false); }
      var c := threads[t.id];
      if c.pending != Some(t.request) || c.revision != t.revision { return Success(false); }
      if c.expires <= now { return Success(false); }
      var key := TurnKey(t.id, t.request);
      // PRIMARY KEY(thread_id,request_id) and UNIQUE(thread_id,position)
      if key in turns || exists k :: k in turns && k.thread == t.id && turns[k].position == t.revision + 1 {
        return Failure(Constraint);
      }
      turns := turns[key := TurnOf(t, a, now)];
      threads := threads[t.id := c.(pending := None, revision := c.revision + 1)];
      r := Success(true);
    }
  }

  lemma {:induction false} ReverseAppends<T>(s: seq<T>, x: T)
    ensures Reverse(s + [x]) == [x] + Reverse(s)
  {
    assert forall i | 0 <= i < |s| + 1 :: Reverse(s + [x])[i] == ([x] + Reverse(s))[i];
  }
}
