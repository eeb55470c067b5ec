/** Memories, permission grants and disclosure receipts.

    Ids are numbers, in the order SQLite compares them. The edit history and the audit rows
    that some operations add are not part of `Tables`. */
module Memories {
  import opened Common

  type Key = nat

  const CONTENT_LIMIT := 100_000
  const CONTEXT_BYTES := 12_000
  const CONTEXT_MEMORIES := 24
  const LONGEST_GRANT := 86_400
  const WIDEST_SCOPE := 128

  datatype Status = Proposed | Confirmed | Disputed | Superseded
  datatype Source = Source(kind: string, content: string, created: Time)
  datatype Row = Row(source: Key, content: string, status: Status, created: Time, updated: Time)
  datatype Scope = Everything | Only(ids: seq<Key>)
  datatype Grant = Grant(destination: string, scope: Scope, expires: Time, revoked: Option<Time>, created: Time)
  datatype Receipt = Receipt(destination: string, memories: seq<Key>, created: Time, grant: Option<Key>)

  /** A memory as it is read, with the kind of its source. */
  datatype Memory = Memory(
    id: Key, source: Key, content: string, status: Status, created: Time, updated: Time, kind: string)

  datatype Tables = Tables(
    sources: map<Key, Source>, memories: map<Key, Row>, grants: map<Key, Grant>, receipts: map<Key, Receipt>)

  datatype Error =
    | BadContent | BadSource | NotFound | BadLifetime | BadScope | MissingMemory
    | UnknownGrant | RevokedGrant | ExpiredGrant | WrongDestination | ContextChanged

  /** `str::trim` and `str::to_lowercase`, of which nothing is assumed. */
  datatype Text = Text(trim: string -> string, lower: string -> string)

  /** Every memory has its source. */
  ghost predicate Inv(s: Tables) {
    forall m | m in s.memories :: s.memories[m].source in s.sources
  }

  /* ---- The context a grant discloses ---- */

  function View(s: Tables, id: Key): Memory
    requires id in s.memories && s.memories[id].source in s.sources
  {
    var r := s.memories[id];
    Memory(id, r.source, r.content, r.status, r.created, r.updated, s.sources[r.source].kind)
  }

  predicate InScope(scope: Scope, id: Key) {
    scope.Everything? || id in scope.ids
  }

  predicate Authorised(s: Tables, scope: Scope, id: Key) {
    && id in s.memories && s.memories[id].source in s.sources
    && s.memories[id].status == Confirmed && InScope(scope, id)
  }

  function AuthorisedSet(s: Tables, scope: Scope): set<Memory> {
    set id | id in s.memories && Authorised(s, scope, id) :: View(s, id)
  }

  /** `ORDER BY created_at DESC,id`. */
  predicate Before(a: Memory, b: Memory) {
    a.created > b.created || (a.created == b.created && a.id < b.id)
  }

  predicate IsFirst(ms: set<Memory>, m: Memory) {
    m in ms && forall n | n in ms && n != m :: Before(m, n)
  }

  predicate DistinctIds(ms: set<Memory>) {
    forall m, n | m in ms && n in ms && m.id == n.id :: m == n
  }

  lemma {:induction false} SomeIsFirst(ms: set<Memory>)
    requires ms != {} && DistinctIds(ms)
    ensures exists m :: IsFirst(ms, m)
  {
    var m :| m in ms;
    if ms == {m} {
      assert IsFirst(ms, m);
    } else {
      SomeIsFirst(ms - {m});
      var n :| IsFirst(ms - {m}, n);
      if Before(n, m) {
        assert IsFirst(ms, n);
      } else {
        assert m.id != n.id && Before(m, n);
        assert forall x | x in ms && x != m && x != n :: x in ms - {m} && Before(n, x);
        assert IsFirst(ms, m);
      }
    }
  }

  ghost function Sorted(ms: set<Memory>): seq<Memory>
    requires DistinctIds(ms)
  {
    if ms == {} then []
    else
      SomeIsFirst(ms);
      var m :| IsFirst(ms, m);
      [m] + Sorted(ms - {m})
  }

  /** `Sorted` lists exactly the set, in order. */
  lemma {:induction false} SortedLists(ms: set<Memory>)
    requires DistinctIds(ms)
    ensures var rows := Sorted(ms);
      && (forall m :: m in rows <==> m in ms)
      && InOrder(rows)
  {
    if ms != {} {
      SomeIsFirst(ms);
      var m :| IsFirst(ms, m);
      SortedLists(ms - {m});
      assert Sorted(ms) == [m] + Sorted(ms - {m});
    }
  }

  function Bytes(ms: seq<Memory>): nat {
    if ms == [] then 0 else |ms[0].content| + Bytes(ms[1..])
  }

  /** The rows that still fit the remaining budget; one that does not is passed over. */
  function Fitting(rows: seq<Memory>, budget: nat): seq<Memory> {
    if rows == [] then []
    else if |rows[0].content| > budget then Fitting(rows[1..], budget)
    else [rows[0]] + Fitting(rows[1..], budget - |rows[0].content|)
  }

  function Take(ms: seq<Memory>): seq<Memory> {
    ms[..Min(|ms|, CONTEXT_MEMORIES)]
  }

  predicate Found(text: Text, query: string, m: Memory) {
    text.lower(query) == "" || Contains(text.lower(m.content), text.lower(query))
  }

  function Matching(text: Text, query: string, rows: seq<Memory>): seq<Memory> {
    if rows == [] then []
    else (if Found(text, query, rows[0]) then [rows[0]] else []) + Matching(text, query, rows[1..])
  }

  function Usable(s: Tables, now: Time, grant: Key, destination: string): Option<Error> {
    if grant !in s.grants then Some(UnknownGrant)
    else if s.grants[grant].revoked.Some? then Some(RevokedGrant)
    else if s.grants[grant].expires <= now then Some(ExpiredGrant)
    else if s.grants[grant].destination != destination then Some(WrongDestination)
    else None
  }

  lemma AuthorisedDistinct(s: Tables, scope: Scope)
    ensures DistinctIds(AuthorisedSet(s, scope))
  {
  }

  ghost function Context(text: Text, s: Tables, now: Time, grant: Key, destination: string, query: string)
    : Result<seq<Memory>, Error>
  {
    var error := Usable(s, now, grant, destination);
    if error.Some? then Failure(error.value)
    else
      AuthorisedDistinct(s, s.grants[grant].scope);
      Success(Take(Fitting(Matching(text, query, Sorted(AuthorisedSet(s, s.grants[grant].scope))), CONTEXT_BYTES)))
  }

  /** A context holds only confirmed memories in the scope of a usable grant for that destination, as they are. */
  ghost predicate Justified(s: Tables, now: Time, grant: Key, destination: string, ms: seq<Memory>) {
    && grant in s.grants && s.grants[grant].revoked.None? && s.grants[grant].expires > now
    && s.grants[grant].destination == destination
    && (forall m | m in ms :: Authorised(s, s.grants[grant].scope, m.id) && m == View(s, m.id))
  }

  lemma {:induction false} FittingBounds(rows: seq<Memory>, budget: nat)
    ensures forall m | m in Fitting(rows, budget) :: m in rows
    ensures forall n: nat | n <= |Fitting(rows, budget)| :: Bytes(Fitting(rows, budget)[..n]) <= budget
    decreases |rows|
  {
    if rows != [] {
      var fits := |rows[0].content| <= budget;
      FittingBounds(rows[1..], if fits then budget - |rows[0].content| else budget);
      forall n: nat | n <= |Fitting(rows, budget)| ensures Bytes(Fitting(rows, budget)[..n]) <= budget {
        if fits && n > 0 {
          assert Fitting(rows, budget)[..n][1..] == Fitting(rows[1..], budget - |rows[0].content|)[..n - 1];
        }
      }
    }
  }

  lemma {:induction false} MatchingMembers(text: Text, query: string, rows: seq<Memory>)
    ensures forall m | m in Matching(text, query, rows) :: m in rows && Found(text, query, m)
  {
    if rows != [] {
      MatchingMembers(text, query, rows[1..]);
    }
  }

  /** Whatever is disclosed is justified, matches the query, and stays within 24 memories and 12000 bytes. */
  lemma ContextIsJustified(text: Text, s: Tables, now: Time, grant: Key, destination: string, query: string)
    ensures var r := Context(text, s, now, grant, destination, query);
      r.Success? ==>
        && Justified(s, now, grant, destination, r.value)
        && |r.value| <= CONTEXT_MEMORIES && Bytes(r.value) <= CONTEXT_BYTES
        && (forall m | m in r.value :: Found(text, query, m))
  {
    if Usable(s, now, grant, destination).None? {
      var all := AuthorisedSet(s, s.grants[grant].scope);
      AuthorisedDistinct(s, s.grants[grant].scope);
      SortedLists(all);
      MatchingMembers(text, query, Sorted(all));
      FittingBounds(Matching(text, query, Sorted(all)), CONTEXT_BYTES);
    }
  }

  /** The same, of the rows themselves: what a context holds, its order, and exactly when it is refused. */
  lemma ContextIs(text: Text, s: Tables, now: Time, grant: Key, destination: string, query: string)
    ensures var r := Context(text, s, now, grant, destination, query);
      && (r.Success? <==>
            && grant in s.grants && s.grants[grant].revoked == None && s.grants[grant].expires > now
            && s.grants[grant].destination == destination)
      && (r.Failure? ==>
            r.error == if grant !in s.grants then UnknownGrant
                       else if s.grants[grant].revoked != None then RevokedGrant
                       else if s.grants[grant].expires <= now then ExpiredGrant
                       else WrongDestination)
      && (r.Success? ==> forall m | m in r.value :: Discloses(text, s, s.grants[grant].scope, query, m))
      && (r.Success? ==> forall i, j | 0 <= i < j < |r.value| ::
            r.value[i].created > r.value[j].created
            || (r.value[i].created == r.value[j].created && r.value[i].id < r.value[j].id))
  {
    if Usable(s, now, grant, destination).None? {
      ContextIsJustified(text, s, now, grant, destination, query);
      var all := AuthorisedSet(s, s.grants[grant].scope);
      SortedLists(all);
      MatchingOrder(text, query, Sorted(all));
      FittingOrder(Matching(text, query, Sorted(all)), CONTEXT_BYTES);
    }
  }

  /** A confirmed memory, as it stands, that the grant names unless it names everything, and that matches. */
  predicate Discloses(text: Text, s: Tables, scope: Scope, query: string, m: Memory) {
    && m.id in s.memories && var row := s.memories[m.id];
    && row.status == Confirmed && m.status == Confirmed && (scope.Only? ==> m.id in scope.ids)
    && m.content == row.content && m.source == row.source && m.created == row.created && m.updated == row.updated
    && row.source in s.sources && m.kind == s.sources[row.source].kind
    && (text.lower(query) == "" || Contains(text.lower(row.content), text.lower(query)))
  }

  predicate InOrder(rows: seq<Memory>) {
    forall i, j | 0 <= i < j < |rows| :: Before(rows[i], rows[j])
  }

  lemma {:induction false} MatchingOrder(text: Text, query: string, rows: seq<Memory>)
    requires InOrder(rows)
    ensures InOrder(Matching(text, query, rows))
  {
    if rows != [] {
      MatchingOrder(text, query, rows[1..]);
      MatchingMembers(text, query, rows[1..]);
      assert forall m | m in rows[1..] :: Before(rows[0], m);
    }
  }

  lemma {:induction false} FittingOrder(rows: seq<Memory>, budget: nat)
    requires InOrder(rows)
    ensures InOrder(Fitting(rows, budget))
    decreases |rows|
  {
    if rows != [] {
      var left := if |rows[0].content| <= budget then budget - |rows[0].content| else budget;
      FittingOrder(rows[1..], left);
      FittingBounds(rows[1..], left);
      assert forall m | m in rows[1..] :: Before(rows[0], m);
    }
  }

  /** Nothing is left out but for want of room: a confirmed memory of the scope that matches and is not in the context
      would not fit into what the context leaves, or 24 others are in it. */
  lemma LeftOutForRoom(text: Text, s: Tables, now: Time, grant: Key, destination: string, query: string, id: Key)
    requires Inv(s) && Usable(s, now, grant, destination).None?
    requires id in s.memories && s.memories[id].status == Confirmed
    requires var scope := s.grants[grant].scope; scope.Everything? || id in scope.ids
    requires text.lower(query) == "" || Contains(text.lower(s.memories[id].content), text.lower(query))
    ensures var context := Context(text, s, now, grant, destination, query).value;
      || (exists m :: m in context && m.id == id)
      || |context| == CONTEXT_MEMORIES || Bytes(context) + |s.memories[id].content| > CONTEXT_BYTES
  {
    var scope := s.grants[grant].scope;
    var read := Sorted(AuthorisedSet(s, scope));
    EligibleIsRead(s, scope, id);
    MatchingHas(text, query, read, View(s, id));
    var rows := Matching(text, query, read);
    var i :| 0 <= i < |rows| && rows[i] == View(s, id);
    GreedyRoom(rows, i);
    Taken(Fitting(rows, CONTEXT_BYTES));
    hide Sorted, Matching, Fitting, Bytes, AuthorisedSet, Found, Take, Context;
  }

  lemma Taken(fitting: seq<Memory>)
    ensures |Take(fitting)| == CONTEXT_MEMORIES || Take(fitting) == fitting
  {
  }

  /** Every confirmed memory that the grant names, or any where it names everything, is among the rows that are read. */
  lemma EligibleIsRead(s: Tables, scope: Scope, id: Key)
    requires Inv(s) && id in s.memories && s.memories[id].status == Confirmed && (scope.Everything? || id in scope.ids)
    ensures View(s, id) in Sorted(AuthorisedSet(s, scope))
  {
    AuthorisedDistinct(s, scope);
    SortedLists(AuthorisedSet(s, scope));
    assert Authorised(s, scope, id);
  }

  /** What the greedy selection passes over does not fit into what it leaves. */
  lemma GreedyRoom(rows: seq<Memory>, i: nat)
    requires i < |rows|
    ensures var fitting := Fitting(rows, CONTEXT_BYTES);
      rows[i] in fitting || Bytes(fitting) + |rows[i].content| > CONTEXT_BYTES
  {
    SelectedIffItFits(rows, i);
    var first, before := Fitting(rows[..i], CONTEXT_BYTES), Fitting(rows[..i + 1], CONTEXT_BYTES);
    FittingSplits(rows[..i + 1], rows[i + 1..], CONTEXT_BYTES);
    var rest := Fitting(rows[i + 1..], CONTEXT_BYTES - Bytes(before));
    assert rows == rows[..i + 1] + rows[i + 1..];
    assert Fitting(rows, CONTEXT_BYTES) == before + rest;
    BytesSplit(before, rest);
    hide Fitting, Bytes;
    if Bytes(first) + |rows[i].content| <= CONTEXT_BYTES {
      assert rows[i] in before;
    } else {
      assert before == first;
    }
  }

  lemma {:induction false} MatchingHas(text: Text, query: string, rows: seq<Memory>, m: Memory)
    requires m in rows && Found(text, query, m)
    ensures m in Matching(text, query, rows)
  {
    if rows[0] != m {
      MatchingHas(text, query, rows[1..], m);
    }
  }

  lemma {:induction false} FittingSplits(a: seq<Memory>, b: seq<Memory>, budget: nat)
    ensures Bytes(Fitting(a, budget)) <= budget
    ensures Fitting(a + b, budget) == Fitting(a, budget) + Fitting(b, budget - Bytes(Fitting(a, budget)))
    decreases |a|
  {
    if a == [] {
      assert a + b == b;
    } else {
      assert (a + b)[1..] == a[1..] + b;
      var fits := |a[0].content| <= budget;
      FittingSplits(a[1..], b, if fits then budget - |a[0].content| else budget);
    }
  }

  /** Greedy and complete: a matching row is selected exactly when it fits what the rows before it left. */
  lemma SelectedIffItFits(rows: seq<Memory>, i: nat)
    requires i < |rows|
    ensures var before := Fitting(rows[..i], CONTEXT_BYTES);
      Fitting(rows[..i + 1], CONTEXT_BYTES)
        == before + if Bytes(before) + |rows[i].content| <= CONTEXT_BYTES then [rows[i]] else []
  {
    assert rows[..i + 1] == rows[..i] + [rows[i]];
    FittingSplits(rows[..i], [rows[i]], CONTEXT_BYTES);
  }

  lemma {:induction false} MatchingSplits(text: Text, query: string, a: seq<Memory>, b: seq<Memory>)
    ensures Matching(text, query, a + b) == Matching(text, query, a) + Matching(text, query, b)
  {
    if a == [] {
      assert a + b == b;
    } else {
      assert (a + b)[1..] == a[1..] + b;
      MatchingSplits(text, query, a[1..], b);
    }
  }

  lemma {:induction false} BytesSplit(a: seq<Memory>, b: seq<Memory>)
    ensures Bytes(a + b) == Bytes(a) + Bytes(b)
  {
    if a == [] {
      assert a + b == b;
    } else {
      assert (a + b)[1..] == a[1..] + b;
      BytesSplit(a[1..], b);
    }
  }

  /* ---- What each operation does to the tables ---- */

  predicate GoodContent(text: Text, s: string) {
    text.trim(s) != "" && |s| <= CONTENT_LIMIT
  }

  function AfterAdd(s: Tables, now: Time, id: Key, source: Key, content: string, status: Status, kind: string): Tables {
    s.(sources := s.sources[source := Source(kind, content, now)],
       memories := s.memories[id := Row(source, content, status, now, now)])
  }

  function AfterUpdate(s: Tables, now: Time, id: Key, content: Option<string>, status: Option<Status>): Tables
    requires id in s.memories
  {
    var r := s.memories[id];
    s.(memories := s.memories[id := r.(content := if content.Some? then content.value else r.content,
                                       status := if status.Some? then status.value else r.status, updated := now)])
  }

  predicate Shared(s: Tables, id: Key, source: Key) {
    exists m :: m in s.memories && m != id && s.memories[m].source == source
  }

  /** The memory goes, and its source unless another memory came from it. */
  function AfterDelete(s: Tables, id: Key): Tables
    requires id in s.memories
  {
    var source := s.memories[id].source;
    s.(memories := s.memories - {id}, sources := if Shared(s, id, source) then s.sources else s.sources - {source})
  }

  /** Whether the source is shared can be asked before the memory is deleted or after. */
  lemma DeleteKeeps(s: Tables, id: Key)
    requires Inv(s) && id in s.memories
    ensures Inv(AfterDelete(s, id))
    ensures Shared(s.(memories := s.memories - {id}), id, s.memories[id].source) <==> Shared(s, id, s.memories[id].source)
  {
    var rest := s.memories - {id};
    assert forall m | m in s.memories && m != id :: m in rest && rest[m] == s.memories[m];
  }

  function AfterDeleteSource(s: Tables, id: Key): Tables {
    s.(sources := s.sources - {id}, memories := map m | m in s.memories && s.memories[m].source != id :: s.memories[m])
  }

  predicate GoodScope(s: Tables, scope: Scope) {
    scope.Only? ==> 1 <= |scope.ids| <= WIDEST_SCOPE && forall m | m in scope.ids :: m in s.memories
  }

  function AfterGrant(s: Tables, now: Time, id: Key, destination: string, scope: Scope, seconds: int): Tables {
    s.(grants := s.grants[id := Grant(destination, scope, now + seconds, None, now)])
  }

  /** A grant keeps the time it was first revoked at. */
  function RevokeAt(g: Grant, now: Time): Grant {
    if g.revoked.Some? then g else g.(revoked := Some(now))
  }

  function AfterRevoke(s: Tables, now: Time, id: Key): Tables {
    if id in s.grants then s.(grants := s.grants[id := RevokeAt(s.grants[id], now)]) else s
  }

  function Ids(ms: seq<Memory>): seq<Key> {
    seq(|ms|, i requires 0 <= i < |ms| => ms[i].id)
  }

  function AfterReceipt(s: Tables, now: Time, id: Key, destination: string, grant: Key, ms: seq<Memory>): Tables {
    s.(receipts := s.receipts[id := Receipt(destination, Ids(ms), now, Some(grant))])
  }

  /** What a memory said before an edit. */
  datatype Version = Version(memory: Key, content: string, status: Status, recorded: Time)

  /** The cascade to the versions of memories that are gone. */
  function Surviving(history: seq<Version>, memories: set<Key>): seq<Version> {
    if history == [] then []
    else
      var last := history[|history| - 1];
      Surviving(history[..|history| - 1], memories) + if last.memory in memories then [last] else []
  }

  lemma {:induction false} SurvivingAreKept(history: seq<Version>, memories: set<Key>)
    ensures forall v | v in Surviving(history, memories) :: v in history && v.memory in memories
    ensures forall v | v in history && v.memory in memories :: v in Surviving(history, memories)
    ensures (forall v | v in history :: v.memory in memories) ==> Surviving(history, memories) == history
  {
    if history != [] {
      var init, last := history[..|history| - 1], history[|history| - 1];
      SurvivingAreKept(init, memories);
      assert history == init + [last];
    }
  }

  class Vault {
    var history: seq<Version>
    var sources: map<Key, Source>
    var memories: map<Key, Row>
    var grants: map<Key, Grant>
    var receipts: map<Key, Receipt>
    const text: Text

    ghost function State(): Tables
      reads this
    {
      Tables(sources, memories, grants, receipts)
    }

    /** Every memory has its source, and every version its memory. */
    ghost predicate Valid()
      reads this
    {
      Inv(State()) && forall v | v in history :: v.memory in memories
    }

    constructor (text: Text)
      ensures Valid() && State() == Tables(map[], map[], map[], map[]) && history == [] && this.text == text
    {
      history := [];
      sources, memories, grants, receipts := map[], map[], map[], map[];
      this.text := text;
    }

    method AddMemory(now: Time, id: Key, source: Key, content: string, status: Status, kind: string)
      returns (r: Result<Memory, Error>)
      requires Valid() && id !in memories && source !in sources
      modifies this
      ensures Valid()
      ensures r.Success? <==>
        text.trim(content) != "" && |content| <= CONTENT_LIMIT && text.trim(kind) != "" && |kind| <= 80
      ensures history == old(history) && (r.Failure? ==> State() == old(State()))
      ensures r.Success? ==> State() == AfterAdd(old(State()), now, id, source, content, status, kind)
                             && r.value == View(State(), id)
      ensures r.Success? ==>
        && memories == old(memories)[id := Row(source, content, status, now, now)]
        && sources == old(sources)[source := Source(kind, content, now)]
        && r.value == Memory(id, source, content, status, now, now, kind)
    {
      if !GoodContent(text, content) { return Failure(BadContent); }
      if text.trim(kind) == "" || |kind| > 80 { return Failure(BadSource); }
      sources := sources[source := Source(kind, content, now)];
      memories := memories[id := Row(source, content, status, now, now)];
      r := Success(Memory(id, source, content, status, now, now, kind));
    }

    /** An edit; what the memory said before is kept as a version of it. */
    method UpdateMemory(now: Time, id: Key, content: Option<string>, status: Option<Status>)
      returns (r: Result<Memory, Error>)
      requires Valid()
      modifies this
      ensures Valid()
      ensures r.Success? <==>
        id in old(memories) && (content.Some? ==> text.trim(content.value) != "" && |content.value| <= CONTENT_LIMIT)
      ensures r.Failure? ==> State() == old(State()) && history == old(history)
      ensures r.Success? ==>
        history == old(history) + [Version(id, old(memories)[id].content, old(memories)[id].status, now)]
      ensures r.Success? ==> State() == AfterUpdate(old(State()), now, id, content, status) && r.value == View(State(), id)
      ensures sources == old(sources) && grants == old(grants) && receipts == old(receipts)
      ensures r.Success? ==>
        && id in memories && memories.Keys == old(memories).Keys
        && (forall m | m in memories && m != id :: memories[m] == old(memories)[m])
        && memories[id].updated == now && memories[id].created == old(memories)[id].created
        && memories[id].content == (if content.Some? then content.value else old(memories)[id].content)
        && memories[id].status == (if status.Some? then status.value else old(memories)[id].status)
        && memories[id].source == old(memories)[id].source
    {
      if content.Some? && !GoodContent(text, content.value) { return Failure(BadContent); }
      if id !in memories { return Failure(NotFound); }
      var row := memories[id];
      history := history + [Version(id, row.content, row.status, now)];
      if content.Some? { row := row.(content := content.value); }
      if status.Some? { row := row.(status := status.value); }
      memories := memories[id := row.(updated := now)];
      r := Success(View(Tables(sources, memories, grants, receipts), id));
    }

    method DeleteMemory(id: Key) returns (found: bool)
      requires Valid()
      modifies this
      ensures Valid() && found == (id in old(memories))
      ensures State() == if found then AfterDelete(old(State()), id) else old(State())
      ensures history == Surviving(old(history), memories.Keys)
      ensures memories == old(memories) - {id} && grants == old(grants) && receipts == old(receipts)
      ensures found ==>
        var source := old(memories)[id].source;
        if exists m | m in memories :: memories[m].source == source then sources == old(sources)
        else sources == old(sources) - {source}
    {
      SurvivingAreKept(history, memories.Keys);
      if id !in memories { return false; }
      DeleteKeeps(State(), id);
      hide Inv, Shared, Surviving;
      var source := memories[id].source;
      memories := memories - {id};
      if !Shared(Tables(sources, memories, grants, receipts), id, source) {
        sources := sources - {source};
      }
      SurvivingAreKept(history, memories.Keys);
      history := Surviving(history, memories.Keys);
      found := true;
    }

    method DeleteSource(id: Key) returns (found: bool)
      requires Valid()
      modifies this
      ensures Valid() && found == (id in old(sources)) && State() == AfterDeleteSource(old(State()), id)
      ensures history == Surviving(old(history), memories.Keys)
      ensures sources == old(sources) - {id} && grants == old(grants) && receipts == old(receipts)
      ensures forall m :: m in memories <==> m in old(memories) && old(memories)[m].source != id
      ensures forall m | m in memories :: memories[m] == old(memories)[m]
    {
      found := id in sources;
      sources := sources - {id};
      memories := map m | m in memories && memories[m].source != id :: memories[m];
      SurvivingAreKept(history, memories.Keys);
      history := Surviving(history, memories.Keys);
    }

    method CreateGrant(now: Time, id: Key, destination: string, scope: Scope, seconds: int)
      returns (r: Result<Grant, Error>)
      requires Valid() && id !in grants
      modifies this
      ensures history == old(history)
      ensures Valid()
      ensures r.Success? <==> 1 <= seconds <= LONGEST_GRANT && GoodScope(old(State()), scope)
      ensures State() == if r.Success? then AfterGrant(old(State()), now, id, destination, scope, seconds) else old(State())
      ensures r.Success? ==>
        && 1 <= seconds <= LONGEST_GRANT
        && (scope.Only? ==> 1 <= |scope.ids| <= WIDEST_SCOPE && forall m | m in scope.ids :: m in memories)
        && grants == old(grants)[id := r.value]
        && r.value.destination == destination && r.value.scope == scope && r.value.expires == now + seconds
        && r.value.revoked == None && r.value.created == now
    {
      if !(1 <= seconds <= LONGEST_GRANT) { return Failure(BadLifetime); }
      if scope.Only? && !(1 <= |scope.ids| <= WIDEST_SCOPE) { return Failure(BadScope); }
      if scope.Only? && exists m :: m in scope.ids && m !in memories { return Failure(MissingMemory); }
      var g := Grant(destination, scope, now + seconds, None, now);
      grants := grants[id := g];
      r := Success(g);
    }

    method Revoke(now: Time, id: Key) returns (affected: bool)
      requires Valid()
      modifies this
      ensures history == old(history)
      ensures Valid() && affected == (id in old(grants)) && State() == AfterRevoke(old(State()), now, id)
      ensures grants.Keys == old(grants).Keys && forall g | g in grants && g != id :: grants[g] == old(grants)[g]
      ensures affected ==>
        && grants[id].revoked == (if old(grants)[id].revoked == None then Some(now) else old(grants)[id].revoked)
        && grants[id].scope == old(grants)[id].scope && grants[id].destination == old(grants)[id].destination
        && grants[id].expires == old(grants)[id].expires && grants[id].created == old(grants)[id].created
    {
      affected := id in grants;
      if affected { grants := grants[id := RevokeAt(grants[id], now)]; }
    }

    method ReadContext(now: Time, grant: Key, destination: string, query: string)
      returns (r: Result<seq<Memory>, Error>)
      requires Valid()
      ensures r == Context(text, State(), now, grant, destination, query)
      ensures r.Success? <==>
        && grant in grants && grants[grant].revoked == None && grants[grant].expires > now
        && grants[grant].destination == destination
      ensures r.Success? ==> forall m: Memory | m in r.value ::
        && m.id in memories && memories[m.id].status == Confirmed && m.content == memories[m.id].content
        && (grants[grant].scope.Only? ==> m.id in grants[grant].scope.ids)
    {
      ContextIs(text, State(), now, grant, destination, query);
      if grant !in grants { return Failure(UnknownGrant); }
      var g := grants[grant];
      if g.revoked.Some? { return Failure(RevokedGrant); }
      if g.expires <= now { return Failure(ExpiredGrant); }
      if g.destination != destination { return Failure(WrongDestination); }
      var all := AuthorisedSet(Tables(sources, memories, grants, receipts), g.scope);
      AuthorisedDistinct(State(), g.scope);
      var rows := Order(all);
      var selected := Select(text, rows, query);
      r := Success(selected);
    }

    static method Order(all: set<Memory>) returns (rows: seq<Memory>)
      requires DistinctIds(all)
      ensures rows == Sorted(all)
    {
      var rest := all;
      rows := [];
      while rest != {}
        invariant DistinctIds(rest) && Sorted(all) == rows + Sorted(rest)
        decreases rest
      {
        SomeIsFirst(rest);
        var m :| IsFirst(rest, m);
        rows := rows + [m];
        rest := rest - {m};
      }
    }

    static method Select(text: Text, rows: seq<Memory>, query: string) returns (selected: seq<Memory>)
      ensures selected == Take(Fitting(Matching(text, query, rows), CONTEXT_BYTES))
    {
      var budget, i := CONTEXT_BYTES, 0;
      selected := [];
      while i < |rows| && |selected| < CONTEXT_MEMORIES
        invariant 0 <= i <= |rows| && |selected| <= CONTEXT_MEMORIES
        invariant selected == Fitting(Matching(text, query, rows[..i]), CONTEXT_BYTES)
        invariant budget == CONTEXT_BYTES - Bytes(selected) >= 0
      {
        var m := rows[i];
        SelectStep(text, rows, query, i);
        if Found(text, query, m) && |m.content| <= budget {
          BytesSplit(selected, [m]);
          budget := budget - |m.content|;
          selected := selected + [m];
        }
        i := i + 1;
      }
      SelectRest(text, rows, query, i);
    }

    /** Revalidation and receipt in one step: a receipt names exactly the selection, and only while that selection is
        the current context; nothing else changes. */
    method CurrentContextReceipt(now: Time, id: Key, destination: string, grant: Key, selected: seq<Memory>)
      returns (r: Result<Option<Key>, Error>)
      requires Valid() && id !in receipts
      modifies this`receipts
      ensures history == old(history)
      ensures Valid()
      ensures r.Success? <==> Context(text, old(State()), now, grant, destination, "") == Success(selected)
      ensures r.Success? ==> r.value == if selected == [] then None else Some(id)
      ensures State() == if r.Success? && r.value.Some?
                         then AfterReceipt(old(State()), now, id, destination, grant, selected) else old(State())
      ensures r.Success? && r.value.Some? ==>
        && id in receipts && receipts[id].destination == destination && receipts[id].created == now
        && receipts[id].grant == Some(grant) && |receipts[id].memories| == |selected|
        && forall i | 0 <= i < |selected| :: receipts[id].memories[i] == selected[i].id
    {
      var current := ReadContext(now, grant, destination, "");
      if current.Failure? { return Failure(current.error); }
      if current.value != selected { return Failure(ContextChanged); }
      if selected == [] { return Success(None); }
      receipts := receipts[id := Receipt(destination, Ids(selected), now, Some(grant))];
      r := Success(Some(id));
    }
  }

  lemma SelectStep(text: Text, rows: seq<Memory>, query: string, i: nat)
    requires i < |rows|
    ensures var before := Fitting(Matching(text, query, rows[..i]), CONTEXT_BYTES);
      Fitting(Matching(text, query, rows[..i + 1]), CONTEXT_BYTES)
        == before + if Found(text, query, rows[i]) && Bytes(before) + |rows[i].content| <= CONTEXT_BYTES then [rows[i]] else []
  {
    assert rows[..i + 1] == rows[..i] + [rows[i]];
    MatchingSplits(text, query, rows[..i], [rows[i]]);
    FittingSplits(Matching(text, query, rows[..i]), Matching(text, query, [rows[i]]), CONTEXT_BYTES);
  }

  lemma SelectRest(text: Text, rows: seq<Memory>, query: string, i: nat)
    requires i <= |rows|
    requires var got := Fitting(Matching(text, query, rows[..i]), CONTEXT_BYTES);
      |got| == CONTEXT_MEMORIES || (i == |rows| && |got| <= CONTEXT_MEMORIES)
    ensures Take(Fitting(Matching(text, query, rows), CONTEXT_BYTES))
         == Fitting(Matching(text, query, rows[..i]), CONTEXT_BYTES)
  {
    assert rows == rows[..i] + rows[i..];
    MatchingSplits(text, query, rows[..i], rows[i..]);
    FittingSplits(Matching(text, query, rows[..i]), Matching(text, query, rows[i..]), CONTEXT_BYTES);
  }
}
