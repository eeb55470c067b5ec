/** Decoded JSON values. */
module JsonValues {
  import opened Common

  /** An object's members are in key order, each key once. */
  datatype Json =
    | Null
    | Bool(b: bool)
    | Number(n: int)
    | Text(s: string)
    | Array(items: seq<Json>)
    | Object(members: seq<Member>)

  datatype Member = Member(key: string, value: Json)

  function Arity(v: Json): nat {
    if v.Array? then |v.items| else if v.Object? then |v.members| else 0
  }

  function Lookup(members: seq<Member>, key: string): Option<Json> {
    if members == [] then None
    else if members[0].key == key then Some(members[0].value)
    else Lookup(members[1..], key)
  }

  /** The member of an object, None for another value. */
  function Get(v: Json, key: string): Option<Json> {
    if v.Object? then Lookup(v.members, key) else None
  }

  function Without(members: seq<Member>, key: string): seq<Member> {
    if members == [] then []
    else (if members[0].key == key then [] else [members[0]]) + Without(members[1..], key)
  }

  /** The value of a member that is there is replaced. */
  function Put(members: seq<Member>, key: string, value: Json): seq<Member> {
    if members == [] then []
    else if members[0].key == key then [Member(key, value)] + members[1..]
    else [members[0]] + Put(members[1..], key, value)
  }

  lemma {:induction false} GetPut(members: seq<Member>, key: string, value: Json, other: string)
    ensures Lookup(Put(members, key, value), other)
      == if other == key && Lookup(members, key).Some? then Some(value) else Lookup(members, other)
  {
    if members != [] && members[0].key != key {
      GetPut(members[1..], key, value, other);
      assert Put(members, key, value)[1..] == Put(members[1..], key, value);
    } else if members != [] {
      assert Put(members, key, value)[1..] == members[1..];
    }
  }

  lemma {:induction false} PutSame(members: seq<Member>, key: string)
    requires Lookup(members, key).Some?
    ensures Put(members, key, Lookup(members, key).value) == members
  {
    if members[0].key != key {
      PutSame(members[1..], key);
    }
  }

  lemma {:induction false} GetWithout(members: seq<Member>, key: string, other: string)
    ensures Lookup(Without(members, key), other) == if other == key then None else Lookup(members, other)
  {
    if members != [] {
      GetWithout(members[1..], key, other);
      if members[0].key != key {
        assert Without(members, key)[1..] == Without(members[1..], key);
      } else {
        assert Without(members, key) == Without(members[1..], key);
      }
    }
  }
}
