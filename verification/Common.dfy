/** Result and option types, and the sequence helpers several modules share.
    Texts are strings with one `char` per UTF-8 byte, so `|t|` is a byte length. */
module Common {
  type Id = string
  type Time = int

  const I64_MAX: int := 0x7FFF_FFFF_FFFF_FFFF
  const U64_MAX: int := 0xFFFF_FFFF_FFFF_FFFF

  datatype Option<+T> = None | Some(value: T)

  datatype Result<+T, +E> = Success(value: T) | Failure(error: E)

  function Min(a: int, b: int): int {
    if a <= b then a else b
  }

  function Reverse<T>(s: seq<T>): (r: seq<T>)
    ensures |r| == |s|
    ensures forall i :: 0 <= i < |s| ==> r[i] == s[|s| - 1 - i]
  {
    if s == [] then [] else Reverse(s[1..]) + [s[0]]
  }

  predicate OccursAt(whole: string, part: string, i: nat) {
    i + |part| <= |whole| && whole[i..i + |part|] == part
  }

  /** `part` is a substring of `whole`. */
  predicate Contains(whole: string, part: string) {
    exists i | 0 <= i <= |whole| :: OccursAt(whole, part, i)
  }
}
