/** Small things that several parts of the model share. */
module Basics {

  datatype Option<+T> = None | Some(value: T)

  const WORD: nat := 0x1_0000_0000_0000_0000

  type uint64 = n: nat | n < WORD witness 0

  lemma ConcatFront<T>(s: seq<T>, t: seq<T>)
    requires s != []
    ensures (s + t)[0] == s[0] && (s + t)[1..] == s[1..] + t
  {
  }

  lemma FrontAndLast<T>(s: seq<T>)
    requires s != []
    ensures s == s[..|s| - 1] + [s[|s| - 1]]
  {
  }

  lemma ConcatAssociative<T>(x: seq<T>, y: seq<T>, z: seq<T>)
    ensures x + y + z == x + (y + z)
  {
  }

  function Min(x: int, y: int): int {
    if y < x then y else x
  }

  /** How many tries a signed limit allows. */
  function Attempts(maxTimeouts: int): nat {
    if maxTimeouts > 0 then maxTimeouts else 0
  }
}
