/**
 What several modules share.
 */
module Basics {

  datatype Option<T> = None | Some(value: T)

  ghost predicate NoDup<T>(s: seq<T>) {
    forall i, j :: 0 <= i < j < |s| ==> s[i] != s[j]
  }

  // ----- 32-bit counters -----

  const COUNTER_MOD: nat := 0x1_0000_0000

  /** The value of a 32-bit counter that would be `x` without wrapping around. */
  function Wrap(x: int): (r: nat)
    ensures r < COUNTER_MOD
  {
    x % 0x1_0000_0000
  }

  lemma {:induction false} WrapAdds(x: int, d: int)
    ensures Wrap(Wrap(x) + d) == Wrap(x + d)
  {
  }
}
