/**
 Creating a client with version checking: the highest version of a range that the server supports.
 */
module Negotiate {
  import opened Basics

  /** What comes of a call: success, a version mismatch with the range the server reports, or any other failure. */
  datatype Answer = Success | Mismatch(low: nat, high: nat) | Failure

  /** The answer to call number `i` with version `v`; nothing is assumed of it. */
  type Server = (nat, nat) -> Answer

  /** Supports just the versions of a set, and reports the least and the greatest of them. */
  ghost predicate Honest(server: Server, versions: set<nat>, a: nat, b: nat) {
    && a in versions && b in versions && (forall v :: v in versions ==> a <= v <= b)
    && forall i: nat, v: nat :: server(i, v) == if v in versions then Success else Mismatch(a, b)
  }

  /** All versions from the least to the greatest. */
  ghost predicate Gapless(versions: set<nat>, a: nat, b: nat) {
    forall v :: a <= v <= b ==> v in versions
  }

  ghost predicate Falling(s: seq<nat>) {
    forall i, j :: 0 <= i < j < |s| ==> s[j] < s[i]
  }

  /**
   However the server answers, there are at most as many calls as versions asked for, with falling versions and each
   after a mismatch, and the result is the last version if the server has accepted that; it is one of those asked for if
   there are any.  With a server that is honest about any set `vs` of versions, it is the highest version asked for that
   the server supports, and there is none if and only if it fails; after the first call only versions in the reported
   range are tried, and one more call is enough if that has no gaps.
   */
  method Create(server: Server, low: nat, high: nat, ghost vs: set<nat>, ghost a: nat, ghost b: nat)
    returns (vers: Option<nat>, calls: nat, ghost tried: seq<nat>)
    ensures 1 <= calls <= if low <= high then high - low + 1 else 1
    ensures |tried| == calls && tried[0] == high && Falling(tried)
    ensures forall i :: 0 <= i < calls - 1 ==> server(i, tried[i]).Mismatch?
    ensures vers == if server(calls - 1, tried[calls - 1]) == Success then Some(tried[calls - 1]) else None
    ensures vers.Some? ==> (low <= vers.value <= high <==> low <= high)
    ensures low <= high && Honest(server, vs, a, b) ==>
      forall v :: v in vs && low <= v <= high ==> vers.Some? && v <= vers.value
    ensures Honest(server, vs, a, b) && vers.Some? ==> vers.value in vs
    ensures Honest(server, vs, a, b) ==> calls == 1 || (a <= high && calls - 2 <= b - a)
    ensures Honest(server, vs, a, b) && Gapless(vs, a, b) ==> calls <= 2
  {
    var lo, hi := low, high;
    calls, tried := 1, [hi];
    var answer := server(0, hi);
    if answer == Success {
      return Some(hi), calls, tried;
    }
    while answer.Mismatch? && hi > lo
      invariant low <= lo && hi <= high && (low <= high ==> lo <= hi) && (low > high ==> lo == low && hi == high)
      invariant 1 <= calls <= if low <= high then high - hi + 1 else 1
      invariant answer == server(calls - 1, hi) && answer != Success
      invariant |tried| == calls && tried[0] == high && tried[calls - 1] == hi && Falling(tried)
      invariant forall i :: 0 <= i < calls - 1 ==> server(i, tried[i]).Mismatch?
      invariant Honest(server, vs, a, b) ==> forall v :: v in vs && low <= v <= high ==> lo <= v <= hi
      invariant Honest(server, vs, a, b) ==> calls == 1 || (a <= hi && calls - 2 <= b - hi)
      invariant Honest(server, vs, a, b) && Gapless(vs, a, b) ==> calls == 1
      decreases hi
    {
      if answer.high < hi {
        hi := answer.high;
      } else {
        hi := hi - 1;
      }
      if answer.low > lo {
        lo := answer.low;
      }
      if lo > hi {
        break;
      }
      answer := server(calls, hi);
      calls, tried := calls + 1, tried + [hi];
      if answer == Success {
        return Some(hi), calls, tried;
      }
    }
    return None, calls, tried;
  }
}
