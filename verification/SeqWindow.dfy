/**
 The sequence number window of an RPCSEC_GSS context (section 5.3.3.1 of RFC 2203): a circular bitmap
 beside the highest number seen.
 */
module SeqWindow {

  const SEQ_MOD: nat := 0x1_0000_0000

  // ----- what the bitmap stands for -----

  /** The highest number accepted, and all the numbers accepted. */
  datatype History = History(last: nat, accepted: set<int>)

  const FRESH := History(0, {})

  /** The rule for one number, for a window of `w` numbers. */
  predicate Accepts(h: History, w: nat, n: nat) {
    n >= h.last || (h.last - n < w && n !in h.accepted)
  }

  function Step(h: History, w: nat, n: nat): History {
    if Accepts(h, w, n) then History(if n > h.last then n else h.last, h.accepted + {n}) else h
  }

  function Run(h: History, w: nat, ns: seq<nat>): History
    decreases |ns|
  {
    if ns == [] then h else Run(Step(h, w, ns[0]), w, ns[1..])
  }

  ghost predicate Bounded(h: History) {
    forall n :: n in h.accepted ==> 0 <= n <= h.last
  }

  /** In every reachable history, nothing above the highest number has been accepted. */
  lemma {:induction false} RunBounded(h: History, w: nat, ns: seq<nat>)
    requires Bounded(h)
    ensures Bounded(Run(h, w, ns)) && h.last <= Run(h, w, ns).last && h.accepted <= Run(h, w, ns).accepted
    decreases |ns|
  {
    if ns != [] { RunBounded(Step(h, w, ns[0]), w, ns[1..]); }
  }

  /** A number that was accepted and then overtaken is never accepted again, whatever comes in between. */
  lemma {:induction false} NeverAgain(w: nat, before: seq<nat>, after: seq<nat>, n: nat)
    requires var h := Run(FRESH, w, before); n in h.accepted && n < h.last
    ensures !Accepts(Run(Run(FRESH, w, before), w, after), w, n)
  {
    RunBounded(FRESH, w, before);
    RunBounded(Run(FRESH, w, before), w, after);
  }

  /** The replays that get through: exactly those of the highest number so far. */
  lemma {:induction false} ReplayAccepted(w: nat, ns: seq<nat>, n: nat)
    requires n in Run(FRESH, w, ns).accepted
    ensures Accepts(Run(FRESH, w, ns), w, n) <==> n == Run(FRESH, w, ns).last
  {
    RunBounded(FRESH, w, ns);
  }

  /** One such replay. */
  lemma {:induction false} ReplayOfLast(w: nat)
    ensures 5 in Run(FRESH, w, [5]).accepted && Accepts(Run(FRESH, w, [5]), w, 5)
  {
    assert Run(FRESH, w, [5]) == Step(FRESH, w, 5);
  }

  // ----- the same in terms of the numbers that have come in, accepted or not -----

  lemma {:induction false} RunNext(h: History, w: nat, ns: seq<nat>, n: nat)
    ensures Run(h, w, ns + [n]) == Step(Run(h, w, ns), w, n)
    decreases |ns|
  {
    if ns == [] {
      assert Run(h, w, [n]) == Run(Step(h, w, n), w, [n][1..]);
    } else {
      assert (ns + [n])[1..] == ns[1..] + [n];
      RunNext(Step(h, w, ns[0]), w, ns[1..], n);
    }
  }

  /** Less than `w` behind every number of `ns`. */
  ghost predicate Recent(w: nat, ns: seq<nat>, n: nat) {
    forall m :: m in ns ==> m < n + w
  }

  ghost predicate Highest(ns: seq<nat>, n: nat) {
    forall m :: m in ns ==> m <= n
  }

  lemma {:induction false} LastIsHighest(w: nat, ns: seq<nat>)
    ensures Highest(ns, Run(FRESH, w, ns).last) && (ns == [] || Run(FRESH, w, ns).last in ns)
  {
    if ns != [] {
      var before, n := ns[..|ns| - 1], ns[|ns| - 1];
      assert ns == before + [n];
      LastIsHighest(w, before);
      RunNext(FRESH, w, before, n);
    }
  }

  /** It came in while it was recent. */
  ghost predicate CameInTime(w: nat, ns: seq<nat>, n: nat) {
    exists i :: 0 <= i < |ns| && ns[i] == n && Recent(w, ns[..i], n)
  }

  lemma {:induction false} CameNext(w: nat, ns: seq<nat>, m: nat, n: nat)
    ensures CameInTime(w, ns + [m], n) <==> CameInTime(w, ns, n) || (m == n && Recent(w, ns, n))
  {
    var all := ns + [m];
    forall i | 0 <= i < |ns| ensures all[i] == ns[i] && all[..i] == ns[..i] {}
    assert all[..|ns|] == ns && all[|ns|] == m;
    if CameInTime(w, all, n) {
      var i :| 0 <= i < |all| && all[i] == n && Recent(w, all[..i], n);
    }
    if CameInTime(w, ns, n) {
      var i :| 0 <= i < |ns| && ns[i] == n && Recent(w, ns[..i], n);
      assert all[i] == n && Recent(w, all[..i], n);
    }
  }

  lemma {:induction false} AcceptsIs(w: nat, ns: seq<nat>, n: nat)
    requires w > 0
    ensures Accepts(Run(FRESH, w, ns), w, n) <==>
            Highest(ns, n) || (Recent(w, ns, n) && n !in Run(FRESH, w, ns).accepted)
  {
    LastIsHighest(w, ns);
  }

  /** The numbers accepted are those that came in while they were less than `w` behind everything before them. */
  lemma {:induction false} AcceptedIff(w: nat, ns: seq<nat>, n: nat)
    requires w > 0
    ensures n in Run(FRESH, w, ns).accepted <==> CameInTime(w, ns, n)
  {
    if ns != [] {
      var before, m := ns[..|ns| - 1], ns[|ns| - 1];
      assert ns == before + [m];
      AcceptedIff(w, before, n);
      RunNext(FRESH, w, before, m);
      CameNext(w, before, m, n);
      AcceptsIs(w, before, m);
    }
  }

  /** So a number gets through if it is the highest so far, or recent and new. */
  lemma {:induction false} AnswerIff(w: nat, ns: seq<nat>, n: nat)
    requires w > 0
    ensures Accepts(Run(FRESH, w, ns), w, n) <==> Highest(ns, n) || (Recent(w, ns, n) && n !in ns)
  {
    AcceptsIs(w, ns, n);
    AcceptedIff(w, ns, n);
    if Recent(w, ns, n) && n in ns {
      var i :| 0 <= i < |ns| && ns[i] == n;
      assert Recent(w, ns[..i], n) by {
        assert forall m :: m in ns[..i] ==> m in ns;
      }
    }
  }

  /** A number that has not been accepted yet is accepted if and only if it is less than `w` behind the highest. */
  lemma {:induction false} UnseenIff(w: nat, ns: seq<nat>, n: nat)
    requires w > 0 && n !in Run(FRESH, w, ns).accepted
    ensures n in Run(FRESH, w, ns + [n]).accepted <==> Run(FRESH, w, ns).last < n + w
  {
    RunNext(FRESH, w, ns, n);
  }

  // ----- the bitmap -----

  function Bit(mask: seq<bool>, n: int): bool
    requires |mask| > 0
  {
    mask[n % |mask|]
  }

  /** The bit of every number of the window is set exactly when that number has been accepted. */
  ghost predicate Shows(last: nat, mask: seq<bool>, accepted: set<int>)
    requires |mask| > 0
  {
    forall n :: last - |mask| < n <= last ==> (Bit(mask, n) <==> n in accepted)
  }

  lemma {:induction false} Multiple(w: nat, k: int)
    ensures k >= 1 ==> w * k >= w
    ensures k <= 0 ==> w * k <= 0
  {
  }

  /** Two numbers of one window have different bits. */
  lemma {:induction false} BitsApart(a: int, b: int, w: nat)
    requires w > 0 && a < b < a + w
    ensures a % w != b % w
  {
    var q, r := a / w, b / w;
    assert a == w * q + a % w && b == w * r + b % w;
    assert w * r - w * q == w * (r - q);
    Multiple(w, r - q);
  }

  lemma {:induction false} SetBit(last: nat, mask: seq<bool>, accepted: set<int>, n: nat)
    requires |mask| > 0 && Shows(last, mask, accepted) && last - |mask| < n <= last
    ensures Shows(last, mask[n % |mask| := true], accepted + {n})
  {
    var mask' := mask[n % |mask| := true];
    forall m | last - |mask| < m <= last
      ensures Bit(mask', m) <==> m in accepted + {n}
    {
      if m < n { BitsApart(m, n, |mask|); } else if n < m { BitsApart(n, m, |mask|); }
      assert Bit(mask, m) <==> m in accepted;
    }
  }

  lemma {:induction false} Advance(last: nat, mask: seq<bool>, accepted: set<int>)
    requires |mask| > 0 && Shows(last, mask, accepted) && last + 1 !in accepted
    ensures Shows(last + 1, mask[(last + 1) % |mask| := false], accepted)
  {
    var mask' := mask[(last + 1) % |mask| := false];
    forall m | last + 1 - |mask| < m <= last + 1
      ensures Bit(mask', m) <==> m in accepted
    {
      if m <= last {
        BitsApart(m, last + 1, |mask|);
        assert Bit(mask, m) <==> m in accepted;
      }
    }
  }

  /** `seqlast` and `seqmask` of a context. */
  class SeqNumWindow {
    var seqlast: nat
    const seqmask: array<bool>
    ghost var history: History
    /** All numbers that have come in. */
    ghost var seen: seq<nat>

    ghost predicate Valid()
      reads this, seqmask
    {
      && seqmask.Length > 0 && seqlast == history.last < SEQ_MOD
      && history == Run(FRESH, seqmask.Length, seen) && Bounded(history) && Shows(seqlast, seqmask[..], history.accepted)
    }

    constructor (w: nat)
      requires w > 0
      ensures Valid() && fresh(seqmask) && seqmask.Length == w && seen == []
    {
      seqlast, history, seen := 0, FRESH, [];
      seqmask := new bool[w](_ => false);
    }

    /** Moves the end of the window up to `n`, making room in the bitmap. */
    method MoveUp(n: nat)
      requires Valid() && seqlast <= n < SEQ_MOD
      modifies this`seqlast, seqmask
      ensures seqlast == n && Shows(seqlast, seqmask[..], history.accepted)
    {
      if n - seqlast >= seqmask.Length {
        forall i | 0 <= i < seqmask.Length {
          seqmask[i] := false;
        }
        seqlast := n;
      } else {
        while seqlast < n
          invariant old(seqlast) <= seqlast <= n
          invariant Shows(seqlast, seqmask[..], history.accepted)
        {
          Advance(seqlast, seqmask[..], history.accepted);
          seqlast := seqlast + 1;
          seqmask[seqlast % seqmask.Length] := false;
        }
      }
    }

    /** Decides on one number and records it: the bitmap follows the history exactly. */
    method IsSeqNumValid(n: nat) returns (ok: bool)
      requires Valid() && n < SEQ_MOD
      modifies this, seqmask
      ensures Valid() && seen == old(seen) + [n]
      ensures ok <==> n >= old(seqlast) || (old(seqlast) - n < seqmask.Length && n !in old(history.accepted))
      ensures ok <==> Highest(old(seen), n) || (Recent(seqmask.Length, old(seen), n) && n !in old(seen))
      ensures seqlast == if n > old(seqlast) then n else old(seqlast)
      ensures history.accepted == if ok then old(history.accepted) + {n} else old(history.accepted)
    {
      AnswerIff(seqmask.Length, seen, n);
      RunNext(FRESH, seqmask.Length, seen, n);
      var bit := n % seqmask.Length;
      if n < seqlast {
        if seqlast - n >= seqmask.Length {
          seen := seen + [n];
          return false;
        }
        assert Bit(seqmask[..], n) <==> n in history.accepted;
        if seqmask[bit] {
          seen := seen + [n];
          return false;
        }
      } else {
        MoveUp(n);
      }
      SetBit(seqlast, seqmask[..], history.accepted, n);
      history, seen := Step(history, seqmask.Length, n), seen + [n];
      seqmask[bit] := true;
      return true;
    }
  }
}
