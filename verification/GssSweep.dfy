/**
 One call of the collector of idle GSS contexts, on its own.
 */
module GssSweep {
  import opened Basics
  import opened GssCache

  // ----- the order of the partitions -----

  /** While it does not wrap it counts like a number, and then it starts again at zero. */
  lemma {:induction false} WrapGoes(x: int, d: nat)
    requires Wrap(x) + d < 2 * COUNTER_MOD
    ensures Wrap(x + d) == if Wrap(x) + d < COUNTER_MOD then Wrap(x) + d else Wrap(x) + d - COUNTER_MOD
  {
    WrapAdds(x, d);
  }

  /** The remainder, by subtraction. */
  function Rem(x: nat, n: nat): (r: nat)
    requires n > 0
    ensures r < n
    decreases x
  {
    if x < n then x else Rem(x - n, n)
  }

  lemma {:induction false} RemIsMod(x: nat, n: nat)
    requires n > 0
    ensures Rem(x, n) == x % n
    decreases x
  {
    if x < n {
      ModIs(x, 0, x, n);
    } else {
      RemIsMod(x - n, n);
      assert x == ((x - n) / n + 1) * n + (x - n) % n;
      ModIs(x, (x - n) / n + 1, (x - n) % n, n);
    }
  }

  /** The partition looked at next, when the counter has been raised `turns` times. */
  function Turn(turns: nat, n: nat): (p: nat)
    requires n > 0
    ensures p < n
  {
    Rem(Wrap(turns + 1), n)
  }

  /** The partitions of the next `k` turns. */
  function Turns(turns: nat, k: nat, n: nat): (v: seq<nat>)
    requires n > 0
    ensures |v| == k
  {
    if k == 0 then [] else Turns(turns, k - 1, n) + [Turn(turns + (k - 1), n)]
  }

  lemma {:induction false} TurnsAt(turns: nat, k: nat, n: nat, i: nat)
    requires n > 0 && i < k
    ensures Turns(turns, k, n)[i] == Turn(turns + i, n)
  {
    if i < k - 1 { TurnsAt(turns, k - 1, n, i); }
  }

  lemma {:induction false} ModIs(x: int, q: int, r: int, n: nat)
    requires n > 0 && 0 <= r < n && x == q * n + r
    ensures x % n == r
  {
    var d := x / n - q;
    assert d * n == r - x % n;
    assert d >= 1 ==> d * n >= n;
    assert d <= -1 ==> d * n + n <= 0;
  }

  /** Multiples of `n` make no difference. */
  lemma {:induction false} RemAdd(x: nat, y: nat, n: nat)
    requires n > 0 && Rem(y, n) == 0
    ensures Rem(x + y, n) == Rem(x, n)
    decreases y
  {
    if y >= n { RemAdd(x, y - n, n); }
  }

  lemma {:induction false} RemLess(x: nat, n: nat)
    requires n > 0
    ensures Rem(x, n) <= x && Rem(x - Rem(x, n), n) == 0
    decreases x
  {
    if x >= n { RemLess(x - n, n); }
  }

  lemma {:induction false} RemDiffer(x: nat, d: nat, n: nat)
    requires 0 < d < n
    ensures Rem(x, n) != Rem(x + d, n)
    decreases x
  {
    if x >= n { RemDiffer(x - n, d, n); }
  }

  /** A counter that wraps at a multiple of `n` goes through the remainders like one that does not. */
  lemma {:induction false} WrapDivides(x: nat, n: nat)
    requires n > 0 && Rem(COUNTER_MOD, n) == 0
    ensures Rem(Wrap(x), n) == Rem(x, n)
    decreases x
  {
    WrapStep(x);
    if x >= COUNTER_MOD {
      var y := x - COUNTER_MOD;
      WrapDivides(y, n);
      RemAdd(y, COUNTER_MOD, n);
      assert x == y + COUNTER_MOD;
    }
  }

  lemma {:induction false} WrapStep(x: nat)
    ensures Wrap(x) == if x < COUNTER_MOD then x else Wrap(x - COUNTER_MOD)
  {
  }

  /** No wrap in the next `n` turns, or one that does not matter because `n` divides the modulus of the counter. */
  predicate Steady(turns: nat, n: nat)
    requires n > 0
  {
    Wrap(turns + 1) + n <= COUNTER_MOD || Rem(COUNTER_MOD, n) == 0
  }

  /**
   Each partition has its turn exactly once, if and only if the counter does not wrap in between or the number of
   partitions divides its modulus.
   */
  lemma {:induction false} TurnsOnce(turns: nat, n: nat)
    requires 0 < n <= COUNTER_MOD
    ensures NoDup(Turns(turns, n, n)) <==> Steady(turns, n)
  {
    var v := Turns(turns, n, n);
    if Steady(turns, n) {
      forall i, j | 0 <= i < j < n ensures v[i] != v[j] {
        TurnsAt(turns, n, n, i);
        TurnsAt(turns, n, n, j);
        TurnsDiffer(turns, n, i, j);
      }
    } else {
      var i, j := TurnTwice(turns, n);
      TurnsAt(turns, n, n, i);
      TurnsAt(turns, n, n, j);
    }
  }

  lemma {:induction false} TurnsDiffer(turns: nat, n: nat, i: nat, j: nat)
    requires i < j < n <= COUNTER_MOD && Steady(turns, n)
    ensures Turn(turns + i, n) != Turn(turns + j, n)
  {
    if Rem(COUNTER_MOD, n) == 0 {
      WrappedDiffer(turns + i + 1, j - i, n);
    } else {
      UnwrappedDiffer(turns + 1, n, i, j);
    }
  }

  lemma {:induction false} WrappedDiffer(x: nat, d: nat, n: nat)
    requires 0 < d < n && Rem(COUNTER_MOD, n) == 0
    ensures Rem(Wrap(x), n) != Rem(Wrap(x + d), n)
  {
    WrapDivides(x, n);
    WrapDivides(x + d, n);
    RemDiffer(x, d, n);
  }

  lemma {:induction false} UnwrappedDiffer(x: nat, n: nat, i: nat, j: nat)
    requires i < j < n && Wrap(x) + n <= COUNTER_MOD
    ensures Rem(Wrap(x + i), n) != Rem(Wrap(x + j), n)
  {
    WrapGoes(x, i);
    WrapGoes(x, j);
    RemDiffer(Wrap(x) + i, j - i, n);
  }

  lemma {:induction false} TurnTwice(turns: nat, n: nat) returns (i: nat, j: nat)
    requires 0 < n <= COUNTER_MOD && !Steady(turns, n)
    ensures i < j < n && Turn(turns + i, n) == Turn(turns + j, n)
  {
    var w, m := COUNTER_MOD - Wrap(turns + 1), Rem(COUNTER_MOD, n);
    RemLess(COUNTER_MOD, n);
    if m >= w {
      i, j := 0, m;
      WrapGoes(turns + 1, m);
      RemAdd(m - w, COUNTER_MOD - m, n);
    } else {
      i, j := w - m, w;
      WrapGoes(turns + 1, w - m);
      WrapGoes(turns + 1, w);
    }
  }

  // ----- what is collected -----

  /** The context at `j` is to go, once those before it are gone. */
  predicate Due(q: seq<ContextId>, j: nat, maxPart: nat, expired: set<ContextId>) {
    j < |q| && (|q| - j > maxPart || q[j] in expired)
  }

  /** The first `k` contexts of `q`, the least recently used, have been collected, each of them for a reason. */
  ghost predicate Taken(q: seq<ContextId>, q': seq<ContextId>, k: nat, maxPart: nat, expired: set<ContextId>) {
    k <= |q| && q' == q[k..] && forall j :: 0 <= j < k ==> Due(q, j, maxPart, expired)
  }

  lemma {:induction false} TakenNext(q: seq<ContextId>, q': seq<ContextId>, k: nat, maxPart: nat, expired: set<ContextId>)
    requires Taken(q, q', k, maxPart, expired) && Due(q', 0, maxPart, expired)
    ensures Taken(q, q'[1..], k + 1, maxPart, expired)
  {
    assert Due(q, k, maxPart, expired);
  }

  lemma {:induction false} TakenTwice(q: seq<ContextId>, q': seq<ContextId>, q'': seq<ContextId>, k: nat, l: nat,
                                      maxPart: nat, expired: set<ContextId>)
    requires Taken(q, q', k, maxPart, expired) && Taken(q', q'', l, maxPart, expired)
    ensures Taken(q, q'', k + l, maxPart, expired)
  {
    forall j | 0 <= j < k + l ensures Due(q, j, maxPart, expired) {
      if j >= k { assert Due(q', j - k, maxPart, expired); }
    }
  }

  /**
   From `was` to `now` each partition has lost the first `ks[p]` contexts of its queue, for a reason, and only
   partitions that were visited have changed; while the budget lasts, what is left in those is not due.
   */
  ghost predicate Swept(was: seq<Part>, now: seq<Part>, ks: seq<nat>, visited: seq<nat>, maxPart: nat,
                        expired: set<ContextId>, budget: bool)
  {
    |was| == |now| == |ks| && (
      && (forall p :: 0 <= p < |was| ==> Taken(was[p].queue, now[p].queue, ks[p], maxPart, expired))
      && (forall p :: 0 <= p < |was| && p !in visited ==> now[p] == was[p])
      && (budget ==> forall p :: 0 <= p < |was| && p in visited ==> !Due(now[p].queue, 0, maxPart, expired))
    ) == true  // one fact: the verifier does not split it
  }

  lemma {:induction false} SweptNext(was: seq<Part>, now: seq<Part>, now': seq<Part>, ks: seq<nat>, visited: seq<nat>,
                                     p: nat, k: nat, maxPart: nat, expired: set<ContextId>, budget: bool)
    requires Swept(was, now, ks, visited, maxPart, expired, true) && p < |was| == |now'|
    requires forall q :: 0 <= q < |was| && q != p ==> now'[q] == now[q]
    requires Taken(now[p].queue, now'[p].queue, k, maxPart, expired)
    requires budget ==> !Due(now'[p].queue, 0, maxPart, expired)
    ensures Swept(was, now', ks[p := ks[p] + k], visited + [p], maxPart, expired, budget)
  {
    TakenTwice(was[p].queue, now[p].queue, now'[p].queue, ks[p], k, maxPart, expired);
    AllTaken(was, now, now', ks, p, ks[p] + k, maxPart, expired);
  }

  lemma {:induction false} AllTaken(was: seq<Part>, now: seq<Part>, now': seq<Part>, ks: seq<nat>, p: nat, k: nat,
                                    maxPart: nat, expired: set<ContextId>)
    requires p < |was| == |now| == |now'| == |ks|
    requires forall q :: 0 <= q < |was| ==> Taken(was[q].queue, now[q].queue, ks[q], maxPart, expired)
    requires forall q :: 0 <= q < |was| && q != p ==> now'[q] == now[q]
    requires Taken(was[p].queue, now'[p].queue, k, maxPart, expired)
    ensures forall q :: 0 <= q < |was| ==> Taken(was[q].queue, now'[q].queue, ks[p := k][q], maxPart, expired)
  {
    forall q | 0 <= q < |was| ensures Taken(was[q].queue, now'[q].queue, ks[p := k][q], maxPart, expired) {
      if q != p {
        assert now'[q] == now[q] && ks[p := k][q] == ks[q];
      }
    }
  }

  lemma {:induction false} WithoutHead(q: seq<ContextId>)
    requires NoDup(q) && q != []
    ensures Without(q, q[0]) == q[1..]
  {
    WithoutNone(q[1..], q[0]);
  }

  lemma {:induction false} WithoutNone(q: seq<ContextId>, g: ContextId)
    requires g !in q
    ensures Without(q, g) == q
  {
    if q != [] { WithoutNone(q[1..], g); }
  }

  function Sum(ks: seq<nat>): nat {
    if ks == [] then 0 else ks[0] + Sum(ks[1..])
  }

  lemma {:induction false} SumUpdate(ks: seq<nat>, p: nat, k: nat)
    requires p < |ks|
    ensures Sum(ks[p := ks[p] + k]) == Sum(ks) + k
  {
    if p == 0 {
      assert ks[p := ks[p] + k][1..] == ks[1..];
    } else {
      assert ks[p := ks[p] + k][1..] == ks[1..][p - 1 := ks[1..][p - 1] + k];
      SumUpdate(ks[1..], p - 1, k);
    }
  }

  lemma {:induction false} SumZero(n: nat)
    ensures Sum(seq(n, i => 0)) == 0
  {
    if n > 0 {
      assert seq(n, i => 0)[1..] == seq(n - 1, i => 0);
      SumZero(n - 1);
    }
  }

  ghost predicate AllSound(parts: seq<Part>, names: Names) {
    (forall p :: 0 <= p < |parts| ==> Sound(parts[p], names)) == true  // one fact: the verifier does not split it
  }

  /** `turns` and `live` are what the two 32-bit counters would be without wrapping. */
  class ContextCache {
    const maxPart: nat
    const maxGc: nat
    const names: Names
    var parts: seq<Part>
    var total: nat
    var idleNext: nat
    ghost var turns: nat
    ghost var live: int

    constructor (n: nat, names: Names, maxPart: nat, maxGc: nat)
      requires n > 0
      ensures Valid() && |parts| == n && live == 0 && forall p :: 0 <= p < n ==> parts[p] == EMPTY_PART
      ensures this.names == names && this.maxPart == maxPart && this.maxGc == maxGc
    {
      this.names, this.maxPart, this.maxGc := names, maxPart, maxGc;
      parts := seq(n, i => EMPTY_PART);
      total, idleNext, live, turns := 0, 0, 0, 0;
    }

    ghost predicate Valid()
      reads this
    {
      |parts| > 0 && Counts() && AllSound(parts, names)
    }

    ghost predicate Counts()
      reads this
    {
      (total == Wrap(live) && idleNext == Wrap(turns)) == true  // one fact: the verifier does not split it
    }

    method IdleNext() returns (p: nat)
      requires Valid()
      modifies this`idleNext, this`turns
      ensures Valid() && turns == old(turns) + 1 && p == Turn(old(turns), |parts|)
    {
      WrapAdds(turns, 1);
      idleNext := Wrap(idleNext + 1);
      turns := turns + 1;
      RemIsMod(idleNext, |parts|);
      p := idleNext % |parts|;
    }

    /** Takes the least recently used context off the queue. */
    method RemoveHead(p: nat)
      requires Valid() && p < |parts| && parts[p].queue != []
      modifies this`parts, this`total, this`live
      ensures Valid() && |parts| == |old(parts)| && parts[p].queue == old(parts[p].queue)[1..]
      ensures forall q :: 0 <= q < |parts| && q != p ==> parts[q] == old(parts[q])
      ensures live == old(live) - 1
    {
      var g := parts[p].queue[0];
      assert Sound(parts[p], names);
      DequeueSound(parts[p], names, names[g], g);
      WithoutHead(parts[p].queue);
      WrapAdds(live, -1);
      parts := parts[p := Dequeue(parts[p], names, names[g], g)];
      total := Wrap(total - 1);
      live := live - 1;
    }

    /** Collects from one partition while its oldest context is due and the budget lasts. */
    method CollectPart(p: nat, expired: set<ContextId>, cnt: nat) returns (cnt': nat)
      requires Valid() && p < |parts| && cnt < maxGc
      modifies this`parts, this`total, this`live
      ensures Valid() && |parts| == |old(parts)| && cnt <= cnt' <= maxGc
      ensures forall q :: 0 <= q < |parts| && q != p ==> parts[q] == old(parts[q])
      ensures Taken(old(parts[p].queue), parts[p].queue, cnt' - cnt, maxPart, expired)
      ensures cnt' < maxGc ==> !Due(parts[p].queue, 0, maxPart, expired)
      ensures live == old(live) - (cnt' - cnt)
    {
      cnt' := cnt;
      while cnt' < maxGc && parts[p].queue != [] && (parts[p].size > maxPart || parts[p].queue[0] in expired)
        invariant Valid() && |parts| == |old(parts)| && cnt <= cnt' <= maxGc
        invariant forall q :: 0 <= q < |parts| && q != p ==> parts[q] == old(parts[q])
        invariant Taken(old(parts[p].queue), parts[p].queue, cnt' - cnt, maxPart, expired)
        invariant live == old(live) - (cnt' - cnt)
      {
        assert Sound(parts[p], names);
        TakenNext(old(parts[p].queue), parts[p].queue, cnt' - cnt, maxPart, expired);
        RemoveHead(p);
        cnt' := cnt' + 1;
      }
      assert Sound(parts[p], names);
    }

    /** One turn of the collector. */
    method CollectTurn(p: nat, expired: set<ContextId>, cnt: nat, ghost was: seq<Part>, ghost ks: seq<nat>, ghost visited: seq<nat>)
      returns (cnt': nat, ghost ks': seq<nat>)
      requires Valid() && p < |parts| && cnt < maxGc && cnt == Sum(ks)
      requires Swept(was, parts, ks, visited, maxPart, expired, true)
      modifies this`parts, this`total, this`live
      ensures Valid() && cnt' == Sum(ks') <= maxGc && live == old(live) - (cnt' - cnt)
      ensures Swept(was, parts, ks', visited + [p], maxPart, expired, cnt' < maxGc)
    {
      cnt' := CollectPart(p, expired, cnt);
      ghost var k: nat := cnt' - cnt;
      ks' := ks[p := ks[p] + k];
      SumUpdate(ks, p, k);
      assert Swept(was, parts, ks', visited + [p], maxPart, expired, cnt' < maxGc) by {
        SweptNext(was, old(parts), parts, ks, visited, p, k, maxPart, expired, cnt' < maxGc);
      }
    }

    /** Where the collector is: it has visited some partitions, and `p` is next. */
    ghost predicate Sweeping(was: seq<Part>, start: nat, expired: set<ContextId>, cnt: nat, ks: seq<nat>, visited: seq<nat>, p: nat)
      reads this
    {
      |parts| > 0 && (
        && cnt == Sum(ks) <= maxGc && Swept(was, parts, ks, visited, maxPart, expired, cnt < maxGc)
        && visited == Turns(start, |visited|, |parts|) && turns == start + |visited| + 1
        && p == Turn(start + |visited|, |parts|)
      ) == true  // one fact: the verifier does not split it
    }

    method VisitNext(p: nat, expired: set<ContextId>, cnt: nat, ghost was: seq<Part>, ghost start: nat, ghost ks: seq<nat>, visited: seq<nat>)
      returns (p': nat, cnt': nat, ghost ks': seq<nat>, visited': seq<nat>)
      requires Valid() && cnt < maxGc && Sweeping(was, start, expired, cnt, ks, visited, p)
      modifies this`parts, this`total, this`idleNext, this`turns, this`live
      ensures Valid() && |parts| == |old(parts)| && Sweeping(was, start, expired, cnt', ks', visited', p')
      ensures |visited'| == |visited| + 1 && live == old(live) - (cnt' - cnt)
    {
      cnt', ks' := CollectTurn(p, expired, cnt, was, ks, visited);
      visited' := visited + [p];
      p' := IdleNext();
    }

    /**
     Goes round the partitions once.  `ks` tells how many contexts each partition has lost, `visited` in which order
     they were looked at.
     */
    method CollectIdle(expired: set<ContextId>) returns (cnt: nat, ghost ks: seq<nat>, visited: seq<nat>)
      requires Valid()
      modifies this`parts, this`total, this`idleNext, this`turns, this`live
      ensures Valid() && cnt == Sum(ks) <= maxGc
      ensures Swept(old(parts), parts, ks, visited, maxPart, expired, cnt < maxGc)
      ensures |visited| <= |parts| && (cnt < maxGc ==> |visited| == |parts|)
      ensures visited == Turns(old(turns), |visited|, |parts|)
      ensures live == old(live) - cnt && turns == old(turns) + |visited| + 2
    {
      cnt, visited := 0, [];
      ks := seq(|parts|, i => 0);
      SumZero(|parts|);
      var p := IdleNext();
      while |visited| < |parts| && cnt < maxGc
        invariant Valid() && |parts| == |old(parts)| && |visited| <= |parts| && live == old(live) - cnt
        invariant Sweeping(old(parts), old(turns), expired, cnt, ks, visited, p)
        decreases |parts| - |visited|
      {
        p, cnt, ks, visited := VisitNext(p, expired, cnt, old(parts), old(turns), ks, visited);
      }
      p := IdleNext();
    }
  }

  /** When every partition has its turn exactly once, the partitions visited are all of them. */
  lemma {:induction false} VisitsAll(turns: nat, n: nat, p: nat)
    requires p < n && NoDup(Turns(turns, n, n))
    ensures p in Turns(turns, n, n)
  {
    var v := Turns(turns, n, n);
    forall i | 0 <= i < n ensures v[i] < n { TurnsAt(turns, n, n, i); }
    if p !in v {
      Pigeon(v + [p], n);
    }
  }

  /** So a call that stops short of its budget leaves every partition empty, or small with an unexpired head. */
  lemma {:induction false} AllSettled(was: seq<Part>, now: seq<Part>, ks: seq<nat>, turns: nat, maxPart: nat,
                                      expired: set<ContextId>, p: nat)
    requires p < |was| <= COUNTER_MOD && Steady(turns, |was|)
    requires Swept(was, now, ks, Turns(turns, |was|, |was|), maxPart, expired, true)
    ensures now[p].queue == [] || (|now[p].queue| <= maxPart && now[p].queue[0] !in expired)
  {
    TurnsOnce(turns, |was|);
    VisitsAll(turns, |was|, p);
  }

  /** What is taken off a queue, by number: the longest run of contexts that are expired or too many, while the budget lasts. */
  lemma {:induction false} TakenMeans(q: seq<ContextId>, q': seq<ContextId>, k: nat, maxPart: nat, expired: set<ContextId>, budget: bool)
    requires Taken(q, q', k, maxPart, expired) && (budget ==> !Due(q', 0, maxPart, expired))
    ensures k <= |q| && q' == q[k..] && forall j :: 0 <= j < k ==> |q| - j > maxPart || q[j] in expired
    ensures budget ==> k == |q| || (|q| - k <= maxPart && q[k] !in expired)
  {
    forall j | 0 <= j < k ensures |q| - j > maxPart || q[j] in expired {
      assert Due(q, j, maxPart, expired);
    }
  }

  /** A context that is neither expired nor too many, with those younger than it, stays queued, and so do they. */
  lemma {:induction false} YoungStay(was: seq<Part>, now: seq<Part>, ks: seq<nat>, visited: seq<nat>, maxPart: nat,
                                     expired: set<ContextId>, budget: bool, p: nat, j: nat)
    requires Swept(was, now, ks, visited, maxPart, expired, budget) && p < |was| && j < |was[p].queue|
    requires |was[p].queue| - j <= maxPart && was[p].queue[j] !in expired
    ensures forall i :: j <= i < |was[p].queue| ==> was[p].queue[i] in now[p].queue
  {
    var q, k := was[p].queue, ks[p];
    assert Taken(q, now[p].queue, k, maxPart, expired);
    assert !Due(q, j, maxPart, expired);
    forall i | j <= i < |q| ensures q[i] in now[p].queue {
      assert now[p].queue[i - k] == q[i];
    }
  }

  /** There are no more than `n` different numbers below `n`. */
  lemma {:induction false} Pigeon(s: seq<nat>, n: nat)
    requires forall i :: 0 <= i < |s| ==> s[i] < n
    requires NoDup(s)
    ensures |s| <= n
  {
    assert |s| > 0 ==> s[0] < n;
    if n > 0 {
      if k :| 0 <= k < |s| && s[k] == n - 1 {
        Pigeon(s[..k] + s[k + 1..], n - 1);
      } else {
        Pigeon(s, n - 1);
      }
    }
  }
}
