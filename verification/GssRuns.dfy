/**
 What holds in every state that the threads of the GSS context cache can reach, whatever their interleaving: nothing
 is freed too early or twice, the sizes are right, and turning RPCSEC_GSS off empties the cache.
 */
module GssRuns {
  import opened Basics
  import opened GssCache
  import opened GssThreads
  import opened GssMachine

  lemma {:induction false} StartInv(s: State)
    requires Start(s)
    ensures Inv(s)
  {
    forall g ensures TokenSum(s.threads, g) == 0 { IdleTokens(s.threads, g); }
    IdleOwes(s.threads);
    EmptySizes(s.parts);
    forall p | 0 <= p < |s.parts| ensures PartOk(s, p) { }
  }

  lemma {:induction false} IdleTokens(threads: seq<Thread>, g: ContextId)
    requires forall t :: 0 <= t < |threads| ==> threads[t].at == Idle
    ensures TokenSum(threads, g) == 0
  {
    if threads != [] { IdleTokens(threads[1..], g); }
  }

  lemma {:induction false} IdleOwes(threads: seq<Thread>)
    requires forall t :: 0 <= t < |threads| ==> Owed(threads[t].at) == 0
    ensures OwedSum(threads) == 0
  {
    if threads != [] { IdleOwes(threads[1..]); }
  }

  lemma {:induction false} EmptySizes(parts: seq<Part>)
    requires forall p :: 0 <= p < |parts| ==> parts[p] == EMPTY_PART
    ensures SizeSum(parts) == 0
  {
    if parts != [] { EmptySizes(parts[1..]); }
  }

  /** Every state of every run satisfies the invariant. */
  lemma {:induction false} RunInv(run: seq<State>, i: nat)
    requires IsRun(run) && i < |run|
    ensures Inv(run[i])
  {
    if i == 0 {
      StartInv(run[0]);
    } else {
      RunInv(run, i - 1);
      assert NextAt(run, i - 1);
      var t, op, b :| Step(run[i - 1], t, op, b, run[i]);
      InvKept(run[i - 1], t, op, b, run[i]);
    }
  }

  /** The part of it that tells about the queues. */
  lemma {:induction false} RunQueues(run: seq<State>, i: nat)
    requires IsRun(run) && i < |run|
    ensures PartsOk(run[i]) && Unqueued(run[i]) && Exclusive(run[i])
  {
    RunInv(run, i);
  }

  // ----- references -----

  /**
   In every reachable state the reference count of a context is one if it is queued, plus the references of all
   threads; a context is freed exactly when that is nothing, so never while it is queued or used.
   */
  lemma {:induction false} References(run: seq<State>, i: nat, g: ContextId, p: nat, t: nat)
    requires IsRun(run) && i < |run| && g in run[i].ctxs && p < |run[i].parts| && t < |run[i].threads|
    ensures |run[i].parts| > 0 && run[i].ctxs[g].refcnt == Sentinel(run[i], g) + TokenSum(run[i].threads, g)
    ensures run[i].ctxs[g].freed <==> run[i].ctxs[g].refcnt == 0
    ensures g in run[i].parts[p].queue || Tokens(run[i].threads[t], g) > 0 ==> !run[i].ctxs[g].freed
  {
    RunInv(run, i);
    assert CountOk(run[i], g);
    assert PartOk(run[i], p);
    TokenSumUpdate(run[i].threads, t, run[i].threads[t], g);
  }

  /** The context an operation works on. */
  function Touched(op: Op): Option<ContextId> {
    if op.Route? || op.Goto? || op.TakeContext? || op.DropContext? || op.Ref? || op.Deref? || op.Unref? || op.Insert?
      || op.Hit? || op.Remove? || op.Absent? || op.Head?
    then Some(op.g) else None
  }

  /** No step touches a freed context, and a freed context never changes: it is freed once. */
  lemma {:induction false} FreedOnce(run: seq<State>, i: nat, t: nat, op: Op, b: Thread, s': State, g: ContextId)
    requires IsRun(run) && i < |run| && Step(run[i], t, op, b, s') && g in run[i].ctxs && run[i].ctxs[g].freed
    ensures Touched(op) != Some(g) && g in s'.ctxs && s'.ctxs[g] == run[i].ctxs[g]
  {
    var s := run[i];
    RunInv(run, i);
    assert CountOk(s, g);
    EdgeFollows(|s.parts|, s.threads[t], op, b);
    if Touched(op) == Some(g) {
      TouchedAlive(s, t, op, b, s', g);
    }
    UntouchedSame(s, t, op, b, s', g);
  }

  lemma {:induction false} UntouchedSame(s: State, t: nat, op: Op, b: Thread, s': State, g: ContextId)
    requires Move(s, t, op, b, s') && g in s.ctxs && Touched(op) != Some(g)
    ensures g in s'.ctxs && s'.ctxs[g] == s.ctxs[g]
  {
  }

  lemma {:induction false} TouchedAlive(s: State, t: nat, op: Op, b: Thread, s': State, g: ContextId)
    requires Move(s, t, op, b, s') && WorkFollows(|s.parts|, s.threads[t], op, b) && PartsOk(s) && Aims(s)
    requires |s.parts| > 0 && g in s.ctxs && CountOk(s, g) && Touched(op) == Some(g)
    ensures !s.ctxs[g].freed
  {
    TokenSumUpdate(s.threads, t, b, g);
    if op.Hit? {
      assert PartOk(s, op.p);
      TouchSound(s.parts[op.p], NamesOf(s.ctxs), op.k, op.g);
    } else if op.Head? {
      assert PartOk(s, op.p);
    }
  }

  // ----- sizes and order -----

  /**
   In every reachable state a partition counts its queue, holds each context once and in the order of last use, and
   has nothing in its tree or slots that is not queued; the global size is right but for what is still to be counted.
   */
  lemma {:induction false} Sizes(run: seq<State>, i: nat, p: nat)
    requires IsRun(run) && i < |run| && p < |run[i].parts|
    ensures var part := run[i].parts[p];
      && part.size == |part.queue| && NoDup(part.queue) && Young(part.queue, run[i].ctxs, run[i].clock)
      && forall k :: k in part.tree ==> part.tree[k] in part.queue
    ensures run[i].total == Wrap(SizeSum(run[i].parts) - OwedSum(run[i].threads))
  {
    RunInv(run, i);
    assert PartOk(run[i], p);
  }

  /** Between counts the global size is the number of queued contexts. */
  lemma {:induction false} SettledTotal(run: seq<State>, i: nat)
    requires IsRun(run) && i < |run| && SizeSum(run[i].parts) < COUNTER_MOD
    requires forall t :: 0 <= t < |run[i].threads| ==> Owed(run[i].threads[t].at) == 0
    ensures run[i].total == SizeSum(run[i].parts)
  {
    RunInv(run, i);
    IdleOwes(run[i].threads);
  }

  // ----- turning RPCSEC_GSS off -----

  /**
   While RPCSEC_GSS is off, a partition that the clearing thread has passed is empty, and no request that checked the
   switch earlier is about to insert into it.
   */
  lemma {:induction false} OffStaysEmpty(run: seq<State>, i: nat, p: nat)
    requires IsRun(run) && i < |run| && p < |run[i].parts| && Passed(run[i], p)
    ensures run[i].parts[p] == EMPTY_PART && NoInsertAt(run[i], p)
  {
    RunInv(run, i);
  }

  /** So when the switch is off and no clearing goes on, the whole cache is empty. */
  lemma {:induction false} OffIsEmpty(run: seq<State>, i: nat, p: nat)
    requires IsRun(run) && i < |run| && p < |run[i].parts| && !run[i].enabled
    requires forall t :: 0 <= t < |run[i].threads| ==> !Clearing(run[i].threads[t])
    ensures run[i].parts[p] == EMPTY_PART
  {
    assert Passed(run[i], p);
    OffStaysEmpty(run, i, p);
  }

  /** A passed partition stays passed until RPCSEC_GSS is turned on again. */
  lemma {:induction false} PassedUntilOn(run: seq<State>, i: nat, j: nat, p: nat)
    requires IsRun(run) && i <= j < |run| && p < |run[i].parts| && Passed(run[i], p)
    requires forall m :: i <= m <= j ==> !run[m].enabled
    ensures p < |run[j].parts| && Passed(run[j], p) && run[j].parts[p] == EMPTY_PART
    decreases j - i
  {
    RunInv(run, i);
    if i < j {
      assert NextAt(run, i);
      var t, op, b :| Step(run[i], t, op, b, run[i + 1]);
      PassedStays(run[i], t, op, b, run[i + 1], p);
      PassedUntilOn(run, i + 1, j, p);
    }
  }

  lemma {:induction false} PassedStays(s: State, t: nat, op: Op, b: Thread, s': State, p: nat)
    requires Step(s, t, op, b, s') && p < |s.parts| && Passed(s, p) && !s'.enabled
    ensures p < |s'.parts| && Passed(s', p)
  {
    NamesKept(s, t, op, b, s');
    EdgeFollows(|s.parts|, s.threads[t], op, b);
    EdgeOff(s, t, op, b, s');
  }

  lemma {:induction false} EdgeOff(s: State, t: nat, op: Op, b: Thread, s': State)
    requires Move(s, t, op, b, s') && !s.enabled && !s'.enabled
    ensures !op.Switch?
  {
  }
}
