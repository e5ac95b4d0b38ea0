/**
 What the requests to the GSS context cache achieve: one that puts a context in, one that looks a context up, one that
 destroys a context, and one that turns RPCSEC_GSS on or off.
 */
module GssRequests {
  import opened Basics
  import opened GssCache
  import opened GssThreads
  import opened GssMachine
  import opened GssRuns
  import opened GssTraps
  import opened GssLookups

  // ----- putting a context in -----

  /** On the way to the insertion of `g`. */
  predicate Setting(a: Thread, g: ContextId) {
    a.at.Set? && BeforeInsert(a.at) && a.g == g
  }

  lemma {:induction false} SettingEdges(n: nat, a: Thread, op: Op, b: Thread)
    requires Edge(n, a, op, b) && Setting(a, a.g) && op != Flag(false)
    ensures Setting(b, a.g) || op == Insert(a.p, a.g)
  {
  }

  lemma {:induction false} SettingStep(s: State, u: nat, op: Op, b: Thread, s': State, t: nat, g: ContextId)
    requires Step(s, u, op, b, s') && PartsOk(s) && s.enabled && t < |s.threads| && Setting(s.threads[t], g)
    ensures Setting(s'.threads[t], g) || Queued(s', g)
  {
    if u == t {
      SettingEdges(|s.parts|, s.threads[t], op, b);
      if op.Insert? {
        assert PartOk(s, op.p);
        QueuedAfter(s, u, op, b, s', op.p, g);
      }
    }
  }

  lemma {:induction false} SettingNext(run: seq<State>, l: nat, t: nat, g: ContextId)
    requires IsRun(run) && l + 1 < |run| && run[l].enabled && t < |run[l].threads| && Setting(run[l].threads[t], g)
    ensures t < |run[l + 1].threads| && (Setting(run[l + 1].threads[t], g) || Queued(run[l + 1], g))
  {
    RunQueues(run, l);
    var u, op, b := LastStep(run, l + 1);
    SettingStep(run[l], u, op, b, run[l + 1], t, g);
  }

  lemma {:induction false} ThreadsStay(run: seq<State>, i: nat, j: nat)
    requires IsRun(run) && i <= j < |run|
    ensures |run[j].threads| == |run[i].threads|
  {
    if i < j {
      ThreadsStay(run, i, j - 1);
      assert NextAt(run, j - 1);
    }
  }

  /** While RPCSEC_GSS stays on, a request that puts its context into the cache gets on until it has done so. */
  lemma {:induction false} SetQueues(run: seq<State>, i: nat, j: nat, t: nat)
    requires IsRun(run) && i <= j < |run| && t < |run[i].threads| && Setting(run[i].threads[t], run[i].threads[t].g)
    requires forall l :: i <= l < j ==> run[l].enabled
    ensures t < |run[j].threads| && (Setting(run[j].threads[t], run[i].threads[t].g) || WasQueued(run, j, run[i].threads[t].g))
  {
    if i < j {
      var g := run[i].threads[t].g;
      SetQueues(run, i, j - 1, t);
      ThreadsStay(run, i, j);
      if Setting(run[j - 1].threads[t], g) {
        SettingNext(run, j - 1, t, g);
      } else {
        var l :| 0 <= l <= j - 1 && Queued(run[l], g);
      }
    }
  }

  // ----- destroying a context -----

  /** Context `g` has been put into the cache, or never will be. */
  ghost predicate Settled(s: State, g: ContextId) {
    g in s.ctxs && forall u :: 0 <= u < |s.threads| && BeforeInsert(s.threads[u].at) ==> s.threads[u].g != g
  }

  lemma {:induction false} SettledKept(s: State, u: nat, op: Op, b: Thread, s': State, g: ContextId)
    requires Move(s, u, op, b, s') && InsertFollows(s.threads[u], op, b) && Settled(s, g)
    ensures Settled(s', g)
  {
    NamesKept(s, u, op, b, s');
  }

  lemma {:induction false} GoneKept(s: State, u: nat, op: Op, b: Thread, s': State, g: ContextId)
    requires Move(s, u, op, b, s') && InsertFollows(s.threads[u], op, b) && PartsOk(s) && Settled(s, g) && !Queued(s, g)
    ensures !Queued(s', g)
  {
    NamesKept(s, u, op, b, s');
    forall p | 0 <= p < |s'.parts| ensures g !in s'.parts[p].queue {
      assert PartOk(s, p);
      QueuedAfter(s, u, op, b, s', p, g);
    }
  }

  lemma {:induction false} QueuedSettles(s: State, g: ContextId)
    requires PartsOk(s) && Unqueued(s) && Queued(s, g)
    ensures Settled(s, g)
  {
    var p :| 0 <= p < |s.parts| && g in s.parts[p].queue;
    assert PartOk(s, p);
  }

  lemma {:induction false} SettledAfter(run: seq<State>, i: nat, g: ContextId)
    requires IsRun(run) && i < |run| && WasQueued(run, i, g)
    ensures Settled(run[i], g)
  {
    RunQueues(run, i);
    if Queued(run[i], g) {
      QueuedSettles(run[i], g);
    } else {
      var l :| 0 <= l <= i && Queued(run[l], g);
      SettledAfter(run, i - 1, g);
      var u, op, b := LastStep(run, i);
      SettledKept(run[i - 1], u, op, b, run[i], g);
    }
  }

  lemma {:induction false} GoneStays(run: seq<State>, i: nat, j: nat, g: ContextId)
    requires IsRun(run) && i <= j < |run| && Settled(run[i], g) && !Queued(run[i], g)
    ensures Settled(run[j], g) && !Queued(run[j], g)
  {
    if i < j {
      GoneStays(run, i, j - 1, g);
      RunQueues(run, j - 1);
      var u, op, b := LastStep(run, j);
      SettledKept(run[j - 1], u, op, b, run[j], g);
      GoneKept(run[j - 1], u, op, b, run[j], g);
    }
  }

  /** A context that has been taken out of the cache does not come back. */
  lemma {:induction false} GoneForGood(run: seq<State>, i: nat, j: nat, g: ContextId)
    requires IsRun(run) && i <= j < |run| && WasQueued(run, i, g) && !Queued(run[i], g)
    ensures !Queued(run[j], g)
  {
    SettledAfter(run, i, g);
    GoneStays(run, i, j, g);
  }

  /** About to delete `g`, and not yet done. */
  predicate Deleting(a: Thread, g: ContextId) {
    (a.at == Use(Destroying) || Looking(a.at)) && a.g == g
  }

  lemma {:induction false} DeletingEdges(n: nat, a: Thread, op: Op, b: Thread)
    requires Edge(n, a, op, b) && Deleting(a, a.g)
    ensures Deleting(b, a.g) || op == Absent(a.p, a.g) || op == Remove(a.p, a.g)
  {
  }

  lemma {:induction false} RemovedIsGone(s: State, u: nat, op: Op, b: Thread, s': State, p: nat, g: ContextId)
    requires Move(s, u, op, b, s') && PartsOk(s) && (op == Absent(p, g) || op == Remove(p, g))
    ensures !Queued(s', g)
  {
    NamesKept(s, u, op, b, s');
    forall q | 0 <= q < |s'.parts| ensures g !in s'.parts[q].queue {
      assert PartOk(s, q);
      if op.Remove? { assert PartOk(s, p); }
      QueuedAfter(s, u, op, b, s', q, g);
    }
  }

  lemma {:induction false} DeletingSettled(run: seq<State>, i: nat, t: nat)
    requires IsRun(run) && i < |run| && t < |run[i].threads| && Deleting(run[i].threads[t], run[i].threads[t].g)
    ensures Settled(run[i], run[i].threads[t].g)
  {
    RunInv(run, i);
    TokenSumUpdate(run[i].threads, t, run[i].threads[t], run[i].threads[t].g);
  }

  lemma {:induction false} DeletingNext(run: seq<State>, l: nat, t: nat, g: ContextId)
    requires IsRun(run) && l + 1 < |run| && t < |run[l].threads| && Deleting(run[l].threads[t], g)
    ensures t < |run[l + 1].threads| && (Deleting(run[l + 1].threads[t], g) || !Queued(run[l + 1], g))
  {
    RunQueues(run, l);
    var u, op, b := LastStep(run, l + 1);
    if u == t {
      DeletingEdges(|run[l].parts|, run[l].threads[t], op, b);
      if !Deleting(b, g) { RemovedIsGone(run[l], u, op, b, run[l + 1], run[l].threads[t].p, g); }
    }
  }

  /** A request that destroys a context gets on until the context is in no queue, and never will be again. */
  lemma {:induction false} DestroyedIsGone(run: seq<State>, i: nat, j: nat, t: nat)
    requires IsRun(run) && i <= j < |run| && t < |run[i].threads| && Deleting(run[i].threads[t], run[i].threads[t].g)
    ensures t < |run[j].threads|
    ensures var g := run[i].threads[t].g;
      Deleting(run[j].threads[t], g) || (Settled(run[j], g) && !Queued(run[j], g))
  {
    if i < j {
      var g := run[i].threads[t].g;
      DestroyedIsGone(run, i, j - 1, t);
      ThreadsStay(run, i, j);
      if Deleting(run[j - 1].threads[t], g) {
        DeletingSettled(run, j - 1, t);
        DeletingNext(run, j - 1, t, g);
        var u, op, b := LastStep(run, j);
        SettledKept(run[j - 1], u, op, b, run[j], g);
      } else {
        GoneStays(run, j - 1, j, g);
      }
    }
  }

  // ----- looking a context up -----

  predicate Asks(a: Thread, k: Key) {
    Searching(a.at) && a.k == k
  }

  /** The only context queued under `k` in the whole cache. */
  ghost predicate OnlyOne(s: State, g: ContextId, k: Key) {
    |s.parts| > 0 && forall q: nat, h: ContextId :: QueuedAs(s, q, h, k) <==> q == Home(k, |s.parts|) && h == g
  }

  ghost predicate NoneQueued(s: State, k: Key) {
    forall q: nat, h: ContextId :: !QueuedAs(s, q, h, k)
  }

  /** A thread goes on as `a`: it has got the one context queued under `k`, or there is none. */
  ghost predicate Answered(s: State, a: Thread, k: Key) {
    (a.at == Get(GetHit) && OnlyOne(s, a.g, k)) || (a.at == Get(GetMiss) && NoneQueued(s, k))
  }

  lemma {:induction false} AskEdges(n: nat, a: Thread, op: Op, b: Thread)
    requires Edge(n, a, op, b) && Searching(a.at) && op != Flag(false)
    ensures Asks(b, a.k) || (op == Miss(a.p, a.k) && b.at == Get(GetMiss)) || (op == Hit(a.p, a.k, b.g) && b.at == Get(GetHit))
  {
  }

  lemma {:induction false} AskNext(run: seq<State>, l: nat, t: nat, k: Key)
    requires IsRun(run) && FreshInserts(run) && l + 1 < |run| && run[l].enabled
    requires t < |run[l].threads| && Asks(run[l].threads[t], k)
    ensures t < |run[l + 1].threads| && (Asks(run[l + 1].threads[t], k) || Answered(run[l], run[l + 1].threads[t], k))
  {
    var u, op, b := LastStep(run, l + 1);
    if u == t {
      AskEdges(|run[l].parts|, run[l].threads[t], op, b);
      if !Asks(b, k) {
        SearchesHome(run, l, t, op, b, run[l + 1]);
        LookupFinds(run, l, t, op, b, run[l + 1]);
      }
    }
  }

  ghost predicate AnsweredAt(run: seq<State>, l: nat, t: nat, k: Key)
    requires l + 1 < |run|
  {
    t < |run[l + 1].threads| && Answered(run[l], run[l + 1].threads[t], k)
  }

  /**
   While RPCSEC_GSS stays on and no context is put into the cache under a queued key, a request that looks up `k` gets on
   until it has an answer, and that is right at the moment it is given.
   */
  lemma {:induction false} LookupAnswers(run: seq<State>, i: nat, j: nat, t: nat)
    requires IsRun(run) && FreshInserts(run) && i <= j < |run| && t < |run[i].threads| && Searching(run[i].threads[t].at)
    requires forall l :: i <= l < j ==> run[l].enabled
    ensures t < |run[j].threads|
    ensures Asks(run[j].threads[t], run[i].threads[t].k) || exists l :: i <= l < j && AnsweredAt(run, l, t, run[i].threads[t].k)
  {
    if i < j {
      var k := run[i].threads[t].k;
      LookupAnswers(run, i, j - 1, t);
      ThreadsStay(run, i, j);
      if Asks(run[j - 1].threads[t], k) {
        AskNext(run, j - 1, t, k);
        assert Asks(run[j].threads[t], k) || AnsweredAt(run, j - 1, t, k);
      }
    }
  }

  // ----- turning RPCSEC_GSS on or off -----

  /** About to turn it on or off, or clearing the cache after it has been turned off. */
  predicate Turning(a: Thread, on: bool) {
    ((a.at == Status(StatusWait) || a.at == Status(StatusCheck)) && a.mode == on) || (!on && Clearing(a))
  }

  lemma {:induction false} TurningEdges(n: nat, a: Thread, op: Op, b: Thread, on: bool)
    requires Edge(n, a, op, b) && Turning(a, on)
    ensures Turning(b, on) || b.at == Status(StatusDrop)
    ensures b.at == Status(StatusDrop) ==> (if Clearing(a) then op == Local else op == Flag(on) || op == Switch(on))
  {
  }

  /** A thread has done with the switch, which is as it asked; if that is off, the cache is empty. */
  ghost predicate Turned(s: State, t: nat, on: bool) {
    && t < |s.threads| && s.threads[t].at == Status(StatusDrop) && s.enabled == on
    && (!on ==> forall p :: 0 <= p < |s.parts| ==> s.parts[p] == EMPTY_PART)
  }

  lemma {:induction false} TurningStep(s: State, u: nat, op: Op, b: Thread, s': State, t: nat, on: bool)
    requires Step(s, u, op, b, s') && ClearingOff(s) && t < |s.threads| && Turning(s.threads[t], on)
    ensures Turning(s'.threads[t], on) || (s'.threads[t].at == Status(StatusDrop) && s'.enabled == on)
  {
    if u == t { TurningEdges(|s.parts|, s.threads[t], op, b, on); }
  }

  lemma {:induction false} OffWhenDropped(run: seq<State>, l: nat, t: nat)
    requires IsRun(run) && l < |run| && t < |run[l].threads| && run[l].threads[t].at == Status(StatusDrop) && !run[l].enabled
    ensures Turned(run[l], t, false)
  {
    RunInv(run, l);
    assert forall u :: 0 <= u < |run[l].threads| && Clearing(run[l].threads[u]) ==> HasStatus(run[l].threads[u]);
    forall p | 0 <= p < |run[l].parts| ensures run[l].parts[p] == EMPTY_PART {
      OffIsEmpty(run, l, p);
    }
  }

  lemma {:induction false} TurningNext(run: seq<State>, l: nat, t: nat, on: bool)
    requires IsRun(run) && l + 1 < |run| && t < |run[l].threads| && Turning(run[l].threads[t], on)
    ensures t < |run[l + 1].threads| && (Turning(run[l + 1].threads[t], on) || Turned(run[l + 1], t, on))
  {
    assert ClearingOff(run[l]) by { RunInv(run, l); }
    var u, op, b := LastStep(run, l + 1);
    TurningStep(run[l], u, op, b, run[l + 1], t, on);
    if !on && !Turning(run[l + 1].threads[t], on) { OffWhenDropped(run, l + 1, t); }
  }

  /** A request to turn RPCSEC_GSS on or off gets on until it is so; once it is off, the cache has been cleared. */
  lemma {:induction false} TurnsIt(run: seq<State>, i: nat, j: nat, t: nat, on: bool)
    requires IsRun(run) && i <= j < |run| && t < |run[i].threads| && Turning(run[i].threads[t], on)
    ensures t < |run[j].threads|
    ensures Turning(run[j].threads[t], on) || exists l :: i <= l <= j && Turned(run[l], t, on)
  {
    if i < j {
      TurnsIt(run, i, j - 1, t, on);
      ThreadsStay(run, i, j);
      if Turning(run[j - 1].threads[t], on) { TurningNext(run, j - 1, t, on); }
    }
  }

  // ----- when all requests are done -----

  lemma {:induction false} IdleHolds(threads: seq<Thread>, g: ContextId)
    requires forall t :: 0 <= t < |threads| ==> threads[t].at == Idle
    ensures TokenSum(threads, g) == 0
  {
    if threads != [] { IdleHolds(threads[1..], g); }
  }

  /** No context is leaked: when all threads are at rest, exactly those that are not queued have been freed. */
  lemma {:induction false} NoLeak(run: seq<State>, i: nat, g: ContextId)
    requires IsRun(run) && i < |run| && g in run[i].ctxs
    requires forall t :: 0 <= t < |run[i].threads| ==> run[i].threads[t].at == Idle
    ensures run[i].ctxs[g].freed <==> !Queued(run[i], g)
  {
    RunInv(run, i);
    IdleHolds(run[i].threads, g);
    assert CountOk(run[i], g);
    if Queued(run[i], g) {
      var p :| 0 <= p < |run[i].parts| && g in run[i].parts[p].queue;
      assert PartOk(run[i], p);
    }
  }
}
