/**
 What becomes of a request that cannot send its establishing reply.  It deletes its context while it holds the lock of
 the context.  If the context has been put into the cache it never finishes: either it finds the context queued and
 takes the lock a second time, or a sweeper has the context and waits for the lock with the mutex the request needs.
 */
module GssTraps {
  import opened Basics
  import opened GssCache
  import opened GssThreads
  import opened GssMachine
  import opened GssRuns

  ghost predicate Queued(s: State, g: ContextId) {
    exists p :: 0 <= p < |s.parts| && g in s.parts[p].queue
  }

  /** A sweeper has taken it off its queue and waits for its lock, or is about to. */
  ghost predicate InHands(s: State, g: ContextId) {
    exists u :: 0 <= u < |s.threads| && Sweeping(s.threads[u].at) && s.threads[u].g == g
  }

  ghost predicate Caught(s: State, g: ContextId) {
    Queued(s, g) || InHands(s, g)
  }

  /** The establishing reply could not be sent and the context is being deleted again, under its own lock. */
  predicate ReplyFailed(a: Thread) {
    a.at.Del? && a.mode
  }

  /** The deletion has found the context queued, and goes on to take the lock it holds already. */
  predicate Doomed(a: Thread) {
    a.mode && (a.at == Del(DelUnlock) || a.at == Del(DelCount) || a.at == Del(DelUnrefWait))
  }

  /** The deletion has not yet looked for the context. */
  predicate Looking(at: Label) {
    at == Del(DelRoute) || at == Del(DelWait) || at == Del(DelCheck)
  }

  ghost predicate Trapped(s: State, t: nat) {
    && t < |s.threads| && ReplyFailed(s.threads[t])
    && (Doomed(s.threads[t]) || (Looking(s.threads[t].at) && Caught(s, s.threads[t].g)))
  }

  // ----- what every run keeps -----

  /** A sweeper has the mutex of the partition its context belongs to. */
  ghost predicate SweptHome(s: State) {
    forall u :: 0 <= u < |s.threads| && Sweeping(s.threads[u].at) ==> RouteOk(s, s.threads[u].g, s.threads[u].p)
  }

  /**
   While its creator holds the lock of a context, the other threads with a reference wait for that lock, and the
   context is queued or in the hands of a sweeper if there are any.
   */
  ghost predicate Courted(s: State) {
    forall c, u :: 0 <= c < |s.threads| && 0 <= u < |s.threads| && c != u && Courts(s.threads[u], s.threads[c]) ==>
      Courting(s.threads[u].at) && (Doomed(s.threads[c]) || Caught(s, s.threads[c].g))
  }

  predicate Courts(a: Thread, creator: Thread) {
    Creating(creator) && Tokens(a, creator.g) > 0
  }

  ghost predicate TrapInv(s: State) {
    Inv(s) && SweptHome(s) && Courted(s)
  }

  lemma {:induction false} RouteStays(s: State, t: nat, op: Op, b: Thread, s': State, g: ContextId, p: nat)
    requires Move(s, t, op, b, s') && RouteOk(s, g, p)
    ensures RouteOk(s', g, p)
  {
    NamesKept(s, t, op, b, s');
  }

  lemma {:induction false} SweptHomeKept(s: State, t: nat, op: Op, b: Thread, s': State)
    requires Move(s, t, op, b, s') && RefsFollow(s.threads[t], op, b) && PartsOk(s) && SweptHome(s)
    ensures SweptHome(s')
  {
    forall u | 0 <= u < |s'.threads| && Sweeping(s'.threads[u].at) ensures RouteOk(s', s'.threads[u].g, s'.threads[u].p) {
      if u == t && op == Head(b.p, b.g) { assert PartOk(s, b.p); }
      assert RouteOk(s, s'.threads[u].g, s'.threads[u].p);
      RouteStays(s, t, op, b, s', s'.threads[u].g, s'.threads[u].p);
    }
  }

  /** The lock its creator holds is not given to another thread. */
  lemma {:induction false} LockedOut(s: State, op: Op, c: nat)
    requires ContextLocks(s) && c < |s.threads| && HasContext(s.threads[c]) && Enabled(s, op)
    ensures op != TakeContext(s.threads[c].g)
  {
  }

  /** Other threads do not delete it. */
  lemma {:induction false} NotDeleted(s: State, t: nat, op: Op, b: Thread, c: nat)
    requires t < |s.threads| && Follows(|s.parts|, s.threads[t], op, b) && Courted(s)
    requires c < |s.threads| && c != t && Creating(s.threads[c])
    ensures op.Remove? ==> op.g != s.threads[c].g
  {
    assert Courts(s.threads[t], s.threads[c]) ==> Courting(s.threads[t].at);
  }

  lemma {:induction false} QueuedKept(s: State, t: nat, op: Op, b: Thread, s': State, g: ContextId)
    requires Move(s, t, op, b, s') && RefsFollow(s.threads[t], op, b) && PartsOk(s) && Queued(s, g)
    requires op.Remove? ==> op.g != g
    ensures Caught(s', g)
  {
    var p :| 0 <= p < |s.parts| && g in s.parts[p].queue;
    assert PartOk(s, p);
    QueuedAfter(s, t, op, b, s', p, g);
    if op == Head(p, g) {
      assert Sweeping(s'.threads[t].at) && s'.threads[t].g == g;
    }
  }

  lemma {:induction false} HandsKept(s: State, t: nat, op: Op, b: Thread, s': State, g: ContextId)
    requires Move(s, t, op, b, s') && RefsFollow(s.threads[t], op, b) && InHands(s, g)
    requires op != TakeContext(g) || !Sweeping(s.threads[t].at)
    ensures InHands(s', g)
  {
    var u :| 0 <= u < |s.threads| && Sweeping(s.threads[u].at) && s.threads[u].g == g;
    assert Sweeping(s'.threads[u].at) && s'.threads[u].g == g;
  }

  /** Other threads do not take a caught context out of reach. */
  lemma {:induction false} CaughtKept(s: State, t: nat, op: Op, b: Thread, s': State, c: nat)
    requires Move(s, t, op, b, s') && Follows(|s.parts|, s.threads[t], op, b) && ContextLocks(s) && PartsOk(s) && Courted(s)
    requires c < |s.threads| && c != t && Creating(s.threads[c]) && HasContext(s.threads[c]) && Caught(s, s.threads[c].g)
    ensures Caught(s', s.threads[c].g)
  {
    LockedOut(s, op, c);
    NotDeleted(s, t, op, b, c);
    if Queued(s, s.threads[c].g) {
      QueuedKept(s, t, op, b, s', s.threads[c].g);
    } else {
      HandsKept(s, t, op, b, s', s.threads[c].g);
    }
  }

  /** Its creator takes it out of reach by finding it in the queue only. */
  lemma {:induction false} CaughtByCreator(s: State, t: nat, op: Op, b: Thread, s': State)
    requires Move(s, t, op, b, s') && Follows(|s.parts|, s.threads[t], op, b) && PartsOk(s)
    requires Creating(s.threads[t]) && Creating(b) && b.g == s.threads[t].g && Caught(s, b.g) && !op.Remove?
    ensures Caught(s', b.g)
  {
    if Queued(s, b.g) {
      QueuedKept(s, t, op, b, s', b.g);
    } else {
      HandsKept(s, t, op, b, s', b.g);
    }
  }

  lemma {:induction false} CreatorEdges(n: nat, a: Thread, op: Op, b: Thread)
    requires Edge(n, a, op, b)
    ensures Creating(a) && op.Remove? ==> Doomed(b)
    ensures Doomed(a) ==> (Doomed(b) && b.g == a.g) || op == TakeContext(a.g)
    ensures Creating(a) ==> !Sweeping(a.at)
  {
  }

  /** The creator of a context takes a step. */
  lemma {:induction false} CreatorCourted(s: State, t: nat, op: Op, b: Thread, s': State, u: nat)
    requires Step(s, t, op, b, s') && Follows(|s.parts|, s.threads[t], op, b)
    requires ContextLocks(s) && PartsOk(s) && CountsOk(s) && Courted(s)
    requires u < |s.threads| && u != t && Courts(s.threads[u], b)
    ensures Courting(s.threads[u].at) && (Doomed(b) || Caught(s', b.g))
  {
    var a := s.threads[t];
    CreatorEdges(|s.parts|, a, op, b);
    if op.New? {
      TokenSumUpdate(s.threads, u, b, b.g);
    }
    assert Courts(s.threads[u], a);
    LockedOut(s, op, t);
    if !Doomed(a) && !op.Remove? {
      CaughtByCreator(s, t, op, b, s');
    }
  }

  /** Another thread takes a step. */
  lemma {:induction false} OtherCourted(s: State, t: nat, op: Op, b: Thread, s': State, c: nat)
    requires Step(s, t, op, b, s') && Follows(|s.parts|, s.threads[t], op, b)
    requires ContextLocks(s) && PartsOk(s) && Courted(s)
    requires c < |s.threads| && c != t && Courts(b, s.threads[c])
    ensures Courting(b.at) && (Doomed(s.threads[c]) || Caught(s', s.threads[c].g))
  {
    var g := s.threads[c].g;
    LockedOut(s, op, c);
    if Tokens(s.threads[t], g) > 0 {
      assert Courts(s.threads[t], s.threads[c]);
    } else {
      TokensFrom(s, t, op, b, s', g);
      assert Queued(s, g);
    }
    if !Doomed(s.threads[c]) { CaughtKept(s, t, op, b, s', c); }
  }

  lemma {:induction false} CourtedKept(s: State, t: nat, op: Op, b: Thread, s': State)
    requires Step(s, t, op, b, s') && Follows(|s.parts|, s.threads[t], op, b)
    requires ContextLocks(s) && PartsOk(s) && CountsOk(s) && Courted(s)
    ensures Courted(s')
  {
    forall c, u | 0 <= c < |s'.threads| && 0 <= u < |s'.threads| && c != u && Courts(s'.threads[u], s'.threads[c])
      ensures Courting(s'.threads[u].at) && (Doomed(s'.threads[c]) || Caught(s', s'.threads[c].g))
    {
      if c == t {
        CreatorCourted(s, t, op, b, s', u);
      } else if u == t {
        OtherCourted(s, t, op, b, s', c);
      } else if !Doomed(s.threads[c]) {
        CaughtKept(s, t, op, b, s', c);
      }
    }
  }

  lemma {:induction false} TrapInvKept(s: State, t: nat, op: Op, b: Thread, s': State)
    requires Step(s, t, op, b, s') && TrapInv(s)
    ensures TrapInv(s')
  {
    EdgeFollows(|s.parts|, s.threads[t], op, b);
    InvKept(s, t, op, b, s');
    SweptHomeKept(s, t, op, b, s');
    CourtedKept(s, t, op, b, s');
  }

  lemma {:induction false} StartTraps(s: State)
    requires Start(s)
    ensures TrapInv(s)
  {
    StartInv(s);
    assert SweptHome(s) && Courted(s);
  }

  lemma {:induction false} RunTraps(run: seq<State>, i: nat)
    requires IsRun(run) && i < |run|
    ensures TrapInv(run[i])
  {
    if i == 0 {
      StartTraps(run[0]);
    } else {
      RunTraps(run, i - 1);
      assert NextAt(run, i - 1);
      var t, op, b :| Step(run[i - 1], t, op, b, run[i]);
      TrapInvKept(run[i - 1], t, op, b, run[i]);
    }
  }

  // ----- a trapped request stays trapped -----

  lemma {:induction false} LookingEdges(n: nat, a: Thread, op: Op, b: Thread)
    requires Edge(n, a, op, b) && ReplyFailed(a) && Looking(a.at)
    ensures ReplyFailed(b) && b.g == a.g && (Doomed(b) || Looking(b.at) || op == Absent(a.p, a.g))
    ensures Doomed(b) <==> op.Remove?
    ensures op.Absent? ==> a.at == Del(DelCheck)
  {
  }

  lemma {:induction false} LookingSteps(s: State, t: nat, op: Op, b: Thread, s': State)
    requires Move(s, t, op, b, s') && Follows(|s.parts|, s.threads[t], op, b)
    requires PartLocks(s) && PartsOk(s) && Aims(s) && SweptHome(s) && Trapped(s, t) && Looking(s.threads[t].at)
    requires ReplyFailed(b) && b.g == s.threads[t].g && (Doomed(b) <==> op.Remove?)
    requires Doomed(b) || Looking(b.at) || (s.threads[t].at == Del(DelCheck) && op == Absent(s.threads[t].p, b.g))
    ensures Trapped(s', t)
  {
    NotAbsent(s, t, op);
    if !op.Remove? {
      CaughtByCreator(s, t, op, b, s');
    }
  }

  /** A caught context is found when it is looked for. */
  lemma {:induction false} NotAbsent(s: State, t: nat, op: Op)
    requires PartLocks(s) && Aims(s) && SweptHome(s) && Enabled(s, op) && t < |s.threads| && Caught(s, s.threads[t].g)
    ensures s.threads[t].at == Del(DelCheck) ==> op != Absent(s.threads[t].p, s.threads[t].g)
  {
    if s.threads[t].at == Del(DelCheck) { NotInHands(s, t); }
  }

  lemma {:induction false} DoomedSteps(s: State, t: nat, op: Op, b: Thread, s': State)
    requires Step(s, t, op, b, s') && ContextLocks(s) && Doomed(s.threads[t])
    ensures Trapped(s', t) && b.g == s.threads[t].g
  {
    CreatorEdges(|s.parts|, s.threads[t], op, b);
    LockedOut(s, op, t);
  }

  lemma {:induction false} TrappedSteps(s: State, t: nat, op: Op, b: Thread, s': State)
    requires Step(s, t, op, b, s') && Trapped(s, t)
    requires PartLocks(s) && ContextLocks(s) && PartsOk(s) && Aims(s) && SweptHome(s)
    ensures Trapped(s', t) && b.g == s.threads[t].g
  {
    if Doomed(s.threads[t]) {
      DoomedSteps(s, t, op, b, s');
    } else {
      EdgeFollows(|s.parts|, s.threads[t], op, b);
      LookingEdges(|s.parts|, s.threads[t], op, b);
      LookingSteps(s, t, op, b, s');
    }
  }

  /** No sweeper has a context whose deleter has the mutex of its partition. */
  lemma {:induction false} NotSwept(s: State, t: nat, u: nat)
    requires PartLocks(s) && Aims(s) && SweptHome(s) && t < |s.threads| && u < |s.threads| && s.threads[t].at == Del(DelCheck)
    ensures Sweeping(s.threads[u].at) ==> s.threads[u].g != s.threads[t].g
  {
    assert AimOk(s, s.threads[t].g, s.threads[t].p);
    assert Sweeping(s.threads[u].at) ==> RouteOk(s, s.threads[u].g, s.threads[u].p);
  }

  lemma {:induction false} NotInHands(s: State, t: nat)
    requires PartLocks(s) && Aims(s) && SweptHome(s) && t < |s.threads| && s.threads[t].at == Del(DelCheck)
    ensures !InHands(s, s.threads[t].g)
  {
    forall u | 0 <= u < |s.threads| ensures Sweeping(s.threads[u].at) ==> s.threads[u].g != s.threads[t].g {
      NotSwept(s, t, u);
    }
  }

  lemma {:induction false} TrappedKept(s: State, u: nat, op: Op, b: Thread, s': State, t: nat)
    requires Step(s, u, op, b, s') && TrapInv(s) && Trapped(s, t)
    ensures Trapped(s', t) && s'.threads[t].g == s.threads[t].g
  {
    if u == t {
      TrappedSteps(s, t, op, b, s');
    } else {
      EdgeFollows(|s.parts|, s.threads[u], op, b);
      if !Doomed(s.threads[t]) { CaughtKept(s, u, op, b, s', t); }
    }
  }

  lemma {:induction false} TrappedNext(run: seq<State>, i: nat, t: nat)
    requires IsRun(run) && i + 1 < |run| && Trapped(run[i], t)
    ensures Trapped(run[i + 1], t) && run[i + 1].threads[t].g == run[i].threads[t].g
  {
    RunTraps(run, i);
    assert NextAt(run, i);
    var u, op, b :| Step(run[i], u, op, b, run[i + 1]);
    TrappedKept(run[i], u, op, b, run[i + 1], t);
  }

  /** It never finishes, over any further steps of any thread, and keeps the lock of its context. */
  lemma {:induction false} TrappedForever(run: seq<State>, i: nat, j: nat, t: nat)
    requires IsRun(run) && i <= j < |run| && Trapped(run[i], t)
    ensures Trapped(run[j], t) && run[j].threads[t].g == run[i].threads[t].g
    ensures run[i].threads[t].g in run[j].ctxs && run[j].ctxs[run[i].threads[t].g].owner == Some(t)
    decreases j - i
  {
    if i < j {
      TrappedNext(run, i, t);
      TrappedForever(run, i + 1, j, t);
    } else {
      RunTraps(run, i);
    }
  }

  // ----- who gets trapped -----

  /** It has been put into the cache at some time. */
  ghost predicate WasQueued(run: seq<State>, i: nat, g: ContextId)
    requires i < |run|
  {
    exists j :: 0 <= j <= i && Queued(run[j], g)
  }

  lemma {:induction false} LastStep(run: seq<State>, i: nat) returns (t: nat, op: Op, b: Thread)
    requires IsRun(run) && 0 < i < |run|
    ensures Step(run[i - 1], t, op, b, run[i]) && Follows(|run[i - 1].parts|, run[i - 1].threads[t], op, b)
  {
    assert NextAt(run, i - 1);
    t, op, b :| Step(run[i - 1], t, op, b, run[i]);
    EdgeFollows(|run[i - 1].parts|, run[i - 1].threads[t], op, b);
  }

  lemma {:induction false} CaughtBefore(run: seq<State>, i: nat, g: ContextId)
    requires IsRun(run) && i < |run| && Caught(run[i], g) && !Queued(run[i], g)
    ensures i > 0 && Caught(run[i - 1], g)
  {
    var u :| 0 <= u < |run[i].threads| && Sweeping(run[i].threads[u].at) && run[i].threads[u].g == g;
    if i > 0 {
      var t, op, b := LastStep(run, i);
      HandsBefore(run[i - 1], t, op, b, run[i], u);
    }
  }

  lemma {:induction false} CaughtWasQueued(run: seq<State>, i: nat, g: ContextId)
    requires IsRun(run) && i < |run| && Caught(run[i], g)
    ensures WasQueued(run, i, g)
  {
    if !Queued(run[i], g) {
      CaughtBefore(run, i, g);
      CaughtWasQueued(run, i - 1, g);
    }
  }

  /** A sweeper gets a context from the queue. */
  lemma {:induction false} HandsBefore(s: State, t: nat, op: Op, b: Thread, s': State, u: nat)
    requires Move(s, t, op, b, s') && RefsFollow(s.threads[t], op, b) && u < |s'.threads| && Sweeping(s'.threads[u].at)
    ensures Caught(s, s'.threads[u].g)
  {
    if u != t {
      assert s.threads[u] == s'.threads[u];
    }
  }

  lemma {:induction false} ContextsGrow(run: seq<State>, i: nat, j: nat)
    requires IsRun(run) && i <= j < |run|
    ensures run[i].ctxs.Keys <= run[j].ctxs.Keys
  {
    if i < j {
      ContextsGrow(run, i, j - 1);
      assert NextAt(run, j - 1);
      var t, op, b :| Step(run[j - 1], t, op, b, run[j]);
      NamesKept(run[j - 1], t, op, b, run[j]);
    }
  }

  lemma {:induction false} QueuedIsContext(run: seq<State>, i: nat, g: ContextId)
    requires IsRun(run) && i < |run| && WasQueued(run, i, g)
    ensures g in run[i].ctxs
  {
    var j :| 0 <= j <= i && Queued(run[j], g);
    RunInv(run, j);
    var p :| 0 <= p < |run[j].parts| && g in run[j].parts[p].queue;
    assert PartOk(run[j], p);
    ContextsGrow(run, j, i);
  }

  lemma {:induction false} StillCaught(s: State, u: nat, op: Op, b: Thread, s': State, t: nat)
    requires Step(s, u, op, b, s') && Follows(|s.parts|, s.threads[u], op, b)
    requires ContextLocks(s) && PartsOk(s) && Courted(s)
    requires t < |s.threads| && Creating(s.threads[t]) && Caught(s, s.threads[t].g)
    requires Creating(s'.threads[t]) && s'.threads[t].g == s.threads[t].g
    ensures Doomed(s'.threads[t]) || Caught(s', s.threads[t].g)
  {
    if u != t {
      CaughtKept(s, u, op, b, s', t);
    } else if op.Remove? {
      CreatorEdges(|s.parts|, s.threads[t], op, b);
    } else {
      CaughtByCreator(s, t, op, b, s');
    }
  }

  /** A creator with a context that exists had it before the step. */
  lemma {:induction false} CreatorBefore(s: State, u: nat, op: Op, b: Thread, s': State, t: nat)
    requires Move(s, u, op, b, s') && RefsFollow(s.threads[u], op, b) && t < |s'.threads| && Creating(s'.threads[t])
    requires s'.threads[t].g in s.ctxs
    ensures t < |s.threads| && Creating(s.threads[t]) && s.threads[t].g == s'.threads[t].g
  {
  }

  lemma {:induction false} StaysCaught(s: State, u: nat, op: Op, b: Thread, s': State, t: nat)
    requires Step(s, u, op, b, s') && Follows(|s.parts|, s.threads[u], op, b) && TrapInv(s)
    requires t < |s.threads| && Creating(s.threads[t]) && (Doomed(s.threads[t]) || Caught(s, s.threads[t].g))
    requires Creating(s'.threads[t]) && s'.threads[t].g == s.threads[t].g
    ensures Doomed(s'.threads[t]) || Caught(s', s.threads[t].g)
  {
    if !Doomed(s.threads[t]) {
      StillCaught(s, u, op, b, s', t);
    } else if u == t {
      DoomedSteps(s, t, op, b, s');
    }
  }

  lemma {:induction false} CreatorStep(run: seq<State>, i: nat, t: nat)
    requires IsRun(run) && 0 < i < |run| && t < |run[i].threads| && Creating(run[i].threads[t])
    requires run[i].threads[t].g in run[i - 1].ctxs
    ensures var g := run[i].threads[t].g;
      && t < |run[i - 1].threads| && Creating(run[i - 1].threads[t]) && run[i - 1].threads[t].g == g
      && (Doomed(run[i - 1].threads[t]) || Caught(run[i - 1], g) ==> Doomed(run[i].threads[t]) || Caught(run[i], g))
  {
    var u, op, b := LastStep(run, i);
    CreatorBefore(run[i - 1], u, op, b, run[i], t);
    RunTraps(run, i - 1);
    if Doomed(run[i - 1].threads[t]) || Caught(run[i - 1], run[i].threads[t].g) {
      StaysCaught(run[i - 1], u, op, b, run[i], t);
    }
  }

  lemma {:induction false} QueuedStaysCaught(run: seq<State>, i: nat, t: nat)
    requires IsRun(run) && i < |run| && t < |run[i].threads| && Creating(run[i].threads[t])
    requires WasQueued(run, i, run[i].threads[t].g)
    ensures Doomed(run[i].threads[t]) || Caught(run[i], run[i].threads[t].g)
  {
    var g := run[i].threads[t].g;
    var j :| 0 <= j <= i && Queued(run[j], g);
    if j < i {
      assert WasQueued(run, i - 1, g);
      QueuedIsContext(run, i - 1, g);
      CreatorStep(run, i, t);
      QueuedStaysCaught(run, i - 1, t);
    }
  }

  lemma {:induction false} FailedAtOnce(run: seq<State>, i: nat, t: nat)
    requires IsRun(run) && i < |run| && t < |run[i].threads| && ReplyFailed(run[i].threads[t]) && Looking(run[i].threads[t].at)
    ensures Trapped(run[i], t) <==> WasQueued(run, i, run[i].threads[t].g)
  {
    var g := run[i].threads[t].g;
    if Caught(run[i], g) { CaughtWasQueued(run, i, g); }
    if WasQueued(run, i, g) { QueuedStaysCaught(run, i, t); }
  }

  lemma {:induction false} FailedEdges(n: nat, a: Thread, op: Op, b: Thread)
    requires Edge(n, a, op, b) && ReplyFailed(b) && !Looking(b.at)
    ensures ReplyFailed(a) && b.g == a.g && !op.Insert?
    ensures Doomed(b) ==> Doomed(a) || op == Remove(a.p, a.g)
  {
  }

  /** Once its reply has failed, a context is not put into the cache any more. */
  lemma {:induction false} FailedStep(s: State, u: nat, op: Op, b: Thread, s': State, t: nat)
    requires Move(s, u, op, b, s') && InsertFollows(s.threads[u], op, b) && PartsOk(s) && Exclusive(s)
    requires t < |s.threads| && ReplyFailed(s.threads[t]) && Queued(s', s.threads[t].g)
    ensures Queued(s, s.threads[t].g)
  {
    var g := s.threads[t].g;
    NamesKept(s, u, op, b, s');
    var p :| 0 <= p < |s'.parts| && g in s'.parts[p].queue;
    assert PartOk(s, p);
    QueuedAfter(s, u, op, b, s', p, g);
  }

  /** Before the step the reply had failed already. */
  lemma {:induction false} FailedPrior(s: State, s': State, t: nat)
    requires Next(s, s') && PartsOk(s) && Exclusive(s)
    requires t < |s'.threads| && ReplyFailed(s'.threads[t]) && !Looking(s'.threads[t].at)
    ensures t < |s.threads| && ReplyFailed(s.threads[t]) && s.threads[t].g == s'.threads[t].g
    ensures Queued(s', s.threads[t].g) ==> Queued(s, s.threads[t].g)
    ensures Doomed(s'.threads[t]) ==> Doomed(s.threads[t]) || Queued(s, s.threads[t].g)
  {
    var u: nat, op, b :| Step(s, u, op, b, s');
    if u == t { FailedEdges(|s.parts|, s.threads[t], op, b); }
    EdgeFollows(|s.parts|, s.threads[u], op, b);
    if Queued(s', s.threads[t].g) { FailedStep(s, u, op, b, s', t); }
  }

  lemma {:induction false} FailedBefore(run: seq<State>, i: nat, t: nat)
    requires IsRun(run) && i < |run| && t < |run[i].threads| && ReplyFailed(run[i].threads[t]) && !Looking(run[i].threads[t].at)
    ensures i > 0 && t < |run[i - 1].threads| && ReplyFailed(run[i - 1].threads[t]) && run[i - 1].threads[t].g == run[i].threads[t].g
    ensures Queued(run[i], run[i].threads[t].g) ==> Queued(run[i - 1], run[i].threads[t].g)
    ensures Doomed(run[i].threads[t]) ==> Doomed(run[i - 1].threads[t]) || Queued(run[i - 1], run[i].threads[t].g)
  {
    if i > 0 {
      assert NextAt(run, i - 1);
      RunQueues(run, i - 1);
      FailedPrior(run[i - 1], run[i], t);
    }
  }

  /** When its reply fails, a request is trapped if and only if its context has been put into the cache. */
  lemma {:induction false} FailedReply(run: seq<State>, i: nat, t: nat)
    requires IsRun(run) && i < |run| && t < |run[i].threads| && ReplyFailed(run[i].threads[t])
    ensures Trapped(run[i], t) <==> WasQueued(run, i, run[i].threads[t].g)
  {
    if Looking(run[i].threads[t].at) {
      FailedAtOnce(run, i, t);
    } else {
      FailedBefore(run, i, t);
      FailedReply(run, i - 1, t);
      if Trapped(run[i - 1], t) { TrappedNext(run, i - 1, t); }
    }
  }
}
