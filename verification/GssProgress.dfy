/**
 The threads of the GSS context cache finish, unless a request is trapped by a failed reply: from every reachable state
 without a trapped request some thread can go on, and all threads can be brought back to rest.
 */
module GssProgress {
  import opened Basics
  import opened GssCache
  import opened GssThreads
  import opened GssMachine
  import opened GssRuns
  import opened GssTraps

  // ----- how far a thread is from rest -----

  /** What is left of clearing the cache from partition `p` on. */
  function ClearRank(n: nat, p: nat): nat {
    3 + 10 * (if p < n then n - p else 0)
  }

  function SetRank(l: SetLabel): nat {
    match l
    case SetCheck => 17
    case SetRef => 16
    case SetRoute => 15
    case SetWait => 14
    case SetRecheck => 13
    case SetInsert => 12
    case SetUnlock => 7
    case SetAbort => 7
    case SetCount => 6
    case SetDeref => 6
  }

  function DelRank(l: DelLabel): nat {
    match l
    case DelRoute => 11
    case DelWait => 10
    case DelCheck => 9
    case DelUnlock => 8
    case DelCount => 7
    case DelUnrefWait => 6
    case DelUnrefLocked => 5
    case DelSkip => 5
    case DelDone => 4
  }

  /** A sweeper ends with its partition; a thread that clears the cache goes on with the next one. */
  function SweepRank(n: nat, a: Thread): nat
    requires a.at.Sweep?
  {
    var body := if a.mode then ClearRank(n, a.p) - 2 else 2;
    match a.at.sweepAt
    case ClearNext => body + 2
    case SweepWait => body + 1
    case SweepBody => body
    case SweepCount => body + 3
    case SweepUnrefWait => body + 2
    case SweepUnrefLocked => body + 1
    case SweepDrop => body - 1
  }

  function Rank(n: nat, a: Thread): nat {
    match a.at
    case Idle => 0
    case Init(l) => (match l case InitLocked => 4 case Reply => 5 case Established => 4 case Failing => 3)
    case Set(l) => SetRank(l)
    case Get(l) => (match l case GetWait => 10 case GetRecheck => 9 case GetLookup => 8 case GetMiss => 1 case GetHit => 7)
    case Use(l) =>
      (match l case Have => 6 case DataLocked => 5 case Destroying => 12 case Serving => 3 case UnrefWait => 2 case UnrefLocked => 1)
    case Del(l) => DelRank(l)
    case Sweep(_) => SweepRank(n, a)
    case Status(l) => (match l case StatusDrop => 1 case StatusCheck => ClearRank(n, 0) + 1 case StatusWait => ClearRank(n, 0) + 2)
  }

  function RankSum(n: nat, threads: seq<Thread>): nat {
    if threads == [] then 0 else Rank(n, threads[0]) + RankSum(n, threads[1..])
  }

  lemma {:induction false} RankSumUpdate(n: nat, threads: seq<Thread>, t: nat, b: Thread)
    requires t < |threads|
    ensures RankSum(n, threads[t := b]) == RankSum(n, threads) - Rank(n, threads[t]) + Rank(n, b)
  {
    if t == 0 {
      assert threads[t := b][1..] == threads[1..];
    } else {
      assert threads[t := b][1..] == threads[1..][t - 1 := b];
      RankSumUpdate(n, threads[1..], t - 1, b);
    }
  }

  /** A queued context costs whoever clears the cache four steps. */
  function Distance(s: State): nat {
    RankSum(|s.parts|, s.threads) + 4 * SizeSum(s.parts)
  }

  /** The step brings the thread closer to rest, and does not let a reply fail. */
  predicate Homeward(n: nat, a: Thread, op: Op, b: Thread) {
    Rank(n, b) + 4 * SizeGain(op) < Rank(n, a) && (ReplyFailed(b) ==> ReplyFailed(a))
  }

  // ----- progress -----

  ghost predicate CanMove(s: State, t: nat) {
    t < |s.threads| && exists op, b :: Moves(s, t, op, b)
  }

  predicate Moves(s: State, t: nat, op: Op, b: Thread)
    requires t < |s.threads|
  {
    Enabled(s, op) && Edge(|s.parts|, s.threads[t], op, b) && Homeward(|s.parts|, s.threads[t], op, b)
  }

  /** The mutex or lock a thread waits for. */
  datatype Wait = Nothing | ForPart(p: nat) | ForContext(g: ContextId) | ForStatus

  function WaitsFor(a: Thread): Wait {
    match a.at
    case Set(l) => if l == SetWait then ForPart(a.p) else Nothing
    case Get(l) => if l == GetWait then ForPart(a.p) else Nothing
    case Use(l) => if l == Have || l == UnrefWait then ForContext(a.g) else Nothing
    case Del(l) => if l == DelWait then ForPart(a.p) else if l == DelUnrefWait then ForContext(a.g) else Nothing
    case Sweep(l) => if l == SweepWait then ForPart(a.p) else if l == SweepUnrefWait then ForContext(a.g) else Nothing
    case Status(l) => if l == StatusWait then ForStatus else Nothing
    case _ => Nothing
  }

  /** What a thread waits for is free. */
  predicate Free(s: State, w: Wait) {
    match w
    case Nothing => true
    case ForPart(p) => p < |s.owners| && s.owners[p] == None
    case ForContext(g) => g in s.ctxs && s.ctxs[g].owner == None
    case ForStatus => s.status == None
  }

  /** What a thread needs to know of the state to take its next step. */
  ghost predicate Sane(s: State, a: Thread) {
    (&& |s.owners| == |s.parts| > 0
     && (Count(a.at) > 0 ==> a.g in s.ctxs)
     && (HasPart(a.at) || Routed(a.at) || Aimed(a.at) ==> a.p < |s.parts|)
     && (HasPart(a.at) ==> PartSane(s, a.p))
     && (a.at == Del(DelCheck) ==> forall q :: 0 <= q < |s.parts| && a.g in s.parts[q].queue ==> q == a.p)
     && (a.at == Sweep(ClearNext) ==> a.mode)) == true  // one fact: the verifier does not split it
  }

  ghost predicate PartSane(s: State, p: nat)
    requires p < |s.parts|
  {
    && (s.parts[p].queue != [] ==> s.parts[p].size > 0 && s.parts[p].queue[0] in s.ctxs)
    && (forall k :: Find(s.parts[p], NamesOf(s.ctxs), k).Some? ==> Find(s.parts[p], NamesOf(s.ctxs), k).value in s.ctxs)
  }

  lemma {:induction false} PartIsSane(s: State, p: nat)
    requires p < |s.parts| && PartOk(s, p)
    ensures PartSane(s, p)
  {
  }

  /** A thread knows its context. */
  lemma {:induction false} Known(s: State, t: nat)
    requires CountsOk(s) && t < |s.threads| && Count(s.threads[t].at) > 0
    ensures s.threads[t].g in s.ctxs
  {
    TokenSumUpdate(s.threads, t, s.threads[t], s.threads[t].g);
  }

  /** The context a thread deletes is queued in the partition it has locked, or nowhere. */
  lemma {:induction false} QueuedHere(s: State, t: nat)
    requires PartsOk(s) && Aims(s) && t < |s.threads| && s.threads[t].at == Del(DelCheck)
    ensures forall q :: 0 <= q < |s.parts| && s.threads[t].g in s.parts[q].queue ==> q == s.threads[t].p
  {
    assert AimOk(s, s.threads[t].g, s.threads[t].p);
    forall q | 0 <= q < |s.parts| && s.threads[t].g in s.parts[q].queue ensures q == s.threads[t].p {
      assert PartOk(s, q);
    }
  }

  lemma {:induction false} IsSane(s: State, t: nat)
    requires Inv(s) && t < |s.threads|
    ensures Sane(s, s.threads[t])
  {
    var a := s.threads[t];
    if Count(a.at) > 0 { Known(s, t); }
    if a.at == Del(DelCheck) { QueuedHere(s, t); }
    assert Routed(a.at) ==> RouteOk(s, a.g, a.p);
    assert Aimed(a.at) ==> AimOk(s, a.g, a.p);
    if HasPart(a.at) {
      assert PartOk(s, a.p);
      PartIsSane(s, a.p);
    }
  }

  lemma {:induction false} InitMoves(s: State, t: nat)
    requires t < |s.threads| && Sane(s, s.threads[t]) && s.threads[t].at.Init?
    ensures CanMove(s, t)
  {
    var a := s.threads[t];
    match a.at.initAt
    case InitLocked => assert Moves(s, t, Local, a.(at := Init(Failing)));
    case Reply => assert Moves(s, t, Local, a.(at := Init(Established)));
    case Established => assert Moves(s, t, DropContext(a.g), a.(at := Use(Serving)));
    case Failing => assert Moves(s, t, DropContext(a.g), a.(at := Use(UnrefWait)));
  }

  lemma {:induction false} SetGoesIn(s: State, t: nat)
    requires t < |s.threads| && Sane(s, s.threads[t]) && Free(s, WaitsFor(s.threads[t]))
    requires s.threads[t].at.Set? && s.threads[t].at.setAt in {SetCheck, SetRef, SetRoute, SetWait, SetRecheck}
    ensures CanMove(s, t)
  {
    var a := s.threads[t];
    match a.at.setAt
    case SetCheck => assert Moves(s, t, Flag(s.enabled), a.(at := if s.enabled then Set(SetRef) else Init(Reply)));
    case SetRef => assert Moves(s, t, Ref(a.g), a.(at := Set(SetRoute)));
    case SetRoute => var p := Home(s.ctxs[a.g].key, |s.parts|); assert Moves(s, t, Route(a.g, p), a.(at := Set(SetWait), p := p));
    case SetWait => assert Moves(s, t, TakePart(a.p), a.(at := Set(SetRecheck)));
    case SetRecheck => assert Moves(s, t, Flag(s.enabled), a.(at := if s.enabled then Set(SetInsert) else Set(SetAbort)));
  }

  lemma {:induction false} SetGoesOut(s: State, t: nat)
    requires t < |s.threads| && Sane(s, s.threads[t]) && Free(s, WaitsFor(s.threads[t]))
    requires s.threads[t].at.Set? && s.threads[t].at.setAt in {SetInsert, SetUnlock, SetCount, SetAbort, SetDeref}
    ensures CanMove(s, t)
  {
    var a := s.threads[t];
    match a.at.setAt
    case SetInsert => assert Moves(s, t, Insert(a.p, a.g), a.(at := Set(SetUnlock)));
    case SetUnlock => assert Moves(s, t, DropPart(a.p), a.(at := Set(SetCount)));
    case SetCount => assert Moves(s, t, CountUp, a.(at := Init(Reply)));
    case SetAbort => assert Moves(s, t, DropPart(a.p), a.(at := Set(SetDeref)));
    case SetDeref => assert Moves(s, t, Deref(a.g), a.(at := Init(Reply)));
  }

  lemma {:induction false} SetMoves(s: State, t: nat)
    requires t < |s.threads| && Sane(s, s.threads[t]) && s.threads[t].at.Set? && Free(s, WaitsFor(s.threads[t]))
    ensures CanMove(s, t)
  {
    var l := s.threads[t].at.setAt;
    if l in {SetCheck, SetRef, SetRoute, SetWait, SetRecheck} {
      SetGoesIn(s, t);
    } else {
      SetGoesOut(s, t);
    }
  }

  lemma {:induction false} GetMoves(s: State, t: nat)
    requires t < |s.threads| && Sane(s, s.threads[t]) && s.threads[t].at.Get? && Free(s, WaitsFor(s.threads[t]))
    ensures CanMove(s, t)
  {
    var a := s.threads[t];
    match a.at.getAt
    case GetWait => assert Moves(s, t, TakePart(a.p), a.(at := Get(GetRecheck)));
    case GetRecheck => assert Moves(s, t, Flag(s.enabled), a.(at := if s.enabled then Get(GetLookup) else Get(GetMiss)));
    case GetLookup =>
      match Find(s.parts[a.p], NamesOf(s.ctxs), a.k) {
        case None => assert Moves(s, t, Miss(a.p, a.k), a.(at := Get(GetMiss)));
        case Some(g) => assert Moves(s, t, Hit(a.p, a.k, g), a.(at := Get(GetHit), g := g));
      }
    case GetMiss => assert Moves(s, t, DropPart(a.p), a.(at := Idle));
    case GetHit => assert Moves(s, t, DropPart(a.p), a.(at := Use(Have)));
  }

  lemma {:induction false} UseMoves(s: State, t: nat)
    requires t < |s.threads| && Sane(s, s.threads[t]) && s.threads[t].at.Use? && Free(s, WaitsFor(s.threads[t]))
    ensures CanMove(s, t)
  {
    var a := s.threads[t];
    match a.at.useAt
    case Have => assert Moves(s, t, TakeContext(a.g), a.(at := Use(DataLocked)));
    case DataLocked => assert Moves(s, t, Local, a.(at := Init(Failing)));
    case Destroying => assert Moves(s, t, DropContext(a.g), a.(at := Del(DelRoute), mode := false));
    case Serving => assert Moves(s, t, Local, a.(at := Use(UnrefWait)));
    case UnrefWait => assert Moves(s, t, TakeContext(a.g), a.(at := Use(UnrefLocked)));
    case UnrefLocked => assert Moves(s, t, Unref(a.g), a.(at := Idle));
  }

  lemma {:induction false} DelGoesIn(s: State, t: nat)
    requires t < |s.threads| && Sane(s, s.threads[t]) && Free(s, WaitsFor(s.threads[t]))
    requires s.threads[t].at.Del? && s.threads[t].at.delAt in {DelRoute, DelWait, DelCheck}
    ensures CanMove(s, t)
  {
    var a := s.threads[t];
    match a.at.delAt
    case DelRoute =>
      var p := if s.ctxs[a.g].hashed then Home(s.ctxs[a.g].key, |s.parts|) else 0;
      assert Moves(s, t, Goto(a.g, p), a.(at := Del(DelWait), p := p));
    case DelWait => assert Moves(s, t, TakePart(a.p), a.(at := Del(DelCheck)));
    case DelCheck =>
      if a.g in s.parts[a.p].queue {
        assert Moves(s, t, Remove(a.p, a.g), a.(at := Del(DelUnlock)));
      } else {
        assert Moves(s, t, Absent(a.p, a.g), a.(at := Del(DelSkip)));
      }
  }

  lemma {:induction false} DelGoesOut(s: State, t: nat)
    requires t < |s.threads| && Sane(s, s.threads[t]) && Free(s, WaitsFor(s.threads[t]))
    requires s.threads[t].at.Del? && s.threads[t].at.delAt in {DelSkip, DelUnlock, DelCount, DelUnrefWait, DelUnrefLocked, DelDone}
    ensures CanMove(s, t)
  {
    var a := s.threads[t];
    match a.at.delAt
    case DelSkip => assert Moves(s, t, DropPart(a.p), a.(at := Del(DelDone)));
    case DelUnlock => assert Moves(s, t, DropPart(a.p), a.(at := Del(DelCount)));
    case DelCount => assert Moves(s, t, CountDown, a.(at := Del(DelUnrefWait)));
    case DelUnrefWait => assert Moves(s, t, TakeContext(a.g), a.(at := Del(DelUnrefLocked)));
    case DelUnrefLocked => assert Moves(s, t, Unref(a.g), a.(at := Del(DelDone)));
    case DelDone => assert Moves(s, t, Local, a.(at := if a.mode then Init(Failing) else Use(UnrefWait)));
  }

  lemma {:induction false} DelMoves(s: State, t: nat)
    requires t < |s.threads| && Sane(s, s.threads[t]) && s.threads[t].at.Del? && Free(s, WaitsFor(s.threads[t]))
    ensures CanMove(s, t)
  {
    var l := s.threads[t].at.delAt;
    if l in {DelRoute, DelWait, DelCheck} {
      DelGoesIn(s, t);
    } else {
      DelGoesOut(s, t);
    }
  }

  lemma {:induction false} SweepGoesIn(s: State, t: nat)
    requires t < |s.threads| && Sane(s, s.threads[t]) && Free(s, WaitsFor(s.threads[t]))
    requires s.threads[t].at.Sweep? && s.threads[t].at.sweepAt in {SweepWait, SweepBody}
    ensures CanMove(s, t)
  {
    var a := s.threads[t];
    match a.at.sweepAt
    case SweepWait => assert Moves(s, t, TakePart(a.p), a.(at := Sweep(SweepBody)));
    case SweepBody =>
      if !a.mode {
        assert Moves(s, t, Local, a.(at := Sweep(SweepDrop)));
      } else if s.parts[a.p].queue == [] {
        assert Moves(s, t, QueueEmpty(a.p), a.(at := Sweep(SweepDrop)));
      } else {
          var g := s.parts[a.p].queue[0];
        assert Moves(s, t, Head(a.p, g), a.(at := Sweep(SweepCount), g := g));
      }
  }

  lemma {:induction false} SweepGoesOut(s: State, t: nat)
    requires t < |s.threads| && Sane(s, s.threads[t]) && Free(s, WaitsFor(s.threads[t]))
    requires s.threads[t].at.Sweep? && s.threads[t].at.sweepAt in {SweepCount, SweepUnrefWait, SweepUnrefLocked, SweepDrop, ClearNext}
    ensures CanMove(s, t)
  {
    var a := s.threads[t];
    match a.at.sweepAt
    case SweepCount => assert Moves(s, t, CountDown, a.(at := Sweep(SweepUnrefWait)));
    case SweepUnrefWait => assert Moves(s, t, TakeContext(a.g), a.(at := Sweep(SweepUnrefLocked)));
    case SweepUnrefLocked => assert Moves(s, t, Unref(a.g), a.(at := Sweep(SweepBody)));
    case SweepDrop => assert Moves(s, t, DropPart(a.p), if a.mode then a.(at := Sweep(ClearNext), p := a.p + 1) else a.(at := Idle));
    case ClearNext => assert Moves(s, t, Local, a.(at := if a.p < |s.parts| then Sweep(SweepWait) else Status(StatusDrop)));
  }

  lemma {:induction false} SweepMoves(s: State, t: nat)
    requires t < |s.threads| && Sane(s, s.threads[t]) && s.threads[t].at.Sweep? && Free(s, WaitsFor(s.threads[t]))
    ensures CanMove(s, t)
  {
    var l := s.threads[t].at.sweepAt;
    if l in {SweepWait, SweepBody} {
      SweepGoesIn(s, t);
    } else {
      SweepGoesOut(s, t);
    }
  }

  lemma {:induction false} StatusMoves(s: State, t: nat)
    requires t < |s.threads| && Sane(s, s.threads[t]) && s.threads[t].at.Status? && Free(s, WaitsFor(s.threads[t]))
    ensures CanMove(s, t)
  {
    var a := s.threads[t];
    match a.at.statusAt
    case StatusWait => assert Moves(s, t, TakeStatus, a.(at := Status(StatusCheck)));
    case StatusCheck =>
      if s.enabled == a.mode {
        assert Moves(s, t, Flag(a.mode), a.(at := Status(StatusDrop)));
      } else {
        assert Moves(s, t, Switch(a.mode), if a.mode then a.(at := Status(StatusDrop)) else Thread(Sweep(ClearNext), a.g, 0, a.k, true));
      }
    case StatusDrop => assert Moves(s, t, DropStatus, a.(at := Idle));
  }

  /** A thread at work can always take its next step, but for a mutex or lock that another one holds. */
  lemma {:induction false} FreeMoves(s: State, t: nat)
    requires Inv(s) && t < |s.threads| && s.threads[t].at != Idle && Free(s, WaitsFor(s.threads[t]))
    ensures CanMove(s, t)
  {
    IsSane(s, t);
    match s.threads[t].at
    case Init(_) => InitMoves(s, t);
    case Set(_) => SetMoves(s, t);
    case Get(_) => GetMoves(s, t);
    case Use(_) => UseMoves(s, t);
    case Del(_) => DelMoves(s, t);
    case Sweep(_) => SweepMoves(s, t);
    case Status(_) => StatusMoves(s, t);
  }

  // ----- no deadlock -----

  ghost predicate AtWork(s: State, t: nat) {
    t < |s.threads| && s.threads[t].at != Idle && CanMove(s, t)
  }

  ghost predicate NoneTrapped(s: State) {
    forall t :: 0 <= t < |s.threads| ==> !Trapped(s, t)
  }

  /** Whoever holds the lock of a context that has been inserted waits for nothing. */
  lemma {:induction false} HolderFree(s: State, t: nat, u: nat)
    requires TrapInv(s) && NoneTrapped(s) && t < |s.threads| && WaitsFor(s.threads[t]).ForContext?
    requires HoldsContext(s, u, s.threads[t].g)
    ensures WaitsFor(s.threads[u]) == Nothing && s.threads[u].at != Idle
  {
    assert !Trapped(s, u);
    if u != t {
      assert BeforeInsert(s.threads[u].at) ==> Tokens(s.threads[t], s.threads[u].g) == 0;
      assert Creating(s.threads[u]) ==> Courts(s.threads[t], s.threads[u]);
    }
  }

  lemma {:induction false} ContextHolderMoves(s: State, t: nat) returns (u: nat)
    requires TrapInv(s) && NoneTrapped(s) && t < |s.threads| && WaitsFor(s.threads[t]).ForContext?
    ensures AtWork(s, u)
  {
    var g := s.threads[t].g;
    Known(s, t);
    if s.ctxs[g].owner == None {
      FreeMoves(s, t);
      return t;
    }
    u := s.ctxs[g].owner.value;
    HolderFree(s, t, u);
    FreeMoves(s, u);
  }

  lemma {:induction false} PartHolderMoves(s: State, t: nat) returns (u: nat)
    requires TrapInv(s) && NoneTrapped(s) && t < |s.threads| && WaitsFor(s.threads[t]).ForPart?
    ensures AtWork(s, u)
  {
    var p := s.threads[t].p;
    assert p < |s.parts| by {
      if s.threads[t].at == Set(SetWait) { assert RouteOk(s, s.threads[t].g, p); }
      if s.threads[t].at == Del(DelWait) { assert AimOk(s, s.threads[t].g, p); }
    }
    if s.owners[p] == None {
      FreeMoves(s, t);
      return t;
    }
    u := s.owners[p].value;
    assert HoldsPart(s, u, p);
    if WaitsFor(s.threads[u]) == Nothing {
      FreeMoves(s, u);
    } else {
      u := ContextHolderMoves(s, u);
    }
  }

  lemma {:induction false} SomeoneMoves(s: State, t: nat) returns (u: nat)
    requires TrapInv(s) && NoneTrapped(s) && t < |s.threads| && s.threads[t].at != Idle
    ensures AtWork(s, u)
  {
    u := t;
    if WaitsFor(s.threads[u]) == ForStatus {
      if s.status == None {
        FreeMoves(s, u);
        return;
      }
      u := s.status.value;
    }
    match WaitsFor(s.threads[u])
    case Nothing => FreeMoves(s, u);
    case ForPart(_) => u := PartHolderMoves(s, u);
    case ForContext(_) => u := ContextHolderMoves(s, u);
    case ForStatus => assert false;
  }

  /** Unless a request is trapped, some thread can go on as long as any is at work. */
  lemma {:induction false} NoDeadlock(run: seq<State>, i: nat, t: nat)
    requires IsRun(run) && i < |run| && t < |run[i].threads| && run[i].threads[t].at != Idle && NoneTrapped(run[i])
    ensures exists u :: AtWork(run[i], u)
  {
    RunTraps(run, i);
    var u := SomeoneMoves(run[i], t);
  }

  // ----- every thread can finish -----

  /** A context is caught by its insertion only. */
  lemma {:induction false} CaughtFrom(s: State, t: nat, op: Op, b: Thread, s': State, g: ContextId)
    requires Move(s, t, op, b, s') && RefsFollow(s.threads[t], op, b) && PartsOk(s) && Caught(s', g) && !(op.Insert? && op.g == g)
    ensures Caught(s, g)
  {
    NamesKept(s, t, op, b, s');
    if Queued(s', g) {
      var p :| 0 <= p < |s'.parts| && g in s'.parts[p].queue;
      assert PartOk(s, p);
      QueuedAfter(s, t, op, b, s', p, g);
    } else {
      var u :| 0 <= u < |s'.threads| && Sweeping(s'.threads[u].at) && s'.threads[u].g == g;
      HandsBefore(s, t, op, b, s', u);
    }
  }

  lemma {:induction false} FailedGoesOn(n: nat, a: Thread, op: Op, b: Thread)
    requires Edge(n, a, op, b) && ReplyFailed(a) && ReplyFailed(b) && (Looking(b.at) || Doomed(b))
    ensures b.g == a.g && !op.Insert? && (Doomed(a) || Looking(a.at))
    ensures Doomed(b) ==> Doomed(a) || op == Remove(a.p, a.g)
  {
  }

  /** A step that does not let a reply fail traps nobody. */
  lemma {:induction false} UntrappedKept(s: State, u: nat, op: Op, b: Thread, s': State, t: nat)
    requires Step(s, u, op, b, s') && Follows(|s.parts|, s.threads[u], op, b) && PartsOk(s) && Exclusive(s)
    requires NoneTrapped(s) && (ReplyFailed(b) ==> ReplyFailed(s.threads[u]))
    ensures !Trapped(s', t)
  {
    if Trapped(s', t) {
      assert !Trapped(s, t);
      var g := s'.threads[t].g;
      if u == t { FailedGoesOn(|s.parts|, s.threads[u], op, b); }
      if Caught(s', g) { CaughtFrom(s, u, op, b, s', g); }
    }
  }

  predicate AllIdle(s: State) {
    forall t :: 0 <= t < |s.threads| ==> s.threads[t].at == Idle
  }

  /** A thread takes a step towards its end. */
  lemma {:induction false} Homewards(s: State, u: nat) returns (s': State)
    requires TrapInv(s) && NoneTrapped(s) && AtWork(s, u)
    ensures Next(s, s') && NoneTrapped(s') && Distance(s') < Distance(s)
  {
    var op, b :| Moves(s, u, op, b);
    s' := Apply(s, u, op).(threads := s.threads[u := b]);
    assert Step(s, u, op, b, s');
    EdgeFollows(|s.parts|, s.threads[u], op, b);
    forall t | 0 <= t < |s'.threads| ensures !Trapped(s', t) {
      UntrappedKept(s, u, op, b, s', t);
    }
    NamesKept(s, u, op, b, s');
    SizeChange(s, u, op, b, s');
    RankSumUpdate(|s.parts|, s.threads, u, b);
  }

  lemma {:induction false} Longer(run: seq<State>, s': State)
    requires IsRun(run) && Next(run[|run| - 1], s')
    ensures IsRun(run + [s']) && run <= run + [s']
  {
    var run' := run + [s'];
    forall i | 0 <= i < |run'| - 1 ensures NextAt(run', i) {
      if i < |run| - 1 { assert NextAt(run, i); }
    }
  }

  lemma {:induction false} Onwards(run: seq<State>) returns (run': seq<State>)
    requires IsRun(run) && NoneTrapped(run[|run| - 1]) && !AllIdle(run[|run| - 1])
    ensures IsRun(run') && run <= run' && NoneTrapped(run'[|run'| - 1])
    ensures Distance(run'[|run'| - 1]) < Distance(run[|run| - 1])
  {
    var s := run[|run| - 1];
    RunTraps(run, |run| - 1);
    var t :| 0 <= t < |s.threads| && s.threads[t].at != Idle;
    var u := SomeoneMoves(s, t);
    var s' := Homewards(s, u);
    Longer(run, s');
    run' := run + [s'];
  }

  /** Unless a request is trapped, every run can be continued until all threads are at rest. */
  lemma {:induction false} Homecoming(run: seq<State>) returns (run': seq<State>)
    requires IsRun(run) && NoneTrapped(run[|run| - 1])
    ensures IsRun(run') && run <= run' && AllIdle(run'[|run'| - 1])
    decreases Distance(run[|run| - 1])
  {
    if AllIdle(run[|run| - 1]) {
      run' := run;
    } else {
      var next := Onwards(run);
      run' := Homecoming(next);
    }
  }

  ghost predicate Finishes(run: seq<State>, run': seq<State>) {
    IsRun(run') && run <= run' && AllIdle(run'[|run'| - 1])
  }

  /** The reply of a request has failed after its context had been put into the cache. */
  ghost predicate LostReply(run: seq<State>, t: nat)
    requires |run| > 0
  {
    var s := run[|run| - 1];
    t < |s.threads| && ReplyFailed(s.threads[t]) && WasQueued(run, |run| - 1, s.threads[t].g)
  }

  lemma {:induction false} LostIsTrapped(run: seq<State>, t: nat)
    requires IsRun(run)
    ensures LostReply(run, t) <==> Trapped(run[|run| - 1], t)
  {
    var i := |run| - 1;
    if t < |run[i].threads| && ReplyFailed(run[i].threads[t]) { FailedReply(run, i, t); }
  }

  lemma {:induction false} LostNeverFinishes(run: seq<State>, t: nat, run': seq<State>)
    requires IsRun(run) && LostReply(run, t)
    ensures !Finishes(run, run')
  {
    if Finishes(run, run') {
      LostIsTrapped(run, t);
      assert run'[|run| - 1] == run[|run| - 1];
      TrappedForever(run', |run| - 1, |run'| - 1, t);
    }
  }

  /** All threads can finish if and only if no reply has failed after its context had been put into the cache. */
  lemma {:induction false} FinishIff(run: seq<State>)
    requires IsRun(run)
    ensures (exists run' :: Finishes(run, run')) <==> forall t: nat :: !LostReply(run, t)
  {
    if t: nat :| LostReply(run, t) {
      forall run' ensures !Finishes(run, run') {
        LostNeverFinishes(run, t, run');
      }
    } else {
      var s := run[|run| - 1];
      forall t: nat ensures !Trapped(s, t) {
        LostIsTrapped(run, t);
      }
      var run' := Homecoming(run);
      assert Finishes(run, run');
    }
  }
}
