/**
 Runs of the GSS context cache: those that reach the states in which it goes wrong, and the life of a context in which
 nothing does.
 */
module GssScenarios {
  import opened Basics
  import opened GssCache
  import opened GssThreads
  import opened GssMachine
  import opened GssTraps
  import opened GssProgress

  function Last(run: seq<State>): State
    requires |run| > 0
  {
    run[|run| - 1]
  }

  lemma {:induction false} Extend(run: seq<State>, t: nat, op: Op, b: Thread) returns (run': seq<State>)
    requires IsRun(run) && t < |Last(run).threads| && Enabled(Last(run), op)
    requires Edge(|Last(run).parts|, Last(run).threads[t], op, b)
    ensures IsRun(run') && Last(run') == Apply(Last(run), t, op).(threads := Last(run).threads[t := b])
  {
    var s' := Apply(Last(run), t, op).(threads := Last(run).threads[t := b]);
    assert Step(Last(run), t, op, b, s');
    Longer(run, s');
    run' := run + [s'];
  }

  /** A cache of one partition, with its mutex free. */
  predicate Ready(s: State, t: nat) {
    s.enabled && |s.parts| == 1 && s.owners == [None] && t < |s.threads|
  }

  function With(s: State, t: nat, at: Label): State
    requires t < |s.threads|
  {
    s.(threads := s.threads[t := s.threads[t].(at := at)])
  }

  lemma {:induction false} Create(run: seq<State>, t: nat, g: ContextId, k: Key) returns (run': seq<State>)
    requires IsRun(run) && Ready(Last(run), t) && Last(run).threads[t].at == Idle && g !in Last(run).ctxs
    ensures IsRun(run')
    ensures var s, a := Last(run), Last(run).threads[t].(at := Set(SetRoute), g := g);
      Last(run') == WithContext(s, g, Context(k, false, 2, Some(t), false, s.clock)).(threads := s.threads[t := a])
  {
    var a := Last(run).threads[t].(g := g);
    run' := Extend(run, t, New(g, k), a.(at := Init(InitLocked)));
    run' := Extend(run', t, Local, a.(at := Set(SetCheck)));
    run' := Extend(run', t, Flag(true), a.(at := Set(SetRef)));
    run' := Extend(run', t, Ref(g), a.(at := Set(SetRoute)));
  }

  lemma {:induction false} PutIn(run: seq<State>, t: nat, g: ContextId) returns (run': seq<State>)
    requires IsRun(run) && Ready(Last(run), t) && Last(run).threads[t].at == Set(SetRoute)
    requires Last(run).threads[t].g == g && g in Last(run).ctxs && Last(run).ctxs[g].stamp == Last(run).clock
    ensures IsRun(run')
    ensures var s, a := Last(run), Last(run).threads[t].(at := Set(SetUnlock), p := 0);
      Last(run') == WithContext(s, g, s.ctxs[g].(hashed := true)).(owners := [Some(t)], clock := s.clock + 1,
        parts := [Enqueue(s.parts[0], s.ctxs[g].key, g)], threads := s.threads[t := a])
  {
    var a := Last(run).threads[t].(p := 0);
    run' := Extend(run, t, Route(g, 0), a.(at := Set(SetWait)));
    run' := Extend(run', t, TakePart(0), a.(at := Set(SetRecheck)));
    run' := Extend(run', t, Flag(true), a.(at := Set(SetInsert)));
    run' := Extend(run', t, Insert(0, g), a.(at := Set(SetUnlock)));
  }

  lemma {:induction false} Counted(run: seq<State>, t: nat) returns (run': seq<State>)
    requires IsRun(run) && t < |Last(run).threads| && Last(run).threads[t].at == Set(SetUnlock)
    requires Last(run).owners == [Some(t)] && Last(run).threads[t].p == 0
    ensures IsRun(run')
    ensures Last(run') == With(Last(run), t, Init(Reply)).(owners := [None], total := Wrap(Last(run).total + 1))
  {
    var a := Last(run).threads[t];
    run' := Extend(run, t, DropPart(0), a.(at := Set(SetCount)));
    run' := Extend(run', t, CountUp, a.(at := Init(Reply)));
  }

  /** A request creates context `g` for key `k` and puts it into the cache. */
  lemma {:induction false} Establish(run: seq<State>, t: nat, g: ContextId, k: Key) returns (run': seq<State>)
    requires IsRun(run) && Ready(Last(run), t) && Last(run).threads[t].at == Idle && g !in Last(run).ctxs
    ensures IsRun(run')
    ensures var s, a := Last(run), Last(run).threads[t].(at := Init(Reply), g := g, p := 0);
      Last(run') == WithContext(s, g, Context(k, true, 2, Some(t), false, s.clock)).(clock := s.clock + 1,
        total := Wrap(s.total + 1), parts := [Enqueue(s.parts[0], k, g)], threads := s.threads[t := a])
  {
    run' := Create(run, t, g, k);
    run' := PutIn(run', t, g);
    run' := Counted(run', t);
  }

  function AtRest(n: nat): State {
    State(true, None, [EMPTY_PART], [None], map[], 0, 0, seq(n, _ => Thread(Idle, 0, 0, Key(0, 0), false)))
  }

  /** The first of `n` threads has put context 0 into the cache and then fails to send its reply. */
  lemma {:induction false} Fails(n: nat, k: Key) returns (run: seq<State>)
    requires n > 0
    ensures IsRun(run) && |Last(run).threads| == n && Ready(Last(run), 0)
    ensures Last(run).threads[0] == Thread(Del(DelRoute), 0, 0, Key(0, 0), true)
    ensures forall t :: 0 < t < n ==> Last(run).threads[t] == AtRest(n).threads[t]
    ensures Last(run).parts == [Enqueue(EMPTY_PART, k, 0)] && Last(run).ctxs == map[0 := Context(k, true, 2, Some(0), false, 0)]
  {
    run := [AtRest(n)];
    run := Establish(run, 0, 0, k);
    run := Extend(run, 0, Local, Thread(Del(DelRoute), 0, 0, Key(0, 0), true));
  }

  predicate SelfLocked(s: State, t: nat) {
    t < |s.threads| && Doomed(s.threads[t]) && s.threads[t].g in s.ctxs
    && WaitsFor(s.threads[t]) == ForContext(s.threads[t].g) && s.ctxs[s.threads[t].g].owner == Some(t)
  }

  lemma {:induction false} Finds(k: Key) returns (run: seq<State>)
    ensures IsRun(run) && |Last(run).threads| == 1 && Last(run).threads[0] == Thread(Del(DelUnlock), 0, 0, Key(0, 0), true)
    ensures Last(run).owners == [Some(0)] && Last(run).ctxs == map[0 := Context(k, true, 2, Some(0), false, 0)]
  {
    run := Fails(1, k);
    var a := Last(run).threads[0];
    run := Extend(run, 0, Goto(0, 0), a.(at := Del(DelWait)));
    run := Extend(run, 0, TakePart(0), a.(at := Del(DelCheck)));
    run := Extend(run, 0, Remove(0, 0), a.(at := Del(DelUnlock)));
  }

  /** One request on its own gets there: it waits for the lock that it holds. */
  lemma {:induction false} SelfLockReachable(k: Key) returns (run: seq<State>)
    ensures IsRun(run) && SelfLocked(Last(run), 0)
  {
    run := Finds(k);
    var a := Last(run).threads[0];
    run := Extend(run, 0, DropPart(0), a.(at := Del(DelCount)));
    run := Extend(run, 0, CountDown, a.(at := Del(DelUnrefWait)));
  }

  predicate CrossLocked(s: State, t: nat, u: nat) {
    && t < |s.threads| && u < |s.threads| && t != u && s.threads[t].g in s.ctxs && s.threads[t].p < |s.owners|
    && ReplyFailed(s.threads[t]) && Looking(s.threads[t].at)
    && WaitsFor(s.threads[t]) == ForPart(s.threads[t].p) && s.owners[s.threads[t].p] == Some(u)
    && WaitsFor(s.threads[u]) == ForContext(s.threads[t].g) && s.ctxs[s.threads[t].g].owner == Some(t)
  }

  /** A sweeper takes the context off its queue. */
  lemma {:induction false} Swept(k: Key) returns (run: seq<State>)
    ensures IsRun(run) && Last(run).owners == [Some(1)] && |Last(run).parts| == 1 && Last(run).threads ==
      [Thread(Del(DelRoute), 0, 0, Key(0, 0), true), Thread(Sweep(SweepCount), 0, 0, Key(0, 0), false)]
    ensures Last(run).ctxs == map[0 := Context(k, true, 2, Some(0), false, 0)]
  {
    run := Fails(2, k);
    var b := Last(run).threads[1];
    run := Extend(run, 1, Local, b.(at := Sweep(SweepWait)));
    run := Extend(run, 1, TakePart(0), b.(at := Sweep(SweepBody)));
    run := Extend(run, 1, Head(0, 0), b.(at := Sweep(SweepCount)));
  }

  /** With a sweeper the request gets there before it has looked for its context: each waits for what the other holds. */
  lemma {:induction false} CrossLockReachable(k: Key) returns (run: seq<State>)
    ensures IsRun(run) && CrossLocked(Last(run), 0, 1) && Trapped(Last(run), 0)
  {
    run := Swept(k);
    var a, b := Last(run).threads[0], Last(run).threads[1];
    run := Extend(run, 1, CountDown, b.(at := Sweep(SweepUnrefWait)));
    run := Extend(run, 0, Goto(0, 0), a.(at := Del(DelWait)));
    assert Sweeping(Last(run).threads[1].at);
  }

  /** A context that is queued and that no lookup finds. */
  predicate Missed(s: State, p: nat, g: ContextId) {
    && g in s.ctxs && p < |s.parts| && g in s.parts[p].queue && p == Home(s.ctxs[g].key, |s.parts|)
    && Find(s.parts[p], NamesOf(s.ctxs), s.ctxs[g].key) == None
  }

  lemma {:induction false} Twice(k: Key) returns (run: seq<State>)
    ensures IsRun(run) && Ready(Last(run), 2) && |Last(run).threads| == 3 && Last(run).threads[2] == AtRest(3).threads[2]
    ensures Last(run).parts == [Enqueue(Enqueue(EMPTY_PART, k, 0), k, 1)]
    ensures Last(run).ctxs == map[0 := Context(k, true, 2, Some(0), false, 0), 1 := Context(k, true, 2, Some(1), false, 1)]
  {
    run := [AtRest(3)];
    run := Establish(run, 0, 0, k);
    run := Establish(run, 1, 1, k);
  }

  /** Two requests put contexts under one key into the cache, and a sweeper takes out the first one. */
  lemma {:induction false} MissedReachable(k: Key) returns (run: seq<State>)
    ensures IsRun(run) && Missed(Last(run), 0, 1)
  {
    run := Twice(k);
    var c := Last(run).threads[2];
    run := Extend(run, 2, Local, c.(at := Sweep(SweepWait)));
    run := Extend(run, 2, TakePart(0), c.(at := Sweep(SweepBody)));
    DuplicateLost(k, 0, 1);
    assert NamesOf(Last(run).ctxs) == map[0 := k, 1 := k];
    run := Extend(run, 2, Head(0, 0), c.(at := Sweep(SweepCount)));
    assert 1 in Last(run).parts[0].queue;
  }

  // ----- a life without trouble -----

  /** One thread, with context 0 and one partition. */
  function Alone(at: Label, k: Key, k': Key, c: Context, part: Part, lock: Option<nat>, total: nat, clock: nat): State {
    State(true, None, [part], [lock], map[0 := c], total, clock, [Thread(at, 0, 0, k', false)])
  }

  /** A context of which the thread, if any, holds the lock. */
  function Held(k: Key, refcnt: nat, owner: Option<nat>, stamp: nat): Context {
    Context(k, true, refcnt, owner, refcnt == 0, stamp)
  }

  lemma {:induction false} Goes(run: seq<State>, op: Op, b: Thread, s': State) returns (run': seq<State>)
    requires IsRun(run) && |Last(run).threads| == 1 && Enabled(Last(run), op) && Edge(|Last(run).parts|, Last(run).threads[0], op, b)
    requires s' == Apply(Last(run), 0, op).(threads := [b])
    ensures IsRun(run') && Last(run') == s'
  {
    assert Last(run).threads[0 := b] == [b];
    run' := Extend(run, 0, op, b);
  }

  /** Dropping a reference: the lock is taken, and given back with the reference. */
  lemma {:induction false} Releases(run: seq<State>, k: Key, k': Key, r: nat, stamp: nat, part: Part, total: nat, clock: nat)
    returns (run': seq<State>)
    requires r > 0 && IsRun(run) && Last(run) == Alone(Use(UnrefWait), k, k', Held(k, r, None, stamp), part, None, total, clock)
    ensures IsRun(run') && Last(run') == Alone(Idle, k, k', Held(k, r - 1, None, stamp), part, None, total, clock)
  {
    var a := Thread(Use(UnrefLocked), 0, 0, k', false);
    run' := Goes(run, TakeContext(0), a, Alone(a.at, k, k', Held(k, r, Some(0), stamp), part, None, total, clock));
    run' := Goes(run', Unref(0), a.(at := Idle), Alone(Idle, k, k', Held(k, r - 1, None, stamp), part, None, total, clock));
  }

  /** The context is established and served, and then only the cache refers to it. */
  lemma {:induction false} ServedReachable(k: Key) returns (run: seq<State>)
    ensures IsRun(run) && Last(run) == Alone(Idle, k, Key(0, 0), Held(k, 1, None, 0), Enqueue(EMPTY_PART, k, 0), None, 1, 1)
  {
    var part, z := Enqueue(EMPTY_PART, k, 0), Key(0, 0);
    run := [AtRest(1)];
    run := Establish(run, 0, 0, k);
    assert Last(run) == Alone(Init(Reply), k, z, Held(k, 2, Some(0), 0), part, None, 1, 1);
    var a := Thread(Init(Established), 0, 0, z, false);
    run := Goes(run, Local, a, Alone(a.at, k, z, Held(k, 2, Some(0), 0), part, None, 1, 1));
    a := a.(at := Use(Serving));
    run := Goes(run, DropContext(0), a, Alone(a.at, k, z, Held(k, 2, None, 0), part, None, 1, 1));
    a := a.(at := Use(UnrefWait));
    run := Goes(run, Local, a, Alone(a.at, k, z, Held(k, 2, None, 0), part, None, 1, 1));
    run := Releases(run, k, z, 2, 0, part, 1, 1);
  }

  lemma {:induction false} OnlyContext(k: Key, names: Names)
    requires 0 in names && names[0] == k
    ensures var part := Enqueue(EMPTY_PART, k, 0);
      Touch(part, k, 0) == part && Find(part, names, k) == Some(0) && Dequeue(part, names, k, 0) == EMPTY_PART
  {
    var part, q := Enqueue(EMPTY_PART, k, 0), [0];
    assert part.queue == q && q[1..] == [];
    assert Without(q, 0) == Without(q[1..], 0) == [];
    assert part.tree - {k} == map[] && part.cache - {Slot(k)} == map[];
  }

  /** A second request looks it up, and has it. */
  lemma {:induction false} FoundReachable(k: Key) returns (run: seq<State>)
    ensures IsRun(run) && Last(run) == Alone(Get(GetHit), k, k, Held(k, 2, None, 1), Enqueue(EMPTY_PART, k, 0), Some(0), 1, 2)
  {
    var part := Enqueue(EMPTY_PART, k, 0);
    run := ServedReachable(k);
    var a := Thread(Get(GetWait), 0, 0, k, false);
    run := Goes(run, Flag(true), a, Alone(a.at, k, k, Held(k, 1, None, 0), part, None, 1, 1));
    a := a.(at := Get(GetRecheck));
    run := Goes(run, TakePart(0), a, Alone(a.at, k, k, Held(k, 1, None, 0), part, Some(0), 1, 1));
    a := a.(at := Get(GetLookup));
    run := Goes(run, Flag(true), a, Alone(a.at, k, k, Held(k, 1, None, 0), part, Some(0), 1, 1));
    a := a.(at := Get(GetHit));
    OnlyContext(k, NamesOf(Last(run).ctxs));
    run := Goes(run, Hit(0, k, 0), a, Alone(a.at, k, k, Held(k, 2, None, 1), part, Some(0), 1, 2));
  }

  /** It is a request to destroy the context. */
  lemma {:induction false} DestroyReachable(k: Key) returns (run: seq<State>)
    ensures IsRun(run) && Last(run) == Alone(Del(DelRoute), k, k, Held(k, 2, None, 1), Enqueue(EMPTY_PART, k, 0), None, 1, 2)
  {
    var part := Enqueue(EMPTY_PART, k, 0);
    run := FoundReachable(k);
    var a := Thread(Use(Have), 0, 0, k, false);
    run := Goes(run, DropPart(0), a, Alone(a.at, k, k, Held(k, 2, None, 1), part, None, 1, 2));
    a := a.(at := Use(DataLocked));
    run := Goes(run, TakeContext(0), a, Alone(a.at, k, k, Held(k, 2, Some(0), 1), part, None, 1, 2));
    a := a.(at := Use(Destroying));
    run := Goes(run, Local, a, Alone(a.at, k, k, Held(k, 2, Some(0), 1), part, None, 1, 2));
    a := a.(at := Del(DelRoute));
    run := Goes(run, DropContext(0), a, Alone(a.at, k, k, Held(k, 2, None, 1), part, None, 1, 2));
  }

  lemma {:induction false} RemoveReachable(k: Key) returns (run: seq<State>)
    ensures IsRun(run) && Last(run) == Alone(Del(DelCount), k, k, Held(k, 2, None, 1), EMPTY_PART, None, 1, 2)
  {
    var part := Enqueue(EMPTY_PART, k, 0);
    run := DestroyReachable(k);
    var a := Thread(Del(DelWait), 0, 0, k, false);
    run := Goes(run, Goto(0, 0), a, Alone(a.at, k, k, Held(k, 2, None, 1), part, None, 1, 2));
    a := a.(at := Del(DelCheck));
    run := Goes(run, TakePart(0), a, Alone(a.at, k, k, Held(k, 2, None, 1), part, Some(0), 1, 2));
    a := a.(at := Del(DelUnlock));
    OnlyContext(k, NamesOf(Last(run).ctxs));
    run := Goes(run, Remove(0, 0), a, Alone(a.at, k, k, Held(k, 2, None, 1), EMPTY_PART, Some(0), 1, 2));
    a := a.(at := Del(DelCount));
    run := Goes(run, DropPart(0), a, Alone(a.at, k, k, Held(k, 2, None, 1), EMPTY_PART, None, 1, 2));
  }

  /** Created, served, found, destroyed and freed: at the end the cache is empty, and nothing is left to do. */
  lemma {:induction false} LifeReachable(k: Key) returns (run: seq<State>)
    ensures IsRun(run) && AllIdle(Last(run)) && Last(run).parts == [EMPTY_PART] && Last(run).total == 0
    ensures 0 in Last(run).ctxs && Last(run).ctxs[0].freed
  {
    run := RemoveReachable(k);
    var a := Thread(Del(DelUnrefWait), 0, 0, k, false);
    run := Goes(run, CountDown, a, Alone(a.at, k, k, Held(k, 2, None, 1), EMPTY_PART, None, 0, 2));
    a := a.(at := Del(DelUnrefLocked));
    run := Goes(run, TakeContext(0), a, Alone(a.at, k, k, Held(k, 2, Some(0), 1), EMPTY_PART, None, 0, 2));
    a := a.(at := Del(DelDone));
    run := Goes(run, Unref(0), a, Alone(a.at, k, k, Held(k, 1, None, 1), EMPTY_PART, None, 0, 2));
    a := a.(at := Use(UnrefWait));
    run := Goes(run, Local, a, Alone(a.at, k, k, Held(k, 1, None, 1), EMPTY_PART, None, 0, 2));
    run := Releases(run, k, k, 1, 1, EMPTY_PART, 0, 2);
  }
}
