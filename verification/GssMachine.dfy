/**
 The state shared by the threads of `GssThreads`, what each operation needs and does, and what every
 interleaving of the threads keeps.
 */
module GssMachine {
  import opened Basics
  import opened GssCache
  import opened GssThreads

  /**
   A context: its key, whether the hash of the key has been stored, its reference count, the thread that holds its
   lock, and when it was last set or looked up.
   */
  datatype Context = Context(key: Key, hashed: bool, refcnt: nat, owner: Option<nat>, freed: bool, stamp: nat)

  /** `owners` are the holders of the partition mutexes, `status` the holder of the lock of the switch. */
  datatype State = State(enabled: bool, status: Option<nat>, parts: seq<Part>, owners: seq<Option<nat>>,
                         ctxs: map<ContextId, Context>, total: nat, clock: nat, threads: seq<Thread>)

  function NamesOf(ctxs: map<ContextId, Context>): (names: Names)
    ensures names.Keys == ctxs.Keys
  {
    map g | g in ctxs :: ctxs[g].key
  }

  function Home(k: Key, n: nat): nat
    requires n > 0
  {
    Hash(k) % n
  }

  /** A reference count that goes down; below zero it would wrap around. */
  function Less(refcnt: nat): nat {
    if refcnt == 0 then COUNTER_MOD - 1 else refcnt - 1
  }

  // ----- operations -----

  predicate Enabled(s: State, op: Op) {
    match op
    case Local | DropStatus | CountUp | CountDown => true
    case Flag(on) => s.enabled == on
    case Switch(on) => s.enabled != on
    case TakeStatus => s.status == None
    case Route(g, p) => g in s.ctxs && |s.parts| > 0 && p == Home(s.ctxs[g].key, |s.parts|)
    case Goto(g, p) => g in s.ctxs && |s.parts| > 0 && p == if s.ctxs[g].hashed then Home(s.ctxs[g].key, |s.parts|) else 0
    case TakePart(p) => p < |s.owners| && s.owners[p] == None
    case DropPart(p) => p < |s.owners|
    case TakeContext(g) => g in s.ctxs && s.ctxs[g].owner == None
    case DropContext(g) => g in s.ctxs
    case New(g, _) => g !in s.ctxs
    case Ref(g) => g in s.ctxs
    case Deref(g) => g in s.ctxs
    case Unref(g) => g in s.ctxs
    case Insert(p, g) => p < |s.parts| && g in s.ctxs
    case Hit(p, k, g) => p < |s.parts| && g in s.ctxs && Find(s.parts[p], NamesOf(s.ctxs), k) == Some(g)
    case Miss(p, k) => p < |s.parts| && Find(s.parts[p], NamesOf(s.ctxs), k) == None
    case Remove(p, g) => p < |s.parts| && g in s.ctxs && g in s.parts[p].queue && s.parts[p].size > 0
    case Absent(p, g) => forall q :: 0 <= q < |s.parts| ==> g !in s.parts[q].queue
    case Head(p, g) => p < |s.parts| && g in s.ctxs && s.parts[p].queue != [] && s.parts[p].queue[0] == g && s.parts[p].size > 0
    case QueueEmpty(p) => p < |s.parts| && s.parts[p].queue == []
  }

  function WithContext(s: State, g: ContextId, c: Context): State {
    s.(ctxs := s.ctxs[g := c])
  }

  function Apply(s: State, t: nat, op: Op): State
    requires Enabled(s, op)
  {
    match op
    case Local | Flag(_) | Goto(_, _) | Miss(_, _) | Absent(_, _) | QueueEmpty(_) => s
    case Route(g, _) => WithContext(s, g, s.ctxs[g].(hashed := true))
    case Switch(on) => s.(enabled := on)
    case TakeStatus => s.(status := Some(t))
    case DropStatus => s.(status := None)
    case TakePart(p) => s.(owners := s.owners[p := Some(t)])
    case DropPart(p) => s.(owners := s.owners[p := None])
    case TakeContext(g) => WithContext(s, g, s.ctxs[g].(owner := Some(t)))
    case DropContext(g) => WithContext(s, g, s.ctxs[g].(owner := None))
    case New(g, k) => WithContext(s, g, Context(k, false, 1, Some(t), false, s.clock))
    case Ref(g) => WithContext(s, g, s.ctxs[g].(refcnt := s.ctxs[g].refcnt + 1))
    case Deref(g) => WithContext(s, g, s.ctxs[g].(refcnt := Less(s.ctxs[g].refcnt)))
    case Unref(g) =>
      var r := Less(s.ctxs[g].refcnt);
      WithContext(s, g, s.ctxs[g].(refcnt := r, owner := None, freed := s.ctxs[g].freed || r == 0))
    case Insert(p, g) =>
      WithContext(s, g, s.ctxs[g].(stamp := s.clock))
        .(parts := s.parts[p := Enqueue(s.parts[p], s.ctxs[g].key, g)], clock := s.clock + 1)
    case Hit(p, k, g) =>
      WithContext(s, g, s.ctxs[g].(refcnt := s.ctxs[g].refcnt + 1, stamp := s.clock))
        .(parts := s.parts[p := Touch(s.parts[p], k, g)], clock := s.clock + 1)
    case Remove(p, g) => s.(parts := s.parts[p := Dequeue(s.parts[p], NamesOf(s.ctxs), s.ctxs[g].key, g)])
    case Head(p, g) => s.(parts := s.parts[p := Dequeue(s.parts[p], NamesOf(s.ctxs), s.ctxs[g].key, g)])
    case CountUp => s.(total := Wrap(s.total + 1))
    case CountDown => s.(total := Wrap(s.total - 1))
  }

  /** Thread `t` does `op` and goes on at `b`. */
  predicate Move(s: State, t: nat, op: Op, b: Thread, s': State) {
    t < |s.threads| && Enabled(s, op) && s' == Apply(s, t, op).(threads := s.threads[t := b])
  }

  predicate Step(s: State, t: nat, op: Op, b: Thread, s': State) {
    Move(s, t, op, b, s') && Edge(|s.parts|, s.threads[t], op, b)
  }

  ghost predicate Next(s: State, s': State) {
    exists t, op, b :: Step(s, t, op, b, s')
  }

  /** RPCSEC_GSS is on, the cache is empty and no thread does anything yet. */
  predicate Start(s: State) {
    && s.enabled && s.status == None && |s.parts| == |s.owners| > 0 && s.ctxs == map[] && s.total == 0
    && (forall p :: 0 <= p < |s.parts| ==> s.parts[p] == EMPTY_PART && s.owners[p] == None)
    && (forall t :: 0 <= t < |s.threads| ==> s.threads[t].at == Idle)
  }

  ghost predicate IsRun(run: seq<State>) {
    && |run| > 0 && Start(run[0])
    && forall i :: 0 <= i < |run| - 1 ==> NextAt(run, i)
  }

  ghost predicate NextAt(run: seq<State>, i: nat)
    requires i + 1 < |run|
  {
    Next(run[i], run[i + 1])
  }

  // ----- mutexes and locks -----

  ghost predicate PartLocks(s: State) {
    && |s.owners| == |s.parts| > 0
    && forall t :: 0 <= t < |s.threads| && HasPart(s.threads[t].at) ==>
          s.threads[t].p < |s.parts| && s.owners[s.threads[t].p] == Some(t)
  }

  ghost predicate ContextLocks(s: State) {
    forall t :: 0 <= t < |s.threads| && HasContext(s.threads[t]) ==>
          s.threads[t].g in s.ctxs && s.ctxs[s.threads[t].g].owner == Some(t)
  }

  ghost predicate StatusLock(s: State) {
    forall t :: 0 <= t < |s.threads| && HasStatus(s.threads[t]) ==> s.status == Some(t)
  }

  ghost predicate NoneDoubled(s: State) {
    forall t :: 0 <= t < |s.threads| ==> !Doubled(s.threads[t])
  }

  /** Every mutex and lock a thread believes to hold is its own, and none takes a context lock twice. */
  ghost predicate Locks(s: State) {
    PartLocks(s) && ContextLocks(s) && StatusLock(s) && NoneDoubled(s)
  }

  ghost predicate PartOwners(s: State) {
    forall p :: 0 <= p < |s.owners| && s.owners[p].Some? ==> HoldsPart(s, s.owners[p].value, p)
  }

  ghost predicate HoldsPart(s: State, t: nat, p: nat) {
    t < |s.threads| && HasPart(s.threads[t].at) && s.threads[t].p == p
  }

  ghost predicate ContextOwners(s: State) {
    forall g :: g in s.ctxs && s.ctxs[g].owner.Some? ==> HoldsContext(s, s.ctxs[g].owner.value, g)
  }

  ghost predicate HoldsContext(s: State, t: nat, g: ContextId) {
    t < |s.threads| && HasContext(s.threads[t]) && s.threads[t].g == g
  }

  ghost predicate StatusOwner(s: State) {
    s.status.Some? ==> s.status.value < |s.threads| && HasStatus(s.threads[s.status.value])
  }

  /** Every mutex and lock that is taken is held by a thread that knows it. */
  ghost predicate Owners(s: State) {
    PartOwners(s) && ContextOwners(s) && StatusOwner(s)
  }

  lemma {:induction false} PartLocksKept(s: State, t: nat, op: Op, b: Thread, s': State)
    requires Move(s, t, op, b, s') && LocksFollow(s.threads[t], op, b) && PartLocks(s)
    ensures PartLocks(s')
  {
  }

  lemma {:induction false} ContextLocksKept(s: State, t: nat, op: Op, b: Thread, s': State)
    requires Move(s, t, op, b, s') && LocksFollow(s.threads[t], op, b) && ContextLocks(s) && NoneDoubled(s)
    ensures ContextLocks(s')
  {
  }

  lemma {:induction false} StatusLockKept(s: State, t: nat, op: Op, b: Thread, s': State)
    requires Move(s, t, op, b, s') && LocksFollow(s.threads[t], op, b) && StatusLock(s)
    ensures StatusLock(s')
  {
  }

  lemma {:induction false} NoneDoubledKept(s: State, t: nat, op: Op, b: Thread, s': State)
    requires Move(s, t, op, b, s') && LocksFollow(s.threads[t], op, b) && ContextLocks(s) && NoneDoubled(s)
    ensures NoneDoubled(s')
  {
  }

  lemma {:induction false} PartOwnerIs(s: State, t: nat, op: Op, b: Thread, s': State)
    requires Move(s, t, op, b, s')
    ensures s'.owners == if op.TakePart? then s.owners[op.p := Some(t)] else if op.DropPart? then s.owners[op.p := None] else s.owners
  {
  }

  lemma {:induction false} PartOwnersKept(s: State, t: nat, op: Op, b: Thread, s': State)
    requires Move(s, t, op, b, s') && LocksFollow(s.threads[t], op, b) && PartLocks(s) && PartOwners(s)
    ensures PartOwners(s')
  {
    PartOwnerIs(s, t, op, b, s');
    forall p | 0 <= p < |s'.owners| && s'.owners[p].Some? ensures HoldsPart(s', s'.owners[p].value, p) {
      if op != TakePart(p) { assert HoldsPart(s, s'.owners[p].value, p); }
    }
  }

  lemma {:induction false} ContextOwnerIs(s: State, t: nat, op: Op, b: Thread, s': State, g: ContextId)
    requires Move(s, t, op, b, s') && g in s'.ctxs
    ensures s'.ctxs[g].owner ==
      if op == TakeContext(g) || (op.New? && op.g == g) then Some(t)
      else if op == DropContext(g) || op == Unref(g) || g !in s.ctxs then None
      else s.ctxs[g].owner
  {
  }

  lemma {:induction false} ContextOwnersKept(s: State, t: nat, op: Op, b: Thread, s': State)
    requires Move(s, t, op, b, s') && LocksFollow(s.threads[t], op, b) && ContextLocks(s) && NoneDoubled(s) && ContextOwners(s)
    ensures ContextOwners(s')
  {
    forall g | g in s'.ctxs && s'.ctxs[g].owner.Some? ensures HoldsContext(s', s'.ctxs[g].owner.value, g) {
      ContextOwnerIs(s, t, op, b, s', g);
      if op != TakeContext(g) && !(op.New? && op.g == g) {
        assert HoldsContext(s, s'.ctxs[g].owner.value, g);
      }
    }
  }

  lemma {:induction false} StatusOwnerKept(s: State, t: nat, op: Op, b: Thread, s': State)
    requires Move(s, t, op, b, s') && LocksFollow(s.threads[t], op, b) && StatusLock(s) && StatusOwner(s)
    ensures StatusOwner(s')
  {
  }

  // ----- partitions -----

  ghost predicate Young(q: seq<ContextId>, ctxs: map<ContextId, Context>, clock: nat) {
    && (forall g :: g in q ==> g in ctxs && ctxs[g].stamp < clock)
    && (forall i, j :: 0 <= i < j < |q| ==> ctxs[q[i]].stamp < ctxs[q[j]].stamp)
  }

  /** Each partition is sound, holds only contexts that belong there, and keeps them in the order of their last use. */
  ghost predicate PartOk(s: State, p: nat)
    requires p < |s.parts|
  {
    && Sound(s.parts[p], NamesOf(s.ctxs))
    && (forall g :: g in s.parts[p].queue ==> g in s.ctxs && s.ctxs[g].hashed && Home(s.ctxs[g].key, |s.parts|) == p)
    && Young(s.parts[p].queue, s.ctxs, s.clock)
  }

  ghost predicate PartsOk(s: State) {
    forall p :: 0 <= p < |s.parts| ==> PartOk(s, p)
  }

  lemma {:induction false} NamesKept(s: State, t: nat, op: Op, b: Thread, s': State)
    requires Move(s, t, op, b, s')
    ensures s.ctxs.Keys <= s'.ctxs.Keys
    ensures forall g :: g in s.ctxs ==> s'.ctxs[g].key == s.ctxs[g].key && (s.ctxs[g].hashed ==> s'.ctxs[g].hashed)
    ensures |s'.parts| == |s.parts|
  {
  }

  /** Soundness only depends on the names of the contexts in the queue. */
  lemma {:induction false} SoundNames(part: Part, names: Names, names': Names)
    requires Sound(part, names) && names.Keys <= names'.Keys && forall g :: g in names ==> names'[g] == names[g]
    ensures Sound(part, names')
  {
  }

  /** A partition that is not worked on stays in order, as its contexts keep their stamps. */
  lemma {:induction false} OtherPartKept(s: State, s': State, p: nat)
    requires p < |s.parts| == |s'.parts| && PartOk(s, p) && s'.parts[p] == s.parts[p] && s.clock <= s'.clock
    requires s.ctxs.Keys <= s'.ctxs.Keys
    requires forall g :: g in s.ctxs ==> s'.ctxs[g].key == s.ctxs[g].key && (s.ctxs[g].hashed ==> s'.ctxs[g].hashed)
    requires forall g :: g in s.parts[p].queue && g in s.ctxs ==> s'.ctxs[g].stamp == s.ctxs[g].stamp
    ensures PartOk(s', p)
  {
    SoundNames(s.parts[p], NamesOf(s.ctxs), NamesOf(s'.ctxs));
  }

  lemma {:induction false} YoungTail(q: seq<ContextId>, ctxs: map<ContextId, Context>, clock: nat)
    requires Young(q, ctxs, clock) && q != []
    ensures Young(q[1..], ctxs, clock) && forall x :: x in q[1..] ==> ctxs[q[0]].stamp < ctxs[x].stamp
  {
    assert forall x :: x in q[1..] ==> x in q;
    forall x | x in q[1..] ensures ctxs[q[0]].stamp < ctxs[x].stamp {
      var i :| 0 <= i < |q[1..]| && q[1..][i] == x;
      assert q[i + 1] == x;
    }
  }

  lemma {:induction false} YoungCons(g: ContextId, r: seq<ContextId>, ctxs: map<ContextId, Context>, clock: nat)
    requires Young(r, ctxs, clock) && g in ctxs && ctxs[g].stamp < clock && forall x :: x in r ==> ctxs[g].stamp < ctxs[x].stamp
    ensures Young([g] + r, ctxs, clock)
  {
    var q := [g] + r;
    forall i, j | 0 <= i < j < |q| ensures ctxs[q[i]].stamp < ctxs[q[j]].stamp {
      assert q[j] == r[j - 1] && (i > 0 ==> q[i] == r[i - 1]);
    }
  }

  lemma {:induction false} YoungWithout(q: seq<ContextId>, ctxs: map<ContextId, Context>, clock: nat, g: ContextId)
    requires Young(q, ctxs, clock)
    ensures Young(Without(q, g), ctxs, clock)
  {
    if q != [] {
      YoungTail(q, ctxs, clock);
      YoungWithout(q[1..], ctxs, clock, g);
      if q[0] != g { YoungCons(q[0], Without(q[1..], g), ctxs, clock); }
    }
  }

  /** The youngest context goes to the end. */
  lemma {:induction false} YoungAppend(q: seq<ContextId>, ctxs: map<ContextId, Context>, g: ContextId, c: Context)
    requires Young(q, ctxs, c.stamp) && g !in q
    ensures Young(q + [g], ctxs[g := c], c.stamp + 1)
  {
  }

  // ----- threads and their contexts -----

  /** A thread that has routed its context works on the partition the context belongs to. */
  ghost predicate Routes(s: State) {
    forall t :: 0 <= t < |s.threads| && Routed(s.threads[t].at) ==> RouteOk(s, s.threads[t].g, s.threads[t].p)
  }

  ghost predicate RouteOk(s: State, g: ContextId, p: nat) {
    p < |s.parts| && g in s.ctxs && s.ctxs[g].hashed && p == Home(s.ctxs[g].key, |s.parts|)
  }

  lemma {:induction false} RoutesKept(s: State, t: nat, op: Op, b: Thread, s': State)
    requires Move(s, t, op, b, s') && WorkFollows(|s.parts|, s.threads[t], op, b) && Routes(s)
    ensures Routes(s')
  {
    NamesKept(s, t, op, b, s');
  }

  /** While a context is being established it is not queued before its insertion. */
  ghost predicate Unqueued(s: State) {
    forall t, p :: 0 <= t < |s.threads| && 0 <= p < |s.parts| && BeforeInsert(s.threads[t].at) ==> s.threads[t].g !in s.parts[p].queue
  }

  // ----- each kind of work keeps the partitions in order -----

  /** Work on context `g` in partition `p` leaves the other partitions in order. */
  lemma {:induction false} OthersKept(s: State, s': State, p: nat, g: ContextId)
    requires PartsOk(s) && p < |s.parts| == |s'.parts| && s.clock <= s'.clock
    requires s.ctxs.Keys <= s'.ctxs.Keys && g in s.ctxs && Home(s.ctxs[g].key, |s.parts|) == p
    requires forall h :: h in s.ctxs ==> s'.ctxs[h].key == s.ctxs[h].key && (s.ctxs[h].hashed ==> s'.ctxs[h].hashed)
    requires forall h :: h in s.ctxs && h != g ==> s'.ctxs[h].stamp == s.ctxs[h].stamp
    requires forall q :: 0 <= q < |s.parts| && q != p ==> s'.parts[q] == s.parts[q]
    requires PartOk(s', p)
    ensures PartsOk(s')
  {
    forall q | 0 <= q < |s'.parts| ensures PartOk(s', q) {
      assert PartOk(s, q);
      if q != p { OtherPartKept(s, s', q); }
    }
  }

  lemma {:induction false} InsertKept(s: State, t: nat, p: nat, g: ContextId, b: Thread, s': State)
    requires Move(s, t, Insert(p, g), b, s') && PartsOk(s) && |s.parts| > 0
    requires s.ctxs[g].hashed && Home(s.ctxs[g].key, |s.parts|) == p && g !in s.parts[p].queue
    ensures PartsOk(s')
  {
    NamesKept(s, t, Insert(p, g), b, s');
    assert PartOk(s, p);
    EnqueueSound(s.parts[p], NamesOf(s.ctxs), s.ctxs[g].key, g);
    SoundNames(s'.parts[p], NamesOf(s.ctxs), NamesOf(s'.ctxs));
    YoungAppend(s.parts[p].queue, s.ctxs, g, s'.ctxs[g]);
    OthersKept(s, s', p, g);
  }

  lemma {:induction false} HitPart(s: State, t: nat, p: nat, k: Key, g: ContextId, b: Thread, s': State)
    requires Move(s, t, Hit(p, k, g), b, s') && PartOk(s, p) && |s.parts| > 0
    ensures p < |s'.parts| && PartOk(s', p) && g in s.parts[p].queue
  {
    NamesKept(s, t, Hit(p, k, g), b, s');
    TouchSound(s.parts[p], NamesOf(s.ctxs), k, g);
    SoundNames(s'.parts[p], NamesOf(s.ctxs), NamesOf(s'.ctxs));
    YoungWithout(s.parts[p].queue, s.ctxs, s.clock, g);
    YoungAppend(Without(s.parts[p].queue, g), s.ctxs, g, s'.ctxs[g]);
  }

  lemma {:induction false} HitKept(s: State, t: nat, p: nat, k: Key, g: ContextId, b: Thread, s': State)
    requires Move(s, t, Hit(p, k, g), b, s') && PartsOk(s) && |s.parts| > 0
    ensures PartsOk(s')
  {
    assert PartOk(s, p);
    HitPart(s, t, p, k, g, b, s');
    NamesKept(s, t, Hit(p, k, g), b, s');
    OthersKept(s, s', p, g);
  }

  lemma {:induction false} DequeueKept(s: State, t: nat, op: Op, b: Thread, s': State)
    requires Move(s, t, op, b, s') && PartsOk(s) && (op.Remove? || op.Head?)
    ensures PartsOk(s')
  {
    var p, g := op.p, op.g;
    assert PartOk(s, p);
    DequeueSound(s.parts[p], NamesOf(s.ctxs), s.ctxs[g].key, g);
    YoungWithout(s.parts[p].queue, s.ctxs, s.clock, g);
    OthersKept(s, s', p, g);
  }

  predicate Queues(op: Op) {
    op.Insert? || op.Hit? || op.Remove? || op.Head?
  }

  lemma {:induction false} QuietKept(s: State, t: nat, op: Op, b: Thread, s': State)
    requires Move(s, t, op, b, s') && PartsOk(s) && !Queues(op)
    ensures s'.parts == s.parts && PartsOk(s')
  {
    NamesKept(s, t, op, b, s');
    QuietStamps(s, t, op, b, s');
    forall q | 0 <= q < |s'.parts| ensures PartOk(s', q) {
      assert PartOk(s, q);
      OtherPartKept(s, s', q);
    }
  }

  lemma {:induction false} QuietStamps(s: State, t: nat, op: Op, b: Thread, s': State)
    requires Move(s, t, op, b, s') && !Queues(op)
    ensures s'.parts == s.parts && s'.clock == s.clock
    ensures forall g :: g in s.ctxs ==> g in s'.ctxs && s'.ctxs[g].stamp == s.ctxs[g].stamp
  {
  }

  lemma {:induction false} PartsKept(s: State, t: nat, op: Op, b: Thread, s': State)
    requires Move(s, t, op, b, s') && WorkFollows(|s.parts|, s.threads[t], op, b) && InsertFollows(s.threads[t], op, b)
    requires PartLocks(s) && PartsOk(s) && Routes(s) && Unqueued(s)
    ensures PartsOk(s')
  {
    if op.Insert? {
      InsertKept(s, t, op.p, op.g, b, s');
    } else if op.Hit? {
      HitKept(s, t, op.p, op.k, op.g, b, s');
    } else if Queues(op) {
      DequeueKept(s, t, op, b, s');
    } else {
      QuietKept(s, t, op, b, s');
    }
  }

  /** What an operation makes of the queue of partition `p`. */
  function QueueAfter(op: Op, p: nat, q: seq<ContextId>): seq<ContextId> {
    if op.Insert? && op.p == p then q + [op.g]
    else if op.Hit? && op.p == p then Without(q, op.g) + [op.g]
    else if (op.Remove? || op.Head?) && op.p == p then Without(q, op.g)
    else q
  }

  lemma {:induction false} QueueIs(s: State, t: nat, op: Op, b: Thread, s': State, p: nat)
    requires Move(s, t, op, b, s') && p < |s.parts|
    ensures p < |s'.parts| && s'.parts[p].queue == QueueAfter(op, p, s.parts[p].queue)
  {
    match op
    case Insert(_, _) =>
    case Hit(_, _, _) =>
    case Remove(_, _) =>
    case Head(_, _) =>
    case _ => QuietStamps(s, t, op, b, s');
  }

  /** A context enters a queue by its insertion and leaves it by its removal. */
  lemma {:induction false} QueuedAfter(s: State, t: nat, op: Op, b: Thread, s': State, p: nat, g: ContextId)
    requires Move(s, t, op, b, s') && p < |s.parts| && PartOk(s, p)
    ensures p < |s'.parts|
    ensures g in s'.parts[p].queue <==>
      op == Insert(p, g) || (g in s.parts[p].queue && op != Remove(p, g) && op != Head(p, g))
  {
    QueueIs(s, t, op, b, s', p);
    if op.Hit? && op.p == p {
      HitQueued(s, op);
    }
  }

  lemma {:induction false} HitQueued(s: State, op: Op)
    requires op.Hit? && Enabled(s, op) && PartOk(s, op.p)
    ensures op.g in s.parts[op.p].queue
  {
    TouchSound(s.parts[op.p], NamesOf(s.ctxs), op.k, op.g);
  }

  lemma {:induction false} UnqueuedKept(s: State, t: nat, op: Op, b: Thread, s': State)
    requires Move(s, t, op, b, s') && InsertFollows(s.threads[t], op, b)
    requires ContextLocks(s) && PartsOk(s) && Unqueued(s)
    ensures Unqueued(s')
  {
    NamesKept(s, t, op, b, s');
    forall u, p | 0 <= u < |s'.threads| && 0 <= p < |s'.parts| && BeforeInsert(s'.threads[u].at)
      ensures s'.threads[u].g !in s'.parts[p].queue
    {
      var h := s'.threads[u].g;
      assert PartOk(s, p);
      if h in s'.parts[p].queue {
        QueuedAfter(s, t, op, b, s', p, h);
      }
    }
  }

  // ----- references -----

  function TokenSum(threads: seq<Thread>, g: ContextId): nat {
    if threads == [] then 0 else Tokens(threads[0], g) + TokenSum(threads[1..], g)
  }

  lemma {:induction false} TokenSumUpdate(threads: seq<Thread>, t: nat, b: Thread, g: ContextId)
    requires t < |threads|
    ensures TokenSum(threads[t := b], g) == TokenSum(threads, g) - Tokens(threads[t], g) + Tokens(b, g)
    ensures TokenSum(threads, g) >= Tokens(threads[t], g)
  {
    if t == 0 {
      assert threads[t := b][1..] == threads[1..];
    } else {
      assert threads[t := b][1..] == threads[1..][t - 1 := b];
      TokenSumUpdate(threads[1..], t - 1, b, g);
    }
  }

  /** One for a context that is queued: the reference the cache itself holds. */
  function Sentinel(s: State, g: ContextId): nat
    requires g in s.ctxs && |s.parts| > 0
  {
    if g in s.parts[Home(s.ctxs[g].key, |s.parts|)].queue then 1 else 0
  }

  ghost predicate CountOk(s: State, g: ContextId)
    requires g in s.ctxs && |s.parts| > 0
  {
    && s.ctxs[g].refcnt == Sentinel(s, g) + TokenSum(s.threads, g)
    && (s.ctxs[g].freed <==> s.ctxs[g].refcnt == 0)
  }

  /** The reference count of every context is one if it is queued, plus the references the threads hold. */
  ghost predicate CountsOk(s: State) {
    && |s.parts| > 0
    && (forall g :: g in s.ctxs ==> CountOk(s, g))
    && (forall g :: g !in s.ctxs ==> TokenSum(s.threads, g) == 0)
  }

  /** What an operation adds to the sentinel of `g`. */
  function SentinelGain(op: Op, g: ContextId): int {
    if op.Insert? && op.g == g then 1 else if (op.Remove? || op.Head?) && op.g == g then -1 else 0
  }

  /** A context is in the queue it belongs to, or in none. */
  lemma {:induction false} SentinelChange(s: State, t: nat, op: Op, b: Thread, s': State, g: ContextId)
    requires Move(s, t, op, b, s') && WorkFollows(|s.parts|, s.threads[t], op, b) && InsertFollows(s.threads[t], op, b)
    requires PartLocks(s) && PartsOk(s) && Routes(s) && Unqueued(s) && g in s.ctxs
    ensures g in s'.ctxs && |s'.parts| == |s.parts| && Sentinel(s', g) == Sentinel(s, g) + SentinelGain(op, g)
  {
    NamesKept(s, t, op, b, s');
    var h := Home(s.ctxs[g].key, |s.parts|);
    assert PartOk(s, h);
    QueuedAfter(s, t, op, b, s', h, g);
    if op.Remove? || op.Head? {
      assert PartOk(s, op.p);
    }
  }

  function RefGain(op: Op, g: ContextId): int {
    Gain(op, g) + SentinelGain(op, g)
  }

  lemma {:induction false} RefChange(s: State, t: nat, op: Op, b: Thread, s': State, g: ContextId)
    requires Move(s, t, op, b, s') && g in s.ctxs
    requires RefGain(op, g) < 0 ==> s.ctxs[g].refcnt > 0
    ensures g in s'.ctxs && s'.ctxs[g].refcnt == s.ctxs[g].refcnt + RefGain(op, g)
    ensures s'.ctxs[g].freed == (s.ctxs[g].freed || (op == Unref(g) && s'.ctxs[g].refcnt == 0))
  {
  }

  /** References are only added to contexts that have one. */
  lemma {:induction false} RefAlive(s: State, t: nat, op: Op, b: Thread, s': State, g: ContextId)
    requires Move(s, t, op, b, s') && WorkFollows(|s.parts|, s.threads[t], op, b)
    requires PartLocks(s) && PartsOk(s) && g in s.ctxs && CountOk(s, g) && RefGain(op, g) != 0
    ensures s.ctxs[g].refcnt > 0 && (op.Deref? ==> s.ctxs[g].refcnt > 1)
  {
    TokenSumUpdate(s.threads, t, b, g);
    if op.Hit? {
      assert PartOk(s, op.p);
      TouchSound(s.parts[op.p], NamesOf(s.ctxs), op.k, op.g);
    }
  }

  lemma {:induction false} CountKept(s: State, t: nat, op: Op, b: Thread, s': State, g: ContextId)
    requires Move(s, t, op, b, s') && WorkFollows(|s.parts|, s.threads[t], op, b) && InsertFollows(s.threads[t], op, b)
    requires Tokens(b, g) == Tokens(s.threads[t], g) + Gain(op, g)
    requires PartLocks(s) && PartsOk(s) && Routes(s) && Unqueued(s) && g in s.ctxs && CountOk(s, g)
    ensures g in s'.ctxs && |s'.parts| > 0 && CountOk(s', g)
  {
    TokenSumUpdate(s.threads, t, b, g);
    SentinelChange(s, t, op, b, s', g);
    if RefGain(op, g) != 0 { RefAlive(s, t, op, b, s', g); }
    RefChange(s, t, op, b, s', g);
  }

  /** A context appears with one reference, held by its thread, and is not queued. */
  lemma {:induction false} NewCount(s: State, t: nat, g: ContextId, k: Key, b: Thread, s': State)
    requires Move(s, t, New(g, k), b, s') && PartsOk(s) && CountsOk(s)
    requires Tokens(b, g) == Tokens(s.threads[t], g) + Gain(New(g, k), g)
    ensures g in s'.ctxs && |s'.parts| > 0 && CountOk(s', g)
  {
    TokenSumUpdate(s.threads, t, b, g);
    assert PartOk(s, Home(k, |s.parts|));
  }

  lemma {:induction false} NoTokens(s: State, t: nat, op: Op, b: Thread, s': State, g: ContextId)
    requires Move(s, t, op, b, s') && CountsOk(s) && g !in s'.ctxs
    requires Tokens(b, g) == Tokens(s.threads[t], g) + Gain(op, g)
    ensures TokenSum(s'.threads, g) == 0
  {
    NamesKept(s, t, op, b, s');
    TokenSumUpdate(s.threads, t, b, g);
    assert Gain(op, g) == 0;
  }

  lemma {:induction false} NewContexts(s: State, t: nat, op: Op, b: Thread, s': State, g: ContextId)
    requires Move(s, t, op, b, s') && g in s'.ctxs && g !in s.ctxs
    ensures op.New? && op.g == g
  {
  }

  // ----- contexts that are being established -----

  /** No other thread has a reference on a context before it is inserted. */
  ghost predicate Exclusive(s: State) {
    forall t, u :: 0 <= t < |s.threads| && 0 <= u < |s.threads| && t != u && BeforeInsert(s.threads[t].at) ==>
      Tokens(s.threads[u], s.threads[t].g) == 0
  }

  /** A reference on a context comes from its creation, from the cache or from another reference. */
  lemma {:induction false} TokensFrom(s: State, t: nat, op: Op, b: Thread, s': State, g: ContextId)
    requires Move(s, t, op, b, s') && WorkFollows(|s.parts|, s.threads[t], op, b) && PartsOk(s)
    requires Tokens(b, g) == Tokens(s.threads[t], g) + Gain(op, g) && Tokens(b, g) > 0
    ensures Tokens(s.threads[t], g) > 0 || (op.New? && op.g == g) || exists p :: 0 <= p < |s.parts| && g in s.parts[p].queue
  {
    if op.Hit? {
      assert PartOk(s, op.p);
      TouchSound(s.parts[op.p], NamesOf(s.ctxs), op.k, op.g);
    }
  }

  lemma {:induction false} ExclusiveKept(s: State, t: nat, op: Op, b: Thread, s': State)
    requires Move(s, t, op, b, s') && TokensFollow(s.threads[t], op, b)
    requires WorkFollows(|s.parts|, s.threads[t], op, b) && InsertFollows(s.threads[t], op, b)
    requires ContextLocks(s) && PartsOk(s) && Unqueued(s) && CountsOk(s) && Exclusive(s)
    ensures Exclusive(s')
  {
    forall u, v | 0 <= u < |s'.threads| && 0 <= v < |s'.threads| && u != v && BeforeInsert(s'.threads[u].at)
      ensures Tokens(s'.threads[v], s'.threads[u].g) == 0
    {
      var g := s'.threads[u].g;
      if v == t {
        if Tokens(b, g) > 0 { TokensFrom(s, t, op, b, s', g); }
      } else if u == t {
        TokenSumUpdate(s.threads, v, b, g);
      }
    }
  }

  /** A thread that deletes a context has gone to the partition the context is queued in, if it is. */
  ghost predicate Aims(s: State) {
    forall t :: 0 <= t < |s.threads| && Aimed(s.threads[t].at) ==> AimOk(s, s.threads[t].g, s.threads[t].p)
  }

  ghost predicate AimOk(s: State, g: ContextId, p: nat) {
    p < |s.parts| && g in s.ctxs && (s.ctxs[g].hashed ==> p == Home(s.ctxs[g].key, |s.parts|))
  }

  lemma {:induction false} AimsKept(s: State, t: nat, op: Op, b: Thread, s': State)
    requires Move(s, t, op, b, s') && WorkFollows(|s.parts|, s.threads[t], op, b) && InsertFollows(s.threads[t], op, b)
    requires PartLocks(s) && Exclusive(s) && Aims(s)
    ensures Aims(s')
  {
    forall u | 0 <= u < |s'.threads| && Aimed(s'.threads[u].at) ensures AimOk(s', s'.threads[u].g, s'.threads[u].p) {
      if !op.Goto? || u != t {
        assert AimOk(s, s'.threads[u].g, s'.threads[u].p);
        AimKept(s, t, op, b, s', s'.threads[u].g, s'.threads[u].p);
      }
    }
  }

  /** A context that a thread deletes is not routed by another one. */
  lemma {:induction false} AimKept(s: State, t: nat, op: Op, b: Thread, s': State, g: ContextId, p: nat)
    requires Move(s, t, op, b, s') && AimOk(s, g, p) && !(op.Route? && op.g == g)
    ensures AimOk(s', g, p)
  {
  }

  // ----- the global size -----

  function OwedSum(threads: seq<Thread>): int {
    if threads == [] then 0 else Owed(threads[0].at) + OwedSum(threads[1..])
  }

  lemma {:induction false} OwedSumUpdate(threads: seq<Thread>, t: nat, b: Thread)
    requires t < |threads|
    ensures OwedSum(threads[t := b]) == OwedSum(threads) - Owed(threads[t].at) + Owed(b.at)
  {
    if t == 0 {
      assert threads[t := b][1..] == threads[1..];
    } else {
      assert threads[t := b][1..] == threads[1..][t - 1 := b];
      OwedSumUpdate(threads[1..], t - 1, b);
    }
  }

  /** The contexts in all partitions. */
  function SizeSum(parts: seq<Part>): nat {
    if parts == [] then 0 else |parts[0].queue| + SizeSum(parts[1..])
  }

  lemma {:induction false} SizeSumUpdate(parts: seq<Part>, p: nat, part: Part)
    requires p < |parts|
    ensures SizeSum(parts[p := part]) == SizeSum(parts) - |parts[p].queue| + |part.queue|
  {
    if p == 0 {
      assert parts[p := part][1..] == parts[1..];
    } else {
      assert parts[p := part][1..] == parts[1..][p - 1 := part];
      SizeSumUpdate(parts[1..], p - 1, part);
    }
  }

  /** The global size is the number of queued contexts, but for what the threads still have to count; as 32 bits. */
  predicate TotalOk(s: State) {
    s.total == Wrap(SizeSum(s.parts) - OwedSum(s.threads))
  }

  function SizeGain(op: Op): int {
    if op.Insert? then 1 else if op.Remove? || op.Head? then -1 else 0
  }

  lemma {:induction false} QueueGain(s: State, op: Op)
    requires Enabled(s, op) && Queues(op) && PartOk(s, op.p)
    ensures |QueueAfter(op, op.p, s.parts[op.p].queue)| == |s.parts[op.p].queue| + SizeGain(op)
  {
    WithoutFacts(s.parts[op.p].queue, op.g);
    if op.Hit? { HitQueued(s, op); }
  }

  lemma {:induction false} OnePart(s: State, t: nat, op: Op, b: Thread, s': State)
    requires Move(s, t, op, b, s') && Queues(op)
    ensures |s'.parts| == |s.parts| && s'.parts == s.parts[op.p := s'.parts[op.p]]
  {
  }

  lemma {:induction false} SizeChange(s: State, t: nat, op: Op, b: Thread, s': State)
    requires Move(s, t, op, b, s') && PartsOk(s)
    ensures SizeSum(s'.parts) == SizeSum(s.parts) + SizeGain(op)
  {
    if Queues(op) {
      assert PartOk(s, op.p);
      QueueGain(s, op);
      QueueIs(s, t, op, b, s', op.p);
      OnePart(s, t, op, b, s');
      SizeSumUpdate(s.parts, op.p, s'.parts[op.p]);
    } else {
      QuietStamps(s, t, op, b, s');
    }
  }

  lemma {:induction false} TotalChange(s: State, t: nat, op: Op, b: Thread, s': State)
    requires Move(s, t, op, b, s') && TotalOk(s)
    ensures s'.total == Wrap(s.total + SizeGain(op) - OwedGain(op))
  {
  }

  lemma {:induction false} TotalKept(s: State, t: nat, op: Op, b: Thread, s': State)
    requires Move(s, t, op, b, s') && WorkFollows(|s.parts|, s.threads[t], op, b) && PartsOk(s) && TotalOk(s)
    ensures TotalOk(s')
  {
    SizeChange(s, t, op, b, s');
    TotalChange(s, t, op, b, s');
    OwedSumUpdate(s.threads, t, b);
    WrapAdds(SizeSum(s.parts) - OwedSum(s.threads), SizeGain(op) - OwedGain(op));
  }

  // ----- turning RPCSEC_GSS off -----

  /** RPCSEC_GSS is off and the clearing of the cache, if it still goes on, is past partition `p`. */
  ghost predicate Passed(s: State, p: nat) {
    !s.enabled && forall t :: 0 <= t < |s.threads| && Clearing(s.threads[t]) ==> p < s.threads[t].p
  }

  ghost predicate NoInsertAt(s: State, p: nat) {
    forall t :: 0 <= t < |s.threads| && s.threads[t].at == Set(SetInsert) ==> s.threads[t].p != p
  }

  /** The cache is only cleared while RPCSEC_GSS is off. */
  ghost predicate ClearingOff(s: State) {
    forall t :: 0 <= t < |s.threads| && Clearing(s.threads[t]) ==> !s.enabled
  }

  /** A thread that is done with a partition leaves it empty. */
  ghost predicate DropsEmpty(s: State) {
    forall t :: 0 <= t < |s.threads| && Clearing(s.threads[t]) && s.threads[t].at == Sweep(SweepDrop) ==>
      s.threads[t].p < |s.parts| && s.parts[s.threads[t].p].queue == []
  }

  /** A partition that has been passed is empty, and no thread is about to put anything there. */
  ghost predicate PassedEmpty(s: State) {
    forall p :: 0 <= p < |s.parts| && Passed(s, p) ==> s.parts[p] == EMPTY_PART && NoInsertAt(s, p)
  }

  lemma {:induction false} ClearingOffKept(s: State, t: nat, op: Op, b: Thread, s': State)
    requires Move(s, t, op, b, s') && ClearFollows(|s.parts|, s.threads[t], op, b) && LocksFollow(s.threads[t], op, b)
    requires StatusLock(s) && ClearingOff(s)
    ensures ClearingOff(s')
  {
  }

  lemma {:induction false} DropsEmptyKept(s: State, t: nat, op: Op, b: Thread, s': State)
    requires Move(s, t, op, b, s') && ClearFollows(|s.parts|, s.threads[t], op, b) && WorkFollows(|s.parts|, s.threads[t], op, b)
    requires PartLocks(s) && DropsEmpty(s)
    ensures DropsEmpty(s')
  {
    forall u | 0 <= u < |s'.threads| && Clearing(s'.threads[u]) && s'.threads[u].at == Sweep(SweepDrop)
      ensures s'.threads[u].p < |s'.parts| && s'.parts[s'.threads[u].p].queue == []
    {
      var p := s'.threads[u].p;
      if u == t {
        QueueIs(s, t, op, b, s', p);
      } else {
        assert s'.threads[u] == s.threads[u] && p < |s.parts|;
        QueueIs(s, t, op, b, s', p);
      }
    }
  }

  /** A partition is passed when the clearing thread drops its mutex, and in no other way. */
  lemma {:induction false} PassedBefore(s: State, t: nat, op: Op, b: Thread, s': State, p: nat)
    requires Move(s, t, op, b, s') && ClearFollows(|s.parts|, s.threads[t], op, b) && p < |s.parts| && Passed(s', p)
    ensures Passed(s, p) || (op == DropPart(p) && s.threads[t].at == Sweep(SweepDrop) && s.threads[t].mode && s.threads[t].p == p)
  {
    assert s'.threads[t] == b && forall u :: 0 <= u < |s.threads| && u != t ==> s'.threads[u] == s.threads[u];
    if !Passed(s, p) {
      if !s.enabled {
        var u :| 0 <= u < |s.threads| && Clearing(s.threads[u]) && p >= s.threads[u].p;
      }
    }
  }

  lemma {:induction false} PassedEmptyKept(s: State, t: nat, op: Op, b: Thread, s': State)
    requires Move(s, t, op, b, s') && ClearFollows(|s.parts|, s.threads[t], op, b) && WorkFollows(|s.parts|, s.threads[t], op, b)
    requires PartLocks(s) && PartsOk(s) && DropsEmpty(s) && PassedEmpty(s)
    ensures PassedEmpty(s')
  {
    forall p | 0 <= p < |s'.parts| && Passed(s', p) ensures s'.parts[p] == EMPTY_PART && NoInsertAt(s', p) {
      PassedBefore(s, t, op, b, s', p);
      if Passed(s, p) {
        StaysEmpty(s, t, op, b, s', p);
      } else {
        assert PartOk(s, p);
        EmptyQueue(s.parts[p], NamesOf(s.ctxs));
      }
    }
  }

  lemma {:induction false} StaysEmpty(s: State, t: nat, op: Op, b: Thread, s': State, p: nat)
    requires Move(s, t, op, b, s') && WorkFollows(|s.parts|, s.threads[t], op, b)
    requires p < |s.parts| && Passed(s, p) && s.parts[p] == EMPTY_PART && NoInsertAt(s, p)
    ensures p < |s'.parts| && s'.parts[p] == EMPTY_PART && NoInsertAt(s', p)
  {
  }

  // ----- the invariant -----

  ghost predicate Cleared(s: State) {
    ClearingOff(s) && DropsEmpty(s) && PassedEmpty(s)
  }

  ghost predicate Inv(s: State) {
    && Locks(s) && Owners(s) && PartsOk(s) && Routes(s) && Unqueued(s) && CountsOk(s) && Exclusive(s) && Aims(s)
    && TotalOk(s) && Cleared(s) && InRange(s)
  }

  /** A partition a thread is going to is there. */
  ghost predicate InRange(s: State) {
    forall t :: 0 <= t < |s.threads| ==>
      && (s.threads[t].at == Get(GetWait) || s.threads[t].at == Sweep(SweepWait) ==> s.threads[t].p < |s.parts|)
      && (s.threads[t].at == Sweep(ClearNext) ==> s.threads[t].mode)
  }

  lemma {:induction false} InRangeKept(s: State, t: nat, op: Op, b: Thread, s': State)
    requires Move(s, t, op, b, s') && WorkFollows(|s.parts|, s.threads[t], op, b) && ClearFollows(|s.parts|, s.threads[t], op, b)
    requires InRange(s)
    ensures InRange(s')
  {
    NamesKept(s, t, op, b, s');
  }

  lemma {:induction false} CountsKept(s: State, t: nat, op: Op, b: Thread, s': State)
    requires Move(s, t, op, b, s') && TokensFollow(s.threads[t], op, b)
    requires WorkFollows(|s.parts|, s.threads[t], op, b) && InsertFollows(s.threads[t], op, b)
    requires PartLocks(s) && PartsOk(s) && Routes(s) && Unqueued(s) && CountsOk(s)
    ensures CountsOk(s')
  {
    NamesKept(s, t, op, b, s');
    forall g | g in s'.ctxs ensures CountOk(s', g) {
      if g in s.ctxs {
        CountKept(s, t, op, b, s', g);
      } else {
        NewContexts(s, t, op, b, s', g);
        NewCount(s, t, g, op.k, b, s');
      }
    }
    forall g | g !in s'.ctxs ensures TokenSum(s'.threads, g) == 0 {
      NoTokens(s, t, op, b, s', g);
    }
  }

  lemma {:induction false} InvKept(s: State, t: nat, op: Op, b: Thread, s': State)
    requires Step(s, t, op, b, s') && Inv(s)
    ensures Inv(s')
  {
    var n, a := |s.parts|, s.threads[t];
    EdgeFollows(n, a, op, b);
    LocksKept(s, t, op, b, s');
    PartsKept(s, t, op, b, s');
    RoutesKept(s, t, op, b, s');
    UnqueuedKept(s, t, op, b, s');
    CountsKept(s, t, op, b, s');
    ExclusiveKept(s, t, op, b, s');
    AimsKept(s, t, op, b, s');
    TotalKept(s, t, op, b, s');
    ClearedKept(s, t, op, b, s');
    InRangeKept(s, t, op, b, s');
  }

  lemma {:induction false} LocksKept(s: State, t: nat, op: Op, b: Thread, s': State)
    requires Move(s, t, op, b, s') && LocksFollow(s.threads[t], op, b) && Locks(s) && Owners(s)
    ensures Locks(s') && Owners(s')
  {
    PartLocksKept(s, t, op, b, s');
    ContextLocksKept(s, t, op, b, s');
    StatusLockKept(s, t, op, b, s');
    NoneDoubledKept(s, t, op, b, s');
    PartOwnersKept(s, t, op, b, s');
    ContextOwnersKept(s, t, op, b, s');
    StatusOwnerKept(s, t, op, b, s');
  }

  lemma {:induction false} ClearedKept(s: State, t: nat, op: Op, b: Thread, s': State)
    requires Move(s, t, op, b, s') && LocksFollow(s.threads[t], op, b)
    requires WorkFollows(|s.parts|, s.threads[t], op, b) && ClearFollows(|s.parts|, s.threads[t], op, b)
    requires PartLocks(s) && StatusLock(s) && PartsOk(s) && Cleared(s)
    ensures Cleared(s')
  {
    ClearingOffKept(s, t, op, b, s');
    DropsEmptyKept(s, t, op, b, s');
    PassedEmptyKept(s, t, op, b, s');
  }
}
