/**
 Threads using the GSS context cache: requests that create, look up and destroy contexts, the collector of idle
 contexts, and the switch that turns RPCSEC_GSS on and off.

 A thread is at a label of its program, with a few local variables.  `Edge` is the flow graph: which primitive
 operation (`Op`) leads from where to where.
 */
module GssThreads {
  import opened Basics
  import opened GssCache

  /** A request that establishes a context. */
  datatype InitLabel = InitLocked | Reply | Established | Failing

  /** Putting a context into the cache. */
  datatype SetLabel = SetCheck | SetRef | SetRoute | SetWait | SetRecheck | SetInsert | SetUnlock | SetCount | SetAbort | SetDeref

  /** Looking a context up. */
  datatype GetLabel = GetWait | GetRecheck | GetLookup | GetMiss | GetHit

  /** A request that uses a context. */
  datatype UseLabel = Have | DataLocked | Destroying | Serving | UnrefWait | UnrefLocked

  /** Deleting a context. */
  datatype DelLabel = DelRoute | DelWait | DelCheck | DelSkip | DelUnlock | DelCount | DelUnrefWait | DelUnrefLocked | DelDone

  /** Collecting idle contexts, and clearing the cache. */
  datatype SweepLabel = SweepWait | SweepBody | SweepCount | SweepUnrefWait | SweepUnrefLocked | SweepDrop | ClearNext

  /** The switch. */
  datatype StatusLabel = StatusWait | StatusCheck | StatusDrop

  datatype Label =
    | Idle | Init(initAt: InitLabel) | Set(setAt: SetLabel) | Get(getAt: GetLabel) | Use(useAt: UseLabel)
    | Del(delAt: DelLabel) | Sweep(sweepAt: SweepLabel) | Status(statusAt: StatusLabel)

  /**
   Where a thread is, and its context, partition and key.  The mode tells, during a deletion, that the establishing
   reply could not be sent (the context lock is then held); during a sweep, that it clears the cache; at the switch,
   the status asked for.
   */
  datatype Thread = Thread(at: Label, g: ContextId, p: nat, k: Key, mode: bool)

  datatype Op =
    | Local | Flag(on: bool) | Route(g: ContextId, p: nat) | Goto(g: ContextId, p: nat)
    | TakePart(p: nat) | DropPart(p: nat) | TakeContext(g: ContextId) | DropContext(g: ContextId)
    | TakeStatus | DropStatus | Switch(on: bool)
    | New(g: ContextId, k: Key) | Ref(g: ContextId) | Deref(g: ContextId) | Unref(g: ContextId)
    | Insert(p: nat, g: ContextId) | Hit(p: nat, k: Key, g: ContextId) | Miss(p: nat, k: Key)
    | Remove(p: nat, g: ContextId) | Absent(p: nat, g: ContextId) | Head(p: nat, g: ContextId) | QueueEmpty(p: nat)
    | CountUp | CountDown

  // ----- the flow graph, for a cache of `n` partitions -----

  predicate Edge(n: nat, a: Thread, op: Op, b: Thread) {
    match a.at
    case Idle => IdleEdge(n, a, op, b)
    case Init(_) => InitEdge(a, op, b)
    case Set(_) => SetEdge(a, op, b)
    case Get(_) => GetEdge(a, op, b)
    case Use(_) => UseEdge(a, op, b)
    case Del(_) => DelEdge(a, op, b)
    case Sweep(_) => SweepEdge(n, a, op, b)
    case Status(_) => StatusEdge(a, op, b)
  }

  predicate IdleEdge(n: nat, a: Thread, op: Op, b: Thread)
    requires a.at.Idle?
  {
    || (op.New? && b == a.(at := Init(InitLocked), g := op.g))
    || (op == Flag(true) && n > 0 && b == a.(at := Get(GetWait), k := b.k, p := Hash(b.k) % n))
    || (op == Local && b.p < n && b == a.(at := Sweep(SweepWait), p := b.p, mode := false))
    || (op == Local && b == a.(at := Status(StatusWait), mode := b.mode))
  }

  predicate InitEdge(a: Thread, op: Op, b: Thread)
    requires a.at.Init?
  {
    match a.at.initAt
    case InitLocked => op == Local && (b == a.(at := Init(Failing)) || b == a.(at := Init(Reply)) || b == a.(at := Set(SetCheck)))
    case Reply => op == Local && (b == a.(at := Init(Established)) || b == a.(at := Del(DelRoute), mode := true))
    case Established => op == DropContext(a.g) && b == a.(at := Use(Serving))
    case Failing => op == DropContext(a.g) && b == a.(at := Use(UnrefWait))
  }

  predicate SetEdge(a: Thread, op: Op, b: Thread)
    requires a.at.Set?
  {
    match a.at.setAt
    case SetCheck => (op == Flag(true) && b == a.(at := Set(SetRef))) || (op == Flag(false) && b == a.(at := Init(Reply)))
    case SetRef => op == Ref(a.g) && b == a.(at := Set(SetRoute))
    case SetRoute => op.Route? && op.g == a.g && b == a.(at := Set(SetWait), p := op.p)
    case SetWait => op == TakePart(a.p) && b == a.(at := Set(SetRecheck))
    case SetRecheck => (op == Flag(true) && b == a.(at := Set(SetInsert))) || (op == Flag(false) && b == a.(at := Set(SetAbort)))
    case SetInsert => op == Insert(a.p, a.g) && b == a.(at := Set(SetUnlock))
    case SetUnlock => op == DropPart(a.p) && b == a.(at := Set(SetCount))
    case SetCount => op == CountUp && b == a.(at := Init(Reply))
    case SetAbort => op == DropPart(a.p) && b == a.(at := Set(SetDeref))
    case SetDeref => op == Deref(a.g) && b == a.(at := Init(Reply))
  }

  predicate GetEdge(a: Thread, op: Op, b: Thread)
    requires a.at.Get?
  {
    match a.at.getAt
    case GetWait => op == TakePart(a.p) && b == a.(at := Get(GetRecheck))
    case GetRecheck => (op == Flag(true) && b == a.(at := Get(GetLookup))) || (op == Flag(false) && b == a.(at := Get(GetMiss)))
    case GetLookup =>
      || (op.Hit? && op.p == a.p && op.k == a.k && b == a.(at := Get(GetHit), g := op.g))
      || (op == Miss(a.p, a.k) && b == a.(at := Get(GetMiss)))
    case GetMiss => op == DropPart(a.p) && b == a.(at := Idle)
    case GetHit => op == DropPart(a.p) && b == a.(at := Use(Have))
  }

  predicate UseEdge(a: Thread, op: Op, b: Thread)
    requires a.at.Use?
  {
    match a.at.useAt
    case Have => op == TakeContext(a.g) && b == a.(at := Use(DataLocked))
    case DataLocked => op == Local && (b == a.(at := Init(Failing)) || b == a.(at := Init(Established)) || b == a.(at := Use(Destroying)))
    case Destroying => op == DropContext(a.g) && b == a.(at := Del(DelRoute), mode := false)
    case Serving => op == Local && b == a.(at := Use(UnrefWait))
    case UnrefWait => op == TakeContext(a.g) && b == a.(at := Use(UnrefLocked))
    case UnrefLocked => op == Unref(a.g) && b == a.(at := Idle)
  }

  predicate DelEdge(a: Thread, op: Op, b: Thread)
    requires a.at.Del?
  {
    match a.at.delAt
    case DelRoute => op.Goto? && op.g == a.g && b == a.(at := Del(DelWait), p := op.p)
    case DelWait => op == TakePart(a.p) && b == a.(at := Del(DelCheck))
    case DelCheck => (op == Absent(a.p, a.g) && b == a.(at := Del(DelSkip))) || (op == Remove(a.p, a.g) && b == a.(at := Del(DelUnlock)))
    case DelSkip => op == DropPart(a.p) && b == a.(at := Del(DelDone))
    case DelUnlock => op == DropPart(a.p) && b == a.(at := Del(DelCount))
    case DelCount => op == CountDown && b == a.(at := Del(DelUnrefWait))
    case DelUnrefWait => op == TakeContext(a.g) && b == a.(at := Del(DelUnrefLocked))
    case DelUnrefLocked => op == Unref(a.g) && b == a.(at := Del(DelDone))
    case DelDone => op == Local && b == a.(at := if a.mode then Init(Failing) else Use(UnrefWait))
  }

  predicate SweepEdge(n: nat, a: Thread, op: Op, b: Thread)
    requires a.at.Sweep?
  {
    match a.at.sweepAt
    case SweepWait => op == TakePart(a.p) && b == a.(at := Sweep(SweepBody))
    case SweepBody =>
      || (op.Head? && op.p == a.p && b == a.(at := Sweep(SweepCount), g := op.g))
      || (op == (if a.mode then QueueEmpty(a.p) else Local) && b == a.(at := Sweep(SweepDrop)))
    case SweepCount => op == CountDown && b == a.(at := Sweep(SweepUnrefWait))
    case SweepUnrefWait => op == TakeContext(a.g) && b == a.(at := Sweep(SweepUnrefLocked))
    case SweepUnrefLocked => op == Unref(a.g) && b == a.(at := Sweep(SweepBody))
    case SweepDrop => op == DropPart(a.p) && b == if a.mode then a.(at := Sweep(ClearNext), p := a.p + 1) else a.(at := Idle)
    case ClearNext => op == Local && a.mode && b == a.(at := if a.p < n then Sweep(SweepWait) else Status(StatusDrop))
  }

  predicate StatusEdge(a: Thread, op: Op, b: Thread)
    requires a.at.Status?
  {
    match a.at.statusAt
    case StatusWait => op == TakeStatus && b == a.(at := Status(StatusCheck))
    case StatusCheck =>
      || (op == Flag(a.mode) && b == a.(at := Status(StatusDrop)))
      || (op == Switch(a.mode) && b == if a.mode then a.(at := Status(StatusDrop)) else Thread(Sweep(ClearNext), a.g, 0, a.k, true))
    case StatusDrop => op == DropStatus && b == a.(at := Idle)
  }

  // ----- what a thread holds -----

  /** References on its context. */
  function Count(at: Label): nat {
    match at
    case Init(_) => 1
    case Set(l) => (match l case SetCheck | SetRef | SetUnlock | SetCount => 1 case _ => 2)
    case Get(l) => (match l case GetHit => 1 case _ => 0)
    case Use(_) => 1
    case Del(l) => (match l case DelUnlock | DelCount | DelUnrefWait | DelUnrefLocked => 2 case _ => 1)
    case Sweep(l) => (match l case SweepCount | SweepUnrefWait | SweepUnrefLocked => 1 case _ => 0)
    case _ => 0
  }

  function Tokens(a: Thread, g: ContextId): nat {
    if a.g == g then Count(a.at) else 0
  }

  /** The mutex of its partition. */
  predicate HasPart(at: Label) {
    match at
    case Set(l) => (match l case SetRecheck | SetInsert | SetUnlock | SetAbort => true case _ => false)
    case Get(l) => (match l case GetRecheck | GetLookup | GetMiss | GetHit => true case _ => false)
    case Del(l) => (match l case DelCheck | DelSkip | DelUnlock => true case _ => false)
    case Sweep(l) => (match l case SweepBody | SweepCount | SweepUnrefWait | SweepUnrefLocked | SweepDrop => true case _ => false)
    case _ => false
  }

  /** The lock of its context. */
  predicate HasContext(a: Thread) {
    match a.at
    case Init(_) => true
    case Set(_) => true
    case Use(l) => (match l case DataLocked | Destroying | UnrefLocked => true case _ => false)
    case Del(l) => (match l case DelUnrefLocked => true case _ => a.mode)
    case Sweep(l) => (match l case SweepUnrefLocked => true case _ => false)
    case _ => false
  }

  predicate Clearing(a: Thread) {
    a.at.Sweep? && a.mode
  }

  /** The lock of the switch. */
  predicate HasStatus(a: Thread) {
    a.at == Status(StatusCheck) || a.at == Status(StatusDrop) || Clearing(a)
  }

  /** What the thread still has to add to the global size. */
  function Owed(at: Label): int {
    match at
    case Set(l) => (match l case SetUnlock | SetCount => 1 case _ => 0)
    case Del(l) => (match l case DelUnlock | DelCount => -1 case _ => 0)
    case Sweep(l) => (match l case SweepCount => -1 case _ => 0)
    case _ => 0
  }

  /** It has stored the hash of its context, and its partition is the one the context belongs to. */
  predicate Routed(at: Label) {
    at == Set(SetWait) || at == Set(SetRecheck) || at == Set(SetInsert)
  }

  /** It has gone to the partition that the stored hash of its context tells. */
  predicate Aimed(at: Label) {
    at == Del(DelWait) || at == Del(DelCheck)
  }

  /** Its context is new and has not been inserted. */
  predicate BeforeInsert(at: Label) {
    match at
    case Init(l) => (match l case InitLocked => true case _ => false)
    case Set(l) => (match l case SetCheck | SetRef | SetRoute | SetWait | SetRecheck | SetInsert => true case _ => false)
    case _ => false
  }

  // ----- what an operation changes in what a thread holds -----

  function Gain(op: Op, g: ContextId): int {
    match op
    case New(h, _) => if h == g then 1 else 0
    case Ref(h) => if h == g then 1 else 0
    case Deref(h) => if h == g then -1 else 0
    case Unref(h) => if h == g then -1 else 0
    case Insert(_, h) => if h == g then -1 else 0
    case Hit(_, _, h) => if h == g then 1 else 0
    case Remove(_, h) => if h == g then 1 else 0
    case Head(_, h) => if h == g then 1 else 0
    case _ => 0
  }

  function OwedGain(op: Op): int {
    match op
    case Insert(_, _) => 1
    case Remove(_, _) => -1
    case Head(_, _) => -1
    case CountUp => -1
    case CountDown => 1
    case _ => 0
  }

  /** The one label at which the lock of a context would be taken twice. */
  predicate Doubled(a: Thread) {
    a.at == Del(DelUnrefLocked) && a.mode
  }

  /** Mutexes and locks are taken and dropped by the operations that say so, and only by those. */
  predicate LocksFollow(a: Thread, op: Op, b: Thread) {
    && (HasPart(b.at) <==> op.TakePart? || (HasPart(a.at) && !op.DropPart?))
    && (op.TakePart? ==> !HasPart(a.at) && b.p == op.p)
    && (op.DropPart? ==> HasPart(a.at) && a.p == op.p)
    && (HasPart(a.at) && HasPart(b.at) ==> a.p == b.p)
    && (!Doubled(a) ==> (HasContext(b) <==> op.TakeContext? || op.New? || (HasContext(a) && !op.DropContext? && !op.Unref?)))
    && (op.TakeContext? || op.New? ==> b.g == op.g)
    && (op.TakeContext? && HasContext(a) ==> a.g == op.g)
    && (op.New? ==> !HasContext(a))
    && (Doubled(b) ==> op == TakeContext(a.g) && HasContext(a))
    && (op.DropContext? || op.Unref? ==> HasContext(a) && a.g == op.g)
    && (HasContext(a) && HasContext(b) ==> a.g == b.g)
    && (HasStatus(b) <==> op.TakeStatus? || (HasStatus(a) && !op.DropStatus?))
    && (op.TakeStatus? ==> !HasStatus(a))
    && (op.DropStatus? || op.Switch? ==> HasStatus(a))
  }

  /** Work on a partition is done under its mutex, and on the partition of the context; contexts are touched with a reference. */
  predicate WorkFollows(n: nat, a: Thread, op: Op, b: Thread) {
    && Owed(b.at) == Owed(a.at) + OwedGain(op)
    && (op.Insert? || op.Hit? || op.Miss? || op.Remove? || op.Absent? || op.Head? || op.QueueEmpty? ==> HasPart(a.at) && a.p == op.p)
    && (op.Insert? ==> op.g == a.g && Routed(a.at))
    && (op.Remove? || op.Absent? ==> op.g == a.g && Aimed(a.at))
    && (Routed(b.at) ==> op == Route(b.g, b.p) || (Routed(a.at) && a.g == b.g && a.p == b.p))
    && (Aimed(b.at) ==> op == Goto(b.g, b.p) || (Aimed(a.at) && a.g == b.g && a.p == b.p))
    && (b.at == Get(GetWait) || b.at == Sweep(SweepWait) ==> b.p < n)
    && (op.TakeContext? || op.DropContext? || op.Route? || op.Goto? || op.Ref? || op.Deref? || op.Unref? || op.Insert? ==> Tokens(a, op.g) >= 1)
    && (op.Deref? ==> Tokens(a, op.g) == 2)
    && (op.Insert? ==> a.at == Set(SetInsert))
    && (b.at == Set(SetInsert) ==> op == Flag(true) && a.at == Set(SetRecheck) && a.p == b.p)
    && (op.Hit? ==> a.at == Get(GetLookup))
    && (b.at == Get(GetLookup) ==> op == Flag(true) && a.at == Get(GetRecheck) && a.p == b.p)
  }

  /** Only the thread that created a context inserts it, and only once. */
  predicate InsertFollows(a: Thread, op: Op, b: Thread) {
    && (BeforeInsert(a.at) || BeforeInsert(b.at) ==> HasContext(a) || op.New?)
    && (BeforeInsert(b.at) ==> op == New(b.g, if op.New? then op.k else Key(0, 0)) || (BeforeInsert(a.at) && a.g == b.g && !op.Insert?))
    && (BeforeInsert(a.at) ==> HasContext(a))
    && (op.Insert? || op.Route? ==> BeforeInsert(a.at) && a.g == op.g)
  }

  /** How the clearing of the cache proceeds. */
  predicate ClearFollows(n: nat, a: Thread, op: Op, b: Thread) {
    && (Clearing(b) && !Clearing(a) ==> op == Switch(false) && b.p == 0)
    && (Clearing(b) && Clearing(a) ==> a.p == b.p || (op == DropPart(a.p) && b.p == a.p + 1 && a.at == Sweep(SweepDrop)))
    && (Clearing(a) && !Clearing(b) ==> a.p >= n)
    && (op.Switch? ==> !Clearing(a) && (op.on || Clearing(b)))
    && (Clearing(b) && b.at == Sweep(SweepDrop) ==> op == QueueEmpty(b.p))
    && (b.at == Sweep(ClearNext) ==> b.mode)
  }

  /** The labels at which its context is new and has been locked since its creation. */
  predicate Creating(a: Thread) {
    a.at == Init(InitLocked) || a.at == Init(Reply) || a.at.Set? || (a.at.Del? && a.mode)
  }

  /** It has a reference from the cache and has not had the lock of its context. */
  predicate Courting(at: Label) {
    at == Get(GetHit) || at == Use(Have) || Sweeping(at)
  }

  /** It has taken its context off the queue and is going to drop the reference of the cache. */
  predicate Sweeping(at: Label) {
    at == Sweep(SweepCount) || at == Sweep(SweepUnrefWait)
  }

  /** References come from a creation or the cache; those from the cache lead to the lock of the context. */
  predicate RefsFollow(a: Thread, op: Op, b: Thread) {
    && (Creating(b) ==> (op.New? && op.g == b.g) || (Creating(a) && a.g == b.g))
    && (Creating(a) ==> HasContext(a))
    && (Courting(a.at) ==> op == TakeContext(a.g) || (Courting(b.at) && b.g == a.g && !op.Remove?))
    && (op.Hit? || op.Head? ==> Courting(b.at) && b.g == op.g)
    && (Sweeping(a.at) ==> op == TakeContext(a.g) || (Sweeping(b.at) && b.g == a.g && b.p == a.p))
    && (op.Head? ==> Sweeping(b.at) && b.p == op.p)
    && (Sweeping(b.at) ==> op == Head(b.p, b.g) || (Sweeping(a.at) && b.g == a.g && b.p == a.p))
  }

  ghost predicate TokensFollow(a: Thread, op: Op, b: Thread) {
    forall g :: Tokens(b, g) == Tokens(a, g) + Gain(op, g)
  }

  /** All of this, as one fact: `== true` keeps the verifier from proving the conjuncts one by one. */
  ghost predicate Follows(n: nat, a: Thread, op: Op, b: Thread) {
    (&& TokensFollow(a, op, b) && LocksFollow(a, op, b) && WorkFollows(n, a, op, b)
     && InsertFollows(a, op, b) && ClearFollows(n, a, op, b) && RefsFollow(a, op, b)) == true
  }

  lemma {:induction false} IdleFollows(n: nat, a: Thread, op: Op, b: Thread)
    requires a.at.Idle? && IdleEdge(n, a, op, b)
    ensures Follows(n, a, op, b)
  {
  }

  lemma {:induction false} InitFollows(n: nat, a: Thread, op: Op, b: Thread)
    requires a.at.Init? && InitEdge(a, op, b)
    ensures Follows(n, a, op, b)
  {
  }

  lemma {:induction false} SetEnters(n: nat, a: Thread, op: Op, b: Thread)
    requires a.at.Set? && a.at.setAt in {SetCheck, SetRef, SetRoute, SetWait} && SetEdge(a, op, b)
    ensures Follows(n, a, op, b)
  {
  }

  lemma {:induction false} SetWorks(n: nat, a: Thread, op: Op, b: Thread)
    requires a.at.Set? && a.at.setAt in {SetRecheck, SetInsert, SetUnlock} && SetEdge(a, op, b)
    ensures Follows(n, a, op, b)
  {
  }

  lemma {:induction false} SetLeaves(n: nat, a: Thread, op: Op, b: Thread)
    requires a.at.Set? && a.at.setAt in {SetCount, SetAbort, SetDeref} && SetEdge(a, op, b)
    ensures Follows(n, a, op, b)
  {
  }

  lemma {:induction false} GetEnters(n: nat, a: Thread, op: Op, b: Thread)
    requires a.at.Get? && a.at.getAt in {GetWait, GetRecheck} && GetEdge(a, op, b)
    ensures Follows(n, a, op, b)
  {
  }

  lemma {:induction false} GetLeaves(n: nat, a: Thread, op: Op, b: Thread)
    requires a.at.Get? && a.at.getAt in {GetLookup, GetMiss, GetHit} && GetEdge(a, op, b)
    ensures Follows(n, a, op, b)
  {
  }

  lemma {:induction false} UseEnters(n: nat, a: Thread, op: Op, b: Thread)
    requires a.at.Use? && a.at.useAt in {Have, DataLocked, Destroying} && UseEdge(a, op, b)
    ensures Follows(n, a, op, b)
  {
  }

  lemma {:induction false} UseLeaves(n: nat, a: Thread, op: Op, b: Thread)
    requires a.at.Use? && a.at.useAt in {Serving, UnrefWait, UnrefLocked} && UseEdge(a, op, b)
    ensures Follows(n, a, op, b)
  {
  }

  lemma {:induction false} DelEnters(n: nat, a: Thread, op: Op, b: Thread)
    requires a.at.Del? && a.at.delAt in {DelRoute, DelWait, DelCheck} && DelEdge(a, op, b)
    ensures Follows(n, a, op, b)
  {
  }

  lemma {:induction false} DelWorks(n: nat, a: Thread, op: Op, b: Thread)
    requires a.at.Del? && a.at.delAt in {DelSkip, DelUnlock, DelCount} && DelEdge(a, op, b)
    ensures Follows(n, a, op, b)
  {
  }

  lemma {:induction false} DelLeaves(n: nat, a: Thread, op: Op, b: Thread)
    requires a.at.Del? && a.at.delAt in {DelUnrefWait, DelUnrefLocked, DelDone} && DelEdge(a, op, b)
    ensures Follows(n, a, op, b)
  {
  }

  lemma {:induction false} SweepEnters(n: nat, a: Thread, op: Op, b: Thread)
    requires a.at.Sweep? && a.at.sweepAt in {SweepWait, SweepBody, SweepCount} && SweepEdge(n, a, op, b)
    ensures Follows(n, a, op, b)
  {
  }

  lemma {:induction false} SweepLeaves(n: nat, a: Thread, op: Op, b: Thread)
    requires a.at.Sweep? && a.at.sweepAt in {SweepUnrefWait, SweepUnrefLocked, SweepDrop, ClearNext} && SweepEdge(n, a, op, b)
    ensures Follows(n, a, op, b)
  {
  }

  lemma {:induction false} StatusFollows(n: nat, a: Thread, op: Op, b: Thread)
    requires a.at.Status? && StatusEdge(a, op, b)
    ensures Follows(n, a, op, b)
  {
  }

  /** Every edge of the flow graph. */
  lemma {:induction false} EdgeFollows(n: nat, a: Thread, op: Op, b: Thread)
    requires Edge(n, a, op, b)
    ensures Follows(n, a, op, b)
  {
    match a.at
    case Idle => IdleFollows(n, a, op, b);
    case Init(_) => InitFollows(n, a, op, b);
    case Set(l) =>
      if l in {SetCheck, SetRef, SetRoute, SetWait} {
        SetEnters(n, a, op, b);
      } else if l in {SetRecheck, SetInsert, SetUnlock} {
        SetWorks(n, a, op, b);
      } else {
        SetLeaves(n, a, op, b);
      }
    case Get(l) =>
      if l in {GetWait, GetRecheck} {
        GetEnters(n, a, op, b);
      } else {
        GetLeaves(n, a, op, b);
      }
    case Use(l) =>
      if l in {Have, DataLocked, Destroying} {
        UseEnters(n, a, op, b);
      } else {
        UseLeaves(n, a, op, b);
      }
    case Del(l) =>
      if l in {DelRoute, DelWait, DelCheck} {
        DelEnters(n, a, op, b);
      } else if l in {DelSkip, DelUnlock, DelCount} {
        DelWorks(n, a, op, b);
      } else {
        DelLeaves(n, a, op, b);
      }
    case Sweep(l) =>
      if l in {SweepWait, SweepBody, SweepCount} {
        SweepEnters(n, a, op, b);
      } else {
        SweepLeaves(n, a, op, b);
      }
    case Status(_) => StatusFollows(n, a, op, b);
  }
}
