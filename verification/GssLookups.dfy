/** What the lookups of the GSS context cache find, over whole runs. */
module GssLookups {
  import opened Basics
  import opened GssCache
  import opened GssThreads
  import opened GssMachine
  import opened GssRuns
  import opened GssTraps

  /** In every partition, lookups find exactly the queued contexts, each under its key. */
  ghost predicate Faithful(s: State) {
    forall p :: 0 <= p < |s.parts| ==> Exact(s.parts[p], NamesOf(s.ctxs))
  }

  /** A context has been queued under the key of another one that is queued already. */
  ghost predicate Meets(s: State, s': State) {
    exists p, g, h :: 0 <= p < |s.parts| && Arrives(s, s', p, g) && h in s.parts[p].queue && Namesakes(s, g, h)
  }

  ghost predicate Arrives(s: State, s': State, p: nat, g: ContextId)
    requires p < |s.parts|
  {
    p < |s'.parts| && g in s'.parts[p].queue && g !in s.parts[p].queue
  }

  predicate Namesakes(s: State, g: ContextId, h: ContextId) {
    g in s.ctxs && h in s.ctxs && s.ctxs[g].key == s.ctxs[h].key
  }

  /** Every queued key is in the tree, and only one context is queued under it. */
  ghost predicate Single(part: Part, names: Names) {
    Indexed(part, names) && Unique(part, names)
  }

  ghost predicate AllSingle(s: State) {
    forall p :: 0 <= p < |s.parts| ==> Single(s.parts[p], NamesOf(s.ctxs))
  }

  lemma {:induction false} SingleNames(part: Part, names: Names, names': Names)
    requires Single(part, names) && names.Keys <= names'.Keys && forall g :: g in names ==> names'[g] == names[g]
    ensures Single(part, names')
  {
  }

  lemma {:induction false} InsertSingle(s: State, t: nat, op: Op, b: Thread, s': State)
    requires Move(s, t, op, b, s') && InsertFollows(s.threads[t], op, b) && op.Insert?
    requires Unqueued(s) && Single(s.parts[op.p], NamesOf(s.ctxs)) && !Meets(s, s')
    ensures Single(s'.parts[op.p], NamesOf(s.ctxs))
  {
    var part, k := s.parts[op.p], s.ctxs[op.g].key;
    EnqueueIndexed(part, NamesOf(s.ctxs), k, op.g);
    assert Arrives(s, s', op.p, op.g);
    forall h | h in part.queue ensures !Namesakes(s, op.g, h) {
    }
  }

  lemma {:induction false} TouchSingle(s: State, t: nat, op: Op, b: Thread, s': State)
    requires Move(s, t, op, b, s') && op.Hit? && PartOk(s, op.p) && Single(s.parts[op.p], NamesOf(s.ctxs))
    ensures Single(s'.parts[op.p], NamesOf(s.ctxs))
  {
    TouchSound(s.parts[op.p], NamesOf(s.ctxs), op.k, op.g);
    TouchIndexed(s.parts[op.p], NamesOf(s.ctxs), op.k, op.g);
  }

  lemma {:induction false} DequeueSingle(s: State, t: nat, op: Op, b: Thread, s': State)
    requires Move(s, t, op, b, s') && (op.Remove? || op.Head?) && PartOk(s, op.p) && Single(s.parts[op.p], NamesOf(s.ctxs))
    ensures Single(s'.parts[op.p], NamesOf(s.ctxs))
  {
    DequeueServes(s.parts[op.p], NamesOf(s.ctxs), s.ctxs[op.g].key, op.g);
  }

  lemma {:induction false} OtherParts(s: State, t: nat, op: Op, b: Thread, s': State, p: nat)
    requires Move(s, t, op, b, s') && p < |s.parts| && !(Queues(op) && op.p == p)
    ensures p < |s'.parts| && s'.parts[p] == s.parts[p]
  {
  }

  lemma {:induction false} SingleKept(s: State, t: nat, op: Op, b: Thread, s': State, p: nat)
    requires Move(s, t, op, b, s') && InsertFollows(s.threads[t], op, b)
    requires p < |s.parts| && PartOk(s, p) && Unqueued(s) && Single(s.parts[p], NamesOf(s.ctxs)) && !Meets(s, s')
    ensures p < |s'.parts| && Single(s'.parts[p], NamesOf(s'.ctxs))
  {
    NamesKept(s, t, op, b, s');
    if !Queues(op) || op.p != p {
      OtherParts(s, t, op, b, s', p);
    } else if op.Insert? {
      InsertSingle(s, t, op, b, s');
    } else if op.Hit? {
      TouchSingle(s, t, op, b, s');
    } else {
      DequeueSingle(s, t, op, b, s');
    }
    SingleNames(s'.parts[p], NamesOf(s.ctxs), NamesOf(s'.ctxs));
  }

  lemma {:induction false} AllSingleKept(s: State, s': State)
    requires Next(s, s') && PartsOk(s) && Unqueued(s) && AllSingle(s) && !Meets(s, s')
    ensures AllSingle(s')
  {
    var t: nat, op, b :| Step(s, t, op, b, s');
    assert InsertFollows(s.threads[t], op, b) by { EdgeFollows(|s.parts|, s.threads[t], op, b); }
    NamesKept(s, t, op, b, s');
    forall p | 0 <= p < |s'.parts| ensures Single(s'.parts[p], NamesOf(s'.ctxs)) {
      assert PartOk(s, p);
      SingleKept(s, t, op, b, s', p);
    }
  }

  /** Between states `i` and `i + 1` of the run. */
  ghost predicate MeetsAt(run: seq<State>, i: nat)
    requires i + 1 < |run|
  {
    Meets(run[i], run[i + 1])
  }

  lemma {:induction false} SingleNext(run: seq<State>, i: nat)
    requires IsRun(run) && i + 1 < |run| && AllSingle(run[i]) && !MeetsAt(run, i)
    ensures AllSingle(run[i + 1])
  {
    RunQueues(run, i);
    assert NextAt(run, i);
    AllSingleKept(run[i], run[i + 1]);
  }

  ghost predicate FreshInserts(run: seq<State>) {
    forall i :: 0 <= i < |run| - 1 ==> !MeetsAt(run, i)
  }

  lemma {:induction false} RunSingle(run: seq<State>, i: nat)
    requires IsRun(run) && FreshInserts(run) && i < |run|
    ensures AllSingle(run[i])
  {
    if i > 0 {
      RunSingle(run, i - 1);
      assert !MeetsAt(run, i - 1);
      SingleNext(run, i - 1);
    }
  }

  lemma {:induction false} SingleFaithful(s: State)
    requires PartsOk(s) && AllSingle(s)
    ensures Faithful(s)
  {
    forall p | 0 <= p < |s.parts| ensures Exact(s.parts[p], NamesOf(s.ctxs)) {
      assert PartOk(s, p);
      ExactIff(s.parts[p], NamesOf(s.ctxs));
    }
  }

  /** The two contexts are then queued together, and a lookup finds one of them at most. */
  lemma {:induction false} MeetsUnfaithful(run: seq<State>, i: nat)
    requires IsRun(run) && i + 1 < |run| && MeetsAt(run, i)
    ensures !Faithful(run[i + 1])
  {
    var s, s' := run[i], run[i + 1];
    var t, op, b := LastStep(run, i + 1);
    RunInv(run, i);
    NamesKept(s, t, op, b, s');
    var p, g, h :| 0 <= p < |s.parts| && Arrives(s, s', p, g) && h in s.parts[p].queue && Namesakes(s, g, h);
    BothQueued(s, t, op, b, s', p, g, h);
    var names := NamesOf(s'.ctxs);
    assert names[g] == names[h] && g != h;
    assert !(Find(s'.parts[p], names, names[g]) == Some(g) && Find(s'.parts[p], names, names[g]) == Some(h));
  }

  lemma {:induction false} BothQueued(s: State, t: nat, op: Op, b: Thread, s': State, p: nat, g: ContextId, h: ContextId)
    requires Move(s, t, op, b, s') && p < |s.parts| && PartOk(s, p) && Arrives(s, s', p, g) && h in s.parts[p].queue
    ensures h in s'.parts[p].queue
  {
    QueuedAfter(s, t, op, b, s', p, g);
    QueuedAfter(s, t, op, b, s', p, h);
  }

  /**
   Lookups find exactly the queued contexts in every state of a run if and only if the run never puts a context into
   the cache while another one is queued under the same key.
   */
  lemma {:induction false} FaithfulIff(run: seq<State>)
    requires IsRun(run)
    ensures (forall i :: 0 <= i < |run| ==> Faithful(run[i])) <==> FreshInserts(run)
  {
    if FreshInserts(run) {
      forall i | 0 <= i < |run| ensures Faithful(run[i]) {
        RunSingle(run, i);
        RunInv(run, i);
        SingleFaithful(run[i]);
      }
    } else {
      var i :| 0 <= i < |run| - 1 && MeetsAt(run, i);
      MeetsUnfaithful(run, i);
    }
  }

  // ----- what a request finds -----

  /** A request that looks its context up, before it has done so. */
  predicate Searching(at: Label) {
    at == Get(GetWait) || at == Get(GetRecheck) || at == Get(GetLookup)
  }

  /** It goes to the partition where a context with its key would be queued. */
  ghost predicate Directed(s: State) {
    |s.parts| > 0 && forall t :: 0 <= t < |s.threads| && Searching(s.threads[t].at) ==>
      s.threads[t].p == Home(s.threads[t].k, |s.parts|)
  }

  predicate SearchFollows(n: nat, a: Thread, op: Op, b: Thread)
    requires n > 0
  {
    && (Searching(b.at) ==> b.p == Home(b.k, n) || (Searching(a.at) && a.p == b.p && a.k == b.k))
    && (op.Hit? || op.Miss? ==> Searching(a.at) && op.p == a.p && op.k == a.k)
  }

  lemma {:induction false} IdleSearch(n: nat, a: Thread, op: Op, b: Thread)
    requires a.at.Idle? && IdleEdge(n, a, op, b) && n > 0
    ensures SearchFollows(n, a, op, b)
  {
  }

  lemma {:induction false} GetSearch(n: nat, a: Thread, op: Op, b: Thread)
    requires a.at.Get? && GetEdge(a, op, b) && n > 0
    ensures SearchFollows(n, a, op, b)
  {
  }

  lemma {:induction false} NoSearch(n: nat, a: Thread, op: Op, b: Thread)
    requires Edge(n, a, op, b) && !a.at.Idle? && !a.at.Get?
    ensures !b.at.Get? && !op.Hit? && !op.Miss?
  {
  }

  lemma {:induction false} SearchEdges(n: nat, a: Thread, op: Op, b: Thread)
    requires Edge(n, a, op, b) && n > 0
    ensures SearchFollows(n, a, op, b)
  {
    if a.at.Idle? {
      IdleSearch(n, a, op, b);
    } else if a.at.Get? {
      GetSearch(n, a, op, b);
    } else {
      NoSearch(n, a, op, b);
    }
  }

  lemma {:induction false} DirectedKept(s: State, t: nat, op: Op, b: Thread, s': State)
    requires Step(s, t, op, b, s') && Directed(s)
    ensures Directed(s')
  {
    SearchEdges(|s.parts|, s.threads[t], op, b);
    NamesKept(s, t, op, b, s');
  }

  lemma {:induction false} RunDirected(run: seq<State>, i: nat)
    requires IsRun(run) && i < |run|
    ensures Directed(run[i])
  {
    if i > 0 {
      RunDirected(run, i - 1);
      assert NextAt(run, i - 1);
      var t: nat, op, b :| Step(run[i - 1], t, op, b, run[i]);
      DirectedKept(run[i - 1], t, op, b, run[i]);
    }
  }

  /** Context `g` is queued in partition `q`, under key `k`. */
  predicate QueuedAs(s: State, q: nat, g: ContextId, k: Key) {
    q < |s.parts| && g in s.parts[q].queue && g in s.ctxs && s.ctxs[g].key == k
  }

  lemma {:induction false} QueuedAtHome(s: State, q: nat, g: ContextId, k: Key)
    requires PartsOk(s) && QueuedAs(s, q, g, k)
    ensures q == Home(k, |s.parts|)
  {
    assert PartOk(s, q);
  }

  lemma {:induction false} FoundIs(s: State, p: nat, k: Key, g: ContextId)
    requires p < |s.parts| && PartOk(s, p) && Single(s.parts[p], NamesOf(s.ctxs))
    ensures Find(s.parts[p], NamesOf(s.ctxs), k) == Some(g) <==> QueuedAs(s, p, g, k)
  {
    ExactIff(s.parts[p], NamesOf(s.ctxs));
  }

  /** A request searches with its own key at its home. */
  lemma {:induction false} SearchesHome(run: seq<State>, i: nat, t: nat, op: Op, b: Thread, s': State)
    requires IsRun(run) && i < |run| && Step(run[i], t, op, b, s') && (op.Hit? || op.Miss?)
    ensures |run[i].parts| > 0 && op.k == run[i].threads[t].k && op.p == Home(op.k, |run[i].parts|)
  {
    RunDirected(run, i);
    SearchEdges(|run[i].parts|, run[i].threads[t], op, b);
  }

  /** In every run, what a request finds is queued under its key. */
  lemma {:induction false} HitIsQueued(run: seq<State>, i: nat, t: nat, op: Op, b: Thread, s': State)
    requires IsRun(run) && i < |run| && Step(run[i], t, op, b, s') && op.Hit?
    ensures op.k == run[i].threads[t].k && QueuedAs(run[i], op.p, op.g, op.k)
  {
    RunQueues(run, i);
    SearchesHome(run, i, t, op, b, s');
    assert PartOk(run[i], op.p);
    TouchSound(run[i].parts[op.p], NamesOf(run[i].ctxs), op.k, op.g);
  }

  /** The contexts queued under `k` anywhere are those that a lookup at its home finds. */
  lemma {:induction false} FoundAnywhere(s: State, q: nat, k: Key, h: ContextId)
    requires PartsOk(s) && AllSingle(s) && |s.parts| > 0
    ensures QueuedAs(s, q, h, k) <==>
            q == Home(k, |s.parts|) && Find(s.parts[Home(k, |s.parts|)], NamesOf(s.ctxs), k) == Some(h)
  {
    var p := Home(k, |s.parts|);
    assert PartOk(s, p);
    FoundIs(s, p, k, h);
    if QueuedAs(s, q, h, k) { QueuedAtHome(s, q, h, k); }
  }

  /**
   While no context has been put into the cache under a queued key: a request finds the one context that is queued
   under its key, anywhere in the cache, and finds nothing only if there is none.
   */
  lemma {:induction false} LookupFinds(run: seq<State>, i: nat, t: nat, op: Op, b: Thread, s': State)
    requires IsRun(run) && FreshInserts(run) && i < |run| && Step(run[i], t, op, b, s') && (op.Hit? || op.Miss?)
    ensures op.k == run[i].threads[t].k
    ensures op.Hit? ==> forall q: nat, h: ContextId :: QueuedAs(run[i], q, h, op.k) <==> q == op.p && h == op.g
    ensures op.Miss? ==> forall q: nat, h: ContextId :: !QueuedAs(run[i], q, h, op.k)
  {
    SearchesHome(run, i, t, op, b, s');
    RunQueues(run, i);
    RunSingle(run, i);
    forall q: nat, h: ContextId
      ensures QueuedAs(run[i], q, h, op.k) <==> q == op.p && Find(run[i].parts[op.p], NamesOf(run[i].ctxs), op.k) == Some(h)
    {
      FoundAnywhere(run[i], q, op.k, h);
    }
  }
}
