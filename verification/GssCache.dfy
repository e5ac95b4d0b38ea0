/**
 One partition of the RPCSEC_GSS context cache: a search tree shadowed by a read-through cache of slots,
 a queue of the contexts in order of use, and their number.
 */
module GssCache {
  import opened Basics

  const CACHE_SIZE: nat := 255

  type ContextId = nat

  /** The pair of addresses that names a GSS context. */
  datatype Key = Key(mech: nat, internal: nat)

  /** The sum of the two addresses, cut to 32 bits when it is stored. */
  function Hash(k: Key): nat {
    Wrap(k.mech + k.internal)
  }

  lemma {:induction false} HashIs(k: Key)
    ensures 0 <= Hash(k) < 0x1_0000_0000 && (k.mech + k.internal - Hash(k)) % 0x1_0000_0000 == 0
  {
  }

  function Slot(k: Key): nat {
    Hash(k) % CACHE_SIZE
  }

  /** The comparison function of the tree: first by mechanism, then by internal id. */
  function Compare(a: Key, b: Key): int {
    if a.mech < b.mech then -1
    else if a.mech > b.mech then 1
    else if a.internal < b.internal then -1
    else if a.internal > b.internal then 1
    else 0
  }

  /** It is a total order, and only equal keys compare equal. */
  lemma {:induction false} CompareOrders(a: Key, b: Key, c: Key)
    ensures Compare(a, b) == 0 <==> a == b
    ensures Compare(a, b) == -Compare(b, a)
    ensures Compare(a, b) == -1 && Compare(b, c) == -1 ==> Compare(a, c) == -1
    ensures a.mech < b.mech ==> Compare(a, b) < 0
  {
  }

  datatype Part = Part(tree: map<Key, ContextId>, cache: map<nat, ContextId>, queue: seq<ContextId>, size: nat)

  const EMPTY_PART := Part(map[], map[], [], 0)

  type Names = map<ContextId, Key>

  /** Drops `g` from a queue. */
  function Without(q: seq<ContextId>, g: ContextId): (r: seq<ContextId>)
    ensures forall x :: x in r <==> x in q && x != g
  {
    if q == [] then [] else if q[0] == g then Without(q[1..], g) else [q[0]] + Without(q[1..], g)
  }

  /** Everything the tree or a slot points to is queued, under its own key. */
  ghost predicate Sound(part: Part, names: Names) {
    && NoDup(part.queue) && part.size == |part.queue|
    && (forall g :: g in part.queue ==> g in names)
    && (forall k :: k in part.tree ==> part.tree[k] in part.queue && names[part.tree[k]] == k)
    && (forall i :: i in part.cache ==> part.cache[i] in part.queue && Slot(names[part.cache[i]]) == i)
  }

  // ----- operations, each under the mutex of the partition -----

  /** The slot first, then the tree. */
  function Find(part: Part, names: Names, k: Key): Option<ContextId> {
    var i := Slot(k);
    if i in part.cache && part.cache[i] in names && names[part.cache[i]] == k then Some(part.cache[i])
    else if k in part.tree then Some(part.tree[k])
    else None
  }

  /** A hit refreshes the slot and moves the context to the young end of the queue. */
  function Touch(part: Part, k: Key, g: ContextId): Part {
    part.(cache := part.cache[Slot(k) := g], queue := Without(part.queue, g) + [g])
  }

  /** A key that is in the tree already keeps its node there; the slot and the queue take the new context all the same. */
  function Enqueue(part: Part, k: Key, g: ContextId): Part {
    Part(if k in part.tree then part.tree else part.tree[k := g], part.cache[Slot(k) := g], part.queue + [g], part.size + 1)
  }

  function Dequeue(part: Part, names: Names, k: Key, g: ContextId): Part
    requires part.size > 0
  {
    var i := Slot(k);
    var cache := if i in part.cache && part.cache[i] in names && names[part.cache[i]] == k then part.cache - {i} else part.cache;
    var tree := if k in part.tree && part.tree[k] == g then part.tree - {k} else part.tree;
    Part(tree, cache, Without(part.queue, g), part.size - 1)
  }

  // ----- what they keep -----

  lemma {:induction false} WithoutFacts(q: seq<ContextId>, g: ContextId)
    requires NoDup(q)
    ensures NoDup(Without(q, g))
    ensures |Without(q, g)| == |q| - (if g in q then 1 else 0)
  {
    if q != [] {
      assert q == [q[0]] + q[1..];
      WithoutFacts(q[1..], g);
      if q[0] == g {
        assert g !in q[1..];
      } else {
        var r := Without(q[1..], g);
        assert q[0] !in q[1..];
        assert q[0] !in r;
      }
    }
  }

  lemma {:induction false} EnqueueSound(part: Part, names: Names, k: Key, g: ContextId)
    requires Sound(part, names) && g !in part.queue && g in names && names[g] == k
    ensures Sound(Enqueue(part, k, g), names)
  {
  }

  lemma {:induction false} DequeueSound(part: Part, names: Names, k: Key, g: ContextId)
    requires Sound(part, names) && g in part.queue && names[g] == k
    ensures part.size > 0 && Sound(Dequeue(part, names, k, g), names)
  {
    WithoutFacts(part.queue, g);
  }

  lemma {:induction false} TouchSound(part: Part, names: Names, k: Key, g: ContextId)
    requires Sound(part, names) && Find(part, names, k) == Some(g)
    ensures g in part.queue && names[g] == k && Sound(Touch(part, k, g), names)
  {
    WithoutFacts(part.queue, g);
  }

  /** An emptied queue leaves nothing behind in the tree or the slots. */
  lemma {:induction false} EmptyQueue(part: Part, names: Names)
    requires Sound(part, names) && part.queue == []
    ensures part == EMPTY_PART
  {
    assert part.tree == map[];
    assert part.cache == map[];
  }

  // ----- what lookups find -----

  /** The key of every queued context is in the tree. */
  ghost predicate Indexed(part: Part, names: Names) {
    forall g :: g in part.queue ==> g in names && names[g] in part.tree
  }

  /** A lookup under the key of a queued context finds a context. */
  ghost predicate Served(part: Part, names: Names) {
    forall g :: g in part.queue ==> g in names && Find(part, names, names[g]).Some?
  }

  /** Lookups find exactly the queued contexts, each under its key. */
  ghost predicate Exact(part: Part, names: Names) {
    forall k, g :: Find(part, names, k) == Some(g) <==> g in part.queue && g in names && names[g] == k
  }

  ghost predicate Unique(part: Part, names: Names) {
    forall g, h :: g in part.queue && h in part.queue && g in names && h in names && names[g] == names[h] ==> g == h
  }

  /** The tree finds `a` under `k`, and another context is queued under the same key. */
  ghost predicate Shadows(part: Part, names: Names, k: Key, a: ContextId) {
    k in part.tree && part.tree[k] == a && exists b :: b in part.queue && b != a && b in names && names[b] == k
  }

  lemma {:induction false} EnqueueIndexed(part: Part, names: Names, k: Key, g: ContextId)
    requires Indexed(part, names) && g in names && names[g] == k
    ensures Indexed(Enqueue(part, k, g), names)
  {
  }

  lemma {:induction false} TouchIndexed(part: Part, names: Names, k: Key, g: ContextId)
    requires Sound(part, names) && Indexed(part, names) && Find(part, names, k) == Some(g)
    ensures Indexed(Touch(part, k, g), names)
  {
  }

  /** A removal leaves a queued context without a lookup if and only if it takes its key out of the tree. */
  lemma {:induction false} DequeueServes(part: Part, names: Names, k: Key, a: ContextId)
    requires Sound(part, names) && Indexed(part, names) && a in part.queue && names[a] == k
    ensures part.size > 0
    ensures Served(Dequeue(part, names, k, a), names) <==> !Shadows(part, names, k, a)
    ensures Indexed(Dequeue(part, names, k, a), names) <==> !Shadows(part, names, k, a)
  {
    WithoutFacts(part.queue, a);
    var part' := Dequeue(part, names, k, a);
    if Shadows(part, names, k, a) {
      var b :| b in part.queue && b != a && b in names && names[b] == k;
      assert b in part'.queue && Find(part', names, names[b]) == None;
    } else {
      forall g | g in part'.queue ensures names[g] in part'.tree {
        assert g in part.queue && g != a;
      }
    }
  }

  /** With every key in the tree, lookups are exact if and only if no two contexts are queued under one key. */
  lemma {:induction false} ExactIff(part: Part, names: Names)
    requires Sound(part, names) && Indexed(part, names)
    ensures Exact(part, names) <==> Unique(part, names)
  {
    if Unique(part, names) {
      forall k, g ensures Find(part, names, k) == Some(g) <==> g in part.queue && g in names && names[g] == k {
        FindSound(part, names, k);
      }
    }
    if Exact(part, names) {
      forall g, h | g in part.queue && h in part.queue && names[g] == names[h] ensures g == h {
        assert Find(part, names, names[g]) == Some(g) && Find(part, names, names[h]) == Some(h);
      }
    }
  }

  lemma {:induction false} FindSound(part: Part, names: Names, k: Key)
    requires Sound(part, names)
    ensures Find(part, names, k).Some? ==>
              var g := Find(part, names, k).value; g in part.queue && g in names && names[g] == k
    ensures k in part.tree ==> Find(part, names, k).Some?
  {
  }

  /** So a second context under a queued key is lost to lookups once the first one is removed, though it stays queued. */
  lemma {:induction false} DuplicateLost(k: Key, a: ContextId, b: ContextId)
    requires a != b
    ensures var names := map[a := k, b := k];
      var p2 := Enqueue(Enqueue(EMPTY_PART, k, a), k, b);
      var p3 := Dequeue(p2, names, k, a);
      p3.queue == [b] && Find(p2, names, k) == Some(b) && Find(p3, names, k) == None
  {
    assert Without([a, b], a) == Without([b], a) == [b];
  }
}
