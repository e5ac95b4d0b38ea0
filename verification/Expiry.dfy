/**
 The queue of client requests that expire, ordered by the millisecond they expire at.
 */
module Expiry {
  import opened RbShape
  import opened RbTrees

  /** Every millisecond from `from` up to `to` is taken. */
  ghost predicate Full(values: set<int>, from: int, to: int) {
    forall ms :: from <= ms < to ==> ms in values
  }

  ghost function From(values: set<int>, ms: int): set<int> {
    set x | x in values && x >= ms
  }

  lemma {:induction false} Later(values: set<int>, from: int, ms: int)
    requires Full(values, from, ms) && ms in values
    ensures Full(values, from, ms + 1) && From(values, ms + 1) < From(values, ms)
  {
    assert ms in From(values, ms) && ms !in From(values, ms + 1);
  }

  lemma {:induction false} LosesFirst(s: seq<Node>, s': seq<Node>, k: map<Node, int>)
    requires s != [] && Loses(s, s', s[0]) && Sorted(k, s)
    ensures s' == s[1..]
  {
    var i :| 0 <= i < |s| && s[i] == s[0] && s' == s[..i] + s[i + 1..];
    assert s[0] in k;
    assert i == 0;
  }

  /** The requests of `c` that are due, in the order of their deadlines, come before those that are not. */
  ghost predicate Splits(c: seq<Node>, d: map<Node, int>, due: seq<Node>, rest: seq<Node>, now: int) {
    && c == due + rest && SetOf(c) <= d.Keys
    && (forall i :: 0 <= i < |due| ==> d[due[i]] <= now)
    && (forall i :: 0 <= i < |rest| ==> d[rest[i]] > now)
  }

  /** While the scan goes on: the requests of `due` have been taken out, those of `rest` are in the queue. */
  ghost predicate Scanning(c: seq<Node>, d: map<Node, int>, due: seq<Node>, rest: seq<Node>, table: map<Node, int>, now: int) {
    (&& c == due + rest && SetOf(c) <= d.Keys && table == d - SetOf(due) && Sorted(table, rest)
     && (forall i :: 0 <= i < |due| ==> d[due[i]] <= now)) == true  // one fact: the verifier does not split it
  }

  lemma {:induction false} ScanStart(c: seq<Node>, d: map<Node, int>, now: int)
    requires Sorted(d, c)
    ensures Scanning(c, d, [], c, d, now)
  {
    assert [] + c == c && d - SetOf([]) == d;
  }

  lemma {:induction false} ScanNext(c: seq<Node>, d: map<Node, int>, due: seq<Node>, rest: seq<Node>, table: map<Node, int>, now: int)
    requires Scanning(c, d, due, rest, table, now) && rest != [] && rest[0] in table && table[rest[0]] <= now
    ensures Scanning(c, d, due + [rest[0]], rest[1..], table - {rest[0]}, now)
  {
    var x := rest[0];
    assert due + rest == (due + [x]) + rest[1..];
    assert SetOf(due + [x]) == SetOf(due) + {x};
    forall i | 0 <= i < |rest[1..]| ensures rest[1..][i] in table - {x} {
      assert rest[i + 1] in SetOf(rest);
    }
  }

  lemma {:induction false} ScanDone(c: seq<Node>, d: map<Node, int>, due: seq<Node>, rest: seq<Node>, table: map<Node, int>, now: int)
    requires Scanning(c, d, due, rest, table, now) && (rest != [] ==> rest[0] in table && table[rest[0]] > now)
    ensures Splits(c, d, due, rest, now) && table == d - SetOf(due)
  {
    forall i | 0 <= i < |rest| ensures rest[i] in d && d[rest[i]] > now {
      assert rest[i] in SetOf(rest);
    }
    assert forall i :: 0 <= i < |due| ==> due[i] in SetOf(c);
  }

  predicate AllZero(s: seq<Node>)
    reads s
  {
    forall i :: 0 <= i < |s| ==> s[i].key == 0
  }

  /** A request is the tree node embedded in it; the key of the node is its deadline. */
  class ExpiryQueue {
    const expires: RbTree
    /** The requests that carry the flag EXPIRING. */
    var expiring: set<Node>

    constructor ()
      ensures Valid() && fresh(expires) && expires.Contents() == []
    {
      var tree := new RbTree();
      expires, expiring := tree, {};
      new;
      expires.Ordered();
    }

    ghost predicate Valid()
      reads this, expires, expires.nodes
    {
      expires.Valid() && expiring == expires.nodes
    }

    ghost function Deadlines(): map<Node, int>
      reads expires, expires.nodes
    {
      expires.Table()
    }

    /** The deadline of a request only changes while it is not queued. */
    method SetDeadline(cc: Node, ms: int)
      requires expires.Valid() && cc !in expires.nodes
      modifies cc`key
      ensures expires.Valid() && Deadlines() == old(Deadlines()) && expires.Contents() == old(expires.Contents()) && cc.key == ms
    {
      cc.key := ms;
    }

    /** Tries to queue a request at `ms`. */
    method Try(cc: Node, ms: int) returns (placed: bool)
      requires expires.Valid() && cc !in expires.nodes
      modifies expires`root, expires`size, expires`gen, expires`tree, expires`nodes
      modifies expires.nodes`left, expires.nodes`right, expires.nodes`parent, expires.nodes`red, cc
      ensures expires.Valid() && cc.key == ms && (placed <==> ms !in old(Deadlines()).Values)
      ensures Deadlines() == if placed then old(Deadlines())[cc := ms] else old(Deadlines())
      ensures expires.nodes == if placed then old(expires.nodes) + {cc} else old(expires.nodes)
    {
      SetDeadline(cc, ms);
      var nv := expires.Insert(cc);
      placed := nv == null;
    }

    /** Puts an unlinked request at the first free millisecond from its deadline on. */
    method Insert(cc: Node, deadline: int)
      requires Valid() && cc !in expires.nodes
      modifies this`expiring, expires`root, expires`size, expires`gen, expires`tree, expires`nodes
      modifies expires.nodes`left, expires.nodes`right, expires.nodes`parent, expires.nodes`red, cc
      ensures Valid() && Deadlines() == old(Deadlines())[cc := cc.key]
      ensures cc.key >= deadline && cc.key !in old(Deadlines()).Values
      ensures forall ms :: deadline <= ms < cc.key ==> ms in old(Deadlines()).Values
    {
      ghost var d := Deadlines();
      expiring := expiring + {cc};
      var ms := deadline;
      var placed := Try(cc, ms);
      while !placed
        invariant expires.Valid() && cc.key == ms >= deadline && expiring == old(expires.nodes) + {cc}
        invariant (placed <==> ms !in d.Values) && Full(d.Values, deadline, ms)
        invariant Deadlines() == if placed then d[cc := ms] else d
        invariant expires.nodes == if placed then old(expires.nodes) + {cc} else old(expires.nodes)
        decreases From(d.Values, ms)
      {
        Later(d.Values, deadline, ms);
        ms := ms + 1;
        placed := Try(cc, ms);
      }
    }

    /** Takes a request out of the queue if it is there, as a reply or a reset does. */
    method Remove(cc: Node)
      requires Valid() && (cc.gen != 0 ==> cc in expires.nodes)
      modifies this`expiring, expires`root, expires`size, expires`gen, expires`tree, expires`nodes, cc`gen, cc`key
      modifies expires.nodes`left, expires.nodes`right, expires.nodes`parent, expires.nodes`red
      ensures Valid() && cc !in expiring && Deadlines() == old(Deadlines()) - {cc}
      ensures cc.key == if cc in old(expiring) then 0 else old(cc.key)
    {
      if cc in expiring {
        expiring := expiring - {cc};
        expires.Remove(cc);
        SetDeadline(cc, 0);
      }
    }

    /** Takes out the request with the earliest deadline. */
    method TakeFirst(cc: Node)
      requires Valid() && expires.Contents() != [] && cc == expires.Contents()[0] && cc in expires.nodes
      modifies this`expiring, expires`root, expires`size, expires`gen, expires`tree, expires`nodes, cc`gen, cc`key
      modifies expires.nodes`left, expires.nodes`right, expires.nodes`parent, expires.nodes`red
      ensures Valid() && expires.Contents() == old(expires.Contents())[1..] && Deadlines() == old(Deadlines()) - {cc}
      ensures expires.nodes == old(expires.nodes) - {cc} && cc.key == 0
    {
      ghost var s, k := expires.Contents(), Deadlines();
      expiring := expiring - {cc};
      expires.Remove(cc);
      LosesFirst(s, expires.Contents(), k);
      SetDeadline(cc, 0);
    }

    ghost predicate IsHead(first: Node?)
      reads expires, expires.nodes
    {
      if first == null then expires.Contents() == []
      else
        && expires.Contents() != [] && first == expires.Contents()[0] && first in expires.nodes
        && first in Deadlines() && Deadlines()[first] == first.key
    }

    lemma {:induction false} FirstIsLeast(first: Node?)
      requires Valid() && IsHead(first)
      ensures if first == null then Deadlines() == map[]
              else first in Deadlines() && forall n :: n in Deadlines() ==> first.key <= Deadlines()[n]
    {
      expires.Ordered();
    }

    method Head() returns (first: Node?)
      requires Valid()
      ensures Valid() && IsHead(first) && Deadlines() == old(Deadlines()) && expires.Contents() == old(expires.Contents())
      ensures Sorted(Deadlines(), expires.Contents())
    {
      first := expires.First();
      expires.Ordered();
      assert first != null ==> first in SetOf(expires.Contents());
    }

    /** Takes out the first request after those of `done`. */
    method Submit(cc: Node, done: seq<Node>) returns (done': seq<Node>)
      requires Valid() && IsHead(cc) && Reset(done)
      modifies this`expiring, expires`root, expires`size, expires`gen, expires`tree, expires`nodes, cc`gen, cc`key
      modifies expires.nodes`left, expires.nodes`right, expires.nodes`parent, expires.nodes`red
      ensures Valid() && expires.Contents() == old(expires.Contents())[1..] && Deadlines() == old(Deadlines()) - {cc}
      ensures expires.nodes == old(expires.nodes) - {cc} && done' == done + [cc] && Reset(done')
    {
      TakeFirst(cc);
      done' := done + [cc];
    }

    /** Requests that are out of the queue, with their deadlines reset. */
    ghost predicate Reset(done: seq<Node>)
      reads expires, done
    {
      (SetOf(done) !! expires.nodes && AllZero(done)) == true  // one fact: the verifier does not split it
    }

    /** Submits a request and looks at the next one. */
    method SubmitFirst(cc: Node, done: seq<Node>) returns (first: Node?, done': seq<Node>)
      requires Valid() && IsHead(cc) && Reset(done)
      modifies this`expiring, expires`root, expires`size, expires`gen, expires`tree, expires`nodes, cc`gen, cc`key
      modifies expires.nodes`left, expires.nodes`right, expires.nodes`parent, expires.nodes`red
      ensures Valid() && expires.Contents() == old(expires.Contents())[1..] && Deadlines() == old(Deadlines()) - {cc}
      ensures expires.nodes == old(expires.nodes) - {cc} && done' == done + [cc] && Reset(done') && IsHead(first)
    {
      done' := Submit(cc, done);
      first := Head();
    }

    method TakeDue(now: int) returns (submitted: seq<Node>, first: Node?)
      requires Valid()
      modifies this`expiring, expires`root, expires`size, expires`gen, expires`tree, expires`nodes, expires.nodes
      ensures Valid() && IsHead(first) && (first != null ==> first.key > now) && Reset(submitted)
      ensures Scanning(old(expires.Contents()), old(Deadlines()), submitted, expires.Contents(), Deadlines(), now)
    {
      ghost var c, d := expires.Contents(), Deadlines();
      submitted := [];
      first := Head();
      ScanStart(c, d, now);
      while first != null && first.key <= now
        invariant Valid() && Scanning(c, d, submitted, expires.Contents(), Deadlines(), now)
        invariant IsHead(first) && expires.nodes <= old(expires.nodes) && Reset(submitted)
        decreases |expires.Contents()|
      {
        ScanNext(c, d, submitted, expires.Contents(), Deadlines(), now);
        first, submitted := SubmitFirst(first, submitted);
      }
    }

    /**
     Takes out and submits the requests that are due.  What is left is not due; the time to wait is cut to the time
     until the first of it is.
     */
    method Scan(now: int, timeout: int) returns (submitted: seq<Node>, wait: int)
      requires Valid()
      modifies this`expiring, expires`root, expires`size, expires`gen, expires`tree, expires`nodes, expires.nodes
      ensures Valid() && Splits(old(expires.Contents()), old(Deadlines()), submitted, expires.Contents(), now)
      ensures Deadlines() == old(Deadlines()) - SetOf(submitted) && AllZero(submitted)
      ensures wait <= timeout && forall n :: n in Deadlines() ==> wait <= Deadlines()[n] - now
      ensures wait == timeout || exists n :: n in Deadlines() && wait == Deadlines()[n] - now
    {
      ghost var c, d := expires.Contents(), Deadlines();
      var first;
      submitted, first := TakeDue(now);
      ScanDone(c, d, submitted, expires.Contents(), Deadlines(), now);
      wait := timeout;
      if first != null && first.key - now < wait {
        wait := first.key - now;
      }
      FirstIsLeast(first);
    }
  }
}
