/**
 The requests of a connection that wait for their replies, found by their transaction ids.
 */
module ClientCalls {
  import Basics
  import opened RbShape
  import opened RbTrees

  datatype Status = Success | TliError

  predicate BadTimeout(sec: int, nsec: int) {
    nsec < 0 || nsec > 999_999_999 || sec < 0
  }

  /** A request is the tree node embedded in it; the key of the node is its xid. */
  class Connection {
    const replies: RbTree
    var callXid: nat

    constructor (xid: nat)
      requires xid < Basics.COUNTER_MOD
      ensures Valid() && fresh(replies) && Xids() == map[] && callXid == xid
    {
      var tree := new RbTree();
      replies, callXid := tree, xid;
      new;
      replies.Ordered();
    }

    ghost predicate Valid()
      reads this, replies, replies.nodes
    {
      callXid < Basics.COUNTER_MOD && replies.Valid()
    }

    /** The pending requests and their xids. */
    ghost function Xids(): map<Node, int>
      reads replies, replies.nodes
    {
      replies.Table()
    }

    /** Whatever has been done to the connection, no two pending requests have the same xid. */
    lemma {:induction false} XidsDiffer(m: Node, n: Node)
      requires Valid() && m in Xids() && n in Xids() && Xids()[m] == Xids()[n]
      ensures m == n
    {
      replies.KeysDiffer(m, n);
    }

    /** The xid of a request only changes while it is not pending. */
    method NextXid(cc: Node)
      requires Valid() && cc !in replies.nodes
      modifies this`callXid, cc`key
      ensures Valid() && callXid == Basics.Wrap(old(callXid) + 1) && cc.key == callXid && Xids() == old(Xids())
    {
      callXid := Basics.Wrap(callXid + 1);
      cc.key := callXid;
    }

    /** Gives a request the next xid and makes it pending under it. */
    method Enter(cc: Node) returns (status: Status)
      requires Valid() && cc !in replies.nodes
      modifies this`callXid, replies`root, replies`size, replies`gen, replies`tree, replies`nodes
      modifies replies.nodes`left, replies.nodes`right, replies.nodes`parent, replies.nodes`red, cc
      ensures Valid() && callXid == Basics.Wrap(old(callXid) + 1) && cc.key == callXid
      ensures status == Success <==> callXid !in old(Xids()).Values
      ensures status == Success ==> Xids() == old(Xids())[cc := callXid] && cc.gen != 0
      ensures status == TliError ==> Xids() == old(Xids()) && cc.gen == old(cc.gen)
    {
      NextXid(cc);
      var nv := replies.Insert(cc);
      status := if nv == null then Success else TliError;
    }

    method Setup(cc: Node, sec: int, nsec: int) returns (status: Status)
      requires Valid() && cc !in replies.nodes
      modifies this`callXid, replies`root, replies`size, replies`gen, replies`tree, replies`nodes
      modifies replies.nodes`left, replies.nodes`right, replies.nodes`parent, replies.nodes`red, cc
      ensures Valid()
      ensures sec < 0 || nsec < 0 || nsec >= 1_000_000_000 ==>
        status == TliError && callXid == old(callXid) && cc.key == old(cc.key)
      ensures sec >= 0 && 0 <= nsec < 1_000_000_000 ==>
        && callXid == (old(callXid) + 1) % 0x1_0000_0000 && cc.key == callXid
        && (status == Success <==> callXid !in old(Xids()).Values)
      ensures Xids() == if status == Success then old(Xids())[cc := callXid] else old(Xids())
    {
      if BadTimeout(sec, nsec) {
        return TliError;
      }
      status := Enter(cc);
    }

    /** A refreshed request stops being pending under its old xid before it gets the next one. */
    method Refresh(cc: Node) returns (status: Status)
      requires Valid() && (cc.gen != 0 ==> cc in replies.nodes)
      modifies this`callXid, replies`root, replies`size, replies`gen, replies`tree, replies`nodes
      modifies replies.nodes`left, replies.nodes`right, replies.nodes`parent, replies.nodes`red, cc
      ensures Valid() && callXid == Basics.Wrap(old(callXid) + 1) && cc.key == callXid
      ensures status == Success <==> callXid !in (old(Xids()) - {cc}).Values
      ensures Xids() == if status == Success then (old(Xids()) - {cc})[cc := callXid] else old(Xids()) - {cc}
      ensures cc.gen != 0 <==> status == Success
    {
      Reset(cc);
      status := Enter(cc);
    }

    method Reset(cc: Node)
      requires Valid() && (cc.gen != 0 ==> cc in replies.nodes)
      modifies replies`root, replies`size, replies`gen, replies`tree, replies`nodes, cc`gen
      modifies replies.nodes`left, replies.nodes`right, replies.nodes`parent, replies.nodes`red
      ensures Valid() && callXid == old(callXid)
      ensures Xids() == old(Xids()) - {cc} && cc.gen == 0 && replies.nodes == old(replies.nodes) - {cc}
    {
      replies.Remove(cc);
    }

    /** A reply goes to the one request that is pending under its xid, if there is one. */
    method ProcessReply(xid: nat) returns (cc: Node?)
      requires Valid()
      ensures cc != null ==> cc in Xids() && Xids()[cc] == xid
      ensures cc == null ==> xid !in Xids().Values
      ensures forall n :: n in Xids() && Xids()[n] == xid ==> n == cc
    {
      ghost var cmps;
      cc, cmps := replies.Lookup(xid);
      replies.Ordered();
      forall n | n in Xids() && Xids()[n] == xid ensures n == cc {
        assert xid in Xids().Values;
        replies.KeysDiffer(n, cc);
      }
    }
  }
}
