/**
 Writing RPC headers to a queue of buffers: a fast path that reserves the whole header in the current buffer, and a
 path that goes word by word.
 */
module RpcEncode {
  import opened Basics
  import opened Xdr
  import opened RpcMessage
  import opened RpcWire

  function Zeros(n: nat): (s: seq<byte>)
    ensures |s| == n
  {
    seq(n, i => 0)
  }

  predicate AllZero(s: seq<byte>) {
    forall i :: 0 <= i < |s| ==> s[i] == 0
  }

  /** What is to be written, `rest`, goes with what has been written. */
  lemma {:induction false} Written(out: seq<byte>, s: seq<byte>, rest: seq<byte>)
    ensures (out + s) + rest == out + (s + rest)
  {
  }

  // ----- in the current buffer, where room has been reserved -----

  method StoreWord(xdrs: Writer, x: u32, ghost rest: seq<byte>)
    requires xdrs.Valid() && xdrs.Room() >= 4
    modifies xdrs`frags
    ensures xdrs.Valid() && xdrs.Room() == old(xdrs.Room()) - 4
    ensures xdrs.Output() + rest == old(xdrs.Output()) + Put(x, rest)
    ensures old(xdrs.Even()) ==> xdrs.Even()
  {
    Written(xdrs.Output(), WordBytes(x), rest);
    xdrs.Store(WordBytes(x));
  }

  method StoreOpaque(xdrs: Writer, body: seq<byte>, pad: seq<byte>, ghost rest: seq<byte>)
    requires xdrs.Valid() && |pad| == PadLen(|body|) && xdrs.Room() >= RoundUp(|body|)
    modifies xdrs`frags
    ensures xdrs.Valid() && xdrs.Room() == old(xdrs.Room()) - RoundUp(|body|)
    ensures xdrs.Output() + rest == old(xdrs.Output()) + (body + (pad + rest))
    ensures old(xdrs.Even()) ==> xdrs.Even()
  {
    Written(xdrs.Output(), body, pad + rest);
    xdrs.Store(body);
    Written(xdrs.Output(), pad, rest);
    xdrs.Store(pad);
    assert |xdrs.Output()| == old(|xdrs.Output()|) + RoundUp(|body|);
    Multiples(old(|xdrs.Output()|), RoundUp(|body|));
  }

  /** The padding is not written: it is whatever the buffer holds there. */
  method StoreAuth(xdrs: Writer, a: Auth, pad: seq<byte>, ghost rest: seq<byte>)
    requires xdrs.Valid() && AuthFits(a) && IsPad(pad, a) && xdrs.Room() >= 8 + RoundUp(|a.body|)
    modifies xdrs`frags
    ensures xdrs.Valid() && xdrs.Room() == old(xdrs.Room()) - 8 - RoundUp(|a.body|)
    ensures xdrs.Output() + rest == old(xdrs.Output()) + PutAuth(a, pad, rest)
    ensures old(xdrs.Even()) ==> xdrs.Even()
  {
    StoreWord(xdrs, a.flavor, Put(|a.body|, a.body + (pad + rest)));
    StoreWord(xdrs, |a.body|, a.body + (pad + rest));
    if |a.body| > 0 {
      StoreOpaque(xdrs, a.body, pad, rest);
    } else {
      assert a.body + (pad + rest) == rest;
    }
  }

  /** What `n` bytes of a buffer hold before they are written. */
  method Stale(n: nat) returns (s: seq<byte>)
    ensures |s| == n
  {
    assert |Zeros(n)| == n;
    s :| |s| == n;
  }

  // ----- word by word -----

  method PutWord(xdrs: Writer, x: u32, ghost rest: seq<byte>)
    requires xdrs.Valid()
    modifies xdrs`cur, xdrs`frags, xdrs`caps
    ensures xdrs.Valid() && xdrs.Output() + rest == old(xdrs.Output()) + Put(x, rest)
    ensures old(xdrs.Even()) ==> xdrs.Even()
  {
    Written(xdrs.Output(), WordBytes(x), rest);
    xdrs.PutUint32(x);
  }

  /** Opaque data and its padding. */
  method PutOpaque(xdrs: Writer, body: seq<byte>, ghost rest: seq<byte>)
    requires xdrs.Valid() && |body| > 0
    modifies xdrs`cur, xdrs`frags, xdrs`caps
    ensures xdrs.Valid() && xdrs.Output() + rest == old(xdrs.Output()) + (body + (Zeros(PadLen(|body|)) + rest))
    ensures old(xdrs.Even()) ==> xdrs.Even()
  {
    Written(xdrs.Output(), body, Zeros(PadLen(|body|)) + rest);
    xdrs.PutBytes(body);
    Written(xdrs.Output(), Zeros(PadLen(|body|)), rest);
    if |body| % 4 > 0 {
      xdrs.PutBytes(Zeros(4 - |body| % 4));
    }
    assert |xdrs.Output()| == old(|xdrs.Output()|) + RoundUp(|body|);
    Multiples(old(|xdrs.Output()|), RoundUp(|body|));
  }

  method EncodeAuth(xdrs: Writer, a: Auth, ghost rest: seq<byte>) returns (ok: bool)
    requires xdrs.Valid() && |a.body| < 0x1_0000_0000
    modifies xdrs`cur, xdrs`frags, xdrs`caps
    ensures xdrs.Valid() && (ok <==> AuthFits(a))
    ensures ok ==> xdrs.Output() + rest == old(xdrs.Output()) + PutAuth(a, Zeros(PadLen(|a.body|)), rest)
    ensures old(xdrs.Even()) ==> xdrs.Even()
  {
    ghost var t := a.body + (Zeros(PadLen(|a.body|)) + rest);
    PutWord(xdrs, a.flavor, Put(|a.body|, t));
    PutWord(xdrs, |a.body|, t);
    if |a.body| > MAX_AUTH_BYTES {
      return false;
    }
    if |a.body| > 0 {
      PutOpaque(xdrs, a.body, rest);
    }
    ok := true;
  }

  // ----- calls -----

  /** What a call takes when it is written inline. */
  function CallLen(b: Body): nat
    requires b.Call?
  {
    8 * 4 + RoundUp(|b.cred.body|) + 2 * 4 + RoundUp(|b.verf.body|)
  }

  /** The part of a call after the version of the protocol. */
  function CallRest(b: Body, p: seq<byte>, q: seq<byte>): seq<byte>
    requires b.Call? && AuthFits(b.cred) && AuthFits(b.verf)
  {
    Put(b.prog, Put(b.vers, Put(b.proc, PutAuth(b.cred, p, PutAuth(b.verf, q, [])))))
  }

  method StoreCallRest(xdrs: Writer, b: Body, p: seq<byte>, q: seq<byte>)
    requires xdrs.Valid() && b.Call? && AuthFits(b.cred) && AuthFits(b.verf) && IsPad(p, b.cred) && IsPad(q, b.verf)
    requires xdrs.Room() >= CallLen(b) - 12
    modifies xdrs`frags
    ensures xdrs.Valid() && xdrs.Output() == old(xdrs.Output()) + CallRest(b, p, q)
    ensures xdrs.Room() == old(xdrs.Room()) - (CallLen(b) - 12)
    ensures old(xdrs.Even()) ==> xdrs.Even()
  {
    ghost var t6 := PutAuth(b.verf, q, []);
    ghost var t5 := PutAuth(b.cred, p, t6);
    StoreWord(xdrs, b.prog, Put(b.vers, Put(b.proc, t5)));
    StoreWord(xdrs, b.vers, Put(b.proc, t5));
    StoreWord(xdrs, b.proc, t5);
    StoreAuth(xdrs, b.cred, p, t6);
    StoreAuth(xdrs, b.verf, q, []);
    assert xdrs.Output() + [] == xdrs.Output();
  }

  method StoreCall(xdrs: Writer, m: Msg, p: seq<byte>, q: seq<byte>) returns (ok: bool)
    requires xdrs.Valid() && m.body.Call? && AuthFits(m.body.cred) && AuthFits(m.body.verf) && Pads(m, p, q)
    requires xdrs.Room() >= CallLen(m.body)
    modifies xdrs`frags
    ensures xdrs.Valid() && (ok <==> Encodable(m))
    ensures ok ==> xdrs.Output() == old(xdrs.Output()) + Header(m, p, q, [])
    ensures ok ==> xdrs.Room() == old(xdrs.Room()) - CallLen(m.body)
    ensures old(xdrs.Even()) ==> xdrs.Even()
  {
    var b := m.body;
    ghost var t := CallRest(b, p, q);
    StoreWord(xdrs, m.xid, Put(0, Put(b.rpcvers, t)));
    StoreWord(xdrs, 0, Put(b.rpcvers, t));
    StoreWord(xdrs, b.rpcvers, t);
    if b.rpcvers != RPC_MSG_VERSION {
      return false;
    }
    StoreCallRest(xdrs, b, p, q);
    ok := true;
  }

  method PutCallRest(xdrs: Writer, b: Body, ghost p: seq<byte>, ghost q: seq<byte>)
    requires xdrs.Valid() && b.Call? && AuthFits(b.cred) && AuthFits(b.verf)
    requires p == Zeros(PadLen(|b.cred.body|)) && q == Zeros(PadLen(|b.verf.body|))
    modifies xdrs`cur, xdrs`frags, xdrs`caps
    ensures xdrs.Valid() && xdrs.Output() == old(xdrs.Output()) + CallRest(b, p, q)
    ensures old(xdrs.Even()) ==> xdrs.Even()
  {
    ghost var t6 := PutAuth(b.verf, q, []);
    ghost var t5 := PutAuth(b.cred, p, t6);
    PutWord(xdrs, b.prog, Put(b.vers, Put(b.proc, t5)));
    PutWord(xdrs, b.vers, Put(b.proc, t5));
    PutWord(xdrs, b.proc, t5);
    var done := EncodeAuth(xdrs, b.cred, t6);
    done := EncodeAuth(xdrs, b.verf, []);
    assert xdrs.Output() + [] == xdrs.Output();
  }

  method PutCall(xdrs: Writer, m: Msg, ghost p: seq<byte>, ghost q: seq<byte>) returns (ok: bool)
    requires xdrs.Valid() && m.body.Call? && AuthFits(m.body.cred) && AuthFits(m.body.verf)
    requires p == Zeros(PadLen(|m.body.cred.body|)) && q == Zeros(PadLen(|m.body.verf.body|))
    modifies xdrs`cur, xdrs`frags, xdrs`caps
    ensures xdrs.Valid() && (ok <==> Encodable(m))
    ensures ok ==> xdrs.Output() == old(xdrs.Output()) + Header(m, p, q, [])
    ensures old(xdrs.Even()) ==> xdrs.Even()
  {
    var b := m.body;
    ghost var t := CallRest(b, p, q);
    PutWord(xdrs, m.xid, Put(0, Put(b.rpcvers, t)));
    PutWord(xdrs, 0, Put(b.rpcvers, t));
    PutWord(xdrs, b.rpcvers, t);
    if b.rpcvers != RPC_MSG_VERSION {
      return false;
    }
    PutCallRest(xdrs, b, p, q);
    ok := true;
  }

  /** Either way the same header is written, up to its padding; word by word the padding is zero. */
  method EncodeCall(xdrs: Writer, m: Msg) returns (ok: bool, ghost p: seq<byte>, ghost q: seq<byte>)
    requires xdrs.Valid() && m.body.Call?
    modifies xdrs`cur, xdrs`frags, xdrs`caps
    ensures xdrs.Valid() && (ok <==> Encodable(m))
    ensures ok ==> Pads(m, p, q) && xdrs.Output() == old(xdrs.Output()) + Header(m, p, q, [])
    ensures ok && old(xdrs.Room()) < CallLen(m.body) ==> AllZero(p) && AllZero(q)
    ensures old(xdrs.Even()) ==> xdrs.Even()
  {
    p, q := [], [];
    if |m.body.cred.body| > MAX_AUTH_BYTES || |m.body.verf.body| > MAX_AUTH_BYTES {
      return false, [], [];
    }
    if xdrs.Room() >= CallLen(m.body) {
      var stale := Stale(PadLen(|m.body.cred.body|));
      var stale' := Stale(PadLen(|m.body.verf.body|));
      p, q := stale, stale';
      ok := StoreCall(xdrs, m, stale, stale');
    } else {
      p, q := Zeros(PadLen(|m.body.cred.body|)), Zeros(PadLen(|m.body.verf.body|));
      ok := PutCall(xdrs, m, p, q);
    }
  }

  // ----- replies -----

  /** Two words, inline if they fit. */
  method PutTwo(xdrs: Writer, x: u32, y: u32, ghost rest: seq<byte>)
    requires xdrs.Valid()
    modifies xdrs`cur, xdrs`frags, xdrs`caps
    ensures xdrs.Valid() && xdrs.Output() + rest == old(xdrs.Output()) + Put(x, Put(y, rest))
    ensures old(xdrs.Even()) ==> xdrs.Even()
  {
    if xdrs.Room() >= 8 {
      StoreWord(xdrs, x, Put(y, rest));
      StoreWord(xdrs, y, rest);
    } else {
      PutWord(xdrs, x, Put(y, rest));
      PutWord(xdrs, y, rest);
    }
  }

  method PutThree(xdrs: Writer, x: u32, y: u32, z: u32, ghost rest: seq<byte>)
    requires xdrs.Valid()
    modifies xdrs`cur, xdrs`frags, xdrs`caps
    ensures xdrs.Valid() && xdrs.Output() + rest == old(xdrs.Output()) + Put(x, Put(y, Put(z, rest)))
    ensures old(xdrs.Even()) ==> xdrs.Even()
  {
    if xdrs.Room() >= 12 {
      StoreWord(xdrs, x, Put(y, Put(z, rest)));
      StoreWord(xdrs, y, Put(z, rest));
      StoreWord(xdrs, z, rest);
    } else {
      PutWord(xdrs, x, Put(y, Put(z, rest)));
      PutWord(xdrs, y, Put(z, rest));
      PutWord(xdrs, z, rest);
    }
  }

  /** What an accepted reply takes when it is written inline, without the versions of a mismatch. */
  function AcceptedLen(b: Body): nat
    requires b.Accepted?
  {
    6 * 4 + RoundUp(|b.verf.body|)
  }

  /** What is reserved is what the header takes, but for the versions of a mismatch. */
  lemma {:induction false} Reserved(m: Msg)
    ensures m.body.Call? ==> CallLen(m.body) == Length(m)
    ensures m.body.Accepted? ==> AcceptedLen(m.body) == Length(m) - if m.body.result.ProgMismatch? then 8 else 0
  {
    match m.body
    case Call(_, _, _, _, cred, verf) =>
      PaddedIs(|cred.body|);
      PaddedIs(|verf.body|);
    case Accepted(verf, _) =>
      PaddedIs(|verf.body|);
    case _ =>
  }

  /** What follows the status of an accepted reply. */
  function Versions(r: Accept): seq<byte> {
    if r.ProgMismatch? then Put(r.low, Put(r.high, [])) else []
  }

  method StoreAccepted(xdrs: Writer, m: Msg, p: seq<byte>)
    requires xdrs.Valid() && m.body.Accepted? && Encodable(m) && Pads(m, p, []) && xdrs.Room() >= AcceptedLen(m.body)
    modifies xdrs`cur, xdrs`frags, xdrs`caps
    ensures xdrs.Valid() && xdrs.Output() == old(xdrs.Output()) + Header(m, p, [], [])
    ensures old(xdrs.Even()) ==> xdrs.Even()
  {
    var b := m.body;
    ghost var v := Versions(b.result);
    ghost var t := PutAuth(b.verf, p, Put(AcceptStat(b.result), v));
    StoreWord(xdrs, m.xid, Put(1, Put(0, t)));
    StoreWord(xdrs, 1, Put(0, t));
    StoreWord(xdrs, 0, t);
    StoreAuth(xdrs, b.verf, p, Put(AcceptStat(b.result), v));
    StoreWord(xdrs, AcceptStat(b.result), v);
    if b.result.ProgMismatch? {
      PutTwo(xdrs, b.result.low, b.result.high, []);
    }
    assert xdrs.Output() + [] == xdrs.Output();
  }

  predicate WholeWords(results: Option<seq<byte>>) {
    results.Some? ==> |results.value| % 4 == 0
  }

  /** The status of an accepted reply and what goes with it; `results` are the results as encoded, if they can be. */
  method PutAcceptArm(xdrs: Writer, r: Accept, results: Option<seq<byte>>) returns (ok: bool)
    requires xdrs.Valid()
    modifies xdrs`cur, xdrs`frags, xdrs`caps
    ensures xdrs.Valid() && (ok <==> r.Success? ==> results.Some?)
    ensures ok ==> xdrs.Output() == old(xdrs.Output()) + PutAccept(r, if r.Success? then results.value else [])
    ensures old(xdrs.Even()) && WholeWords(results) ==> xdrs.Even()
  {
    ghost var v := if r.Success? && results.Some? then results.value else Versions(r);
    PutWord(xdrs, AcceptStat(r), v);
    if r.Success? {
      if results.None? {
        return false;
      }
      xdrs.PutBytes(results.value);
    } else if r.ProgMismatch? {
      PutWord(xdrs, r.low, Put(r.high, []));
      PutWord(xdrs, r.high, []);
    }
    assert xdrs.Output() + [] == xdrs.Output();
    ok := true;
  }

  /** The results follow the header of a successful reply that is written word by word. */
  function Tail(r: Accept, results: Option<seq<byte>>): seq<byte> {
    if r.Success? && results.Some? then results.value else []
  }

  method PutAccepted(xdrs: Writer, m: Msg, results: Option<seq<byte>>, ghost p: seq<byte>) returns (ok: bool)
    requires xdrs.Valid() && m.body.Accepted? && Encodable(m) && p == Zeros(PadLen(|m.body.verf.body|))
    modifies xdrs`cur, xdrs`frags, xdrs`caps
    ensures xdrs.Valid() && (ok <==> m.body.result.Success? ==> results.Some?)
    ensures ok ==> xdrs.Output() == old(xdrs.Output()) + Header(m, p, [], Tail(m.body.result, results))
    ensures old(xdrs.Even()) && WholeWords(results) ==> xdrs.Even()
  {
    var b := m.body;
    ghost var v := PutAccept(b.result, Tail(b.result, results));
    ghost var t := PutAuth(b.verf, p, v);
    PutWord(xdrs, m.xid, Put(1, Put(0, t)));
    PutWord(xdrs, 1, Put(0, t));
    PutWord(xdrs, 0, t);
    var done := EncodeAuth(xdrs, b.verf, v);
    ok := PutAcceptArm(xdrs, b.result, results);
  }

  /** Either way the same header is written, up to its padding; only word by word the results follow. */
  method EncodeAccepted(xdrs: Writer, m: Msg, results: Option<seq<byte>>) returns (ok: bool, ghost p: seq<byte>)
    requires xdrs.Valid() && m.body.Accepted?
    modifies xdrs`cur, xdrs`frags, xdrs`caps
    ensures xdrs.Valid() && (!Encodable(m) ==> !ok) && (ok ==> Pads(m, p, []))
    ensures Encodable(m) && old(xdrs.Room()) >= AcceptedLen(m.body) ==>
      ok && xdrs.Output() == old(xdrs.Output()) + Header(m, p, [], [])
    ensures Encodable(m) && old(xdrs.Room()) < AcceptedLen(m.body) ==> (ok <==> m.body.result.Success? ==> results.Some?)
    ensures ok && old(xdrs.Room()) < AcceptedLen(m.body) ==>
      AllZero(p) && xdrs.Output() == old(xdrs.Output()) + Header(m, p, [], Tail(m.body.result, results))
    ensures old(xdrs.Even()) && WholeWords(results) ==> xdrs.Even()
  {
    p := [];
    if |m.body.verf.body| > MAX_AUTH_BYTES {
      return false, [];
    }
    if xdrs.Room() >= AcceptedLen(m.body) {
      var stale := Stale(PadLen(|m.body.verf.body|));
      StoreAccepted(xdrs, m, stale);
      return true, stale;
    }
    p := Zeros(PadLen(|m.body.verf.body|));
    ok := PutAccepted(xdrs, m, results, p);
  }

  method EncodeDenied(xdrs: Writer, m: Msg) returns (ok: bool)
    requires xdrs.Valid() && m.body.Denied?
    modifies xdrs`cur, xdrs`frags, xdrs`caps
    ensures xdrs.Valid() && (ok <==> Encodable(m))
    ensures ok ==> xdrs.Output() == old(xdrs.Output()) + Header(m, [], [], [])
    ensures old(xdrs.Even()) ==> xdrs.Even()
  {
    ghost var t := if m.body.reason.UnknownReject? then [] else PutReject(m.body.reason, []);
    PutThree(xdrs, m.xid, 1, 1, t);
    match m.body.reason {
      case RpcMismatch(low, high) => PutThree(xdrs, 0, low, high, []);
      case AuthError(why) => PutTwo(xdrs, 1, why, []);
      case UnknownReject(_) => return false;
    }
    assert xdrs.Output() + [] == xdrs.Output();
    ok := true;
  }

  /** A message of either direction. */
  method EncodeMsg(xdrs: Writer, m: Msg, results: Option<seq<byte>>)
    returns (ok: bool, ghost p: seq<byte>, ghost q: seq<byte>, ghost tail: seq<byte>)
    requires xdrs.Valid()
    modifies xdrs`cur, xdrs`frags, xdrs`caps
    ensures xdrs.Valid() && (ok ==> Encodable(m) && Pads(m, p, q))
    ensures Encodable(m) && !(m.body.Accepted? && m.body.result.Success?) ==> ok && tail == []
    ensures Encodable(m) && m.body.Accepted? && m.body.result.Success? ==>
      if old(xdrs.Room()) >= AcceptedLen(m.body) then ok && tail == []
      else (ok <==> results.Some?) && (ok ==> tail == results.value)
    ensures ok ==> xdrs.Output() == old(xdrs.Output()) + Header(m, p, q, tail)
    ensures ok ==> Added(old(xdrs.Output()), xdrs.Output(), m, tail)
    ensures old(xdrs.Even()) && WholeWords(results) ==> xdrs.Even()
  {
    p, q, tail := [], [], [];
    match m.body {
      case Call(_, _, _, _, _, _) =>
        ok, p, q := EncodeCall(xdrs, m);
      case Accepted(_, result) =>
        tail := if xdrs.Room() >= AcceptedLen(m.body) then [] else Tail(result, results);
        ok, p := EncodeAccepted(xdrs, m, results);
      case Denied(_) =>
        ok := EncodeDenied(xdrs, m);
      case _ =>
        ok := false;
    }
    if ok {
      HeaderAdded(old(xdrs.Output()), m, p, q, tail);
    }
  }
}
