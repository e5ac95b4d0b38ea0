/** Writing an RPC header to a queue of buffers and reading it back from them. */
module RpcTransfer {
  import opened Basics
  import opened Xdr
  import opened RpcMessage
  import opened RpcEncode
  import opened RpcDecode

  /** The results follow the header of a successful reply, unless the first buffer takes the whole header. */
  function After(m: Msg, results: Option<seq<byte>>, room: nat): Option<seq<byte>> {
    if m.body.Accepted? && m.body.result.Success? && room < AcceptedLen(m.body) then results else Some([])
  }

  lemma {:induction false} ReadsBack(m: Msg, p: seq<byte>, q: seq<byte>, tail: seq<byte>, r: Option<Msg>, wasInline: bool, left: seq<byte>)
    requires Encodable(m) && Pads(m, p, q) && MsgAgrees(r, ParseMsg(Header(m, p, q, tail)), wasInline, left)
    ensures r == Some(m) && left == tail
  {
    RoundTrip(m, p, q, tail);
  }

  method Fill(xdrs: Writer, m: Msg, results: Option<seq<byte>>) returns (ok: bool, ghost p: seq<byte>, ghost q: seq<byte>)
    requires xdrs.Even() && xdrs.Output() == [] && WholeWords(results)
    modifies xdrs`cur, xdrs`frags, xdrs`caps
    ensures xdrs.Even() && (ok <==> Encodable(m) && After(m, results, old(xdrs.Room())).Some?)
    ensures ok ==> Pads(m, p, q) && xdrs.Output() == Header(m, p, q, After(m, results, old(xdrs.Room())).value)
  {
    ghost var tail;
    ok, p, q, tail := EncodeMsg(xdrs, m, results);
    assert ok ==> [] + Header(m, p, q, tail) == Header(m, p, q, tail);
  }

  method WriteMsg(caps: seq<nat>, size: nat, m: Msg, results: Option<seq<byte>>)
    returns (frags: Option<seq<seq<byte>>>, ghost p: seq<byte>, ghost q: seq<byte>)
    requires caps != [] && size >= 4 && size % 4 == 0 && WholeWords(results)
    requires forall i :: 0 <= i < |caps| ==> caps[i] % 4 == 0
    ensures frags.Some? <==> Encodable(m) && After(m, results, caps[0]).Some?
    ensures frags.Some? ==> frags.value != [] && WordAligned(frags.value) && Pads(m, p, q)
    ensures frags.Some? ==> Flat(frags.value) == Header(m, p, q, After(m, results, caps[0]).value)
  {
    var xdrs := new Writer(caps, size);
    var ok;
    ok, p, q := Fill(xdrs, m, results);
    if ok {
      xdrs.EvenFrags();
      frags := Some(xdrs.frags);
    } else {
      frags := None;
    }
  }

  /**
   However a message is spread over buffers of whole words, it is read back as it was, and the reader is left at what
   follows the header.
   */
  method Transfer(caps: seq<nat>, size: nat, m: Msg, results: Option<seq<byte>>) returns (r: Option<Msg>, left: seq<byte>)
    requires caps != [] && size >= 4 && size % 4 == 0 && WholeWords(results)
    requires forall i :: 0 <= i < |caps| ==> caps[i] % 4 == 0
    ensures r == if Encodable(m) && After(m, results, caps[0]).Some? then Some(m) else None
    ensures r.Some? ==> Some(left) == After(m, results, caps[0])
  {
    var frags, p, q := WriteMsg(caps, size, m, results);
    if frags.None? {
      return None, [];
    }
    var xdrs;
    xdrs, r := DecodeFrags(frags.value);
    left := xdrs.Remaining();
    ReadsBack(m, p, q, After(m, results, caps[0]).value, r, |frags.value[0]| >= 20, left);
  }
}
