/**
 Reading RPC headers from a queue of buffers: a fast path for words that lie together in one buffer, and a path that
 goes word by word.
 */
module RpcDecode {
  import opened Basics
  import opened Xdr
  import opened RpcMessage
  import opened RpcWire

  /** The result and what is left of the stream are what the flat bytes say. */
  predicate Agrees<T(==)>(r: Option<T>, spec: Parsed<T>, left: seq<byte>) {
    match spec
    case Fail => r.None?
    case Ok(v, rest) => r == Some(v) && left == rest
  }

  /** Words that have been taken inline, if any. */
  function Taken(buf: Option<seq<byte>>): seq<byte> {
    if buf.Some? then buf.value else []
  }

  lemma {:induction false} TakenWord(buf: seq<byte>, rest: seq<byte>)
    requires |buf| >= 4
    ensures WordAt(buf + rest) == WordAt(buf) && (buf + rest)[4..] == buf[4..] + rest
  {
  }

  predicate WordAgrees(r: Option<u32>, s: seq<byte>, left: seq<byte>) {
    // one fact: the verifier does not split it
    (if |s| < 4 then r.None? else r == Some(WordAt(s)) && left == s[4..]) == true
  }

  /** The next word: of those taken inline, or of the stream. */
  method NextWord(xdrs: Reader, buf: Option<seq<byte>>) returns (r: Option<u32>, buf': Option<seq<byte>>)
    requires xdrs.Valid() && (buf.Some? ==> |buf.value| >= 4)
    modifies xdrs`cur, xdrs`pos
    ensures xdrs.Valid() && (r.Some? && old(xdrs.Aligned()) ==> xdrs.Aligned())
    ensures if buf.Some? then buf'.Some? && |buf'.value| == |buf.value| - 4 else buf'.None?
    ensures r.Some? || old(xdrs.Aligned()) ==>
      WordAgrees(r, Taken(buf) + old(xdrs.Remaining()), Taken(buf') + xdrs.Remaining())
  {
    if buf.Some? {
      TakenWord(buf.value, xdrs.Remaining());
      r, buf' := Some(WordAt(buf.value)), Some(buf.value[4..]);
    } else {
      assert [] + xdrs.Remaining() == xdrs.Remaining();
      r := xdrs.GetUint32();
      buf' := None;
      assert [] + xdrs.Remaining() == xdrs.Remaining();
    }
  }

  predicate PairAgrees(r: Option<(u32, u32)>, s: seq<byte>, left: seq<byte>) {
    // one fact: the verifier does not split it
    (if |s| < 8 then r.None? else r == Some((WordAt(s), WordAt(s[4..]))) && left == s[4..][4..]) == true
  }

  /** The next two words. */
  method NextPair(xdrs: Reader, buf: Option<seq<byte>>) returns (r: Option<(u32, u32)>, buf': Option<seq<byte>>)
    requires xdrs.Valid() && (buf.Some? ==> |buf.value| >= 8)
    modifies xdrs`cur, xdrs`pos
    ensures xdrs.Valid() && (r.Some? && old(xdrs.Aligned()) ==> xdrs.Aligned())
    ensures if buf.Some? then buf'.Some? && |buf'.value| == |buf.value| - 8 else buf'.None?
    ensures r.Some? || old(xdrs.Aligned()) ==>
      PairAgrees(r, Taken(buf) + old(xdrs.Remaining()), Taken(buf') + xdrs.Remaining())
  {
    var x, buf1 := NextWord(xdrs, buf);
    buf' := if buf.Some? then Some(buf.value[8..]) else None;
    if x.None? {
      return None, buf';
    }
    var y, buf2 := NextWord(xdrs, buf1);
    if y.None? {
      return None, buf';
    }
    return Some((x.value, y.value)), buf2;
  }

  method DecodeAuth(xdrs: Reader, buf: Option<seq<byte>>) returns (r: Option<Auth>)
    requires xdrs.Valid() && (buf.Some? ==> |buf.value| == 8)
    modifies xdrs`cur, xdrs`pos
    ensures xdrs.Valid() && (r.Some? && old(xdrs.Aligned()) ==> xdrs.Aligned())
    ensures r.Some? || old(xdrs.Aligned()) ==> Agrees(r, ParseAuth(Taken(buf) + old(xdrs.Remaining())), xdrs.Remaining())
  {
    var words, rest := NextPair(xdrs, buf);
    if words.None? {
      return None;
    }
    assert Taken(rest) + xdrs.Remaining() == xdrs.Remaining();
    var flavor, length := words.value.0, words.value.1;
    if length == 0 {
      return Some(Auth(flavor, []));
    }
    if length > MAX_AUTH_BYTES {
      return None;
    }
    var body := xdrs.GetOpaque(length);
    if body.None? {
      return None;
    }
    r := Some(Auth(flavor, body.value));
  }

  /** The first words of a call. */
  method DecodeProgram(xdrs: Reader, buf: Option<seq<byte>>) returns (r: Option<(u32, u32)>)
    requires xdrs.Valid() && (buf.Some? ==> |buf.value| == 12)
    modifies xdrs`cur, xdrs`pos
    ensures xdrs.Valid() && (r.Some? && old(xdrs.Aligned()) ==> xdrs.Aligned())
    ensures var s := Taken(buf) + old(xdrs.Remaining());
      if r.Some? then
        && |s| >= 12 && WordAt(s) == RPC_MSG_VERSION && r.value == (WordAt(s[4..]), WordAt(s[4..][4..]))
        && xdrs.Remaining() == s[4..][4..][4..]
      else old(xdrs.Aligned()) ==> |s| < 12 || WordAt(s) != RPC_MSG_VERSION
  {
    var rpcvers, buf1 := NextWord(xdrs, buf);
    if rpcvers.None? || rpcvers.value != RPC_MSG_VERSION {
      return None;
    }
    var rest;
    r, rest := NextPair(xdrs, buf1);
    assert Taken(rest) + xdrs.Remaining() == xdrs.Remaining();
  }

  /** The procedure and the credential, of which three words may be inline. */
  method DecodeProcedure(xdrs: Reader) returns (r: Option<(u32, Auth)>)
    requires xdrs.Valid()
    modifies xdrs`cur, xdrs`pos
    ensures xdrs.Valid() && (r.Some? && old(xdrs.Aligned()) ==> xdrs.Aligned())
    ensures var s := old(xdrs.Remaining());
      r.Some? || old(xdrs.Aligned()) ==>
      if |s| < 4 || ParseAuth(s[4..]).Fail? then r.None?
      else r == Some((WordAt(s), ParseAuth(s[4..]).value)) && xdrs.Remaining() == ParseAuth(s[4..]).rest
  {
    ghost var s := xdrs.Remaining();
    var buf := xdrs.Inline(12);
    var proc, cred;
    if buf.Some? {
      TakenWord(buf.value, xdrs.Remaining());
      proc := WordAt(buf.value);
      cred := DecodeAuth(xdrs, Some(buf.value[4..]));
    } else {
      var w := xdrs.GetUint32();
      if w.None? {
        return None;
      }
      proc := w.value;
      assert s[4..] == [] + xdrs.Remaining();
      cred := DecodeAuth(xdrs, None);
    }
    if cred.None? {
      return None;
    }
    r := Some((proc, cred.value));
  }

  method DecodeCall(xdrs: Reader, buf: Option<seq<byte>>) returns (r: Option<Body>)
    requires xdrs.Valid() && (buf.Some? ==> |buf.value| == 12)
    modifies xdrs`cur, xdrs`pos
    ensures xdrs.Valid() && (r.Some? && old(xdrs.Aligned()) ==> xdrs.Aligned())
    ensures r.Some? || old(xdrs.Aligned()) ==> Agrees(r, ParseCall(Taken(buf) + old(xdrs.Remaining())), xdrs.Remaining())
  {
    ghost var s := Taken(buf) + xdrs.Remaining();
    var program := DecodeProgram(xdrs, buf);
    if program.None? {
      return None;
    }
    var procedure := DecodeProcedure(xdrs);
    if procedure.None? {
      return None;
    }
    ghost var t := xdrs.Remaining();
    assert [] + t == t;
    var verf := DecodeAuth(xdrs, None);
    if verf.None? {
      return None;
    }
    r := Some(Call(RPC_MSG_VERSION, program.value.0, program.value.1, procedure.value.0, procedure.value.1, verf.value));
  }

  method DecodeAccepted(xdrs: Reader, buf: Option<seq<byte>>) returns (r: Option<Body>)
    requires xdrs.Valid() && (buf.Some? ==> |buf.value| == 8)
    modifies xdrs`cur, xdrs`pos
    ensures xdrs.Valid() && (r.Some? && old(xdrs.Aligned()) ==> xdrs.Aligned())
    ensures var verf := ParseAuth(Taken(buf) + old(xdrs.Remaining()));
      r.Some? || old(xdrs.Aligned()) ==>
      if verf.Fail? || ParseAccept(verf.rest).Fail? then r.None?
      else r == Some(Accepted(verf.value, ParseAccept(verf.rest).value)) && xdrs.Remaining() == ParseAccept(verf.rest).rest
  {
    var verf := DecodeAuth(xdrs, buf);
    if verf.None? {
      return None;
    }
    var stat := xdrs.GetUint32();
    if stat.None? {
      return None;
    }
    if stat.value == 0 {
      return Some(Accepted(verf.value, Success));
    }
    if stat.value == 2 {
      var low := xdrs.GetUint32();
      if low.None? {
        return None;
      }
      var high := xdrs.GetUint32();
      if high.None? {
        return None;
      }
      return Some(Accepted(verf.value, ProgMismatch(low.value, high.value)));
    }
    r := Some(Accepted(verf.value, AcceptError(stat.value)));
  }

  /**
   A rejection.  Of two inline words the second goes unused if the reason is not known, but it has been taken from the
   stream all the same.
   */
  method DecodeDenied(xdrs: Reader, buf: Option<seq<byte>>) returns (r: Option<Body>)
    requires xdrs.Valid() && (buf.Some? ==> |buf.value| == 8)
    modifies xdrs`cur, xdrs`pos
    ensures xdrs.Valid() && (r.Some? && old(xdrs.Aligned()) ==> xdrs.Aligned())
    ensures r.Some? || old(xdrs.Aligned()) ==>
      match ParseReject(Taken(buf) + old(xdrs.Remaining()))
      case Fail => r.None?
      case Ok(v, rest) =>
        && r == Some(Denied(v))
        && if v.UnknownReject? && buf.Some? then |rest| >= 4 && xdrs.Remaining() == rest[4..] else xdrs.Remaining() == rest
  {
    var stat, buf1 := NextWord(xdrs, buf);
    if stat.None? {
      return None;
    }
    if stat.value > 1 {
      return Some(Denied(UnknownReject(stat.value)));
    }
    var second, buf2 := NextWord(xdrs, buf1);
    if second.None? {
      return None;
    }
    assert Taken(buf2) + xdrs.Remaining() == xdrs.Remaining();
    if stat.value == 1 {
      return Some(Denied(AuthError(second.value)));
    }
    var high := xdrs.GetUint32();
    if high.None? {
      return None;
    }
    r := Some(Denied(RpcMismatch(second.value, high.value)));
  }

  /** What is left of the stream: the bytes after the header, but for the unused inline word of an unknown rejection. */
  predicate Left(b: Body, wasInline: bool, rest: seq<byte>, left: seq<byte>) {
    if wasInline && b.Denied? && b.reason.UnknownReject? then |rest| >= 4 && left == rest[4..] else left == rest
  }

  predicate BodyAgrees(r: Option<Body>, spec: Parsed<Body>, wasInline: bool, left: seq<byte>) {
    match spec
    case Fail => r.None?
    case Ok(b, rest) => r == Some(b) && Left(b, wasInline, rest, left)
  }

  predicate MsgAgrees(r: Option<Msg>, spec: Parsed<Msg>, wasInline: bool, left: seq<byte>) {
    match spec
    case Fail => r.None?
    case Ok(m, rest) => r == Some(m) && Left(m.body, wasInline, rest, left)
  }

  method DecodeReply(xdrs: Reader, buf: Option<seq<byte>>) returns (r: Option<Body>)
    requires xdrs.Valid() && (buf.Some? ==> |buf.value| == 12)
    modifies xdrs`cur, xdrs`pos
    ensures xdrs.Valid() && (r.Some? && old(xdrs.Aligned()) ==> xdrs.Aligned())
    ensures r.Some? || old(xdrs.Aligned()) ==> BodyAgrees(r, ParseReply(Taken(buf) + old(xdrs.Remaining())), buf.Some?, xdrs.Remaining())
  {
    var stat, buf1 := NextWord(xdrs, buf);
    if stat.None? {
      return None;
    }
    if stat.value == 0 {
      r := DecodeAccepted(xdrs, buf1);
    } else if stat.value == 1 {
      r := DecodeDenied(xdrs, buf1);
    } else {
      r := None;
    }
  }

  method DecodeBody(xdrs: Reader, direction: u32, buf: Option<seq<byte>>) returns (r: Option<Body>)
    requires xdrs.Valid() && (buf.Some? ==> |buf.value| == 12)
    modifies xdrs`cur, xdrs`pos
    ensures xdrs.Valid() && (r.Some? && old(xdrs.Aligned()) ==> xdrs.Aligned())
    ensures r.Some? || old(xdrs.Aligned()) ==> BodyAgrees(r, ParseBody(direction, Taken(buf) + old(xdrs.Remaining())), buf.Some?, xdrs.Remaining())
  {
    if direction == 0 {
      CallIsCall(Taken(buf) + xdrs.Remaining());
      r := DecodeCall(xdrs, buf);
    } else if direction == 1 {
      r := DecodeReply(xdrs, buf);
    } else {
      r := None;
    }
  }

  lemma {:induction false} CallIsCall(s: seq<byte>)
    ensures ParseCall(s).Ok? ==> ParseCall(s).value.Call?
  {
  }

  /** The xid and the direction, with three more words inline if they are there. */
  method DecodeStart(xdrs: Reader) returns (r: Option<(u32, u32)>, buf: Option<seq<byte>>)
    requires xdrs.Valid()
    modifies xdrs`cur, xdrs`pos
    ensures xdrs.Valid() && (r.Some? && old(xdrs.Aligned()) ==> xdrs.Aligned())
    ensures r.Some? ==> (buf.Some? <==> old(xdrs.Fits(20))) && (buf.Some? ==> |buf.value| == 12)
    ensures r.Some? || old(xdrs.Aligned()) ==> PairAgrees(r, old(xdrs.Remaining()), Taken(buf) + xdrs.Remaining())
  {
    var five := xdrs.Inline(20);
    assert old(xdrs.Remaining()) == Taken(five) + xdrs.Remaining();
    r, buf := NextPair(xdrs, five);
  }

  /** An unknown rejection whose first words were taken inline has one word skipped. */
  predicate Skips(r: Option<Msg>, wasInline: bool) {
    wasInline && r.Some? && Unheard(r.value)
  }

  lemma {:induction false} AgreesReads(r: Option<Msg>, s: seq<byte>, wasInline: bool, left: seq<byte>)
    requires MsgAgrees(r, ParseMsg(s), wasInline, left)
    ensures IsRead(r, s, left, Skips(r, wasInline))
  {
    forall m ensures OnWire(s, m) <==> r == Some(m) {
      ParsesIff(s, m);
    }
    if r.Some? {
      ParsesIff(s, r.value);
    }
  }

  /**
   A message of either direction.  From buffers that end at word boundaries it is what the bytes say, however they are
   spread; from other buffers it is that or nothing.
   */
  method DecodeMsg(xdrs: Reader) returns (r: Option<Msg>)
    requires xdrs.Valid()
    modifies xdrs`cur, xdrs`pos
    ensures xdrs.Valid() && (r.Some? && old(xdrs.Aligned()) ==> xdrs.Aligned())
    ensures r.Some? || old(xdrs.Aligned()) ==>
      MsgAgrees(r, ParseMsg(old(xdrs.Remaining())), old(xdrs.Fits(20)), xdrs.Remaining())
    ensures r.Some? || old(xdrs.Aligned()) ==>
      IsRead(r, old(xdrs.Remaining()), xdrs.Remaining(), Skips(r, old(xdrs.Fits(20))))
  {
    var start, buf := DecodeStart(xdrs);
    if start.None? {
      return None;
    }
    var body := DecodeBody(xdrs, start.value.1, buf);
    r := if body.None? then None else Some(Msg(start.value.0, body.value));
    if r.Some? || old(xdrs.Aligned()) {
      AgreesReads(r, old(xdrs.Remaining()), old(xdrs.Fits(20)), xdrs.Remaining());
    }
  }

  /**
   Two streams with the same bytes give the same message; they are left at the same place too, unless the message is a
   rejection for an unknown reason and only one of them has its first five words in one buffer.
   */
  method DecodeBoth(a: Reader, b: Reader) returns (m: Option<Msg>, m': Option<Msg>)
    requires a != b && a.Valid() && a.Aligned() && b.Valid() && b.Aligned() && a.Remaining() == b.Remaining()
    modifies a`cur, a`pos, b`cur, b`pos
    ensures a.Valid() && b.Valid() && m == m'
    ensures m.Some? ==> (a.Remaining() == b.Remaining() <==> !Unheard(m.value) || (old(a.Fits(20)) <==> old(b.Fits(20))))
  {
    m := DecodeMsg(a);
    m' := DecodeMsg(b);
  }

  lemma {:induction false} FlatOne(a: seq<byte>)
    ensures Flat([a]) == a
  {
    assert [a][1..] == [];
  }

  lemma {:induction false} FlatTwo(a: seq<byte>, b: seq<byte>)
    ensures Flat([a, b]) == a + b
  {
    assert [a, b][1..] == [b];
    FlatOne(b);
  }

  lemma {:induction false} UnheardRest(s: seq<byte>)
    requires ParseMsg(s).Ok? && Unheard(ParseMsg(s).value)
    ensures |s| >= 16 && ParseMsg(s).rest == s[16..]
  {
    var t := s[4..][4..];
    assert t == s[8..] && ParseReply(t).Ok?;
    assert t[4..][4..] == s[16..];
  }

  /** A message from the start of a queue of buffers. */
  method DecodeFrags(frags: seq<seq<byte>>) returns (xdrs: Reader, r: Option<Msg>)
    requires frags != [] && WordAligned(frags)
    ensures fresh(xdrs) && xdrs.Valid()
    ensures MsgAgrees(r, ParseMsg(Flat(frags)), |frags[0]| >= 20, xdrs.Remaining())
  {
    xdrs := new Reader(frags);
    r := DecodeMsg(xdrs);
  }

  /** One rejection of five words, once in one buffer and once with the last word in another: read alike, left apart. */
  method SplitRejection(s: seq<byte>) returns (whole: Reader, split: Reader, m: Option<Msg>, m': Option<Msg>)
    requires |s| == 20 && ParseMsg(s).Ok? && Unheard(ParseMsg(s).value)
    ensures m == m' == Some(ParseMsg(s).value)
    ensures whole.Valid() && split.Valid() && whole.Remaining() == [] && split.Remaining() == s[16..]
  {
    UnheardRest(s);
    FlatOne(s);
    FlatTwo(s[..16], s[16..]);
    assert s[..16] + s[16..] == s && s[16..][4..] == [];
    whole, m := DecodeFrags([s]);
    split, m' := DecodeFrags([s[..16], s[16..]]);
  }
}
