/**
 The layout of RPC headers by position and number (section 9 of RFC 5531 and sections 4.1, 4.2 and 4.10 of RFC 4506),
 without the functions that write and parse them.
 */
module RpcWire {
  import opened Basics
  import opened Xdr
  import opened RpcMessage

  /** The four bytes from `at` on are `x`, the most significant one first. */
  predicate WordIs(s: seq<byte>, at: nat, x: u32) {
    && at + 4 <= |s|
    && s[at] == x / 0x100_0000 % 0x100
    && s[at + 1] == x / 0x1_0000 % 0x100
    && s[at + 2] == x / 0x100 % 0x100
    && s[at + 3] == x % 0x100
  }

  /** The least multiple of four from `n` on. */
  function Padded(n: nat): nat {
    (n + 3) / 4 * 4
  }

  function AuthEnd(at: nat, a: Auth): nat {
    at + 8 + Padded(|a.body|)
  }

  /** Flavor, length, body, and any padding. */
  predicate AuthIs(s: seq<byte>, at: nat, a: Auth) {
    && |a.body| <= 400 && AuthEnd(at, a) <= |s|
    && WordIs(s, at, a.flavor) && WordIs(s, at + 4, |a.body|) && s[at + 8..at + 8 + |a.body|] == a.body
  }

  predicate CallIs(s: seq<byte>, b: Body)
    requires b.Call?
  {
    && b.rpcvers == 2 && WordIs(s, 8, 2) && WordIs(s, 12, b.prog) && WordIs(s, 16, b.vers) && WordIs(s, 20, b.proc)
    && AuthIs(s, 24, b.cred) && AuthIs(s, AuthEnd(24, b.cred), b.verf)
  }

  /** SUCCESS is 0 and PROG_MISMATCH, with two versions, is 2; every other status stands alone. */
  predicate AcceptIs(s: seq<byte>, at: nat, r: Accept) {
    match r
    case Success => WordIs(s, at, 0)
    case ProgMismatch(low, high) => WordIs(s, at, 2) && WordIs(s, at + 4, low) && WordIs(s, at + 8, high)
    case AcceptError(stat) => WordIs(s, at, stat)
  }

  /** RPC_MISMATCH, with two versions, is 0 and AUTH_ERROR, with a reason, is 1. */
  predicate RejectIs(s: seq<byte>, at: nat, r: Reject) {
    match r
    case RpcMismatch(low, high) => WordIs(s, at, 0) && WordIs(s, at + 4, low) && WordIs(s, at + 8, high)
    case AuthError(why) => WordIs(s, at, 1) && WordIs(s, at + 4, why)
    case UnknownReject(stat) => WordIs(s, at, stat)
  }

  /** The header of `m` is at the start of `s`: CALL is 0 and REPLY is 1, MSG_ACCEPTED is 0 and MSG_DENIED is 1. */
  predicate OnWire(s: seq<byte>, m: Msg) {
    WordIs(s, 0, m.xid) &&
    match m.body
    case Call(_, _, _, _, _, _) => WordIs(s, 4, 0) && CallIs(s, m.body)
    case Accepted(verf, result) =>
      WordIs(s, 4, 1) && WordIs(s, 8, 0) && AuthIs(s, 12, verf) && AcceptIs(s, AuthEnd(12, verf), result)
    case Denied(reason) => WordIs(s, 4, 1) && WordIs(s, 8, 1) && RejectIs(s, 12, reason)
    case _ => false
  }

  function Length(m: Msg): nat {
    match m.body
    case Call(_, _, _, _, cred, verf) => 40 + Padded(|cred.body|) + Padded(|verf.body|)
    case Accepted(verf, result) => 24 + Padded(|verf.body|) + if result.ProgMismatch? then 8 else 0
    case Denied(reason) => (match reason case RpcMismatch(_, _) => 24 case AuthError(_) => 20 case UnknownReject(_) => 16)
    case _ => 0
  }

  // ----- words -----

  /** Words are big-endian. */
  lemma {:induction false} WordOrder(x: u32)
    ensures WordIs(WordBytes(x), 0, x)
  {
  }

  lemma {:induction false} WordReads(s: seq<byte>, at: nat, x: u32)
    requires at + 4 <= |s|
    ensures WordIs(s, at, x) <==> WordAt(s[at..]) == x
  {
    var t := s[at..at + 4];
    assert s[at..] == t + s[at + 4..];
    if WordIs(s, at, x) {
      WordOrder(x);
      assert t == WordBytes(x);
      WordRoundTrip(x, s[at + 4..]);
    }
    if WordAt(s[at..]) == x {
      WordsDiffer(t);
      WordOrder(x);
    }
  }

  lemma {:induction false} PaddedIs(n: nat)
    ensures Padded(n) == RoundUp(n)
  {
  }

  lemma {:induction false} Drop(s: seq<byte>, i: nat, j: nat)
    requires i + j <= |s|
    ensures s[i..][j..] == s[i + j..]
  {
  }

  // ----- what is on the wire is what is parsed -----

  lemma {:induction false} AuthParses(s: seq<byte>, at: nat, a: Auth)
    requires AuthIs(s, at, a)
    ensures ParseAuth(s[at..]) == Ok(a, s[AuthEnd(at, a)..])
  {
    WordReads(s, at, a.flavor);
    WordReads(s, at + 4, |a.body|);
    PaddedIs(|a.body|);
    Drop(s, at, 4);
    Drop(s, at + 4, 4);
    Drop(s, at + 8, RoundUp(|a.body|));
    assert s[at + 8..][..|a.body|] == s[at + 8..at + 8 + |a.body|];
  }

  lemma {:induction false} AuthParsed(s: seq<byte>, at: nat)
    requires at <= |s| && ParseAuth(s[at..]).Ok?
    ensures AuthIs(s, at, ParseAuth(s[at..]).value)
  {
    var a := ParseAuth(s[at..]).value;
    Drop(s, at, 4);
    Drop(s, at + 4, 4);
    WordReads(s, at, a.flavor);
    WordReads(s, at + 4, |a.body|);
    PaddedIs(|a.body|);
    assert s[at + 8..][..|a.body|] == s[at + 8..at + 8 + |a.body|];
  }

  lemma {:induction false} Drop4(s: seq<byte>)
    requires |s| >= 24
    ensures s[8..][4..] == s[12..] && s[12..][4..] == s[16..] && s[16..][4..] == s[20..] && s[20..][4..] == s[24..]
  {
  }

  lemma {:induction false} CallParses(s: seq<byte>, b: Body)
    requires b.Call? && CallIs(s, b)
    ensures ParseCall(s[8..]) == Ok(b, s[AuthEnd(AuthEnd(24, b.cred), b.verf)..])
  {
    Drop4(s);
    WordReads(s, 8, 2);
    WordReads(s, 12, b.prog);
    WordReads(s, 16, b.vers);
    WordReads(s, 20, b.proc);
    AuthParses(s, 24, b.cred);
    AuthParses(s, AuthEnd(24, b.cred), b.verf);
  }

  lemma {:induction false} CallParsed(s: seq<byte>)
    requires |s| >= 8 && ParseCall(s[8..]).Ok?
    ensures ParseCall(s[8..]).value.Call? && CallIs(s, ParseCall(s[8..]).value)
  {
    Drop4(s);
    var b := ParseCall(s[8..]).value;
    WordReads(s, 8, 2);
    WordReads(s, 12, b.prog);
    WordReads(s, 16, b.vers);
    WordReads(s, 20, b.proc);
    AuthParsed(s, 24);
    AuthParses(s, 24, b.cred);
    AuthParsed(s, AuthEnd(24, b.cred));
  }

  function AcceptEnd(at: nat, r: Accept): nat {
    at + if r.ProgMismatch? then 12 else 4
  }

  lemma {:induction false} AcceptParses(s: seq<byte>, at: nat, r: Accept)
    requires AcceptIs(s, at, r)
    ensures AcceptEnd(at, r) <= |s| && ParseAccept(s[at..]) == Ok(r, s[AcceptEnd(at, r)..])
  {
    WordReads(s, at, AcceptStat(r));
    Drop(s, at, 4);
    if r.ProgMismatch? {
      WordReads(s, at + 4, r.low);
      WordReads(s, at + 8, r.high);
      Drop(s, at + 4, 4);
      Drop(s, at + 8, 4);
    }
  }

  lemma {:induction false} AcceptParsed(s: seq<byte>, at: nat)
    requires at <= |s| && ParseAccept(s[at..]).Ok?
    ensures AcceptIs(s, at, ParseAccept(s[at..]).value)
  {
    var r := ParseAccept(s[at..]).value;
    WordReads(s, at, AcceptStat(r));
    if r.ProgMismatch? {
      Drop(s, at, 4);
      Drop(s, at + 4, 4);
      WordReads(s, at + 4, r.low);
      WordReads(s, at + 8, r.high);
    }
  }

  function RejectEnd(at: nat, r: Reject): nat {
    at + match r case RpcMismatch(_, _) => 12 case AuthError(_) => 8 case UnknownReject(_) => 4
  }

  lemma {:induction false} RejectParses(s: seq<byte>, at: nat, r: Reject)
    requires RejectIs(s, at, r)
    ensures RejectEnd(at, r) <= |s| && ParseReject(s[at..]) == Ok(r, s[RejectEnd(at, r)..])
  {
    Drop(s, at, 4);
    match r
    case RpcMismatch(low, high) =>
      WordReads(s, at, 0);
      WordReads(s, at + 4, low);
      WordReads(s, at + 8, high);
      Drop(s, at + 4, 4);
      Drop(s, at + 8, 4);
    case AuthError(why) =>
      WordReads(s, at, 1);
      WordReads(s, at + 4, why);
      Drop(s, at + 4, 4);
    case UnknownReject(stat) =>
      WordReads(s, at, stat);
  }

  lemma {:induction false} RejectParsed(s: seq<byte>, at: nat)
    requires at <= |s| && ParseReject(s[at..]).Ok?
    ensures RejectIs(s, at, ParseReject(s[at..]).value)
  {
    Drop(s, at, 4);
    match ParseReject(s[at..]).value
    case RpcMismatch(low, high) =>
      WordReads(s, at, 0);
      Drop(s, at + 4, 4);
      WordReads(s, at + 4, low);
      WordReads(s, at + 8, high);
    case AuthError(why) =>
      WordReads(s, at, 1);
      WordReads(s, at + 4, why);
    case UnknownReject(stat) =>
      WordReads(s, at, stat);
  }

  lemma {:induction false} ReplyParses(s: seq<byte>, m: Msg)
    requires OnWire(s, m) && !m.body.Call?
    ensures Length(m) <= |s| && ParseReply(s[8..]) == Ok(m.body, s[Length(m)..])
  {
    Drop(s, 8, 4);
    match m.body
    case Accepted(verf, result) =>
      WordReads(s, 8, 0);
      AuthParses(s, 12, verf);
      AcceptParses(s, AuthEnd(12, verf), result);
    case Denied(reason) =>
      WordReads(s, 8, 1);
      RejectParses(s, 12, reason);
  }

  lemma {:induction false} CallMsgParses(s: seq<byte>, m: Msg)
    requires OnWire(s, m) && m.body.Call?
    ensures Length(m) <= |s| && ParseCall(s[8..]) == Ok(m.body, s[Length(m)..])
  {
    CallParses(s, m.body);
  }

  lemma {:induction false} StartParses(s: seq<byte>, xid: u32, direction: u32)
    requires WordIs(s, 0, xid) && WordIs(s, 4, direction)
    ensures WordAt(s) == xid && WordAt(s[4..]) == direction && s[4..][4..] == s[8..]
  {
    assert s[0..] == s;
    WordReads(s, 0, xid);
    WordReads(s, 4, direction);
  }

  /** Whatever is laid out as a message is parsed as that message, and up to its end. */
  lemma {:induction false} WireParses(s: seq<byte>, m: Msg)
    requires OnWire(s, m)
    ensures Length(m) <= |s| && ParseMsg(s) == Ok(m, s[Length(m)..])
  {
    StartParses(s, m.xid, if m.body.Call? then 0 else 1);
    if m.body.Call? {
      CallMsgParses(s, m);
    } else {
      ReplyParses(s, m);
    }
  }

  lemma {:induction false} ReplyParsed(s: seq<byte>)
    requires |s| >= 8 && ParseReply(s[8..]).Ok?
    ensures match ParseReply(s[8..]).value
            case Accepted(verf, r) => WordIs(s, 8, 0) && AuthIs(s, 12, verf) && AcceptIs(s, AuthEnd(12, verf), r)
            case Denied(reason) => WordIs(s, 8, 1) && RejectIs(s, 12, reason)
            case _ => false
  {
    Drop(s, 8, 4);
    WordReads(s, 8, WordAt(s[8..]));
    if WordAt(s[8..]) == 0 {
      AuthParsed(s, 12);
      var verf := ParseAuth(s[12..]).value;
      AuthParses(s, 12, verf);
      AcceptParsed(s, AuthEnd(12, verf));
    } else {
      RejectParsed(s, 12);
    }
  }

  /** A message is parsed if and only if it is laid out as this; what follows it is left. */
  lemma {:induction false} ParsesIff(s: seq<byte>, m: Msg)
    ensures (ParseMsg(s).Ok? && ParseMsg(s).value == m) <==> OnWire(s, m)
    ensures OnWire(s, m) ==> Length(m) <= |s| && ParseMsg(s).rest == s[Length(m)..]
  {
    if OnWire(s, m) {
      WireParses(s, m);
    } else if ParseMsg(s).Ok? && ParseMsg(s).value == m {
      ParsedOnWire(s);
    }
  }

  lemma {:induction false} ParsedOnWire(s: seq<byte>)
    requires ParseMsg(s).Ok?
    ensures OnWire(s, ParseMsg(s).value)
  {
    Drop(s, 4, 4);
    assert s[0..] == s;
    WordReads(s, 0, WordAt(s));
    WordReads(s, 4, WordAt(s[4..]));
    if WordAt(s[4..]) == 0 {
      CallParsed(s);
    } else {
      ReplyParsed(s);
    }
  }

  /** The header that is written for a message is laid out as this. */
  lemma {:induction false} HeaderOnWire(m: Msg, p: seq<byte>, q: seq<byte>, rest: seq<byte>)
    requires Encodable(m) && Pads(m, p, q)
    ensures OnWire(Header(m, p, q, rest), m)
    ensures |Header(m, p, q, rest)| == Length(m) + |rest| && Header(m, p, q, rest)[Length(m)..] == rest
  {
    RoundTrip(m, p, q, rest);
    ParsesIff(Header(m, p, q, rest), m);
  }

  /** A message has an encoding if and only if it can be laid out, and is not a rejection for an unknown reason. */
  lemma {:induction false} EncodableIff(m: Msg)
    ensures Encodable(m) <==> !Unheard(m) && exists s :: OnWire(s, m)
  {
    if Encodable(m) {
      var p, q := PadsFor(m);
      HeaderOnWire(m, p, q, []);
    }
  }

  lemma {:induction false} PadsFor(m: Msg) returns (p: seq<byte>, q: seq<byte>)
    ensures Pads(m, p, q)
  {
    p, q := [], [];
    match m.body
    case Call(_, _, _, _, cred, verf) =>
      p, q := seq(PadLen(|cred.body|), _ => 0), seq(PadLen(|verf.body|), _ => 0);
    case Accepted(verf, _) =>
      p := seq(PadLen(|verf.body|), _ => 0);
    case _ =>
  }

  // ----- what encoders and decoders do, in these terms -----

  /** To the output `was` the header of `m` has been added, and then `tail`. */
  predicate Added(was: seq<byte>, now: seq<byte>, m: Msg, tail: seq<byte>) {
    && |now| == |was| + Length(m) + |tail| && now[..|was|] == was
    && OnWire(now[|was|..], m) && now[|was| + Length(m)..] == tail
  }

  lemma {:induction false} HeaderAdded(was: seq<byte>, m: Msg, p: seq<byte>, q: seq<byte>, tail: seq<byte>)
    requires Encodable(m) && Pads(m, p, q)
    ensures Added(was, was + Header(m, p, q, tail), m, tail)
  {
    HeaderOnWire(m, p, q, tail);
    var h := Header(m, p, q, tail);
    assert (was + h)[|was|..] == h;
    Drop(was + h, |was|, Length(m));
  }

  function Skipped(skips: bool): nat {
    if skips then 4 else 0
  }

  /** Of the bytes `s` the message `r` has been read, or there is none; one word is skipped if `skips`. */
  ghost predicate IsRead(r: Option<Msg>, s: seq<byte>, left: seq<byte>, skips: bool) {
    && (forall m :: OnWire(s, m) <==> r == Some(m))
    && (r.Some? ==> Length(r.value) + Skipped(skips) <= |s| && left == s[Length(r.value) + Skipped(skips)..])
  }
}
