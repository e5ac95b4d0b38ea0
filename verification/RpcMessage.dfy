/**
 RPC call and reply headers (section 9 of RFC 5531): the messages, the bytes they are on the wire, and how a header is
 read back from a flat run of bytes.
 */
module RpcMessage {
  import opened Basics
  import opened Xdr

  const RPC_MSG_VERSION: u32 := 2
  const MAX_AUTH_BYTES: nat := 400

  datatype Auth = Auth(flavor: u32, body: seq<byte>)

  /** The outcomes and directions that have no arm of their own. */
  type OtherAccept = x: u32 | x != 0 && x != 2 witness 1
  type OtherStat = x: u32 | x > 1 witness 2

  datatype Accept = Success | ProgMismatch(low: u32, high: u32) | AcceptError(stat: OtherAccept)

  datatype Reject = RpcMismatch(low: u32, high: u32) | AuthError(why: u32) | UnknownReject(stat: OtherStat)

  datatype Body =
    | Call(rpcvers: u32, prog: u32, vers: u32, proc: u32, cred: Auth, verf: Auth)
    | Accepted(verf: Auth, result: Accept)
    | Denied(reason: Reject)
    | UnknownReply(stat: OtherStat)
    | UnknownDirection(direction: OtherStat)

  datatype Msg = Msg(xid: u32, body: Body)

  // ----- on the wire -----

  predicate AuthFits(a: Auth) {
    |a.body| <= MAX_AUTH_BYTES
  }

  predicate IsPad(pad: seq<byte>, a: Auth) {
    |pad| == PadLen(|a.body|)
  }

  /** A word in front of `rest`. */
  function Put(x: u32, rest: seq<byte>): seq<byte> {
    WordBytes(x) + rest
  }

  function PutAuth(a: Auth, pad: seq<byte>, rest: seq<byte>): seq<byte>
    requires AuthFits(a)
  {
    Put(a.flavor, Put(|a.body|, a.body + (pad + rest)))
  }

  function AcceptStat(r: Accept): u32 {
    match r case Success => 0 case ProgMismatch(_, _) => 2 case AcceptError(stat) => stat
  }

  function PutAccept(r: Accept, rest: seq<byte>): seq<byte> {
    Put(AcceptStat(r), if r.ProgMismatch? then Put(r.low, Put(r.high, rest)) else rest)
  }

  function PutReject(r: Reject, rest: seq<byte>): seq<byte>
    requires !r.UnknownReject?
  {
    match r
    case RpcMismatch(low, high) => Put(0, Put(low, Put(high, rest)))
    case AuthError(why) => Put(1, Put(why, rest))
  }

  /** The messages that have an encoding. */
  predicate Encodable(m: Msg) {
    match m.body
    case Call(rpcvers, _, _, _, cred, verf) => rpcvers == RPC_MSG_VERSION && AuthFits(cred) && AuthFits(verf)
    case Accepted(verf, _) => AuthFits(verf)
    case Denied(reason) => !reason.UnknownReject?
    case _ => false
  }

  /** The pads that go with a message: those of the credential and the verifier of a call, that of the verifier of a reply. */
  predicate Pads(m: Msg, p: seq<byte>, q: seq<byte>) {
    match m.body
    case Call(_, _, _, _, cred, verf) => IsPad(p, cred) && IsPad(q, verf)
    case Accepted(verf, _) => IsPad(p, verf)
    case _ => true
  }

  /** The header of a message, with the given padding, in front of `rest`. */
  function Header(m: Msg, p: seq<byte>, q: seq<byte>, rest: seq<byte>): seq<byte>
    requires Encodable(m)
  {
    match m.body
    case Call(rpcvers, prog, vers, proc, cred, verf) =>
      Put(m.xid, Put(0, Put(rpcvers, Put(prog, Put(vers, Put(proc, PutAuth(cred, p, PutAuth(verf, q, rest))))))))
    case Accepted(verf, result) => Put(m.xid, Put(1, Put(0, PutAuth(verf, p, PutAccept(result, rest)))))
    case Denied(reason) => Put(m.xid, Put(1, Put(1, PutReject(reason, rest))))
  }

  // ----- and back -----

  datatype Parsed<T> = Fail | Ok(value: T, rest: seq<byte>)

  function ParseAuth(s: seq<byte>): Parsed<Auth> {
    if |s| < 8 then Fail
    else
      var n, t := WordAt(s[4..]), s[4..][4..];
      if n > MAX_AUTH_BYTES || |t| < RoundUp(n) then Fail
      else Ok(Auth(WordAt(s), t[..n]), t[RoundUp(n)..])
  }

  function ParseCall(s: seq<byte>): Parsed<Body> {
    if |s| < 4 || WordAt(s) != RPC_MSG_VERSION || |s| < 16 then Fail
    else
      match ParseAuth(s[4..][4..][4..][4..])
      case Fail => Fail
      case Ok(cred, t) =>
        match ParseAuth(t)
        case Fail => Fail
        case Ok(verf, rest) => Ok(Call(WordAt(s), WordAt(s[4..]), WordAt(s[4..][4..]), WordAt(s[4..][4..][4..]), cred, verf), rest)
  }

  function ParseAccept(s: seq<byte>): Parsed<Accept> {
    if |s| < 4 then Fail
    else
      var stat := WordAt(s);
      if stat == 0 then Ok(Success, s[4..])
      else if stat != 2 then Ok(AcceptError(stat), s[4..])
      else if |s| < 12 then Fail
      else Ok(ProgMismatch(WordAt(s[4..]), WordAt(s[4..][4..])), s[4..][4..][4..])
  }

  function ParseReject(s: seq<byte>): Parsed<Reject> {
    if |s| < 4 then Fail
    else
      var stat := WordAt(s);
      if stat > 1 then Ok(UnknownReject(stat), s[4..])
      else if stat == 1 then (if |s| < 8 then Fail else Ok(AuthError(WordAt(s[4..])), s[4..][4..]))
      else if |s| < 12 then Fail
      else Ok(RpcMismatch(WordAt(s[4..]), WordAt(s[4..][4..])), s[4..][4..][4..])
  }

  function ParseReply(s: seq<byte>): Parsed<Body> {
    if |s| < 4 then Fail
    else
      var stat := WordAt(s);
      if stat == 0 then
        match ParseAuth(s[4..])
        case Fail => Fail
        case Ok(verf, t) => (match ParseAccept(t) case Fail => Fail case Ok(r, rest) => Ok(Accepted(verf, r), rest))
      else if stat == 1 then
        match ParseReject(s[4..]) case Fail => Fail case Ok(r, rest) => Ok(Denied(r), rest)
      else Fail
  }

  function ParseBody(direction: u32, s: seq<byte>): Parsed<Body> {
    if direction == 0 then ParseCall(s) else if direction == 1 then ParseReply(s) else Fail
  }

  function ParseMsg(s: seq<byte>): Parsed<Msg> {
    if |s| < 8 then Fail
    else
      match ParseBody(WordAt(s[4..]), s[4..][4..])
      case Fail => Fail
      case Ok(body, rest) => Ok(Msg(WordAt(s), body), rest)
  }

  // ----- one undoes the other -----

  lemma {:induction false} PutParses(x: u32, rest: seq<byte>)
    ensures |Put(x, rest)| == 4 + |rest| && WordAt(Put(x, rest)) == x && Put(x, rest)[4..] == rest
  {
    WordRoundTrip(x, rest);
  }

  lemma {:induction false} PutAuthParses(a: Auth, pad: seq<byte>, rest: seq<byte>)
    requires AuthFits(a) && IsPad(pad, a)
    ensures ParseAuth(PutAuth(a, pad, rest)) == Ok(a, rest)
  {
    var n, t := |a.body|, a.body + (pad + rest);
    PutParses(n, t);
    PutParses(a.flavor, Put(n, t));
    assert t[..n] == a.body && t[RoundUp(n)..] == rest;
  }

  lemma {:induction false} PutAcceptParses(r: Accept, rest: seq<byte>)
    ensures ParseAccept(PutAccept(r, rest)) == Ok(r, rest)
  {
    if r.ProgMismatch? {
      PutParses(r.high, rest);
      PutParses(r.low, Put(r.high, rest));
      PutParses(2, Put(r.low, Put(r.high, rest)));
    } else {
      PutParses(AcceptStat(r), rest);
    }
  }

  lemma {:induction false} PutRejectParses(r: Reject, rest: seq<byte>)
    requires !r.UnknownReject?
    ensures ParseReject(PutReject(r, rest)) == Ok(r, rest)
  {
    match r
    case RpcMismatch(low, high) =>
      PutParses(high, rest);
      PutParses(low, Put(high, rest));
      PutParses(0, Put(low, Put(high, rest)));
    case AuthError(why) =>
      PutParses(why, rest);
      PutParses(1, Put(why, rest));
  }

  lemma {:induction false} CallParses(m: Msg, p: seq<byte>, q: seq<byte>, rest: seq<byte>)
    requires m.body.Call? && Encodable(m) && Pads(m, p, q)
    ensures var b := m.body;
      ParseCall(Put(b.rpcvers, Put(b.prog, Put(b.vers, Put(b.proc, PutAuth(b.cred, p, PutAuth(b.verf, q, rest))))))) == Ok(b, rest)
  {
    var b := m.body;
    var t := PutAuth(b.verf, q, rest);
    PutAuthParses(b.verf, q, rest);
    PutAuthParses(b.cred, p, t);
    var u := PutAuth(b.cred, p, t);
    PutParses(b.proc, u);
    PutParses(b.vers, Put(b.proc, u));
    PutParses(b.prog, Put(b.vers, Put(b.proc, u)));
    PutParses(b.rpcvers, Put(b.prog, Put(b.vers, Put(b.proc, u))));
  }

  lemma {:induction false} AcceptedParses(m: Msg, p: seq<byte>, rest: seq<byte>)
    requires m.body.Accepted? && Encodable(m) && Pads(m, p, [])
    ensures ParseReply(Put(0, PutAuth(m.body.verf, p, PutAccept(m.body.result, rest)))) == Ok(m.body, rest)
  {
    var t := PutAccept(m.body.result, rest);
    PutAcceptParses(m.body.result, rest);
    PutAuthParses(m.body.verf, p, t);
    PutParses(0, PutAuth(m.body.verf, p, t));
  }

  lemma {:induction false} DeniedParses(r: Reject, rest: seq<byte>)
    requires !r.UnknownReject?
    ensures ParseReply(Put(1, PutReject(r, rest))) == Ok(Denied(r), rest)
  {
    PutRejectParses(r, rest);
    PutParses(1, PutReject(r, rest));
  }

  /** A header is read back as the message it was made from, whatever its padding, and up to its last byte. */
  lemma {:induction false} RoundTrip(m: Msg, p: seq<byte>, q: seq<byte>, rest: seq<byte>)
    requires Encodable(m) && Pads(m, p, q)
    ensures ParseMsg(Header(m, p, q, rest)) == Ok(m, rest)
  {
    match m.body
    case Call(rpcvers, prog, vers, proc, cred, verf) =>
      var t := Put(rpcvers, Put(prog, Put(vers, Put(proc, PutAuth(cred, p, PutAuth(verf, q, rest))))));
      CallParses(m, p, q, rest);
      PutParses(0, t);
      PutParses(m.xid, Put(0, t));
    case Accepted(verf, result) =>
      var t := Put(0, PutAuth(verf, p, PutAccept(result, rest)));
      AcceptedParses(m, p, rest);
      PutParses(1, t);
      PutParses(m.xid, Put(1, t));
    case Denied(reason) =>
      var t := Put(1, PutReject(reason, rest));
      DeniedParses(reason, rest);
      PutParses(1, t);
      PutParses(m.xid, Put(1, t));
  }

  /** So a header has one message only. */
  lemma {:induction false} HeadersDiffer(m: Msg, p: seq<byte>, q: seq<byte>, m': Msg, p': seq<byte>, q': seq<byte>, rest: seq<byte>, rest': seq<byte>)
    requires Encodable(m) && Pads(m, p, q) && Encodable(m') && Pads(m', p', q')
    requires Header(m, p, q, rest) == Header(m', p', q', rest')
    ensures m == m' && rest == rest'
  {
    RoundTrip(m, p, q, rest);
    RoundTrip(m', p', q', rest');
  }

  // ----- every header that is read is one that could have been written -----

  lemma {:induction false} WordPut(s: seq<byte>)
    requires |s| >= 4
    ensures s == Put(WordAt(s), s[4..])
  {
    WordsDiffer(s[..4]);
    assert s == s[..4] + s[4..];
  }

  lemma {:induction false} AuthParsed(s: seq<byte>) returns (pad: seq<byte>)
    requires ParseAuth(s).Ok?
    ensures var a := ParseAuth(s).value;
      AuthFits(a) && IsPad(pad, a) && s == PutAuth(a, pad, ParseAuth(s).rest)
  {
    var t, a := s[4..][4..], ParseAuth(s).value;
    var n := |a.body|;
    pad := t[n..RoundUp(n)];
    WordPut(s);
    WordPut(s[4..]);
    Cut(t, n, RoundUp(n));
  }

  lemma {:induction false} Cut(t: seq<byte>, n: nat, k: nat)
    requires n <= k <= |t|
    ensures t == t[..n] + (t[n..k] + t[k..])
  {
  }

  lemma {:induction false} AcceptParsed(s: seq<byte>)
    requires ParseAccept(s).Ok?
    ensures s == PutAccept(ParseAccept(s).value, ParseAccept(s).rest)
  {
    WordPut(s);
    if WordAt(s) == 2 {
      WordPut(s[4..]);
      WordPut(s[4..][4..]);
    }
  }

  lemma {:induction false} RejectParsed(s: seq<byte>)
    requires ParseReject(s).Ok? && !ParseReject(s).value.UnknownReject?
    ensures s == PutReject(ParseReject(s).value, ParseReject(s).rest)
  {
    WordPut(s);
    WordPut(s[4..]);
    if WordAt(s) == 0 {
      WordPut(s[4..][4..]);
    }
  }

  lemma {:induction false} CallParsed(s: seq<byte>) returns (p: seq<byte>, q: seq<byte>)
    requires ParseCall(s).Ok?
    ensures var b := ParseCall(s).value;
      && b.Call? && b.rpcvers == RPC_MSG_VERSION && AuthFits(b.cred) && AuthFits(b.verf) && IsPad(p, b.cred) && IsPad(q, b.verf)
      && s == Put(b.rpcvers, Put(b.prog, Put(b.vers, Put(b.proc, PutAuth(b.cred, p, PutAuth(b.verf, q, ParseCall(s).rest))))))
  {
    var t := s[4..][4..][4..][4..];
    p := AuthParsed(t);
    q := AuthParsed(ParseAuth(t).rest);
    WordPut(s);
    WordPut(s[4..]);
    WordPut(s[4..][4..]);
    WordPut(s[4..][4..][4..]);
  }

  predicate Unheard(m: Msg) {
    m.body.Denied? && m.body.reason.UnknownReject?
  }

  /** Only rejections for an unknown reason are read though nothing encodes them. */
  lemma {:induction false} ParsedIsHeader(s: seq<byte>) returns (p: seq<byte>, q: seq<byte>)
    requires ParseMsg(s).Ok? && !Unheard(ParseMsg(s).value)
    ensures var m := ParseMsg(s).value;
      Encodable(m) && Pads(m, p, q) && s == Header(m, p, q, ParseMsg(s).rest)
  {
    var t := s[4..][4..];
    WordPut(s);
    WordPut(s[4..]);
    p, q := [], [];
    if WordAt(s[4..]) == 0 {
      p, q := CallParsed(t);
    } else {
      WordPut(t);
      if WordAt(t) == 0 {
        p := AuthParsed(t[4..]);
        AcceptParsed(ParseAuth(t[4..]).rest);
      } else {
        RejectParsed(t[4..]);
      }
    }
  }
}
