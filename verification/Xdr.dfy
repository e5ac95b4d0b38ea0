/**
 XDR streams: big-endian words and padded opaque data (sections 4.2 and 4.9 of RFC 4506), read from and written to
 queues of buffers.
 */
module Xdr {
  import opened Basics

  type byte = x: nat | x < 0x100
  type u32 = x: nat | x < 0x1_0000_0000

  // ----- words -----

  function WordBytes(x: u32): (s: seq<byte>)
    ensures |s| == 4
  {
    [x / 0x100_0000, x / 0x1_0000 % 0x100, x / 0x100 % 0x100, x % 0x100]
  }

  function WordAt(s: seq<byte>): u32
    requires |s| >= 4
  {
    s[0] as int * 0x100_0000 + s[1] as int * 0x1_0000 + s[2] as int * 0x100 + s[3]
  }

  lemma {:induction false} WordRoundTrip(x: u32, rest: seq<byte>)
    ensures WordAt(WordBytes(x) + rest) == x && (WordBytes(x) + rest)[4..] == rest
  {
    var a, b, c := x / 0x100, x / 0x1_0000, x / 0x100_0000;
    assert b == a / 0x100 && c == b / 0x100;
    assert x == a * 0x100 + x % 0x100 && a == b * 0x100 + a % 0x100 && b == c * 0x100 + b % 0x100;
  }

  lemma {:induction false} WordsDiffer(s: seq<byte>)
    requires |s| == 4
    ensures WordBytes(WordAt(s)) == s
  {
    var x, a, b, c := WordAt(s), s[0] as int, s[1] as int, s[2] as int;
    assert x / 0x100 == a * 0x1_0000 + b * 0x100 + c;
    assert x / 0x1_0000 == a * 0x100 + b;
    assert x / 0x100_0000 == a;
  }

  // ----- padding -----

  /** The bytes that fill `n` up to a whole number of words. */
  function PadLen(n: nat): (k: nat)
    ensures k < 4 && (n + k) % 4 == 0
  {
    if n % 4 == 0 then 0 else 4 - n % 4
  }

  function RoundUp(n: nat): nat {
    n + PadLen(n)
  }

  // ----- reading -----

  function Flat(frags: seq<seq<byte>>): seq<byte> {
    if frags == [] then [] else frags[0] + Flat(frags[1..])
  }

  ghost predicate WordAligned(frags: seq<seq<byte>>) {
    forall i :: 0 <= i < |frags| ==> |frags[i]| % 4 == 0
  }

  lemma {:induction false} FlatAligned(frags: seq<seq<byte>>)
    requires WordAligned(frags)
    ensures |Flat(frags)| % 4 == 0
  {
    if frags != [] { FlatAligned(frags[1..]); }
  }

  lemma {:induction false} Multiples(a: nat, b: nat)
    requires b % 4 == 0
    ensures (a + b) % 4 == a % 4
  {
  }

  lemma {:induction false} Boundary(a: nat, b: nat)
    requires a <= b < a + 4
    ensures a % 4 == b % 4 ==> a == b
  {
  }

  lemma {:induction false} SplitAt(a: seq<byte>, b: seq<byte>)
    ensures (a + b)[..|a|] == a && (a + b)[|a|..] == b
  {
  }

  lemma {:induction false} Regroup(a: seq<byte>, b: seq<byte>, c: seq<byte>)
    ensures a + (b + c) == (a + b) + c
  {
  }

  /** A stream that is read from a queue of buffers, at `pos` in buffer `cur`. */
  class Reader {
    const frags: seq<seq<byte>>
    var cur: nat
    var pos: nat

    constructor (frags: seq<seq<byte>>)
      requires frags != []
      ensures Valid() && this.frags == frags && Remaining() == Flat(frags) && cur == 0 && pos == 0
    {
      this.frags, cur, pos := frags, 0, 0;
    }

    predicate Valid()
      reads this
    {
      cur < |frags| && pos <= |frags[cur]|
    }

    function Remaining(): seq<byte>
      reads this
      requires Valid()
    {
      frags[cur][pos..] + Flat(frags[cur + 1..])
    }

    /** The cursor is at a word boundary, and so are the ends of all buffers. */
    ghost predicate Aligned()
      reads this
    {
      WordAligned(frags) && pos % 4 == 0
    }

    lemma {:induction false} AlignedAgain()
      requires Valid() && WordAligned(frags) && |Remaining()| % 4 == 0
      ensures Aligned()
    {
      FlatAligned(frags[cur + 1..]);
      Multiples(|frags[cur]| - pos, |Flat(frags[cur + 1..])|);
      Multiples(pos, |frags[cur]| - pos);
    }

    /** The next `n` bytes are in the current buffer. */
    predicate Fits(n: nat)
      reads this
      requires Valid()
    {
      pos + n <= |frags[cur]|
    }

    /** The unread bytes of the next buffer that has any. */
    ghost function Ahead(cur: nat, pos: nat): nat
      requires cur < |frags| && pos <= |frags[cur]|
      decreases |frags| - cur
    {
      if pos < |frags[cur]| then |frags[cur]| - pos else if cur + 1 < |frags| then Ahead(cur + 1, 0) else 0
    }

    method Advance() returns (more: bool)
      requires Valid() && pos == |frags[cur]|
      modifies this`cur, this`pos
      ensures Valid() && Remaining() == old(Remaining())
      ensures more <==> old(cur) + 1 < |frags|
      ensures more ==> cur == old(cur) + 1 && pos == 0
      ensures !more ==> cur == old(cur) && pos == old(pos) && Remaining() == []
    {
      more := cur + 1 < |frags|;
      if more {
        assert frags[cur + 1..][1..] == frags[cur + 2..];
        cur, pos := cur + 1, 0;
      }
    }

    /** The next `n` bytes, if they are in the current buffer. */
    method Inline(n: nat) returns (buf: Option<seq<byte>>)
      requires Valid()
      modifies this`pos
      ensures Valid() && (buf.Some? <==> old(Fits(n)))
      ensures buf.Some? ==> |buf.value| == n && old(Remaining()) == buf.value + Remaining() && pos == old(pos) + n
      ensures buf.None? ==> pos == old(pos)
      ensures n % 4 == 0 && old(Aligned()) ==> Aligned()
    {
      if pos + n <= |frags[cur]| {
        buf := Some(frags[cur][pos..pos + n]);
        pos := pos + n;
      } else {
        buf := None;
      }
    }

    /** Copies `n` bytes out of the current buffer. */
    method Take(n: nat) returns (buf: seq<byte>)
      requires Valid() && Fits(n)
      modifies this`pos
      ensures Valid() && |buf| == n && old(Remaining()) == buf + Remaining()
    {
      buf := frags[cur][pos..pos + n];
      pos := pos + n;
    }

    method TakeWord() returns (w: u32)
      requires Valid() && Fits(4)
      modifies this`pos
      ensures Valid() && |old(Remaining())| >= 4 && w == WordAt(old(Remaining())) && Remaining() == old(Remaining())[4..]
      ensures old(Aligned()) ==> Aligned()
    {
      w := WordAt(frags[cur][pos..]);
      pos := pos + 4;
    }

    /** The next word, from the next buffer that has any data. */
    method GetUnit() returns (r: Option<u32>)
      requires Valid()
      modifies this`cur, this`pos
      ensures Valid()
      ensures r.Some? ==> |old(Remaining())| >= 4 && r.value == WordAt(old(Remaining())) && Remaining() == old(Remaining())[4..]
      ensures r.Some? && old(Aligned()) ==> Aligned()
      ensures r.None? && old(Aligned()) ==> |old(Remaining())| < 4
      ensures r.Some? <==> Ahead(old(cur), old(pos)) >= 4
    {
      while pos + 4 > |frags[cur]|
        invariant Valid() && Remaining() == old(Remaining()) && (old(Aligned()) ==> Aligned())
        invariant Ahead(cur, pos) == Ahead(old(cur), old(pos))
        decreases |frags| - cur
      {
        Boundary(pos, |frags[cur]|);
        if pos != |frags[cur]| {
          return None;
        }
        var more := Advance();
        if !more {
          return None;
        }
      }
      var w := TakeWord();
      r := Some(w);
    }

    method GetUint32() returns (r: Option<u32>)
      requires Valid()
      modifies this`cur, this`pos
      ensures Valid()
      ensures r.Some? ==> |old(Remaining())| >= 4 && r.value == WordAt(old(Remaining())) && Remaining() == old(Remaining())[4..]
      ensures r.Some? && old(Aligned()) ==> Aligned()
      ensures r.None? && old(Aligned()) ==> |old(Remaining())| < 4
      ensures r.Some? <==> Ahead(old(cur), old(pos)) >= 4
    {
      if pos + 4 <= |frags[cur]| {
        var w := TakeWord();
        r := Some(w);
      } else {
        r := GetUnit();
      }
    }

    /** The next `n` bytes, from as many buffers as it takes. */
    method GetBytes(n: nat) returns (r: Option<seq<byte>>)
      requires Valid()
      modifies this`cur, this`pos
      ensures Valid() && (r.Some? <==> |old(Remaining())| >= n)
      ensures r.Some? ==> r.value == old(Remaining())[..n] && Remaining() == old(Remaining())[n..]
    {
      ghost var all := Remaining();
      var got, len := [], n;
      while len > 0
        invariant Valid() && 0 <= len <= n && got + Remaining() == all && |got| == n - len
        decreases len, |frags| - cur
      {
        var delta := |frags[cur]| - pos;
        if delta > len {
          delta := len;
        } else if delta == 0 {
          var more := Advance();
          if !more {
            return None;
          }
          continue;
        }
        var buf := Take(delta);
        Regroup(got, buf, Remaining());
        got, len := got + buf, len - delta;
      }
      SplitAt(got, Remaining());
      r := Some(got);
    }

    /** Opaque data of a known length, and its padding. */
    method GetOpaque(n: nat) returns (r: Option<seq<byte>>)
      requires Valid()
      modifies this`cur, this`pos
      ensures Valid() && (r.Some? <==> |old(Remaining())| >= RoundUp(n))
      ensures r.Some? ==> r.value == old(Remaining())[..n] && Remaining() == old(Remaining())[RoundUp(n)..]
      ensures r.Some? && old(Aligned()) ==> Aligned()
    {
      if n == 0 {
        return Some([]);
      }
      ghost var rem := Remaining();
      r := GetBytes(n);
      if r.Some? && n % 4 > 0 {
        var crud := GetBytes(4 - n % 4);
        if crud.None? {
          return None;
        }
        assert rem[n..][PadLen(n)..] == rem[RoundUp(n)..];
      }
      if r.Some? && old(Aligned()) {
        RemainingAligned(frags, old(cur), old(pos));
        Multiples(|Remaining()|, RoundUp(n));
        AlignedAgain();
      }
    }
  }

  lemma {:induction false} RemainingAligned(frags: seq<seq<byte>>, cur: nat, pos: nat)
    requires cur < |frags| && pos <= |frags[cur]| && WordAligned(frags) && pos % 4 == 0
    ensures |frags[cur][pos..] + Flat(frags[cur + 1..])| % 4 == 0
  {
    FlatAligned(frags[cur + 1..]);
    Multiples(|frags[cur]| - pos, pos);
    Multiples(|frags[cur]| - pos, |Flat(frags[cur + 1..])|);
  }

  // ----- writing -----

  lemma {:induction false} FlatLast(frags: seq<seq<byte>>, last: seq<byte>)
    ensures Flat(frags + [last]) == Flat(frags) + last
  {
    if frags == [] {
      assert [last][1..] == [];
    } else {
      assert (frags + [last])[1..] == frags[1..] + [last];
      FlatLast(frags[1..], last);
    }
  }

  lemma {:induction false} FlatEmpty(frags: seq<seq<byte>>)
    requires forall i :: 0 <= i < |frags| ==> frags[i] == []
    ensures Flat(frags) == []
  {
    if frags != [] { FlatEmpty(frags[1..]); }
  }

  lemma {:induction false} FlatEnds(frags: seq<seq<byte>>, cur: nat)
    requires cur < |frags| && forall i :: cur < i < |frags| ==> frags[i] == []
    ensures Flat(frags) == Flat(frags[..cur]) + frags[cur]
  {
    if cur == 0 {
      FlatEmpty(frags[1..]);
    } else {
      FlatEnds(frags[1..], cur - 1);
      assert frags[..cur][1..] == frags[1..][..cur - 1];
    }
  }

  /** A stream that is written to a queue of buffers; when all are full, buffers of `size` bytes are added. */
  class Writer {
    const size: nat
    var caps: seq<nat>
    var frags: seq<seq<byte>>
    var cur: nat

    constructor (caps: seq<nat>, size: nat)
      requires caps != [] && size >= 4
      ensures Valid() && Output() == [] && this.caps == caps && Room() == caps[0]
      ensures size % 4 == 0 && (forall i :: 0 <= i < |caps| ==> caps[i] % 4 == 0) ==> Even()
    {
      this.caps, this.size := caps, size;
      frags, cur := seq(|caps|, i => []), 0;
      new;
      assert frags[..0] == [] && Flat([]) == [];
    }

    predicate Valid()
      reads this
    {
      && |frags| == |caps| && cur < |frags| && size >= 4
      && (forall i :: 0 <= i < |frags| ==> |frags[i]| <= caps[i])
      && (forall i :: cur < i < |frags| ==> frags[i] == [])
    }

    function Output(): seq<byte>
      reads this
      requires Valid()
    {
      Flat(frags[..cur]) + frags[cur]
    }

    /** Buffers hold whole words, and only the current one may end within a word. */
    ghost predicate Snug()
      reads this
    {
      && Valid() && size % 4 == 0 && (forall i :: 0 <= i < |caps| ==> caps[i] % 4 == 0)
      && WordAligned(frags[..cur])
    }

    /** A whole number of words has been written. */
    ghost predicate Even()
      reads this
    {
      Snug() && |Output()| % 4 == 0
    }

    lemma {:induction false} SnugLength()
      requires Snug()
      ensures |Output()| % 4 == |frags[cur]| % 4
    {
      FlatAligned(frags[..cur]);
      Multiples(|frags[cur]|, |Flat(frags[..cur])|);
    }

    /** Then the buffers can be read word by word, and hold what has been written. */
    lemma {:induction false} EvenFrags()
      requires Even()
      ensures WordAligned(frags) && Flat(frags) == Output()
    {
      SnugLength();
      forall i | 0 <= i < |frags| ensures |frags[i]| % 4 == 0 {
        assert i < cur ==> frags[i] == frags[..cur][i];
      }
      FlatEnds(frags, cur);
    }

    /** What the current buffer still takes. */
    function Room(): nat
      reads this
      requires Valid()
    {
      caps[cur] - |frags[cur]|
    }

    /** Writes into the current buffer. */
    method Store(s: seq<byte>)
      requires Valid() && |s| <= Room()
      modifies this`frags
      ensures Valid() && Output() == old(Output()) + s && Room() == old(Room()) - |s|
      ensures old(Snug()) ==> Snug()
    {
      ghost var was := frags;
      frags := frags[cur := frags[cur] + s];
      assert frags[..cur] == was[..cur];
    }

    /** Goes on to the next buffer, or adds one. */
    method NextBuffer()
      requires Valid()
      modifies this`cur, this`frags, this`caps
      ensures Valid() && Output() == old(Output())
      ensures |frags| - cur < old(|frags| - cur) || Room() >= 4
      ensures |frags| - cur <= old(|frags| - cur)
      ensures old(Snug()) && old(Room()) % 4 == 0 ==> Snug()
    {
      if cur + 1 == |frags| {
        frags, caps := frags + [[]], caps + [size];
      }
      FlatLast(frags[..cur], frags[cur]);
      assert frags[..cur + 1] == frags[..cur] + [frags[cur]];
      cur := cur + 1;
    }

    lemma {:induction false} EvenRoom()
      requires Even()
      ensures Room() % 4 == 0
    {
      SnugLength();
      Multiples(Room(), |frags[cur]|);
    }

    method PutUint32(x: u32)
      requires Valid()
      modifies this`cur, this`frags, this`caps
      ensures Valid() && Output() == old(Output()) + WordBytes(x)
      ensures old(Even()) ==> Even()
    {
      while Room() < 4
        invariant Valid() && Output() == old(Output()) && (old(Even()) ==> Even())
        decreases if Room() < 4 then |frags| - cur else 0
      {
        if old(Even()) { EvenRoom(); }
        NextBuffer();
      }
      Store(WordBytes(x));
    }

    method PutBytes(s: seq<byte>)
      requires Valid()
      modifies this`cur, this`frags, this`caps
      ensures Valid() && Output() == old(Output()) + s
      ensures old(Snug()) ==> Snug()
    {
      var done := 0;
      while done < |s|
        invariant Valid() && 0 <= done <= |s| && Output() == old(Output()) + s[..done] && (old(Snug()) ==> Snug())
        decreases |s| - done, if Room() < 4 then |frags| - cur else 0
      {
        var delta := Room();
        if delta > |s| - done {
          delta := |s| - done;
        } else if delta == 0 {
          NextBuffer();
          continue;
        }
        Store(s[done..done + delta]);
        assert s[..done + delta] == s[..done] + s[done..done + delta];
        done := done + delta;
      }
      assert s[..done] == s;
    }
  }
}
