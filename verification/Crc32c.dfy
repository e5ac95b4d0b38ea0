/**
 CRC32C: the one-table byte loop, the slicing-by-8 loop beside it, and the shift register both stand for.
 */
module Crc32c {

  /** The generator polynomial 0x1EDC6F41 with its bits reversed. */
  const POLY: bv32 := 0x82F63B78

  const LENGTH_MOD: nat := 0x1_0000_0000

  /** Addition of polynomials over GF(2). */
  function Xor(a: bv32, b: bv32): bv32 {
    a ^ b
  }

  // ----- the shift register -----

  function Shift(x: bv32): bv32 {
    if x & 1 == 1 then (x >> 1) ^ POLY else x >> 1
  }

  /** The register after `n` turns. */
  function Turns(n: nat, x: bv32): bv32 {
    if n == 0 then x else Turns(n - 1, Shift(x))
  }

  /** Adds the low `n` bits of `b` at the low end of the register, one before each turn. */
  function Feed(crc: bv32, b: bv32, n: nat): bv32
    decreases n
  {
    if n == 0 then crc else Feed(Shift(Xor(crc, b & 1)), b >> 1, n - 1)
  }

  /** The CRC of a message, bit by bit, with the least significant bit of each byte first. */
  function BitSerial(crc: bv32, buf: seq<bv8>): bv32
    decreases |buf|
  {
    if buf == [] then crc else BitSerial(Feed(crc, buf[0] as bv32, 8), buf[1..])
  }

  // ----- the tables -----

  /**
   Entry `b` of the table for offset 24 + 8 * k, for k from 1 to 8; `crc32Table` is the one for k = 1.
   */
  function Slice(k: nat, b: bv32): bv32 {
    Turns(8 * k, b)
  }

  function Update(crc: bv32, b: bv8): bv32 {
    Xor(Slice(1, Xor(crc, b as bv32) & 0xff), crc >> 8)
  }

  /** The byte loop over one table. */
  function Crc(crc: bv32, buf: seq<bv8>): bv32
    decreases |buf|
  {
    if buf == [] then crc else Crc(Update(crc, buf[0]), buf[1..])
  }

  // ----- linearity -----

  lemma {:induction false} XorFacts(a: bv32, b: bv32, p: bv32)
    ensures (a ^ b) >> 1 == (a >> 1) ^ (b >> 1)
    ensures (a ^ b) & 1 == (a & 1) ^ (b & 1)
    ensures a & 1 == 0 || a & 1 == 1
    ensures (a ^ p) ^ b == (a ^ b) ^ p && a ^ (b ^ p) == (a ^ b) ^ p && (a ^ p) ^ (b ^ p) == a ^ b
  {
  }

  lemma {:induction false} ShiftBits(a: bv32, b: bv32)
    ensures Shift(a ^ b) == Shift(a) ^ Shift(b)
  {
    XorFacts(a, b, POLY);
    XorFacts(b, a, POLY);
    XorFacts(a >> 1, b >> 1, POLY);
    if a & 1 == 1 {
      if b & 1 == 1 { assert (a ^ b) & 1 == 0; } else { assert (a ^ b) & 1 == 1; }
    } else {
      if b & 1 == 1 { assert (a ^ b) & 1 == 1; } else { assert (a ^ b) & 1 == 0; }
    }
  }

  lemma {:induction false} ShiftXor(a: bv32, b: bv32)
    ensures Shift(Xor(a, b)) == Xor(Shift(a), Shift(b))
  {
    ShiftBits(a, b);
  }

  lemma {:induction false} TurnsXor(n: nat, a: bv32, b: bv32)
    ensures Turns(n, Xor(a, b)) == Xor(Turns(n, a), Turns(n, b))
  {
    if n > 0 {
      ShiftXor(a, b);
      TurnsXor(n - 1, Shift(a), Shift(b));
    }
  }

  lemma {:induction false} TurnsAdd(n: nat, m: nat, x: bv32)
    ensures Turns(n + m, x) == Turns(m, Turns(n, x))
  {
    if n > 0 { TurnsAdd(n - 1, m, Shift(x)); }
  }

  predicate LowZeros(n: nat, x: bv32) {
    n == 0 || (x & 1 == 0 && LowZeros(n - 1, x >> 1))
  }

  function Down(n: nat, x: bv32): bv32 {
    if n == 0 then x else Down(n - 1, x >> 1)
  }

  /** While only zeros leave the register, it just shifts. */
  lemma {:induction false} TurnsDown(n: nat, x: bv32)
    requires LowZeros(n, x)
    ensures Turns(n, x) == Down(n, x)
  {
    if n > 0 { TurnsDown(n - 1, x >> 1); }
  }

  lemma {:induction false} DownByte(x: bv32)
    ensures Down(8, x) == x >> 8
    ensures x & 0xff == 0 ==> LowZeros(8, x)
  {
    assert Down(8, x) == Down(6, x >> 2);
    assert Down(6, x >> 2) == Down(4, x >> 4);
    assert Down(4, x >> 4) == Down(2, x >> 6);
    assert Down(2, x >> 6) == Down(0, x >> 8);
    if x & 0xff == 0 {
      assert LowZeros(2, x >> 6);
      assert LowZeros(4, x >> 4);
      assert LowZeros(6, x >> 2);
    }
  }

  lemma {:induction false} TurnsShift(x: bv32)
    requires x & 0xff == 0
    ensures Turns(8, x) == x >> 8
  {
    DownByte(x);
    TurnsDown(8, x);
  }

  // ----- the byte loop is the shift register -----

  lemma {:induction false} SplitWord(x: bv32)
    ensures x == Xor(x & 0xff, x & 0xffff_ff00) && (x & 0xffff_ff00) & 0xff == 0 && (x & 0xffff_ff00) >> 8 == x >> 8
  {
  }

  lemma {:induction false} ByteGone(crc: bv32, b: bv8)
    ensures Xor(crc, b as bv32) >> 8 == crc >> 8
  {
  }

  /** Eight turns are one table step. */
  lemma {:induction false} TurnsWord(x: bv32)
    ensures Turns(8, x) == Xor(Slice(1, x & 0xff), x >> 8)
  {
    SplitWord(x);
    TurnsSplit(x, x & 0xff, x & 0xffff_ff00);
  }

  lemma {:induction false} TurnsSplit(x: bv32, low: bv32, high: bv32)
    requires x == Xor(low, high) && high & 0xff == 0
    ensures Turns(8, x) == Xor(Slice(1, low), high >> 8)
  {
    TurnsXor(8, low, high);
    TurnsShift(high);
  }

  /** One table step turns the register eight times. */
  lemma {:induction false} UpdateTurns(crc: bv32, b: bv8)
    ensures Update(crc, b) == Turns(8, Xor(crc, b as bv32))
  {
    TurnsWord(Xor(crc, b as bv32));
    ByteGone(crc, b);
  }

  predicate Narrow(n: nat, b: bv32) {
    if n == 0 then b == 0 else Narrow(n - 1, b >> 1)
  }

  lemma {:induction false} LowBit(crc: bv32, b: bv32)
    ensures Xor(crc, b) == Xor(Xor(crc, b & 1), b & 0xffff_fffe)
    ensures (b & 0xffff_fffe) & 1 == 0 && (b & 0xffff_fffe) >> 1 == b >> 1
  {
  }

  /** Feeding bits one by one is adding them all and then turning. */
  lemma {:induction false} FeedTurns(crc: bv32, b: bv32, n: nat)
    requires Narrow(n, b)
    ensures Feed(crc, b, n) == Turns(n, Xor(crc, b))
    decreases n
  {
    if n > 0 {
      LowBit(crc, b);
      ShiftXor(Xor(crc, b & 1), b & 0xffff_fffe);
      FeedTurns(Shift(Xor(crc, b & 1)), b >> 1, n - 1);
    }
  }

  lemma {:induction false} NarrowByte(b: bv32)
    requires b <= 0xff
    ensures Narrow(8, b)
  {
    assert b >> 8 == 0;
    assert Narrow(0, b >> 8);
    assert Narrow(2, b >> 6);
    assert Narrow(4, b >> 4);
    assert Narrow(6, b >> 2);
  }

  lemma {:induction false} ByteIsNarrow(b: bv8)
    ensures Narrow(8, b as bv32)
  {
    NarrowByte(b as bv32);
  }

  /** The table-driven loop computes the bit-serial CRC of the generator polynomial. */
  lemma {:induction false} CrcIsBitSerial(crc: bv32, buf: seq<bv8>)
    ensures Crc(crc, buf) == BitSerial(crc, buf)
    decreases |buf|
  {
    if buf != [] {
      UpdateTurns(crc, buf[0]);
      ByteIsNarrow(buf[0]);
      FeedTurns(crc, buf[0] as bv32, 8);
      CrcIsBitSerial(Update(crc, buf[0]), buf[1..]);
    }
  }

  /** The CRC of a concatenation is the CRC of the second part seeded with the CRC of the first. */
  lemma {:induction false} CrcConcat(crc: bv32, a: seq<bv8>, b: seq<bv8>)
    ensures Crc(crc, a + b) == Crc(Crc(crc, a), b)
    decreases |a|
  {
    if a == [] {
      assert a + b == b;
    } else {
      assert (a + b)[1..] == a[1..] + b;
      CrcConcat(Update(crc, a[0]), a[1..], b);
    }
  }

  // ----- eight bytes at a time -----

  /** A little-endian load of four bytes. */
  function Word(b0: bv8, b1: bv8, b2: bv8, b3: bv8): bv32 {
    Xor(Xor(Xor(b0 as bv32, (b1 as bv32) << 8), (b2 as bv32) << 16), (b3 as bv32) << 24)
  }

  /** Four lookups, the first of them in table `k`. */
  function Lookups(k: nat, p0: bv32, p1: bv32, p2: bv32, p3: bv32): bv32
    requires k >= 4
  {
    Xor(Xor(Xor(Slice(k, p0), Slice(k - 1, p1)), Slice(k - 2, p2)), Slice(k - 3, p3))
  }

  /** The lookups for the four bytes of a word. */
  function Lanes(k: nat, x: bv32): bv32
    requires k >= 4
  {
    Lookups(k, x & 0xff, (x >> 8) & 0xff, (x >> 16) & 0xff, (x >> 24) & 0xff)
  }

  /** One turn of the slicing-by-8 loop, for two words of the message. */
  function Block(crc: bv32, w1: bv32, w2: bv32): bv32 {
    Xor(Lanes(8, Xor(crc, w1)), Lanes(4, w2))
  }

  lemma {:induction false} UpDown(x: bv32)
    requires x <= 0xff
    ensures (x << 8) & 0xff == 0 && (x << 8) >> 8 == x
    ensures (x << 16) & 0xff == 0 && (x << 16) >> 8 == x << 8
    ensures (x << 24) & 0xff == 0 && (x << 24) >> 8 == x << 16
  {
  }

  lemma {:induction false} RaiseOnce(n: nat, x: bv32, y: bv32)
    requires y & 0xff == 0 && y >> 8 == x
    ensures Turns(n + 8, y) == Turns(n, x)
  {
    TurnsAdd(8, n, y);
    TurnsShift(y);
  }

  /** A byte that stands higher needs more turns to come out. */
  lemma {:induction false} Raise(n: nat, x: bv32)
    requires x <= 0xff
    ensures Turns(n + 8, x << 8) == Turns(n, x)
    ensures Turns(n + 16, x << 16) == Turns(n, x)
    ensures Turns(n + 24, x << 24) == Turns(n, x)
  {
    UpDown(x);
    RaiseOnce(n, x, x << 8);
    RaiseOnce(n + 8, x << 8, x << 16);
    RaiseOnce(n + 16, x << 16, x << 24);
  }

  /** `p0` to `p3` are the bytes of `x`, lowest first. */
  predicate AreBytesOf(x: bv32, p0: bv32, p1: bv32, p2: bv32, p3: bv32) {
    // one fact: the verifier does not split it
    (x == Xor(Xor(Xor(p0, p1 << 8), p2 << 16), p3 << 24) && p1 <= 0xff && p2 <= 0xff && p3 <= 0xff) == true
  }

  lemma {:induction false} WordBytes(x: bv32)
    ensures AreBytesOf(x, x & 0xff, (x >> 8) & 0xff, (x >> 16) & 0xff, (x >> 24) & 0xff)
  {
  }

  lemma {:induction false} TurnsXor4(n: nat, a: bv32, b: bv32, c: bv32, d: bv32)
    ensures Turns(n, Xor(Xor(Xor(a, b), c), d)) == Xor(Xor(Xor(Turns(n, a), Turns(n, b)), Turns(n, c)), Turns(n, d))
  {
    TurnsXor(n, Xor(Xor(a, b), c), d);
    TurnsXor(n, Xor(a, b), c);
    TurnsXor(n, a, b);
  }

  lemma {:induction false} LookupsTurn(k: nat, x: bv32, p0: bv32, p1: bv32, p2: bv32, p3: bv32)
    requires k >= 4 && AreBytesOf(x, p0, p1, p2, p3)
    ensures Lookups(k, p0, p1, p2, p3) == Turns(8 * k, x)
  {
    Raise(8 * k - 8, p1);
    Raise(8 * k - 16, p2);
    Raise(8 * k - 24, p3);
    TurnsXor4(8 * k, p0, p1 << 8, p2 << 16, p3 << 24);
  }

  /** The four lookups together turn the whole word. */
  lemma {:induction false} LanesTurn(k: nat, x: bv32)
    requires k >= 4
    ensures Lanes(k, x) == Turns(8 * k, x)
  {
    WordBytes(x);
    LookupsTurn(k, x, x & 0xff, (x >> 8) & 0xff, (x >> 16) & 0xff, (x >> 24) & 0xff);
  }

  lemma {:induction false} XorAssoc(a: bv32, b: bv32, c: bv32)
    ensures Xor(Xor(a, b), c) == Xor(a, Xor(b, c))
  {
  }

  lemma {:induction false} WordParts(crc: bv32, b0: bv8, b1: bv8, b2: bv8, b3: bv8)
    ensures Xor(crc, Word(b0, b1, b2, b3)) ==
            Xor(Xor(Xor(Xor(crc, b0 as bv32), (b1 as bv32) << 8), (b2 as bv32) << 16), (b3 as bv32) << 24)
  {
    var x0, x1, x2, x3 := b0 as bv32, (b1 as bv32) << 8, (b2 as bv32) << 16, (b3 as bv32) << 24;
    XorAssoc(crc, Xor(Xor(x0, x1), x2), x3);
    XorAssoc(crc, Xor(x0, x1), x2);
    XorAssoc(crc, x0, x1);
  }

  /** Adding a byte after `n` turns is adding it in its raised position before them. */
  lemma {:induction false} Absorb(n: nat, y: bv32, b: bv8, raised: bv32)
    requires Turns(n, raised) == b as bv32
    ensures Update(Turns(n, y), b) == Turns(n + 8, Xor(y, raised))
  {
    UpdateTurns(Turns(n, y), b);
    TurnsXor(n, y, raised);
    TurnsAdd(n, 8, Xor(y, raised));
  }

  /** Four table steps turn the register 32 times after the word is added. */
  lemma {:induction false} FourUpdates(crc: bv32, b0: bv8, b1: bv8, b2: bv8, b3: bv8)
    ensures Update(Update(Update(Update(crc, b0), b1), b2), b3) == Turns(32, Xor(crc, Word(b0, b1, b2, b3)))
  {
    var x1, x2, x3 := (b1 as bv32) << 8, (b2 as bv32) << 16, (b3 as bv32) << 24;
    Raise(0, b1 as bv32);
    Raise(0, b2 as bv32);
    Raise(0, b3 as bv32);
    UpdateTurns(crc, b0);
    var y := Xor(crc, b0 as bv32);
    Absorb(8, y, b1, x1);
    Absorb(16, Xor(y, x1), b2, x2);
    Absorb(24, Xor(Xor(y, x1), x2), b3, x3);
    WordParts(crc, b0, b1, b2, b3);
  }

  lemma {:induction false} BlockTurns(crc: bv32, w1: bv32, w2: bv32)
    ensures Block(crc, w1, w2) == Turns(32, Xor(Turns(32, Xor(crc, w1)), w2))
  {
    var x := Xor(crc, w1);
    LanesTurn(8, x);
    LanesTurn(4, w2);
    TurnsAdd(32, 32, x);
    TurnsXor(32, Turns(32, x), w2);
  }

  lemma {:induction false} CrcFour(crc: bv32, b0: bv8, b1: bv8, b2: bv8, b3: bv8, rest: seq<bv8>)
    ensures Crc(crc, [b0, b1, b2, b3] + rest) == Crc(Turns(32, Xor(crc, Word(b0, b1, b2, b3))), rest)
  {
    FourUpdates(crc, b0, b1, b2, b3);
    CrcNext(crc, b0, [b1, b2, b3] + rest);
    CrcNext(Update(crc, b0), b1, [b2, b3] + rest);
    CrcNext(Update(Update(crc, b0), b1), b2, [b3] + rest);
    CrcNext(Update(Update(Update(crc, b0), b1), b2), b3, rest);
    assert [b0, b1, b2, b3] + rest == [b0] + ([b1, b2, b3] + rest);
    assert [b1, b2, b3] + rest == [b1] + ([b2, b3] + rest);
    assert [b2, b3] + rest == [b2] + ([b3] + rest);
  }

  lemma {:induction false} CrcNext(crc: bv32, b: bv8, rest: seq<bv8>)
    ensures Crc(crc, [b] + rest) == Crc(Update(crc, b), rest)
  {
    assert ([b] + rest)[1..] == rest;
  }

  /** One turn of the slicing loop does what eight turns of the byte loop do. */
  lemma {:induction false} BlockIsEightUpdates(crc: bv32, b: seq<bv8>)
    requires |b| == 8
    ensures Block(crc, Word(b[0], b[1], b[2], b[3]), Word(b[4], b[5], b[6], b[7])) == Crc(crc, b)
  {
    var w1, w2 := Word(b[0], b[1], b[2], b[3]), Word(b[4], b[5], b[6], b[7]);
    BlockTurns(crc, w1, w2);
    CrcFour(crc, b[0], b[1], b[2], b[3], b[4..]);
    CrcFour(Turns(32, Xor(crc, w1)), b[4], b[5], b[6], b[7], []);
    assert b == [b[0], b[1], b[2], b[3]] + b[4..];
    assert b[4..] == [b[4], b[5], b[6], b[7]] + [];
  }

  /** The loop turn of the big-endian build, which takes the bytes one by one. */
  function BlockBytewise(crc: bv32, b: seq<bv8>): bv32
    requires |b| == 8
  {
    var x := Xor(Xor(Xor(Xor(crc, b[0] as bv32), (b[1] as bv32) << 8), (b[2] as bv32) << 16), (b[3] as bv32) << 24);
    Xor(Lanes(8, x), Lookups(4, b[4] as bv32, b[5] as bv32, b[6] as bv32, b[7] as bv32))
  }

  lemma {:induction false} BytesAreBytes(b0: bv8, b1: bv8, b2: bv8, b3: bv8)
    ensures AreBytesOf(Word(b0, b1, b2, b3), b0 as bv32, b1 as bv32, b2 as bv32, b3 as bv32)
  {
  }

  /** Both builds compute the same CRC. */
  lemma {:induction false} ByteOrderIrrelevant(crc: bv32, b: seq<bv8>)
    requires |b| == 8
    ensures BlockBytewise(crc, b) == Block(crc, Word(b[0], b[1], b[2], b[3]), Word(b[4], b[5], b[6], b[7]))
  {
    WordParts(crc, b[0], b[1], b[2], b[3]);
    BytesAreBytes(b[4], b[5], b[6], b[7]);
    LookupsTurn(4, Word(b[4], b[5], b[6], b[7]), b[4] as bv32, b[5] as bv32, b[6] as bv32, b[7] as bv32);
    LanesTurn(4, Word(b[4], b[5], b[6], b[7]));
  }

  // ----- the loops -----

  method SingleTable(seed: bv32, buf: seq<bv8>) returns (crc: bv32)
    ensures crc == Crc(seed, buf)
  {
    crc := seed;
    for i := 0 to |buf|
      invariant Crc(crc, buf[i..]) == Crc(seed, buf)
    {
      crc := Xor(Slice(1, Xor(crc, buf[i] as bv32) & 0xff), crc >> 8);
      assert buf[i..][1..] == buf[i + 1..];
    }
  }

  /** Byte by byte for `initBytes`, then eight bytes at a time, then byte by byte to the end. */
  method SlicingBy8(seed: bv32, buf: seq<bv8>, initBytes: nat) returns (crc: bv32)
    requires initBytes <= |buf| < LENGTH_MOD
    ensures crc == Crc(seed, buf)
  {
    var runningLength := ((|buf| - initBytes) / 8) * 8;
    var endBytes := |buf| - initBytes - runningLength;
    crc := SingleTable(seed, buf[..initBytes]);
    var p := initBytes;
    var li := 0;
    while li < runningLength / 8
      invariant 0 <= li <= runningLength / 8 && p == initBytes + 8 * li
      invariant p + 8 * (runningLength / 8 - li) + endBytes == |buf|
      invariant crc == Crc(seed, buf[..p])
    {
      ghost var b := buf[p..p + 8];
      var w1 := Word(buf[p], buf[p + 1], buf[p + 2], buf[p + 3]);
      var w2 := Word(buf[p + 4], buf[p + 5], buf[p + 6], buf[p + 7]);
      BlockIsEightUpdates(crc, b);
      CrcConcat(seed, buf[..p], b);
      assert buf[..p + 8] == buf[..p] + b;
      crc := Block(crc, w1, w2);
      p := p + 8;
      li := li + 1;
    }
    CrcConcat(seed, buf[..p], buf[p..]);
    assert buf == buf[..p] + buf[p..];
    crc := SingleTable(crc, buf[p..]);
  }

  /** `address` is where the buffer starts; the first bytes are taken singly up to the next word boundary. */
  method MultiTable(seed: bv32, buf: seq<bv8>, address: nat) returns (crc: bv32)
    requires |buf| == 0 || 4 - address % 4 <= |buf| < LENGTH_MOD
    ensures crc == Crc(seed, buf)
  {
    if |buf| == 0 {
      return seed;
    }
    var toEvenWord := 4 - address % 4;
    crc := SlicingBy8(seed, buf, toEvenWord);
  }

  /** For every seed, buffer and alignment, the result is the CRC of the buffer. */
  method Calculate(seed: bv32, buf: seq<bv8>, address: nat) returns (crc: bv32)
    requires |buf| < LENGTH_MOD
    ensures crc == Crc(seed, buf)
  {
    if |buf| < 4 {
      crc := SingleTable(seed, buf);
    } else {
      crc := MultiTable(seed, buf, address);
    }
  }

  // ----- what the CRC detects -----

  function XorBytes(x: seq<bv8>, y: seq<bv8>): (r: seq<bv8>)
    requires |x| == |y|
    ensures |r| == |x|
  {
    seq(|x|, i requires 0 <= i < |x| => x[i] ^ y[i])
  }

  lemma {:induction false} XorMiddle(a: bv32, b: bv32, x: bv8, y: bv8)
    ensures Xor(Xor(a, x as bv32), Xor(b, y as bv32)) == Xor(Xor(a, b), (x ^ y) as bv32)
  {
    var u, v := x as bv32, y as bv32;
    XorSwap(a, u, b, v);
    XorWide(x, y);
  }

  lemma {:induction false} XorWide(x: bv8, y: bv8)
    ensures (x ^ y) as bv32 == Xor(x as bv32, y as bv32)
  {
  }

  lemma {:induction false} XorSwap(a: bv32, u: bv32, b: bv32, v: bv32)
    ensures Xor(Xor(a, u), Xor(b, v)) == Xor(Xor(a, b), Xor(u, v))
  {
    XorAssoc(a, u, Xor(b, v));
    XorAssoc(u, b, v);
    XorComm(u, b);
    XorAssoc(b, u, v);
    XorAssoc(a, b, Xor(u, v));
  }

  lemma {:induction false} XorComm(a: bv32, b: bv32)
    ensures Xor(a, b) == Xor(b, a)
  {
  }

  lemma {:induction false} UpdateXor(a: bv32, b: bv32, x: bv8, y: bv8)
    ensures Xor(Update(a, x), Update(b, y)) == Update(Xor(a, b), x ^ y)
  {
    UpdateTurns(a, x);
    UpdateTurns(b, y);
    UpdateTurns(Xor(a, b), x ^ y);
    XorMiddle(a, b, x, y);
    TurnsXor(8, Xor(a, x as bv32), Xor(b, y as bv32));
  }

  /** The difference of two CRCs is the CRC of the difference. */
  lemma {:induction false} CrcXor(a: bv32, b: bv32, x: seq<bv8>, y: seq<bv8>)
    requires |x| == |y|
    ensures Xor(Crc(a, x), Crc(b, y)) == Crc(Xor(a, b), XorBytes(x, y))
    decreases |x|
  {
    if x != [] {
      UpdateXor(a, b, x[0], y[0]);
      CrcXor(Update(a, x[0]), Update(b, y[0]), x[1..], y[1..]);
      assert XorBytes(x, y)[1..] == XorBytes(x[1..], y[1..]);
    }
  }

  /** The bits of the low end of a word, lowest first. */
  function BitsOf(b: bv32, n: nat): (r: seq<bool>)
    ensures |r| == n
    decreases n
  {
    if n == 0 then [] else [b & 1 == 1] + BitsOf(b >> 1, n - 1)
  }

  /** The bits of a message, in the order in which they enter the register. */
  function Bits(buf: seq<bv8>): (r: seq<bool>)
    ensures |r| == 8 * |buf|
  {
    if buf == [] then [] else BitsOf(buf[0] as bv32, 8) + Bits(buf[1..])
  }

  function AsWord(bit: bool): bv32 {
    if bit then 1 else 0
  }

  /** The register after some bits. */
  function Enter(crc: bv32, bits: seq<bool>): bv32
    decreases |bits|
  {
    if bits == [] then crc else Enter(Shift(Xor(crc, AsWord(bits[0]))), bits[1..])
  }

  lemma {:induction false} EnterConcat(crc: bv32, a: seq<bool>, b: seq<bool>)
    ensures Enter(crc, a + b) == Enter(Enter(crc, a), b)
    decreases |a|
  {
    if a == [] {
      assert a + b == b;
    } else {
      assert (a + b)[1..] == a[1..] + b;
      EnterConcat(Shift(Xor(crc, AsWord(a[0]))), a[1..], b);
    }
  }

  lemma {:induction false} FeedEnters(crc: bv32, b: bv32, n: nat)
    ensures Feed(crc, b, n) == Enter(crc, BitsOf(b, n))
    decreases n
  {
    if n > 0 {
      XorFacts(b, b, b);
      FeedEnters(Shift(Xor(crc, b & 1)), b >> 1, n - 1);
      assert BitsOf(b, n)[1..] == BitsOf(b >> 1, n - 1);
    }
  }

  lemma {:induction false} CrcEnters(crc: bv32, buf: seq<bv8>)
    ensures Crc(crc, buf) == Enter(crc, Bits(buf))
    decreases |buf|
  {
    if buf != [] {
      var b := buf[0] as bv32;
      UpdateTurns(crc, buf[0]);
      ByteIsNarrow(buf[0]);
      FeedTurns(crc, b, 8);
      FeedEnters(crc, b, 8);
      CrcEnters(Update(crc, buf[0]), buf[1..]);
      EnterConcat(crc, BitsOf(b, 8), Bits(buf[1..]));
    }
  }

  lemma {:induction false} SameWord(a: bv32, b: bv32)
    requires (a & 1 == 1 <==> b & 1 == 1) && a >> 1 == b >> 1
    ensures a == b
  {
    LowBit(0, a);
    LowBit(0, b);
  }

  lemma {:induction false} BitsOfHead(b: bv32, n: nat)
    requires n > 0
    ensures BitsOf(b, n)[0] == (b & 1 == 1) && BitsOf(b, n)[1..] == BitsOf(b >> 1, n - 1)
  {
  }

  lemma {:induction false} BitsOfDiffer(a: bv32, b: bv32, n: nat)
    requires Narrow(n, a) && Narrow(n, b) && BitsOf(a, n) == BitsOf(b, n)
    ensures a == b
    decreases n
  {
    if n > 0 {
      BitsOfHead(a, n);
      BitsOfHead(b, n);
      BitsOfDiffer(a >> 1, b >> 1, n - 1);
      SameWord(a, b);
    }
  }

  lemma {:induction false} SameByte(x: bv8, y: bv8)
    requires x as bv32 == y as bv32
    ensures x == y
  {
  }

  lemma {:induction false} BitsDiffer(x: seq<bv8>, y: seq<bv8>)
    requires |x| == |y| && Bits(x) == Bits(y)
    ensures x == y
  {
    if x != [] {
      assert Bits(x)[..8] == BitsOf(x[0] as bv32, 8) && Bits(y)[..8] == BitsOf(y[0] as bv32, 8);
      assert Bits(x)[8..] == Bits(x[1..]) && Bits(y)[8..] == Bits(y[1..]);
      ByteIsNarrow(x[0]);
      ByteIsNarrow(y[0]);
      BitsOfDiffer(x[0] as bv32, y[0] as bv32, 8);
      SameByte(x[0], y[0]);
      BitsDiffer(x[1..], y[1..]);
    }
  }

  function XorBits(u: seq<bool>, v: seq<bool>): (r: seq<bool>)
    requires |u| == |v|
    ensures |r| == |u|
  {
    seq(|u|, i requires 0 <= i < |u| => u[i] != v[i])
  }

  lemma {:induction false} BitXor(p: bool, q: bool)
    ensures Xor(AsWord(p), AsWord(q)) == AsWord(p != q)
  {
  }

  lemma {:induction false} EnterXor(a: bv32, b: bv32, u: seq<bool>, v: seq<bool>)
    requires |u| == |v|
    ensures Xor(Enter(a, u), Enter(b, v)) == Enter(Xor(a, b), XorBits(u, v))
    decreases |u|
  {
    if u != [] {
      var c, d := AsWord(u[0]), AsWord(v[0]);
      XorSwap(a, c, b, d);
      BitXor(u[0], v[0]);
      ShiftXor(Xor(a, c), Xor(b, d));
      EnterXor(Shift(Xor(a, c)), Shift(Xor(b, d)), u[1..], v[1..]);
      assert XorBits(u, v)[1..] == XorBits(u[1..], v[1..]);
    }
  }

  predicate AtLeast(x: bv32, floor: bv32) {
    x >= floor
  }

  lemma {:induction false} LowBitFloor(r: bv32, bit: bool, floor: bv32)
    requires AtLeast(r, floor) && floor & 1 == 0
    ensures AtLeast(Xor(r, AsWord(bit)), floor)
  {
  }

  lemma {:induction false} ShiftFloor(x: bv32, floor: bv32)
    requires AtLeast(x, floor)
    ensures AtLeast(Shift(x), floor >> 1)
  {
    assert AtLeast(x >> 1, floor >> 1);
    assert AtLeast((x >> 1) ^ POLY, floor >> 1);
  }

  /** A register that is not below a number with zeros at its low end is, after as many bits, not below the rest of it. */
  lemma {:induction false} EnterFloor(r: bv32, bits: seq<bool>, floor: bv32)
    requires AtLeast(r, floor) && LowZeros(|bits|, floor)
    ensures AtLeast(Enter(r, bits), Down(|bits|, floor))
    decreases |bits|
  {
    if bits != [] {
      LowBitFloor(r, bits[0], floor);
      ShiftFloor(Xor(r, AsWord(bits[0])), floor);
      EnterFloor(Shift(Xor(r, AsWord(bits[0]))), bits[1..], floor >> 1);
    }
  }

  lemma {:induction false} DownNonzero(n: nat, x: bv32)
    requires LowZeros(n, x) && x != 0
    ensures Down(n, x) != 0
  {
    if n > 0 {
      assert x >> 1 != 0;
      DownNonzero(n - 1, x >> 1);
    }
  }

  lemma {:induction false} EightZeros(n: nat, x: bv32)
    requires x & 0xff == 0 && LowZeros(n, x >> 8)
    ensures LowZeros(n + 8, x)
  {
    assert LowZeros(n + 2, x >> 6);
    assert LowZeros(n + 4, x >> 4);
    assert LowZeros(n + 6, x >> 2);
  }

  lemma {:induction false} FewerZeros(n: nat, m: nat, x: bv32)
    requires LowZeros(n, x) && m <= n
    ensures LowZeros(m, x)
  {
    if m > 0 { FewerZeros(n - 1, m - 1, x >> 1); }
  }

  lemma {:induction false} TopBit()
    ensures LowZeros(31, 0x8000_0000)
  {
    assert LowZeros(1, 2);
    assert LowZeros(3, 8);
    assert LowZeros(5, 0x20);
    assert LowZeros(7, 0x80);
    EightZeros(7, 0x8000);
    EightZeros(15, 0x80_0000);
    EightZeros(23, 0x8000_0000);
  }

  /** Thirty-one bits cannot clear a register whose top bit is set. */
  lemma {:induction false} TopSurvives(r: bv32, bits: seq<bool>)
    requires r >= 0x8000_0000 && |bits| <= 31
    ensures Enter(r, bits) != 0
  {
    TopBit();
    FewerZeros(31, |bits|, 0x8000_0000);
    EnterFloor(r, bits, 0x8000_0000);
    DownNonzero(|bits|, 0x8000_0000);
  }

  predicate AllClear(bits: seq<bool>) {
    forall i :: 0 <= i < |bits| ==> !bits[i]
  }

  /** Zeros do not clear it either. */
  lemma {:induction false} ZerosSurvive(r: bv32, bits: seq<bool>)
    requires r != 0 && AllClear(bits)
    ensures Enter(r, bits) != 0
    decreases |bits|
  {
    if bits != [] {
      assert Shift(Xor(r, AsWord(bits[0]))) != 0;
      ZerosSurvive(Shift(Xor(r, AsWord(bits[0]))), bits[1..]);
    }
  }

  /** No two set bits are more than 31 apart. */
  predicate Burst(bits: seq<bool>) {
    forall i, j :: 0 <= i <= j < |bits| && bits[i] && bits[j] ==> j < i + 32
  }

  /** The first set bit sets the top of the register, and the burst ends before that has come down. */
  lemma {:induction false} BurstSurvives(bits: seq<bool>)
    requires Burst(bits) && !AllClear(bits)
    ensures Enter(0, bits) != 0
    decreases |bits|
  {
    var rest := bits[1..];
    if bits[0] {
      var n := if |rest| < 31 then |rest| else 31;
      assert Shift(Xor(0, 1)) >= 0x8000_0000;
      TopSurvives(Shift(Xor(0, 1)), rest[..n]);
      forall i | n <= i < |rest| ensures !rest[i] { assert rest[i] == bits[i + 1]; }
      ZerosSurvive(Enter(Shift(Xor(0, 1)), rest[..n]), rest[n..]);
      assert rest == rest[..n] + rest[n..];
      EnterConcat(Shift(Xor(0, 1)), rest[..n], rest[n..]);
    } else {
      assert Shift(Xor(0, 0)) == 0;
      assert !AllClear(rest) by {
        var i :| 0 <= i < |bits| && bits[i];
        assert rest[i - 1];
      }
      BurstSurvives(rest);
    }
  }

  /**
   Two different messages of the same length whose bits differ only within a window of 32, wherever it starts, have
   different CRCs, whatever the seed.
   */
  lemma {:induction false} DetectsBursts(seed: bv32, x: seq<bv8>, y: seq<bv8>, q: nat)
    requires |x| == |y| && x != y
    requires forall i :: 0 <= i < 8 * |x| && Bits(x)[i] != Bits(y)[i] ==> q <= i < q + 32
    ensures Crc(seed, x) != Crc(seed, y)
  {
    var e := XorBits(Bits(x), Bits(y));
    if AllClear(e) {
      assert Bits(x) == Bits(y) by {
        forall i | 0 <= i < 8 * |x| ensures Bits(x)[i] == Bits(y)[i] { assert !e[i]; }
      }
      BitsDiffer(x, y);
      assert false;
    }
    BurstSurvives(e);
    CrcEnters(seed, x);
    CrcEnters(seed, y);
    EnterXor(seed, seed, Bits(x), Bits(y));
    assert Xor(seed, seed) == 0;
  }
}
