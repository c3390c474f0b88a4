/** Byte strings as the kernel and the wire see them: big-endian words, bit
    order from the most significant bit down, and the masked comparison that
    prefix matching is made of. */
module Bytes {

  type byte = b: int | 0 <= b < 0x100
  type uint16 = v: int | 0 <= v < 0x1_0000

  /** Sets of byte-string keys, by name: the address sets of a ruleset. */
  type SetTable = map<string, set<seq<byte>>>

  // ---- bits of a byte ----

  function Pow2(n: nat): (p: nat)
    ensures p > 0
  {
    if n == 0 then 1 else 2 * Pow2(n - 1)
  }

  /** Bit `j` of a number, counted from the least significant one. */
  predicate LowBit(b: nat, j: nat)
  {
    if j == 0 then b % 2 == 1 else LowBit(b / 2, j - 1)
  }

  /** Bit `j` of a byte, counted from the most significant one. */
  predicate Bit(b: byte, j: nat)
    requires j < 8
  {
    LowBit(b, 7 - j)
  }

  /** A byte with only bit `j` set: 0x80 >> j. */
  function HighBit(j: nat): byte
    requires j < 8
  {
    assert Pow2(3) == 8 && Pow2(5) == 32 && Pow2(7) == 128;
    Pow2Grows(7 - j, 7);
    Pow2(7 - j)
  }

  lemma {:induction false} Pow2Grows(m: nat, n: nat)
    requires m <= n
    ensures Pow2(m) <= Pow2(n)
    decreases n
  {
    if m < n {
      Pow2Grows(m, n - 1);
    }
  }

  /** Combine two `n`-bit numbers bit by bit. */
  function Bitwise(op: (bool, bool) -> bool, x: nat, y: nat, n: nat): (r: nat)
    ensures r < Pow2(n)
  {
    if n == 0 then 0
    else 2 * Bitwise(op, x / 2, y / 2, n - 1) + (if op(x % 2 == 1, y % 2 == 1) then 1 else 0)
  }

  lemma {:induction false} BitwiseBit(op: (bool, bool) -> bool, x: nat, y: nat, n: nat, j: nat)
    requires j < n
    ensures LowBit(Bitwise(op, x, y, n), j) == op(LowBit(x, j), LowBit(y, j))
  {
    if j > 0 {
      BitwiseBit(op, x / 2, y / 2, n - 1, j - 1);
    }
  }

  function BitAnd(x: byte, y: byte): (r: byte)
    ensures forall j: nat | j < 8 :: Bit(r, j) == (Bit(x, j) && Bit(y, j))
  {
    var op := (a, b) => a && b;
    assert Pow2(4) == 16 && Pow2(8) == 0x100;
    assert forall j: nat | j < 8 :: Bit(Bitwise(op, x, y, 8), j) == (Bit(x, j) && Bit(y, j)) by {
      forall j: nat | j < 8 ensures Bit(Bitwise(op, x, y, 8), j) == (Bit(x, j) && Bit(y, j)) {
        BitwiseBit(op, x, y, 8, 7 - j);
      }
    }
    Bitwise(op, x, y, 8)
  }

  function BitOr(x: byte, y: byte): (r: byte)
    ensures forall j: nat | j < 8 :: Bit(r, j) == (Bit(x, j) || Bit(y, j))
  {
    var op := (a, b) => a || b;
    assert Pow2(4) == 16 && Pow2(8) == 0x100;
    assert forall j: nat | j < 8 :: Bit(Bitwise(op, x, y, 8), j) == (Bit(x, j) || Bit(y, j)) by {
      forall j: nat | j < 8 ensures Bit(Bitwise(op, x, y, 8), j) == (Bit(x, j) || Bit(y, j)) {
        BitwiseBit(op, x, y, 8, 7 - j);
      }
    }
    Bitwise(op, x, y, 8)
  }

  lemma {:induction false} BitOfPow2(i: nat, j: nat)
    ensures LowBit(Pow2(i), j) <==> i == j
  {
    if i == 0 {
      if j > 0 { BitOfZero(j - 1); }
    } else if j > 0 {
      BitOfPow2(i - 1, j - 1);
    }
  }

  lemma {:induction false} BitOfHighBit(i: nat, j: nat)
    requires i < 8 && j < 8
    ensures Bit(HighBit(i), j) <==> i == j
  {
    BitOfPow2(7 - i, 7 - j);
  }

  lemma {:induction false} BitOfZero(j: nat)
    ensures !LowBit(0, j)
  {
    if j > 0 { BitOfZero(j - 1); }
  }

  /** A number below 2^n is determined by its n low bits. */
  lemma {:induction false} LowBitsExtensional(x: nat, y: nat, n: nat)
    requires x < Pow2(n) && y < Pow2(n)
    requires forall j: nat | j < n :: LowBit(x, j) == LowBit(y, j)
    ensures x == y
  {
    if n > 0 {
      forall j: nat | j < n - 1 ensures LowBit(x / 2, j) == LowBit(y / 2, j) {
        assert LowBit(x, j + 1) == LowBit(y, j + 1);
      }
      LowBitsExtensional(x / 2, y / 2, n - 1);
      assert LowBit(x, 0) == LowBit(y, 0);
    }
  }

  lemma {:induction false} ByteExtensional(x: byte, y: byte)
    requires forall j: nat | j < 8 :: Bit(x, j) == Bit(y, j)
    ensures x == y
  {
    assert Pow2(4) == 16 && Pow2(8) == 0x100;
    forall j: nat | j < 8 ensures LowBit(x, j) == LowBit(y, j) {
      assert Bit(x, 7 - j) == Bit(y, 7 - j);
    }
    LowBitsExtensional(x, y, 8);
  }

  // ---- bits of a byte string ----

  predicate BitAt(b: seq<byte>, i: nat)
    requires i < 8 * |b|
  {
    Bit(b[i / 8], i % 8)
  }

  /** Two byte strings agree on their first `n` bits. */
  predicate SameBits(x: seq<byte>, y: seq<byte>, n: nat)
    requires |x| == |y| && n <= 8 * |x|
  {
    forall i: nat | i < n :: BitAt(x, i) == BitAt(y, i)
  }

  function And(x: seq<byte>, m: seq<byte>): (r: seq<byte>)
    requires |x| == |m|
    ensures |r| == |x|
  {
    seq(|x|, k requires 0 <= k < |x| => BitAnd(x[k], m[k]))
  }

  /** A mask of `bits` leading ones. */
  predicate IsMask(m: seq<byte>, bits: nat)
  {
    forall i: nat | i < 8 * |m| :: BitAt(m, i) == (i < bits)
  }

  /** A byte whose first `n` bits are set. */
  function MaskByte(n: nat): byte
    requires n <= 8
  {
    if n == 0 then 0 else BitOr(MaskByte(n - 1), HighBit(n - 1))
  }

  /** How many of the first `bits` bits fall into byte `k`. */
  function BitsIn(bits: nat, k: nat): (n: nat)
    ensures n <= 8
  {
    if bits <= 8 * k then 0 else if bits >= 8 * k + 8 then 8 else bits - 8 * k
  }

  /** The mask of a prefix length. */
  function Mask(bits: nat, size: nat): (m: seq<byte>)
    ensures |m| == size
  {
    seq(size, k requires 0 <= k => MaskByte(BitsIn(bits, k)))
  }

  lemma {:induction false} MaskByteBits(n: nat, j: nat)
    requires n <= 8 && j < 8
    ensures Bit(MaskByte(n), j) <==> j < n
  {
    if n == 0 {
      BitOfZero(7 - j);
    } else {
      MaskByteBits(n - 1, j);
      BitOfHighBit(n - 1, j);
    }
  }

  lemma {:induction false} MaskIsMask(bits: nat, size: nat)
    ensures IsMask(Mask(bits, size), bits)
  {
    forall i: nat | i < 8 * size ensures BitAt(Mask(bits, size), i) == (i < bits) {
      MaskByteBits(BitsIn(bits, i / 8), i % 8);
    }
  }

  lemma {:induction false} BitsExtensional(x: seq<byte>, y: seq<byte>)
    requires |x| == |y|
    requires forall i: nat | i < 8 * |x| :: BitAt(x, i) == BitAt(y, i)
    ensures x == y
  {
    forall k: nat | k < |x| ensures x[k] == y[k] {
      forall j: nat | j < 8 ensures Bit(x[k], j) == Bit(y[k], j) {
        var i := 8 * k + j;
        assert i / 8 == k && i % 8 == j;
        assert BitAt(x, i) == BitAt(y, i);
      }
      ByteExtensional(x[k], y[k]);
    }
  }

  lemma {:induction false} BitAtAnd(x: seq<byte>, m: seq<byte>, i: nat)
    requires |x| == |m| && i < 8 * |x|
    ensures BitAt(And(x, m), i) == (BitAt(x, i) && BitAt(m, i))
  {
    assert And(x, m)[i / 8] == BitAnd(x[i / 8], m[i / 8]);
  }

  /** Comparing under a mask is comparing that many leading bits. */
  lemma {:induction false} MaskedCompare(x: seq<byte>, y: seq<byte>, m: seq<byte>, bits: nat)
    requires |x| == |y| == |m| && bits <= 8 * |x| && IsMask(m, bits)
    ensures And(x, m) == And(y, m) <==> SameBits(x, y, bits)
  {
    forall i: nat | i < 8 * |x|
      ensures BitAt(And(x, m), i) == (BitAt(x, i) && i < bits)
      ensures BitAt(And(y, m), i) == (BitAt(y, i) && i < bits)
    {
      BitAtAnd(x, m, i);
      BitAtAnd(y, m, i);
    }
    if And(x, m) == And(y, m) {
      forall i: nat | i < bits ensures BitAt(x, i) == BitAt(y, i) {
        assert BitAt(And(x, m), i) == BitAt(And(y, m), i);
      }
    }
    if SameBits(x, y, bits) {
      BitsExtensional(And(x, m), And(y, m));
    }
  }

  /** Agreement on every bit is equality, which is why a full-length prefix
      needs no mask. */
  lemma {:induction false} FullCompare(x: seq<byte>, y: seq<byte>)
    requires |x| == |y|
    ensures x == y <==> SameBits(x, y, 8 * |x|)
  {
    if SameBits(x, y, 8 * |x|) {
      BitsExtensional(x, y);
    }
  }

  /** Masking twice is masking once. */
  lemma {:induction false} MaskIdempotent(x: seq<byte>, m: seq<byte>)
    requires |x| == |m|
    ensures And(And(x, m), m) == And(x, m)
  {
    forall i: nat | i < 8 * |x| ensures BitAt(And(And(x, m), m), i) == BitAt(And(x, m), i) {
      BitAtAnd(And(x, m), m, i);
      BitAtAnd(x, m, i);
    }
    BitsExtensional(And(And(x, m), m), And(x, m));
  }

  // ---- sixteen-bit words, big-endian ----

  function BE16(v: uint16): (b: seq<byte>)
    ensures |b| == 2 && Word(b) == v
  {
    [v / 256, v % 256]
  }

  function Word(b: seq<byte>): uint16
    requires |b| == 2
  {
    var hi: int, lo: int := b[0], b[1];
    hi * 256 + lo
  }

  /** memcmp(x, y) < 0 on strings of one length. */
  predicate MemLess(x: seq<byte>, y: seq<byte>)
    requires |x| == |y|
  {
    x != [] && (x[0] < y[0] || (x[0] == y[0] && MemLess(x[1..], y[1..])))
  }

  /** Comparing two big-endian words byte by byte is comparing the numbers. */
  lemma {:induction false} WordOrder(x: seq<byte>, y: seq<byte>)
    requires |x| == 2 && |y| == 2
    ensures MemLess(x, y) <==> Word(x) < Word(y)
    ensures x == y <==> Word(x) == Word(y)
  {
    assert MemLess(x[1..], y[1..]) <==> x[1] < y[1];
  }
}
