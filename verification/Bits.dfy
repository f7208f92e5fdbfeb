/** Bytes, the shift operators on non-negative numbers, and the bit stream a
    byte buffer stands for (section 3.1.1 of RFC 1951). */
module Bits {

  type byte = x: int | 0 <= x < 256

  type bit = x: int | 0 <= x < 2

  /** The bytes of several chunks. */
  function Flatten(chunks: seq<seq<byte>>): seq<byte> {
    if chunks == [] then [] else chunks[0] + Flatten(chunks[1..])
  }

  lemma {:induction false} FlattenConcat(a: seq<seq<byte>>, b: seq<seq<byte>>)
    ensures Flatten(a + b) == Flatten(a) + Flatten(b)
  {
    if a == [] {
      assert a + b == b;
    } else {
      assert (a + b)[1..] == a[1..] + b;
      FlattenConcat(a[1..], b);
    }
  }

  lemma FlattenAppend(chunks: seq<seq<byte>>, chunk: seq<byte>)
    ensures Flatten(chunks + [chunk]) == Flatten(chunks) + chunk
  {
    FlattenConcat(chunks, [chunk]);
    assert Flatten([chunk]) == chunk + Flatten([]);
  }

  /** `x << 1`. */
  function Twice(x: nat): nat {
    x + x
  }

  /** `x << n` without the 32-bit cut-off. */
  function Shl(x: nat, n: nat): (r: nat)
    ensures x > 0 ==> r > 0
  {
    if n == 0 then x else Twice(Shl(x, n - 1))
  }

  /** `x >> n`. */
  function Shr(x: nat, n: nat): nat {
    if n == 0 then x else Shr(x / 2, n - 1)
  }

  /** `x & ((1 << n) - 1)`. */
  function Low(x: nat, n: nat): nat {
    if n == 0 then 0 else x % 2 + Twice(Low(x / 2, n - 1))
  }

  /** The `count` bits from `at` as a number, the first bit lowest. */
  function BitsAt(bits: seq<bit>, at: nat, count: nat): (v: nat)
    requires at + count <= |bits|
    ensures v < Shl(1, count)
    decreases |bits|, count
  {
    if count == 0 then 0 else bits[at] + Twice(BitsAt(bits, at + 1, count - 1))
  }

  /** The `count` bits from `at` as a number, the first bit highest: how a
      Huffman code is packed. */
  function CodeAt(bits: seq<bit>, at: nat, count: nat): (v: nat)
    requires at + count <= |bits|
    ensures v < Shl(1, count)
  {
    if count == 0 then 0 else Twice(CodeAt(bits, at, count - 1)) + bits[at + count - 1]
  }

  lemma {:induction false} ShrHalves(x: nat, n: nat)
    ensures Shr(x, n + 1) == Shr(x, n) / 2
  {
    if n == 0 {
      assert Shr(x, 1) == Shr(x / 2, 0);
    } else {
      ShrHalves(x / 2, n - 1);
    }
  }

  lemma {:induction false} ShlAdd(x: nat, m: nat, n: nat)
    ensures Shl(x, m + n) == Shl(Shl(x, m), n)
  {
    if n == 0 {
    } else {
      ShlAdd(x, m, n - 1);
      assert m + n - 1 == m + (n - 1);
    }
  }

  lemma {:induction false} ShlSum(x: nat, y: nat, n: nat)
    ensures Shl(x + y, n) == Shl(x, n) + Shl(y, n)
  {
    if n > 0 {
      ShlSum(x, y, n - 1);
    }
  }

  lemma {:induction false} ShlOrder(x: nat, y: nat, n: nat)
    ensures x <= y <==> Shl(x, n) <= Shl(y, n)
  {
    if n > 0 {
      ShlOrder(x, y, n - 1);
    }
  }

  lemma {:induction false} ShlZero(n: nat)
    ensures Shl(0, n) == 0
  {
    if n > 0 {
      ShlZero(n - 1);
    }
  }

  /** A field read in two parts: the later part is shifted above the first. */
  lemma {:induction false} BitsAtSplit(bits: seq<bit>, at: nat, m: nat, n: nat)
    requires at + m + n <= |bits|
    ensures BitsAt(bits, at, m + n) == BitsAt(bits, at, m) + Shl(BitsAt(bits, at + m, n), m)
    decreases m
  {
    if m == 0 {
    } else {
      BitsAtSplit(bits, at + 1, m - 1, n);
      assert at + 1 + (m - 1) == at + m && m + n - 1 == (m - 1) + n;
    }
  }

  // ---- Bytes as bits -------------------------------------------------------

  /** Bit `at` of the stream: bytes in order, each from its low bit up. */
  function Bit(input: seq<byte>, at: nat): bit
    requires at < 8 * |input|
  {
    Shr(input[at / 8], at % 8) % 2
  }

  function Unpack(input: seq<byte>): (bits: seq<bit>)
    ensures |bits| == 8 * |input|
    ensures forall i :: 0 <= i < |bits| ==> bits[i] == Bit(input, i)
  {
    seq(8 * |input|, i requires 0 <= i < 8 * |input| => Bit(input, i))
  }

  lemma UnpackDrop(input: seq<byte>, k: nat)
    requires k <= |input|
    ensures Unpack(input[k..]) == Unpack(input)[8 * k..]
  {
    forall i | 0 <= i < 8 * |input| - 8 * k
      ensures Unpack(input[k..])[i] == Unpack(input)[8 * k..][i]
    {
      assert (8 * k + i) / 8 == k + i / 8 && (8 * k + i) % 8 == i % 8;
    }
  }

  lemma UnpackConcat(a: seq<byte>, b: seq<byte>)
    ensures Unpack(a + b) == Unpack(a) + Unpack(b)
  {
    forall i | 0 <= i < 8 * |a| + 8 * |b|
      ensures Unpack(a + b)[i] == (Unpack(a) + Unpack(b))[i]
    {
      if i >= 8 * |a| {
        assert i / 8 == |a| + (i - 8 * |a|) / 8 && i % 8 == (i - 8 * |a|) % 8;
      }
    }
  }

  /** Shifting a byte right and masking it reads a bit field that does not
      leave the byte. */
  lemma {:induction false} FieldOfByte(input: seq<byte>, at: nat, take: nat)
    requires 0 < take && at % 8 + take <= 8
    requires at + take <= 8 * |input|
    ensures Low(Shr(input[at / 8], at % 8), take) == BitsAt(Unpack(input), at, take)
    decreases take
  {
    if take == 1 {
      assert Low(Shr(input[at / 8], at % 8), 1) == Bit(input, at);
    } else {
      FieldOfByte(input, at + 1, take - 1);
      assert (at + 1) / 8 == at / 8 && (at + 1) % 8 == at % 8 + 1;
      ShrHalves(input[at / 8], at % 8);
    }
  }

  lemma {:induction false} LowOfSmall(x: nat, n: nat)
    requires x < Shl(1, n)
    ensures Low(x, n) == x
  {
    if n > 0 {
      LowOfSmall(x / 2, n - 1);
    }
  }

  /** The bytes whose bits run from `at`. */
  function BytesAt(bits: seq<bit>, at: nat, count: nat): (bytes: seq<byte>)
    requires at + 8 * count <= |bits|
    ensures |bytes| == count
  {
    if count == 0 then []
    else
      assert Shl(1, 8) == 256 by { ShlOf8(); }
      BytesAt(bits, at, count - 1) + [BitsAt(bits, at + 8 * count - 8, 8)]
  }

  lemma ShlOf8()
    ensures Shl(1, 8) == 256
  {
    calc {
      Shl(1, 8);
      4 * Shl(1, 6);
      16 * Shl(1, 4);
      64 * Shl(1, 2);
      256;
    }
  }

  /** Eight bits from a byte boundary are that byte. */
  lemma ByteOfInput(input: seq<byte>, i: nat)
    requires i < |input|
    ensures BitsAt(Unpack(input), 8 * i, 8) == input[i]
  {
    var at := 8 * i;
    assert at / 8 == i && at % 8 == 0;
    FieldOfByte(input, at, 8);
    ShlOf8();
    LowOfSmall(input[i], 8);
  }

  lemma {:induction false} BytesOfInput(input: seq<byte>, from: nat, count: nat)
    requires from + count <= |input|
    ensures BytesAt(Unpack(input), 8 * from, count) == input[from..from + count]
  {
    hide BitsAt, Bit, Shl;
    if count > 0 {
      var last := from + count - 1;
      assert 8 * from + 8 * count - 8 == 8 * last;
      var byte := BitsAt(Unpack(input), 8 * last, 8);
      assert byte == input[last] by { ByteOfInput(input, last); }
      BytesOfInput(input, from, count - 1);
      SliceGrows(input, from, last);
    }
  }

  lemma SliceGrows(input: seq<byte>, from: nat, last: nat)
    requires from <= last < |input|
    ensures input[from..last + 1] == input[from..last] + [input[last]]
  {
  }

  // ---- The same bits seen through another buffer -------------------------

  /** `later` is what remains of `bits` after the first `k` were dropped,
      followed by whatever arrived since. */
  predicate Window(bits: seq<bit>, k: nat, later: seq<bit>) {
    k <= |bits| && bits[k..] <= later
  }

  lemma {:induction false} BitsAtMoves(bits: seq<bit>, at: nat, count: nat, k: nat, later: seq<bit>)
    requires Window(bits, k, later)
    requires k <= at && at + count <= |bits|
    ensures BitsAt(later, at - k, count) == BitsAt(bits, at, count)
    decreases count
  {
    if count > 0 {
      assert later[at - k] == bits[k..][at - k] == bits[at];
      BitsAtMoves(bits, at + 1, count - 1, k, later);
    }
  }

  lemma {:induction false} BytesAtMoves(bits: seq<bit>, at: nat, count: nat, k: nat, later: seq<bit>)
    requires Window(bits, k, later)
    requires k <= at && at + 8 * count <= |bits|
    ensures BytesAt(later, at - k, count) == BytesAt(bits, at, count)
  {
    if count > 0 {
      BytesAtMoves(bits, at, count - 1, k, later);
      BitsAtMoves(bits, at + 8 * count - 8, 8, k, later);
    }
  }

  lemma {:induction false} BytesAtSplit(bits: seq<bit>, at: nat, m: nat, n: nat)
    requires at + 8 * m + 8 * n <= |bits|
    ensures BytesAt(bits, at, m + n) == BytesAt(bits, at, m) + BytesAt(bits, at + 8 * m, n)
  {
    if n > 0 {
      BytesAtSplit(bits, at, m, n - 1);
      assert at + 8 * m + 8 * n - 8 == at + 8 * m + 8 * n - 8;
    }
  }

  function Least(a: nat, b: nat): nat {
    if a < b then a else b
  }

  lemma SlicesJoin(s: seq<byte>, from: nat, at: nat, next: nat)
    requires from <= at <= next <= |s|
    ensures s[from..next] == s[from..at] + s[at..next]
  {
  }

  lemma Regroup(a: seq<byte>, b: seq<byte>, c: seq<byte>)
    ensures a + (b + c) == a + b + c
  {
  }
}
