/** Git's delta encoding, applied and built: two sizes, then copies out of the base and
    inserted bytes. */
module Delta {
  import opened Bits

  datatype Applied<+T> = Ok(value: T) | Corrupt | TooLarge

  const MAX_OBJECT_BYTES: nat := 0x200_0000
  const MAX_SAFE_INTEGER: nat := 0x1F_FFFF_FFFF_FFFF
  /** From this power of two on a double is infinite. */
  const INFINITE_SHIFT: nat := 1024
  const LARGEST_COPY: nat := 0xFF_FFFF
  const LARGEST_INSERT: nat := 0x7F
  const IMPLIED_COPY: nat := 0x1_0000

  // ---- Reading ----------------------------------------------------------------------------

  /** Little-endian base-128 groups; the value has to stay a safe integer. */
  function VarintFrom(delta: seq<byte>, at: nat, value: nat, shift: nat): (r: Applied<(nat, nat)>)
    ensures r.Ok? ==> at < r.value.1 <= |delta|
    decreases |delta| - at
  {
    if at >= |delta| then Corrupt
    else
      var sum := value + Shl(delta[at] % 128, shift);
      if shift >= INFINITE_SHIFT || sum > MAX_SAFE_INTEGER then Corrupt
      else if delta[at] < 128 then Ok((sum, at + 1))
      else VarintFrom(delta, at + 1, sum, shift + 7)
  }

  /** Whether bit `i` of an opcode is set. */
  predicate Flag(opcode: byte, i: nat) {
    Shr(opcode, i) % 2 == 1
  }

  /** The bytes of a number whose flags are set, the others being zero. */
  function ReadSparse(delta: seq<byte>, at: nat, opcode: byte, flag: nat, count: nat): (r: Applied<(nat, nat)>)
    ensures r.Ok? ==> at <= r.value.1 && (at <= |delta| ==> r.value.1 <= |delta|)
    decreases |delta|, count
  {
    if count == 0 then Ok((0, at))
    else if !Flag(opcode, flag) then
      var rest := ReadSparse(delta, at, opcode, flag + 1, count - 1);
      if rest.Ok? then Ok((256 * rest.value.0, rest.value.1)) else Corrupt
    else if at >= |delta| then Corrupt
    else
      var rest := ReadSparse(delta, at + 1, opcode, flag + 1, count - 1);
      if rest.Ok? then Ok((delta[at] + 256 * rest.value.0, rest.value.1)) else Corrupt
  }

  /** A copy instruction after its opcode: offset, size, and where it ends. */
  function ReadCopy(delta: seq<byte>, at: nat, opcode: byte): (r: Applied<(nat, nat, nat)>)
    ensures r.Ok? ==> at <= r.value.2 && r.value.1 > 0
  {
    var offset := ReadSparse(delta, at, opcode, 0, 4);
    if !offset.Ok? then Corrupt
    else
      var size := ReadSparse(delta, offset.value.1, opcode, 4, 3);
      if !size.Ok? then Corrupt
      else Ok((offset.value.0, if size.value.0 == 0 then IMPLIED_COPY else size.value.0, size.value.1))
  }

  /** Runs the instructions from `at`, after `written` was produced. */
  function Play(base: seq<byte>, delta: seq<byte>, at: nat, written: seq<byte>, size: nat): Applied<seq<byte>>
    decreases |delta| - at
  {
    if at >= |delta| then (if |written| == size then Ok(written) else Corrupt)
    else
      var opcode := delta[at];
      if opcode >= 128 then
        var copy := ReadCopy(delta, at + 1, opcode);
        if !copy.Ok? then Corrupt
        else
          var (offset, count, next) := copy.value;
          if offset + count > |base| || |written| + count > size then Corrupt
          else Play(base, delta, next, written + base[offset..offset + count], size)
      else if opcode == 0 then Corrupt
      else if at + 1 + opcode > |delta| || |written| + opcode > size then Corrupt
      else Play(base, delta, at + 1 + opcode, written + delta[at + 1..at + 1 + opcode], size)
  }

  function Apply(base: seq<byte>, delta: seq<byte>): Applied<seq<byte>> {
    var baseSize := VarintFrom(delta, 0, 0, 0);
    if !baseSize.Ok? then Corrupt
    else
      var resultSize := VarintFrom(delta, baseSize.value.1, 0, 0);
      if !resultSize.Ok? || baseSize.value.0 != |base| then Corrupt
      else if resultSize.value.0 > MAX_OBJECT_BYTES then TooLarge
      else Play(base, delta, resultSize.value.1, [], resultSize.value.0)
  }

  lemma {:induction false} PlayedIsWhole(base: seq<byte>, delta: seq<byte>, at: nat, written: seq<byte>, size: nat)
    ensures Play(base, delta, at, written, size).Ok? ==> |Play(base, delta, at, written, size).value| == size
    decreases |delta| - at
  {
    hide ReadCopy;
    if at < |delta| {
      var opcode := delta[at];
      if opcode >= 128 {
        var copy := ReadCopy(delta, at + 1, opcode);
        if copy.Ok? && copy.value.0 + copy.value.1 <= |base| && |written| + copy.value.1 <= size {
          var (offset, count, next) := copy.value;
          PlayedIsWhole(base, delta, next, written + base[offset..offset + count], size);
        }
      } else if opcode > 0 && at + 1 + opcode <= |delta| && |written| + opcode <= size {
        PlayedIsWhole(base, delta, at + 1 + opcode, written + delta[at + 1..at + 1 + opcode], size);
      }
    }
  }

  /** A result is never larger than an object may be. */
  lemma AppliedIsBounded(base: seq<byte>, delta: seq<byte>)
    ensures Apply(base, delta).Ok? ==> |Apply(base, delta).value| <= MAX_OBJECT_BYTES
  {
    hide VarintFrom, Play;
    if Apply(base, delta).Ok? {
      var baseSize := VarintFrom(delta, 0, 0, 0).value;
      var resultSize := VarintFrom(delta, baseSize.1, 0, 0).value;
      PlayedIsWhole(base, delta, resultSize.1, [], resultSize.0);
    }
  }

  // ---- Building ------------------------------------------------------------------------------

  function Varint(value: nat): (bytes: seq<byte>)
    ensures |bytes| > 0
  {
    if value < 128 then [value] else [128 + value % 128] + Varint(value / 128)
  }

  /** The non-zero bytes of a number, least significant first. */
  function Sparse(value: nat, count: nat): (bytes: seq<byte>)
    ensures |bytes| <= count
    decreases value + count
  {
    if count == 0 then []
    else (if value % 256 == 0 then [] else [value % 256]) + Sparse(value / 256, count - 1)
  }

  /** One bit per byte of a number: whether it is not zero. */
  function Flags(value: nat, count: nat): (f: nat)
    ensures f < Shl(1, count)
    decreases value + count
  {
    if count == 0 then 0
    else
      var rest := Flags(value / 256, count - 1);
      assert Shl(1, count) == Twice(Shl(1, count - 1));
      (if value % 256 == 0 then 0 else 1) + Twice(rest)
  }

  function Copy(offset: nat, size: nat): (bytes: seq<byte>)
    ensures 0 < |bytes| <= 8
  {
    CopyFlags(offset, size);
    [128 + Flags(offset, 4) + 16 * Flags(size, 3)] + (Sparse(offset, 4) + Sparse(size, 3))
  }

  lemma CopyFlags(offset: nat, size: nat)
    ensures Flags(offset, 4) < 16 && Flags(size, 3) < 8
  {
    assert Shl(1, 4) == 16 && Shl(1, 3) == 8 by { ShlSmallPowers(); }
  }

  lemma ShlSmallPowers()
    ensures Shl(1, 3) == 8 && Shl(1, 4) == 16
  {
    assert Shl(1, 1) == 2 && Shl(1, 2) == 4;
  }

  /** A span of the base in copies no larger than one instruction can name. */
  function Copies(offset: nat, length: nat): seq<byte>
    decreases length
  {
    if length == 0 then []
    else
      var size := if length < LARGEST_COPY then length else LARGEST_COPY;
      Copy(offset, size) + Copies(offset + size, length - size)
  }

  function Inserts(bytes: seq<byte>): seq<byte>
    decreases |bytes|
  {
    if bytes == [] then []
    else
      var n := if |bytes| < LARGEST_INSERT then |bytes| else LARGEST_INSERT;
      [n] + (bytes[..n] + Inserts(bytes[n..]))
  }

  function CommonPrefix(base: seq<byte>, target: seq<byte>, from: nat): (n: nat)
    requires from <= |base| && from <= |target|
    ensures from <= n <= |base| && n <= |target| && base[from..n] == target[from..n]
    decreases |base| - from
  {
    if from < |base| && from < |target| && base[from] == target[from] then CommonPrefix(base, target, from + 1)
      else from
  }

  function CommonSuffix(base: seq<byte>, target: seq<byte>, prefix: nat, from: nat): (n: nat)
    requires prefix + from <= |base| && prefix + from <= |target|
    requires base[|base| - from..] == target[|target| - from..]
    ensures from <= n && prefix + n <= |base| && prefix + n <= |target|
    ensures base[|base| - n..] == target[|target| - n..]
    decreases |base| - from
  {
    if from < |base| - prefix && from < |target| - prefix && base[|base| - from - 1] == target[|target| - from - 1] then
      assert base[|base| - from - 1..] == [base[|base| - from - 1]] + base[|base| - from..];
      assert target[|target| - from - 1..] == [target[|target| - from - 1]] + target[|target| - from..];
      CommonSuffix(base, target, prefix, from + 1)
    else from
  }

  function Build(base: seq<byte>, target: seq<byte>): seq<byte> {
    var prefix := CommonPrefix(base, target, 0);
    var suffix := CommonSuffix(base, target, prefix, 0);
    Varint(|base|) + (Varint(|target|)
    + (Copies(0, prefix) + (Inserts(target[prefix..|target| - suffix]) + Copies(|base| - suffix, suffix))))
  }

  // ---- What is built is read back ---------------------------------------------------------------

  predicate At(delta: seq<byte>, at: nat, word: seq<byte>) {
    at + |word| <= |delta| && delta[at..at + |word|] == word
  }

  lemma AtParts(delta: seq<byte>, at: nat, first: seq<byte>, rest: seq<byte>)
    requires At(delta, at, first + rest)
    ensures At(delta, at, first) && At(delta, at + |first|, rest)
  {
    var word := first + rest;
    assert delta[at..at + |first|] == word[..|first|];
    assert delta[at + |first|..at + |word|] == word[|first|..];
  }

  lemma AtFirst(delta: seq<byte>, at: nat, b: byte, rest: seq<byte>)
    requires At(delta, at, [b] + rest)
    ensures at < |delta| && delta[at] == b && At(delta, at + 1, rest)
  {
    AtParts(delta, at, [b], rest);
    assert delta[at] == delta[at..at + 1][0];
  }

  lemma ShlIs128(x: nat)
    ensures Shl(x, 7) == 128 * x
  {
    assert Shl(x, 1) == x + x && Shl(x, 2) == 4 * x && Shl(x, 3) == 8 * x && Shl(x, 4) == 16 * x;
    assert Shl(x, 5) == 32 * x && Shl(x, 6) == 64 * x;
  }

  lemma SafeShift(v: nat, shift: nat)
    requires v > 0 && Shl(v, shift) <= MAX_SAFE_INTEGER
    ensures shift < 53
  {
    ShlOrder(1, v, shift);
    if shift >= 53 {
      ShlAdd(1, 53, shift - 53);
      ShlLarge(shift - 53);
    }
  }

  lemma {:induction false} ShlGrows(x: nat, n: nat)
    ensures Shl(x, n) >= x
  {
    if n > 0 {
      ShlGrows(x, n - 1);
    }
  }

  lemma ShlSeven(n: nat)
    ensures Shl(1, n + 7) == 128 * Shl(1, n)
  {
    ShlAdd(1, n, 7);
    ShlIs128(Shl(1, n));
  }

  lemma ShlOf53()
    ensures Shl(1, 53) == 0x20_0000_0000_0000
  {
    hide Shl;
    ShlSmallPowers();
    ShlSeven(4);
    ShlSeven(11);
    ShlSeven(18);
    ShlSeven(25);
    ShlSeven(32);
    ShlSeven(39);
    ShlSeven(46);
  }

  lemma ShlLarge(n: nat)
    ensures Shl(Shl(1, 53), n) > MAX_SAFE_INTEGER
  {
    hide Shl;
    ShlOf53();
    ShlGrows(Shl(1, 53), n);
  }

  lemma {:induction false} VarintIsRead(v: nat, delta: seq<byte>, at: nat, value: nat, shift: nat)
    requires At(delta, at, Varint(v)) && (v > 0 || shift == 0)
    requires value + Shl(v, shift) <= MAX_SAFE_INTEGER
    ensures VarintFrom(delta, at, value, shift) == Ok((value + Shl(v, shift), at + |Varint(v)|))
    decreases v
  {
    hide Shl;
    if v > 0 {
      SafeShift(v, shift);
    }
    if v < 128 {
      AtFirst(delta, at, v, []);
    } else {
      AtFirst(delta, at, 128 + v % 128, Varint(v / 128));
      ShlAdd(v / 128, 7, shift);
      ShlIs128(v / 128);
      ShlSum(128 * (v / 128), v % 128, shift);
      assert shift + 7 == 7 + shift;
      VarintIsRead(v / 128, delta, at + 1, value + Shl(v % 128, shift), shift + 7);
    }
  }

  function Pow256(n: nat): nat {
    if n == 0 then 1 else 256 * Pow256(n - 1)
  }

  lemma {:induction false} SparseIsRead(v: nat, count: nat, delta: seq<byte>, at: nat, opcode: byte, flag: nat)
    requires v < Pow256(count) && At(delta, at, Sparse(v, count))
    requires Low(Shr(opcode, flag), count) == Flags(v, count)
    ensures ReadSparse(delta, at, opcode, flag, count) == Ok((v, at + |Sparse(v, count)|))
    decreases count
  {
    if count > 0 {
      ShrHalves(opcode, flag);
      var x := Shr(opcode, flag);
      assert Low(x, count) == x % 2 + Twice(Low(x / 2, count - 1));
      assert Flags(v, count) == (if v % 256 == 0 then 0 else 1) + Twice(Flags(v / 256, count - 1));
      if v % 256 == 0 {
        assert Sparse(v, count) == Sparse(v / 256, count - 1);
        SparseIsRead(v / 256, count - 1, delta, at, opcode, flag + 1);
      } else {
        AtFirst(delta, at, v % 256, Sparse(v / 256, count - 1));
        SparseIsRead(v / 256, count - 1, delta, at + 1, opcode, flag + 1);
      }
    }
  }

  lemma {:induction false} LowAbove(x: nat, k: nat, n: nat)
    ensures Low(x + Shl(k, n), n) == Low(x, n)
  {
    if n > 0 {
      var y := Shl(k, n - 1);
      assert (x + Twice(y)) % 2 == x % 2 && (x + Twice(y)) / 2 == x / 2 + y;
      LowAbove(x / 2, k, n - 1);
    }
  }

  lemma {:induction false} ShrAbove(x: nat, k: nat, n: nat)
    requires x < Shl(1, n)
    ensures Shr(x + Shl(k, n), n) == k
  {
    if n > 0 {
      var y := Shl(k, n - 1);
      assert (x + Twice(y)) / 2 == x / 2 + y;
      ShrAbove(x / 2, k, n - 1);
    }
  }

  lemma OpcodeParts(low: nat, high: nat)
    requires low < 16 && high < 8
    ensures var opcode := 128 + low + 16 * high;
            Low(Shr(opcode, 0), 4) == low && Low(Shr(opcode, 4), 3) == high
  {
    hide Shl, Low, Shr;
    var opcode := 128 + low + 16 * high;
    ShlSmallPowers();
    ShlFour(8 + high);
    NoShift(opcode);
    assert opcode == low + Shl(8 + high, 4);
    LowAbove(low, 8 + high, 4);
    LowOfSmall(low, 4);
    ShrAbove(low, 8 + high, 4);
    LowAbove(high, 1, 3);
    LowOfSmall(high, 3);
  }

  lemma ShlFour(x: nat)
    ensures Shl(x, 4) == 16 * x
  {
    assert Shl(x, 1) == x + x && Shl(x, 2) == 4 * x && Shl(x, 3) == 8 * x;
  }

  lemma NoShift(x: nat)
    ensures Shr(x, 0) == x
  {
  }

  lemma CopyIsRead(delta: seq<byte>, at: nat, offset: nat, size: nat)
    requires At(delta, at, Copy(offset, size)) && offset < Pow256(4) && 0 < size < Pow256(3)
    ensures at < |delta| && delta[at] >= 128
    ensures ReadCopy(delta, at + 1, delta[at]) == Ok((offset, size, at + |Copy(offset, size)|))
  {
    hide Flags, Sparse, Low, Shr, ReadSparse, Pow256;
    CopyFlags(offset, size);
    var opcode: byte := 128 + Flags(offset, 4) + 16 * Flags(size, 3);
    AtFirst(delta, at, opcode, Sparse(offset, 4) + Sparse(size, 3));
    AtParts(delta, at + 1, Sparse(offset, 4), Sparse(size, 3));
    OpcodeParts(Flags(offset, 4), Flags(size, 3));
    SparseIsRead(offset, 4, delta, at + 1, opcode, 0);
    SparseIsRead(size, 3, delta, at + 1 + |Sparse(offset, 4)|, opcode, 4);
  }

  lemma PowersOf256()
    ensures Pow256(3) == 0x100_0000 && Pow256(4) == 0x1_0000_0000
  {
    assert Pow256(1) == 256 && Pow256(2) == 65536;
  }

  lemma CopyPlays(base: seq<byte>, delta: seq<byte>, at: nat, written: seq<byte>, size: nat, offset: nat, n: nat)
    requires At(delta, at, Copy(offset, n)) && offset + n <= |base| <= 0x1_0000_0000 && 0 < n <= LARGEST_COPY
    requires |written| + n <= size
    ensures Play(base, delta, at, written, size)
         == Play(base, delta, at + |Copy(offset, n)|, written + base[offset..offset + n], size)
  {
    hide Copy, ReadCopy, At;
    PowersOf256();
    CopyIsRead(delta, at, offset, n);
  }

  lemma {:induction false} CopiesPlay(
      base: seq<byte>, delta: seq<byte>, at: nat, written: seq<byte>, size: nat, offset: nat, length: nat)
    requires At(delta, at, Copies(offset, length)) && offset + length <= |base| <= 0x1_0000_0000
    requires |written| + length <= size
    ensures Play(base, delta, at, written, size)
         == Play(base, delta, at + |Copies(offset, length)|, written + base[offset..offset + length], size)
    decreases length
  {
    hide Copy, Play, At;
    if length == 0 {
      assert written + base[offset..offset] == written;
    } else {
      var n := if length < LARGEST_COPY then length else LARGEST_COPY;
      AtParts(delta, at, Copy(offset, n), Copies(offset + n, length - n));
      CopyPlays(base, delta, at, written, size, offset, n);
      var more := written + base[offset..offset + n];
      CopiesPlay(base, delta, at + |Copy(offset, n)|, more, size, offset + n, length - n);
      assert more + base[offset + n..offset + length] == written + base[offset..offset + length];
    }
  }

  lemma InsertPlays(
      base: seq<byte>, delta: seq<byte>, at: nat, written: seq<byte>, size: nat, first: seq<byte>, rest: seq<byte>)
    requires 0 < |first| <= LARGEST_INSERT && |written| + |first| <= size
    requires At(delta, at, [|first|] + (first + rest))
    ensures At(delta, at + 1 + |first|, rest)
    ensures Play(base, delta, at, written, size) == Play(base, delta, at + 1 + |first|, written + first, size)
  {
    hide ReadCopy;
    AtFirst(delta, at, |first|, first + rest);
    AtParts(delta, at + 1, first, rest);
  }

  lemma {:induction false} InsertsPlay(
      base: seq<byte>, delta: seq<byte>, at: nat, written: seq<byte>, size: nat, bytes: seq<byte>)
    requires At(delta, at, Inserts(bytes)) && |written| + |bytes| <= size
    ensures Play(base, delta, at, written, size) == Play(base, delta, at + |Inserts(bytes)|, written + bytes, size)
    decreases |bytes|
  {
    hide Play, ReadCopy;
    if bytes == [] {
      assert written + bytes == written;
    } else {
      var n := if |bytes| < LARGEST_INSERT then |bytes| else LARGEST_INSERT;
      var first, rest := bytes[..n], bytes[n..];
      InsertPlays(base, delta, at, written, size, first, Inserts(rest));
      InsertsPlay(base, delta, at + 1 + n, written + first, size, rest);
      assert written + first + rest == written + bytes;
    }
  }

  /** The instructions of a built delta produce its target. */
  lemma BodyPlays(base: seq<byte>, target: seq<byte>, prefix: nat, suffix: nat, delta: seq<byte>, at: nat)
    requires |base| <= 0x1_0000_0000 && prefix + suffix <= |base| && prefix + suffix <= |target|
    requires base[..prefix] == target[..prefix] && base[|base| - suffix..] == target[|target| - suffix..]
    requires var middle := target[prefix..|target| - suffix];
             var body := Copies(0, prefix) + (Inserts(middle) + Copies(|base| - suffix, suffix));
             At(delta, at, body) && at + |body| == |delta|
    ensures Play(base, delta, at, [], |target|) == Ok(target)
  {
    hide Copies, Inserts, Play, At;
    var middle := target[prefix..|target| - suffix];
    var last := Copies(|base| - suffix, suffix);
    AtParts(delta, at, Copies(0, prefix), Inserts(middle) + last);
    var b := at + |Copies(0, prefix)|;
    AtParts(delta, b, Inserts(middle), last);
    CopiesPlay(base, delta, at, [], |target|, 0, prefix);
    InsertsPlay(base, delta, b, [] + base[..prefix], |target|, middle);
    var c := b + |Inserts(middle)|;
    CopiesPlay(base, delta, c, [] + base[..prefix] + middle, |target|, |base| - suffix, suffix);
    assert base[|base| - suffix..|base| - suffix + suffix] == base[|base| - suffix..];
    assert base[0..0 + prefix] == base[..prefix];
    assert [] + base[..prefix] + middle + base[|base| - suffix..] == target;
    PlayEnds(base, delta, |delta|, target);
  }

  lemma PlayEnds(base: seq<byte>, delta: seq<byte>, at: nat, written: seq<byte>)
    requires at >= |delta|
    ensures Play(base, delta, at, written, |written|) == Ok(written)
  {
  }

  lemma NoShiftLeft(x: nat)
    ensures Shl(x, 0) == x
  {
  }

  /** A built delta yields its target again, for every base and target that an object may
      be; a larger target is refused. */
  lemma ApplyUndoesBuild(base: seq<byte>, target: seq<byte>)
    requires |base| <= 0x1_0000_0000 && |target| <= MAX_SAFE_INTEGER
    ensures Apply(base, Build(base, target)) == if |target| <= MAX_OBJECT_BYTES then Ok(target) else TooLarge
  {
    hide Varint, Copies, Inserts, VarintFrom, CommonPrefix, CommonSuffix, Play, At, Shl;
    var delta := Build(base, target);
    var prefix := CommonPrefix(base, target, 0);
    var suffix := CommonSuffix(base, target, prefix, 0);
    var middle := target[prefix..|target| - suffix];
    var body := Copies(0, prefix) + (Inserts(middle) + Copies(|base| - suffix, suffix));
    AtWhole(delta);
    NoShiftLeft(|base|);
    NoShiftLeft(|target|);
    AtParts(delta, 0, Varint(|base|), Varint(|target|) + body);
    VarintIsRead(|base|, delta, 0, 0, 0);
    var a := |Varint(|base|)|;
    AtParts(delta, a, Varint(|target|), body);
    VarintIsRead(|target|, delta, a, 0, 0);
    BodyPlays(base, target, prefix, suffix, delta, a + |Varint(|target|)|);
  }

  lemma AtWhole(delta: seq<byte>)
    ensures At(delta, 0, delta)
  {
  }

  // ---- How long it can be --------------------------------------------------------------------

  const REPACK_DELTA_MEMORY_BUDGET_BYTES: nat := 96 * 1024 * 1024

  function Ceil(n: nat, d: nat): nat
    requires d > 0
  {
    (n + d - 1) / d
  }

  function DeltaSizeUpperBound(targetSize: nat): nat {
    targetSize + Ceil(targetSize, LARGEST_INSERT) + 32
  }

  function DeflateSizeUpperBound(size: nat): nat {
    size + Ceil(size, 4096) + Ceil(size, 16384) + Ceil(size, 33554432) + 13
  }

  function EstimateRepackDeltaMemory(baseSize: nat, targetSize: nat): nat {
    var deltaSize := DeltaSizeUpperBound(targetSize);
    baseSize + targetSize + deltaSize + DeflateSizeUpperBound(deltaSize)
  }

  /** The power-of-two bucket of a size. */
  function Bucket(size: nat): nat {
    if size <= 1 then 0 else 1 + Bucket(size / 2)
  }

  lemma {:induction false} BucketRange(size: nat)
    requires size > 0
    ensures Shl(1, Bucket(size)) <= size < Twice(Shl(1, Bucket(size)))
  {
    if size > 1 {
      BucketRange(size / 2);
    }
  }

  lemma {:induction false} PrefixIsLongest(base: seq<byte>, target: seq<byte>, from: nat, n: nat)
    requires from <= n <= |base| && n <= |target| && base[..n] == target[..n]
    ensures CommonPrefix(base, target, from) >= n
    decreases n - from
  {
    if from < n {
      assert base[from] == base[..n][from] && target[from] == target[..n][from];
      PrefixIsLongest(base, target, from + 1, n);
    }
  }

  lemma {:induction false} SuffixIsLongest(base: seq<byte>, target: seq<byte>, prefix: nat, from: nat, n: nat)
    requires from <= n && prefix + n <= |base| && prefix + n <= |target|
    requires base[|base| - from..] == target[|target| - from..] && base[|base| - n..] == target[|target| - n..]
    ensures CommonSuffix(base, target, prefix, from) >= n
    decreases n - from
  {
    if from < n {
      var i := n - from - 1;
      assert base[|base| - from - 1] == base[|base| - n..][i];
      assert target[|target| - from - 1] == target[|target| - n..][i];
      SuffixGrows(base, from);
      SuffixGrows(target, from);
      SuffixIsLongest(base, target, prefix, from + 1, n);
    }
  }

  lemma {:induction false} CopiesAreFew(offset: nat, length: nat)
    ensures |Copies(offset, length)| <= 8 * ((length + 16777214) / 16777215)
    decreases length
  {
    hide Copy;
    if length >= LARGEST_COPY {
      CopiesAreFew(offset + LARGEST_COPY, length - LARGEST_COPY);
    } else if length > 0 {
      CopiesAreFew(offset + length, 0);
    }
  }

  /** However much of its beginning and its end the target has in common with the base, no more than the rest of it
      is inserted: beside that there are a few bytes for the sizes, for each run of 127 inserted bytes, and for each
      16777215 that are copied. */
  lemma BuildIsShort(base: seq<byte>, target: seq<byte>, p: nat, s: nat)
    requires |base| < 0x1000_0000 && |target| < 0x1000_0000 && p + s <= |base| && p + s <= |target|
    requires base[..p] == target[..p] && base[|base| - s..] == target[|target| - s..]
    ensures var m := |target| - p - s;
      |Build(base, target)| <= m + (m + 126) / 127 + 8 * (|target| / 16777215) + 24
  {
    hide Varint, Copies, Inserts, CommonPrefix, CommonSuffix;
    var prefix := CommonPrefix(base, target, 0);
    PrefixIsLongest(base, target, 0, p);
    var room := Least(|base|, |target|) - prefix;
    var n := Least(s, room);
    TailsAgree(base, target, s, n);
    SuffixIsLongest(base, target, prefix, 0, n);
    var suffix := CommonSuffix(base, target, prefix, 0);
    var middle := target[prefix..|target| - suffix];
    assert |middle| <= |target| - p - s;
    VarintLength(|base|);
    VarintLength(|target|);
    CopiesAreFew(0, prefix);
    CopiesAreFew(|base| - suffix, suffix);
    InsertsLength(middle);
    assert (|middle| + 126) / 127 <= (|target| - p - s + 126) / 127;
    CeilsAdd(prefix, suffix, |target|);
  }

  lemma TailsAgree(base: seq<byte>, target: seq<byte>, s: nat, n: nat)
    requires n <= s <= |base| && s <= |target| && base[|base| - s..] == target[|target| - s..]
    ensures base[|base| - n..] == target[|target| - n..]
  {
    assert base[|base| - n..] == base[|base| - s..][s - n..];
    assert target[|target| - n..] == target[|target| - s..][s - n..];
  }

  lemma CeilsAdd(a: nat, b: nat, c: nat)
    requires a + b <= c
    ensures (a + 16777214) / 16777215 + (b + 16777214) / 16777215 <= c / 16777215 + 2
  {
    var x, y := (a + 16777214) / 16777215, (b + 16777214) / 16777215;
    assert 16777215 * x <= a + 16777214 && 16777215 * y <= b + 16777214;
  }

  lemma {:induction false} VarintLength(v: nat)
    requires v < 0x1000_0000
    ensures |Varint(v)| <= 4
  {
    var a, b, c := v / 128, v / 128 / 128, v / 128 / 128 / 128;
    assert |Varint(v)| <= 1 + |Varint(a)| && |Varint(a)| <= 1 + |Varint(b)| && |Varint(b)| <= 1 + |Varint(c)|;
  }

  lemma {:induction false} CopiesLength(offset: nat, length: nat)
    ensures |Copies(offset, length)| <= (if length == 0 then 0 else 8 + length)
    decreases length
  {
    hide Copy;
    if length > LARGEST_COPY {
      CopiesLength(offset + LARGEST_COPY, length - LARGEST_COPY);
    } else if length > 0 {
      CopiesLength(offset + length, 0);
    }
  }

  lemma {:induction false} InsertsLength(bytes: seq<byte>)
    ensures |Inserts(bytes)| == |bytes| + Ceil(|bytes|, LARGEST_INSERT)
    decreases |bytes|
  {
    if |bytes| > LARGEST_INSERT {
      InsertsLength(bytes[LARGEST_INSERT..]);
      assert (|bytes| + 126) / 127 == 1 + (|bytes| - 127 + 126) / 127;
    } else if bytes != [] {
      assert bytes[|bytes|..] == [];
    }
  }

  /** A built delta is never longer than the bound the repacker plans with. */
  lemma BuildIsBounded(base: seq<byte>, target: seq<byte>)
    requires |base| < 0x1000_0000 && |target| < 0x1000_0000
    ensures |Build(base, target)| <= DeltaSizeUpperBound(|target|)
  {
    hide Varint, Copies, Inserts, CommonPrefix, CommonSuffix;
    var prefix := CommonPrefix(base, target, 0);
    var suffix := CommonSuffix(base, target, prefix, 0);
    var middle := target[prefix..|target| - suffix];
    VarintLength(|base|);
    VarintLength(|target|);
    CopiesLength(0, prefix);
    CopiesLength(|base| - suffix, suffix);
    InsertsLength(middle);
    assert (|middle| + 126) / 127 <= (|target| + 126) / 127;
  }

  /** The estimate covers both objects, the delta and its compressed form, even if that takes five bytes more for
      every 65535 and eleven for its ends, as storing it does. */
  lemma EstimateCovers(base: seq<byte>, target: seq<byte>)
    requires |base| < 0x1000_0000 && |target| < 0x1000_0000
    ensures var n := |Build(base, target)|;
      |base| + |target| + n + (n + 5 * ((n + 65534) / 65535) + 11) <= EstimateRepackDeltaMemory(|base|, |target|)
  {
    hide Build;
    BuildIsBounded(base, target);
    var n, m := |Build(base, target)|, DeltaSizeUpperBound(|target|);
    assert (n + 4095) / 4096 <= (m + 4095) / 4096;
    assert 5 * ((n + 65534) / 65535) <= (n + 4095) / 4096 + 5;
    assert (m + 16383) / 16384 + (m + 33554431) / 33554432 + 13 >= 14;
  }

  lemma BucketsAreClose(baseSize: nat, targetSize: nat)
    requires Bucket(baseSize) == Bucket(targetSize)
    ensures targetSize <= 2 * baseSize + 1
  {
    if baseSize > 0 && targetSize > 0 {
      BucketRange(baseSize);
      BucketRange(targetSize);
    }
  }

  /** What the repacker chooses to build, the reader accepts: two objects of one bucket whose
      estimate fits the budget give a delta within the limit of one entry, and it applies. */
  lemma RepackedDeltaIsReadable(base: seq<byte>, target: seq<byte>)
    requires Bucket(|base|) == Bucket(|target|)
    requires EstimateRepackDeltaMemory(|base|, |target|) <= REPACK_DELTA_MEMORY_BUDGET_BYTES
    ensures |Build(base, target)| <= MAX_OBJECT_BYTES
    ensures Apply(base, Build(base, target)) == Ok(target)
  {
    hide Build, Apply, Bucket;
    BucketsAreClose(|base|, |target|);
    BuildIsBounded(base, target);
    ApplyUndoesBuild(base, target);
  }

  // ---- As the program does it ------------------------------------------------------------------

  method ReadVarint(delta: seq<byte>, at: nat) returns (r: Applied<(nat, nat)>)
    ensures r == VarintFrom(delta, at, 0, 0)
  {
    hide Shl;
    var value: nat, shift: nat, cursor: nat := 0, 0, at;
    while true
      invariant VarintFrom(delta, at, 0, 0) == VarintFrom(delta, cursor, value, shift)
      decreases |delta| - cursor
    {
      if cursor >= |delta| {
        return Corrupt;
      }
      var b := delta[cursor];
      cursor := cursor + 1;
      value := value + Shl(b % 128, shift);
      var safe := shift < INFINITE_SHIFT && value <= MAX_SAFE_INTEGER;
      shift := shift + 7;
      if !safe {
        return Corrupt;
      }
      if b < 128 {
        return Ok((value, cursor));
      }
    }
  }

  /** A number read so far, with the rest of it still to come above weight `m`. */
  function Above(value: nat, m: nat, rest: Applied<(nat, nat)>): Applied<(nat, nat)> {
    if rest.Ok? then Ok((value + m * rest.value.0, rest.value.1)) else Corrupt
  }

  lemma AboveStep(delta: seq<byte>, at: nat, opcode: byte, flag: nat, count: nat, value: nat, m: nat)
    requires count > 0
    ensures var rest := ReadSparse(delta, at, opcode, flag, count);
            if !Flag(opcode, flag) then
              Above(value, m, rest) == Above(value, 256 * m, ReadSparse(delta, at, opcode, flag + 1, count - 1))
            else if at >= |delta| then rest == Corrupt
            else Above(value, m, rest)
                 == Above(value + m * delta[at], 256 * m, ReadSparse(delta, at + 1, opcode, flag + 1, count - 1))
  {
    hide Flag;
    var next := if Flag(opcode, flag) then at + 1 else at;
    var rest := ReadSparse(delta, next, opcode, flag + 1, count - 1);
    if rest.Ok? {
      var x := rest.value.0;
      assert m * (256 * x) == 256 * m * x;
      if at < |delta| {
        assert m * (delta[at] + 256 * x) == m * delta[at] + m * (256 * x);
      }
    }
  }

  method ReadOperand(delta: seq<byte>, from: nat, opcode: byte, flag: nat, count: nat) returns (r: Applied<(nat, nat)>)
    ensures r == ReadSparse(delta, from, opcode, flag, count)
  {
    hide ReadSparse, Flag, Shr;
    var value: nat, m: nat, at: nat := 0, 1, from;
    SparseFails(delta, from, opcode, flag, count);
    AboveOne(ReadSparse(delta, from, opcode, flag, count));
    for i := 0 to count
      invariant ReadSparse(delta, from, opcode, flag, count)
             == Above(value, m, ReadSparse(delta, at, opcode, flag + i, count - i))
    {
      AboveStep(delta, at, opcode, flag + i, count - i, value, m);
      if Shr(opcode, flag + i) % 2 == 1 {
        FlagIsSet(opcode, flag + i);
        if at >= |delta| {
          return Corrupt;
        }
        value := value + m * delta[at];
        at := at + 1;
      } else {
        FlagIsSet(opcode, flag + i);
      }
      m := 256 * m;
    }
    NothingLeft(delta, at, opcode, flag + count);
    r := Ok((value, at));
  }

  lemma FlagIsSet(opcode: byte, i: nat)
    ensures Flag(opcode, i) <==> Shr(opcode, i) % 2 == 1
  {
  }

  lemma NothingLeft(delta: seq<byte>, at: nat, opcode: byte, flag: nat)
    ensures ReadSparse(delta, at, opcode, flag, 0) == Ok((0, at))
  {
  }

  lemma AboveOne(r: Applied<(nat, nat)>)
    requires !r.TooLarge?
    ensures Above(0, 1, r) == r
  {
  }

  lemma {:induction false} SparseFails(delta: seq<byte>, at: nat, opcode: byte, flag: nat, count: nat)
    ensures !ReadSparse(delta, at, opcode, flag, count).TooLarge?
  {
    hide Flag;
  }

  /** Decodes a delta into an array of the declared size. */
  method ApplyDelta(base: seq<byte>, delta: seq<byte>) returns (r: Applied<seq<byte>>)
    ensures r == Apply(base, delta)
  {
    hide VarintFrom, ReadSparse, Play;
    var baseSize := ReadVarint(delta, 0);
    if !baseSize.Ok? {
      return Corrupt;
    }
    var resultSize := ReadVarint(delta, baseSize.value.1);
    if !resultSize.Ok? || baseSize.value.0 != |base| {
      return Corrupt;
    }
    if resultSize.value.0 > MAX_OBJECT_BYTES {
      return TooLarge;
    }
    r := PlayInstructions(base, delta, resultSize.value.1, resultSize.value.0);
  }

  method Write(result: array<byte>, at: nat, bytes: seq<byte>) returns (fits: bool)
    requires at <= result.Length
    modifies result
    ensures fits == (at + |bytes| <= result.Length)
    ensures fits ==> result[..at + |bytes|] == old(result[..at]) + bytes
    ensures !fits ==> result[..] == old(result[..])
  {
    fits := at + |bytes| <= result.Length;
    if fits {
      forall i | 0 <= i < |bytes| {
        result[at + i] := bytes[i];
      }
    }
  }

  method PlayInstructions(base: seq<byte>, delta: seq<byte>, from: nat, size: nat) returns (r: Applied<seq<byte>>)
    ensures r == Play(base, delta, from, [], size)
  {
    hide ReadSparse;
    var result := new byte[size](_ => 0);
    var at: nat, written: nat := from, 0;
    assert result[..0] == [];
    while at < |delta|
      invariant written <= size == result.Length
      invariant Play(base, delta, from, [], size) == Play(base, delta, at, result[..written], size)
      decreases |delta| - at
    {
      var opcode := delta[at];
      at := at + 1;
      if opcode >= 128 {
        var offset := ReadOperand(delta, at, opcode, 0, 4);
        if !offset.Ok? {
          return Corrupt;
        }
        var count := ReadOperand(delta, offset.value.1, opcode, 4, 3);
        if !count.Ok? {
          return Corrupt;
        }
        at := count.value.1;
        var n := if count.value.0 == 0 then IMPLIED_COPY else count.value.0;
        if offset.value.0 + n > |base| {
          return Corrupt;
        }
        var fits := Write(result, written, base[offset.value.0..offset.value.0 + n]);
        if !fits {
          return Corrupt;
        }
        written := written + n;
      } else {
        if opcode == 0 || at + opcode > |delta| {
          return Corrupt;
        }
        var fits := Write(result, written, delta[at..at + opcode]);
        if !fits {
          return Corrupt;
        }
        written, at := written + opcode, at + opcode;
      }
    }
    if written != result.Length {
      return Corrupt;
    }
    r := Ok(result[..written]);
  }

  method DeltaVarint(value: nat) returns (bytes: seq<byte>)
    ensures bytes == Varint(value)
  {
    var left := value;
    bytes := [];
    while left >= 128
      invariant Varint(value) == bytes + Varint(left)
    {
      bytes, left := bytes + [128 + left % 128], left / 128;
    }
    bytes := bytes + [left];
  }

  lemma SparseStep(value: nat, count: nat)
    requires count > 0
    ensures Sparse(value, count) == (if value % 256 == 0 then [] else [value % 256]) + Sparse(value / 256, count - 1)
    ensures Flags(value, count) == (if value % 256 == 0 then 0 else 1) + Twice(Flags(value / 256, count - 1))
  {
  }

  lemma SparseOver(value: nat)
    ensures Sparse(value, 0) == [] && Flags(value, 0) == 0
  {
  }

  /** The operand bytes worth sending, and the opcode bits that announce them. */
  method SendOperand(value: nat, count: nat, first: nat) returns (opcode: nat, operands: seq<byte>)
    ensures operands == Sparse(value, count) && opcode == first * Flags(value, count)
  {
    hide Sparse, Flags;
    var left: nat, weight: nat := value, first;
    opcode, operands := 0, [];
    for i := 0 to count
      invariant Sparse(value, count) == operands + Sparse(left, count - i)
      invariant first * Flags(value, count) == opcode + weight * Flags(left, count - i)
    {
      SparseStep(left, count - i);
      var flags := Flags(left / 256, count - i - 1);
      assert weight * Twice(flags) == 2 * weight * flags;
      if left % 256 != 0 {
        assert weight * (1 + Twice(flags)) == weight + weight * Twice(flags);
        opcode, operands := opcode + weight, operands + [left % 256];
      }
      left, weight := left / 256, 2 * weight;
    }
    SparseOver(left);
  }

  method CopyInstruction(offset: nat, size: nat) returns (bytes: seq<byte>)
    ensures bytes == Copy(offset, size)
  {
    hide Sparse, Flags;
    CopyFlags(offset, size);
    var low, offsets := SendOperand(offset, 4, 1);
    var high, sizes := SendOperand(size, 3, 16);
    bytes := [128 + low + high] + (offsets + sizes);
  }

  method Concat(parts: seq<seq<byte>>) returns (joined: seq<byte>)
    ensures joined == Flatten(parts)
  {
    joined := [];
    for i := 0 to |parts|
      invariant joined == Flatten(parts[..i])
    {
      assert parts[..i + 1] == parts[..i] + [parts[i]];
      FlattenAppend(parts[..i], parts[i]);
      joined := joined + parts[i];
    }
    assert parts[..|parts|] == parts;
  }

  /** Copies of at most the largest size, pushed one after another. */
  method PushCopies(instructions: seq<seq<byte>>, offset: nat, length: nat) returns (more: seq<seq<byte>>)
    ensures Flatten(more) == Flatten(instructions) + Copies(offset, length)
  {
    hide Copy;
    var left: nat, at: nat := length, offset;
    more := instructions;
    while left > 0
      invariant Flatten(more) + Copies(at, left) == Flatten(instructions) + Copies(offset, length)
    {
      var size := if left < LARGEST_COPY then left else LARGEST_COPY;
      var instruction := CopyInstruction(at, size);
      FlattenAppend(more, instruction);
      assert Flatten(more) + Copies(at, left) == Flatten(more) + instruction + Copies(at + size, left - size);
      more, at, left := more + [instruction], at + size, left - size;
    }
  }

  method PushInserts(instructions: seq<seq<byte>>, target: seq<byte>, from: nat, to: nat) returns (more: seq<seq<byte>>)
    requires from <= to <= |target|
    ensures Flatten(more) == Flatten(instructions) + Inserts(target[from..to])
  {
    hide Inserts, Flatten;
    more := instructions;
    var at := from;
    while at < to
      invariant from <= at <= to
      invariant Flatten(more) + Inserts(target[at..to]) == Flatten(instructions) + Inserts(target[from..to])
    {
      var end := if to < at + LARGEST_INSERT then to else at + LARGEST_INSERT;
      var inserted := target[at..end];
      InsertsStep(target, at, to, end);
      FlattenAppend(more, [|inserted|]);
      FlattenAppend(more + [[|inserted|]], inserted);
      RegroupTwice(Flatten(more), [|inserted|], inserted, Inserts(target[end..to]));
      more, at := more + [[|inserted|]] + [inserted], end;
    }
    InsertsOver(target, to);
  }

  lemma RegroupTwice(a: seq<byte>, b: seq<byte>, c: seq<byte>, d: seq<byte>)
    ensures a + (b + (c + d)) == a + b + c + d
  {
  }

  lemma InsertsOver(target: seq<byte>, to: nat)
    requires to <= |target|
    ensures Inserts(target[to..to]) == []
  {
  }

  lemma InsertsStep(target: seq<byte>, at: nat, to: nat, end: nat)
    requires at < to <= |target| && end == if to < at + LARGEST_INSERT then to else at + LARGEST_INSERT
    ensures Inserts(target[at..to]) == [end - at] + (target[at..end] + Inserts(target[end..to]))
  {
    var bytes := target[at..to];
    assert bytes[..end - at] == target[at..end] && bytes[end - at..] == target[end..to];
  }

  method MatchPrefix(base: seq<byte>, target: seq<byte>) returns (prefix: nat)
    ensures prefix == CommonPrefix(base, target, 0)
  {
    prefix := 0;
    while prefix < |base| && prefix < |target| && base[prefix] == target[prefix]
      invariant prefix <= |base| && prefix <= |target|
      invariant CommonPrefix(base, target, 0) == CommonPrefix(base, target, prefix)
    {
      prefix := prefix + 1;
    }
  }

  lemma SuffixMatches(base: seq<byte>, target: seq<byte>, prefix: nat, n: nat)
    requires prefix + n < |base| && prefix + n < |target|
    requires base[|base| - n..] == target[|target| - n..] && base[|base| - n - 1] == target[|target| - n - 1]
    ensures base[|base| - n - 1..] == target[|target| - n - 1..]
    ensures CommonSuffix(base, target, prefix, n) == CommonSuffix(base, target, prefix, n + 1)
  {
    SuffixGrows(base, n);
    SuffixGrows(target, n);
  }

  predicate TailsMatch(base: seq<byte>, target: seq<byte>, prefix: nat, n: nat) {
    && prefix + n <= |base| && prefix + n <= |target| && base[|base| - n..] == target[|target| - n..]
    && CommonSuffix(base, target, prefix, 0) == CommonSuffix(base, target, prefix, n)
  }

  lemma TailsMatchNext(base: seq<byte>, target: seq<byte>, prefix: nat, n: nat)
    requires TailsMatch(base, target, prefix, n) && prefix + n < |base| && prefix + n < |target|
    requires base[|base| - n - 1] == target[|target| - n - 1]
    ensures TailsMatch(base, target, prefix, n + 1)
  {
    hide CommonSuffix;
    SuffixMatches(base, target, prefix, n);
  }

  method MatchSuffix(base: seq<byte>, target: seq<byte>, prefix: nat) returns (suffix: nat)
    requires prefix <= |base| && prefix <= |target|
    ensures suffix == CommonSuffix(base, target, prefix, 0)
  {
    hide CommonSuffix;
    suffix := 0;
    assert base[|base|..] == target[|target|..];
    while suffix < |base| - prefix && suffix < |target| - prefix
      && base[|base| - suffix - 1] == target[|target| - suffix - 1]
      invariant prefix + suffix <= |base| && prefix + suffix <= |target|
      invariant TailsMatch(base, target, prefix, suffix)
    {
      TailsMatchNext(base, target, prefix, suffix);
      suffix := suffix + 1;
    }
    SuffixEnds(base, target, prefix, suffix);
  }

  lemma SuffixEnds(base: seq<byte>, target: seq<byte>, prefix: nat, n: nat)
    requires prefix + n <= |base| && prefix + n <= |target| && base[|base| - n..] == target[|target| - n..]
    requires n < |base| - prefix && n < |target| - prefix ==> base[|base| - n - 1] != target[|target| - n - 1]
    ensures CommonSuffix(base, target, prefix, n) == n
  {
  }

  /** The prefix and the suffix the two have in common, copied, around what changed. */
  method BuildRepackDelta(base: seq<byte>, target: seq<byte>) returns (delta: seq<byte>)
    ensures delta == Build(base, target)
  {
    hide Varint, Copies, Inserts, Flatten, CommonPrefix, CommonSuffix;
    var prefix := MatchPrefix(base, target);
    var suffix := MatchSuffix(base, target, prefix);
    var baseSize := DeltaVarint(|base|);
    var targetSize := DeltaVarint(|target|);
    var instructions := [baseSize, targetSize];
    FlattenPair(baseSize, targetSize);
    instructions := PushCopies(instructions, 0, prefix);
    instructions := PushInserts(instructions, target, prefix, |target| - suffix);
    instructions := PushCopies(instructions, |base| - suffix, suffix);
    delta := Concat(instructions);
    var inserts := Inserts(target[prefix..|target| - suffix]);
    assert baseSize + targetSize + Copies(0, prefix) + inserts + Copies(|base| - suffix, suffix)
        == baseSize + (targetSize + (Copies(0, prefix) + (inserts + Copies(|base| - suffix, suffix))));
  }

  lemma SuffixGrows(s: seq<byte>, n: nat)
    requires n < |s|
    ensures s[|s| - n - 1..] == [s[|s| - n - 1]] + s[|s| - n..]
  {
  }

  lemma FlattenPair(a: seq<byte>, b: seq<byte>)
    ensures Flatten([a, b]) == a + b
  {
    assert [a, b] == [a] + [b];
    FlattenAppend([], a);
    FlattenAppend([a], b);
    assert [] + [a] == [a];
  }
}
