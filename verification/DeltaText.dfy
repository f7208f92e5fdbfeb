/** The text of a delta, as git writes it ("Deltified representation" in gitformat-pack), told without a reader; and
    that applying one takes exactly such texts, for exactly what they mean. */
module DeltaText {
  import opened Bits
  import opened Delta

  // ---- Sizes --------------------------------------------------------------------------------

  /** Groups of seven bits, the lowest first. */
  function Groups(bytes: seq<byte>): nat {
    if bytes == [] then 0 else bytes[0] % 128 + 128 * Groups(bytes[1..])
  }

  /** All bytes but the last have their highest bit set. */
  predicate Continued(bytes: seq<byte>) {
    bytes != [] && forall i :: 0 <= i < |bytes| ==> (bytes[i] >= 128 <==> i < |bytes| - 1)
  }

  /** A size may be padded, to 147 bytes in all. */
  predicate IsSize(word: seq<byte>, n: nat) {
    Continued(word) && |word| <= 147 && Groups(word) == n <= 9007199254740991
  }

  lemma GroupsShift(b: nat, rest: nat, shift: nat)
    ensures Shl(b + 128 * rest, shift) == Shl(b, shift) + Shl(rest, shift + 7)
  {
    hide Shl;
    ShlAdd(rest, 7, shift);
    ShlIs128(rest);
    ShlSum(b, 128 * rest, shift);
    assert shift + 7 == 7 + shift;
  }

  lemma {:induction false} SizeIsTold(delta: seq<byte>, at: nat, value: nat, shift: nat)
    requires VarintFrom(delta, at, value, shift).Ok?
    ensures var (sum, next) := VarintFrom(delta, at, value, shift).value; var word := delta[at..next];
      && Continued(word) && shift + 7 * (|word| - 1) < 1024
      && sum == value + Shl(Groups(word), shift) <= 9007199254740991
    decreases |delta| - at
  {
    var b := delta[at] % 128;
    var (sum, next) := VarintFrom(delta, at, value, shift).value;
    var word := delta[at..next];
    if delta[at] < 128 {
      assert word == [delta[at]] && Groups(word) == b + 128 * Groups([]);
    } else {
      SizeIsTold(delta, at + 1, value + Shl(b, shift), shift + 7);
      var rest := delta[at + 1..next];
      assert word == [delta[at]] + rest;
      GroupsShift(b, Groups(rest), shift);
    }
  }

  lemma {:induction false} ToldSizeIsRead(delta: seq<byte>, at: nat, word: seq<byte>, value: nat, shift: nat)
    requires At(delta, at, word) && Continued(word) && shift + 7 * (|word| - 1) < 1024
    requires value + Shl(Groups(word), shift) <= 9007199254740991
    ensures VarintFrom(delta, at, value, shift) == Ok((value + Shl(Groups(word), shift), at + |word|))
    decreases |word|
  {
    hide Shl;
    var rest := word[1..];
    AtFirst(delta, at, word[0], rest);
    assert word == [word[0]] + rest;
    GroupsShift(word[0] % 128, Groups(rest), shift);
    if rest == [] {
      ShlZero(shift + 7);
    } else {
      ToldSizeIsRead(delta, at + 1, rest, value + Shl(word[0] % 128, shift), shift + 7);
    }
  }

  lemma SizeIff(delta: seq<byte>, at: nat, n: nat, next: nat)
    ensures VarintFrom(delta, at, 0, 0) == Ok((n, next)) <==> at < next <= |delta| && IsSize(delta[at..next], n)
  {
    hide VarintFrom, Groups, Continued;
    if VarintFrom(delta, at, 0, 0) == Ok((n, next)) {
      SizeIsTold(delta, at, 0, 0);
    }
    if at < next <= |delta| && IsSize(delta[at..next], n) {
      ToldSizeIsRead(delta, at, delta[at..next], 0, 0);
    }
  }

  // ---- Instructions --------------------------------------------------------------------------

  /** A copy has seven operand bytes, four of the offset and three of the size, each the lowest first; those that
      are not sent are zero. */
  datatype Instruction = CopyFrom(operands: seq<byte>, sent: seq<bool>) | Insert(bytes: seq<byte>)

  predicate AreOperands(operands: seq<byte>, sent: seq<bool>) {
    |operands| == |sent| && forall i :: 0 <= i < |sent| && !sent[i] ==> operands[i] == 0
  }

  predicate IsInstruction(op: Instruction) {
    match op
    case CopyFrom(operands, sent) => |sent| == 7 && AreOperands(operands, sent)
    case Insert(bytes) => 1 <= |bytes| <= 127
  }

  function Sent(operands: seq<byte>, sent: seq<bool>): seq<byte>
    requires |operands| == |sent|
  {
    if sent == [] then []
    else (if sent[0] then [operands[0]] else []) + Sent(operands[1..], sent[1..])
  }

  /** Which operands are sent, in the seven lower bits. */
  function SentFlags(sent: seq<bool>): nat {
    if sent == [] then 0 else (if sent[0] then 1 else 0) + 2 * SentFlags(sent[1..])
  }

  lemma {:induction false} FlagsFit(sent: seq<bool>)
    ensures SentFlags(sent) < Shl(1, |sent|)
  {
    if sent != [] {
      FlagsFit(sent[1..]);
    }
  }

  lemma ShlOf7()
    ensures Shl(1, 7) == 128
  {
    ShlIs128(1);
  }

  function Opcode(sent: seq<bool>): byte
    requires |sent| == 7
  {
    FlagsFit(sent);
    ShlOf7();
    128 + SentFlags(sent)
  }

  function InstructionBytes(op: Instruction): seq<byte>
    requires IsInstruction(op)
  {
    match op
    case CopyFrom(operands, sent) => [Opcode(sent)] + Sent(operands, sent)
    case Insert(bytes) => [|bytes|] + bytes
  }

  function CopyOffset(operands: seq<byte>): nat
    requires |operands| == 7
  {
    var a: nat, b: nat, c: nat, d: nat := operands[0], operands[1], operands[2], operands[3];
    a + 256 * b + 65536 * c + 16777216 * d
  }

  /** A copy of no size is one of 65536 bytes. */
  function CopySize(operands: seq<byte>): nat
    requires |operands| == 7
  {
    var a: nat, b: nat, c: nat := operands[4], operands[5], operands[6];
    var n := a + 256 * b + 65536 * c;
    if n == 0 then 65536 else n
  }

  /** The instruction names bytes that are there. */
  predicate Fits(base: seq<byte>, op: Instruction)
    requires IsInstruction(op)
  {
    op.CopyFrom? ==> CopyOffset(op.operands) + CopySize(op.operands) <= |base|
  }

  function Gives(base: seq<byte>, op: Instruction): seq<byte>
    requires IsInstruction(op) && Fits(base, op)
  {
    match op
    case CopyFrom(operands, _) => base[CopyOffset(operands)..CopyOffset(operands) + CopySize(operands)]
    case Insert(bytes) => bytes
  }

  predicate AllFit(base: seq<byte>, ops: seq<Instruction>) {
    forall i :: 0 <= i < |ops| ==> IsInstruction(ops[i]) && Fits(base, ops[i])
  }

  function InstructionsBytes(base: seq<byte>, ops: seq<Instruction>): seq<byte>
    requires AllFit(base, ops)
  {
    if ops == [] then [] else InstructionBytes(ops[0]) + InstructionsBytes(base, ops[1..])
  }

  function Result(base: seq<byte>, ops: seq<Instruction>): seq<byte>
    requires AllFit(base, ops)
  {
    if ops == [] then [] else Gives(base, ops[0]) + Result(base, ops[1..])
  }

  /** `delta` is a delta from `base` to `result`: the sizes of both, in the first `m` and the next bytes up to `n`, and
      instructions that give the one out of the other. */
  ghost predicate IsDeltaWith(
      base: seq<byte>, delta: seq<byte>, result: seq<byte>, m: nat, n: nat, ops: seq<Instruction>)
  {
    && m <= n <= |delta| && IsSize(delta[..m], |base|) && IsSize(delta[m..n], |result|)
    && AllFit(base, ops) && delta[n..] == InstructionsBytes(base, ops) && Result(base, ops) == result
  }

  ghost predicate IsDelta(base: seq<byte>, delta: seq<byte>, result: seq<byte>) {
    exists m: nat, n: nat, ops :: IsDeltaWith(base, delta, result, m, n, ops)
  }

  // ---- Operands are read ----------------------------------------------------------------------

  function Number(operands: seq<byte>): nat {
    if operands == [] then 0 else operands[0] + 256 * Number(operands[1..])
  }

  predicate FlagsOf(opcode: byte, flag: nat, sent: seq<bool>) {
    forall i :: 0 <= i < |sent| ==> (sent[i] <==> Flag(opcode, flag + i))
  }

  lemma {:induction false} SparseIsTold(delta: seq<byte>, at: nat, opcode: byte, flag: nat, count: nat)
      returns (operands: seq<byte>, sent: seq<bool>)
    requires at <= |delta| && ReadSparse(delta, at, opcode, flag, count).Ok?
    ensures |sent| == count && AreOperands(operands, sent) && FlagsOf(opcode, flag, sent)
    ensures var (v, next) := ReadSparse(delta, at, opcode, flag, count).value;
      v == Number(operands) && at <= next <= |delta| && delta[at..next] == Sent(operands, sent)
    decreases count
  {
    if count == 0 {
      operands, sent := [], [];
      assert delta[at..at] == [];
    } else {
      var flagged := Flag(opcode, flag);
      var from := if flagged then at + 1 else at;
      var b: byte := if flagged then delta[at] else 0;
      var rest, flags := SparseIsTold(delta, from, opcode, flag + 1, count - 1);
      operands, sent := [b] + rest, [flagged] + flags;
      var next := ReadSparse(delta, at, opcode, flag, count).value.1;
      assert operands[1..] == rest && sent[1..] == flags;
      assert delta[at..next] == delta[at..from] + delta[from..next];
    }
  }

  lemma {:induction false} ToldSparseIsRead(
      delta: seq<byte>, at: nat, opcode: byte, flag: nat, operands: seq<byte>, sent: seq<bool>)
    requires AreOperands(operands, sent) && FlagsOf(opcode, flag, sent) && At(delta, at, Sent(operands, sent))
    ensures ReadSparse(delta, at, opcode, flag, |sent|) == Ok((Number(operands), at + |Sent(operands, sent)|))
    decreases |sent|
  {
    if sent != [] {
      var first := if sent[0] then [operands[0]] else [];
      AtParts(delta, at, first, Sent(operands[1..], sent[1..]));
      assert sent[0] ==> delta[at] == delta[at..at + 1][0];
      assert sent[0] <==> Flag(opcode, flag + 0);
      forall i | 0 <= i < |sent| - 1
        ensures sent[1..][i] <==> Flag(opcode, flag + 1 + i)
      {
        assert sent[i + 1] <==> Flag(opcode, flag + (i + 1));
      }
      ToldSparseIsRead(delta, at + |first|, opcode, flag + 1, operands[1..], sent[1..]);
    }
  }

  lemma {:induction false} FlagsAreBits(x: nat, sent: seq<bool>)
    requires x < 256 && forall i :: 0 <= i < |sent| ==> (sent[i] <==> Shr(x, i) % 2 == 1)
    ensures x % Shl(1, |sent|) == SentFlags(sent)
    decreases |sent|
  {
    var n := Shl(1, |sent|);
    if sent != [] {
      forall i | 0 <= i < |sent| - 1
        ensures sent[1..][i] <==> Shr(x / 2, i) % 2 == 1
      {
        assert Shr(x, i + 1) == Shr(x / 2, i);
      }
      assert sent[0] <==> Shr(x, 0) % 2 == 1;
      FlagsAreBits(x / 2, sent[1..]);
      HalfMod(x, Shl(1, |sent| - 1));
    }
  }

  lemma HalfMod(x: nat, m: nat)
    requires m > 0
    ensures x % (2 * m) == x % 2 + 2 * (x / 2 % m)
  {
    var q, r := x / 2 / m, x / 2 % m;
    assert x / 2 == m * q + r;
    assert x == (2 * m) * q + (2 * r + x % 2);
    assert 0 <= 2 * r + x % 2 < 2 * m;
    ModIs(x, 2 * m, q, 2 * r + x % 2);
  }

  lemma ModIs(x: nat, m: nat, q: nat, r: nat)
    requires m > 0 && r < m && x == m * q + r
    ensures x % m == r
  {
    var d, e := x / m - q, r - x % m;
    assert m * d == e by {
      assert x == m * (x / m) + x % m;
      assert m * d == m * (x / m) - m * q;
    }
    MultipleIsLarge(m, d);
  }

  lemma MultipleIsLarge(m: int, d: int)
    requires m > 0
    ensures d > 0 ==> m * d >= m
    ensures d < 0 ==> m * d <= -m
  {
  }

  lemma FlagsOfOpcode(opcode: byte, sent: seq<bool>)
    requires opcode >= 128 && |sent| == 7 && FlagsOf(opcode, 0, sent)
    ensures Opcode(sent) == opcode
  {
    forall i | 0 <= i < |sent|
      ensures sent[i] <==> Shr(opcode, i) % 2 == 1
    {
      assert sent[i] <==> Flag(opcode, 0 + i);
    }
    FlagsAreBits(opcode, sent);
    ShlOf7();
  }

  lemma {:induction false} BitsOfFlags(sent: seq<bool>, high: nat, i: nat)
    requires i < |sent|
    ensures Shr(SentFlags(sent) + Shl(high, |sent|), i) % 2 == if sent[i] then 1 else 0
    decreases |sent|
  {
    var rest := SentFlags(sent[1..]) + Shl(high, |sent| - 1);
    var x := SentFlags(sent) + Shl(high, |sent|);
    assert x == (if sent[0] then 1 else 0) + 2 * rest;
    if i > 0 {
      BitsOfFlags(sent[1..], high, i - 1);
      assert x / 2 == rest;
    }
  }

  lemma OpcodeHasFlags(sent: seq<bool>)
    requires |sent| == 7
    ensures Opcode(sent) >= 128 && FlagsOf(Opcode(sent), 0, sent)
  {
    ShlOf7();
    forall i | 0 <= i < |sent|
      ensures sent[i] <==> Flag(Opcode(sent), 0 + i)
    {
      BitsOfFlags(sent, 1, i);
    }
  }

  lemma FlagsSplit(opcode: byte, first: seq<bool>, rest: seq<bool>)
    ensures FlagsOf(opcode, 0, first + rest) <==> FlagsOf(opcode, 0, first) && FlagsOf(opcode, |first|, rest)
  {
    var all := first + rest;
    if FlagsOf(opcode, 0, all) {
      forall i | 0 <= i < |rest|
        ensures rest[i] <==> Flag(opcode, |first| + i)
      {
        assert all[|first| + i] <==> Flag(opcode, 0 + (|first| + i));
      }
      forall i | 0 <= i < |first|
        ensures first[i] <==> Flag(opcode, 0 + i)
      {
        assert all[i] <==> Flag(opcode, 0 + i);
      }
    }
    if FlagsOf(opcode, 0, first) && FlagsOf(opcode, |first|, rest) {
      forall i | 0 <= i < |all|
        ensures all[i] <==> Flag(opcode, 0 + i)
      {
        if i < |first| {
          assert first[i] <==> Flag(opcode, 0 + i);
        } else {
          assert rest[i - |first|] <==> Flag(opcode, |first| + (i - |first|));
        }
      }
    }
  }

  lemma SentUnfolds(b: byte, rest: seq<byte>, first: bool, sent: seq<bool>)
    requires |rest| == |sent|
    ensures Sent([b] + rest, [first] + sent) == (if first then [b] else []) + Sent(rest, sent)
  {
    assert ([b] + rest)[1..] == rest && ([first] + sent)[1..] == sent;
  }

  lemma {:induction false} SentSplits(a: seq<byte>, s: seq<bool>, b: seq<byte>, t: seq<bool>)
    requires |a| == |s| && |b| == |t|
    ensures Sent(a + b, s + t) == Sent(a, s) + Sent(b, t)
    decreases |s|
  {
    if s == [] {
      assert a + b == b && s + t == t;
    } else {
      hide Sent;
      var c, d := a[1..], s[1..];
      SentSplits(c, d, b, t);
      assert a == [a[0]] + c && s == [s[0]] + d;
      assert a + b == [a[0]] + (c + b) && s + t == [s[0]] + (d + t);
      SentUnfolds(a[0], c, s[0], d);
      SentUnfolds(a[0], c + b, s[0], d + t);
    }
  }

  lemma NumberOfFour(operands: seq<byte>)
    requires |operands| == 7
    ensures Number(operands[..4]) == CopyOffset(operands)
    ensures CopySize(operands) == if Number(operands[4..]) == 0 then 65536 else Number(operands[4..])
  {
    var o, s := operands[..4], operands[4..];
    assert Number(o) == o[0] + 256 * Number(o[1..]) && Number(o[1..]) == o[1] + 256 * Number(o[1..][1..]);
    assert o[1..][1..] == [o[2], o[3]] && Number([o[2], o[3]]) == o[2] + 256 * Number([o[3]]);
    assert [o[2], o[3]][1..] == [o[3]] && Number([o[3]]) == o[3] + 256 * Number([]);
    assert Number(s) == s[0] + 256 * Number(s[1..]) && s[1..] == [s[1], s[2]];
    assert Number([s[1], s[2]]) == s[1] + 256 * Number([s[2]]) && [s[1], s[2]][1..] == [s[2]];
    assert Number([s[2]]) == s[2] + 256 * Number([]);
  }

  lemma CopyIsTold(delta: seq<byte>, at: nat) returns (op: Instruction)
    requires at < |delta| && delta[at] >= 128 && ReadCopy(delta, at + 1, delta[at]).Ok?
    ensures op.CopyFrom? && IsInstruction(op)
    ensures var (offset, size, next) := ReadCopy(delta, at + 1, delta[at]).value;
      && offset == CopyOffset(op.operands) && size == CopySize(op.operands)
      && next <= |delta| && delta[at..next] == InstructionBytes(op)
  {
    hide Number, ReadSparse, Sent, SentFlags, Opcode, FlagsOf, CopyOffset, CopySize;
    var opcode := delta[at];
    var (offset, size, next) := ReadCopy(delta, at + 1, opcode).value;
    var mid := ReadSparse(delta, at + 1, opcode, 0, 4).value.1;
    var a, s := SparseIsTold(delta, at + 1, opcode, 0, 4);
    var b, t := SparseIsTold(delta, mid, opcode, 4, 3);
    var operands, sent := a + b, s + t;
    FlagsSplit(opcode, s, t);
    FlagsOfOpcode(opcode, sent);
    SentSplits(a, s, b, t);
    NumberOfFour(operands);
    assert operands[..4] == a && operands[4..] == b;
    op := CopyFrom(operands, sent);
    assert delta[at..next] == [opcode] + delta[at + 1..mid] + delta[mid..next];
    JoinedIs(opcode, delta[at + 1..mid], delta[mid..next]);
  }

  lemma JoinedIs(b: byte, x: seq<byte>, y: seq<byte>)
    ensures [b] + x + y == [b] + (x + y)
  {
  }

  lemma ToldCopyIsRead(delta: seq<byte>, at: nat, op: Instruction)
    requires op.CopyFrom? && IsInstruction(op) && At(delta, at, InstructionBytes(op))
    ensures at < |delta| && delta[at] >= 128
    ensures ReadCopy(delta, at + 1, delta[at])
         == Ok((CopyOffset(op.operands), CopySize(op.operands), at + |InstructionBytes(op)|))
  {
    hide Number, ReadSparse, Sent, SentFlags, Opcode, FlagsOf, CopyOffset, CopySize, At;
    var operands, sent := op.operands, op.sent;
    var a, b, s, t := operands[..4], operands[4..], sent[..4], sent[4..];
    assert operands == a + b && sent == s + t;
    OpcodeHasFlags(sent);
    FlagsSplit(Opcode(sent), s, t);
    SentSplits(a, s, b, t);
    NumberOfFour(operands);
    AtFirst(delta, at, Opcode(sent), Sent(operands, sent));
    AtParts(delta, at + 1, Sent(a, s), Sent(b, t));
    ToldSparseIsRead(delta, at + 1, Opcode(sent), 0, a, s);
    ToldSparseIsRead(delta, at + 1 + |Sent(a, s)|, Opcode(sent), 4, b, t);
  }

  // ---- Deltas are applied ---------------------------------------------------------------------

  lemma InsertIsTold(delta: seq<byte>, at: nat) returns (op: Instruction)
    requires at < |delta| && 0 < delta[at] < 128 && at + 1 + delta[at] <= |delta|
    ensures op == Insert(delta[at + 1..at + 1 + delta[at]]) && IsInstruction(op)
    ensures delta[at..at + 1 + delta[at]] == InstructionBytes(op)
  {
    op := Insert(delta[at + 1..at + 1 + delta[at]]);
  }

  lemma OneIsTold(base: seq<byte>, delta: seq<byte>, at: nat, written: seq<byte>, size: nat)
      returns (op: Instruction, next: nat)
    requires at < |delta| && Play(base, delta, at, written, size).Ok?
    ensures IsInstruction(op) && Fits(base, op) && at < next <= |delta| && delta[at..next] == InstructionBytes(op)
    ensures Play(base, delta, at, written, size) == Play(base, delta, next, written + Gives(base, op), size)
  {
    hide ReadCopy, InstructionBytes, CopyOffset, CopySize, AreOperands;
    if delta[at] >= 128 {
      op := CopyIsTold(delta, at);
      next := ReadCopy(delta, at + 1, delta[at]).value.2;
    } else {
      op := InsertIsTold(delta, at);
      next := at + 1 + delta[at];
    }
  }

  lemma OneMore(base: seq<byte>, op: Instruction, rest: seq<Instruction>)
    requires IsInstruction(op) && Fits(base, op) && AllFit(base, rest)
    ensures AllFit(base, [op] + rest) && Result(base, [op] + rest) == Gives(base, op) + Result(base, rest)
    ensures InstructionsBytes(base, [op] + rest) == InstructionBytes(op) + InstructionsBytes(base, rest)
  {
    assert ([op] + rest)[1..] == rest;
  }

  lemma PlayEnds(base: seq<byte>, delta: seq<byte>, written: seq<byte>, size: nat)
    requires Play(base, delta, |delta|, written, size).Ok?
    ensures Play(base, delta, |delta|, written, size).value == written && |written| == size
    ensures AllFit(base, []) && Result(base, []) == [] && InstructionsBytes(base, []) == []
  {
  }

  lemma {:induction false} PlayIsTold(base: seq<byte>, delta: seq<byte>, at: nat, written: seq<byte>, size: nat)
      returns (ops: seq<Instruction>)
    requires at <= |delta| && Play(base, delta, at, written, size).Ok?
    ensures AllFit(base, ops) && delta[at..] == InstructionsBytes(base, ops)
    ensures var result := Play(base, delta, at, written, size).value;
      result == written + Result(base, ops) && |result| == size
    decreases |delta| - at
  {
    hide Play, InstructionBytes, IsInstruction, Gives, Fits, Result, InstructionsBytes, AllFit;
    if at == |delta| {
      ops := [];
      PlayEnds(base, delta, written, size);
      assert written + [] == written;
    } else {
      var op, next := OneIsTold(base, delta, at, written, size);
      var rest := PlayIsTold(base, delta, next, written + Gives(base, op), size);
      ops := [op] + rest;
      OneMore(base, op, rest);
      assert delta[at..] == delta[at..next] + delta[next..];
      Regroup(written, Gives(base, op), Result(base, rest));
    }
  }

  lemma {:induction false} PlayIsNotTooLarge(
      base: seq<byte>, delta: seq<byte>, at: nat, written: seq<byte>, size: nat)
    ensures !Play(base, delta, at, written, size).TooLarge?
    decreases |delta| - at
  {
    hide ReadCopy;
    if at < |delta| {
      var opcode := delta[at];
      if opcode >= 128 {
        var copy := ReadCopy(delta, at + 1, opcode);
        if copy.Ok? && copy.value.0 + copy.value.1 <= |base| {
          var (offset, count, next) := copy.value;
          PlayIsNotTooLarge(base, delta, next, written + base[offset..offset + count], size);
        }
      } else if opcode > 0 && at + 1 + opcode <= |delta| {
        PlayIsNotTooLarge(base, delta, at + 1 + opcode, written + delta[at + 1..at + 1 + opcode], size);
      }
    }
  }

  lemma PlaysOne(base: seq<byte>, delta: seq<byte>, at: nat, written: seq<byte>, size: nat, op: Instruction)
    requires IsInstruction(op) && Fits(base, op) && At(delta, at, InstructionBytes(op))
    requires |written| + |Gives(base, op)| <= size
    ensures Play(base, delta, at, written, size)
         == Play(base, delta, at + |InstructionBytes(op)|, written + Gives(base, op), size)
  {
    hide ReadCopy, CopyOffset, CopySize, Sent, Opcode;
    match op
    case CopyFrom(operands, sent) => ToldCopyIsRead(delta, at, op);
    case Insert(bytes) =>
      AtFirst(delta, at, |bytes|, bytes);
      assert delta[at + 1..at + 1 + |bytes|] == bytes;
  }

  lemma {:induction false} ToldPlayIsRead(
      base: seq<byte>, delta: seq<byte>, at: nat, written: seq<byte>, size: nat, ops: seq<Instruction>)
    requires at <= |delta| && AllFit(base, ops) && delta[at..] == InstructionsBytes(base, ops)
    requires |written + Result(base, ops)| == size
    ensures Play(base, delta, at, written, size) == Ok(written + Result(base, ops))
    decreases |ops|
  {
    hide ReadCopy, InstructionBytes, IsInstruction, Gives;
    if ops == [] {
      assert written + [] == written;
    } else {
      var op, rest := ops[0], ops[1..];
      var next := at + |InstructionBytes(op)|;
      assert At(delta, at, InstructionBytes(op)) && delta[next..] == InstructionsBytes(base, rest) by {
        assert delta[at..][..|InstructionBytes(op)|] == InstructionBytes(op);
        assert delta[at..next] == delta[at..][..|InstructionBytes(op)|];
        assert delta[next..] == delta[at..][|InstructionBytes(op)|..];
      }
      PlaysOne(base, delta, at, written, size, op);
      assert written + Gives(base, op) + Result(base, rest) == written + (Gives(base, op) + Result(base, rest));
      ToldPlayIsRead(base, delta, next, written + Gives(base, op), size, rest);
    }
  }

  lemma DeltaIsTold(base: seq<byte>, delta: seq<byte>)
    requires Apply(base, delta).Ok?
    ensures IsDelta(base, delta, Apply(base, delta).value) && |Apply(base, delta).value| <= 33554432
  {
    hide VarintFrom, Play, IsSize, AllFit;
    var from := VarintFrom(delta, 0, 0, 0).value;
    SizeIff(delta, 0, from.0, from.1);
    var to := VarintFrom(delta, from.1, 0, 0).value;
    SizeIff(delta, from.1, to.0, to.1);
    var ops := PlayIsTold(base, delta, to.1, [], to.0);
    var result := Apply(base, delta).value;
    assert [] + Result(base, ops) == Result(base, ops);
    assert delta[0..from.1] == delta[..from.1];
    assert IsDeltaWith(base, delta, result, from.1, to.1, ops);
  }

  lemma ToldDeltaIsRead(base: seq<byte>, delta: seq<byte>, result: seq<byte>)
    requires IsDelta(base, delta, result) && |result| <= 33554432
    ensures Apply(base, delta) == Ok(result)
  {
    hide VarintFrom, Play, IsSize, AllFit;
    var m: nat, n: nat, ops :| IsDeltaWith(base, delta, result, m, n, ops);
    assert delta[0..m] == delta[..m];
    SizeIsNotEmpty(delta[..m], |base|);
    SizeIsNotEmpty(delta[m..n], |result|);
    SizeIff(delta, 0, |base|, m);
    SizeIff(delta, m, |result|, n);
    assert [] + Result(base, ops) == Result(base, ops);
    ToldPlayIsRead(base, delta, n, [], |result|, ops);
  }

  lemma SizeIsNotEmpty(word: seq<byte>, n: nat)
    requires IsSize(word, n)
    ensures word != []
  {
  }

  /** Applying takes exactly the deltas from this base, and gives exactly what they mean. */
  lemma ApplyIff(base: seq<byte>, delta: seq<byte>, result: seq<byte>)
    ensures Apply(base, delta) == Ok(result) <==> IsDelta(base, delta, result) && |result| <= 33554432
  {
    hide Apply, IsDelta;
    if Apply(base, delta) == Ok(result) {
      DeltaIsTold(base, delta);
    }
    if IsDelta(base, delta, result) && |result| <= 33554432 {
      ToldDeltaIsRead(base, delta, result);
    }
  }

  /** Sizes of which the first is that of the base, and the second more than an object may have. */
  ghost predicate TellsTooMuch(base: seq<byte>, delta: seq<byte>, m: nat, n: nat, size: nat) {
    && m <= n <= |delta| && IsSize(delta[..m], |base|) && IsSize(delta[m..n], size) && size > 33554432
  }

  /** It calls a result too large before anything is produced, exactly if the delta says so for this base. */
  lemma TooLargeIff(base: seq<byte>, delta: seq<byte>)
    ensures Apply(base, delta) == TooLarge <==> exists m: nat, n: nat, size :: TellsTooMuch(base, delta, m, n, size)
  {
    hide VarintFrom, Play, IsSize;
    if Apply(base, delta) == TooLarge {
      var from := VarintFrom(delta, 0, 0, 0).value;
      SizeIff(delta, 0, from.0, from.1);
      var to := VarintFrom(delta, from.1, 0, 0).value;
      SizeIff(delta, from.1, to.0, to.1);
      PlayIsNotTooLarge(base, delta, to.1, [], to.0);
      assert delta[0..from.1] == delta[..from.1];
      assert TellsTooMuch(base, delta, from.1, to.1, to.0);
    }
    if m: nat, n: nat, size :| TellsTooMuch(base, delta, m, n, size) {
      assert delta[0..m] == delta[..m];
      SizeIsNotEmpty(delta[..m], |base|);
      SizeIsNotEmpty(delta[m..n], size);
      SizeIff(delta, 0, |base|, m);
      SizeIff(delta, m, size, n);
    }
  }
}
