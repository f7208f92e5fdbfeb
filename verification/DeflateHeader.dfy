/** The header of a dynamic block (section 3.2.7 of RFC 1951), spelled and read back. */
module DeflateHeader {
  import opened Bits
  import opened Huffman
  import opened Inflate
  import opened Deflate

  /** One code-length symbol: a length, the previous length again, or zeros. */
  datatype Op = Len(v: nat) | Again(n: nat) | Zeros(n: nat) | ManyZeros(n: nat)

  function OpSymbol(op: Op): nat {
    match op
    case Len(v) => v
    case Again(_) => 16
    case Zeros(_) => 17
    case ManyZeros(_) => 18
  }

  predicate IsOp(codes: Lengths, op: Op) {
    && Worded(codes, OpSymbol(op))
    && match op
       case Len(v) => v < 16
       case Again(n) => 3 <= n < 7
       case Zeros(n) => 3 <= n < 11
       case ManyZeros(n) => 11 <= n < 139
  }

  function OpExtra(codes: Lengths, op: Op): seq<bit>
    requires IsOp(codes, op)
  {
    match op
    case Len(_) => []
    case Again(n) => Lsb(n - 3, 2)
    case Zeros(n) => Lsb(n - 3, 3)
    case ManyZeros(n) => Lsb(n - 11, 7)
  }

  function OpBits(codes: Lengths, op: Op): seq<bit>
    requires IsOp(codes, op)
  {
    CodeBits(codes, OpSymbol(op)) + OpExtra(codes, op)
  }

  /** The lengths an op stands for after `before`. */
  function OpRun(codes: Lengths, op: Op, before: Lengths): (run: Lengths)
    requires IsOp(codes, op) && (op.Again? ==> before != [])
    ensures |run| > 0
  {
    match op
    case Len(v) => [v]
    case Again(n) => Repeat(before[|before| - 1], n)
    case Zeros(n) => Repeat(0, n)
    case ManyZeros(n) => Repeat(0, n)
  }

  lemma ShlSmall()
    ensures Shl(1, 1) == 2 && Shl(1, 2) == 4 && Shl(1, 3) == 8 && Shl(1, 4) == 16 && Shl(1, 5) == 32 && Shl(1, 7) == 128
  {
  }

  lemma RunIsRead(codes: Lengths, op: Op, before: Lengths, bits: seq<bit>, at: nat)
    requires IsOp(codes, op) && (op.Again? ==> before != [])
    requires Spelled(bits, at, OpExtra(codes, op))
    ensures ReadRunAfter(OpSymbol(op), bits, at, before)
         == Got(OpRun(codes, op, before), at + |OpExtra(codes, op)|)
  {
    hide Spelled, ReadBits, Lsb, Repeat, Shl;
    ShlSmall();
    match op
    case Len(_) =>
    case Again(n) => NumberIsRead(bits, at, n - 3, 2);
    case Zeros(n) => NumberIsRead(bits, at, n - 3, 3);
    case ManyZeros(n) => NumberIsRead(bits, at, n - 11, 7);
  }

  lemma OpIsRead(codes: Lengths, op: Op, before: Lengths, bits: seq<bit>, at: nat)
    requires IsOp(codes, op) && (op.Again? ==> before != [])
    requires Spelled(bits, at, OpBits(codes, op))
    ensures Table(Build(codes))
    ensures ReadRun(Build(codes), bits, at, before) == Got(OpRun(codes, op, before), at + |OpBits(codes, op)|)
  {
    hide Decode, Build, CodeBits, Spelled, Table, ReadRunAfter, OpRun, OpExtra;
    var word, extra := CodeBits(codes, OpSymbol(op)), OpExtra(codes, op);
    SpelledParts(bits, at, word, extra);
    CodeIsRead(codes, bits, at, OpSymbol(op));
    RunIsRead(codes, op, before, bits, at + |word|);
  }

  predicate AreOps(codes: Lengths, ops: seq<Op>) {
    forall i :: 0 <= i < |ops| ==> IsOp(codes, ops[i])
  }

  function OpsBits(codes: Lengths, ops: seq<Op>): seq<bit>
    requires AreOps(codes, ops)
    decreases |ops|
  {
    if ops == [] then [] else OpBits(codes, ops[0]) + OpsBits(codes, ops[1..])
  }

  /** `ops` after `before` spell out `all`. */
  predicate OpsSpell(codes: Lengths, ops: seq<Op>, before: Lengths, all: Lengths)
    requires AreOps(codes, ops)
    decreases |ops|
  {
    if ops == [] then before == all
    else
      && (ops[0].Again? ==> before != [])
      && OpsSpell(codes, ops[1..], before + OpRun(codes, ops[0], before), all)
  }

  lemma {:induction false} OpsGrow(codes: Lengths, ops: seq<Op>, before: Lengths, all: Lengths)
    requires AreOps(codes, ops) && OpsSpell(codes, ops, before, all)
    ensures |before| + |ops| <= |all|
    decreases |ops|
  {
    if ops != [] {
      OpsGrow(codes, ops[1..], before + OpRun(codes, ops[0], before), all);
    }
  }

  lemma LengthsAfterRun(h: Huffman, bits: seq<bit>, at: nat, total: nat, before: Lengths, run: Lengths, next: nat)
    requires Table(h) && |before| < total && ReadRun(h, bits, at, before) == Got(run, next)
    requires |before| + |run| <= total
    ensures ReadLengths(h, bits, at, total, before) == ReadLengths(h, bits, next, total, before + run)
  {
    hide ReadRun;
  }

  lemma {:induction false} OpsAreRead(
      codes: Lengths, ops: seq<Op>, before: Lengths, all: Lengths, bits: seq<bit>, at: nat)
    requires AreOps(codes, ops) && OpsSpell(codes, ops, before, all)
    requires Spelled(bits, at, OpsBits(codes, ops))
    ensures Table(Build(codes)) && |before| <= |all|
    ensures ReadLengths(Build(codes), bits, at, |all|, before) == Got(all, at + |OpsBits(codes, ops)|)
    decreases |ops|
  {
    hide Build, Spelled, ReadRun, OpBits, OpRun, Table, IsOp;
    BuildIsTable(codes);
    OpsGrow(codes, ops, before, all);
    if ops != [] {
      var word, rest, run := OpBits(codes, ops[0]), OpsBits(codes, ops[1..]), OpRun(codes, ops[0], before);
      SpelledParts(bits, at, word, rest);
      OpIsRead(codes, ops[0], before, bits, at);
      OpsGrow(codes, ops[1..], before + run, all);
      LengthsAfterRun(Build(codes), bits, at, |all|, before, run, at + |word|);
      OpsAreRead(codes, ops[1..], before + run, all, bits, at + |word|);
    }
  }

  // ---- The code-length code ----------------------------------------------------------

  /** The order code-length symbols are sent in: the repeats and zero, then 8 and alternately down and up from it. */
  function Order(i: nat): (x: nat)
    requires i < 19
    ensures x < 19
  {
    if i < 3 then 16 + i
    else if i == 3 then 0
    else if i % 2 == 0 then 6 + i / 2
    else (19 - i) / 2
  }

  /** Where each of them comes in that order. */
  function Place(x: nat): (i: nat)
    requires x < 19
    ensures i < 19
  {
    if x >= 16 then x - 16
    else if x == 0 then 3
    else if x < 8 then 19 - 2 * x
    else 2 * x - 12
  }

  lemma OrderIsTheDecoders(i: nat)
    requires i < 19
    ensures CODE_LENGTH_ORDER[i] == Order(i)
  {
  }

  lemma PlaceOfOrder(i: nat, x: nat)
    requires i < 19 && x < 19
    ensures Place(x) == i <==> x == Order(i)
  {
  }

  /** The first `i` lengths sent, the others still zero. */
  function Partial(codes: Lengths, i: nat): (p: Lengths)
    requires |codes| == 19
    ensures |p| == 19
  {
    seq(19, x requires 0 <= x < 19 => if Place(x) < i then codes[x] else 0)
  }

  /** Every length fits three bits, and none past the first `n` sent is needed. */
  predicate Sendable(codes: Lengths, n: nat) {
    && |codes| == 19 && n <= 19
    && (forall x :: 0 <= x < 19 ==> codes[x] < 8)
    && (forall x :: 0 <= x < 19 && Place(x) >= n ==> codes[x] == 0)
  }

  function SentBits(codes: Lengths, i: nat, n: nat): seq<bit>
    requires |codes| == 19 && i <= n <= 19
    decreases n - i
  {
    if i == n then [] else Lsb(codes[Order(i)], 3) + SentBits(codes, i + 1, n)
  }

  lemma PartialNext(codes: Lengths, i: nat)
    requires |codes| == 19 && i < 19
    ensures Partial(codes, i)[Order(i) := codes[Order(i)]] == Partial(codes, i + 1)
  {
    var p, q := Partial(codes, i)[Order(i) := codes[Order(i)]], Partial(codes, i + 1);
    forall x | 0 <= x < 19
      ensures p[x] == q[x]
    {
      PlaceOfOrder(i, x);
    }
  }

  lemma {:induction false} SentIsRead(codes: Lengths, i: nat, n: nat, bits: seq<bit>, at: nat)
    requires Sendable(codes, n) && i <= n
    requires Spelled(bits, at, SentBits(codes, i, n))
    ensures ReadCodeLengths(bits, at, i, n, Partial(codes, i)) == Got(codes, at + |SentBits(codes, i, n)|)
    decreases n - i
  {
    hide Spelled, Lsb, Place;
    if i == n {
      assert Partial(codes, n) == codes;
    } else {
      var length := codes[Order(i)];
      SpelledParts(bits, at, Lsb(length, 3), SentBits(codes, i + 1, n));
      ShlSmall();
      NumberIsRead(bits, at, length, 3);
      PartialNext(codes, i);
      OrderIsTheDecoders(i);
      SentIsRead(codes, i + 1, n, bits, at + 3);
    }
  }

  // ---- The whole header ---------------------------------------------------------------

  datatype Header = Header(literals: Lengths, distances: Lengths, codes: Lengths, count: nat, ops: seq<Op>)

  predicate IsHeader(h: Header) {
    && 257 <= |h.literals| < 289 && 1 <= |h.distances| < 33
    && 4 <= h.count < 20 && Sendable(h.codes, h.count)
    && AreOps(h.codes, h.ops) && OpsSpell(h.codes, h.ops, [], h.literals + h.distances)
  }

  function CountsBits(h: Header): seq<bit>
    requires IsHeader(h)
  {
    Lsb(|h.literals| - 257, 5) + Lsb(|h.distances| - 1, 5)
  }

  function CodesBits(h: Header): seq<bit>
    requires IsHeader(h)
  {
    Lsb(h.count - 4, 4) + (SentBits(h.codes, 0, h.count) + OpsBits(h.codes, h.ops))
  }

  function HeaderBits(h: Header): seq<bit>
    requires IsHeader(h)
  {
    CountsBits(h) + CodesBits(h)
  }

  lemma TwoCodesAreRead(h: Header, bits: seq<bit>, at: nat)
    requires IsHeader(h) && Spelled(bits, at, OpsBits(h.codes, h.ops))
    ensures ReadTwoCodes(h.codes, bits, at, |h.literals|, |h.distances|)
         == Got((h.literals, h.distances), at + |OpsBits(h.codes, h.ops)|)
  {
    hide Build, Spelled, ReadLengths, OpsBits, Sendable, AreOps;
    var all := h.literals + h.distances;
    OpsAreRead(h.codes, h.ops, [], all, bits, at);
    assert all[..|h.literals|] == h.literals && all[|h.literals|..] == h.distances;
  }

  lemma CodesAreRead(h: Header, bits: seq<bit>, at: nat)
    requires IsHeader(h) && Spelled(bits, at, CodesBits(h))
    ensures ReadCodesAfterCounts(bits, at, |h.literals|, |h.distances|)
         == Got((h.literals, h.distances), at + |CodesBits(h)|)
  {
    hide Spelled, ReadTwoCodes, OpsBits, SentBits, AreOps, OpsSpell, ReadBits, ReadCodeLengths, Lsb, Place;
    var count, sent, ops := Lsb(h.count - 4, 4), SentBits(h.codes, 0, h.count), OpsBits(h.codes, h.ops);
    SpelledParts(bits, at, count, sent + ops);
    SpelledParts(bits, at + 4, sent, ops);
    ShlSmall();
    NumberIsRead(bits, at, h.count - 4, 4);
    assert Partial(h.codes, 0) == Repeat(0, 19);
    SentIsRead(h.codes, 0, h.count, bits, at + 4);
    TwoCodesAreRead(h, bits, at + 4 + |sent|);
  }

  /** A header read back gives the two codes it was made from. */
  lemma HeaderIsRead(h: Header, bits: seq<bit>, at: nat)
    requires IsHeader(h) && Spelled(bits, at, HeaderBits(h))
    ensures ReadDynamicLengths(bits, at) == Got((h.literals, h.distances), at + |HeaderBits(h)|)
  {
    hide Spelled, ReadCodesAfterCounts, CodesBits, Lsb, ReadBits, Sendable, AreOps, OpsSpell;
    var literals, distances := Lsb(|h.literals| - 257, 5), Lsb(|h.distances| - 1, 5);
    SpelledParts(bits, at, CountsBits(h), CodesBits(h));
    SpelledParts(bits, at, literals, distances);
    ShlSmall();
    NumberIsRead(bits, at, |h.literals| - 257, 5);
    NumberIsRead(bits, at + 5, |h.distances| - 1, 5);
    CodesAreRead(h, bits, at + 10);
  }
}
