/** Canonical Huffman codes (section 3.2.2 of RFC 1951): the tables the decoder
    builds, the bit-at-a-time walk over them, and the codes the walk undoes. */
module Huffman {
  import opened Bits

  const MAX_CODE_BITS := 15

  /** A code length for every symbol; 0 for a symbol that has no code. */
  type Lengths = ls: seq<nat> | forall i :: 0 <= i < |ls| ==> ls[i] <= 15

  datatype Huffman = Huffman(counts: seq<nat>, symbols: seq<nat>)

  /** What a read makes of the bits at hand: a value and the position after it,
      too few bits to tell, or bits that mean nothing. */
  datatype Read<+T> = Got(value: T, at: nat) | Short | Bad {
    predicate IsFailure() { !Got? }

    function PropagateFailure<U>(): Read<U>
      requires IsFailure()
    {
      if Short? then Short else Bad
    }

    function Extract(): (T, nat)
      requires Got?
    {
      (value, at)
    }
  }

  // ---- The canonical code ------------------------------------------------

  /** How many of the first `n` symbols have length `l`. */
  function CountBefore(ls: Lengths, l: nat, n: nat): (c: nat)
    requires n <= |ls|
    ensures c <= n
  {
    if n == 0 then 0 else CountBefore(ls, l, n - 1) + if ls[n - 1] == l then 1 else 0
  }

  function Count(ls: Lengths, l: nat): nat {
    CountBefore(ls, l, |ls|)
  }

  /** How many symbols have a code shorter than `l`. */
  function Base(ls: Lengths, l: nat): nat {
    if l <= 1 then 0 else Base(ls, l - 1) + Count(ls, l - 1)
  }

  /** The smallest code of length `l`. */
  function First(ls: Lengths, l: nat): nat {
    if l <= 1 then 0 else Twice(First(ls, l - 1) + Count(ls, l - 1))
  }

  /** A symbol's place among the symbols of its own length. */
  function Rank(ls: Lengths, s: nat): nat
    requires s < |ls|
  {
    CountBefore(ls, ls[s], s)
  }

  function Code(ls: Lengths, s: nat): nat
    requires s < |ls|
  {
    First(ls, ls[s]) + Rank(ls, s)
  }

  /** The symbol of length `l` and rank `r` among the first `n`. */
  function Nth(ls: Lengths, l: nat, r: nat, n: nat): (s: nat)
    requires n <= |ls| && r < CountBefore(ls, l, n)
    ensures s < n && ls[s] == l && CountBefore(ls, l, s) == r
  {
    if ls[n - 1] == l && CountBefore(ls, l, n - 1) == r then n - 1 else Nth(ls, l, r, n - 1)
  }

  lemma {:induction false} CountGrows(ls: Lengths, l: nat, m: nat, n: nat)
    requires m <= n <= |ls|
    ensures CountBefore(ls, l, m) <= CountBefore(ls, l, n)
    ensures m < n && ls[m] == l ==> CountBefore(ls, l, m) < CountBefore(ls, l, n)
    decreases n
  {
    if m < n {
      CountGrows(ls, l, m, n - 1);
    }
  }

  lemma NthOfRank(ls: Lengths, s: nat)
    requires s < |ls|
    ensures Rank(ls, s) < Count(ls, ls[s])
    ensures Nth(ls, ls[s], Rank(ls, s), |ls|) == s
  {
    CountGrows(ls, ls[s], s, |ls|);
    var t := Nth(ls, ls[s], Rank(ls, s), |ls|);
    if t < s {
      CountGrows(ls, ls[s], t, s);
    } else if s < t {
      CountGrows(ls, ls[s], s, t);
    }
  }

  // ---- What makes it canonical --------------------------------------------------------

  /** Shorter codes come first, and those of one length in the order of their symbols. */
  predicate Precedes(ls: Lengths, s: nat, t: nat)
    requires s < |ls| && t < |ls|
  {
    0 < ls[s] && 0 < ls[t] && (ls[s] < ls[t] || (ls[s] == ls[t] && s < t))
  }

  /** No symbol from `from` on, before `n`, has length `l`. */
  lemma {:induction false} CountStays(ls: Lengths, l: nat, from: nat, n: nat)
    requires from <= n <= |ls| && forall i :: from <= i < n ==> ls[i] != l
    ensures CountBefore(ls, l, n) == CountBefore(ls, l, from)
    decreases n
  {
    if from < n {
      CountStays(ls, l, from, n - 1);
    }
  }

  lemma {:induction false} FirstOfNone(ls: Lengths, l: nat, m: nat)
    requires 1 <= l <= m && forall k :: l < k < m ==> Count(ls, k) == 0
    ensures l < m ==> First(ls, m) == Shl(First(ls, l) + Count(ls, l), m - l)
    ensures First(ls, l) == 0 && Count(ls, l) == 0 ==> First(ls, m) == 0
    decreases m
  {
    hide CountBefore;
    if l < m {
      FirstOfNone(ls, l, m - 1);
      ShlZero(m - l);
      if l < m - 1 {
        assert Count(ls, m - 1) == 0;
        assert m - l == (m - 1 - l) + 1;
      }
    }
  }

  /** The first of all codes is all zeros. */
  lemma FirstCode(ls: Lengths, s: nat)
    requires s < |ls| && ls[s] > 0 && forall r :: 0 <= r < |ls| ==> !Precedes(ls, r, s)
    ensures Code(ls, s) == 0
  {
    forall k | 1 <= k < ls[s]
      ensures Count(ls, k) == 0
    {
      forall i | 0 <= i < |ls|
        ensures ls[i] != k
      {
        assert !Precedes(ls, i, s);
      }
      CountStays(ls, k, 0, |ls|);
    }
    forall i | 0 <= i < s
      ensures ls[i] != ls[s]
    {
      assert !Precedes(ls, i, s);
    }
    CountStays(ls, ls[s], 0, s);
    FirstOfNone(ls, 1, ls[s]);
  }

  /** And each next code is one more than the one before, with as many zeros behind as it is longer. */
  lemma NextCode(ls: Lengths, s: nat, t: nat)
    requires s < |ls| && t < |ls| && Precedes(ls, s, t)
    requires forall r :: 0 <= r < |ls| ==> !(Precedes(ls, s, r) && Precedes(ls, r, t))
    ensures Code(ls, t) == Shl(Code(ls, s) + 1, ls[t] - ls[s])
  {
    var l, m := ls[s], ls[t];
    forall i | 0 <= i < |ls|
      ensures l < ls[i] ==> m <= ls[i]
      ensures l < m && s < i ==> ls[i] != l
      ensures l < m && i < t ==> ls[i] != m
      ensures l == m && s < i < t ==> ls[i] != l
    {
      assert !(Precedes(ls, s, i) && Precedes(ls, i, t));
    }
    if l == m {
      CountStays(ls, l, s + 1, t);
    } else {
      CountStays(ls, l, s + 1, |ls|);
      CountStays(ls, m, 0, t);
      forall k | l < k < m
        ensures Count(ls, k) == 0
      {
        CountStays(ls, k, 0, |ls|);
      }
      FirstOfNone(ls, l, m);
    }
  }

  // ---- Where symbols go ---------------------------------------------------------------

  lemma {:induction false} BaseGrows(ls: Lengths, l: nat, m: nat)
    requires 1 <= l <= m
    ensures Base(ls, l) <= Base(ls, m)
    ensures l < m ==> Base(ls, l) + Count(ls, l) <= Base(ls, m)
    decreases m
  {
    if l < m {
      BaseGrows(ls, l, m - 1);
    }
  }

  /** `Base` over the first `n` symbols only. */
  function BaseBefore(ls: Lengths, l: nat, n: nat): nat
    requires n <= |ls|
  {
    if l <= 1 then 0 else BaseBefore(ls, l - 1, n) + CountBefore(ls, l - 1, n)
  }

  lemma {:induction false} BaseBeforeStep(ls: Lengths, l: nat, n: nat)
    requires 0 < n <= |ls|
    ensures BaseBefore(ls, l, n) == BaseBefore(ls, l, n - 1) + if 1 <= ls[n - 1] < l then 1 else 0
  {
    if l > 1 {
      BaseBeforeStep(ls, l - 1, n);
    }
  }

  lemma {:induction false} BaseBeforeBound(ls: Lengths, l: nat, n: nat)
    requires n <= |ls|
    ensures BaseBefore(ls, l, n) <= n
    decreases n
  {
    if n == 0 {
      BaseOfNothing(ls, l);
    } else {
      BaseBeforeStep(ls, l, n);
      BaseBeforeBound(ls, l, n - 1);
    }
  }

  lemma {:induction false} BaseOfNothing(ls: Lengths, l: nat)
    ensures BaseBefore(ls, l, 0) == 0
  {
    if l > 1 {
      BaseOfNothing(ls, l - 1);
    }
  }

  lemma {:induction false} BaseIsBefore(ls: Lengths, l: nat)
    ensures Base(ls, l) == BaseBefore(ls, l, |ls|)
  {
    if l > 1 {
      BaseIsBefore(ls, l - 1);
    }
  }

  /** No more symbols have codes than there are symbols. */
  lemma BaseBound(ls: Lengths, l: nat)
    ensures Base(ls, l) <= |ls|
  {
    BaseIsBefore(ls, l);
    BaseBeforeBound(ls, l, |ls|);
  }

  // ---- The tables ---------------------------------------------------------

  /** The symbol that position `i` of the table holds, looking from length `l`
      up; positions past the last code stay zero. */
  function SymbolAt(ls: Lengths, i: nat, l: nat): nat
    requires 1 <= l <= 16 && Base(ls, l) <= i
    decreases |ls|, 16 - l
  {
    if l == 16 then 0
    else if i < Base(ls, l + 1) then Nth(ls, l, i - Base(ls, l), |ls|)
    else SymbolAt(ls, i, l + 1)
  }

  function Build(ls: Lengths): Huffman {
    Huffman(seq(16, l requires 0 <= l => if l == 0 then 0 else Count(ls, l)),
            seq(|ls|, i requires 0 <= i => SymbolAt(ls, i, 1)))
  }

  lemma {:induction false} SymbolAtCode(ls: Lengths, l: nat, r: nat, from: nat)
    requires 1 <= from <= l <= 15 && r < Count(ls, l)
    ensures Base(ls, from) <= Base(ls, l)
    ensures SymbolAt(ls, Base(ls, l) + r, from) == Nth(ls, l, r, |ls|)
    decreases l - from
  {
    BaseGrows(ls, from, l);
    if from < l {
      BaseGrows(ls, from + 1, l);
      SymbolAtCode(ls, l, r, from + 1);
    }
  }

  lemma {:induction false} SymbolAtPast(ls: Lengths, i: nat, from: nat)
    requires 1 <= from <= 16 && Base(ls, 16) <= i
    ensures Base(ls, from) <= i && SymbolAt(ls, i, from) == 0
    decreases 16 - from
  {
    BaseGrows(ls, from, 16);
    if from < 16 {
      BaseGrows(ls, from + 1, 16);
      SymbolAtPast(ls, i, from + 1);
    }
  }

  /** Every coded symbol sits at its code's position in the table. */
  lemma SymbolOfCode(ls: Lengths, l: nat, r: nat)
    requires 1 <= l <= 15 && r < Count(ls, l)
    ensures Base(ls, l) + r < |ls|
    ensures Build(ls).symbols[Base(ls, l) + r] == Nth(ls, l, r, |ls|)
  {
    SymbolAtCode(ls, l, r, 1);
    BaseBound(ls, l + 1);
  }

  /** Positions of different codes never collide: the counting sort below
      writes each one once. */
  lemma PositionInRange(ls: Lengths, s: nat)
    requires s < |ls| && ls[s] > 0
    ensures Base(ls, ls[s]) + Rank(ls, s) < Base(ls, 16) <= |ls|
  {
    NthOfRank(ls, s);
    BaseGrows(ls, ls[s], 16);
    BaseBound(ls, 16);
  }

  lemma PositionsDiffer(ls: Lengths, s: nat, t: nat)
    requires s < t < |ls| && ls[s] > 0 && ls[t] > 0
    ensures Base(ls, ls[s]) + Rank(ls, s) != Base(ls, ls[t]) + Rank(ls, t)
  {
    NthOfRank(ls, s);
    NthOfRank(ls, t);
    if ls[s] == ls[t] {
      CountGrows(ls, ls[s], s, t);
    } else if ls[s] < ls[t] {
      BaseGrows(ls, ls[s], ls[t]);
    } else {
      BaseGrows(ls, ls[t], ls[s]);
    }
  }

  /** Whatever the tables say at the codes' own positions fixes all of them. */
  lemma {:induction false} SymbolsAreBuilt(ls: Lengths, symbols: seq<nat>, i: nat, l: nat)
    requires |symbols| == |ls| && i < |ls| && 1 <= l <= 16 && Base(ls, l) <= i
    requires forall s :: 0 <= s < |ls| && ls[s] > 0 ==>
               Base(ls, ls[s]) + Rank(ls, s) < |ls| && symbols[Base(ls, ls[s]) + Rank(ls, s)] == s
    requires forall j :: Base(ls, 16) <= j < |ls| ==> symbols[j] == 0
    ensures symbols[i] == SymbolAt(ls, i, l)
    decreases 16 - l
  {
    if l < 16 {
      if i < Base(ls, l + 1) {
        var s := Nth(ls, l, i - Base(ls, l), |ls|);
        assert Rank(ls, s) == i - Base(ls, l);
      } else {
        SymbolsAreBuilt(ls, symbols, i, l + 1);
      }
    }
  }

  /** How many symbols there are of each length; none is counted as coded by 0 bits. */
  method CountLengths(lengths: Lengths) returns (counts: array<nat>)
    ensures fresh(counts) && counts.Length == 16 && counts[0] == 0
    ensures forall l :: 1 <= l < 16 ==> counts[l] == Count(lengths, l)
  {
    counts := new nat[MAX_CODE_BITS + 1](_ => 0);
    for i := 0 to |lengths|
      invariant forall l :: 0 <= l < 16 ==> counts[l] == CountBefore(lengths, l, i)
    {
      counts[lengths[i]] := counts[lengths[i]] + 1;
    }
    counts[0] := 0;
  }

  /** Where the symbols of each length begin in the table. */
  method StartOffsets(lengths: Lengths, counts: array<nat>) returns (offsets: array<nat>)
    requires counts.Length == 16
    requires forall l :: 1 <= l < 16 ==> counts[l] == Count(lengths, l)
    ensures fresh(offsets) && offsets.Length == 17
    ensures forall l :: 1 <= l <= 16 ==> offsets[l] == Base(lengths, l)
  {
    offsets := new nat[MAX_CODE_BITS + 2](_ => 0);
    for length := 1 to MAX_CODE_BITS + 1
      invariant forall l :: 1 <= l <= length ==> offsets[l] == Base(lengths, l)
    {
      offsets[length + 1] := offsets[length] + counts[length];
    }
  }

  predicate Placed(ls: Lengths, symbols: seq<nat>, n: nat)
    requires n <= |ls| == |symbols|
  {
    && (forall s :: 0 <= s < n && ls[s] > 0 ==>
          Base(ls, ls[s]) + Rank(ls, s) < |ls| && symbols[Base(ls, ls[s]) + Rank(ls, s)] == s)
    && (forall j :: Base(ls, 16) <= j < |ls| ==> symbols[j] == 0)
  }

  /** The table after symbol `n` took its position, if it has one. */
  function Place(ls: Lengths, symbols: seq<nat>, n: nat): seq<nat>
    requires n < |ls| == |symbols|
  {
    var at := Base(ls, ls[n]) + Rank(ls, n);
    if ls[n] > 0 && at < |symbols| then symbols[at := n] else symbols
  }

  lemma PlaceNext(ls: Lengths, symbols: seq<nat>, n: nat)
    requires n < |ls| == |symbols| && Placed(ls, symbols, n)
    ensures Placed(ls, Place(ls, symbols, n), n + 1)
  {
    if ls[n] > 0 {
      PositionInRange(ls, n);
      forall s | 0 <= s < n && ls[s] > 0
        ensures Base(ls, ls[s]) + Rank(ls, s) != Base(ls, ls[n]) + Rank(ls, n)
      {
        PositionsDiffer(ls, s, n);
      }
    }
  }

  lemma PlaceIs(ls: Lengths, symbols: seq<nat>, n: nat)
    requires n < |ls| == |symbols|
    ensures ls[n] == 0 ==> Place(ls, symbols, n) == symbols
    ensures var at := Base(ls, ls[n]) + CountBefore(ls, ls[n], n);
      ls[n] > 0 ==> at < |symbols| && Place(ls, symbols, n) == symbols[at := n]
  {
    if ls[n] > 0 {
      PositionInRange(ls, n);
    }
  }

  /** Where the next symbol of each length goes, after the first `n` symbols. */
  predicate NextSlots(ls: Lengths, offsets: seq<nat>, n: nat)
    requires n <= |ls|
  {
    |offsets| == 17 && forall l :: 1 <= l < 16 ==> offsets[l] == Base(ls, l) + CountBefore(ls, l, n)
  }

  lemma SlotsNext(ls: Lengths, offsets: seq<nat>, n: nat)
    requires n < |ls| && NextSlots(ls, offsets, n)
    ensures ls[n] > 0 ==> NextSlots(ls, offsets[ls[n] := offsets[ls[n]] + 1], n + 1)
    ensures ls[n] == 0 ==> NextSlots(ls, offsets, n + 1)
    ensures ls[n] > 0 ==> offsets[ls[n]] == Base(ls, ls[n]) + CountBefore(ls, ls[n], n)
  {
    hide Base;
  }

  /** The counting sort's last pass: every coded symbol into its length's next slot. */
  method PlaceSymbols(lengths: Lengths, offsets: array<nat>) returns (symbols: array<nat>)
    requires offsets.Length == 17
    requires forall l :: 1 <= l < 16 ==> offsets[l] == Base(lengths, l)
    modifies offsets
    ensures fresh(symbols) && symbols.Length == |lengths|
    ensures Placed(lengths, symbols[..], |lengths|)
  {
    symbols := new nat[|lengths|](_ => 0);
    for symbol := 0 to |lengths|
      invariant NextSlots(lengths, offsets[..], symbol)
      invariant Placed(lengths, symbols[..], symbol)
    {
      hide Placed, NextSlots, Base, CountBefore, Rank, Place;
      var length := lengths[symbol];
      ghost var slots, before := offsets[..], symbols[..];
      PlaceNext(lengths, before, symbol);
      PlaceIs(lengths, before, symbol);
      SlotsNext(lengths, slots, symbol);
      if length > 0 {
        symbols[offsets[length]] := symbol;
        offsets[length] := offsets[length] + 1;
        assert offsets[..] == slots[length := slots[length] + 1];
      }
      assert symbols[..] == Place(lengths, before, symbol);
    }
  }

  method BuildHuffman(lengths: Lengths) returns (h: Huffman)
    ensures h == Build(lengths)
  {
    var counts := CountLengths(lengths);
    var offsets := StartOffsets(lengths, counts);
    var symbols := PlaceSymbols(lengths, offsets);
    h := Huffman(counts[..], symbols[..]);
    TablesAreBuilt(lengths, h);
  }

  lemma TablesAreBuilt(ls: Lengths, h: Huffman)
    requires |h.counts| == 16 && h.counts[0] == 0 && forall l :: 1 <= l < 16 ==> h.counts[l] == Count(ls, l)
    requires |h.symbols| == |ls| && Placed(ls, h.symbols, |ls|)
    ensures h == Build(ls)
  {
    forall i | 0 <= i < |ls|
      ensures h.symbols[i] == Build(ls).symbols[i]
    {
      SymbolsAreBuilt(ls, h.symbols, i, 1);
    }
    assert h.counts == Build(ls).counts;
    assert h.symbols == Build(ls).symbols;
  }

  // ---- Decoding -------------------------------------------------------------

  /** Positions in the symbol table used by codes shorter than `l`. */
  function Offset(counts: seq<nat>, l: nat): nat
    requires l <= |counts|
  {
    if l <= 1 then 0 else Offset(counts, l - 1) + counts[l - 1]
  }

  /** What the decoder needs of a table never to read past its symbols. */
  predicate Table(h: Huffman) {
    |h.counts| == 16 && Offset(h.counts, 16) <= |h.symbols|
  }

  lemma {:induction false} OffsetGrows(counts: seq<nat>, l: nat, m: nat)
    requires 1 <= l <= m <= |counts|
    ensures Offset(counts, l) <= Offset(counts, m)
    decreases m
  {
    if l < m {
      OffsetGrows(counts, l, m - 1);
    }
  }

  lemma {:induction false} OffsetIsBase(ls: Lengths, l: nat)
    requires l <= 16
    ensures Offset(Build(ls).counts, l) == Base(ls, l)
  {
    if l > 1 {
      OffsetIsBase(ls, l - 1);
    }
  }

  /** Whatever lengths arrive, over-subscribed ones included, the decoder stays
      inside the table built from them. */
  lemma BuildIsTable(ls: Lengths)
    ensures Table(Build(ls))
  {
    OffsetIsBase(ls, 16);
    BaseBound(ls, 16);
  }

  /** What the tables say about the code they were built from. */
  predicate TableOf(ls: Lengths, h: Huffman) {
    && Table(h)
    && (forall l :: 1 <= l <= 15 ==> h.counts[l] == Count(ls, l))
    && (forall s :: 0 <= s < |ls| && ls[s] > 0 ==>
          Base(ls, ls[s]) + Rank(ls, s) < |h.symbols| && h.symbols[Base(ls, ls[s]) + Rank(ls, s)] == s)
  }

  lemma BuildIsTableOf(ls: Lengths)
    ensures TableOf(ls, Build(ls))
  {
    BuildIsTable(ls);
    forall s | 0 <= s < |ls| && ls[s] > 0
      ensures Base(ls, ls[s]) + Rank(ls, s) < |ls|
      ensures Build(ls).symbols[Base(ls, ls[s]) + Rank(ls, s)] == s
    {
      NthOfRank(ls, s);
      SymbolOfCode(ls, ls[s], Rank(ls, s));
    }
  }

  function ReadBits(bits: seq<bit>, at: nat, count: nat): Read<nat> {
    if count == 0 then Got(0, at)
    else if at + count <= |bits| then Got(BitsAt(bits, at, count), at + count)
    else Short
  }

  function DecodeFrom(h: Huffman, bits: seq<bit>, at: nat, length: nat, code: nat, first: nat, index: nat): Read<nat>
    requires Table(h) && 1 <= length <= 16
    requires first <= code && index == Offset(h.counts, length)
    decreases |h.counts| - length
  {
    if length > MAX_CODE_BITS then Bad
    else if at >= |bits| then Short
    else
      var read := code + bits[at];
      var count := h.counts[length];
      if read - first < count then
        OffsetGrows(h.counts, length + 1, 16);
        Got(h.symbols[index + (read - first)], at + 1)
      else
        DecodeFrom(h, bits, at + 1, length + 1, Twice(read), Twice(first + count), index + count)
  }

  function Decode(h: Huffman, bits: seq<bit>, at: nat): Read<nat>
    requires Table(h)
  {
    DecodeFrom(h, bits, at, 1, 0, 0, 0)
  }

  /** The bits from `at` spell the canonical code of symbol `s`. */
  predicate Spells(ls: Lengths, bits: seq<bit>, at: nat, s: nat) {
    && s < |ls| && ls[s] > 0
    && at + ls[s] <= |bits|
    && CodeAt(bits, at, ls[s]) == Code(ls, s)
  }

  /** A prefix of a code is never itself a code: it is past every code of its length. */
  lemma {:induction false} PrefixIsPastCodes(ls: Lengths, bits: seq<bit>, at: nat, l: nat, m: nat)
    requires 1 <= m < l && at + l <= |bits|
    requires CodeAt(bits, at, l) >= First(ls, l)
    ensures CodeAt(bits, at, m) >= First(ls, m) + Count(ls, m)
    decreases l
  {
    assert CodeAt(bits, at, l - 1) >= First(ls, l - 1) + Count(ls, l - 1);
    if m < l - 1 {
      PrefixIsPastCodes(ls, bits, at, l - 1, m);
    }
  }

  lemma ReadOneBit(bits: seq<bit>, at: nat)
    ensures ReadBits(bits, at, 1) == if at < |bits| then Got(bits[at], at + 1) else Short
  {
    if at < |bits| {
      assert BitsAt(bits, at, 1) == bits[at] + 2 * BitsAt(bits, at + 1, 0);
    }
  }

  lemma DecodeHit(h: Huffman, bits: seq<bit>, at: nat, length: nat, code: nat, first: nat, index: nat, r: nat)
    requires Table(h) && 1 <= length <= 15 && at < |bits|
    requires first <= code && index == Offset(h.counts, length)
    requires r == code + bits[at] - first < h.counts[length]
    ensures index + r < |h.symbols|
    ensures DecodeFrom(h, bits, at, length, code, first, index) == Got(h.symbols[index + r], at + 1)
  {
    OffsetGrows(h.counts, length + 1, 16);
  }

  lemma DecodeMiss(
      h: Huffman, bits: seq<bit>, at: nat, length: nat, code: nat, first: nat, index: nat, read: nat, count: nat)
    requires Table(h) && 1 <= length <= 15 && at < |bits|
    requires first <= code && index == Offset(h.counts, length)
    requires read == code + bits[at] && count == h.counts[length] && read - first >= count
    ensures DecodeFrom(h, bits, at, length, code, first, index)
         == DecodeFrom(h, bits, at + 1, length + 1, Twice(read), Twice(first + count), index + count)
  {
  }

  /** The walk over `h` stands after `l - 1` bits from `at`, past every shorter code. */
  predicate Walked(ls: Lengths, h: Huffman, bits: seq<bit>, at: nat, l: nat, code: nat, first: nat, index: nat) {
    && Table(h) && 1 <= l <= 16 && at + l - 1 <= |bits|
    && index == Base(ls, l) == Offset(h.counts, l)
    && first == First(ls, l) <= code == Twice(CodeAt(bits, at, l - 1))
  }

  lemma WalkedOn(
      ls: Lengths, h: Huffman, bits: seq<bit>, at: nat, l: nat, code: nat, first: nat, index: nat, read: nat,
      count: nat)
    requires TableOf(ls, h) && Walked(ls, h, bits, at, l, code, first, index) && l <= 15 && at + l <= |bits|
    requires read == code + bits[at + l - 1] && count == Count(ls, l)
    ensures CodeAt(bits, at, l) == read && h.counts[l] == count
    ensures read - first >= count ==>
              Walked(ls, h, bits, at, l + 1, Twice(read), Twice(first + count), index + count)
  {
  }

  lemma DecodeFindsHere(
      ls: Lengths, h: Huffman, bits: seq<bit>, at: nat, l: nat, code: nat, first: nat, index: nat, s: nat)
    requires TableOf(ls, h) && Walked(ls, h, bits, at, l, code, first, index)
    requires Spells(ls, bits, at, s) && l == ls[s]
    ensures DecodeFrom(h, bits, at + l - 1, l, code, first, index) == Got(s, at + l)
  {
    WalkedOn(ls, h, bits, at, l, code, first, index, CodeAt(bits, at, l), Count(ls, l));
    NthOfRank(ls, s);
    DecodeHit(h, bits, at + l - 1, l, code, first, index, Rank(ls, s));
  }

  lemma {:induction false} DecodeFinds(
      ls: Lengths, h: Huffman, bits: seq<bit>, at: nat, l: nat, code: nat, first: nat, index: nat, s: nat)
    requires TableOf(ls, h) && Walked(ls, h, bits, at, l, code, first, index)
    requires Spells(ls, bits, at, s) && l <= ls[s]
    ensures DecodeFrom(h, bits, at + l - 1, l, code, first, index) == Got(s, at + ls[s])
    decreases ls[s] - l
  {
    if l == ls[s] {
      DecodeFindsHere(ls, h, bits, at, l, code, first, index, s);
    } else {
      var read: nat, count := code + bits[at + l - 1], Count(ls, l);
      WalkedOn(ls, h, bits, at, l, code, first, index, read, count);
      PrefixIsPastCodes(ls, bits, at, ls[s], l);
      DecodeMiss(h, bits, at + l - 1, l, code, first, index, read, count);
      DecodeFinds(ls, h, bits, at, l + 1, Twice(read), Twice(first + count), index + count, s);
    }
  }

  lemma DecodeSoundHere(
      ls: Lengths, h: Huffman, bits: seq<bit>, at: nat, l: nat, code: nat, first: nat, index: nat)
    requires TableOf(ls, h) && Walked(ls, h, bits, at, l, code, first, index) && l <= 15 && at + l <= |bits|
    requires code + bits[at + l - 1] - first < Count(ls, l)
    ensures var r := DecodeFrom(h, bits, at + l - 1, l, code, first, index);
            r.Got? && Spells(ls, bits, at, r.value) && r.at == at + ls[r.value]
  {
    var read: nat, count := code + bits[at + l - 1], Count(ls, l);
    WalkedOn(ls, h, bits, at, l, code, first, index, read, count);
    var s := Nth(ls, l, read - first, |ls|);
    assert Rank(ls, s) == read - first;
    DecodeHit(h, bits, at + l - 1, l, code, first, index, read - first);
  }

  lemma {:induction false} DecodeSound(
      ls: Lengths, h: Huffman, bits: seq<bit>, at: nat, l: nat, code: nat, first: nat, index: nat)
    requires TableOf(ls, h) && Walked(ls, h, bits, at, l, code, first, index)
    ensures var r := DecodeFrom(h, bits, at + l - 1, l, code, first, index);
            r.Got? ==> Spells(ls, bits, at, r.value) && r.at == at + ls[r.value]
    decreases 16 - l
  {
    if l <= 15 && at + l <= |bits| {
      var read: nat, count := code + bits[at + l - 1], Count(ls, l);
      WalkedOn(ls, h, bits, at, l, code, first, index, read, count);
      if read - first < count {
        DecodeSoundHere(ls, h, bits, at, l, code, first, index);
      } else {
        DecodeMiss(h, bits, at + l - 1, l, code, first, index, read, count);
        DecodeSound(ls, h, bits, at, l + 1, Twice(read), Twice(first + count), index + count);
      }
    }
  }

  /** The walk over the tables answers `s` exactly when the input spells the
      canonical code of `s`, and consumes exactly that code. */
  lemma DecodeIsCanonical(ls: Lengths, bits: seq<bit>, at: nat, s: nat, next: nat)
    requires at <= |bits|
    ensures Table(Build(ls))
    ensures Decode(Build(ls), bits, at) == Got(s, next) <==> Spells(ls, bits, at, s) && next == at + ls[s]
  {
    BuildIsTableOf(ls);
    DecodeWalks(ls, Build(ls), bits, at, s, next);
  }

  lemma DecodeWalks(ls: Lengths, h: Huffman, bits: seq<bit>, at: nat, s: nat, next: nat)
    requires at <= |bits| && TableOf(ls, h)
    ensures Decode(h, bits, at) == Got(s, next) <==> Spells(ls, bits, at, s) && next == at + ls[s]
  {
    assert Walked(ls, h, bits, at, 1, 0, 0, 0);
    DecodeSound(ls, h, bits, at, 1, 0, 0, 0);
    if Spells(ls, bits, at, s) {
      DecodeFinds(ls, h, bits, at, 1, 0, 0, 0, s);
    }
  }

  // ---- Which lengths describe a code ---------------------------------------

  /** The share of all `n`-bit strings taken by the codes of length at most `l`. */
  function Kraft(ls: Lengths, l: nat, n: nat): nat
    requires l <= n
  {
    if l == 0 then 0 else Kraft(ls, l - 1, n) + Shl(Count(ls, l), n - l)
  }

  lemma {:induction false} KraftIsFirst(ls: Lengths, l: nat, n: nat)
    requires 1 <= l <= n
    ensures Kraft(ls, l, n) == Shl(First(ls, l) + Count(ls, l), n - l)
  {
    hide CountBefore;
    ShlSum(First(ls, l), Count(ls, l), n - l);
    if l > 1 {
      KraftIsFirst(ls, l - 1, n);
      var x := First(ls, l - 1) + Count(ls, l - 1);
      ShlAdd(x, 1, n - l);
      assert Shl(x, 1) == x + x;
    } else {
      ShlZero(n - l);
      assert Kraft(ls, 0, n) == 0;
    }
  }

  lemma {:induction false} KraftGrows(ls: Lengths, l: nat, m: nat, n: nat)
    requires l <= m <= n
    ensures Kraft(ls, l, n) <= Kraft(ls, m, n)
    decreases m
  {
    if l < m {
      KraftGrows(ls, l, m - 1, n);
    }
  }

  /** No code runs past its own length. */
  predicate CodesFit(ls: Lengths) {
    forall s :: 0 <= s < |ls| && ls[s] > 0 ==> Code(ls, s) < Shl(1, ls[s])
  }

  lemma FitsBelowKraft(ls: Lengths, l: nat, n: nat)
    requires 1 <= l <= n
    ensures First(ls, l) + Count(ls, l) <= Shl(1, l) <==> Kraft(ls, l, n) <= Shl(1, n)
  {
    hide First, CountBefore, Kraft;
    var x, top := First(ls, l) + Count(ls, l), Shl(1, l);
    assert Kraft(ls, l, n) == Shl(x, n - l) by { KraftIsFirst(ls, l, n); }
    assert Shl(1, n) == Shl(top, n - l) by { ShlAdd(1, l, n - l); }
    ShlOrder(x, top, n - l);
  }

  lemma {:induction false} FittingCodesKeepKraft(ls: Lengths, l: nat, n: nat)
    requires CodesFit(ls) && l <= n
    ensures Kraft(ls, l, n) <= Shl(1, n)
  {
    if l > 0 {
      if Count(ls, l) == 0 {
        FittingCodesKeepKraft(ls, l - 1, n);
        ShlZero(n - l);
      } else {
        var s := Nth(ls, l, Count(ls, l) - 1, |ls|);
        assert Code(ls, s) == First(ls, l) + Count(ls, l) - 1;
        FitsBelowKraft(ls, l, n);
      }
    }
  }

  /** The Kraft inequality is exactly what lets every symbol be encoded. */
  lemma KraftIffCodesFit(ls: Lengths, n: nat)
    requires n >= MAX_CODE_BITS
    ensures Kraft(ls, n, n) <= Shl(1, n) <==> CodesFit(ls)
  {
    if Kraft(ls, n, n) <= Shl(1, n) {
      forall s | 0 <= s < |ls| && ls[s] > 0
        ensures Code(ls, s) < Shl(1, ls[s])
      {
        KraftGrows(ls, ls[s], n, n);
        FitsBelowKraft(ls, ls[s], n);
        NthOfRank(ls, s);
      }
    }
    if CodesFit(ls) {
      FittingCodesKeepKraft(ls, n, n);
    }
  }

  // ---- The same read through another buffer ---------------------------------

  /** A read repeated after `k` bits were dropped and possibly more arrived:
      the same value, or still too short if nothing arrived. */
  predicate Moved<T(==)>(r: Read<T>, k: nat, more: bool, later: Read<T>) {
    match r
    case Got(v, at) => k <= at && later == Got(v, at - k)
    case Bad => later == Bad
    case Short => more || later == Short
  }

  predicate More(bits: seq<bit>, k: nat, later: seq<bit>)
    requires Window(bits, k, later)
  {
    |later| > |bits| - k
  }

  lemma ReadBitsMoves(bits: seq<bit>, at: nat, count: nat, k: nat, later: seq<bit>)
    requires Window(bits, k, later) && k <= at
    ensures Moved(ReadBits(bits, at, count), k, More(bits, k, later), ReadBits(later, at - k, count))
  {
    if at + count <= |bits| {
      BitsAtMoves(bits, at, count, k, later);
    }
  }

  lemma {:induction false} DecodeFromMoves(
      h: Huffman, bits: seq<bit>, at: nat, length: nat, code: nat, first: nat, index: nat, k: nat, later: seq<bit>)
    requires Table(h) && 1 <= length <= 16
    requires first <= code && index == Offset(h.counts, length)
    requires Window(bits, k, later) && k <= at
    ensures Moved(DecodeFrom(h, bits, at, length, code, first, index), k, More(bits, k, later),
                  DecodeFrom(h, later, at - k, length, code, first, index))
    decreases 16 - length
  {
    if length <= 15 {
      if at < |bits| && code + bits[at] - first >= h.counts[length] {
        var read: nat, count := code + bits[at], h.counts[length];
        assert later[at - k] == bits[k..][at - k];
        DecodeFromMoves(h, bits, at + 1, length + 1, Twice(read), Twice(first + count), index + count, k, later);
      }
    }
  }
}
