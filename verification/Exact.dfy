/** The decoder asks for no more than it needs: whatever waited at the end of its input
    goes on to read past it, so a stream is over as soon as its last byte is there. */
module Exact {
  import opened Bits
  import opened Huffman
  import opened Inflate
  import Chunks

  /** A read that came up short, and that succeeds with more input, takes some of it. */
  predicate Needs<T>(r: Read<T>, later: Read<T>, n: nat) {
    r.Short? && later.Got? ==> later.at > n
  }

  predicate Cut(bits: seq<bit>, later: seq<bit>) {
    Window(bits, 0, later)
  }

  lemma PairNeeds(bits: seq<bit>, later: seq<bit>, at: nat, m: nat, n: nat)
    requires Cut(bits, later)
    ensures Needs(ReadPair(bits, at, m, n), ReadPair(later, at, m, n), |bits|)
  {
    hide BitsAt;
    Chunks.ReadPairMoves(bits, at, m, n, 0, later);
    ReadBitsMoves(bits, at, m, 0, later);
  }

  lemma StoredLengthNeeds(bits: seq<bit>, later: seq<bit>, at: nat)
    requires Cut(bits, later)
    ensures Needs(ReadStoredLength(bits, at), ReadStoredLength(later, at), |bits|)
  {
    hide ReadPair, Align;
    PairNeeds(bits, later, Align(at), 16, 16);
    Chunks.ReadPairMoves(bits, Align(at), 16, 16, 0, later);
  }

  lemma ChecksumNeeds(bits: seq<bit>, later: seq<bit>, at: nat)
    requires Cut(bits, later)
    ensures Needs(ReadChecksum(bits, at), ReadChecksum(later, at), |bits|)
  {
    hide Align, BitsAt;
    var start := Align(at);
    PairNeeds(bits, later, start, 8, 8);
    Chunks.ReadPairMoves(bits, start, 8, 8, 0, later);
    var r := ReadPair(bits, start, 8, 8);
    if r.Got? {
      PairNeeds(bits, later, r.at, 8, 8);
    }
  }

  lemma {:induction false} DecodeNeeds(
      h: Huffman, bits: seq<bit>, later: seq<bit>, at: nat, length: nat, code: nat, first: nat, index: nat)
    requires Table(h) && 1 <= length <= 16 && first <= code && index == Offset(h.counts, length)
    requires Cut(bits, later) && at <= |bits|
    ensures Needs(DecodeFrom(h, bits, at, length, code, first, index),
                  DecodeFrom(h, later, at, length, code, first, index), |bits|)
    decreases 16 - length
  {
    DecodeWithin(h, later, at, length, code, first, index);
    if length <= 15 && at < |bits| {
      assert later[at] == bits[at];
      var read: nat, count := code + bits[at], h.counts[length];
      if read - first >= count {
        DecodeNeeds(h, bits, later, at + 1, length + 1, Twice(read), Twice(first + count), index + count);
      }
    }
  }

  lemma {:induction false} CodeLengthsNeed(bits: seq<bit>, later: seq<bit>, at: nat, i: nat, n: nat, lengths: Lengths)
    requires n <= 19 == |lengths| && Cut(bits, later) && at <= |bits|
    ensures Needs(ReadCodeLengths(bits, at, i, n, lengths), ReadCodeLengths(later, at, i, n, lengths), |bits|)
    decreases n - i
  {
    hide BitsAt;
    CodeLengthsWithin(later, at, i, n, lengths);
    if i < n {
      ReadBitsMoves(bits, at, 3, 0, later);
      var r, l := ReadBits(bits, at, 3), ReadBits(later, at, 3);
      assert Shl(1, 3) == 8;
      if r.Got? {
        CodeLengthsNeed(bits, later, r.at, i + 1, n, lengths[CODE_LENGTH_ORDER[i] := r.value]);
      } else if l.Got? {
        CodeLengthsWithin(later, l.at, i + 1, n, lengths[CODE_LENGTH_ORDER[i] := l.value]);
      }
    }
  }

  lemma RunNeeds(h: Huffman, bits: seq<bit>, later: seq<bit>, at: nat, before: Lengths)
    requires Table(h) && Cut(bits, later) && at <= |bits|
    ensures Needs(ReadRun(h, bits, at, before), ReadRun(h, later, at, before), |bits|)
    ensures ReadRun(h, later, at, before).Got? ==> at < ReadRun(h, later, at, before).at <= |later|
  {
    hide BitsAt, DecodeFrom;
    Chunks.DecodeMoves(h, bits, at, 0, later);
    DecodeNeeds(h, bits, later, at, 1, 0, 0, 0);
    DecodeWithin(h, later, at, 1, 0, 0, 0);
  }

  lemma {:induction false} LengthsNeed(
      h: Huffman, bits: seq<bit>, later: seq<bit>, at: nat, total: nat, before: Lengths)
    requires Table(h) && |before| <= total && Cut(bits, later) && at <= |bits|
    ensures Needs(ReadLengths(h, bits, at, total, before), ReadLengths(h, later, at, total, before), |bits|)
    decreases total - |before|
  {
    hide ReadRun;
    if |before| < total {
      Chunks.ReadRunMoves(h, bits, at, before, 0, later);
      RunNeeds(h, bits, later, at, before);
      var r, l := ReadRun(h, bits, at, before), ReadRun(h, later, at, before);
      if r.Got? && |before| + |r.value| <= total {
        RunNeeds(h, bits, bits, at, before);
        LengthsNeed(h, bits, later, r.at, total, before + r.value);
      } else if r.Short? && l.Got? && |before| + |l.value| <= total {
        LengthsWithin(h, later, l.at, total, before + l.value);
      }
    }
  }

  lemma TwoCodesNeed(codeLengths: Lengths, bits: seq<bit>, later: seq<bit>, at: nat, literals: nat, distances: nat)
    requires Cut(bits, later) && at <= |bits|
    ensures Needs(ReadTwoCodes(codeLengths, bits, at, literals, distances),
                  ReadTwoCodes(codeLengths, later, at, literals, distances), |bits|)
  {
    hide ReadLengths, Window;
    BuildIsTable(codeLengths);
    LengthsNeed(Build(codeLengths), bits, later, at, literals + distances, []);
    Chunks.LengthsMove(Build(codeLengths), bits, at, literals + distances, [], 0, later);
  }

  lemma CodesAfterCountsNeed(bits: seq<bit>, later: seq<bit>, at: nat, literals: nat, distances: nat)
    requires Cut(bits, later) && at <= |bits|
    ensures Needs(ReadCodesAfterCounts(bits, at, literals, distances),
                  ReadCodesAfterCounts(later, at, literals, distances), |bits|)
  {
    hide ReadCodeLengths, ReadTwoCodes, BitsAt;
    ReadBitsMoves(bits, at, 4, 0, later);
    assert Shl(1, 4) == 16;
    var codes, l := ReadBits(bits, at, 4), ReadBits(later, at, 4);
    if codes.Got? {
      var zeros := Repeat(0, 19);
      CodeLengthsNeed(bits, later, codes.at, 0, codes.value + 4, zeros);
      Chunks.CodeLengthsMove(bits, codes.at, 0, codes.value + 4, zeros, 0, later);
      CodeLengthsWithin(bits, codes.at, 0, codes.value + 4, zeros);
      CodeLengthsWithin(later, codes.at, 0, codes.value + 4, zeros);
      var lengths, more := ReadCodeLengths(bits, codes.at, 0, codes.value + 4, zeros),
                           ReadCodeLengths(later, codes.at, 0, codes.value + 4, zeros);
      if lengths.Got? {
        TwoCodesNeed(lengths.value, bits, later, lengths.at, literals, distances);
      } else if more.Got? {
        TwoCodesWithin(more.value, later, more.at, literals, distances);
      }
    } else if l.Got? {
      AfterCountsWithin(later, l.at, l.value, literals, distances);
    }
  }

  lemma AfterCountsWithin(bits: seq<bit>, at: nat, codes: nat, literals: nat, distances: nat)
    requires at <= |bits| && codes < 16
    ensures var lengths := ReadCodeLengths(bits, at, 0, codes + 4, Repeat(0, 19));
            && Within(lengths, at, bits)
            && (lengths.Got? ==> Within(ReadTwoCodes(lengths.value, bits, lengths.at, literals, distances), at, bits))
  {
    hide ReadCodeLengths, ReadTwoCodes;
    CodeLengthsWithin(bits, at, 0, codes + 4, Repeat(0, 19));
    var lengths := ReadCodeLengths(bits, at, 0, codes + 4, Repeat(0, 19));
    if lengths.Got? {
      TwoCodesWithin(lengths.value, bits, lengths.at, literals, distances);
    }
  }

  lemma DynamicNeeds(bits: seq<bit>, later: seq<bit>, at: nat)
    requires Cut(bits, later) && at <= |bits|
    ensures Needs(ReadDynamicLengths(bits, at), ReadDynamicLengths(later, at), |bits|)
  {
    hide ReadPair, ReadCodesAfterCounts;
    PairNeeds(bits, later, at, 5, 5);
    Chunks.ReadPairMoves(bits, at, 5, 5, 0, later);
    PairWithin(bits, at, 5, 5);
    PairWithin(later, at, 5, 5);
    var pair, l := ReadPair(bits, at, 5, 5), ReadPair(later, at, 5, 5);
    if pair.Got? {
      CodesAfterCountsNeed(bits, later, pair.at, pair.value.0 + 257, pair.value.1 + 1);
    } else if l.Got? {
      CodesWithin(later, l.at, l.value.0 + 257, l.value.1 + 1);
    }
  }

  lemma PairWithin(bits: seq<bit>, at: nat, m: nat, n: nat)
    requires at <= |bits|
    ensures Within(ReadPair(bits, at, m, n), at, bits)
  {
  }

  lemma CodesWithin(bits: seq<bit>, at: nat, literals: nat, distances: nat)
    requires at <= |bits|
    ensures Within(ReadCodesAfterCounts(bits, at, literals, distances), at, bits)
  {
    hide ReadCodeLengths, ReadTwoCodes, BitsAt;
    assert Shl(1, 4) == 16;
    var codes := ReadBits(bits, at, 4);
    if codes.Got? {
      AfterCountsWithin(bits, codes.at, codes.value, literals, distances);
    }
  }

  lemma BlockNeeds(bits: seq<bit>, later: seq<bit>, at: nat)
    requires Cut(bits, later) && at <= |bits|
    ensures Needs(ReadBlock(bits, at), ReadBlock(later, at), |bits|)
  {
    hide ReadStoredLength, ReadDynamicLengths, BitsAt;
    ReadBitsMoves(bits, at, 2, 0, later);
    var kind, l := ReadBits(bits, at, 2), ReadBits(later, at, 2);
    if kind.Got? && kind.value == 0 {
      StoredLengthNeeds(bits, later, kind.at);
    } else if kind.Got? && kind.value == 2 {
      DynamicNeeds(bits, later, kind.at);
    } else if kind.Short? && l.Got? && l.value == 0 {
      StoredLengthWithin(later, l.at);
    } else if kind.Short? && l.Got? && l.value == 2 {
      DynamicWithin(later, l.at);
    }
  }

  lemma DistanceNeeds(distances: Huffman, bits: seq<bit>, later: seq<bit>, at: nat, length: nat)
    requires Table(distances) && Cut(bits, later) && at <= |bits|
    ensures Needs(ReadDistance(distances, bits, at, length), ReadDistance(distances, later, at, length), |bits|)
    ensures Within(ReadDistance(distances, later, at, length), at, later)
  {
    hide DecodeFrom, BitsAt, DistanceBase, DistanceExtra;
    Chunks.DecodeMoves(distances, bits, at, 0, later);
    DecodeNeeds(distances, bits, later, at, 1, 0, 0, 0);
    DecodeWithin(distances, later, at, 1, 0, 0, 0);
  }

  lemma DistanceWithin(distances: Huffman, bits: seq<bit>, at: nat, length: nat)
    requires Table(distances) && at <= |bits|
    ensures Within(ReadDistance(distances, bits, at, length), at, bits)
  {
    hide ReadDistance;
    assert bits[0..] == bits[..|bits|];
    DistanceNeeds(distances, bits, bits, at, length);
  }

  lemma MatchNeeds(base: nat, extraBits: nat, distances: Huffman, bits: seq<bit>, later: seq<bit>, at: nat)
    requires Table(distances) && Cut(bits, later) && at <= |bits|
    ensures Needs(ReadMatch(base, extraBits, distances, bits, at), ReadMatch(base, extraBits, distances, later, at),
      |bits|)
    ensures Within(ReadMatch(base, extraBits, distances, later, at), at, later)
  {
    hide ReadDistance, BitsAt;
    ReadBitsMoves(bits, at, extraBits, 0, later);
    var extra, l := ReadBits(bits, at, extraBits), ReadBits(later, at, extraBits);
    if extra.Got? {
      DistanceNeeds(distances, bits, later, extra.at, base + extra.value);
    } else if l.Got? {
      DistanceWithin(distances, later, l.at, base + l.value);
    }
  }

  lemma TokenNeeds(literals: Huffman, distances: Huffman, bits: seq<bit>, later: seq<bit>, at: nat)
    requires Table(literals) && Table(distances) && Cut(bits, later) && at <= |bits|
    ensures Needs(ReadToken(literals, distances, bits, at), ReadToken(literals, distances, later, at), |bits|)
  {
    hide DecodeFrom, ReadMatch, LengthBase, LengthExtra;
    Chunks.DecodeMoves(literals, bits, at, 0, later);
    DecodeNeeds(literals, bits, later, at, 1, 0, 0, 0);
    DecodeWithin(literals, bits, at, 1, 0, 0, 0);
    DecodeWithin(literals, later, at, 1, 0, 0, 0);
    var symbol, l := Decode(literals, bits, at), Decode(literals, later, at);
    if symbol.Got? && 257 <= symbol.value < 257 + LENGTH_CODES {
      MatchNeeds(LengthBase(symbol.value - 257), LengthExtra(symbol.value - 257), distances, bits, later, symbol.at);
    } else if symbol.Short? && l.Got? && 257 <= l.value < 257 + LENGTH_CODES {
      MatchWithin(LengthBase(l.value - 257), LengthExtra(l.value - 257), distances, later, l.at);
    }
  }

  lemma MatchWithin(base: nat, extraBits: nat, distances: Huffman, bits: seq<bit>, at: nat)
    requires Table(distances) && at <= |bits|
    ensures Within(ReadMatch(base, extraBits, distances, bits, at), at, bits)
  {
    hide ReadMatch;
    assert bits[0..] == bits[..|bits|];
    MatchNeeds(base, extraBits, distances, bits, bits, at);
  }

  // ---- Steps and runs ---------------------------------------------------------------------

  /** A step that waited, and goes on with more input, goes past the old end. */
  predicate StepNeeds(s: Step, again: Step, n: nat) {
    s.Wait? && (again.Continue? || again.Done?) ==> again.d.at > n
  }

  lemma BlockStepNeeds(d: Decoder, bits: seq<bit>, later: seq<bit>)
    requires Ready(d) && d.at <= |bits| && Cut(bits, later) && d.phase == BlockHeader
    ensures StepNeeds(StepBlockHeader(d, bits), StepBlockHeader(d, later), |bits|)
  {
    hide ReadBlock, Build, FixedLiterals, FixedDistances, Table;
    if d.at < |bits| {
      assert later[d.at] == bits[d.at];
      BlockNeeds(bits, later, d.at + 1);
    } else if d.at < |later| {
      BlockWithin(later, d.at + 1);
    }
  }

  lemma StoredStepNeeds(d: Decoder, bits: seq<bit>, later: seq<bit>)
    requires d.phase == Stored && d.at % 8 == 0 && d.at <= |bits| && Whole(bits) && Whole(later) && Cut(bits, later)
    ensures StepNeeds(StepStored(d, bits), StepStored(d, later), |bits|)
  {
    hide BytesAt;
    var available, more := (|bits| - d.at) / 8, (|later| - d.at) / 8;
    assert d.at + 8 * available == |bits|;
  }

  lemma TokenStepNeeds(d: Decoder, bits: seq<bit>, later: seq<bit>)
    requires Ready(d) && d.at <= |bits| && Cut(bits, later) && d.phase == Compressed
    ensures StepNeeds(StepOn(d, bits), StepOn(d, later), |bits|)
  {
    hide ReadToken, Table, Copy, Window;
    TokenNeeds(d.literals, d.distances, bits, later, d.at);
    var r := ReadToken(d.literals, d.distances, bits, d.at);
    Chunks.TokenMoves(d.literals, d.distances, bits, d.at, 0, later);
    if r.Got? {
      Chunks.ApplyMoves(d.(at := r.at), r.value, 0);
    }
  }

  lemma StepNeedsMore(d: Decoder, bits: seq<bit>, later: seq<bit>)
    requires Ready(d) && d.at <= |bits| && Whole(bits) && Whole(later) && Cut(bits, later)
    ensures StepNeeds(StepOn(d, bits), StepOn(d, later), |bits|)
  {
    hide StepBlockHeader, StepStored, ReadToken, ReadPair, StepToken, ReadChecksum, Adler, Table;
    match d.phase
    case ZlibHeader =>
      PairNeeds(bits, later, d.at, 8, 8);
      Chunks.ReadPairMoves(bits, d.at, 8, 8, 0, later);
    case BlockHeader => BlockStepNeeds(d, bits, later);
    case Stored => StoredStepNeeds(d, bits, later);
    case Compressed => TokenStepNeeds(d, bits, later);
    case Checksum => ChecksumNeeds(bits, later, d.at);
    case Finished =>
  }

  /** The end of a stream is on a byte boundary. */
  predicate Aligned(d: Decoder) {
    d.phase == Finished ==> d.at % 8 == 0
  }

  lemma ChecksumIsAligned(bits: seq<bit>, at: nat)
    ensures ReadChecksum(bits, at).Got? ==> ReadChecksum(bits, at).at % 8 == 0
  {
    hide BitsAt;
    var r := ReadPair(bits, Align(at), 8, 8);
    if r.Got? {
      assert r.at == Align(at) + 16;
    }
  }

  lemma AlignAligns(at: nat)
    ensures Align(at) % 8 == 0
  {
  }

  lemma StepKeepsAligned(d: Decoder, bits: seq<bit>)
    requires Ready(d) && d.at <= |bits| && Aligned(d)
    ensures var s := StepOn(d, bits); (s.Continue? ==> Aligned(s.d)) && (s.Done? ==> s.d.at % 8 == 0)
  {
    hide ReadZlibHeader, ReadBlock, BytesAt, ReadToken, ReadChecksum, Build, FixedLiterals, FixedDistances, Table,
         Align, Adler, Copy;
    match d.phase
    case ZlibHeader =>
    case BlockHeader =>
    case Stored =>
      AlignAligns(StoredEnd(d, bits));
    case Compressed =>
      var r := ReadToken(d.literals, d.distances, bits, d.at);
      if r.Got? {
        AlignAligns(r.at);
      }
    case Checksum => ChecksumIsAligned(bits, d.at);
    case Finished =>
  }

  function StoredEnd(d: Decoder, bits: seq<bit>): nat
    requires d.at <= |bits|
  {
    var available := (|bits| - d.at) / 8;
    d.at + 8 * if available < d.remaining then available else d.remaining
  }

  /** A run that waits at the end of its input, and ends with more, ends past it, on a byte
      boundary. */
  lemma {:induction false} RunNeedsMore(d: Decoder, bits: seq<bit>, later: seq<bit>)
    requires Began(d, bits) && Whole(later) && Cut(bits, later) && Aligned(d)
    ensures Began(d, later)
    ensures Run(d, later).Ended? ==> Run(d, later).at % 8 == 0 && (Run(d, bits).Waiting? ==> Run(d, later).at > |bits|)
    decreases |bits| - d.at, StoredRank(d)
  {
    hide StepOn;
    StepAdvances(d, bits);
    StepAdvances(d, later);
    StepNeedsMore(d, bits, later);
    StepKeepsAligned(d, later);
    Chunks.StepMoves(d, bits, 0, later);
    assert Chunks.Back(d, 0) == d;
    var s, again := StepOn(d, bits), StepOn(d, later);
    if s.Continue? {
      assert Chunks.Back(s.d, 0) == s.d;
      RunNeedsMore(s.d, bits, later);
    } else if s.Wait? && again.Continue? {
      RunStaysAligned(again.d, later);
    }
  }

  lemma {:induction false} RunStaysAligned(d: Decoder, bits: seq<bit>)
    requires Began(d, bits) && Aligned(d)
    ensures Run(d, bits).Ended? ==> Run(d, bits).at % 8 == 0 && Run(d, bits).at >= d.at
    decreases |bits| - d.at, StoredRank(d)
  {
    hide StepOn;
    StepAdvances(d, bits);
    StepKeepsAligned(d, bits);
    if StepOn(d, bits).Continue? {
      RunStaysAligned(StepOn(d, bits).d, bits);
    }
  }

  /** The session is over as soon as the stream's last byte arrived: what follows is never
      waited for. */
  lemma EndsWithItsLastByte(s: Chunks.Session, stream: seq<byte>, rest: seq<byte>, out: seq<byte>)
    requires Chunks.Live(s) && s.Open? && Aligned(s.d)
    requires Chunks.Push(s, stream + rest, false) == Chunks.Closed(out, rest)
    ensures Chunks.Push(s, stream, false) == Chunks.Closed(out, [])
  {
    hide Run, StepOn;
    Chunks.PushSplits(s, stream, rest, false);
    var input := s.held + stream;
    assert s.held + (stream + rest) == input + rest;
    var bits, later := Unpack(input), Unpack(input + rest);
    UnpackConcat(input, rest);
    assert later[..|bits|] == bits;
    assert bits[0..] == bits;
    Chunks.RunStays(s.d, bits);
    Chunks.RunStays(s.d, later);
    RunNeedsMore(s.d, bits, later);
    var r := Run(s.d, later);
    assert r.Ended? && |(input + rest)[r.at / 8..]| == |rest|;
    assert r.at == |bits|;
    var t := Chunks.Push(s, stream, false);
    assert t.Closed?;
    assert t.leftover + rest == rest;
    assert |t.leftover| == 0;
  }

  lemma StartIsOpen(size: nat)
    ensures var s := Chunks.Start(size, true);
            s.Open? && s.held == [] && Chunks.Live(s) && Aligned(s.d) && s.d.size == size
  {
    hide Build;
  }
}
