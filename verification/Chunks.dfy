/** Chunk boundaries never matter to the decoder: a step that ran out of bits is
    repeated from where it began, and dropping the bytes already read changes
    nothing that follows. */
module Chunks {
  import opened Bits
  import opened Huffman
  import opened Inflate

  // ---- Every read gives the same answer in a later buffer --------------------

  lemma ReadPairMoves(bits: seq<bit>, at: nat, m: nat, n: nat, k: nat, later: seq<bit>)
    requires Window(bits, k, later) && k <= at
    ensures Moved(ReadPair(bits, at, m, n), k, More(bits, k, later), ReadPair(later, at - k, m, n))
  {
    ReadBitsMoves(bits, at, m, k, later);
    var r := ReadBits(bits, at, m);
    if r.Got? {
      ReadBitsMoves(bits, r.at, n, k, later);
    }
  }

  lemma AlignMoves(at: nat, k: nat)
    requires k % 8 == 0 && k <= at
    ensures Align(at - k) == Align(at) - k
  {
    assert (at - k) % 8 == at % 8;
  }

  lemma StoredLengthMoves(bits: seq<bit>, at: nat, k: nat, later: seq<bit>)
    requires Window(bits, k, later) && k <= at && k % 8 == 0
    ensures Moved(ReadStoredLength(bits, at), k, More(bits, k, later), ReadStoredLength(later, at - k))
  {
    hide ReadPair, Align;
    AlignMoves(at, k);
    ReadPairMoves(bits, Align(at), 16, 16, k, later);
  }

  lemma ChecksumMoves(bits: seq<bit>, at: nat, k: nat, later: seq<bit>)
    requires Window(bits, k, later) && k <= at && k % 8 == 0
    ensures Moved(ReadChecksum(bits, at), k, More(bits, k, later), ReadChecksum(later, at - k))
  {
    hide ReadPair, Align;
    AlignMoves(at, k);
    ReadPairMoves(bits, Align(at), 8, 8, k, later);
    var r := ReadPair(bits, Align(at), 8, 8);
    if r.Got? {
      ReadPairMoves(bits, r.at, 8, 8, k, later);
    }
  }

  lemma DecodeMoves(h: Huffman, bits: seq<bit>, at: nat, k: nat, later: seq<bit>)
    requires Table(h) && Window(bits, k, later) && k <= at
    ensures Moved(Decode(h, bits, at), k, More(bits, k, later), Decode(h, later, at - k))
  {
    DecodeFromMoves(h, bits, at, 1, 0, 0, 0, k, later);
  }

  lemma {:induction false} CodeLengthsMove(
      bits: seq<bit>, at: nat, i: nat, n: nat, lengths: Lengths, k: nat, later: seq<bit>)
    requires n <= 19 == |lengths| && Window(bits, k, later) && k <= at
    ensures Moved(ReadCodeLengths(bits, at, i, n, lengths), k, More(bits, k, later),
                  ReadCodeLengths(later, at - k, i, n, lengths))
    decreases n - i
  {
    if i < n {
      ReadBitsMoves(bits, at, 3, k, later);
      var r := ReadBits(bits, at, 3);
      if r.Got? {
        assert Shl(1, 3) == 8;
        CodeLengthsMove(bits, r.at, i + 1, n, lengths[CODE_LENGTH_ORDER[i] := r.value], k, later);
      }
    }
  }

  lemma ReadRunMoves(h: Huffman, bits: seq<bit>, at: nat, before: Lengths, k: nat, later: seq<bit>)
    requires Table(h) && Window(bits, k, later) && k <= at
    ensures Moved(ReadRun(h, bits, at, before), k, More(bits, k, later), ReadRun(h, later, at - k, before))
  {
    DecodeMoves(h, bits, at, k, later);
    var r := Decode(h, bits, at);
    if r.Got? && r.value >= 16 {
      ReadBitsMoves(bits, r.at, if r.value == 16 then 2 else if r.value == 17 then 3 else 7, k, later);
    }
  }

  lemma {:induction false} LengthsMove(
      h: Huffman, bits: seq<bit>, at: nat, total: nat, before: Lengths, k: nat, later: seq<bit>)
    requires Table(h) && |before| <= total && Window(bits, k, later) && k <= at
    ensures Moved(ReadLengths(h, bits, at, total, before), k, More(bits, k, later),
                  ReadLengths(h, later, at - k, total, before))
    decreases total - |before|
  {
    if |before| < total {
      ReadRunMoves(h, bits, at, before, k, later);
      var r := ReadRun(h, bits, at, before);
      if r.Got? && |before| + |r.value| <= total {
        LengthsMove(h, bits, r.at, total, before + r.value, k, later);
      }
    }
  }

  lemma TwoCodesMove(
      codeLengths: Lengths, bits: seq<bit>, at: nat, literals: nat, distances: nat, k: nat, later: seq<bit>)
    requires Window(bits, k, later) && k <= at
    ensures Moved(ReadTwoCodes(codeLengths, bits, at, literals, distances), k, More(bits, k, later),
                  ReadTwoCodes(codeLengths, later, at - k, literals, distances))
  {
    hide ReadLengths, Window;
    BuildIsTable(codeLengths);
    LengthsMove(Build(codeLengths), bits, at, literals + distances, [], k, later);
  }

  lemma CodesAfterCountsMove(bits: seq<bit>, at: nat, literals: nat, distances: nat, k: nat, later: seq<bit>)
    requires Window(bits, k, later) && k <= at
    ensures Moved(ReadCodesAfterCounts(bits, at, literals, distances), k, More(bits, k, later),
                  ReadCodesAfterCounts(later, at - k, literals, distances))
  {
    hide ReadCodeLengths, ReadTwoCodes, Window;
    ReadBitsMoves(bits, at, 4, k, later);
    var codes := ReadBits(bits, at, 4);
    if codes.Got? {
      assert Shl(1, 4) == 16;
      CodeLengthsMove(bits, codes.at, 0, codes.value + 4, Repeat(0, 19), k, later);
      var lengths := ReadCodeLengths(bits, codes.at, 0, codes.value + 4, Repeat(0, 19));
      if lengths.Got? {
        TwoCodesMove(lengths.value, bits, lengths.at, literals, distances, k, later);
      }
    }
  }

  lemma DynamicMoves(bits: seq<bit>, at: nat, k: nat, later: seq<bit>)
    requires Window(bits, k, later) && k <= at
    ensures Moved(ReadDynamicLengths(bits, at), k, More(bits, k, later), ReadDynamicLengths(later, at - k))
  {
    hide ReadPair, ReadCodesAfterCounts;
    ReadPairMoves(bits, at, 5, 5, k, later);
    var pair := ReadPair(bits, at, 5, 5);
    if pair.Got? {
      CodesAfterCountsMove(bits, pair.at, pair.value.0 + 257, pair.value.1 + 1, k, later);
    }
  }

  lemma BlockMoves(bits: seq<bit>, at: nat, k: nat, later: seq<bit>)
    requires Window(bits, k, later) && k <= at && k % 8 == 0
    ensures Moved(ReadBlock(bits, at), k, More(bits, k, later), ReadBlock(later, at - k))
  {
    hide ReadBits, ReadStoredLength, ReadDynamicLengths;
    ReadBitsMoves(bits, at, 2, k, later);
    var kind := ReadBits(bits, at, 2);
    if kind.Got? && kind.value == 0 {
      StoredLengthMoves(bits, kind.at, k, later);
    } else if kind.Got? && kind.value == 2 {
      DynamicMoves(bits, kind.at, k, later);
    }
  }

  lemma DistanceMoves(distances: Huffman, bits: seq<bit>, at: nat, length: nat, k: nat, later: seq<bit>)
    requires Table(distances) && Window(bits, k, later) && k <= at
    ensures Moved(ReadDistance(distances, bits, at, length), k, More(bits, k, later),
                  ReadDistance(distances, later, at - k, length))
  {
    hide Decode, ReadBits;
    DecodeMoves(distances, bits, at, k, later);
    var code := Decode(distances, bits, at);
    if code.Got? && code.value < DISTANCE_CODES {
      ReadBitsMoves(bits, code.at, DistanceExtra(code.value), k, later);
    }
  }

  lemma MatchMoves(base: nat, extraBits: nat, distances: Huffman, bits: seq<bit>, at: nat, k: nat, later: seq<bit>)
    requires Table(distances) && Window(bits, k, later) && k <= at
    ensures Moved(ReadMatch(base, extraBits, distances, bits, at), k, More(bits, k, later),
                  ReadMatch(base, extraBits, distances, later, at - k))
  {
    hide ReadDistance, ReadBits;
    ReadBitsMoves(bits, at, extraBits, k, later);
    var extra := ReadBits(bits, at, extraBits);
    if extra.Got? {
      DistanceMoves(distances, bits, extra.at, base + extra.value, k, later);
    }
  }

  lemma AfterSymbolMoves(symbol: nat, distances: Huffman, bits: seq<bit>, at: nat, k: nat, later: seq<bit>)
    requires Table(distances) && Window(bits, k, later) && k <= at
    ensures Moved(ReadAfterSymbol(symbol, distances, bits, at), k, More(bits, k, later),
                  ReadAfterSymbol(symbol, distances, later, at - k))
  {
    hide ReadMatch;
    if 257 <= symbol < 257 + LENGTH_CODES {
      MatchMoves(LengthBase(symbol - 257), LengthExtra(symbol - 257), distances, bits, at, k, later);
    }
  }

  lemma TokenMoves(literals: Huffman, distances: Huffman, bits: seq<bit>, at: nat, k: nat, later: seq<bit>)
    requires Table(literals) && Table(distances) && Window(bits, k, later) && k <= at
    ensures Moved(ReadToken(literals, distances, bits, at), k, More(bits, k, later),
                  ReadToken(literals, distances, later, at - k))
  {
    hide Decode, ReadAfterSymbol;
    DecodeMoves(literals, bits, at, k, later);
    var symbol := Decode(literals, bits, at);
    if symbol.Got? {
      AfterSymbolMoves(symbol.value, distances, bits, symbol.at, k, later);
    }
  }

  // ---- Every step does ---------------------------------------------------------

  /** The decoder once `k` bits of its input are gone. */
  function Back(d: Decoder, k: nat): Decoder
    requires k <= d.at
  {
    d.(at := d.at - k)
  }

  /** A step repeated on a later buffer: the same effect, and a step that waited
      waits again unless something arrived. */
  predicate Agrees(s: Step, k: nat, more: bool, again: Step) {
    match s
    case Corrupt => again == Corrupt
    case Done(d) => k <= d.at && again == Done(Back(d, k))
    case Continue(d) => k <= d.at && again == Continue(Back(d, k))
    case Wait(d) => k <= d.at && (!more ==> again == Wait(Back(d, k)))
  }

  lemma TakeMoves(d: Decoder, bytes: seq<byte>, k: nat)
    requires k <= d.at && k % 8 == 0 && |bytes| <= d.remaining
    ensures Agrees(TakeStored(d, bytes), k, false, TakeStored(Back(d, k), bytes))
  {
    AlignMoves(d.at + 8 * |bytes|, k);
    hide Align;
  }

  lemma TakePart(d: Decoder, part: seq<byte>, whole: seq<byte>, k: nat)
    requires k <= d.at && |part| < |whole| <= d.remaining
    ensures Agrees(TakeStored(d, part), k, true, TakeStored(Back(d, k), whole))
  {
    hide AfterBlock;
  }

  lemma StoredMoves(d: Decoder, bits: seq<bit>, k: nat, later: seq<bit>)
    requires k <= d.at <= |bits| && k % 8 == 0 && Window(bits, k, later)
    ensures Agrees(StepStored(d, bits), k, More(bits, k, later), StepStored(Back(d, k), later))
  {
    hide BytesAt, TakeStored, Agrees;
    var available, after := (|bits| - d.at) / 8, (|later| - (d.at - k)) / 8;
    var take := if available < d.remaining then available else d.remaining;
    var whole := if after < d.remaining then after else d.remaining;
    assert available <= after;
    var part, all := BytesAt(bits, d.at, take), BytesAt(later, d.at - k, whole);
    BytesAtMoves(bits, d.at, take, k, later);
    if take == whole {
      TakeMoves(d, part, k);
      AgreesMore(TakeStored(d, part), k, More(bits, k, later), TakeStored(Back(d, k), part));
    } else {
      assert More(bits, k, later);
      TakePart(d, part, all, k);
    }
  }

  lemma AgreesMore(s: Step, k: nat, more: bool, again: Step)
    requires Agrees(s, k, false, again)
    ensures Agrees(s, k, more, again)
  {
  }

  lemma BlockHeaderMoves(d: Decoder, bits: seq<bit>, k: nat, later: seq<bit>)
    requires k <= d.at <= |bits| && k % 8 == 0 && Window(bits, k, later)
    ensures Agrees(StepBlockHeader(d, bits), k, More(bits, k, later), StepBlockHeader(Back(d, k), later))
  {
    hide ReadBlock, StepBlock;
    if d.at < |bits| {
      assert later[d.at - k] == bits[k..][d.at - k];
      BlockMoves(bits, d.at + 1, k, later);
      BlockStepMoves(d.(last := bits[d.at] == 1), ReadBlock(bits, d.at + 1), k, More(bits, k, later),
                     ReadBlock(later, d.at + 1 - k));
    }
  }

  lemma BlockStepMoves(d: Decoder, r: Read<Block>, k: nat, more: bool, again: Read<Block>)
    requires k <= d.at && Moved(r, k, more, again)
    ensures Agrees(StepBlock(d, r), k, more, StepBlock(Back(d, k), again))
  {
    hide Build, FixedLiterals, FixedDistances;
  }

  lemma ApplyMoves(d: Decoder, token: Token, k: nat)
    requires k <= d.at && k % 8 == 0 && (token.Match? ==> token.distance > 0)
    ensures Agrees(Apply(d, token), k, true, Apply(Back(d, k), token)) && !Apply(d, token).Wait?
  {
    AlignMoves(d.at, k);
  }

  lemma TokenStepMoves(d: Decoder, r: Read<Token>, k: nat, more: bool, again: Read<Token>)
    requires k <= d.at && k % 8 == 0 && Moved(r, k, more, again)
    requires r.Got? && r.value.Match? ==> r.value.distance > 0
    requires again.Got? && again.value.Match? ==> again.value.distance > 0
    ensures Agrees(StepToken(d, r), k, more, StepToken(Back(d, k), again))
  {
    if r.Got? {
      ApplyMoves(d.(at := r.at), r.value, k);
    }
  }

  lemma CompressedMoves(d: Decoder, bits: seq<bit>, k: nat, later: seq<bit>)
    requires Ready(d) && k <= d.at && k % 8 == 0 && Window(bits, k, later)
    ensures Agrees(StepToken(d, ReadToken(d.literals, d.distances, bits, d.at)), k, More(bits, k, later),
                   StepToken(Back(d, k), ReadToken(d.literals, d.distances, later, d.at - k)))
  {
    hide ReadToken, StepToken;
    TokenMoves(d.literals, d.distances, bits, d.at, k, later);
    TokenStepMoves(d, ReadToken(d.literals, d.distances, bits, d.at), k, More(bits, k, later),
                   ReadToken(d.literals, d.distances, later, d.at - k));
  }

  lemma ZlibHeaderMoves(d: Decoder, bits: seq<bit>, k: nat, later: seq<bit>)
    requires k <= d.at && Window(bits, k, later)
    ensures Agrees(StepZlib(d, ReadZlibHeader(bits, d.at)), k, More(bits, k, later),
                   StepZlib(Back(d, k), ReadZlibHeader(later, d.at - k)))
  {
    hide ReadPair;
    ReadPairMoves(bits, d.at, 8, 8, k, later);
  }

  lemma ChecksumStepMoves(d: Decoder, bits: seq<bit>, k: nat, later: seq<bit>)
    requires k <= d.at && k % 8 == 0 && Window(bits, k, later)
    ensures Agrees(StepChecksum(d, ReadChecksum(bits, d.at)), k, More(bits, k, later),
                   StepChecksum(Back(d, k), ReadChecksum(later, d.at - k)))
  {
    hide ReadChecksum, Adler;
    ChecksumMoves(bits, d.at, k, later);
  }

  predicate StepMoved(d: Decoder, bits: seq<bit>, k: nat, later: seq<bit>)
    requires Ready(d) && k <= d.at <= |bits| && Window(bits, k, later)
  {
    && Ready(Back(d, k)) && d.at - k <= |later|
    && Agrees(StepOn(d, bits), k, More(bits, k, later), StepOn(Back(d, k), later))
  }

  lemma StepMoves(d: Decoder, bits: seq<bit>, k: nat, later: seq<bit>)
    requires Ready(d) && k <= d.at <= |bits| && k % 8 == 0 && Window(bits, k, later)
    ensures StepMoved(d, bits, k, later)
  {
    hide StepZlib, ReadZlibHeader, StepBlockHeader, StepStored, ReadToken, StepToken, ReadChecksum, StepChecksum;
    match d.phase
    case ZlibHeader => ZlibHeaderMoves(d, bits, k, later);
    case BlockHeader => BlockHeaderMoves(d, bits, k, later);
    case Stored => StoredMoves(d, bits, k, later);
    case Compressed => CompressedMoves(d, bits, k, later);
    case Checksum => ChecksumStepMoves(d, bits, k, later);
    case Finished =>
  }

  /** As much of a stored block as is here, then the rest of it: the same as all at once. */
  predicate Resumes(d: Decoder, d': Decoder, k: nat, later: seq<bit>)
    requires k <= d.at && k <= d'.at && d.at - k <= |later|
  {
    && d'.phase == Stored && d'.at - k <= |later|
    && StepStored(Back(d', k), later) == StepStored(Back(d, k), later)
  }

  lemma BytesResume(bits: seq<bit>, at: nat, available: nat, k: nat, later: seq<bit>, whole: nat)
    requires k <= at && at + 8 * available <= |bits| && Window(bits, k, later)
    requires available <= whole && at - k + 8 * whole <= |later|
    ensures BytesAt(later, at - k, whole)
         == BytesAt(bits, at, available) + BytesAt(later, at - k + 8 * available, whole - available)
  {
    hide BytesAt;
    BytesAtMoves(bits, at, available, k, later);
    BytesAtSplit(later, at - k, available, whole - available);
    assert available + (whole - available) == whole;
  }

  lemma TakeResumes(d: Decoder, first: seq<byte>, rest: seq<byte>, k: nat)
    requires k <= d.at && |first| + |rest| <= d.remaining && TakeStored(d, first).Wait?
    ensures var d' := TakeStored(d, first).d;
            k <= d'.at && TakeStored(Back(d', k), rest) == TakeStored(Back(d, k), first + rest)
  {
    assert d.out + (first + rest) == d.out + first + rest;
  }

  lemma StoredTakes(d: Decoder, bits: seq<bit>, available: nat, take: nat)
    requires d.at + 8 * available <= |bits| < d.at + 8 * available + 8
    requires take == if available < d.remaining then available else d.remaining
    ensures StepStored(d, bits) == TakeStored(d, BytesAt(bits, d.at, take))
  {
    assert (|bits| - d.at) / 8 == available;
  }

  /** A stored block waits with every byte at hand taken. */
  lemma StoredWaits(d: Decoder, bits: seq<bit>) returns (available: nat)
    requires d.at <= |bits| && Whole(bits) && d.at % 8 == 0 && d.phase == Stored && StepStored(d, bits).Wait?
    ensures d.at + 8 * available == |bits| && available < d.remaining
    ensures StepStored(d, bits) == TakeStored(d, BytesAt(bits, d.at, available))
    ensures StepStored(d, bits).d.phase == Stored
    ensures StepStored(d, bits).d.at == |bits| && StepStored(d, bits).d.remaining == d.remaining - available
  {
    available := (|bits| - d.at) / 8;
    assert d.at + 8 * available == |bits|;
  }

  lemma StoredResumes(d: Decoder, bits: seq<bit>, k: nat, later: seq<bit>)
    requires d.phase == Stored && k <= d.at <= |bits| && k % 8 == 0 && Window(bits, k, later)
    requires Whole(bits) && d.at % 8 == 0 && StepStored(d, bits).Wait?
    ensures var d' := StepStored(d, bits).d; k <= d'.at && Resumes(d, d', k, later)
  {
    hide StepStored, TakeStored, BytesAt, AfterBlock;
    var available := StoredWaits(d, bits);
    var at, d' := d.at - k, StepStored(d, bits).d;
    var after := (|later| - at) / 8;
    var whole := if after < d.remaining then after else d.remaining;
    assert at + 8 * after <= |later| < at + 8 * after + 8;
    var first, rest := BytesAt(bits, d.at, available), BytesAt(later, at + 8 * available, whole - available);
    BytesResume(bits, d.at, available, k, later, whole);
    TakeResumes(d, first, rest, k);
    StoredTakes(Back(d, k), later, after, whole);
    StoredTakes(Back(d', k), later, after - available, whole - available);
  }

  lemma HeaderResumes(d: Decoder, bits: seq<bit>, k: nat, later: seq<bit>)
    requires k <= d.at <= |bits| && Window(bits, k, later) && StepBlockHeader(d, bits).Wait?
    ensures var d' := StepBlockHeader(d, bits).d;
            && d' == d.(last := d'.last)
            && StepBlockHeader(Back(d', k), later) == StepBlockHeader(Back(d, k), later)
  {
    hide ReadBlock;
  }

  lemma WaitKeeps(d: Decoder, bits: seq<bit>)
    requires Ready(d) && d.at <= |bits| && d.phase != Stored && d.phase != BlockHeader && StepOn(d, bits).Wait?
    ensures StepOn(d, bits).d == d
  {
    hide ReadZlibHeader, ReadToken, ReadChecksum, Adler;
  }

  /** A step that waited has lost nothing: resumed, it does what the whole step
      would have done. */
  lemma WaitResumes(d: Decoder, bits: seq<bit>, k: nat, later: seq<bit>)
    requires Ready(d) && k <= d.at <= |bits| && k % 8 == 0 && Window(bits, k, later) && Whole(bits)
    requires StepOn(d, bits).Wait?
    ensures WaitResumed(d, StepOn(d, bits).d, k, later)
  {
    hide StepBlockHeader, StepStored, ReadToken, ReadZlibHeader, ReadChecksum, StepZlib, StepChecksum, StepToken;
    StepAdvances(d, bits);
    if d.phase == Stored {
      StoredResumes(d, bits, k, later);
    } else if d.phase == BlockHeader {
      HeaderResumes(d, bits, k, later);
    } else {
      WaitKeeps(d, bits);
    }
  }

  predicate WaitResumed(d: Decoder, d': Decoder, k: nat, later: seq<bit>)
    requires Ready(d)
  {
    && k <= d.at && d.at - k <= |later| && Ready(Back(d, k))
    && k <= d'.at && d'.at - k <= |later| && Ready(Back(d', k))
    && StepOn(Back(d', k), later) == StepOn(Back(d, k), later)
  }

  // ---- Every run does ----------------------------------------------------------

  predicate RunMoved(d: Decoder, bits: seq<bit>, k: nat, later: seq<bit>)
    requires Began(d, bits) && k <= d.at && Began(Back(d, k), later)
  {
    var again := Run(Back(d, k), later);
    match Run(d, bits)
    case Broken => again == Broken
    case Ended(out, at) => k <= at <= |bits| && again == Ended(out, at - k)
    case Waiting(d') =>
      && d.at <= d'.at <= |bits| && Ready(d') && k <= d'.at && Began(Back(d', k), later)
      && again == Run(Back(d', k), later)
      && (|later| == |bits| - k ==> again == Waiting(Back(d', k)))
  }

  /** Running on a buffer that lost `k` read bits and may have grown: an end or a
      failure stays what it was, and a wait resumes where it stopped. */
  lemma {:induction false} RunMoves(d: Decoder, bits: seq<bit>, k: nat, later: seq<bit>)
    requires Began(d, bits) && k <= d.at && k % 8 == 0 && Whole(later) && Window(bits, k, later)
    ensures Began(Back(d, k), later) && RunMoved(d, bits, k, later)
    decreases |bits| - d.at, StoredRank(d)
  {
    hide StepOn;
    StepAdvances(d, bits);
    StepMoves(d, bits, k, later);
    var s := StepOn(d, bits);
    if s.Continue? {
      RunMoves(s.d, bits, k, later);
    } else if s.Wait? {
      WaitResumes(d, bits, k, later);
      SameFirstStep(Back(d, k), Back(s.d, k), later);
    }
  }

  lemma SameFirstStep(d: Decoder, e: Decoder, bits: seq<bit>)
    requires Began(d, bits) && Began(e, bits) && StepOn(d, bits) == StepOn(e, bits)
    ensures Run(d, bits) == Run(e, bits)
  {
    hide StepOn;
    StepAdvances(d, bits);
    StepAdvances(e, bits);
  }

  // ---- Feeding a stream ----------------------------------------------------------

  datatype ErrorCode = TruncatedStream | CorruptStream

  /** A stream being inflated: still waiting, over with what followed it, or refused. */
  datatype Session =
    | Open(d: Decoder, held: seq<byte>)
    | Closed(out: seq<byte>, leftover: seq<byte>)
    | Failed(code: ErrorCode)

  predicate Live(s: Session) {
    s.Open? ==> Ready(s.d) && s.d.at <= 8 * |s.held|
  }

  function Start(size: nat, zlib: bool): (s: Session)
    ensures Live(s)
  {
    Open(Fresh(size, zlib), [])
  }

  /** What a run over `input` leaves: whole bytes already read are dropped when it
      waits, and handed back past the end when it is done. */
  function Settle(r: Outcome, input: seq<byte>, atEnd: bool): Session
    requires !r.Broken? ==> (if r.Ended? then r.at else r.d.at) <= 8 * |input|
  {
    match r
    case Broken => Failed(CorruptStream)
    case Ended(out, at) => Closed(out, input[at / 8..])
    case Waiting(d) =>
      if atEnd then Failed(TruncatedStream) else Open(d.(at := d.at % 8), input[d.at / 8..])
  }

  lemma {:induction false} RunStays(d: Decoder, bits: seq<bit>)
    requires Began(d, bits)
    ensures match Run(d, bits)
            case Broken => true
            case Ended(_, at) => d.at <= at <= |bits|
            case Waiting(d') => d.at <= d'.at <= |bits| && Ready(d')
    decreases |bits| - d.at, StoredRank(d)
  {
    hide StepOn;
    StepAdvances(d, bits);
    var s := StepOn(d, bits);
    if s.Continue? {
      RunStays(s.d, bits);
    }
  }

  lemma SettleIsLive(r: Outcome, input: seq<byte>, atEnd: bool)
    requires !r.Broken? ==> (if r.Ended? then r.at else r.d.at) <= 8 * |input|
    requires r.Waiting? ==> Ready(r.d)
    ensures Live(Settle(r, input, atEnd))
  {
    if r.Waiting? {
      assert (r.d.at % 8) % 8 == r.d.at % 8;
    }
  }

  function Push(s: Session, chunk: seq<byte>, atEnd: bool): (t: Session)
    requires Live(s) && s.Open?
    ensures Live(t)
  {
    var input := s.held + chunk;
    hide StepOn, Run, Settle;
    RunStays(s.d, Unpack(input));
    SettleIsLive(Run(s.d, Unpack(input)), input, atEnd);
    Settle(Run(s.d, Unpack(input)), input, atEnd)
  }

  lemma SettleMoves(r: Outcome, a: seq<byte>, b: seq<byte>, j: nat, atEnd: bool)
    requires !r.Broken? ==> 8 * j <= (if r.Ended? then r.at else r.d.at) <= 8 * |a + b|
    requires j <= |a|
    ensures var r' := match r
                      case Broken => Broken
                      case Ended(out, at) => Ended(out, at - 8 * j)
                      case Waiting(d) => Waiting(Back(d, 8 * j));
            Settle(r, a + b, atEnd) == Settle(r', a[j..] + b, atEnd)
  {
    if !r.Broken? {
      var at := if r.Ended? then r.at else r.d.at;
      assert (at - 8 * j) / 8 == at / 8 - j && (at - 8 * j) % 8 == at % 8;
      assert a[j..] + b == (a + b)[j..];
      assert (a + b)[at / 8..] == (a + b)[j..][at / 8 - j..];
    }
  }

  lemma SettleWaits(r: Outcome, input: seq<byte>)
    requires r.Waiting? && r.d.at <= 8 * |input|
    ensures Settle(r, input, false) == Open(Back(r.d, 8 * (r.d.at / 8)), input[r.d.at / 8..])
  {
  }

  lemma SettleEnds(out: seq<byte>, at: nat, input: seq<byte>, b: seq<byte>, atEnd: bool)
    requires at <= 8 * |input|
    ensures Settle(Ended(out, at), input, false) == Closed(out, input[at / 8..])
    ensures Settle(Ended(out, at), input + b, atEnd) == Closed(out, input[at / 8..] + b)
  {
  }

  lemma SettleBreaks(input: seq<byte>, atEnd: bool)
    ensures Settle(Broken, input, atEnd) == Failed(CorruptStream)
  {
  }

  /** Two chunks are one: pushing `a` and then `b` ends exactly as pushing both at
      once, and once `a` ended the stream, `b` only joins what is left over. */
  lemma PushSplits(s: Session, a: seq<byte>, b: seq<byte>, atEnd: bool)
    requires Live(s) && s.Open?
    ensures match Push(s, a, false)
            case Open(_, _) => Push(s, a + b, atEnd) == Push(Push(s, a, false), b, atEnd)
            case Closed(out, leftover) => Push(s, a + b, atEnd) == Closed(out, leftover + b)
            case Failed(code) => code == CorruptStream && Push(s, a + b, atEnd) == Failed(code)
  {
    hide StepOn, Run, Settle;
    var input := s.held + a;
    assert s.held + (a + b) == input + b;
    var bits, whole := Unpack(input), Unpack(input + b);
    UnpackConcat(input, b);
    assert whole[..|bits|] == bits;
    RunStays(s.d, bits);
    RunStays(s.d, whole);
    RunMoves(s.d, bits, 0, whole);
    assert Back(s.d, 0) == s.d;
    var r := Run(s.d, bits);
    if r.Broken? {
      SettleBreaks(input, false);
      SettleBreaks(input + b, atEnd);
    } else if r.Ended? {
      SettleEnds(r.out, r.at, input, b, atEnd);
    } else {
      var j := r.d.at / 8;
      assert Back(r.d, 0) == r.d;
      UnpackDrop(input + b, j);
      assert (input + b)[j..] == input[j..] + b;
      RunMoves(r.d, whole, 8 * j, Unpack(input[j..] + b));
      assert Run(s.d, whole) == Run(r.d, whole);
      SettleMoves(Run(r.d, whole), input, b, j, atEnd);
      SettleWaits(r, input);
    }
  }

  lemma WaitIsNotOver(d: Decoder, bits: seq<bit>)
    requires Began(d, bits) && StepOn(d, bits).Wait?
    ensures StepOn(d, bits).d.phase != Finished
  {
    hide StepBlockHeader, StepStored, ReadZlibHeader, ReadToken, ReadChecksum, StepZlib, StepChecksum, StepToken,
         Window;
    if d.phase == Stored {
      var available := StoredWaits(d, bits);
    } else if d.phase == BlockHeader {
      assert Window(bits, 0, bits) by { WindowOfItself(bits); }
      HeaderResumes(d, bits, 0, bits);
    } else {
      WaitKeeps(d, bits);
    }
  }

  lemma WindowOfItself(bits: seq<bit>)
    ensures Window(bits, 0, bits)
  {
    assert bits[0..] == bits[..|bits|];
  }

  lemma {:induction false} WaitingIsNotOver(d: Decoder, bits: seq<bit>)
    requires Began(d, bits)
    ensures Run(d, bits).Waiting? ==> Run(d, bits).d.phase != Finished
    decreases |bits| - d.at, StoredRank(d)
  {
    hide StepOn;
    StepAdvances(d, bits);
    if StepOn(d, bits).Continue? {
      WaitingIsNotOver(StepOn(d, bits).d, bits);
    } else if StepOn(d, bits).Wait? {
      WaitIsNotOver(d, bits);
    }
  }

  /** A session that is open has not reached its end. */
  lemma OpenIsNotOver(s: Session, chunk: seq<byte>, atEnd: bool)
    requires Live(s) && s.Open?
    ensures Push(s, chunk, atEnd).Open? ==> Push(s, chunk, atEnd).d.phase != Finished
  {
    hide Run, StepOn;
    RunStays(s.d, Unpack(s.held + chunk));
    WaitingIsNotOver(s.d, Unpack(s.held + chunk));
  }

  /** What is left over is the tail of the input. */
  lemma LeftoverIsTail(s: Session, chunk: seq<byte>, atEnd: bool)
    requires Live(s) && s.Open?
    ensures var t, input := Push(s, chunk, atEnd), s.held + chunk;
            t.Closed? ==> |t.leftover| <= |input| && t.leftover == input[|input| - |t.leftover|..]
  {
    hide Run, StepOn;
    RunStays(s.d, Unpack(s.held + chunk));
  }

  /** Chunks pushed in order until the stream ends; what comes after the end is
      left over. Only the last chunk may say that no more bytes exist. */
  function Feed(s: Session, chunks: seq<seq<byte>>, atEnd: bool): Session
    requires Live(s)
    decreases |chunks|
  {
    if chunks == [] then s
    else
      match s
      case Open(_, _) => Feed(Push(s, chunks[0], atEnd && |chunks| == 1), chunks[1..], atEnd)
      case Closed(out, leftover) => Closed(out, leftover + Flatten(chunks))
      case Failed(_) => s
  }

  /** Chunk boundaries never matter: whatever the chunks, the stream ends as if
      all their bytes had been pushed at once. */
  lemma {:induction false} ChunksDoNotMatter(s: Session, chunks: seq<seq<byte>>, atEnd: bool)
    requires Live(s) && s.Open? && chunks != []
    ensures Feed(s, chunks, atEnd) == Push(s, Flatten(chunks), atEnd)
    decreases |chunks|
  {
    hide Push;
    var first, rest := chunks[0], chunks[1..];
    if rest == [] {
      assert first + Flatten(rest) == first;
      assert Feed(s, chunks, atEnd) == Feed(Push(s, first, atEnd), rest, atEnd);
    } else {
      PushSplits(s, first, Flatten(rest), atEnd);
      var t := Push(s, first, false);
      if t.Open? {
        ChunksDoNotMatter(t, rest, atEnd);
      } else if t.Failed? {
        assert Feed(t, rest, atEnd) == t;
      }
    }
  }
}
