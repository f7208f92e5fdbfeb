/** Whole zlib streams: every sequence of blocks, spelled as bits and packed into
    bytes, is inflated back to what it means, and what follows it is left over. */
module DeflateStream {
  import opened Bits
  import opened Huffman
  import opened Inflate
  import opened Deflate
  import opened DeflateHeader
  import Adler32Sum
  import Chunks

  // ---- Blocks -----------------------------------------------------------------------

  /** What a compressor fills up to a byte boundary with: any bits. */
  type Fill = fill: seq<bit> | |fill| == 7 witness [0, 0, 0, 0, 0, 0, 0]

  datatype Piece =
    | Raw(fill: Fill, data: seq<byte>)
    | Fixed(items: seq<Item>)
    | Dynamic(header: Header, items: seq<Item>)

  predicate IsPiece(p: Piece) {
    match p
    case Raw(_, data) => |data| <= 65535
    case Fixed(items) => AllEncodable(FixedLiteralLengths(), FixedDistanceLengths(), items)
    case Dynamic(h, items) =>
      IsHeader(h) && Worded(h.literals, 256) && AllEncodable(h.literals, h.distances, items)
  }

  /** The bytes a block adds to what came before it. */
  ghost predicate PieceAdds(out: seq<byte>, p: Piece, next: seq<byte>) {
    match p
    case Raw(_, data) => next == out + data
    case Fixed(items) => AllAdd(out, items, next)
    case Dynamic(_, items) => AllAdd(out, items, next)
  }

  function Pad(fill: Fill, n: nat): (word: seq<bit>)
    requires n < 8
    ensures |word| == n
  {
    fill[..n]
  }

  function RawBits(fill: Fill, data: seq<byte>, at: nat): seq<bit>
    requires |data| <= 65535
  {
    Pad(fill, Align(at) - at) + ((Lsb(|data|, 16) + Lsb(65535 - |data|, 16)) + Unpack(data))
  }

  /** The block after its final-block bit, spelled from position `at`. */
  function KindBits(p: Piece, at: nat): seq<bit>
    requires IsPiece(p)
  {
    match p
    case Raw(fill, data) => Lsb(0, 2) + RawBits(fill, data, at + 2)
    case Fixed(items) =>
      FixedWords(256);
      Lsb(1, 2) + BodyBits(FixedLiteralLengths(), FixedDistanceLengths(), items)
    case Dynamic(h, items) => Lsb(2, 2) + (HeaderBits(h) + BodyBits(h.literals, h.distances, items))
  }

  function PieceBits(p: Piece, last: bool, at: nat): seq<bit>
    requires IsPiece(p)
  {
    [if last then 1 else 0] + KindBits(p, at + 1)
  }

  // ---- The fixed codes are codes ------------------------------------------------------

  lemma {:induction false} FixedCounts(n: nat)
    requires n <= 288
    ensures var ls := FixedLiteralLengths();
            && CountBefore(ls, 7, n) == (if n <= 256 then 0 else if n <= 280 then n - 256 else 24)
            && CountBefore(ls, 8, n) == (if n <= 144 then n else if n <= 280 then 144 else n - 136)
            && CountBefore(ls, 9, n) == (if n <= 144 then 0 else if n <= 256 then n - 144 else 112)
            && forall l: nat :: l < 7 ==> CountBefore(ls, l, n) == 0
  {
    if n > 0 {
      FixedCounts(n - 1);
    }
  }

  lemma {:induction false} NoShortCodes(ls: Lengths, m: nat)
    requires forall l: nat :: l < m ==> Count(ls, l) == 0
    ensures First(ls, m) == 0
  {
    if m > 1 {
      NoShortCodes(ls, m - 1);
    }
  }

  lemma {:induction false} FixedDistanceCounts(n: nat)
    requires n <= 30
    ensures CountBefore(FixedDistanceLengths(), 5, n) == n
    ensures forall l: nat :: l < 5 ==> CountBefore(FixedDistanceLengths(), l, n) == 0
  {
    if n > 0 {
      FixedDistanceCounts(n - 1);
    }
  }

  /** The words of section 3.2.6 of RFC 1951. */
  function FixedWord(s: nat): seq<bit>
    requires s < 288
  {
    if s < 144 then Msb(48 + s, 8)
    else if s < 256 then Msb(400 + (s - 144), 9)
    else if s < 280 then Msb(s - 256, 7)
    else Msb(192 + (s - 280), 8)
  }

  lemma FixedCode(s: nat)
    requires s < 288
    ensures Code(FixedLiteralLengths(), s) ==
      if s < 144 then 48 + s else if s < 256 then 256 + s else if s < 280 then s - 256 else s - 88
  {
    FixedFirsts();
    FixedCounts(s);
    hide First, CountBefore;
  }

  /** The fixed code has just these words. */
  lemma FixedWords(s: nat)
    requires s < 288
    ensures Worded(FixedLiteralLengths(), s) && CodeBits(FixedLiteralLengths(), s) == FixedWord(s)
  {
    hide Code, Msb, Shl;
    FixedCode(s);
    Powers();
  }

  lemma FixedFirsts()
    ensures var ls := FixedLiteralLengths(); First(ls, 7) == 0 && First(ls, 8) == 48 && First(ls, 9) == 400
  {
    FixedCounts(288);
    NoShortCodes(FixedLiteralLengths(), 7);
  }

  /** And that for distances has the number itself. */
  lemma FixedDistanceWords(d: nat)
    requires d < 30
    ensures Worded(FixedDistanceLengths(), d) && CodeBits(FixedDistanceLengths(), d) == Msb(d, 5)
  {
    FixedDistanceCounts(30);
    FixedDistanceCounts(d);
    NoShortCodes(FixedDistanceLengths(), 5);
    Powers();
  }

  // ---- Blocks are read ------------------------------------------------------------------

  lemma AlignSpans(at: nat)
    ensures at <= Align(at) < at + 8 && Align(at) % 8 == 0
  {
  }

  lemma StoredIsRead(fill: Fill, data: seq<byte>, bits: seq<bit>, at: nat)
    requires |data| <= 65535 && Spelled(bits, at, RawBits(fill, data, at))
    ensures ReadStoredLength(bits, at) == Got(|data|, Align(at) + 32)
    ensures Spelled(bits, Align(at) + 32, Unpack(data))
    ensures |RawBits(fill, data, at)| == Align(at) - at + 32 + 8 * |data|
  {
    hide Align, Lsb, Unpack, ReadBits, Spelled;
    AlignSpans(at);
    var n := |data|;
    var head := Lsb(n, 16) + Lsb(65535 - n, 16);
    SpelledParts(bits, at, Pad(fill, Align(at) - at), head + Unpack(data));
    SpelledParts(bits, Align(at), head, Unpack(data));
    SpelledParts(bits, Align(at), Lsb(n, 16), Lsb(65535 - n, 16));
    ShlSixteen();
    NumberIsRead(bits, Align(at), n, 16);
    NumberIsRead(bits, Align(at) + 16, 65535 - n, 16);
  }

  lemma ShlSixteen()
    ensures Shl(1, 16) == 65536
  {
    ShlOf8();
    ShlAdd(1, 8, 8);
    assert Shl(256, 8) == 65536 by {
      assert Shl(256, 8) == 4 * Shl(256, 6) == 16 * Shl(256, 4) == 64 * Shl(256, 2);
    }
  }

  lemma RunStep(d: Decoder, bits: seq<bit>, e: Decoder)
    requires Began(d, bits) && StepOn(d, bits) == Continue(e)
    ensures Began(e, bits) && Run(d, bits) == Run(e, bits)
  {
    hide StepOn;
    StepAdvances(d, bits);
  }

  lemma HeaderStep(d: Decoder, bits: seq<bit>)
    requires Began(d, bits) && d.phase == BlockHeader
    ensures StepOn(d, bits) == StepBlockHeader(d, bits)
  {
    hide StepBlockHeader;
  }

  lemma RunBlock(d: Decoder, bits: seq<bit>, last: bool, block: Block, next: nat)
    requires Began(d, bits) && d.phase == BlockHeader && d.at < |bits| && bits[d.at] == (if last then 1 else 0)
    requires ReadBlock(bits, d.at + 1) == Got(block, next)
    ensures var e := Begin(d.(at := next, last := last), block);
            Began(e, bits) && Run(d, bits) == Run(e, bits)
  {
    hide ReadBlock, Begin, StepOn, Run;
    HeaderStep(d, bits);
    RunStep(d, bits, Begin(d.(at := next, last := last), block));
  }

  lemma StoredStep(d: Decoder, bits: seq<bit>, data: seq<byte>)
    requires Began(d, bits) && d.phase == Stored && d.remaining == |data|
    requires Spelled(bits, d.at, Unpack(data))
    ensures StepOn(d, bits) == TakeStored(d, data)
  {
    hide BytesAt, TakeStored, Spelled;
    BytesAreRead(data, bits, d.at);
    assert d.at + 8 * |data| <= |bits| by { SpelledFits(bits, d.at, Unpack(data)); }
    assert (|bits| - d.at) / 8 >= |data|;
  }

  lemma SpelledFits(bits: seq<bit>, at: nat, word: seq<bit>)
    requires Spelled(bits, at, word)
    ensures at + |word| <= |bits|
  {
  }

  /** A stored block whose bytes are all here is copied whole. */
  lemma RunStored(d: Decoder, bits: seq<bit>, data: seq<byte>)
    requires Began(d, bits) && d.phase == Stored && d.remaining == |data| && |d.out| + |data| <= d.size
    requires Spelled(bits, d.at, Unpack(data))
    ensures var e := AfterBlock(d.(at := d.at + 8 * |data|, out := d.out + data, remaining := 0));
            Began(e, bits) && Run(d, bits) == Run(e, bits)
  {
    hide AfterBlock, StepOn, Run, Spelled;
    StoredStep(d, bits, data);
    RunStep(d, bits, AfterBlock(d.(at := d.at + 8 * |data|, out := d.out + data, remaining := 0)));
  }

  lemma BytesAreRead(data: seq<byte>, bits: seq<bit>, at: nat)
    requires Spelled(bits, at, Unpack(data))
    ensures BytesAt(bits, at, |data|) == data
  {
    var n := |data|;
    assert bits[at..][..8 * n] == Unpack(data);
    BytesOfInput(data, 0, n);
    assert data[0..n] == data;
    assert Unpack(data)[0..] == Unpack(data);
    BytesAtMoves(Unpack(data), 0, n, 0, bits[at..]);
    BytesAtMoves(bits, at, n, at, bits[at..]);
  }

  /** Block `p` is spelled at `at` and stops at `end`. */
  predicate PieceSpelled(bits: seq<bit>, at: nat, p: Piece, last: bool, end: nat) {
    IsPiece(p) && Spelled(bits, at, PieceBits(p, last, at)) && end == at + |PieceBits(p, last, at)|
  }

  /** The decoder after a block that stops at `end`: what matters of it is what the block meant. */
  predicate After(d: Decoder, end: nat, last: bool, next: seq<byte>, e: Decoder) {
    && e.out == next && e.size == d.size && e.checksummed == d.checksummed
    && (if !last then e.phase == BlockHeader && e.at == end
        else if d.checksummed then e.phase == Checksum && e.at == end
        else e.phase == Finished && e.at == Align(end))
  }

  /** The final-block bit and the two bits of the block's kind. */
  lemma KindIsRead(bits: seq<bit>, at: nat, last: bool, kind: nat, rest: seq<bit>)
    requires kind < 4 && Spelled(bits, at, [if last then 1 else 0] + (Lsb(kind, 2) + rest))
    ensures at < |bits| && bits[at] == (if last then 1 else 0)
    ensures ReadBits(bits, at + 1, 2) == Got(kind, at + 3) && Spelled(bits, at + 3, rest)
  {
    hide ReadBits, Lsb;
    SpelledParts(bits, at, [if last then 1 else 0], Lsb(kind, 2) + rest);
    assert bits[at] == bits[at..at + 1][0];
    SpelledParts(bits, at + 1, Lsb(kind, 2), rest);
    ShlSmall();
    NumberIsRead(bits, at + 1, kind, 2);
  }

  lemma RawIsRead(bits: seq<bit>, at: nat, fill: Fill, data: seq<byte>, last: bool, end: nat) returns (start: nat)
    requires PieceSpelled(bits, at, Raw(fill, data), last, end)
    ensures at < |bits| && bits[at] == (if last then 1 else 0)
    ensures ReadBlock(bits, at + 1) == Got(StoredBlock(|data|), start)
    ensures Spelled(bits, start, Unpack(data)) && end == start + 8 * |data|
  {
    hide RawBits, Lsb, Unpack, ReadStoredLength, Align, ReadBits, ReadDynamicLengths, Spelled;
    KindIsRead(bits, at, last, 0, RawBits(fill, data, at + 3));
    StoredIsRead(fill, data, bits, at + 3);
    start := Align(at + 3) + 32;
  }

  lemma RawRuns(d: Decoder, bits: seq<bit>, fill: Fill, data: seq<byte>, last: bool, next: seq<byte>, end: nat)
      returns (e: Decoder)
    requires Began(d, bits) && d.phase == BlockHeader && |next| <= d.size
    requires next == d.out + data && PieceSpelled(bits, d.at, Raw(fill, data), last, end)
    ensures Began(e, bits) && Run(d, bits) == Run(e, bits) && After(d, end, last, next, e)
  {
    hide Run, StepOn, PieceSpelled, Spelled, Unpack, ReadBlock, Table, Align;
    var start := RawIsRead(bits, d.at, fill, data, last, end);
    RunBlock(d, bits, last, StoredBlock(|data|), start);
    var begun := d.(at := start, last := last, phase := Stored, remaining := |data|);
    RunStored(begun, bits, data);
    e := AfterBlock(begun.(at := end, out := next, remaining := 0));
  }

  lemma CompressedRuns(
      d: Decoder, bits: seq<bit>, block: Block, from: nat, literals: Lengths, distances: Lengths, items: seq<Item>,
      last: bool, next: seq<byte>)
      returns (e: Decoder)
    requires Began(d, bits) && d.phase == BlockHeader && d.at < |bits| && bits[d.at] == (if last then 1 else 0)
    requires ReadBlock(bits, d.at + 1) == Got(block, from)
    requires Begin(d, block) == d.(phase := Compressed, literals := Build(literals), distances := Build(distances))
    requires Worded(literals, 256) && AllEncodable(literals, distances, items)
    requires AllAdd(d.out, items, next) && |next| <= d.size
    requires Spelled(bits, from, BodyBits(literals, distances, items))
    ensures Began(e, bits) && Run(d, bits) == Run(e, bits)
    ensures e == AfterBlock(d.(at := from + |BodyBits(literals, distances, items)|, out := next, last := last,
                               phase := Compressed, literals := Build(literals), distances := Build(distances)))
  {
    hide Run, StepOn, ReadBlock, Build, BodyBits, Code, AllAdd, AllEncodable, Spelled, AfterBlock, Begin, Table;
    RunBlock(d, bits, last, block, from);
    var begun := Begin(d.(at := from, last := last), block);
    BeginMoves(d, block, from, last);
    BodyRuns(begun, bits, literals, distances, items, next);
    e := AfterBlock(begun.(at := from + |BodyBits(literals, distances, items)|, out := next));
  }

  lemma BeginMoves(d: Decoder, block: Block, from: nat, last: bool)
    ensures Begin(d.(at := from, last := last), block) == Begin(d, block).(at := from, last := last)
  {
    hide Build, FixedLiterals, FixedDistances;
  }

  lemma FixedIsRead(bits: seq<bit>, at: nat, items: seq<Item>, last: bool, end: nat)
    requires PieceSpelled(bits, at, Fixed(items), last, end)
    ensures at < |bits| && bits[at] == (if last then 1 else 0) && ReadBlock(bits, at + 1) == Got(FixedBlock, at + 3)
    ensures var literals, distances := FixedLiteralLengths(), FixedDistanceLengths();
            && Worded(literals, 256) && AllEncodable(literals, distances, items)
            && Spelled(bits, at + 3, BodyBits(literals, distances, items))
            && end == at + 3 + |BodyBits(literals, distances, items)|
  {
    hide BodyBits, Code, AllEncodable, Lsb, ReadBits, FixedLiteralLengths, FixedDistanceLengths;
    FixedWords(256);
    KindIsRead(bits, at, last, 1, BodyBits(FixedLiteralLengths(), FixedDistanceLengths(), items));
  }

  lemma FixedRuns(d: Decoder, bits: seq<bit>, items: seq<Item>, last: bool, next: seq<byte>, end: nat)
      returns (e: Decoder)
    requires Began(d, bits) && d.phase == BlockHeader && |next| <= d.size
    requires AllAdd(d.out, items, next) && PieceSpelled(bits, d.at, Fixed(items), last, end)
    ensures Began(e, bits) && Run(d, bits) == Run(e, bits) && After(d, end, last, next, e)
  {
    hide Run, StepOn, Build, BodyBits, Code, AllAdd, AllEncodable, Align, Table, ReadBlock, PieceSpelled, Spelled,
         FixedLiteralLengths, FixedDistanceLengths;
    FixedIsRead(bits, d.at, items, last, end);
    e := CompressedRuns(d, bits, FixedBlock, d.at + 3, FixedLiteralLengths(), FixedDistanceLengths(), items, last,
      next);
  }

  lemma DynamicIsRead(bits: seq<bit>, at: nat, h: Header, items: seq<Item>, last: bool, end: nat) returns (start: nat)
    requires PieceSpelled(bits, at, Dynamic(h, items), last, end)
    ensures at < |bits| && bits[at] == (if last then 1 else 0)
    ensures ReadBlock(bits, at + 1) == Got(DynamicBlock(h.literals, h.distances), start)
    ensures Worded(h.literals, 256) && AllEncodable(h.literals, h.distances, items)
    ensures var body := BodyBits(h.literals, h.distances, items);
            Spelled(bits, start, body) && end == start + |body|
  {
    hide BodyBits, Code, AllEncodable, Lsb, ReadBits, ReadDynamicLengths, HeaderBits, IsHeader, ReadStoredLength,
         Spelled;
    var header, body := HeaderBits(h), BodyBits(h.literals, h.distances, items);
    KindIsRead(bits, at, last, 2, header + body);
    SpelledParts(bits, at + 3, header, body);
    HeaderIsRead(h, bits, at + 3);
    start := at + 3 + |header|;
  }

  lemma DynamicRuns(d: Decoder, bits: seq<bit>, h: Header, items: seq<Item>, last: bool, next: seq<byte>, end: nat)
      returns (e: Decoder)
    requires Began(d, bits) && d.phase == BlockHeader && |next| <= d.size
    requires AllAdd(d.out, items, next) && PieceSpelled(bits, d.at, Dynamic(h, items), last, end)
    ensures Began(e, bits) && Run(d, bits) == Run(e, bits) && After(d, end, last, next, e)
  {
    hide Run, StepOn, Build, BodyBits, Code, AllAdd, AllEncodable, Align, Table, ReadBlock, PieceSpelled, Spelled;
    var start := DynamicIsRead(bits, d.at, h, items, last, end);
    e := CompressedRuns(d, bits, DynamicBlock(h.literals, h.distances), start, h.literals, h.distances, items, last,
      next);
  }

  // ---- Streams of blocks -----------------------------------------------------------------

  predicate ArePieces(pieces: seq<Piece>) {
    pieces != [] && forall i :: 0 <= i < |pieces| ==> IsPiece(pieces[i])
  }

  function PiecesBits(pieces: seq<Piece>, at: nat): seq<bit>
    requires ArePieces(pieces)
    decreases |pieces|
  {
    var first := PieceBits(pieces[0], |pieces| == 1, at);
    first + if |pieces| == 1 then [] else PiecesBits(pieces[1..], at + |first|)
  }

  /** `pieces`, one after another, turn `out` into `next`. */
  ghost predicate PiecesAdd(out: seq<byte>, pieces: seq<Piece>, next: seq<byte>)
    decreases |pieces|
  {
    if pieces == [] then next == out
    else exists mid :: PieceAdds(out, pieces[0], mid) && PiecesAdd(mid, pieces[1..], next)
  }

  lemma {:induction false} PiecesGrow(out: seq<byte>, pieces: seq<Piece>, next: seq<byte>)
    requires PiecesAdd(out, pieces, next)
    ensures |out| <= |next|
    decreases |pieces|
  {
    if pieces != [] {
      var mid :| PieceAdds(out, pieces[0], mid) && PiecesAdd(mid, pieces[1..], next);
      match pieces[0] {
        case Raw(_, _) =>
        case Fixed(items) => AllAddGrows(out, items, mid);
        case Dynamic(_, items) => AllAddGrows(out, items, mid);
      }
      PiecesGrow(mid, pieces[1..], next);
    }
  }

  lemma PieceRuns(d: Decoder, bits: seq<bit>, p: Piece, last: bool, next: seq<byte>, end: nat) returns (e: Decoder)
    requires Began(d, bits) && d.phase == BlockHeader && |next| <= d.size
    requires PieceAdds(d.out, p, next) && PieceSpelled(bits, d.at, p, last, end)
    ensures Began(e, bits) && Run(d, bits) == Run(e, bits) && After(d, end, last, next, e)
  {
    hide Run, StepOn, Began, AllAdd, PieceSpelled, After;
    match p {
      case Raw(fill, data) => e := RawRuns(d, bits, fill, data, last, next, end);
      case Fixed(items) => e := FixedRuns(d, bits, items, last, next, end);
      case Dynamic(h, items) => e := DynamicRuns(d, bits, h, items, last, next, end);
    }
  }

  /** The blocks are spelled at `at`, one after another, and stop at `end`. */
  predicate PiecesSpelled(bits: seq<bit>, at: nat, pieces: seq<Piece>, end: nat) {
    ArePieces(pieces) && Spelled(bits, at, PiecesBits(pieces, at)) && end == at + |PiecesBits(pieces, at)|
  }

  lemma FirstIsSpelled(bits: seq<bit>, at: nat, pieces: seq<Piece>, end: nat) returns (mid: nat)
    requires PiecesSpelled(bits, at, pieces, end)
    ensures PieceSpelled(bits, at, pieces[0], |pieces| == 1, mid)
    ensures if |pieces| == 1 then mid == end else PiecesSpelled(bits, mid, pieces[1..], end)
  {
    hide IsPiece, PieceBits, Spelled;
    var first := PieceBits(pieces[0], |pieces| == 1, at);
    mid := at + |first|;
    SpelledParts(bits, at, first, if |pieces| == 1 then [] else PiecesBits(pieces[1..], mid));
  }

  lemma {:induction false} PiecesRun(d: Decoder, bits: seq<bit>, pieces: seq<Piece>, next: seq<byte>, end: nat)
      returns (e: Decoder)
    requires Began(d, bits) && d.phase == BlockHeader && |next| <= d.size
    requires pieces != [] && PiecesAdd(d.out, pieces, next) && PiecesSpelled(bits, d.at, pieces, end)
    ensures Began(e, bits) && Run(d, bits) == Run(e, bits) && After(d, end, true, next, e)
    decreases |pieces|
  {
    hide Run, StepOn, Ready, PieceAdds, PieceSpelled, PiecesSpelled, Align;
    var last := |pieces| == 1;
    var out :| PieceAdds(d.out, pieces[0], out) && PiecesAdd(out, pieces[1..], next);
    PiecesGrow(out, pieces[1..], next);
    var mid := FirstIsSpelled(bits, d.at, pieces, end);
    var after := PieceRuns(d, bits, pieces[0], last, out, mid);
    if last {
      e := after;
    } else {
      e := PiecesRun(after, bits, pieces[1..], next, end);
    }
  }

  // ---- The zlib wrapping ---------------------------------------------------------------------

  /** CMF and FLG as section 2.2 of RFC 1950 allows them without a dictionary. */
  predicate IsZlibHeader(cmf: byte, flg: byte) {
    cmf % 16 == 8 && (flg / 32) % 2 == 0 && (256 * cmf + flg) % 31 == 0
  }

  /** Two sums, highest byte first. */
  function SumsBits(high: nat, low: nat): (word: seq<bit>)
    ensures |word| == 32
  {
    (Lsb(high / 256, 8) + Lsb(high % 256, 8)) + (Lsb(low / 256, 8) + Lsb(low % 256, 8))
  }

  /** The two sums of section 8.2 of RFC 1950. */
  function SumBits(out: seq<byte>): (word: seq<bit>)
    ensures |word| == 32
  {
    SumsBits((|out| + Adler32Sum.Weighted(out)) % 65521, (1 + Adler32Sum.Total(out)) % 65521)
  }

  lemma {:induction false} AdlerBound(out: seq<byte>)
    ensures AdlerLow(out) < 65536 && AdlerHigh(out) < 65536
  {
  }

  lemma SumsAgree(out: seq<byte>)
    ensures SumBits(out) == SumsBits(AdlerHigh(out), AdlerLow(out))
  {
    hide SumsBits, AdlerLow, AdlerHigh, Adler32Sum.Total, Adler32Sum.Weighted;
    Adler32Sum.AdlerIsSums(out);
  }

  /** Blocks between the header and the checksum, padded to a byte boundary. */
  function Sealed(head: seq<bit>, body: seq<bit>, fill: Fill, sum: seq<bit>): (bits: seq<bit>)
    requires |head| == 16 && |sum| == 32
    ensures |bits| % 8 == 0
  {
    hide Align;
    var end := 16 + |body|;
    AlignSpans(end);
    head + (body + (Pad(fill, Align(end) - end) + sum))
  }

  /** A zlib stream for `out`: header, blocks, padding and checksum. */
  function ZlibBits(cmf: byte, flg: byte, pieces: seq<Piece>, fill: Fill, out: seq<byte>): (bits: seq<bit>)
    requires ArePieces(pieces)
    ensures |bits| % 8 == 0
  {
    Sealed(Lsb(cmf, 8) + Lsb(flg, 8), PiecesBits(pieces, 16), fill, SumBits(out))
  }

  lemma PairIsRead(bits: seq<bit>, at: nat, x: nat, y: nat)
    requires x < 256 && y < 256 && Spelled(bits, at, Lsb(x, 8) + Lsb(y, 8))
    ensures ReadPair(bits, at, 8, 8) == Got((x, y), at + 16)
  {
    hide Spelled, Lsb, ReadBits;
    ShlOf8();
    SpelledParts(bits, at, Lsb(x, 8), Lsb(y, 8));
    NumberIsRead(bits, at, x, 8);
    NumberIsRead(bits, at + 8, y, 8);
  }

  lemma SumIsRead(d: Decoder, bits: seq<bit>)
    requires Began(d, bits) && d.phase == Checksum && |d.out| == d.size
    requires Spelled(bits, Align(d.at), SumBits(d.out))
    ensures Run(d, bits) == Ended(d.out, Align(d.at) + 32)
  {
    hide Spelled, Lsb, Align, ReadPair, SumBits, AdlerLow, AdlerHigh, ReadZlibHeader, ReadBlock, ReadToken, StepStored;
    SumsAgree(d.out);
    AdlerBound(d.out);
    var high, low := AdlerHigh(d.out), AdlerLow(d.out);
    SpelledParts(bits, Align(d.at), Lsb(high / 256, 8) + Lsb(high % 256, 8), Lsb(low / 256, 8) + Lsb(low % 256, 8));
    PairIsRead(bits, Align(d.at), high / 256, high % 256);
    PairIsRead(bits, Align(d.at) + 16, low / 256, low % 256);
    assert 16777216 * (high / 256) + 65536 * (high % 256) == 65536 * high;
    StepAdvances(d, bits);
  }

  lemma ZlibHeaderRuns(d: Decoder, bits: seq<bit>, cmf: byte, flg: byte)
    requires Began(d, bits) && d.phase == ZlibHeader && IsZlibHeader(cmf, flg)
    requires Spelled(bits, d.at, Lsb(cmf, 8) + Lsb(flg, 8))
    ensures var e := d.(at := d.at + 16, phase := BlockHeader); Began(e, bits) && Run(d, bits) == Run(e, bits)
  {
    hide Spelled, Lsb, ReadPair, ReadBlock, ReadToken, StepStored, ReadChecksum;
    PairIsRead(bits, d.at, cmf, flg);
    RunStep(d, bits, d.(at := d.at + 16, phase := BlockHeader));
  }

  lemma FreshBegan(size: nat, zlib: bool, bits: seq<bit>)
    requires Whole(bits)
    ensures Began(Fresh(size, zlib), bits)
  {
    hide Build;
  }

  /** Every zlib stream runs to its end and means what its blocks mean. */
  lemma ZlibRuns(cmf: byte, flg: byte, pieces: seq<Piece>, fill: Fill, out: seq<byte>, bits: seq<bit>)
    requires IsZlibHeader(cmf, flg) && ArePieces(pieces) && PiecesAdd([], pieces, out)
    requires Whole(bits) && Spelled(bits, 0, ZlibBits(cmf, flg, pieces, fill, out))
    ensures Began(Fresh(|out|, true), bits)
    ensures Run(Fresh(|out|, true), bits) == Ended(out, |ZlibBits(cmf, flg, pieces, fill, out)|)
  {
    hide Run, StepOn, Ready, PiecesBits, Spelled, Align, SumBits, IsZlibHeader, PiecesAdd, Build, Lsb, IsPiece;
    FreshBegan(|out|, true, bits);
    var d := Fresh(|out|, true);
    var head, body := Lsb(cmf, 8) + Lsb(flg, 8), PiecesBits(pieces, 16);
    var end := 16 + |body|;
    AlignSpans(end);
    var pad := Pad(fill, Align(end) - end);
    SpelledParts(bits, 0, head, body + (pad + SumBits(out)));
    SpelledParts(bits, 16, body, pad + SumBits(out));
    SpelledParts(bits, end, pad, SumBits(out));
    ZlibHeaderRuns(d, bits, cmf, flg);
    var e := PiecesRun(d.(at := 16, phase := BlockHeader), bits, pieces, out, end);
    SumIsRead(e, bits);
  }

  // ---- Without the wrapping ------------------------------------------------------------------

  function Padded(body: seq<bit>, fill: Fill): (bits: seq<bit>)
    ensures |bits| % 8 == 0
  {
    hide Align;
    AlignSpans(|body|);
    body + Pad(fill, Align(|body|) - |body|)
  }

  /** Blocks alone, padded to a byte boundary. */
  function BareBits(pieces: seq<Piece>, fill: Fill): (bits: seq<bit>)
    requires ArePieces(pieces)
    ensures |bits| % 8 == 0
  {
    hide PiecesBits;
    Padded(PiecesBits(pieces, 0), fill)
  }

  /** A raw stream ends with its last block, on a byte boundary. */
  lemma BareRuns(pieces: seq<Piece>, fill: Fill, out: seq<byte>, bits: seq<bit>)
    requires ArePieces(pieces) && PiecesAdd([], pieces, out)
    requires Whole(bits) && Spelled(bits, 0, BareBits(pieces, fill))
    ensures Began(Fresh(|out|, false), bits)
    ensures Run(Fresh(|out|, false), bits) == Ended(out, |BareBits(pieces, fill)|)
  {
    hide Run, Ready, PiecesBits, Spelled, Align, PiecesAdd, Build, IsPiece, ReadBlock, ReadToken, StepStored,
         ReadChecksum, ReadZlibHeader;
    FreshBegan(|out|, false, bits);
    var body := PiecesBits(pieces, 0);
    AlignSpans(|body|);
    SpelledParts(bits, 0, body, Pad(fill, Align(|body|) - |body|));
    var e := PiecesRun(Fresh(|out|, false), bits, pieces, out, |body|);
    assert Run(e, bits) == Ended(out, e.at) by { EndIsReached(e, bits); }
  }

  lemma EndIsReached(d: Decoder, bits: seq<bit>)
    requires Began(d, bits) && d.phase == Finished && |d.out| == d.size
    ensures Run(d, bits) == Ended(d.out, d.at)
  {
    hide ReadBlock, ReadToken, StepStored, ReadChecksum, ReadZlibHeader;
    StepAdvances(d, bits);
  }

  // ---- Packed into bytes -----------------------------------------------------------------------

  function Pack(bits: seq<bit>): seq<byte>
    requires Whole(bits)
  {
    BytesAt(bits, 0, |bits| / 8)
  }

  lemma {:induction false} BytesAtIndex(bits: seq<bit>, at: nat, count: nat, i: nat)
    requires at + 8 * count <= |bits| && i < count
    ensures BytesAt(bits, at, count)[i] == BitsAt(bits, at + 8 * i, 8)
    decreases count
  {
    hide BitsAt;
    if i < count - 1 {
      BytesAtIndex(bits, at, count - 1, i);
    }
  }

  lemma {:induction false} BitOfField(bits: seq<bit>, at: nat, n: nat, j: nat)
    requires j < n && at + n <= |bits|
    ensures Shr(BitsAt(bits, at, n), j) % 2 == bits[at + j]
    decreases n
  {
    var rest := BitsAt(bits, at + 1, n - 1);
    assert BitsAt(bits, at, n) == bits[at] + Twice(rest);
    if j > 0 {
      BitOfField(bits, at + 1, n - 1, j - 1);
      assert (bits[at] + Twice(rest)) / 2 == rest;
    }
  }

  lemma PackUnpacks(bits: seq<bit>)
    requires Whole(bits)
    ensures Unpack(Pack(bits)) == bits
  {
    var n := |bits| / 8;
    var bytes := Pack(bits);
    forall i | 0 <= i < |bits|
      ensures Bit(bytes, i) == bits[i]
    {
      BytesAtIndex(bits, 0, n, i / 8);
      BitOfField(bits, 8 * (i / 8), 8, i % 8);
    }
    assert 8 * |bytes| == |bits|;
  }

  /** A compressor's output for `out`: any header, any blocks that mean `out`, any bits to fill up with. */
  function ZlibStream(cmf: byte, flg: byte, pieces: seq<Piece>, fill: Fill, out: seq<byte>): seq<byte>
    requires ArePieces(pieces)
  {
    Pack(ZlibBits(cmf, flg, pieces, fill, out))
  }

  /** The decoder undoes every compressor: it ends with the bytes the blocks mean,
      and hands back exactly the bytes that followed the stream. */
  lemma InflateUndoesDeflate(
      cmf: byte, flg: byte, pieces: seq<Piece>, fill: Fill, out: seq<byte>, rest: seq<byte>, atEnd: bool)
    requires IsZlibHeader(cmf, flg) && ArePieces(pieces) && PiecesAdd([], pieces, out)
    ensures Chunks.Push(Chunks.Start(|out|, true), ZlibStream(cmf, flg, pieces, fill, out) + rest, atEnd)
         == Chunks.Closed(out, rest)
  {
    hide Run, StepOn, ZlibBits, IsZlibHeader, ArePieces, PiecesAdd, Build, Pack;
    var word := ZlibBits(cmf, flg, pieces, fill, out);
    var packed := ZlibStream(cmf, flg, pieces, fill, out);
    PackUnpacks(word);
    UnpackConcat(packed, rest);
    var bits := Unpack(packed + rest);
    assert bits[0..|word|] == word;
    ZlibRuns(cmf, flg, pieces, fill, out, bits);
    assert [] + (packed + rest) == packed + rest;
    assert |packed| == |word| / 8;
    assert (packed + rest)[|word| / 8..] == rest;
  }

  /** A compressor's raw output. */
  function RawStream(pieces: seq<Piece>, fill: Fill): seq<byte>
    requires ArePieces(pieces)
  {
    Pack(BareBits(pieces, fill))
  }

  /** The same for streams without header and checksum, as a compressed request carries them. */
  lemma InflateUndoesRawDeflate(pieces: seq<Piece>, fill: Fill, out: seq<byte>, rest: seq<byte>, atEnd: bool)
    requires ArePieces(pieces) && PiecesAdd([], pieces, out)
    ensures Chunks.Push(Chunks.Start(|out|, false), RawStream(pieces, fill) + rest, atEnd) == Chunks.Closed(out, rest)
  {
    hide Run, StepOn, BareBits, ArePieces, PiecesAdd, Build, Pack;
    var word := BareBits(pieces, fill);
    var packed := RawStream(pieces, fill);
    PackUnpacks(word);
    UnpackConcat(packed, rest);
    var bits := Unpack(packed + rest);
    assert bits[0..|word|] == word;
    BareRuns(pieces, fill, out, bits);
    assert [] + (packed + rest) == packed + rest;
    assert |packed| == |word| / 8;
    assert (packed + rest)[|word| / 8..] == rest;
  }
}
