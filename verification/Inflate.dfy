/** What one step of the zlib/deflate decoder does (RFC 1950 and RFC 1951), as a
    function of the bits at hand, and why it does not matter how those bits were
    cut into chunks. */
module Inflate {
  import opened Bits
  import opened Huffman

  // ---- Constants ------------------------------------------------------------

  /** Section 3.2.7 of RFC 1951: the order code lengths for the code-length code arrive in. */
  const CODE_LENGTH_ORDER: seq<nat> := [16, 17, 18, 0, 8, 7, 9, 6, 10, 5, 11, 4, 12, 3, 13, 2, 14, 1, 15]

  const LENGTH_BASE: seq<nat> := [
    3, 4, 5, 6, 7, 8, 9, 10, 11, 13, 15, 17, 19, 23, 27, 31, 35, 43, 51, 59, 67, 83, 99, 115, 131,
    163, 195, 227, 258]

  const LENGTH_EXTRA: seq<nat> := [
    0, 0, 0, 0, 0, 0, 0, 0, 1, 1, 1, 1, 2, 2, 2, 2, 3, 3, 3, 3, 4, 4, 4, 4, 5, 5, 5, 5, 0]

  const DISTANCE_BASE: seq<nat> := [
    1, 2, 3, 4, 5, 7, 9, 13, 17, 25, 33, 49, 65, 97, 129, 193, 257, 385, 513, 769, 1025, 1537, 2049,
    3073, 4097, 6145, 8193, 12289, 16385, 24577]

  const DISTANCE_EXTRA: seq<nat> := [
    0, 0, 0, 0, 1, 1, 2, 2, 3, 3, 4, 4, 5, 5, 6, 6, 7, 7, 8, 8, 9, 9, 10, 10, 11, 11, 12, 12, 13, 13]

  const LENGTH_CODES := 29
  const DISTANCE_CODES := 30

  function LengthBase(code: nat): nat
    requires code < LENGTH_CODES
  {
    LENGTH_BASE[code]
  }

  function LengthExtra(code: nat): nat
    requires code < LENGTH_CODES
  {
    LENGTH_EXTRA[code]
  }

  function DistanceBase(code: nat): (base: nat)
    requires code < DISTANCE_CODES
    ensures base > 0
  {
    DISTANCE_BASE[code]
  }

  function DistanceExtra(code: nat): nat
    requires code < DISTANCE_CODES
  {
    DISTANCE_EXTRA[code]
  }

  function FixedLiteralLengths(): Lengths {
    seq(288, i => if i < 144 then 8 else if i < 256 then 9 else if i < 280 then 7 else 8)
  }

  function FixedDistanceLengths(): Lengths {
    seq(30, i => 5)
  }

  function FixedLiterals(): (h: Huffman)
    ensures Table(h)
  {
    BuildIsTable(FixedLiteralLengths());
    Build(FixedLiteralLengths())
  }

  function FixedDistances(): (h: Huffman)
    ensures Table(h)
  {
    BuildIsTable(FixedDistanceLengths());
    Build(FixedDistanceLengths())
  }

  const ADLER_MODULUS := 65521

  /** The two running sums of section 8.2 of RFC 1950, reduced after every byte. */
  function AdlerLow(bytes: seq<byte>): nat {
    if bytes == [] then 1 else (AdlerLow(bytes[..|bytes| - 1]) + bytes[|bytes| - 1]) % ADLER_MODULUS
  }

  function AdlerHigh(bytes: seq<byte>): nat {
    if bytes == [] then 0 else (AdlerHigh(bytes[..|bytes| - 1]) + AdlerLow(bytes)) % ADLER_MODULUS
  }

  function Adler(bytes: seq<byte>): nat {
    65536 * AdlerHigh(bytes) + AdlerLow(bytes)
  }

  // ---- What a step reads ----------------------------------------------------

  /** The next byte boundary. */
  function Align(at: nat): nat {
    if at % 8 == 0 then at else at + 8 - at % 8
  }

  function ReadPair(bits: seq<bit>, at: nat, m: nat, n: nat): Read<(nat, nat)> {
    var x := ReadBits(bits, at, m);
    if !x.Got? then Short
    else
      var y := ReadBits(bits, x.at, n);
      if !y.Got? then Short else Got((x.value, y.value), y.at)
  }

  /** CMF and FLG, section 2.2 of RFC 1950: deflate, no preset dictionary, and a
      multiple of 31. */
  function ReadZlibHeader(bits: seq<bit>, at: nat): Read<()> {
    var r := ReadPair(bits, at, 8, 8);
    if !r.Got? then Short
    else
      var (cmf, flg) := r.value;
      if cmf % 16 != 8 || (flg / 32) % 2 != 0 || (256 * cmf + flg) % 31 != 0 then Bad
      else Got((), r.at)
  }

  /** LEN and its complement, section 3.2.4 of RFC 1951. */
  function ReadStoredLength(bits: seq<bit>, at: nat): Read<nat> {
    var r := ReadPair(bits, Align(at), 16, 16);
    if !r.Got? then Short
    else
      var (length, complement) := r.value;
      if length + complement != 65535 then Bad else Got(length, r.at)
  }

  function ReadCodeLengths(bits: seq<bit>, at: nat, i: nat, n: nat, lengths: Lengths): (r: Read<Lengths>)
    requires n <= 19 == |lengths|
    ensures !r.Bad?
    decreases |bits|, n - i
  {
    if i >= n then Got(lengths, at)
    else
      var r := ReadBits(bits, at, 3);
      if !r.Got? then Short
      else
        assert Shl(1, 3) == 8;
        ReadCodeLengths(bits, r.at, i + 1, n, lengths[CODE_LENGTH_ORDER[i] := r.value])
  }

  function Repeat(value: nat, count: nat): (s: seq<nat>)
    ensures |s| == count && forall i :: 0 <= i < count ==> s[i] == value
  {
    seq(count, i => value)
  }

  /** The lengths a code-length symbol stands for, given those before it. */
  function ReadRunAfter(symbol: nat, bits: seq<bit>, at: nat, before: Lengths): (r: Read<Lengths>)
    ensures r.Got? ==> |r.value| > 0
  {
    if symbol < 16 then Got([symbol], at)
    else if symbol == 16 then
      if before == [] then Bad
      else
        var n := ReadBits(bits, at, 2);
        if !n.Got? then Short else Got(Repeat(before[|before| - 1], 3 + n.value), n.at)
    else
      var n := ReadBits(bits, at, if symbol == 17 then 3 else 7);
      if !n.Got? then Short else Got(Repeat(0, (if symbol == 17 then 3 else 11) + n.value), n.at)
  }

  function ReadRun(h: Huffman, bits: seq<bit>, at: nat, before: Lengths): (r: Read<Lengths>)
    requires Table(h)
    ensures r.Got? ==> |r.value| > 0
  {
    match Decode(h, bits, at)
    case Short => Short
    case Bad => Bad
    case Got(symbol, next) => ReadRunAfter(symbol, bits, next, before)
  }

  function ReadLengths(h: Huffman, bits: seq<bit>, at: nat, total: nat, before: Lengths): (r: Read<Lengths>)
    requires Table(h) && |before| <= total
    ensures r.Got? ==> |r.value| == total
    decreases total - |before|
  {
    if |before| == total then Got(before, at)
    else
      match ReadRun(h, bits, at, before)
      case Short => Short
      case Bad => Bad
      case Got(run, next) =>
        if |before| + |run| > total then Bad
        else ReadLengths(h, bits, next, total, before + run)
  }

  /** The code lengths of both codes, themselves Huffman coded. */
  function ReadTwoCodes(
      codeLengths: Lengths, bits: seq<bit>, at: nat, literals: nat, distances: nat): Read<(Lengths, Lengths)>
  {
    BuildIsTable(codeLengths);
    match ReadLengths(Build(codeLengths), bits, at, literals + distances, [])
    case Short => Short
    case Bad => Bad
    case Got(lengths, end) => Got((lengths[..literals], lengths[literals..]), end)
  }

  function ReadCodesAfterCounts(bits: seq<bit>, at: nat, literals: nat, distances: nat): Read<(Lengths, Lengths)> {
    var codes := ReadBits(bits, at, 4);
    if !codes.Got? then Short
    else
      assert Shl(1, 4) == 16;
      var lengths := ReadCodeLengths(bits, codes.at, 0, codes.value + 4, Repeat(0, 19));
      if !lengths.Got? then Short else ReadTwoCodes(lengths.value, bits, lengths.at, literals, distances)
  }

  /** The two codes of a dynamic block, section 3.2.7 of RFC 1951. */
  function ReadDynamicLengths(bits: seq<bit>, at: nat): Read<(Lengths, Lengths)> {
    var counts := ReadPair(bits, at, 5, 5);
    if !counts.Got? then Short
    else ReadCodesAfterCounts(bits, counts.at, counts.value.0 + 257, counts.value.1 + 1)
  }

  datatype Block = StoredBlock(length: nat) | FixedBlock | DynamicBlock(literals: Lengths, distances: Lengths)

  /** A block header after its final-block bit, section 3.2.3 of RFC 1951. */
  function ReadBlock(bits: seq<bit>, at: nat): Read<Block> {
    var kind := ReadBits(bits, at, 2);
    if !kind.Got? then Short
    else if kind.value == 0 then
      match ReadStoredLength(bits, kind.at)
      case Short => Short
      case Bad => Bad
      case Got(length, end) => Got(StoredBlock(length), end)
    else if kind.value == 1 then Got(FixedBlock, kind.at)
    else if kind.value == 2 then
      match ReadDynamicLengths(bits, kind.at)
      case Short => Short
      case Bad => Bad
      case Got((literals, distances), end) => Got(DynamicBlock(literals, distances), end)
    else Bad
  }

  datatype Token = Literal(value: byte) | EndOfBlock | Match(length: nat, distance: nat)

  function ReadDistance(distances: Huffman, bits: seq<bit>, at: nat, length: nat): (r: Read<Token>)
    requires Table(distances)
    ensures r.Got? ==> r.value.Match? && r.value.distance > 0
  {
    match Decode(distances, bits, at)
    case Short => Short
    case Bad => Bad
    case Got(code, next) =>
      if code >= DISTANCE_CODES then Bad
      else
        var extra := ReadBits(bits, next, DistanceExtra(code));
        if !extra.Got? then Short else Got(Match(length, DistanceBase(code) + extra.value), extra.at)
  }

  function ReadMatch(base: nat, extraBits: nat, distances: Huffman, bits: seq<bit>, at: nat): (r: Read<Token>)
    requires Table(distances)
    ensures r.Got? ==> r.value.Match? && r.value.distance > 0
  {
    var extra := ReadBits(bits, at, extraBits);
    if !extra.Got? then Short else ReadDistance(distances, bits, extra.at, base + extra.value)
  }

  function ReadAfterSymbol(symbol: nat, distances: Huffman, bits: seq<bit>, at: nat): (r: Read<Token>)
    requires Table(distances)
    ensures r.Got? && r.value.Match? ==> r.value.distance > 0
  {
    if symbol < 256 then Got(Literal(symbol), at)
    else if symbol == 256 then Got(EndOfBlock, at)
    else if symbol - 257 >= LENGTH_CODES then Bad
    else ReadMatch(LengthBase(symbol - 257), LengthExtra(symbol - 257), distances, bits, at)
  }

  /** One literal, one match, or the end of the block. */
  function ReadToken(literals: Huffman, distances: Huffman, bits: seq<bit>, at: nat): (r: Read<Token>)
    requires Table(literals) && Table(distances)
    ensures r.Got? && r.value.Match? ==> r.value.distance > 0
  {
    match Decode(literals, bits, at)
    case Short => Short
    case Bad => Bad
    case Got(symbol, next) => ReadAfterSymbol(symbol, distances, bits, next)
  }

  /** The checksum is stored most significant byte first, from a byte boundary. */
  function ReadChecksum(bits: seq<bit>, at: nat): Read<nat> {
    var high := ReadPair(bits, Align(at), 8, 8);
    if !high.Got? then Short
    else
      var low := ReadPair(bits, high.at, 8, 8);
      if !low.Got? then Short
      else Got(16777216 * high.value.0 + 65536 * high.value.1 + 256 * low.value.0 + low.value.1, low.at)
  }

  // ---- What a step does -----------------------------------------------------

  datatype Phase = ZlibHeader | BlockHeader | Stored | Compressed | Checksum | Finished

  /** The decoder without its input: `out` is the part of the output written so
      far, `size` the length it was promised. */
  datatype Decoder = Decoder(
    size: nat,
    checksummed: bool,
    phase: Phase,
    at: nat,
    out: seq<byte>,
    last: bool,
    remaining: nat,
    literals: Huffman,
    distances: Huffman)

  function Fresh(size: nat, zlib: bool): Decoder {
    Decoder(size, zlib, if zlib then ZlibHeader else BlockHeader, 0, [], false, 0, FixedLiterals(), FixedDistances())
  }

  predicate Ready(d: Decoder) {
    && Table(d.literals) && Table(d.distances)
    && |d.out| <= d.size
    && (d.phase == Stored ==> d.at % 8 == 0)
  }

  datatype Step = Continue(d: Decoder) | Wait(d: Decoder) | Done(d: Decoder) | Corrupt

  function AfterBlock(d: Decoder): Decoder {
    if !d.last then d.(phase := BlockHeader)
    else if d.checksummed then d.(phase := Checksum)
    else d.(phase := Finished, at := Align(d.at))
  }

  /** A match copied a byte at a time, so that it may overlap itself. */
  function Copy(out: seq<byte>, distance: nat, length: nat): (r: seq<byte>)
    requires 0 < distance <= |out|
    ensures |r| == |out| + length && r[..|out|] == out
    decreases length
  {
    if length == 0 then out else Copy(out + [out[|out| - distance]], distance, length - 1)
  }

  function Apply(d: Decoder, token: Token): Step
    requires token.Match? ==> token.distance > 0
  {
    match token
    case Literal(value) =>
      if |d.out| >= d.size then Corrupt else Continue(d.(out := d.out + [value]))
    case EndOfBlock => Continue(AfterBlock(d))
    case Match(length, distance) =>
      if distance > |d.out| || |d.out| + length > d.size then Corrupt
      else Continue(d.(out := Copy(d.out, distance, length)))
  }

  /** Some of a stored block's bytes arrived. */
  function TakeStored(d: Decoder, bytes: seq<byte>): Step
    requires |bytes| <= d.remaining
  {
    if |bytes| > 0 && |d.out| + |bytes| > d.size then Corrupt
    else
      var d' := d.(out := d.out + bytes, at := d.at + 8 * |bytes|, remaining := d.remaining - |bytes|);
      if d'.remaining > 0 then Wait(d') else Continue(AfterBlock(d'))
  }

  function StepStored(d: Decoder, bits: seq<bit>): Step
    requires d.at <= |bits|
  {
    var available := (|bits| - d.at) / 8;
    TakeStored(d, BytesAt(bits, d.at, if available < d.remaining then available else d.remaining))
  }

  function Begin(d: Decoder, block: Block): Decoder {
    match block
    case StoredBlock(length) => d.(phase := Stored, remaining := length)
    case FixedBlock => d.(phase := Compressed, literals := FixedLiterals(), distances := FixedDistances())
    case DynamicBlock(literals, distances) =>
      d.(phase := Compressed, literals := Build(literals), distances := Build(distances))
  }

  function StepZlib(d: Decoder, r: Read<()>): Step {
    match r
    case Short => Wait(d)
    case Bad => Corrupt
    case Got(_, next) => Continue(d.(at := next, phase := BlockHeader))
  }

  function StepChecksum(d: Decoder, r: Read<nat>): Step {
    match r
    case Short => Wait(d)
    case Bad => Corrupt
    case Got(stored, next) => if stored == Adler(d.out) then Done(d.(at := next)) else Corrupt
  }

  function StepBlock(d: Decoder, r: Read<Block>): Step {
    match r
    case Short => Wait(d)
    case Bad => Corrupt
    case Got(block, next) => Continue(Begin(d.(at := next), block))
  }

  function StepToken(d: Decoder, r: Read<Token>): Step
    requires r.Got? && r.value.Match? ==> r.value.distance > 0
  {
    match r
    case Short => Wait(d)
    case Bad => Corrupt
    case Got(token, next) => Apply(d.(at := next), token)
  }

  /** The final-block bit is kept even when the rest of the header has not
      arrived; it is read again then. */
  function StepBlockHeader(d: Decoder, bits: seq<bit>): Step {
    if d.at >= |bits| then Wait(d) else StepBlock(d.(last := bits[d.at] == 1), ReadBlock(bits, d.at + 1))
  }

  function StepOn(d: Decoder, bits: seq<bit>): Step
    requires Ready(d) && d.at <= |bits|
  {
    match d.phase
    case ZlibHeader => StepZlib(d, ReadZlibHeader(bits, d.at))
    case BlockHeader => StepBlockHeader(d, bits)
    case Stored => StepStored(d, bits)
    case Compressed => StepToken(d, ReadToken(d.literals, d.distances, bits, d.at))
    case Checksum => StepChecksum(d, ReadChecksum(bits, d.at))
    case Finished => Done(d)
  }

  // ---- Steps make progress ---------------------------------------------------

  /** The bits of whole bytes. */
  predicate Whole(bits: seq<bit>) {
    |bits| % 8 == 0
  }

  predicate Within<T>(r: Read<T>, at: nat, bits: seq<bit>) {
    r.Got? ==> at <= r.at <= |bits|
  }

  lemma {:induction false} DecodeWithin(
      h: Huffman, bits: seq<bit>, at: nat, length: nat, code: nat, first: nat, index: nat)
    requires Table(h) && 1 <= length <= 16
    requires first <= code && index == Offset(h.counts, length)
    requires at <= |bits|
    ensures Within(DecodeFrom(h, bits, at, length, code, first, index), at + 1, bits)
    decreases 16 - length
  {
    if length <= 15 && at < |bits| {
      var read: nat, count := code + bits[at], h.counts[length];
      if read - first >= count {
        DecodeWithin(h, bits, at + 1, length + 1, Twice(read), Twice(first + count), index + count);
      }
    }
  }

  lemma {:induction false} CodeLengthsWithin(bits: seq<bit>, at: nat, i: nat, n: nat, lengths: Lengths)
    requires n <= 19 == |lengths| && at <= |bits|
    ensures Within(ReadCodeLengths(bits, at, i, n, lengths), at, bits)
    decreases n - i
  {
    if i < n {
      var r := ReadBits(bits, at, 3);
      if r.Got? {
        assert Shl(1, 3) == 8;
        CodeLengthsWithin(bits, r.at, i + 1, n, lengths[CODE_LENGTH_ORDER[i] := r.value]);
      }
    }
  }

  lemma {:induction false} LengthsWithin(h: Huffman, bits: seq<bit>, at: nat, total: nat, before: Lengths)
    requires Table(h) && |before| <= total && at <= |bits|
    ensures Within(ReadLengths(h, bits, at, total, before), at, bits)
    decreases total - |before|
  {
    if |before| < total {
      DecodeWithin(h, bits, at, 1, 0, 0, 0);
      var r := ReadRun(h, bits, at, before);
      if r.Got? && |before| + |r.value| <= total {
        LengthsWithin(h, bits, r.at, total, before + r.value);
      }
    }
  }

  lemma TwoCodesWithin(codeLengths: Lengths, bits: seq<bit>, at: nat, literals: nat, distances: nat)
    requires at <= |bits|
    ensures Within(ReadTwoCodes(codeLengths, bits, at, literals, distances), at, bits)
  {
    BuildIsTable(codeLengths);
    LengthsWithin(Build(codeLengths), bits, at, literals + distances, []);
  }

  lemma DynamicWithin(bits: seq<bit>, at: nat)
    requires at <= |bits|
    ensures Within(ReadDynamicLengths(bits, at), at, bits)
  {
    var pair := ReadPair(bits, at, 5, 5);
    if pair.Got? {
      var codes := ReadBits(bits, pair.at, 4);
      if codes.Got? {
        assert Shl(1, 4) == 16;
        CodeLengthsWithin(bits, codes.at, 0, codes.value + 4, Repeat(0, 19));
        var lengths := ReadCodeLengths(bits, codes.at, 0, codes.value + 4, Repeat(0, 19));
        if lengths.Got? {
          TwoCodesWithin(lengths.value, bits, lengths.at, pair.value.0 + 257, pair.value.1 + 1);
        }
      }
    }
  }

  lemma StoredLengthWithin(bits: seq<bit>, at: nat)
    requires at <= |bits|
    ensures Within(ReadStoredLength(bits, at), at, bits)
    ensures ReadStoredLength(bits, at).Got? ==> ReadStoredLength(bits, at).at % 8 == 0
  {
    var r := ReadPair(bits, Align(at), 16, 16);
    assert r.Got? ==> r.at == Align(at) + 32;
  }

  lemma BlockWithin(bits: seq<bit>, at: nat)
    requires at <= |bits|
    ensures Within(ReadBlock(bits, at), at, bits)
    ensures var r := ReadBlock(bits, at); r.Got? && r.value.StoredBlock? ==> r.at % 8 == 0
  {
    var kind := ReadBits(bits, at, 2);
    if kind.Got? && kind.value == 0 {
      StoredLengthWithin(bits, kind.at);
    } else if kind.Got? && kind.value == 2 {
      DynamicWithin(bits, kind.at);
    }
  }

  lemma TokenWithin(literals: Huffman, distances: Huffman, bits: seq<bit>, at: nat)
    requires Table(literals) && Table(distances) && at <= |bits|
    ensures Within(ReadToken(literals, distances, bits, at), at + 1, bits)
  {
    DecodeWithin(literals, bits, at, 1, 0, 0, 0);
    var symbol := Decode(literals, bits, at);
    if symbol.Got? && 257 <= symbol.value < 257 + LENGTH_CODES {
      var extra := ReadBits(bits, symbol.at, LengthExtra(symbol.value - 257));
      if extra.Got? {
        DecodeWithin(distances, bits, extra.at, 1, 0, 0, 0);
      }
    }
  }

  /** What is left to read, and last whether a stored block may still be empty. */
  function StoredRank(d: Decoder): nat {
    if d.phase == Stored then 1 else 0
  }

  predicate Advances(d: Decoder, s: Step, bits: seq<bit>) {
    && (!s.Corrupt? ==>
          Ready(s.d) && d.at <= s.d.at <= |bits| && s.d.size == d.size && s.d.checksummed == d.checksummed)
    && (s.Continue? ==> s.d.at > d.at || StoredRank(s.d) < StoredRank(d))
  }

  lemma StoredAdvances(d: Decoder, bits: seq<bit>)
    requires Ready(d) && d.at <= |bits| && Whole(bits) && d.phase == Stored
    ensures Advances(d, StepStored(d, bits), bits)
  {
    hide BytesAt, Build, Table;
  }

  lemma BlockAdvances(d: Decoder, from: nat, r: Read<Block>, bits: seq<bit>)
    requires Ready(d) && from == d.at < |bits| && Within(r, from + 1, bits)
    requires r.Got? && r.value.StoredBlock? ==> r.at % 8 == 0
    requires d.phase == BlockHeader
    ensures Advances(d, StepBlock(d, r), bits)
  {
    if r.Got? && r.value.DynamicBlock? {
      BuildIsTable(r.value.literals);
      BuildIsTable(r.value.distances);
    }
    hide Build, Table;
  }

  lemma BlockHeaderAdvances(d: Decoder, bits: seq<bit>)
    requires Ready(d) && d.at <= |bits| && Whole(bits) && d.phase == BlockHeader
    ensures Advances(d, StepBlockHeader(d, bits), bits)
  {
    hide ReadBlock, StepBlock;
    if d.at < |bits| {
      BlockWithin(bits, d.at + 1);
      BlockAdvances(d.(last := bits[d.at] == 1), d.at, ReadBlock(bits, d.at + 1), bits);
    }
  }

  lemma CompressedAdvances(d: Decoder, bits: seq<bit>)
    requires Ready(d) && d.at <= |bits| && Whole(bits) && d.phase == Compressed
    ensures Advances(d, StepOn(d, bits), bits)
  {
    TokenWithin(d.literals, d.distances, bits, d.at);
  }

  /** Every step keeps the decoder ready and inside its input, and either reads
      something or leaves a stored block. */
  lemma StepAdvances(d: Decoder, bits: seq<bit>)
    requires Ready(d) && d.at <= |bits| && Whole(bits)
    ensures Advances(d, StepOn(d, bits), bits)
  {
    match d.phase
    case ZlibHeader =>
    case BlockHeader => BlockHeaderAdvances(d, bits);
    case Stored => StoredAdvances(d, bits);
    case Compressed => CompressedAdvances(d, bits);
    case Checksum =>
    case Finished =>
  }

  predicate Began(d: Decoder, bits: seq<bit>) {
    Ready(d) && d.at <= |bits| && Whole(bits)
  }

  datatype Outcome = Waiting(d: Decoder) | Ended(out: seq<byte>, at: nat) | Broken

  /** Steps until one waits for input or the stream ends; ending short of the
      promised size is corruption. */
  function Run(d: Decoder, bits: seq<bit>): Outcome
    requires Ready(d) && d.at <= |bits| && Whole(bits)
    decreases |bits| - d.at, StoredRank(d)
  {
    StepAdvances(d, bits);
    match StepOn(d, bits)
    case Continue(d') => Run(d', bits)
    case Wait(d') => Waiting(d')
    case Done(d') => if |d'.out| == d'.size then Ended(d'.out, d'.at) else Broken
    case Corrupt => Broken
  }
}
