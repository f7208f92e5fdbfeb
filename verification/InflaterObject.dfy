/** The decoder as the object that holds its buffers, proved to do what `Inflate`
    and `Chunks` say. */
module InflaterObject {
  import opened Bits
  import opened Huffman
  import opened Inflate
  import opened Chunks
  import Adler32Sum

  datatype Thrown = Nothing | Throws(code: ErrorCode)

  /** How a step ended. `NeedInput` and `Refused` stand for the two exceptions a
      step can throw. */
  datatype Signal = Continues | Waits | Finishes | NeedInput | Refused

  /** The signal and the decoder left behind are those of step `s`; a step that
      ran out of bits may have moved the read position, which its caller restores. */
  ghost predicate Follows(s: Step, signal: Signal, d: Decoder, resumeAt: nat) {
    match s
    case Continue(d') => signal == Continues && d == d'
    case Done(d') => signal == Finishes && d == d'
    case Corrupt => signal == Refused
    case Wait(d') => (signal == Waits && d == d') || (signal == NeedInput && d.(at := resumeAt) == d')
  }

  /** A stored step on whole bytes takes those bytes. */
  lemma StoredStep(d: Decoder, input: seq<byte>, from: nat, available: nat, take: nat)
    requires d.at == 8 * from && from + available == |input|
    requires take == if available < d.remaining then available else d.remaining
    ensures StepStored(d, Unpack(input)) == TakeStored(d, input[from..from + take])
  {
    hide StepStored, TakeStored, BytesAt;
    StoredTakes(d, Unpack(input), available, take);
    BytesOfInput(input, from, take);
  }

  /** One run of code lengths read, then the rest of them. */
  lemma LengthsStep(h: Huffman, bits: seq<bit>, at: nat, total: nat, before: Lengths)
    requires Table(h) && |before| < total
    ensures ReadLengths(h, bits, at, total, before) ==
            match ReadRun(h, bits, at, before)
            case Short => Short
            case Bad => Bad
            case Got(run, next) =>
              if |before| + |run| > total then Bad else ReadLengths(h, bits, next, total, before + run)
  {
  }

  /** One turn of a run. */
  lemma RunUnfolds(d: Decoder, bits: seq<bit>)
    requires Began(d, bits)
    ensures Advances(d, StepOn(d, bits), bits)
    ensures match StepOn(d, bits)
            case Continue(d') => Began(d', bits) && Run(d, bits) == Run(d', bits)
            case Wait(d') => Run(d, bits) == Waiting(d')
            case Done(d') => Run(d, bits) == if |d'.out| == d'.size then Ended(d'.out, d'.at) else Broken
            case Corrupt => Run(d, bits) == Broken
  {
    hide StepOn;
    StepAdvances(d, bits);
  }

  lemma SettleCases(r: Outcome, input: seq<byte>, atEnd: bool)
    requires !r.Broken? ==> (if r.Ended? then r.at else r.d.at) <= 8 * |input|
    ensures match r
            case Broken => Settle(r, input, atEnd) == Failed(CorruptStream)
            case Ended(out, at) => Settle(r, input, atEnd) == Closed(out, input[at / 8..])
            case Waiting(d) =>
              Settle(r, input, atEnd) ==
                if atEnd then Failed(TruncatedStream) else Open(d.(at := d.at % 8), input[d.at / 8..])
  {
  }

  lemma LengthsDone(h: Huffman, bits: seq<bit>, at: nat, lengths: Lengths)
    requires Table(h)
    ensures ReadLengths(h, bits, at, |lengths|, lengths) == Got(lengths, at)
  {
  }

  lemma CopyStep(out: seq<byte>, distance: nat, length: nat)
    requires 0 < distance <= |out|
    ensures Copy(out, distance, 0) == out
    ensures length > 0 ==> Copy(out, distance, length) == Copy(out + [out[|out| - distance]], distance, length - 1)
  {
  }

  lemma DecodeTurn(h: Huffman, bits: seq<bit>, at: nat, length: nat, code: nat, first: nat, index: nat)
    requires Table(h) && 1 <= length <= 15
    requires first <= code && index == Offset(h.counts, length)
    ensures at >= |bits| ==> DecodeFrom(h, bits, at, length, code, first, index) == Short
    ensures at < |bits| ==>
              var read: nat, count := code + bits[at], h.counts[length];
              if read - first < count then
                && index + (read - first) < |h.symbols|
                && DecodeFrom(h, bits, at, length, code, first, index) == Got(h.symbols[index + (read - first)], at + 1)
              else
                DecodeFrom(h, bits, at, length, code, first, index)
                == DecodeFrom(h, bits, at + 1, length + 1, Twice(read), Twice(first + count), index + count)
  {
    if at < |bits| {
      var read: nat, count := code + bits[at], h.counts[length];
      if read - first < count {
        DecodeHit(h, bits, at, length, code, first, index, read - first);
      } else {
        DecodeMiss(h, bits, at, length, code, first, index, read, count);
      }
    }
  }

  lemma DecodeOver(h: Huffman, bits: seq<bit>, at: nat, code: nat, first: nat, index: nat)
    requires Table(h) && first <= code && index == Offset(h.counts, 16)
    ensures DecodeFrom(h, bits, at, 16, code, first, index) == Bad
  {
  }

  lemma FourBits(r: Read<nat>, bits: seq<bit>)
    requires r.Got? && exists at :: r == ReadBits(bits, at, 4)
    ensures r.value < 16
  {
    assert Shl(1, 4) == 16;
  }

  class Inflater {
    const output: array<byte>
    const checksummed: bool
    var outputAt: nat
    var input: seq<byte>
    var bitAt: nat
    var atEnd: bool
    var state: Phase
    var lastBlock: bool
    var storedRemaining: nat
    var literals: Huffman
    var distances: Huffman
    var leftover: seq<byte>

    /** The decoder this object stands for. */
    ghost function Abs(): Decoder
      reads this, output
      requires outputAt <= output.Length
    {
      Decoder(output.Length, checksummed, state, bitAt, output[..outputAt], lastBlock, storedRemaining, literals,
        distances)
    }

    ghost predicate Valid()
      reads this, output
    {
      && outputAt <= output.Length
      && Began(Abs(), Unpack(input))
    }

    constructor (size: nat, zlib: bool)
      ensures Valid() && Abs() == Fresh(size, zlib) && input == [] && !atEnd && fresh(output)
    {
      hide StepOn, Build;
      output := new byte[size];
      outputAt := 0;
      input, bitAt, atEnd := [], 0, false;
      state := if zlib then ZlibHeader else BlockHeader;
      checksummed := zlib;
      lastBlock, storedRemaining := false, 0;
      literals, distances := FixedLiterals(), FixedDistances();
      leftover := [];
    }

    /** The next `count` bits, gathered a byte's worth at a time. */
    method Bits(count: nat) returns (r: Read<nat>)
      modifies this`bitAt
      ensures r == ReadBits(Unpack(input), old(bitAt), count) && !r.Bad?
      ensures bitAt == if r.Got? then r.at else old(bitAt)
    {
      if count == 0 {
        return Got(0, bitAt);
      }
      if bitAt + count > 8 * |input| {
        return Short;
      }
      var value, filled, at := 0, 0, bitAt;
      assert BitsAt(Unpack(input), bitAt, 0) == 0;
      hide BitsAt, Shl, Shr, Low, Bit;
      while filled < count
        invariant bitAt == old(bitAt) && filled <= count && at == bitAt + filled
        invariant value == BitsAt(Unpack(input), bitAt, filled)
      {
        var used := at % 8;
        var take := if 8 - used < count - filled then 8 - used else count - filled;
        FieldOfByte(input, at, take);
        BitsAtSplit(Unpack(input), bitAt, filled, take);
        value := value + Shl(Low(Shr(input[at / 8], used), take), filled);
        filled := filled + take;
        at := at + take;
      }
      bitAt := at;
      r := Got(value, at);
    }

    method AlignToByte()
      modifies this`bitAt
      ensures bitAt == Align(old(bitAt))
    {
      bitAt := (bitAt + 7) / 8 * 8;
    }

    /** One symbol, a bit at a time. */
    method DecodeWith(table: Huffman) returns (r: Read<nat>)
      requires Table(table)
      modifies this`bitAt
      ensures r == Decode(table, Unpack(input), old(bitAt))
      ensures r.Got? ==> bitAt == r.at
    {
      hide DecodeFrom, Unpack;
      ghost var bits := Unpack(input);
      ghost var from := bitAt;
      var code, first, index := 0, 0, 0;
      for length := 1 to MAX_CODE_BITS + 1
        invariant first <= code && index == Offset(table.counts, length)
        invariant Decode(table, bits, from) == DecodeFrom(table, bits, bitAt, length, code, first, index)
      {
        ReadOneBit(bits, bitAt);
        DecodeTurn(table, bits, bitAt, length, code, first, index);
        var bit := Bits(1);
        if bit.Short? {
          return Short;
        }
        code := code + bit.value;
        var count := table.counts[length];
        if code - first < count {
          return Got(table.symbols[index + (code - first)], bitAt);
        }
        index := index + count;
        first := Twice(first + count);
        code := Twice(code);
      }
      DecodeOver(table, bits, bitAt, code, first, index);
      r := Bad;
    }

    method ReadZlibHeader() returns (signal: Signal)
      requires Valid() && state == ZlibHeader
      modifies this`bitAt, this`state
      ensures outputAt <= output.Length
      ensures Follows(StepZlib(old(Abs()), Inflate.ReadZlibHeader(Unpack(input), old(bitAt))), signal, Abs(),
        old(bitAt))
    {
      hide StepOn, ReadBits;
      var cmf := Bits(8);
      if cmf.Short? {
        return NeedInput;
      }
      var flg := Bits(8);
      if flg.Short? {
        return NeedInput;
      }
      if cmf.value % 16 != 8 {
        return Refused;
      }
      if (flg.value / 32) % 2 != 0 {
        return Refused;
      }
      if (256 * cmf.value + flg.value) % 31 != 0 {
        return Refused;
      }
      state := BlockHeader;
      signal := Continues;
    }

    /** The state once a block is over; the last block of a raw stream is padded
        to a byte boundary. */
    method StateAfterBlock() returns (next: Phase)
      requires outputAt <= output.Length
      modifies this`bitAt
      ensures Abs().(phase := next) == AfterBlock(old(Abs()))
    {
      if !lastBlock {
        return BlockHeader;
      }
      if checksummed {
        return Checksum;
      }
      AlignToByte();
      next := Finished;
    }

    /** Appends to the output, unless that would overrun the promised size. */
    method Write(bytes: seq<byte>) returns (ok: bool)
      requires outputAt <= output.Length
      modifies this`outputAt, output
      ensures ok == (old(outputAt) + |bytes| <= output.Length)
      ensures outputAt <= output.Length
      ensures ok ==> Abs() == old(Abs()).(out := old(Abs()).out + bytes)
    {
      if outputAt + |bytes| > output.Length {
        return false;
      }
      forall i | 0 <= i < |bytes| {
        output[outputAt + i] := bytes[i];
      }
      outputAt := outputAt + |bytes|;
      assert output[..outputAt] == old(output[..outputAt]) + bytes;
      ok := true;
    }

    method CopyStored() returns (signal: Signal)
      requires Valid() && state == Stored
      modifies this`bitAt, this`outputAt, this`storedRemaining, this`state, output
      ensures outputAt <= output.Length
      ensures Follows(StepStored(old(Abs()), Unpack(input)), signal, Abs(), old(bitAt))
    {
      hide StepOn, StepStored, AfterBlock;
      ghost var d := Abs();
      var from := bitAt / 8;
      var available := |input| - from;
      var take := if available < storedRemaining then available else storedRemaining;
      StoredStep(d, input, from, available, take);
      if take > 0 {
        var ok := Write(input[from..from + take]);
        if !ok {
          return Refused;
        }
        bitAt := bitAt + 8 * take;
        storedRemaining := storedRemaining - take;
      }
      assert Abs() == d.(out := d.out + input[from..from + take], at := d.at + 8 * take,
        remaining := d.remaining - take);
      if storedRemaining > 0 {
        return Waits;
      }
      var next := StateAfterBlock();
      state := next;
      signal := Continues;
    }

    /** A match byte by byte: it may overlap what it writes. */
    method CopyMatch(distance: nat, length: nat)
      requires 0 < distance <= outputAt && outputAt + length <= output.Length
      modifies this`outputAt, output
      ensures outputAt == old(outputAt) + length <= output.Length
      ensures Abs() == old(Abs()).(out := Copy(old(Abs()).out, distance, length))
    {
      hide Copy;
      ghost var before := output[..outputAt];
      var from := outputAt - distance;
      for i := 0 to length
        invariant outputAt == old(outputAt) + i <= output.Length && from == outputAt - distance
        invariant Copy(output[..outputAt], distance, length - i) == Copy(before, distance, length)
      {
        ghost var out := output[..outputAt];
        CopyStep(out, distance, length - i);
        output[outputAt] := output[from];
        outputAt := outputAt + 1;
        assert output[..outputAt] == out + [out[from]];
        from := from + 1;
      }
      CopyStep(output[..outputAt], distance, 0);
    }

    method ReadStoredHeader() returns (r: Read<nat>)
      modifies this`bitAt
      ensures r == ReadStoredLength(Unpack(input), old(bitAt))
      ensures r.Got? ==> bitAt == r.at
    {
      hide ReadBits, Align;
      AlignToByte();
      var length := Bits(16);
      if length.Short? {
        return Short;
      }
      var complement := Bits(16);
      if complement.Short? {
        return Short;
      }
      if length.value + complement.value != 65535 {
        return Bad;
      }
      r := Got(length.value, bitAt);
    }

    method ReadCodeLengthCode(count: nat) returns (r: Read<Lengths>)
      requires count <= 19
      modifies this`bitAt
      ensures r == ReadCodeLengths(Unpack(input), old(bitAt), 0, count, Repeat(0, 19))
      ensures r.Got? ==> bitAt == r.at && |r.value| == 19
    {
      ghost var bits, from := Unpack(input), bitAt;
      var codeLengths := new nat[19](_ => 0);
      assert codeLengths[..] == Repeat(0, 19);
      for i := 0 to count
        invariant forall j :: 0 <= j < 19 ==> codeLengths[j] <= 15
        invariant ReadCodeLengths(bits, from, 0, count, Repeat(0, 19))
               == ReadCodeLengths(bits, bitAt, i, count, codeLengths[..])
      {
        ghost var before := codeLengths[..];
        var length := Bits(3);
        if length.Short? {
          return Short;
        }
        assert Shl(1, 3) == 8;
        codeLengths[CODE_LENGTH_ORDER[i]] := length.value;
        assert codeLengths[..] == before[CODE_LENGTH_ORDER[i] := length.value];
      }
      r := Got(codeLengths[..], bitAt);
    }

    /** One code-length symbol as the value it repeats and how often. */
    method ReadRunOf(table: Huffman, lengths: array<nat>, at: nat) returns (r: Read<(nat, nat)>)
      requires Table(table) && at <= lengths.Length && forall j :: 0 <= j < at ==> lengths[j] <= 15
      modifies this`bitAt
      ensures match ReadRun(table, Unpack(input), old(bitAt), lengths[..at])
              case Short => r == Short
              case Bad => r == Bad
              case Got(run, next) =>
                && r.Got? && run == Repeat(r.value.0, r.value.1) && r.at == next == bitAt
                && r.value.0 <= 15 && r.value.1 > 0
    {
      hide Decode, ReadBits;
      var symbol := DecodeWith(table);
      if !symbol.Got? {
        return if symbol.Short? then Short else Bad;
      }
      if symbol.value < 16 {
        assert Repeat(symbol.value, 1) == [symbol.value];
        return Got((symbol.value, 1), bitAt);
      }
      if symbol.value == 16 {
        if at == 0 {
          return Bad;
        }
        var again := Bits(2);
        return if again.Short? then Short else Got((lengths[at - 1], 3 + again.value), bitAt);
      }
      var zeros := Bits(if symbol.value == 17 then 3 else 7);
      return if zeros.Short? then Short else Got((0, (if symbol.value == 17 then 3 else 11) + zeros.value), bitAt);
    }

    method ReadCodeLengthsWith(table: Huffman, total: nat) returns (r: Read<Lengths>)
      requires Table(table)
      modifies this`bitAt
      ensures r == ReadLengths(table, Unpack(input), old(bitAt), total, [])
      ensures r.Got? ==> bitAt == r.at
    {
      hide ReadRun, ReadLengths, Decode;
      ghost var bits, from := Unpack(input), bitAt;
      var lengths := new nat[total](_ => 0);
      var at := 0;
      assert lengths[..0] == [];
      while at < total
        invariant at <= total
        invariant forall j :: 0 <= j < at ==> lengths[j] <= 15
        invariant ReadLengths(table, bits, from, total, []) == ReadLengths(table, bits, bitAt, total, lengths[..at])
      {
        ghost var before := lengths[..at];
        LengthsStep(table, bits, bitAt, total, before);
        var run := ReadRunOf(table, lengths, at);
        if !run.Got? {
          return if run.Short? then Short else Bad;
        }
        var (value, repeat) := run.value;
        if at + repeat > total {
          return Bad;
        }
        forall i | at <= i < at + repeat {
          lengths[i] := value;
        }
        assert lengths[..at + repeat] == before + Repeat(value, repeat);
        at := at + repeat;
      }
      assert lengths[..at] == lengths[..];
      LengthsDone(table, bits, bitAt, lengths[..]);
      r := Got(lengths[..], bitAt);
    }

    method ReadDynamicTables() returns (r: Read<(Lengths, Lengths)>)
      modifies this`bitAt
      ensures r == ReadDynamicLengths(Unpack(input), old(bitAt))
      ensures r.Got? ==> bitAt == r.at
    {
      hide ReadBits, ReadCodeLengths, ReadLengths;
      var literals := Bits(5);
      if literals.Short? {
        return Short;
      }
      var distances := Bits(5);
      if distances.Short? {
        return Short;
      }
      var codes := Bits(4);
      if codes.Short? {
        return Short;
      }
      FourBits(codes, Unpack(input));
      var codeLengths := ReadCodeLengthCode(codes.value + 4);
      if !codeLengths.Got? {
        return Short;
      }
      BuildIsTable(codeLengths.value);
      var codeLengthCodes := BuildHuffman(codeLengths.value);
      var literalCount, distanceCount := literals.value + 257, distances.value + 1;
      var lengths := ReadCodeLengthsWith(codeLengthCodes, literalCount + distanceCount);
      if !lengths.Got? {
        return if lengths.Short? then Short else Bad;
      }
      r := Got((lengths.value[..literalCount], lengths.value[literalCount..]), bitAt);
    }

    method ReadBlockHeader() returns (signal: Signal)
      requires Valid() && state == BlockHeader
      modifies this`bitAt, this`state, this`lastBlock, this`storedRemaining, this`literals, this`distances
      ensures outputAt <= output.Length
      ensures Follows(StepBlockHeader(old(Abs()), Unpack(input)), signal, Abs(), old(bitAt))
    {
      hide ReadBits, ReadStoredLength, ReadDynamicLengths, Build, FixedLiterals, FixedDistances;
      ghost var bits := Unpack(input);
      ReadOneBit(bits, bitAt);
      var last := Bits(1);
      if last.Short? {
        return NeedInput;
      }
      lastBlock := last.value == 1;
      var kind := Bits(2);
      if kind.Short? {
        return NeedInput;
      }
      if kind.value == 0 {
        var length := ReadStoredHeader();
        if !length.Got? {
          return if length.Short? then NeedInput else Refused;
        }
        storedRemaining := length.value;
        state := Stored;
      } else if kind.value == 1 {
        literals := FixedLiterals();
        distances := FixedDistances();
        state := Compressed;
      } else if kind.value == 2 {
        var codes := ReadDynamicTables();
        if !codes.Got? {
          return if codes.Short? then NeedInput else Refused;
        }
        literals := BuildHuffman(codes.value.0);
        distances := BuildHuffman(codes.value.1);
        state := Compressed;
      } else {
        return Refused;
      }
      signal := Continues;
    }

    /** The distance of a match, and then the whole match. */
    method FinishMatch(length: nat) returns (r: Read<Token>)
      requires Table(distances)
      modifies this`bitAt
      ensures r == ReadDistance(distances, Unpack(input), old(bitAt), length)
      ensures r.Got? ==> bitAt == r.at && r.value.Match? && r.value.distance > 0
    {
      hide Decode, ReadBits, DistanceBase, DistanceExtra, Table, Unpack;
      var code := DecodeWith(distances);
      if !code.Got? {
        return if code.Short? then Short else Bad;
      }
      if code.value >= DISTANCE_CODES {
        return Bad;
      }
      var extra := Bits(DistanceExtra(code.value));
      if extra.Short? {
        return Short;
      }
      r := Got(Match(length, DistanceBase(code.value) + extra.value), bitAt);
    }

    method DecodeToken() returns (r: Read<Token>)
      requires Table(literals) && Table(distances)
      modifies this`bitAt
      ensures r == ReadToken(literals, distances, Unpack(input), old(bitAt))
      ensures r.Got? ==> bitAt == r.at && (r.value.Match? ==> r.value.distance > 0)
    {
      hide Decode, ReadBits, ReadDistance;
      var symbol := DecodeWith(literals);
      if !symbol.Got? {
        return if symbol.Short? then Short else Bad;
      }
      if symbol.value < 256 {
        return Got(Literal(symbol.value), bitAt);
      }
      if symbol.value == 256 {
        return Got(EndOfBlock, bitAt);
      }
      var lengthCode := symbol.value - 257;
      if lengthCode >= |LENGTH_BASE| {
        return Bad;
      }
      var extra := Bits(LENGTH_EXTRA[lengthCode]);
      if extra.Short? {
        return Short;
      }
      r := FinishMatch(LENGTH_BASE[lengthCode] + extra.value);
    }

    /** One literal or one match. Everything is read before a byte is written, so
        the whole symbol can be retried. */
    method DecodeSymbol() returns (signal: Signal)
      requires Valid() && state == Compressed
      modifies this`bitAt, this`outputAt, this`state, output
      ensures outputAt <= output.Length
      ensures Follows(StepToken(old(Abs()), ReadToken(literals, distances, Unpack(input), old(bitAt))),
                      signal, Abs(), old(bitAt))
    {
      hide StepOn, ReadToken, AfterBlock, Copy;
      var token := DecodeToken();
      if !token.Got? {
        return if token.Short? then NeedInput else Refused;
      }
      match token.value {
        case Literal(value) =>
          var ok := Write([value]);
          if !ok {
            return Refused;
          }
        case EndOfBlock =>
          var next := StateAfterBlock();
          state := next;
        case Match(length, distance) =>
          if distance > outputAt {
            return Refused;
          }
          if outputAt + length > output.Length {
            return Refused;
          }
          CopyMatch(distance, length);
      }
      signal := Continues;
    }

    method ReadStoredSum() returns (signal: Signal)
      requires Valid() && state == Checksum
      modifies this`bitAt
      ensures Follows(StepChecksum(old(Abs()), Inflate.ReadChecksum(Unpack(input), old(bitAt))),
                      signal, Abs(), old(bitAt))
    {
      hide StepOn, ReadBits, Align, Adler;
      AlignToByte();
      var a := Bits(8);
      if a.Short? {
        return NeedInput;
      }
      var b := Bits(8);
      if b.Short? {
        return NeedInput;
      }
      var c := Bits(8);
      if c.Short? {
        return NeedInput;
      }
      var d := Bits(8);
      if d.Short? {
        return NeedInput;
      }
      var stored := 16777216 * a.value + 65536 * b.value + 256 * c.value + d.value;
      var sum := Adler32Sum.Adler32(output[..outputAt]);
      signal := if stored == sum then Finishes else Refused;
    }

    method Step() returns (signal: Signal)
      requires Valid()
      modifies this`bitAt, this`state, this`lastBlock, this`storedRemaining, this`literals, this`distances,
        this`outputAt, output
      ensures outputAt <= output.Length
      ensures Follows(StepOn(old(Abs()), Unpack(input)), signal, Abs(), old(bitAt))
    {
      hide StepZlib, Inflate.ReadZlibHeader, StepBlockHeader, StepStored, StepToken, ReadToken, StepChecksum,
           Inflate.ReadChecksum;
      match state {
        case ZlibHeader => signal := ReadZlibHeader();
        case BlockHeader => signal := ReadBlockHeader();
        case Stored => signal := CopyStored();
        case Compressed => signal := DecodeSymbol();
        case Checksum => signal := ReadStoredSum();
        case Finished => signal := Finishes;
      }
    }

    method Append(chunk: seq<byte>)
      requires Valid()
      modifies this`input, this`bitAt
      ensures input == old(input) + chunk && bitAt == old(bitAt)
    {
      if |input| == 0 {
        input := chunk;
        bitAt := 0;
        return;
      }
      input := input + chunk;
    }

    /** Drops the bytes already read. */
    method Compact()
      modifies this`input, this`bitAt
      requires bitAt <= 8 * |input|
      ensures input == old(input)[old(bitAt) / 8..] && bitAt == old(bitAt) % 8
    {
      var consumed := bitAt / 8;
      if consumed == 0 {
        return;
      }
      input := input[consumed..];
      bitAt := bitAt % 8;
    }

    /** Steps until input is wanted or the stream ends, putting the read position
        back where a step that ran out of bits began. */
    method Drain() returns (signal: Signal)
      requires Valid()
      modifies this`bitAt, this`state, this`lastBlock, this`storedRemaining, this`literals, this`distances,
        this`outputAt, output
      ensures outputAt <= output.Length
      ensures match Run(old(Abs()), Unpack(input))
              case Waiting(d) => signal == Waits && Abs() == d && Valid()
              case Ended(out, at) =>
                && signal == Finishes && outputAt == output.Length && output[..] == out
                && bitAt == at <= 8 * |input| && Valid()
              case Broken =>
                || signal == Refused
                || (signal == Finishes && outputAt != output.Length && bitAt <= 8 * |input|
                    && Table(literals) && Table(distances))
    {
      hide StepOn, Run;
      ghost var bits, d0 := Unpack(input), Abs();
      while true
        invariant Valid() && Run(Abs(), bits) == Run(d0, bits)
        decreases |bits| - bitAt, StoredRank(Abs())
      {
        var resumeAt := bitAt;
        RunUnfolds(Abs(), bits);
        signal := Step();
        if signal == NeedInput {
          bitAt := resumeAt;
          signal := Waits;
        }
        if signal != Continues {
          assert output[..output.Length] == output[..];
          return;
        }
      }
    }

    /** Ends the stream, unless it came up short of its promised size. */
    method Finish() returns (error: Thrown)
      requires outputAt <= output.Length && Table(literals) && Table(distances) && bitAt <= 8 * |input|
      modifies this`state, this`leftover, this`input, this`bitAt
      ensures outputAt != output.Length ==> error == Throws(CorruptStream)
      ensures outputAt == output.Length ==>
                error == Nothing && Valid() && state == Finished && leftover == old(input[bitAt / 8..])
    {
      hide StepOn;
      if outputAt != output.Length {
        return Throws(CorruptStream);
      }
      state := Finished;
      leftover := input[bitAt / 8..];
      input := [];
      bitAt := 0;
      error := Nothing;
    }

    /** Takes the next chunk. A `Throws` stands for the exception the caller sees,
        after which it drops the object. */
    method Push(chunk: seq<byte>, atEnd: bool := false) returns (error: Thrown)
      requires Valid()
      modifies this, output
      ensures old(state) == Finished ==> error == Throws(CorruptStream)
      ensures old(state) != Finished ==> this.atEnd == (atEnd || old(this.atEnd))
      ensures old(state) != Finished ==>
                match Chunks.Push(Open(old(Abs()), old(input)), chunk, atEnd || old(this.atEnd))
                case Open(d, held) => error == Nothing && Valid() && Abs() == d && input == held
                case Closed(out, rest) => error == Nothing && Valid() && state == Finished && output[..] == out
                  && leftover == rest
                case Failed(code) => error == Throws(code)
    {
      hide StepOn, Run, Settle;
      if state == Finished {
        return Throws(CorruptStream);
      }
      ghost var d, joined := Abs(), input + chunk;
      ghost var r := Run(d, Unpack(joined));
      RunStays(d, Unpack(joined));
      Append(chunk);
      this.atEnd := this.atEnd || atEnd;
      var signal := Drain();
      SettleCases(r, input, this.atEnd);
      if signal == Finishes {
        error := Finish();
        return;
      }
      if signal == Refused {
        return Throws(CorruptStream);
      }
      if this.atEnd {
        return Throws(TruncatedStream);
      }
      Compact();
      error := Nothing;
    }
  }
}
