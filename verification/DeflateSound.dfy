/** The other half: a stream that the decoder accepts is one, and means just the bytes it gave. */
module DeflateSound {
  import opened Bits
  import opened Huffman
  import opened Inflate
  import opened Deflate
  import opened DeflateHeader
  import opened DeflateStream
  import Adler32Sum
  import Chunks

  // ---- Numbers and words ------------------------------------------------------------

  lemma Joined(bits: seq<bit>, at: nat, first: seq<bit>, rest: seq<bit>)
    requires Spelled(bits, at, first) && Spelled(bits, at + |first|, rest)
    ensures Spelled(bits, at, first + rest)
  {
    var mid, end := at + |first|, at + |first| + |rest|;
    assert bits[at..end] == bits[at..mid] + bits[mid..end];
  }

  lemma {:induction false} LsbIsSpelled(bits: seq<bit>, at: nat, n: nat)
    requires at + n <= |bits|
    ensures Spelled(bits, at, Lsb(BitsAt(bits, at, n), n))
    decreases n
  {
    if n > 0 {
      var v := BitsAt(bits, at, n);
      LsbIsSpelled(bits, at + 1, n - 1);
      assert v % 2 == bits[at] && v / 2 == BitsAt(bits, at + 1, n - 1);
      assert bits[at..at + 1] == [bits[at]];
      Joined(bits, at, [v % 2], Lsb(v / 2, n - 1));
    }
  }

  lemma {:induction false} MsbIsSpelled(bits: seq<bit>, at: nat, n: nat)
    requires at + n <= |bits|
    ensures Spelled(bits, at, Msb(CodeAt(bits, at, n), n))
    decreases n
  {
    if n > 0 {
      var v := CodeAt(bits, at, n);
      MsbIsSpelled(bits, at, n - 1);
      assert v % 2 == bits[at + n - 1] && v / 2 == CodeAt(bits, at, n - 1);
      assert bits[at + n - 1..at + n] == [bits[at + n - 1]];
      Joined(bits, at, Msb(v / 2, n - 1), [v % 2]);
    }
  }

  lemma NumberIsSpelled(bits: seq<bit>, at: nat, n: nat)
    requires at <= |bits| && ReadBits(bits, at, n).Got?
    ensures var r := ReadBits(bits, at, n); r.value < Shl(1, n) && r.at == at + n <= |bits|
    ensures Spelled(bits, at, Lsb(ReadBits(bits, at, n).value, n))
  {
    LsbIsSpelled(bits, at, n);
  }

  lemma CodeIsSpelled(ls: Lengths, bits: seq<bit>, at: nat, s: nat, next: nat)
    requires at <= |bits| && Table(Build(ls)) && Decode(Build(ls), bits, at) == Got(s, next)
    ensures Worded(ls, s) && next == at + |CodeBits(ls, s)| <= |bits| && Spelled(bits, at, CodeBits(ls, s))
  {
    hide Decode, Build, Code;
    DecodeIsCanonical(ls, bits, at, s, next);
    MsbIsSpelled(bits, at, ls[s]);
  }

  // ---- Compressed blocks --------------------------------------------------------------

  lemma DistanceIsSpelled(
      distances: Lengths, bits: seq<bit>, at: nat, length: nat, distance: nat, lengthCode: nat, next: nat)
      returns (item: Item)
    requires at <= |bits| && Table(Build(distances))
    requires ReadDistance(Build(distances), bits, at, length) == Got(Match(length, distance), next)
    requires lengthCode < 29 && 0 <= length - LengthFrom(lengthCode) < Shl(1, LengthWidth(lengthCode))
    ensures item.Back? && IsItem(item) && item.length == length && item.distance == distance
    ensures item.lengthCode == lengthCode
    ensures Worded(distances, item.distanceCode) && Spelled(bits, at, DistanceBits(distances, item))
    ensures next == at + |DistanceBits(distances, item)|
  {
    hide Decode, Build, ReadBits, Code, DistanceFrom, DistanceWidth, DistanceBase, DistanceExtra, LengthFrom,
         LengthWidth, Spelled, Lsb;
    var code := Decode(Build(distances), bits, at);
    CodeIsSpelled(distances, bits, at, code.value, code.at);
    DistanceTable(code.value);
    NumberIsSpelled(bits, code.at, DistanceWidth(code.value));
    item := Back(length, distance, lengthCode, code.value);
    Joined(bits, at, CodeBits(distances, code.value),
           Lsb(distance - DistanceFrom(code.value), DistanceWidth(code.value)));
  }

  lemma DistanceGivesMatch(h: Huffman, bits: seq<bit>, at: nat, length: nat)
    requires Table(h)
    ensures var r := ReadDistance(h, bits, at, length); r.Got? ==> r.value.Match? && r.value.length == length
  {
    hide Decode, ReadBits;
  }

  lemma MatchIsSpelled(
      literals: Lengths, distances: Lengths, bits: seq<bit>, at: nat, code: nat, from: nat, token: Token, next: nat)
      returns (item: Item)
    requires from <= |bits| && Table(Build(distances)) && code < 29
    requires Worded(literals, 257 + code) && from == at + |CodeBits(literals, 257 + code)|
    requires Spelled(bits, at, CodeBits(literals, 257 + code))
    requires ReadMatch(LengthBase(code), LengthExtra(code), Build(distances), bits, from) == Got(token, next)
    ensures Encodable(literals, distances, item) && ItemToken(item) == token
    ensures Spelled(bits, at, ItemBits(literals, distances, item))
    ensures next == at + |ItemBits(literals, distances, item)|
  {
    hide ReadDistance, Build, ReadBits, Code, DistanceBits, DistanceFrom, DistanceWidth, LengthFrom, LengthWidth,
         LengthBase, LengthExtra, Spelled, Lsb, CodeBits;
    LengthTable(code);
    var extra := ReadBits(bits, from, LengthWidth(code));
    NumberIsSpelled(bits, from, LengthWidth(code));
    DistanceGivesMatch(Build(distances), bits, extra.at, LengthFrom(code) + extra.value);
    item := DistanceIsSpelled(distances, bits, extra.at, token.length, token.distance, code, next);
    Joined(bits, from, LengthExtraBits(item), DistanceBits(distances, item));
    Joined(bits, at, CodeBits(literals, 257 + code), LengthExtraBits(item) + DistanceBits(distances, item));
  }

  lemma TokenIsSpelled(literals: Lengths, distances: Lengths, bits: seq<bit>, at: nat, token: Token, next: nat)
      returns (item: Item)
    requires at <= |bits| && Table(Build(literals)) && Table(Build(distances))
    requires ReadToken(Build(literals), Build(distances), bits, at) == Got(token, next)
    ensures token.EndOfBlock? ==>
      Worded(literals, 256) && Spelled(bits, at, CodeBits(literals, 256)) && next == at + |CodeBits(literals, 256)|
    ensures !token.EndOfBlock? ==>
      && Encodable(literals, distances, item) && ItemToken(item) == token
      && Spelled(bits, at, ItemBits(literals, distances, item)) && next == at + |ItemBits(literals, distances, item)|
  {
    hide Decode, Build, ReadMatch, Code, Spelled, CodeBits, DistanceBits, LengthExtraBits, LengthFrom, DistanceFrom;
    var symbol := Decode(Build(literals), bits, at);
    CodeIsSpelled(literals, bits, at, symbol.value, symbol.at);
    if symbol.value < 256 {
      item := Byte(symbol.value);
    } else if symbol.value == 256 {
      item := Byte(0);
    } else {
      item := MatchIsSpelled(literals, distances, bits, at, symbol.value - 257, symbol.at, token, next);
    }
  }

  /** What the decoder does for an item is what the item means. */
  lemma AppliedAdds(d: Decoder, item: Item, e: Decoder)
    requires IsItem(item) && (item.Back? ==> item.distance > 0) && Apply(d, ItemToken(item)) == Continue(e)
    ensures Adds(d.out, item, e.out) && e == d.(out := e.out)
  {
    if item.Back? {
      CopyIsPeriodic(d.out, item.distance, item.length);
    }
  }

  lemma TokenGoesOn(d: Decoder, bits: seq<bit>) returns (token: Token, next: nat, e: Decoder)
    requires Began(d, bits) && d.phase == Compressed && Run(d, bits).Ended?
    ensures ReadToken(d.literals, d.distances, bits, d.at) == Got(token, next) && d.at < next
    ensures token.Match? ==> token.distance > 0
    ensures Apply(d.(at := next), token) == Continue(e) && Began(e, bits) && Run(d, bits) == Run(e, bits)
  {
    hide ReadToken, Table;
    StepAdvances(d, bits);
    TokenWithin(d.literals, d.distances, bits, d.at);
    var r := ReadToken(d.literals, d.distances, bits, d.at);
    token, next := r.value, r.at;
    e := Apply(d.(at := next), token).d;
  }

  /** What remains of a compressed block: its items, and the word that ends it. */
  lemma {:induction false} BodyIsSpelled(d: Decoder, bits: seq<bit>, literals: Lengths, distances: Lengths)
      returns (items: seq<Item>, next: seq<byte>, e: Decoder)
    requires Began(d, bits) && Using(d, literals, distances) && Run(d, bits).Ended?
    ensures Worded(literals, 256) && AllEncodable(literals, distances, items) && AllAdd(d.out, items, next)
    ensures Spelled(bits, d.at, BodyBits(literals, distances, items))
    ensures e == AfterBlock(d.(at := d.at + |BodyBits(literals, distances, items)|, out := next))
    ensures Began(e, bits) && Run(d, bits) == Run(e, bits)
    decreases |bits| - d.at
  {
    hide Run, Build, ReadToken, StepOn, AfterBlock, Adds, ItemBits, Code, CodeBits, Spelled, IsItem, Table;
    var token, at, f := TokenGoesOn(d, bits);
    var item := TokenIsSpelled(literals, distances, bits, d.at, token, at);
    if token.EndOfBlock? {
      items, next, e := [], d.out, f;
      assert d.(out := next) == d;
    } else {
      AppliedAdds(d.(at := at), item, f);
      var rest;
      rest, next, e := BodyIsSpelled(f, bits, literals, distances);
      items := [item] + rest;
      Joined(bits, d.at, ItemBits(literals, distances, item), BodyBits(literals, distances, rest));
    }
  }

  // ---- The header of a dynamic block --------------------------------------------------

  lemma RunIsSpelled(codes: Lengths, symbol: nat, bits: seq<bit>, at: nat, before: Lengths, run: Lengths, next: nat)
      returns (op: Op)
    requires at <= |bits| && symbol < 19 && Worded(codes, symbol)
    requires ReadRunAfter(symbol, bits, at, before) == Got(run, next)
    ensures IsOp(codes, op) && OpSymbol(op) == symbol && (op.Again? ==> before != [])
    ensures OpRun(codes, op, before) == run
    ensures Spelled(bits, at, OpExtra(codes, op)) && next == at + |OpExtra(codes, op)|
  {
    hide ReadBits, Lsb, Shl, Code;
    ShlSmall();
    if symbol < 16 {
      op := Len(symbol);
      assert bits[at..at] == [];
    } else if symbol == 16 {
      NumberIsSpelled(bits, at, 2);
      op := Again(3 + ReadBits(bits, at, 2).value);
    } else if symbol == 17 {
      NumberIsSpelled(bits, at, 3);
      op := Zeros(3 + ReadBits(bits, at, 3).value);
    } else {
      NumberIsSpelled(bits, at, 7);
      op := ManyZeros(11 + ReadBits(bits, at, 7).value);
    }
  }

  lemma OpIsSpelled(codes: Lengths, bits: seq<bit>, at: nat, before: Lengths, run: Lengths, next: nat)
      returns (op: Op)
    requires at <= |bits| && |codes| == 19 && Table(Build(codes))
    requires ReadRun(Build(codes), bits, at, before) == Got(run, next)
    ensures IsOp(codes, op) && (op.Again? ==> before != []) && OpRun(codes, op, before) == run
    ensures Spelled(bits, at, OpBits(codes, op)) && next == at + |OpBits(codes, op)|
  {
    hide Decode, Build, Code, Spelled, ReadRunAfter, OpRun, OpExtra, Table, CodeBits;
    var symbol := Decode(Build(codes), bits, at);
    CodeIsSpelled(codes, bits, at, symbol.value, symbol.at);
    op := RunIsSpelled(codes, symbol.value, bits, symbol.at, before, run, next);
    Joined(bits, at, CodeBits(codes, symbol.value), OpExtra(codes, op));
  }

  lemma {:induction false} LengthsAreSpelled(
      codes: Lengths, bits: seq<bit>, at: nat, total: nat, before: Lengths, all: Lengths, next: nat)
      returns (ops: seq<Op>)
    requires at <= |bits| && |codes| == 19 && Table(Build(codes)) && |before| <= total
    requires ReadLengths(Build(codes), bits, at, total, before) == Got(all, next)
    ensures AreOps(codes, ops) && OpsSpell(codes, ops, before, all)
    ensures Spelled(bits, at, OpsBits(codes, ops)) && next == at + |OpsBits(codes, ops)|
    decreases total - |before|
  {
    hide Build, Code, ReadRun, OpBits, OpRun, Table, IsOp, Spelled;
    if |before| == total {
      ops := [];
      NothingIsSpelled(bits, at);
    } else {
      var run := ReadRun(Build(codes), bits, at, before);
      DecodedRunIsInside(codes, bits, at, before);
      var op := OpIsSpelled(codes, bits, at, before, run.value, run.at);
      var rest := LengthsAreSpelled(codes, bits, run.at, total, before + run.value, all, next);
      ops := [op] + rest;
      Joined(bits, at, OpBits(codes, op), OpsBits(codes, rest));
    }
  }

  lemma NothingIsSpelled(bits: seq<bit>, at: nat)
    requires at <= |bits|
    ensures Spelled(bits, at, [])
  {
    assert bits[at..at] == [];
  }

  lemma DecodedRunIsInside(codes: Lengths, bits: seq<bit>, at: nat, before: Lengths)
    requires at <= |bits| && Table(Build(codes)) && ReadRun(Build(codes), bits, at, before).Got?
    ensures ReadRun(Build(codes), bits, at, before).at <= |bits|
  {
    DecodeWithin(Build(codes), bits, at, 1, 0, 0, 0);
  }

  /** The lengths sent so far, each below 8, and nothing yet where one is still to come. */
  predicate SentSoFar(lengths: Lengths, i: nat) {
    |lengths| == 19 && forall x :: 0 <= x < 19 ==> lengths[x] < 8 && (DeflateHeader.Place(x) >= i ==> lengths[x] == 0)
  }

  lemma SentNext(lengths: Lengths, i: nat, v: nat)
    requires i < 19 && v < 8 && SentSoFar(lengths, i)
    ensures SentSoFar(lengths[CODE_LENGTH_ORDER[i] := v], i + 1)
  {
    OrderIsTheDecoders(i);
    forall x | 0 <= x < 19 && DeflateHeader.Place(x) == i
      ensures x == Order(i)
    {
      PlaceOfOrder(i, x);
    }
    PlaceOfOrder(i, Order(i));
  }

  lemma {:induction false} CodeLengthsAreSpelled(
      bits: seq<bit>, at: nat, i: nat, n: nat, lengths: Lengths, codes: Lengths, next: nat)
    requires at <= |bits| && i <= n <= 19 && SentSoFar(lengths, i)
    requires ReadCodeLengths(bits, at, i, n, lengths) == Got(codes, next)
    ensures Sendable(codes, n) && Spelled(bits, at, SentBits(codes, i, n)) && next == at + |SentBits(codes, i, n)|
    ensures forall x :: 0 <= x < 19 && DeflateHeader.Place(x) < i ==> codes[x] == lengths[x]
    decreases n - i
  {
    hide ReadBits, Lsb, DeflateHeader.Place, Spelled;
    if i == n {
      NothingIsSpelled(bits, at);
    } else {
      var r := ReadBits(bits, at, 3);
      ShlSmall();
      NumberIsSpelled(bits, at, 3);
      SentNext(lengths, i, r.value);
      OrderIsTheDecoders(i);
      PlaceOfOrder(i, Order(i));
      CodeLengthsAreSpelled(bits, r.at, i + 1, n, lengths[Order(i) := r.value], codes, next);
      Joined(bits, at, Lsb(codes[Order(i)], 3), SentBits(codes, i + 1, n));
    }
  }

  lemma HeaderIsSpelled(bits: seq<bit>, at: nat, literals: Lengths, distances: Lengths, next: nat)
      returns (h: Header)
    requires at <= |bits| && ReadDynamicLengths(bits, at) == Got((literals, distances), next)
    ensures IsHeader(h) && h.literals == literals && h.distances == distances
    ensures Spelled(bits, at, HeaderBits(h)) && next == at + |HeaderBits(h)|
  {
    hide ReadBits, Lsb, Spelled, ReadCodeLengths, ReadLengths, Build, OpsBits, SentBits, Table, Shl, AreOps, OpsSpell;
    ShlSmall();
    var l := ReadBits(bits, at, 5);
    NumberIsSpelled(bits, at, 5);
    var d := ReadBits(bits, l.at, 5);
    NumberIsSpelled(bits, l.at, 5);
    Joined(bits, at, Lsb(l.value, 5), Lsb(d.value, 5));
    var n := ReadBits(bits, d.at, 4);
    NumberIsSpelled(bits, d.at, 4);
    assert SentSoFar(Repeat(0, 19), 0);
    var count := n.value + 4;
    var lengths := ReadCodeLengths(bits, n.at, 0, count, Repeat(0, 19));
    CodeLengthsAreSpelled(bits, n.at, 0, count, Repeat(0, 19), lengths.value, lengths.at);
    CodeLengthsWithin(bits, n.at, 0, count, Repeat(0, 19));
    BuildIsTable(lengths.value);
    var all := literals + distances;
    var read := ReadLengths(Build(lengths.value), bits, lengths.at, l.value + 257 + d.value + 1, []);
    assert all == read.value;
    var ops := LengthsAreSpelled(lengths.value, bits, lengths.at, l.value + 257 + d.value + 1, [], all, next);
    h := Header(literals, distances, lengths.value, count, ops);
    Joined(bits, n.at, SentBits(h.codes, 0, count), OpsBits(h.codes, ops));
    Joined(bits, d.at, Lsb(n.value, 4), SentBits(h.codes, 0, count) + OpsBits(h.codes, ops));
    Joined(bits, at, CountsBits(h), CodesBits(h));
  }

  // ---- Blocks ---------------------------------------------------------------------------

  /** Any bits up to a byte boundary are such as a compressor may fill up with. */
  lemma FillIsSpelled(bits: seq<bit>, at: nat) returns (fill: Fill)
    requires Align(at) <= |bits|
    ensures Align(at) - at < 8 && Spelled(bits, at, Pad(fill, Align(at) - at))
  {
    AlignSpans(at);
    hide Align;
    var between := bits[at..Align(at)];
    fill := between + seq(7 - |between|, _ => 0);
  }

  lemma BytesAreSpelled(bits: seq<bit>, at: nat, n: nat)
    requires at + 8 * n <= |bits|
    ensures Spelled(bits, at, Unpack(BytesAt(bits, at, n)))
  {
    var word := bits[at..at + 8 * n];
    PackUnpacks(word);
    assert bits[at..][..8 * n] == word;
    BytesAtMoves(bits, at, n, at, bits[at..]);
    BytesAtMoves(word, 0, n, 0, bits[at..]);
  }

  lemma StoredIsSpelled(bits: seq<bit>, at: nat, length: nat, start: nat) returns (fill: Fill)
    requires at <= |bits| && ReadStoredLength(bits, at) == Got(length, start) && start + 8 * length <= |bits|
    ensures length <= 65535 && Spelled(bits, at, RawBits(fill, BytesAt(bits, start, length), at))
    ensures start + 8 * length == at + |RawBits(fill, BytesAt(bits, start, length), at)|
  {
    hide Align, Lsb, Unpack, ReadBits, Spelled, BytesAt, Pad;
    var from := Align(at);
    AlignSpans(at);
    ShlSixteen();
    StoredLengthWithin(bits, at);
    NumberIsSpelled(bits, from, 16);
    NumberIsSpelled(bits, from + 16, 16);
    Joined(bits, from, Lsb(length, 16), Lsb(65535 - length, 16));
    fill := FillIsSpelled(bits, at);
    BytesAreSpelled(bits, start, length);
    Joined(bits, from, Lsb(length, 16) + Lsb(65535 - length, 16), Unpack(BytesAt(bits, start, length)));
    Joined(bits, at, Pad(fill, from - at),
           Lsb(length, 16) + Lsb(65535 - length, 16) + Unpack(BytesAt(bits, start, length)));
  }

  /** The bytes of a stored block are all here. */
  lemma StoredGoesOn(d: Decoder, bits: seq<bit>) returns (e: Decoder)
    requires Began(d, bits) && d.phase == Stored && Run(d, bits).Ended?
    ensures d.at + 8 * d.remaining <= |bits|
    ensures var data := BytesAt(bits, d.at, d.remaining);
      e == AfterBlock(d.(at := d.at + 8 * d.remaining, out := d.out + data, remaining := 0))
    ensures Began(e, bits) && Run(d, bits) == Run(e, bits)
  {
    hide BytesAt, Table, ReadBlock, ReadToken, ReadChecksum, ReadZlibHeader;
    StepAdvances(d, bits);
    e := StepStored(d, bits).d;
  }

  lemma BlockGoesOn(d: Decoder, bits: seq<bit>) returns (last: bool, block: Block, next: nat, e: Decoder)
    requires Began(d, bits) && d.phase == BlockHeader && Run(d, bits).Ended?
    ensures d.at < |bits| && bits[d.at] == (if last then 1 else 0)
    ensures ReadBlock(bits, d.at + 1) == Got(block, next)
    ensures e == Begin(d.(at := next, last := last), block) && Began(e, bits) && Run(d, bits) == Run(e, bits)
  {
    hide ReadBlock, Table, ReadToken, ReadChecksum, ReadZlibHeader, StepStored, Begin;
    StepAdvances(d, bits);
    last := bits[d.at] == 1;
    var r := ReadBlock(bits, d.at + 1);
    block, next := r.value, r.at;
    e := Begin(d.(at := next, last := last), block);
  }

  lemma KindIsSpelled(bits: seq<bit>, at: nat, p: Piece, last: bool, kind: nat, rest: seq<bit>)
    requires IsPiece(p) && at < |bits| && bits[at] == (if last then 1 else 0)
    requires ReadBits(bits, at + 1, 2) == Got(kind, at + 3) && Spelled(bits, at + 3, rest)
    requires KindBits(p, at + 1) == Lsb(kind, 2) + rest
    ensures PieceSpelled(bits, at, p, last, at + 3 + |rest|)
  {
    hide ReadBits, KindBits, IsPiece, Lsb;
    NumberIsSpelled(bits, at + 1, 2);
    Joined(bits, at + 1, Lsb(kind, 2), rest);
    assert bits[at..at + 1] == [if last then 1 else 0];
    Joined(bits, at, [if last then 1 else 0], KindBits(p, at + 1));
  }

  lemma RawPiece(d: Decoder, bits: seq<bit>, last: bool, length: nat, start: nat, begun: Decoder)
      returns (p: Piece, next: seq<byte>, end: nat, e: Decoder)
    requires Began(begun, bits) && d.at < |bits| && bits[d.at] == (if last then 1 else 0)
    requires ReadBlock(bits, d.at + 1) == Got(StoredBlock(length), start) && Run(begun, bits).Ended?
    requires begun == d.(at := start, last := last, phase := Stored, remaining := length)
    ensures PieceSpelled(bits, d.at, p, last, end) && PieceAdds(d.out, p, next)
    ensures Began(e, bits) && Run(begun, bits) == Run(e, bits) && After(d, end, last, next, e)
  {
    hide Run, Align, Lsb, Unpack, ReadDynamicLengths, BytesAt, Spelled, RawBits, ReadBits, PieceSpelled, Table;
    e := StoredGoesOn(begun, bits);
    var kind := ReadBits(bits, d.at + 1, 2);
    TwoBits(bits, d.at + 1);
    var fill := StoredIsSpelled(bits, kind.at, length, start);
    var data := BytesAt(bits, start, length);
    p, next, end := Raw(fill, data), d.out + data, start + 8 * length;
    KindIsSpelled(bits, d.at, p, last, 0, RawBits(fill, data, d.at + 3));
  }

  lemma TwoBits(bits: seq<bit>, at: nat)
    requires at <= |bits|
    ensures ReadBits(bits, at, 2).Got? ==> ReadBits(bits, at, 2).at == at + 2 <= |bits|
  {
  }

  lemma FixedPiece(d: Decoder, bits: seq<bit>, last: bool, begun: Decoder)
      returns (p: Piece, next: seq<byte>, end: nat, e: Decoder)
    requires Began(begun, bits) && d.at < |bits| && bits[d.at] == (if last then 1 else 0)
    requires ReadBits(bits, d.at + 1, 2) == Got(1, d.at + 3) && Run(begun, bits).Ended?
    requires begun == Begin(d.(at := d.at + 3, last := last), FixedBlock)
    ensures PieceSpelled(bits, d.at, p, last, end) && PieceAdds(d.out, p, next)
    ensures Began(e, bits) && Run(begun, bits) == Run(e, bits) && After(d, end, last, next, e)
  {
    hide Run, Align, Lsb, Spelled, BodyBits, Build, ReadBits, PieceSpelled, Table, AllAdd, AllEncodable, Code,
         FixedLiteralLengths, FixedDistanceLengths;
    var literals, distances := FixedLiteralLengths(), FixedDistanceLengths();
    var items;
    items, next, e := BodyIsSpelled(begun, bits, literals, distances);
    p, end := Fixed(items), d.at + 3 + |BodyBits(literals, distances, items)|;
    KindIsSpelled(bits, d.at, p, last, 1, BodyBits(literals, distances, items));
  }

  lemma DynamicPiece(d: Decoder, bits: seq<bit>, last: bool, h: Header, start: nat, begun: Decoder)
      returns (p: Piece, next: seq<byte>, end: nat, e: Decoder)
    requires Began(begun, bits) && d.at < |bits| && bits[d.at] == (if last then 1 else 0)
    requires ReadBits(bits, d.at + 1, 2) == Got(2, d.at + 3) && Run(begun, bits).Ended? && IsHeader(h)
    requires Spelled(bits, d.at + 3, HeaderBits(h)) && start == d.at + 3 + |HeaderBits(h)|
    requires begun == Begin(d.(at := start, last := last), DynamicBlock(h.literals, h.distances))
    ensures PieceSpelled(bits, d.at, p, last, end) && PieceAdds(d.out, p, next)
    ensures Began(e, bits) && Run(begun, bits) == Run(e, bits) && After(d, end, last, next, e)
  {
    hide Run, Align, Lsb, Spelled, BodyBits, Build, ReadBits, PieceSpelled, Table, AllAdd, AllEncodable, Code,
         HeaderBits, IsHeader;
    var items;
    items, next, e := BodyIsSpelled(begun, bits, h.literals, h.distances);
    var body := BodyBits(h.literals, h.distances, items);
    p, end := Dynamic(h, items), start + |body|;
    Joined(bits, d.at + 3, HeaderBits(h), body);
    KindIsSpelled(bits, d.at, p, last, 2, HeaderBits(h) + body);
  }

  lemma PieceIsSpelled(d: Decoder, bits: seq<bit>)
      returns (p: Piece, last: bool, next: seq<byte>, end: nat, e: Decoder)
    requires Began(d, bits) && d.phase == BlockHeader && Run(d, bits).Ended?
    ensures PieceSpelled(bits, d.at, p, last, end) && PieceAdds(d.out, p, next)
    ensures Began(e, bits) && Run(d, bits) == Run(e, bits) && After(d, end, last, next, e)
  {
    hide Run, Align, Lsb, Spelled, Build, ReadBits, PieceSpelled, PieceAdds, After, Table, ReadDynamicLengths,
         ReadStoredLength, IsHeader, HeaderBits;
    var block, start, begun;
    last, block, start, begun := BlockGoesOn(d, bits);
    TwoBits(bits, d.at + 1);
    match block {
      case StoredBlock(length) => p, next, end, e := RawPiece(d, bits, last, length, start, begun);
      case FixedBlock => p, next, end, e := FixedPiece(d, bits, last, begun);
      case DynamicBlock(literals, distances) =>
        var h := HeaderIsSpelled(bits, d.at + 3, literals, distances, start);
        p, next, end, e := DynamicPiece(d, bits, last, h, start, begun);
    }
  }

  /** All the blocks up to the last. */
  lemma {:induction false} PiecesAreSpelled(d: Decoder, bits: seq<bit>)
      returns (pieces: seq<Piece>, next: seq<byte>, end: nat, e: Decoder)
    requires Began(d, bits) && d.phase == BlockHeader && Run(d, bits).Ended?
    ensures PiecesSpelled(bits, d.at, pieces, end) && PiecesAdd(d.out, pieces, next)
    ensures Began(e, bits) && Run(d, bits) == Run(e, bits) && After(d, end, true, next, e)
    decreases |bits| - d.at
  {
    hide Run, Align, Spelled, PieceBits, PieceAdds, Table, IsPiece;
    var p, last, mid, at, f := PieceIsSpelled(d, bits);
    if last {
      pieces, next, end, e := [p], mid, at, f;
      assert pieces[1..] == [] && PiecesAdd(mid, [], mid);
      assert PiecesBits(pieces, d.at) == PieceBits(p, true, d.at);
    } else {
      var rest;
      assert |PieceBits(p, last, d.at)| > 0 by { PieceIsNotEmpty(p, last, d.at); }
      rest, next, end, e := PiecesAreSpelled(f, bits);
      pieces := [p] + rest;
      assert pieces[1..] == rest;
      Joined(bits, d.at, PieceBits(p, last, d.at), PiecesBits(rest, at));
    }
  }

  lemma PieceIsNotEmpty(p: Piece, last: bool, at: nat)
    requires IsPiece(p)
    ensures |PieceBits(p, last, at)| > 0
  {
    hide KindBits;
  }

  // ---- Streams --------------------------------------------------------------------------

  lemma PairIsSpelled(bits: seq<bit>, at: nat)
    requires at <= |bits| && ReadPair(bits, at, 8, 8).Got?
    ensures var r := ReadPair(bits, at, 8, 8);
      && r.value.0 < 256 && r.value.1 < 256 && r.at == at + 16 <= |bits|
      && Spelled(bits, at, Lsb(r.value.0, 8) + Lsb(r.value.1, 8))
  {
    hide ReadBits, Lsb, Spelled;
    ShlOf8();
    var r := ReadPair(bits, at, 8, 8);
    NumberIsSpelled(bits, at, 8);
    NumberIsSpelled(bits, at + 8, 8);
    Joined(bits, at, Lsb(r.value.0, 8), Lsb(r.value.1, 8));
  }

  lemma ZlibHeaderIsSpelled(bits: seq<bit>, at: nat) returns (cmf: byte, flg: byte)
    requires at <= |bits| && ReadZlibHeader(bits, at).Got?
    ensures IsZlibHeader(cmf, flg) && Spelled(bits, at, Lsb(cmf, 8) + Lsb(flg, 8))
    ensures ReadZlibHeader(bits, at) == Got((), at + 16)
  {
    hide ReadPair, Spelled, Lsb;
    PairIsSpelled(bits, at);
    cmf, flg := ReadPair(bits, at, 8, 8).value.0, ReadPair(bits, at, 8, 8).value.1;
  }

  lemma ZlibGoesOn(d: Decoder, bits: seq<bit>) returns (cmf: byte, flg: byte, e: Decoder)
    requires Began(d, bits) && d.phase == ZlibHeader && Run(d, bits).Ended?
    ensures IsZlibHeader(cmf, flg) && Spelled(bits, d.at, Lsb(cmf, 8) + Lsb(flg, 8))
    ensures e == d.(at := d.at + 16, phase := BlockHeader) && Began(e, bits) && Run(d, bits) == Run(e, bits)
  {
    hide ReadZlibHeader, Table, ReadBlock, ReadToken, ReadChecksum, StepStored, Spelled, Lsb, IsZlibHeader;
    StepAdvances(d, bits);
    cmf, flg := ZlibHeaderIsSpelled(bits, d.at);
    e := d.(at := d.at + 16, phase := BlockHeader);
  }

  lemma SumGoesOn(d: Decoder, bits: seq<bit>)
    requires Began(d, bits) && d.phase == Checksum && Run(d, bits).Ended?
    ensures ReadChecksum(bits, d.at) == Got(Adler(d.out), Align(d.at) + 32) && Align(d.at) + 32 <= |bits|
    ensures Run(d, bits) == Ended(d.out, Align(d.at) + 32) && |d.out| == d.size
  {
    hide Table, ReadBlock, ReadToken, StepStored, Align, ReadZlibHeader, Adler;
    StepAdvances(d, bits);
  }

  lemma SumIsBytes(high: nat, low: nat, a: nat, b: nat, c: nat, e: nat)
    requires a < 256 && b < 256 && c < 256 && e < 256 && low < 65536 && high < 65536
    requires 16777216 * a + 65536 * b + 256 * c + e == 65536 * high + low
    ensures high / 256 == a && high % 256 == b && low / 256 == c && low % 256 == e
  {
    assert 65536 * (256 * a + b - high) == low - (256 * c + e);
    assert high == 256 * a + b;
  }

  lemma BytesOfSum(out: seq<byte>, a: byte, b: byte, c: byte, e: byte)
    requires Adler(out) == 16777216 * a + 65536 * b + 256 * c + e
    ensures SumBits(out) == (Lsb(a, 8) + Lsb(b, 8)) + (Lsb(c, 8) + Lsb(e, 8))
  {
    hide Lsb, SumBits, AdlerLow, AdlerHigh;
    SumsAgree(out);
    AdlerBound(out);
    SumIsBytes(AdlerHigh(out), AdlerLow(out), a, b, c, e);
  }

  lemma ChecksumIsSpelled(bits: seq<bit>, at: nat) returns (a: byte, b: byte, c: byte, e: byte)
    requires Align(at) <= |bits| && ReadChecksum(bits, at).Got?
    ensures ReadChecksum(bits, at).value == 16777216 * a + 65536 * b + 256 * c + e
    ensures Spelled(bits, Align(at), (Lsb(a, 8) + Lsb(b, 8)) + (Lsb(c, 8) + Lsb(e, 8)))
  {
    hide ReadPair, Spelled, Lsb, Align;
    PairIsSpelled(bits, Align(at));
    PairIsSpelled(bits, Align(at) + 16);
    var high, low := ReadPair(bits, Align(at), 8, 8).value, ReadPair(bits, Align(at) + 16, 8, 8).value;
    a, b, c, e := high.0, high.1, low.0, low.1;
    Joined(bits, Align(at), Lsb(a, 8) + Lsb(b, 8), Lsb(c, 8) + Lsb(e, 8));
  }

  lemma SumIsSpelled(d: Decoder, bits: seq<bit>)
    requires Began(d, bits) && d.phase == Checksum && Run(d, bits).Ended?
    ensures Run(d, bits) == Ended(d.out, Align(d.at) + 32) && |d.out| == d.size && Align(d.at) + 32 <= |bits|
    ensures Spelled(bits, Align(d.at), SumBits(d.out))
  {
    hide Run, Spelled, Lsb, Align, Adler, Ready, ReadChecksum, Whole, SumBits;
    SumGoesOn(d, bits);
    var a, b, c, e := ChecksumIsSpelled(bits, d.at);
    BytesOfSum(d.out, a, b, c, e);
  }

  /** A run that ends read a stream, from its first bit to the last. */
  lemma ZlibIsSpelled(size: nat, bits: seq<bit>) returns (cmf: byte, flg: byte, pieces: seq<Piece>, fill: Fill)
    requires Whole(bits) && Began(Fresh(size, true), bits) && Run(Fresh(size, true), bits).Ended?
    ensures IsZlibHeader(cmf, flg) && ArePieces(pieces)
    ensures var out := Run(Fresh(size, true), bits).out;
      && |out| == size && PiecesAdd([], pieces, out)
      && Spelled(bits, 0, ZlibBits(cmf, flg, pieces, fill, out))
      && Run(Fresh(size, true), bits).at == |ZlibBits(cmf, flg, pieces, fill, out)|
  {
    hide Run, StepOn, Ready, PiecesBits, Spelled, Align, SumBits, IsZlibHeader, PiecesAdd, Build, Lsb, IsPiece, Pad;
    var d, out, end, e;
    cmf, flg, d := ZlibGoesOn(Fresh(size, true), bits);
    pieces, out, end, e := PiecesAreSpelled(d, bits);
    SumIsSpelled(e, bits);
    AlignSpans(end);
    fill := FillIsSpelled(bits, end);
    var head, body, pad := Lsb(cmf, 8) + Lsb(flg, 8), PiecesBits(pieces, 16), Pad(fill, Align(end) - end);
    Joined(bits, end, pad, SumBits(out));
    Joined(bits, 16, body, pad + SumBits(out));
    Joined(bits, 0, head, body + (pad + SumBits(out)));
  }

  lemma BareIsSpelled(size: nat, bits: seq<bit>) returns (pieces: seq<Piece>, fill: Fill)
    requires Whole(bits) && Began(Fresh(size, false), bits) && Run(Fresh(size, false), bits).Ended?
    ensures ArePieces(pieces)
    ensures var out := Run(Fresh(size, false), bits).out;
      && |out| == size && PiecesAdd([], pieces, out)
      && Spelled(bits, 0, BareBits(pieces, fill)) && Run(Fresh(size, false), bits).at == |BareBits(pieces, fill)|
  {
    hide Run, StepOn, PiecesBits, Spelled, Align, PiecesAdd, Build, IsPiece, Pad, Table;
    var out, end, e;
    pieces, out, end, e := PiecesAreSpelled(Fresh(size, false), bits);
    AlignSpans(end);
    FinishedStays(e, bits);
    fill := FillIsSpelled(bits, end);
    Joined(bits, 0, PiecesBits(pieces, 0), Pad(fill, Align(end) - end));
  }

  lemma FinishedStays(d: Decoder, bits: seq<bit>)
    requires Began(d, bits) && d.phase == Finished && Run(d, bits).Ended?
    ensures |d.out| == d.size && Run(d, bits) == Ended(d.out, d.at)
  {
    hide ReadBlock, ReadToken, StepStored, ReadChecksum, ReadZlibHeader, Table;
    StepAdvances(d, bits);
  }

  lemma SpelledIsPacked(input: seq<byte>, word: seq<bit>)
    requires Whole(word) && Spelled(Unpack(input), 0, word)
    ensures |word| / 8 <= |input| && input[..|word| / 8] == Pack(word)
  {
    var bits, n := Unpack(input), |word| / 8;
    assert bits[0..][..|word|] == word;
    BytesOfInput(input, 0, n);
    BytesAtMoves(word, 0, n, 0, bits);
  }

  // ---- Sessions -------------------------------------------------------------------------

  /** `stream` is what some compressor makes of `out`. */
  ghost predicate IsZlibStream(stream: seq<byte>, out: seq<byte>) {
    exists cmf: byte, flg: byte, pieces: seq<Piece>, fill: Fill ::
      && IsZlibHeader(cmf, flg) && ArePieces(pieces) && PiecesAdd([], pieces, out)
      && stream == ZlibStream(cmf, flg, pieces, fill, out)
  }

  ghost predicate IsRawStream(stream: seq<byte>, out: seq<byte>) {
    exists pieces: seq<Piece>, fill: Fill ::
      ArePieces(pieces) && PiecesAdd([], pieces, out) && stream == RawStream(pieces, fill)
  }

  /** The decoder accepts exactly the streams: one push ends with `out` and hands back `rest` if and only if the
      input is a stream of `out`, of the promised size, with `rest` behind it. */
  lemma InflateAcceptsIff(size: nat, stream: seq<byte>, out: seq<byte>, rest: seq<byte>, atEnd: bool)
    ensures Chunks.Push(Chunks.Start(size, true), stream + rest, atEnd) == Chunks.Closed(out, rest) <==>
      |out| == size && IsZlibStream(stream, out)
  {
    hide Run, StepOn, ZlibBits, IsZlibHeader, ArePieces, PiecesAdd, Build, Pack, Chunks.Push;
    var input := stream + rest;
    if Chunks.Push(Chunks.Start(size, true), input, atEnd) == Chunks.Closed(out, rest) {
      AcceptedRan(size, true, input, out, rest, atEnd);
      var bits := Unpack(input);
      var cmf, flg, pieces, fill := ZlibIsSpelled(size, bits);
      var word := ZlibBits(cmf, flg, pieces, fill, out);
      SpelledIsPacked(input, word);
      assert |input[|word| / 8..]| == |rest| && |word| / 8 == |stream|;
      assert stream == ZlibStream(cmf, flg, pieces, fill, out) by { assert input[..|stream|] == stream; }
      assert |out| == size && IsZlibStream(stream, out);
    }
    if |out| == size && IsZlibStream(stream, out) {
      var cmf: byte, flg: byte, pieces: seq<Piece>, fill: Fill :|
        && IsZlibHeader(cmf, flg) && ArePieces(pieces) && PiecesAdd([], pieces, out)
        && stream == ZlibStream(cmf, flg, pieces, fill, out);
      InflateUndoesDeflate(cmf, flg, pieces, fill, out, rest, atEnd);
    }
  }

  lemma RawInflateAcceptsIff(size: nat, stream: seq<byte>, out: seq<byte>, rest: seq<byte>, atEnd: bool)
    ensures Chunks.Push(Chunks.Start(size, false), stream + rest, atEnd) == Chunks.Closed(out, rest) <==>
      |out| == size && IsRawStream(stream, out)
  {
    hide Run, StepOn, BareBits, ArePieces, PiecesAdd, Build, Pack, Chunks.Push;
    var input := stream + rest;
    if Chunks.Push(Chunks.Start(size, false), input, atEnd) == Chunks.Closed(out, rest) {
      AcceptedRan(size, false, input, out, rest, atEnd);
      var bits := Unpack(input);
      var pieces, fill := BareIsSpelled(size, bits);
      var word := BareBits(pieces, fill);
      SpelledIsPacked(input, word);
      assert |input[|word| / 8..]| == |rest| && |word| / 8 == |stream|;
      assert stream == RawStream(pieces, fill) by { assert input[..|stream|] == stream; }
      assert |out| == size && IsRawStream(stream, out);
    }
    if |out| == size && IsRawStream(stream, out) {
      var pieces: seq<Piece>, fill: Fill :|
        ArePieces(pieces) && PiecesAdd([], pieces, out) && stream == RawStream(pieces, fill);
      InflateUndoesRawDeflate(pieces, fill, out, rest, atEnd);
    }
  }

  lemma AcceptedRan(size: nat, zlib: bool, input: seq<byte>, out: seq<byte>, rest: seq<byte>, atEnd: bool)
    requires Chunks.Push(Chunks.Start(size, zlib), input, atEnd) == Chunks.Closed(out, rest)
    ensures var bits := Unpack(input); Whole(bits) && Began(Fresh(size, zlib), bits)
    ensures var r := Run(Fresh(size, zlib), Unpack(input));
      r.Ended? && r.out == out && r.at <= 8 * |input| && rest == input[r.at / 8..]
  {
    hide Run, StepOn, Build;
    FreshBegan(size, zlib, Unpack(input));
    Chunks.RunStays(Fresh(size, zlib), Unpack(input));
    assert [] + input == input;
  }

  // ---- Waiting --------------------------------------------------------------------------

  lemma {:induction false} DecodeWaits(
      h: Huffman, bits: seq<bit>, at: nat, length: nat, code: nat, first: nat, index: nat)
    requires Table(h) && 1 <= length <= 16 && first <= code && index == Offset(h.counts, length)
    requires DecodeFrom(h, bits, at, length, code, first, index).Short?
    ensures |bits| - at < 16 - length
    decreases 16 - length
  {
    if at < |bits| {
      var read: nat, count := code + bits[at], h.counts[length];
      DecodeWaits(h, bits, at + 1, length + 1, Twice(read), Twice(first + count), index + count);
    }
  }

  lemma TokenWaits(literals: Huffman, distances: Huffman, bits: seq<bit>, at: nat)
    requires Table(literals) && Table(distances) && at <= |bits| && ReadToken(literals, distances, bits, at).Short?
    ensures |bits| - at < 48
  {
    var symbol := Decode(literals, bits, at);
    DecodeIsShort(literals, bits, at);
    if symbol.Got? {
      var code := symbol.value - 257;
      LengthTable(code);
      assert LengthWidth(code) <= 5;
      var extra := ReadBits(bits, symbol.at, LengthExtra(code));
      if extra.Got? {
        DecodeIsShort(distances, bits, extra.at);
        var distance := Decode(distances, bits, extra.at);
        if distance.Got? {
          DistanceTable(distance.value);
        }
      }
    }
  }

  lemma {:induction false} DecodeTakes(
      h: Huffman, bits: seq<bit>, at: nat, length: nat, code: nat, first: nat, index: nat)
    requires Table(h) && 1 <= length <= 16 && first <= code && index == Offset(h.counts, length)
    ensures var r := DecodeFrom(h, bits, at, length, code, first, index); r.Got? ==> r.at <= at + 16 - length
    decreases 16 - length
  {
    if length <= 15 && at < |bits| {
      var read: nat, count := code + bits[at], h.counts[length];
      if read - first >= count {
        DecodeTakes(h, bits, at + 1, length + 1, Twice(read), Twice(first + count), index + count);
      }
    }
  }

  lemma DecodeIsShort(h: Huffman, bits: seq<bit>, at: nat)
    requires Table(h) && at <= |bits|
    ensures Decode(h, bits, at).Short? ==> |bits| - at < 15
    ensures Decode(h, bits, at).Got? ==> at < Decode(h, bits, at).at <= |bits| && Decode(h, bits, at).at <= at + 15
  {
    DecodeTakes(h, bits, at, 1, 0, 0, 0);
    DecodeWithin(h, bits, at, 1, 0, 0, 0);
    if Decode(h, bits, at).Short? {
      DecodeWaits(h, bits, at, 1, 0, 0, 0);
    }
  }

  lemma ThreeBits(bits: seq<bit>, at: nat)
    requires at <= |bits|
    ensures var r := ReadBits(bits, at, 3);
      if r.Got? then r.value < 8 && r.at == at + 3 <= |bits| else r.Short? && |bits| - at < 3
  {
    ShlSmall();
  }

  lemma {:induction false} CodeLengthsWait(bits: seq<bit>, at: nat, i: nat, n: nat, lengths: Lengths)
    requires i <= n <= 19 == |lengths| && at <= |bits|
    ensures var r := ReadCodeLengths(bits, at, i, n, lengths);
      (r.Short? ==> |bits| - at < 3 * (n - i)) && (r.Got? ==> r.at == at + 3 * (n - i) <= |bits|)
    decreases n - i
  {
    hide ReadBits;
    if i < n {
      var r := ReadBits(bits, at, 3);
      ThreeBits(bits, at);
      if r.Got? {
        CodeLengthsWait(bits, r.at, i + 1, n, lengths[CODE_LENGTH_ORDER[i] := r.value]);
      }
    }
  }

  lemma {:induction false} LengthsWait(h: Huffman, bits: seq<bit>, at: nat, total: nat, before: Lengths)
    requires Table(h) && |before| <= total && at <= |bits| && ReadLengths(h, bits, at, total, before).Short?
    ensures |bits| - at < 22 * (total - |before|)
    decreases total - |before|
  {
    DecodeIsShort(h, bits, at);
    var run := ReadRun(h, bits, at, before);
    if run.Got? {
      LengthsWait(h, bits, run.at, total, before + run.value);
    }
  }

  lemma DynamicWaits(bits: seq<bit>, at: nat)
    requires at <= |bits| && ReadDynamicLengths(bits, at).Short?
    ensures |bits| - at < 7111
  {
    hide ReadLengths, ReadCodeLengths, Build;
    ShlSmall();
    var counts := ReadPair(bits, at, 5, 5);
    if counts.Got? {
      var n := ReadBits(bits, counts.at, 4);
      if n.Got? {
        CodeLengthsWait(bits, n.at, 0, n.value + 4, Repeat(0, 19));
        var lengths := ReadCodeLengths(bits, n.at, 0, n.value + 4, Repeat(0, 19));
        if lengths.Got? {
          BuildIsTable(lengths.value);
          LengthsWait(Build(lengths.value), bits, lengths.at, counts.value.0 + 257 + counts.value.1 + 1, []);
        }
      }
    }
  }

  /** A step waits only while what it reads may not be here yet: anything else is refused at once. */
  lemma WaitsOnlyWhenShort(d: Decoder, bits: seq<bit>)
    requires Began(d, bits) && StepOn(d, bits).Wait?
    ensures match d.phase
      case ZlibHeader => |bits| - d.at < 16
      case BlockHeader => |bits| - d.at < 7114
      case Stored => |bits| - d.at < 8 * d.remaining
      case Compressed => |bits| - d.at < 48
      case Checksum => |bits| - d.at < 39
      case Finished => false
  {
    hide ReadDynamicLengths, ReadToken, BytesAt, Table;
    match d.phase
    case BlockHeader =>
      if d.at < |bits| && ReadBits(bits, d.at + 1, 2).Got? && ReadBits(bits, d.at + 1, 2).value == 2 {
        DynamicWaits(bits, d.at + 3);
      }
    case Compressed => TokenWaits(d.literals, d.distances, bits, d.at);
    case _ =>
  }
}
