/** What a compressed stream means, independently of how it is decoded: blocks of
    literal bytes and matches (section 3.2 of RFC 1951) spelled out as bits, and
    the proof that the decoder undoes every such spelling. */
module Deflate {
  import opened Bits
  import opened Huffman
  import opened Inflate

  // ---- Numbers spelled as bits --------------------------------------------------

  predicate Spelled(bits: seq<bit>, at: nat, word: seq<bit>) {
    at + |word| <= |bits| && bits[at..at + |word|] == word
  }

  lemma SpelledParts(bits: seq<bit>, at: nat, first: seq<bit>, rest: seq<bit>)
    requires Spelled(bits, at, first + rest)
    ensures Spelled(bits, at, first) && Spelled(bits, at + |first|, rest)
  {
    var word := first + rest;
    assert bits[at..at + |first|] == bits[at..at + |word|][..|first|] == word[..|first|];
    assert bits[at + |first|..at + |word|] == bits[at..at + |word|][|first|..] == word[|first|..];
  }

  /** `v` in `n` bits, lowest first: how every number but a code is spelled. */
  function Lsb(v: nat, n: nat): (word: seq<bit>)
    ensures |word| == n
    decreases n
  {
    if n == 0 then [] else [v % 2] + Lsb(v / 2, n - 1)
  }

  /** `v` in `n` bits, highest first: how a Huffman code is spelled. */
  function Msb(v: nat, n: nat): (word: seq<bit>)
    ensures |word| == n
    decreases n
  {
    if n == 0 then [] else Msb(v / 2, n - 1) + [v % 2]
  }

  lemma {:induction false} LsbIsRead(bits: seq<bit>, at: nat, v: nat, n: nat)
    requires v < Shl(1, n) && Spelled(bits, at, Lsb(v, n))
    ensures BitsAt(bits, at, n) == v
    decreases n
  {
    if n > 0 {
      SpelledParts(bits, at, [v % 2], Lsb(v / 2, n - 1));
      LsbIsRead(bits, at + 1, v / 2, n - 1);
      assert bits[at] == bits[at..at + 1][0];
    }
  }

  lemma {:induction false} MsbIsRead(bits: seq<bit>, at: nat, v: nat, n: nat)
    requires v < Shl(1, n) && Spelled(bits, at, Msb(v, n))
    ensures CodeAt(bits, at, n) == v
    decreases n
  {
    if n > 0 {
      SpelledParts(bits, at, Msb(v / 2, n - 1), [v % 2]);
      MsbIsRead(bits, at, v / 2, n - 1);
      assert bits[at + n - 1] == bits[at + n - 1..at + n - 1 + 1][0];
    }
  }

  lemma NumberIsRead(bits: seq<bit>, at: nat, v: nat, n: nat)
    requires v < Shl(1, n) && Spelled(bits, at, Lsb(v, n))
    ensures ReadBits(bits, at, n) == Got(v, at + n)
  {
    LsbIsRead(bits, at, v, n);
  }

  function CodeBits(ls: Lengths, s: nat): seq<bit>
    requires s < |ls|
  {
    Msb(Code(ls, s), ls[s])
  }

  /** The symbol has a word, and the word is one of its length: in an over-subscribed code some are not. */
  predicate Worded(ls: Lengths, s: nat) {
    s < |ls| && ls[s] > 0 && Code(ls, s) < Shl(1, ls[s])
  }

  lemma CodeIsRead(ls: Lengths, bits: seq<bit>, at: nat, s: nat)
    requires Worded(ls, s) && Spelled(bits, at, CodeBits(ls, s))
    ensures Table(Build(ls)) && Decode(Build(ls), bits, at) == Got(s, at + |CodeBits(ls, s)|)
  {
    hide Decode, Build;
    MsbIsRead(bits, at, Code(ls, s), ls[s]);
    DecodeIsCanonical(ls, bits, at, s, at + ls[s]);
  }

  // ---- Lengths and distances --------------------------------------------------------

  /** How many bits follow a length code: none for the first eight, then one more for every four; none for the
      last. */
  function LengthWidth(code: nat): nat
    requires code < 29
  {
    if code < 8 || code == 28 then 0 else code / 4 - 1
  }

  /** The shortest length of a code: from 3 on in steps of 1, then of 2, 4, 8, 16 and 32; the last is 258. */
  function LengthFrom(code: nat): nat
    requires code < 29
  {
    if code == 28 then 258
    else if code < 8 then 3 + code
    else 3 + Shl(4 + code % 4, LengthWidth(code))
  }

  function DistanceWidth(code: nat): nat
    requires code < 30
  {
    if code < 4 then 0 else code / 2 - 1
  }

  function DistanceFrom(code: nat): (from: nat)
    requires code < 30
    ensures from > 0
  {
    if code < 4 then 1 + code else 1 + Shl(2 + code % 2, DistanceWidth(code))
  }

  lemma {:induction false} ShlIsTimes(x: nat, n: nat)
    ensures Shl(x, n) == x * Shl(1, n)
  {
    if n > 0 {
      ShlIsTimes(x, n - 1);
    }
  }

  lemma Powers()
    ensures Shl(1, 0) == 1 && Shl(1, 1) == 2 && Shl(1, 2) == 4 && Shl(1, 3) == 8 && Shl(1, 4) == 16 && Shl(1, 5) == 32
    ensures Shl(1, 6) == 64 && Shl(1, 7) == 128 && Shl(1, 8) == 256 && Shl(1, 9) == 512 && Shl(1, 10) == 1024
    ensures Shl(1, 11) == 2048 && Shl(1, 12) == 4096 && Shl(1, 13) == 8192
  {
    assert Shl(1, 5) == 32;
    assert Shl(1, 9) == 512;
  }

  /** The decoder's tables. */
  lemma LengthTable(code: nat)
    requires code < 29
    ensures LengthExtra(code) == LengthWidth(code) && LengthBase(code) == LengthFrom(code)
  {
    hide Shl;
    Powers();
    ShlIsTimes(4 + code % 4, LengthWidth(code));
  }

  lemma DistanceTable(code: nat)
    requires code < 30
    ensures DistanceExtra(code) == DistanceWidth(code) && DistanceBase(code) == DistanceFrom(code)
  {
    hide Shl;
    Powers();
    ShlIsTimes(2 + code % 2, DistanceWidth(code));
  }

  // ---- Literals and matches ------------------------------------------------------

  /** A literal byte; or a match, with the codes that it is sent with. */
  datatype Item =
    | Byte(value: byte)
    | Back(length: nat, distance: nat, lengthCode: nat, distanceCode: nat)

  predicate IsItem(item: Item) {
    item.Back? ==>
      && item.lengthCode < 29 && item.distanceCode < 30
      && 0 <= item.length - LengthFrom(item.lengthCode) < Shl(1, LengthWidth(item.lengthCode))
      && 0 <= item.distance - DistanceFrom(item.distanceCode) < Shl(1, DistanceWidth(item.distanceCode))
  }

  lemma {:induction false} CodeOfLength(length: nat, from: nat) returns (code: nat)
    requires from < 28 && LengthFrom(from) <= length <= 257
    ensures code < 28 && LengthFrom(code) <= length < LengthFrom(code) + Shl(1, LengthWidth(code))
    decreases 28 - from
  {
    hide Shl;
    Powers();
    ShlIsTimes(4 + from % 4, LengthWidth(from));
    if from < 27 && LengthFrom(from + 1) <= length {
      code := CodeOfLength(length, from + 1);
    } else {
      ShlIsTimes(4 + (from + 1) % 4, LengthWidth(if from < 27 then from + 1 else 0));
      code := from;
    }
  }

  lemma {:induction false} CodeOfDistance(distance: nat, from: nat) returns (code: nat)
    requires from < 30 && DistanceFrom(from) <= distance <= 32768
    ensures code < 30 && DistanceFrom(code) <= distance < DistanceFrom(code) + Shl(1, DistanceWidth(code))
    decreases 30 - from
  {
    hide Shl;
    Powers();
    ShlIsTimes(2 + from % 2, DistanceWidth(from));
    if from < 29 && DistanceFrom(from + 1) <= distance {
      code := CodeOfDistance(distance, from + 1);
    } else {
      ShlIsTimes(2 + (from + 1) % 2, DistanceWidth(if from < 29 then from + 1 else 0));
      code := from;
    }
  }

  /** Every match of 3 to 258 bytes from 1 to 32768 back can be sent. */
  lemma EveryMatchIsItem(length: nat, distance: nat) returns (item: Item)
    requires 3 <= length <= 258 && 1 <= distance <= 32768
    ensures item.Back? && IsItem(item) && item.length == length && item.distance == distance
  {
    var l := 28;
    if length < 258 {
      l := CodeOfLength(length, 0);
    }
    var d := CodeOfDistance(distance, 0);
    item := Back(length, distance, l, d);
  }

  /** And no other. */
  lemma ItemsAreMatches(item: Item)
    requires item.Back? && IsItem(item)
    ensures 3 <= item.length <= 258 && 1 <= item.distance <= 32768
  {
    hide Shl;
    Powers();
    ShlIsTimes(4 + item.lengthCode % 4, LengthWidth(item.lengthCode));
    ShlIsTimes(2 + item.distanceCode % 2, DistanceWidth(item.distanceCode));
  }

  /** Both codes have a word for what the item needs. */
  predicate Encodable(literals: Lengths, distances: Lengths, item: Item) {
    && IsItem(item)
    && match item
       case Byte(value) => Worded(literals, value)
       case Back(_, _, l, d) => Worded(literals, 257 + l) && Worded(distances, d)
  }

  function LengthExtraBits(item: Item): seq<bit>
    requires item.Back? && IsItem(item)
  {
    Lsb(item.length - LengthFrom(item.lengthCode), LengthWidth(item.lengthCode))
  }

  function DistanceBits(distances: Lengths, item: Item): seq<bit>
    requires item.Back? && IsItem(item) && item.distanceCode < |distances|
  {
    CodeBits(distances, item.distanceCode)
    + Lsb(item.distance - DistanceFrom(item.distanceCode), DistanceWidth(item.distanceCode))
  }

  function ItemBits(literals: Lengths, distances: Lengths, item: Item): seq<bit>
    requires Encodable(literals, distances, item)
  {
    match item
    case Byte(value) => CodeBits(literals, value)
    case Back(_, _, l, _) => CodeBits(literals, 257 + l) + (LengthExtraBits(item) + DistanceBits(distances, item))
  }

  function ItemToken(item: Item): Token
    requires IsItem(item)
  {
    match item
    case Byte(value) => Literal(value)
    case Back(length, distance, _, _) => Match(length, distance)
  }

  lemma DistanceIsRead(distances: Lengths, item: Item, bits: seq<bit>, at: nat, length: nat)
    requires item.Back? && IsItem(item) && Worded(distances, item.distanceCode)
    requires Spelled(bits, at, DistanceBits(distances, item))
    ensures Table(Build(distances))
    ensures ReadDistance(Build(distances), bits, at, length)
         == Got(Match(length, item.distance), at + |DistanceBits(distances, item)|)
  {
    hide Decode, Build, ReadBits, Code, DistanceFrom, DistanceWidth, DistanceBase, DistanceExtra, Spelled, Lsb;
    var code, extra := item.distanceCode, item.distance - DistanceFrom(item.distanceCode);
    var word := CodeBits(distances, code);
    SpelledParts(bits, at, word, Lsb(extra, DistanceWidth(code)));
    CodeIsRead(distances, bits, at, code);
    DistanceTable(code);
    NumberIsRead(bits, at + |word|, extra, DistanceWidth(code));
  }

  lemma MatchIsRead(base: nat, extra: nat, n: nat, distances: Lengths, item: Item, bits: seq<bit>, at: nat)
    requires item.Back? && IsItem(item) && extra < Shl(1, n) && Worded(distances, item.distanceCode)
    requires Spelled(bits, at, Lsb(extra, n) + DistanceBits(distances, item))
    ensures Table(Build(distances))
    ensures ReadMatch(base, n, Build(distances), bits, at)
         == Got(Match(base + extra, item.distance), at + n + |DistanceBits(distances, item)|)
  {
    hide ReadDistance, Build, ReadBits, DistanceBits, Table, Code, Lsb, IsItem;
    SpelledParts(bits, at, Lsb(extra, n), DistanceBits(distances, item));
    NumberIsRead(bits, at, extra, n);
    DistanceIsRead(distances, item, bits, at + n, base + extra);
  }

  lemma TokenAfterSymbol(literals: Lengths, s: nat, distances: Huffman, bits: seq<bit>, at: nat)
    requires Worded(literals, s) && Table(distances)
    requires Spelled(bits, at, CodeBits(literals, s))
    ensures Table(Build(literals))
    ensures ReadToken(Build(literals), distances, bits, at)
         == ReadAfterSymbol(s, distances, bits, at + |CodeBits(literals, s)|)
  {
    hide Decode, Build, ReadAfterSymbol, CodeBits;
    CodeIsRead(literals, bits, at, s);
  }

  lemma BackIsRead(literals: Lengths, distances: Lengths, item: Item, bits: seq<bit>, at: nat, word: seq<bit>)
    requires item.Back? && IsItem(item)
    requires Worded(literals, 257 + item.lengthCode) && Worded(distances, item.distanceCode)
    requires word == CodeBits(literals, 257 + item.lengthCode)
    requires Spelled(bits, at, word + (LengthExtraBits(item) + DistanceBits(distances, item)))
    ensures Table(Build(literals)) && Table(Build(distances))
    ensures ReadToken(Build(literals), Build(distances), bits, at)
         == Got(ItemToken(item), at + |word| + |LengthExtraBits(item)| + |DistanceBits(distances, item)|)
  {
    hide ReadToken, Build, ReadMatch, DistanceBits, CodeBits, Code, Spelled, Table, LengthBase, LengthExtra,
         DistanceBase, Lsb, LengthFrom, LengthWidth, DistanceFrom, DistanceWidth;
    var code := item.lengthCode;
    BuildIsTable(distances);
    SpelledParts(bits, at, word, LengthExtraBits(item) + DistanceBits(distances, item));
    TokenAfterSymbol(literals, 257 + code, Build(distances), bits, at);
    LengthTable(code);
    MatchIsRead(LengthFrom(code), item.length - LengthFrom(code), LengthWidth(code), distances, item, bits,
      at + |word|);
  }

  lemma ItemIsRead(literals: Lengths, distances: Lengths, item: Item, bits: seq<bit>, at: nat)
    requires Encodable(literals, distances, item)
    requires Spelled(bits, at, ItemBits(literals, distances, item))
    ensures Table(Build(literals)) && Table(Build(distances))
    ensures ReadToken(Build(literals), Build(distances), bits, at)
         == Got(ItemToken(item), at + |ItemBits(literals, distances, item)|)
  {
    hide ReadToken, Build, ReadMatch, CodeBits, Code, Spelled, Table, DistanceBits, LengthExtraBits, LengthFrom,
         DistanceFrom;
    BuildIsTable(distances);
    match item
    case Byte(value) => TokenAfterSymbol(literals, value, Build(distances), bits, at);
    case Back(_, _, l, _) => BackIsRead(literals, distances, item, bits, at, CodeBits(literals, 257 + l));
  }

  // ---- What items mean -------------------------------------------------------------

  /** The bytes an item adds: a match repeats what stands `distance` back, itself included. */
  predicate Adds(out: seq<byte>, item: Item, next: seq<byte>)
    requires IsItem(item)
  {
    match item
    case Byte(value) => next == out + [value]
    case Back(_, _, _, _) =>
      && item.distance <= |out|
      && |next| == |out| + item.length && out <= next
      && forall i :: |out| <= i < |next| ==> next[i] == next[i - item.distance]
  }

  lemma {:induction false} CopyIsPeriodic(out: seq<byte>, distance: nat, length: nat)
    requires 0 < distance <= |out|
    ensures forall i :: |out| <= i < |out| + length ==>
              Inflate.Copy(out, distance, length)[i] == Inflate.Copy(out, distance, length)[i - distance]
    decreases length
  {
    if length > 0 {
      var grown := out + [out[|out| - distance]];
      CopyIsPeriodic(grown, distance, length - 1);
      var r := Inflate.Copy(out, distance, length);
      assert r == Inflate.Copy(grown, distance, length - 1) && r[..|grown|] == grown;
      assert r[|out|] == r[..|grown|][|out|] && r[|out| - distance] == r[..|grown|][|out| - distance];
    }
  }

  lemma {:induction false} PeriodicIsUnique(a: seq<byte>, b: seq<byte>, from: nat, distance: nat, n: nat)
    requires |a| == |b| && 0 < distance <= from <= n <= |a| && a[..from] == b[..from]
    requires forall i :: from <= i < |a| ==> a[i] == a[i - distance]
    requires forall i :: from <= i < |b| ==> b[i] == b[i - distance]
    ensures a[..n] == b[..n]
    decreases n
  {
    if n > from {
      PeriodicIsUnique(a, b, from, distance, n - 1);
      assert a[..n - 1][n - 1 - distance] == b[..n - 1][n - 1 - distance];
      assert a[..n] == a[..n - 1] + [a[n - 1]] && b[..n] == b[..n - 1] + [b[n - 1]];
    }
  }

  /** The decoder's effect for an item is exactly the bytes the item means. */
  lemma ApplyAdds(d: Decoder, item: Item, next: seq<byte>)
    requires IsItem(item) && Adds(d.out, item, next) && |next| <= d.size
    ensures Apply(d, ItemToken(item)) == Continue(d.(out := next))
  {
    if item.Back? {
      var distance, length := item.distance, item.length;
      var copied := Inflate.Copy(d.out, distance, length);
      CopyIsPeriodic(d.out, distance, length);
      PeriodicIsUnique(copied, next, |d.out|, distance, |next|);
      assert copied[..|next|] == copied && next[..|next|] == next;
    }
  }

  /** `items`, one after another, turn `out` into `next`. */
  ghost predicate AllAdd(out: seq<byte>, items: seq<Item>, next: seq<byte>)
    decreases |items|
  {
    if items == [] then next == out
    else IsItem(items[0]) && exists mid :: Adds(out, items[0], mid) && AllAdd(mid, items[1..], next)
  }

  lemma {:induction false} AllAddGrows(out: seq<byte>, items: seq<Item>, next: seq<byte>)
    requires AllAdd(out, items, next)
    ensures |out| <= |next|
    decreases |items|
  {
    if items != [] {
      var mid :| Adds(out, items[0], mid) && AllAdd(mid, items[1..], next);
      AllAddGrows(mid, items[1..], next);
    }
  }

  // ---- Compressed blocks -------------------------------------------------------------

  predicate AllEncodable(literals: Lengths, distances: Lengths, items: seq<Item>) {
    forall i :: 0 <= i < |items| ==> Encodable(literals, distances, items[i])
  }

  /** The items, then the end-of-block word. */
  function BodyBits(literals: Lengths, distances: Lengths, items: seq<Item>): seq<bit>
    requires AllEncodable(literals, distances, items) && Worded(literals, 256)
    decreases |items|
  {
    if items == [] then CodeBits(literals, 256)
    else ItemBits(literals, distances, items[0]) + BodyBits(literals, distances, items[1..])
  }

  predicate Using(d: Decoder, literals: Lengths, distances: Lengths) {
    d.phase == Compressed && d.literals == Build(literals) && d.distances == Build(distances)
  }

  lemma RunToken(d: Decoder, bits: seq<bit>, token: Token, next: nat, e: Decoder)
    requires Began(d, bits) && d.phase == Compressed
    requires ReadToken(d.literals, d.distances, bits, d.at) == Got(token, next)
    requires Apply(d.(at := next), token) == Continue(e)
    ensures Began(e, bits) && Run(d, bits) == Run(e, bits)
  {
    hide ReadToken, Apply;
    StepAdvances(d, bits);
  }

  lemma BodyEnds(d: Decoder, bits: seq<bit>, literals: Lengths, distances: Lengths)
    requires Began(d, bits) && Using(d, literals, distances) && Worded(literals, 256)
    requires Spelled(bits, d.at, CodeBits(literals, 256))
    ensures var e := AfterBlock(d.(at := d.at + |CodeBits(literals, 256)|));
            Began(e, bits) && Run(d, bits) == Run(e, bits)
  {
    hide Run, Build, ReadToken, StepOn, AfterBlock, CodeBits, Code, Spelled;
    var next := d.at + |CodeBits(literals, 256)|;
    EndIsRead(literals, distances, bits, d.at);
    RunToken(d, bits, EndOfBlock, next, AfterBlock(d.(at := next)));
  }

  lemma {:induction false} BodyRuns(
      d: Decoder, bits: seq<bit>, literals: Lengths, distances: Lengths, items: seq<Item>, next: seq<byte>)
    requires Began(d, bits) && Using(d, literals, distances) && Worded(literals, 256)
    requires AllEncodable(literals, distances, items) && AllAdd(d.out, items, next) && |next| <= d.size
    requires Spelled(bits, d.at, BodyBits(literals, distances, items))
    ensures var e := AfterBlock(d.(at := d.at + |BodyBits(literals, distances, items)|, out := next));
            Began(e, bits) && Run(d, bits) == Run(e, bits)
    decreases |items|
  {
    hide Run, Build, ReadToken, StepOn, AfterBlock, Adds, ItemBits, Code, CodeBits, Spelled, Apply, Encodable;
    if items == [] {
      assert d.(out := next) == d;
      BodyEnds(d, bits, literals, distances);
    } else {
      var item, rest := items[0], BodyBits(literals, distances, items[1..]);
      var word := ItemBits(literals, distances, item);
      SpelledParts(bits, d.at, word, rest);
      ItemIsRead(literals, distances, item, bits, d.at);
      var mid :| Adds(d.out, item, mid) && AllAdd(mid, items[1..], next);
      AllAddGrows(mid, items[1..], next);
      var e := d.(at := d.at + |word|, out := mid);
      ApplyAdds(d.(at := d.at + |word|), item, mid);
      RunToken(d, bits, ItemToken(item), d.at + |word|, e);
      BodyRuns(e, bits, literals, distances, items[1..], next);
      assert d.at + |word| + |rest| == d.at + |word + rest|;
    }
  }

  lemma EndIsRead(literals: Lengths, distances: Lengths, bits: seq<bit>, at: nat)
    requires Worded(literals, 256) && Spelled(bits, at, CodeBits(literals, 256))
    ensures Table(Build(literals)) && Table(Build(distances))
    ensures ReadToken(Build(literals), Build(distances), bits, at) == Got(EndOfBlock, at + |CodeBits(literals, 256)|)
  {
    hide ReadToken, Build, CodeBits;
    BuildIsTable(distances);
    TokenAfterSymbol(literals, 256, Build(distances), bits, at);
  }
}
