/** The text of a pack, as git writes it ("gitformat-pack"), told without a reader; and that the reader takes
    exactly such texts, for exactly what they mean. */
module PackText {
  import opened Bits
  import opened Options
  import opened Graph
  import opened PackFormat
  import Chunks
  import DeflateSound
  import Exact
  import Delta
  import opened DeltaText
  import PackCoherence

  // ---- Sizes --------------------------------------------------------------------------------

  /** The header of an entry: three bits of type, four of size, and seven more in every byte that follows. A size
      may be padded, to 147 bytes in all. */
  predicate IsHeader(header: seq<byte>, kind: nat, size: nat) {
    && Continued(header) && |header| <= 147
    && header[0] / 16 % 8 == kind && size == header[0] % 16 + 16 * Groups(header[1..])
  }

  lemma {:induction false} RestIsTold(bytes: seq<byte>, at: nat, size: nat, shift: nat)
    requires SizeFrom(bytes, at, size, shift).Ok?
    ensures var (sum, next) := SizeFrom(bytes, at, size, shift).value; var word := bytes[at..next];
      && Continued(word) && shift + 7 * (|word| - 1) < 1024 && sum == size + Shl(Groups(word), shift)
    decreases |bytes| - at
  {
    var b := bytes[at] % 128;
    var (sum, next) := SizeFrom(bytes, at, size, shift).value;
    var word := bytes[at..next];
    if bytes[at] < 128 {
      assert word == [bytes[at]] && Groups(word) == b + 128 * Groups([]);
    } else {
      RestIsTold(bytes, at + 1, size + Shl(b, shift), shift + 7);
      var rest := bytes[at + 1..next];
      assert word == [bytes[at]] + rest;
      GroupsShift(b, Groups(rest), shift);
    }
  }

  lemma {:induction false} ToldRestIsRead(bytes: seq<byte>, at: nat, word: seq<byte>, size: nat, shift: nat)
    requires Delta.At(bytes, at, word) && Continued(word) && shift + 7 * (|word| - 1) < 1024
    requires size + Shl(Groups(word), shift) <= Delta.MAX_SAFE_INTEGER
    ensures SizeFrom(bytes, at, size, shift) == Ok((size + Shl(Groups(word), shift), at + |word|))
    decreases |word|
  {
    hide Shl;
    var rest := word[1..];
    Delta.AtFirst(bytes, at, word[0], rest);
    assert word == [word[0]] + rest;
    GroupsShift(word[0] % 128, Groups(rest), shift);
    if rest == [] {
      ShlZero(shift + 7);
    } else {
      ToldRestIsRead(bytes, at + 1, rest, size + Shl(word[0] % 128, shift), shift + 7);
    }
  }

  /** The reader takes exactly the headers of objects it may hold. */
  lemma HeaderIff(bytes: seq<byte>, at: nat, kind: nat, size: nat, next: nat)
    ensures ReadHeader(bytes, at) == Ok((kind, size, next)) <==>
      at < next <= |bytes| && IsHeader(bytes[at..next], kind, size) && size <= 33554432
  {
    hide Shl, SizeFrom;
    if ReadHeader(bytes, at) == Ok((kind, size, next)) {
      var header := bytes[at..next];
      if bytes[at] < 128 {
        assert header == [bytes[at]];
      } else {
        RestIsTold(bytes, at + 1, bytes[at] % 16, 4);
        var rest := bytes[at + 1..next];
        Delta.ShlFour(Groups(rest));
        assert header == [bytes[at]] + rest;
      }
    }
    if at < next <= |bytes| && IsHeader(bytes[at..next], kind, size) && size <= 33554432 {
      var header := bytes[at..next];
      var rest := header[1..];
      assert header == [bytes[at]] + rest && bytes[at + 1..next] == rest;
      Delta.ShlFour(Groups(rest));
      if rest != [] {
        ToldRestIsRead(bytes, at + 1, rest, bytes[at] % 16, 4);
      }
    }
  }

  // ---- Distances ----------------------------------------------------------------------------

  /** A distance as git writes it, from its end: seven bits in the last byte, and, if more are needed, one less than
      the rest before them, in bytes that say that another follows. */
  function DistanceBytes(n: nat): (bytes: seq<byte>)
    ensures bytes != []
  {
    if n < 128 then [n] else DistanceHigh(n / 128 - 1) + [n % 128]
  }

  function DistanceHigh(n: nat): (bytes: seq<byte>)
    ensures bytes != []
  {
    if n < 128 then [128 + n] else DistanceHigh(n / 128 - 1) + [128 + n % 128]
  }

  lemma HighByte(bytes: seq<byte>, at: nat, offset: nat, n: nat)
    requires n <= Delta.MAX_SAFE_INTEGER && n >= 128 && offset == n / 128 - 1
    requires at < |bytes| && bytes[at] == 128 + n % 128
    ensures OffsetFrom(bytes, at, offset) == OffsetFrom(bytes, at + 1, n)
  {
    assert bytes[at] % 128 == n % 128;
    assert (offset + 1) * 128 + n % 128 == n;
  }

  lemma {:induction false} HighIsRead(bytes: seq<byte>, at: nat, n: nat)
    requires n <= Delta.MAX_SAFE_INTEGER && Delta.At(bytes, at, DistanceHigh(n))
    ensures ReadOffset(bytes, at) == OffsetFrom(bytes, at + |DistanceHigh(n)|, n)
  {
    if n < 128 {
      Delta.AtFirst(bytes, at, 128 + n, []);
    } else {
      hide OffsetFrom, ReadOffset, Delta.At;
      var high := DistanceHigh(n / 128 - 1);
      Delta.AtParts(bytes, at, high, [128 + n % 128]);
      HighIsRead(bytes, at, n / 128 - 1);
      Delta.AtFirst(bytes, at + |high|, 128 + n % 128, []);
      HighByte(bytes, at + |high|, n / 128 - 1, n);
    }
  }

  lemma {:induction false} OffsetIsTold(bytes: seq<byte>, at: nat, from: nat, offset: nat)
    requires at <= from <= |bytes| && bytes[at..from] == DistanceHigh(offset)
    requires OffsetFrom(bytes, from, offset).Ok?
    ensures var (n, next) := OffsetFrom(bytes, from, offset).value;
      bytes[at..next] == DistanceBytes(n) && n <= Delta.MAX_SAFE_INTEGER
    decreases |bytes| - from
  {
    var b := bytes[from];
    var next := (offset + 1) * 128 + b % 128;
    assert next / 128 - 1 == offset && next % 128 == b % 128;
    assert bytes[at..from + 1] == bytes[at..from] + [b];
    if b >= 128 {
      OffsetIsTold(bytes, at, from + 1, next);
    }
  }

  lemma ReadDistanceIsTold(bytes: seq<byte>, at: nat)
    requires ReadOffset(bytes, at).Ok?
    ensures var (n, next) := ReadOffset(bytes, at).value;
      bytes[at..next] == DistanceBytes(n) && n <= Delta.MAX_SAFE_INTEGER
  {
    assert bytes[at..at + 1] == [bytes[at]];
    if bytes[at] >= 128 {
      OffsetIsTold(bytes, at, at + 1, bytes[at] % 128);
    }
  }

  lemma ToldDistanceIsRead(bytes: seq<byte>, at: nat, n: nat)
    requires Delta.At(bytes, at, DistanceBytes(n)) && n <= Delta.MAX_SAFE_INTEGER
    ensures ReadOffset(bytes, at) == Ok((n, at + |DistanceBytes(n)|))
  {
    if n < 128 {
      Delta.AtFirst(bytes, at, n, []);
    } else {
      var high := DistanceHigh(n / 128 - 1);
      Delta.AtParts(bytes, at, high, [n % 128]);
      HighIsRead(bytes, at, n / 128 - 1);
      Delta.AtFirst(bytes, at + |high|, n % 128, []);
    }
  }

  /** The reader takes exactly what git writes: a distance has one spelling. */
  lemma DistanceIff(bytes: seq<byte>, at: nat, n: nat, next: nat)
    ensures ReadOffset(bytes, at) == Ok((n, next)) <==>
      at < next <= |bytes| && bytes[at..next] == DistanceBytes(n) && n <= 9007199254740991
  {
    hide ReadOffset, DistanceBytes;
    if ReadOffset(bytes, at) == Ok((n, next)) {
      ReadDistanceIsTold(bytes, at);
    }
    if at < next <= |bytes| && bytes[at..next] == DistanceBytes(n) && n <= 9007199254740991 {
      ToldDistanceIsRead(bytes, at, n);
    }
  }

  // ---- Names and streams ----------------------------------------------------------------------

  lemma {:induction false} NameIsTold(bytes: seq<byte>)
    ensures NameOf(bytes) < Delta.Pow256(|bytes|) && NameBytes(NameOf(bytes), |bytes|) == bytes
    decreases |bytes|
  {
    if bytes != [] {
      var n := |bytes| - 1;
      NameIsTold(bytes[..n]);
      assert bytes == bytes[..n] + [bytes[n]];
    }
  }

  lemma InflatesIff(z: seq<byte>, payload: seq<byte>)
    ensures PackCoherence.Inflates(z, payload) <==> DeflateSound.IsZlibStream(z, payload)
  {
    hide Chunks.Push, Chunks.Start, DeflateSound.IsZlibStream;
    DeflateSound.InflateAcceptsIff(|payload|, z, payload, [], false);
    assert z + [] == z;
  }

  /** The reader takes exactly the zlib streams of as many bytes as the header told. */
  lemma StreamIff(bytes: seq<byte>, at: nat, size: nat, out: seq<byte>, next: nat)
    requires at <= |bytes|
    ensures ReadStream(bytes, at, size) == Ok((out, next)) <==>
      at <= next <= |bytes| && |out| == size && DeflateSound.IsZlibStream(bytes[at..next], out)
  {
    hide Chunks.Push, Chunks.Start, DeflateSound.IsZlibStream;
    if ReadStream(bytes, at, size) == Ok((out, next)) {
      PackCoherence.CapturedInflates(bytes, at, size);
      InflatesIff(bytes[at..next], out);
    }
    if at <= next <= |bytes| && |out| == size && DeflateSound.IsZlibStream(bytes[at..next], out) {
      InflatesIff(bytes[at..next], out);
      PackCoherence.InflatesThen(bytes[at..next], out, bytes[next..]);
      assert bytes[at..] == bytes[at..next] + bytes[next..];
    }
  }

  // ---- Entries ----------------------------------------------------------------------------------

  /** What an entry says: an object in full; a delta against an object by its name; or one against the object whose
      entry began that many bytes earlier. */
  datatype Emitted =
    | Full(kind: Kind, bytes: seq<byte>, z: seq<byte>)
    | DeltaOf(base: Name, delta: seq<byte>, z: seq<byte>)
    | DeltaBack(distance: nat, delta: seq<byte>, z: seq<byte>)

  function KindNumber(kind: Kind): (n: nat)
    ensures n < 8
  {
    match kind
    case CommitKind => 1
    case TreeKind => 2
    case BlobKind => 3
    case TagKind => 4
  }

  function TypeNumber(e: Emitted): nat {
    match e
    case Full(kind, _, _) => KindNumber(kind)
    case DeltaBack(_, _, _) => 6
    case DeltaOf(_, _, _) => 7
  }

  /** The reader knows the four types of whole objects by these numbers and no others; 6 and 7 are deltas. */
  lemma KindIff(n: nat, kind: Kind)
    ensures KindOfEntry(n) == Some(kind) <==> n == KindNumber(kind)
    ensures KindOfEntry(n) == Some(kind) <==>
      match kind case CommitKind => n == 1 case TreeKind => n == 2 case BlobKind => n == 3 case TagKind => n == 4
  {
  }

  /** What the zlib stream of an entry inflates to, and what its header tells the size of. */
  function PayloadOf(e: Emitted): seq<byte> {
    if e.Full? then e.bytes else e.delta
  }

  /** What stands between the header and the stream. */
  function BaseBytes(e: Emitted): seq<byte> {
    match e
    case Full(_, _, _) => []
    case DeltaOf(base, _, _) => NameBytes(base, 20)
    case DeltaBack(distance, _, _) => DistanceBytes(distance)
  }

  predicate IsEmitted(e: Emitted) {
    && |PayloadOf(e)| <= 33554432
    && (e.DeltaOf? ==> IsName(e.base))
    && (e.DeltaBack? ==> e.distance <= 9007199254740991)
  }

  /** `word` is the text of the entry, its first `n` bytes the header. */
  ghost predicate Written(word: seq<byte>, n: nat, e: Emitted) {
    && n <= |word| && IsHeader(word[..n], TypeNumber(e), |PayloadOf(e)|)
    && word[n..] == BaseBytes(e) + e.z && DeflateSound.IsZlibStream(e.z, PayloadOf(e))
  }

  ghost predicate IsEntry(word: seq<byte>, e: Emitted) {
    IsEmitted(e) && exists n: nat :: Written(word, n, e)
  }

  /** `after` is `objects` with `o` under the name `name`; it may have been there before, in any form. */
  ghost predicate Adds(objects: Objects, hash: Hash, o: PackObject, name: Name, after: Objects) {
    && name == hash(o.kind, o.bytes)
    && if name in objects then ContentOf(objects[name]) == ContentOf(o) && after == objects
       else after == objects[name := o]
  }

  ghost predicate DerivesAs(
      objects: Objects, hash: Hash, base: Name, delta: seq<byte>, z: seq<byte>, name: Name, after: Objects,
      bytes: seq<byte>)
    requires base in objects
  {
    && IsDelta(objects[base].bytes, delta, bytes) && |bytes| <= 33554432
    && Adds(objects, hash, PackObject(objects[base].kind, bytes, Some(Retained(base, delta)), z), name, after)
  }

  /** The object that the delta makes of its base, which is known. */
  ghost predicate Derives(
      objects: Objects, hash: Hash, base: Name, delta: seq<byte>, z: seq<byte>, name: Name, after: Objects)
  {
    base in objects && exists bytes :: DerivesAs(objects, hash, base, delta, z, name, after, bytes)
  }

  /** What the entry that begins at `at` adds; `starts` holds the objects of the entries before it by where they
      began. */
  ghost predicate Means(
      e: Emitted, at: int, objects: Objects, starts: map<int, Name>, hash: Hash, name: Name, after: Objects)
  {
    match e
    case Full(kind, bytes, z) => Adds(objects, hash, PackObject(kind, bytes, None, z), name, after)
    case DeltaOf(base, delta, z) => Derives(objects, hash, base, delta, z, name, after)
    case DeltaBack(distance, delta, z) =>
      at - distance in starts && Derives(objects, hash, starts[at - distance], delta, z, name, after)
  }

  lemma AddIff(objects: Objects, hash: Hash, o: PackObject, name: Name, after: Objects)
    ensures Add(objects, hash, o) == Ok((name, after)) <==> Adds(objects, hash, o, name, after)
  {
  }

  /** The bytes are the stream of a delta of the size told, against `base`. */
  ghost predicate DerivedFrom(
      z: seq<byte>, size: nat, base: Name, objects: Objects, hash: Hash, name: Name, after: Objects, delta: seq<byte>)
  {
    && |delta| == size && DeflateSound.IsZlibStream(z, delta)
    && Derives(objects, hash, base, delta, z, name, after)
  }

  lemma ResolveIff(
      bytes: seq<byte>, at: nat, size: nat, base: Name, objects: Objects, hash: Hash, name: Name, after: Objects,
      next: nat)
    requires at <= |bytes|
    ensures Resolve(bytes, at, size, base, objects, hash) == Ok(Entry(name, after, next)) <==>
      && at <= next <= |bytes|
      && exists delta :: DerivedFrom(bytes[at..next], size, base, objects, hash, name, after, delta)
  {
    hide ReadStream, Add, Adds, Delta.Apply, IsDelta, DeflateSound.IsZlibStream;
    if Resolve(bytes, at, size, base, objects, hash) == Ok(Entry(name, after, next)) {
      var (delta, _) := ReadStream(bytes, at, size).value;
      StreamIff(bytes, at, size, delta, next);
      var result := Delta.Apply(objects[base].bytes, delta).value;
      ApplyIff(objects[base].bytes, delta, result);
      AddIff(objects, hash, PackObject(objects[base].kind, result, Some(Retained(base, delta)), bytes[at..next]), name,
        after);
      assert DerivesAs(objects, hash, base, delta, bytes[at..next], name, after, result);
      assert DerivedFrom(bytes[at..next], size, base, objects, hash, name, after, delta);
    }
    if at <= next <= |bytes| {
      if delta :| DerivedFrom(bytes[at..next], size, base, objects, hash, name, after, delta) {
        StreamIff(bytes, at, size, delta, next);
        var result :| DerivesAs(objects, hash, base, delta, bytes[at..next], name, after, result);
        ApplyIff(objects[base].bytes, delta, result);
        AddIff(objects, hash, PackObject(objects[base].kind, result, Some(Retained(base, delta)), bytes[at..next]),
          name, after);
      }
    }
  }

  ghost predicate ArrivesIn(
      z: seq<byte>, kind: Kind, size: nat, objects: Objects, hash: Hash, name: Name, after: Objects, out: seq<byte>)
  {
    && |out| == size && DeflateSound.IsZlibStream(z, out)
    && Adds(objects, hash, PackObject(kind, out, None, z), name, after)
  }

  lemma FullIff(
      bytes: seq<byte>, from: nat, kind: Kind, size: nat, objects: Objects, hash: Hash, name: Name, after: Objects,
      next: nat)
    requires from <= |bytes|
    ensures FullEntry(bytes, from, kind, size, objects, hash) == Ok(Entry(name, after, next)) <==>
      && from <= next <= |bytes|
      && exists out :: ArrivesIn(bytes[from..next], kind, size, objects, hash, name, after, out)
  {
    hide ReadStream, Add, Adds, DeflateSound.IsZlibStream;
    if FullEntry(bytes, from, kind, size, objects, hash) == Ok(Entry(name, after, next)) {
      var (out, _) := ReadStream(bytes, from, size).value;
      StreamIff(bytes, from, size, out, next);
      AddIff(objects, hash, PackObject(kind, out, None, bytes[from..next]), name, after);
      assert ArrivesIn(bytes[from..next], kind, size, objects, hash, name, after, out);
    }
    if from <= next <= |bytes| {
      if out :| ArrivesIn(bytes[from..next], kind, size, objects, hash, name, after, out) {
        StreamIff(bytes, from, size, out, next);
        AddIff(objects, hash, PackObject(kind, out, None, bytes[from..next]), name, after);
      }
    }
  }

  lemma WrittenAs(bytes: seq<byte>, at: nat, from: nat, start: nat, next: nat, e: Emitted)
    requires at <= from <= start <= next <= |bytes| && IsEmitted(e)
    requires IsHeader(bytes[at..from], TypeNumber(e), |PayloadOf(e)|) && bytes[from..start] == BaseBytes(e)
    requires bytes[start..next] == e.z && DeflateSound.IsZlibStream(e.z, PayloadOf(e))
    ensures IsEntry(bytes[at..next], e)
  {
    hide IsHeader, TypeNumber, BaseBytes, PayloadOf, DeflateSound.IsZlibStream, IsEmitted;
    var word := bytes[at..next];
    assert word[..from - at] == bytes[at..from] && word[from - at..] == bytes[from..start] + e.z;
    assert Written(word, from - at, e);
  }

  lemma WrittenParts(bytes: seq<byte>, at: nat, next: nat, e: Emitted) returns (from: nat, start: nat)
    requires at <= next <= |bytes| && IsEntry(bytes[at..next], e)
    ensures at <= from <= start <= next && IsHeader(bytes[at..from], TypeNumber(e), |PayloadOf(e)|)
    ensures bytes[from..start] == BaseBytes(e) && start == from + |BaseBytes(e)| && bytes[start..next] == e.z
    ensures DeflateSound.IsZlibStream(e.z, PayloadOf(e)) && IsEmitted(e)
  {
    hide IsHeader, TypeNumber, BaseBytes, PayloadOf, DeflateSound.IsZlibStream, IsEmitted;
    var word := bytes[at..next];
    var n: nat :| Written(word, n, e);
    from, start := at + n, at + n + |BaseBytes(e)|;
    assert word[..n] == bytes[at..from] && word[n..] == bytes[from..next];
    assert Delta.At(bytes, from, BaseBytes(e) + e.z);
    Delta.AtParts(bytes, from, BaseBytes(e), e.z);
    assert start + |e.z| == next;
  }

  lemma BackIsTold(
      bytes: seq<byte>, at: nat, size: nat, from: nat, objects: Objects, starts: map<int, Name>, hash: Hash,
      r: PackFormat.Entry)
      returns (e: Emitted)
    requires at < from <= |bytes| && IsHeader(bytes[at..from], 6, size) && size <= 33554432
    requires EntryBody(bytes, at, 6, size, from, objects, starts, hash) == Ok(r)
    ensures at <= r.next && IsEntry(bytes[at..r.next], e) && Means(e, at, objects, starts, hash, r.name, r.objects)
  {
    hide ReadOffset, Resolve, IsHeader, DistanceBytes, DeflateSound.IsZlibStream, Derives;
    var back := ReadOffset(bytes, from).value;
    DistanceIff(bytes, from, back.0, back.1);
    var base := starts[at - back.0];
    ResolveIff(bytes, back.1, size, base, objects, hash, r.name, r.objects, r.next);
    var z := bytes[back.1..r.next];
    var delta :| DerivedFrom(z, size, base, objects, hash, r.name, r.objects, delta);
    e := DeltaBack(back.0, delta, z);
    WrittenAs(bytes, at, from, back.1, r.next, e);
  }

  lemma DeltaIsTold(
      bytes: seq<byte>, at: nat, size: nat, from: nat, objects: Objects, starts: map<int, Name>, hash: Hash,
      r: PackFormat.Entry)
      returns (e: Emitted)
    requires at < from <= |bytes| && IsHeader(bytes[at..from], 7, size) && size <= 33554432
    requires EntryBody(bytes, at, 7, size, from, objects, starts, hash) == Ok(r)
    ensures at <= r.next && IsEntry(bytes[at..r.next], e) && Means(e, at, objects, starts, hash, r.name, r.objects)
  {
    hide NameOf, NameBytes, Resolve, IsHeader, DeflateSound.IsZlibStream, Derives, Delta.Pow256;
    var start := from + 20;
    var base := NameOf(bytes[from..start]);
    NameIsTold(bytes[from..start]);
    ResolveIff(bytes, start, size, base, objects, hash, r.name, r.objects, r.next);
    var z := bytes[start..r.next];
    var delta :| DerivedFrom(z, size, base, objects, hash, r.name, r.objects, delta);
    e := DeltaOf(base, delta, z);
    WrittenAs(bytes, at, from, start, r.next, e);
  }

  lemma FullIsTold(
      bytes: seq<byte>, at: nat, kind: nat, size: nat, from: nat, objects: Objects, starts: map<int, Name>, hash: Hash,
      r: PackFormat.Entry)
      returns (e: Emitted)
    requires at < from <= |bytes| && IsHeader(bytes[at..from], kind, size) && size <= 33554432 && kind < 6
    requires EntryBody(bytes, at, kind, size, from, objects, starts, hash) == Ok(r)
    ensures at <= r.next && IsEntry(bytes[at..r.next], e) && Means(e, at, objects, starts, hash, r.name, r.objects)
  {
    hide FullEntry, IsHeader, DeflateSound.IsZlibStream, Adds;
    var k := KindOfEntry(kind).value;
    FullIff(bytes, from, k, size, objects, hash, r.name, r.objects, r.next);
    var z := bytes[from..r.next];
    var out :| ArrivesIn(z, k, size, objects, hash, r.name, r.objects, out);
    e := Full(k, out, z);
    assert bytes[from..from] == [];
    WrittenAs(bytes, at, from, from, r.next, e);
  }

  lemma EntryIsTold(
      bytes: seq<byte>, at: nat, objects: Objects, starts: map<int, Name>, hash: Hash) returns (e: Emitted)
    requires ReadEntry(bytes, at, objects, starts, hash).Ok?
    ensures var r := ReadEntry(bytes, at, objects, starts, hash).value;
      at <= r.next && IsEntry(bytes[at..r.next], e) && Means(e, at, objects, starts, hash, r.name, r.objects)
  {
    hide ReadHeader, EntryBody, IsHeader, IsEntry, Means;
    var (kind, size, from) := ReadHeader(bytes, at).value;
    HeaderIff(bytes, at, kind, size, from);
    var r := ReadEntry(bytes, at, objects, starts, hash).value;
    if kind == 6 {
      e := BackIsTold(bytes, at, size, from, objects, starts, hash, r);
    } else if kind == 7 {
      e := DeltaIsTold(bytes, at, size, from, objects, starts, hash, r);
    } else {
      e := FullIsTold(bytes, at, kind, size, from, objects, starts, hash, r);
    }
  }

  lemma ToldBodyIsRead(
      bytes: seq<byte>, at: nat, from: nat, start: nat, next: nat, e: Emitted, objects: Objects,
      starts: map<int, Name>, hash: Hash, name: Name, after: Objects)
    requires at <= from <= start <= next <= |bytes| && start == from + |BaseBytes(e)|
    requires bytes[from..start] == BaseBytes(e) && bytes[start..next] == e.z
    requires DeflateSound.IsZlibStream(e.z, PayloadOf(e)) && IsEmitted(e)
    requires Means(e, at, objects, starts, hash, name, after)
    ensures EntryBody(bytes, at, TypeNumber(e), |PayloadOf(e)|, from, objects, starts, hash)
         == Ok(Entry(name, after, next))
  {
    hide ReadOffset, Resolve, FullEntry, Derives, Adds, DistanceBytes, NameBytes, NameOf, DeflateSound.IsZlibStream,
         Delta.Pow256;
    var size := |PayloadOf(e)|;
    match e
    case Full(kind, out, z) =>
      assert ArrivesIn(z, kind, size, objects, hash, name, after, out);
      FullIff(bytes, from, kind, size, objects, hash, name, after, next);
    case DeltaOf(base, delta, z) =>
      NameIsRead(base, 20);
      assert DerivedFrom(z, size, base, objects, hash, name, after, delta);
      ResolveIff(bytes, start, size, base, objects, hash, name, after, next);
    case DeltaBack(distance, delta, z) =>
      DistanceIff(bytes, from, distance, start);
      assert DerivedFrom(z, size, starts[at - distance], objects, hash, name, after, delta);
      ResolveIff(bytes, start, size, starts[at - distance], objects, hash, name, after, next);
  }

  lemma ToldEntryIsRead(
      bytes: seq<byte>, at: nat, next: nat, e: Emitted, objects: Objects, starts: map<int, Name>, hash: Hash,
      name: Name, after: Objects)
    requires at <= next <= |bytes| && IsEntry(bytes[at..next], e)
    requires Means(e, at, objects, starts, hash, name, after)
    ensures ReadEntry(bytes, at, objects, starts, hash) == Ok(Entry(name, after, next))
  {
    hide ReadHeader, EntryBody, Means, IsHeader, BaseBytes, IsEntry, DeflateSound.IsZlibStream;
    var from, start := WrittenParts(bytes, at, next, e);
    assert from > at by { HeaderIsNotEmpty(bytes[at..from], TypeNumber(e), |PayloadOf(e)|); }
    HeaderIff(bytes, at, TypeNumber(e), |PayloadOf(e)|, from);
    ToldBodyIsRead(bytes, at, from, start, next, e, objects, starts, hash, name, after);
  }

  lemma HeaderIsNotEmpty(header: seq<byte>, kind: nat, size: nat)
    requires IsHeader(header, kind, size)
    ensures header != []
  {
  }

  /** The reader takes exactly the entries, and adds exactly what they mean. */
  lemma EntryIff(
      bytes: seq<byte>, at: nat, next: nat, objects: Objects, starts: map<int, Name>, hash: Hash, name: Name,
      after: Objects)
    ensures ReadEntry(bytes, at, objects, starts, hash) == Ok(Entry(name, after, next)) <==>
      && at <= next <= |bytes|
      && exists e :: IsEntry(bytes[at..next], e) && Means(e, at, objects, starts, hash, name, after)
  {
    hide ReadEntry, IsEntry, Means;
    if ReadEntry(bytes, at, objects, starts, hash) == Ok(Entry(name, after, next)) {
      var e := EntryIsTold(bytes, at, objects, starts, hash);
    }
    if at <= next <= |bytes| {
      if e :| IsEntry(bytes[at..next], e) && Means(e, at, objects, starts, hash, name, after) {
        ToldEntryIsRead(bytes, at, next, e, objects, starts, hash, name, after);
      }
    }
  }

  // ---- The whole pack -----------------------------------------------------------------------------

  /** The entries, one after another from where `at` is; each adds to what those before it left. */
  ghost predicate IsEntries(
      text: seq<byte>, at: nat, es: seq<Emitted>, objects: Objects, starts: map<int, Name>, hash: Hash, after: Objects)
    decreases |es|
  {
    if es == [] then text == [] && after == objects
    else
      exists n: nat, name, middle ::
        && IsFirst(text, n, at, es[0], objects, starts, hash, name, middle)
        && IsEntries(text[n..], at + n, es[1..], middle, starts[at := name], hash, after)
  }

  ghost predicate IsFirst(
      text: seq<byte>, n: nat, at: nat, e: Emitted, objects: Objects, starts: map<int, Name>, hash: Hash, name: Name,
      middle: Objects)
  {
    n <= |text| && IsEntry(text[..n], e) && Means(e, at, objects, starts, hash, name, middle)
  }

  lemma {:induction false} EntriesAreTold(
      bytes: seq<byte>, at: nat, count: nat, objects: Objects, starts: map<int, Name>, hash: Hash)
      returns (es: seq<Emitted>)
    requires at <= |bytes| && ReadEntries(bytes, at, count, objects, starts, hash).Ok?
    ensures var (after, next) := ReadEntries(bytes, at, count, objects, starts, hash).value;
      |es| == count && at <= next && IsEntries(bytes[at..next], at, es, objects, starts, hash, after)
    decreases count
  {
    hide ReadEntry, IsEntry, Means;
    var (after, next) := ReadEntries(bytes, at, count, objects, starts, hash).value;
    if count == 0 {
      es := [];
      assert bytes[at..at] == [];
    } else {
      var e := EntryIsTold(bytes, at, objects, starts, hash);
      var r := ReadEntry(bytes, at, objects, starts, hash).value;
      var rest := EntriesAreTold(bytes, r.next, count - 1, r.objects, starts[at := r.name], hash);
      es := [e] + rest;
      var text, n := bytes[at..next], r.next - at;
      assert text[..n] == bytes[at..r.next] && text[n..] == bytes[r.next..next];
      assert es[1..] == rest && at + n == r.next;
      assert IsEntries(text[n..], at + n, es[1..], r.objects, starts[at := r.name], hash, after);
      assert IsFirst(text, n, at, es[0], objects, starts, hash, r.name, r.objects);
    }
  }

  lemma {:induction false} ToldEntriesAreRead(
      bytes: seq<byte>, at: nat, next: nat, es: seq<Emitted>, objects: Objects, starts: map<int, Name>, hash: Hash,
      after: Objects)
    requires at <= next <= |bytes| && IsEntries(bytes[at..next], at, es, objects, starts, hash, after)
    ensures ReadEntries(bytes, at, |es|, objects, starts, hash) == Ok((after, next))
    decreases |es|
  {
    hide ReadEntry, IsEntry, Means;
    if es != [] {
      var text := bytes[at..next];
      var n: nat, name, middle :|
        && IsFirst(text, n, at, es[0], objects, starts, hash, name, middle)
        && IsEntries(text[n..], at + n, es[1..], middle, starts[at := name], hash, after);
      assert text[..n] == bytes[at..at + n] && text[n..] == bytes[at + n..next];
      ToldEntryIsRead(bytes, at, at + n, es[0], objects, starts, hash, name, middle);
      ToldEntriesAreRead(bytes, at + n, next, es[1..], middle, starts[at := name], hash, after);
    }
  }

  function BigEndianBytes(n: nat): (bytes: seq<byte>)
    requires n < 0x1_0000_0000
    ensures |bytes| == 4
  {
    [n / 16777216, n / 65536 % 256, n / 256 % 256, n % 256]
  }

  lemma BytesOfNumber(n: nat)
    ensures n == 16777216 * (n / 16777216) + 65536 * (n / 65536 % 256) + 256 * (n / 256 % 256) + n % 256
  {
    var a, b := n / 256, n / 65536;
    assert a / 256 == b && b / 256 == n / 16777216;
    assert n == 256 * a + n % 256 && a == 256 * b + a % 256 && b == 256 * (b / 256) + b % 256;
  }

  lemma NumberOfBytes(a: byte, b: byte, c: byte, d: byte)
    ensures var n: nat := 16777216 * a + 65536 * b + 256 * c + d;
      n < 0x1_0000_0000 && BigEndianBytes(n) == [a, b, c, d]
  {
    var n: nat := 16777216 * a + 65536 * b + 256 * c + d;
    assert n / 256 == 65536 * a + 256 * b + c && n / 65536 == 256 * a + b && n / 16777216 == a;
  }

  lemma BigEndianIff(bytes: seq<byte>, at: nat, n: nat)
    requires at + 4 <= |bytes|
    ensures BigEndian(bytes, at) == n <==> n < 0x1_0000_0000 && bytes[at..at + 4] == BigEndianBytes(n)
  {
    hide BigEndianBytes;
    var b := bytes[at..at + 4];
    assert b == [bytes[at], bytes[at + 1], bytes[at + 2], bytes[at + 3]];
    NumberOfBytes(bytes[at], bytes[at + 1], bytes[at + 2], bytes[at + 3]);
    if n < 0x1_0000_0000 && b == BigEndianBytes(n) {
      BigEndianIsRead(bytes, at, n);
    }
  }

  lemma BigEndianIsRead(bytes: seq<byte>, at: nat, n: nat)
    requires n < 0x1_0000_0000 && at + 4 <= |bytes| && bytes[at..at + 4] == BigEndianBytes(n)
    ensures BigEndian(bytes, at) == n
  {
    var b := bytes[at..at + 4];
    assert bytes[at] == b[0] && bytes[at + 1] == b[1] && bytes[at + 2] == b[2] && bytes[at + 3] == b[3];
    BytesOfNumber(n);
  }

  /** "PACK", the version, and how many entries follow. */
  function PackHead(version: nat, count: nat): (head: seq<byte>)
    requires version < 0x1_0000_0000 && count < 0x1_0000_0000
    ensures |head| == 12
  {
    [80, 65, 67, 75] + BigEndianBytes(version) + BigEndianBytes(count)
  }

  /** Header, entries, and the checksum over both. */
  ghost predicate IsPack(
      bytes: seq<byte>, version: nat, es: seq<Emitted>, objects: Objects, hash: Hash, sha1: seq<byte> -> seq<byte>,
      after: Objects)
  {
    && 2 <= version <= 3 && |es| < 0x1_0000_0000 && |bytes| >= 32
    && var end := |bytes| - 20;
      && bytes[..12] == PackHead(version, |es|) && bytes[end..] == sha1(bytes[..end])
      && IsEntries(bytes[12..end], 12, es, objects, map[], hash, after)
  }

  /** The reader takes exactly the packs, of version 2 or 3, and ends with exactly what they mean. */
  lemma PackIff(bytes: seq<byte>, objects: Objects, hash: Hash, sha1: seq<byte> -> seq<byte>, after: Objects)
    requires forall x :: |sha1(x)| == 20
    ensures ReadPack(bytes, objects, hash, sha1) == Ok(after) <==>
      exists version, es :: IsPack(bytes, version, es, objects, hash, sha1, after)
  {
    hide ReadEntries, IsEntries, BigEndian, BigEndianBytes;
    if ReadPack(bytes, objects, hash, sha1) == Ok(after) {
      var version, count := BigEndian(bytes, 4), BigEndian(bytes, 8);
      BigEndianIff(bytes, 4, version);
      BigEndianIff(bytes, 8, count);
      var es := EntriesAreTold(bytes, 12, count, objects, map[], hash);
      assert bytes[..12] == bytes[..4] + bytes[4..8] + bytes[8..12];
      assert IsPack(bytes, version, es, objects, hash, sha1, after);
    }
    if version, es :| IsPack(bytes, version, es, objects, hash, sha1, after) {
      var head := bytes[..12];
      assert bytes[..4] == head[..4] && bytes[4..8] == head[4..8] && bytes[8..12] == head[8..12];
      BigEndianIff(bytes, 4, version);
      BigEndianIff(bytes, 8, |es|);
      assert head[..4] == SIGNATURE;
      ToldEntriesAreRead(bytes, 12, |bytes| - 20, es, objects, map[], hash, after);
      assert ReadPack(bytes, objects, hash, sha1) == Ok(after);
    }
  }

  // ---- Packs that are not -------------------------------------------------------------------------

  lemma {:induction false} CutSize(bytes: seq<byte>, n: nat, at: nat, size: nat, shift: nat)
    requires SizeFrom(bytes, at, size, shift).Ok? && at <= n < SizeFrom(bytes, at, size, shift).value.1
    ensures SizeFrom(bytes[..n], at, size, shift) == Err(Truncated)
    decreases |bytes| - at
  {
    if at < n {
      CutSize(bytes, n, at + 1, size + Shl(bytes[at] % 128, shift), shift + 7);
    }
  }

  lemma CutHeader(bytes: seq<byte>, n: nat, at: nat)
    requires ReadHeader(bytes, at).Ok? && at <= n < ReadHeader(bytes, at).value.2
    ensures ReadHeader(bytes[..n], at) == Err(Truncated)
  {
    if at < n {
      CutSize(bytes, n, at + 1, bytes[at] % 16, 4);
    }
  }

  lemma {:induction false} CutOffset(bytes: seq<byte>, n: nat, at: nat, offset: nat)
    requires OffsetFrom(bytes, at, offset).Ok? && at <= n < OffsetFrom(bytes, at, offset).value.1
    ensures OffsetFrom(bytes[..n], at, offset) == Err(Truncated)
    decreases |bytes| - at
  {
    if at < n {
      CutOffset(bytes, n, at + 1, (offset + 1) * 128 + bytes[at] % 128);
    }
  }

  lemma CutDistance(bytes: seq<byte>, n: nat, at: nat)
    requires ReadOffset(bytes, at).Ok? && at <= n < ReadOffset(bytes, at).value.1
    ensures ReadOffset(bytes[..n], at) == Err(Truncated)
  {
    if at < n {
      CutOffset(bytes, n, at + 1, bytes[at] % 128);
    }
  }

  lemma CutStream(bytes: seq<byte>, n: nat, at: nat, size: nat)
    requires at <= n <= |bytes| && ReadStream(bytes, at, size).Ok? && n < ReadStream(bytes, at, size).value.1
    ensures ReadStream(bytes[..n], at, size) == Err(Truncated)
  {
    hide Chunks.Push, Chunks.Start, Chunks.Live;
    Exact.StartIsOpen(size);
    var s, a, b := Chunks.Start(size, true), bytes[at..n], bytes[n..];
    assert bytes[at..] == a + b && bytes[..n][at..] == a;
    Chunks.PushSplits(s, a, b, false);
    Chunks.LeftoverIsTail(s, a, false);
  }

  lemma CutResolve(bytes: seq<byte>, n: nat, at: nat, size: nat, base: Name, objects: Objects, hash: Hash)
    requires at <= n <= |bytes| && Resolve(bytes, at, size, base, objects, hash).Ok?
    requires n < Resolve(bytes, at, size, base, objects, hash).value.next
    ensures Resolve(bytes[..n], at, size, base, objects, hash) == Err(Truncated)
  {
    hide ReadStream, Delta.Apply;
    CutStream(bytes, n, at, size);
  }

  lemma CutBody(
      bytes: seq<byte>, n: nat, at: int, kind: nat, size: nat, from: nat, objects: Objects, starts: map<int, Name>,
      hash: Hash)
    requires from <= n <= |bytes| && EntryBody(bytes, at, kind, size, from, objects, starts, hash).Ok?
    requires n < EntryBody(bytes, at, kind, size, from, objects, starts, hash).value.next
    ensures EntryBody(bytes[..n], at, kind, size, from, objects, starts, hash) == Err(Truncated)
  {
    hide ReadStream, Resolve, ReadOffset, NameOf;
    if kind == OFS_DELTA {
      var (back, next) := ReadOffset(bytes, from).value;
      if n < next {
        CutDistance(bytes, n, from);
      } else {
        DistanceIff(bytes, from, back, next);
        assert bytes[..n][from..next] == bytes[from..next];
        DistanceIff(bytes[..n], from, back, next);
        CutResolve(bytes, n, next, size, starts[at - back], objects, hash);
      }
    } else if kind == REF_DELTA {
      if from + OID_BYTES <= n {
        assert bytes[..n][from..from + OID_BYTES] == bytes[from..from + OID_BYTES];
        CutResolve(bytes, n, from + OID_BYTES, size, NameOf(bytes[from..from + OID_BYTES]), objects, hash);
      }
    } else {
      CutStream(bytes, n, from, size);
    }
  }

  /** The entry is the same wherever the bytes are cut behind it, and cut off if they are before its end. */
  lemma CutEntry(bytes: seq<byte>, n: nat, at: nat, objects: Objects, starts: map<int, Name>, hash: Hash)
    requires at <= n <= |bytes| && ReadEntry(bytes, at, objects, starts, hash).Ok?
    ensures var r := ReadEntry(bytes, at, objects, starts, hash);
      ReadEntry(bytes[..n], at, objects, starts, hash) == if r.value.next <= n then r else Err(Truncated)
  {
    hide ReadHeader, EntryBody, IsEntry, Means, IsHeader;
    var r := ReadEntry(bytes, at, objects, starts, hash).value;
    if r.next <= n {
      var e := EntryIsTold(bytes, at, objects, starts, hash);
      assert bytes[..n][at..r.next] == bytes[at..r.next];
      ToldEntryIsRead(bytes[..n], at, r.next, e, objects, starts, hash, r.name, r.objects);
    } else {
      var (kind, size, from) := ReadHeader(bytes, at).value;
      if n < from {
        CutHeader(bytes, n, at);
      } else {
        HeaderIff(bytes, at, kind, size, from);
        assert bytes[..n][at..from] == bytes[at..from];
        HeaderIff(bytes[..n], at, kind, size, from);
        CutBody(bytes, n, at, kind, size, from, objects, starts, hash);
      }
    }
  }

  lemma {:induction false} CutEntries(
      bytes: seq<byte>, n: nat, at: nat, count: nat, objects: Objects, starts: map<int, Name>, hash: Hash)
    requires at <= n <= |bytes| && ReadEntries(bytes, at, count, objects, starts, hash).Ok?
    ensures var r := ReadEntries(bytes, at, count, objects, starts, hash);
      ReadEntries(bytes[..n], at, count, objects, starts, hash) == if r.value.1 <= n then r else Err(Truncated)
    decreases count
  {
    hide ReadEntry;
    if count > 0 {
      CutEntry(bytes, n, at, objects, starts, hash);
      var e := ReadEntry(bytes, at, objects, starts, hash).value;
      EndsBehind(bytes, e.next, count - 1, e.objects, starts[at := e.name], hash);
      if e.next <= n {
        CutEntries(bytes, n, e.next, count - 1, e.objects, starts[at := e.name], hash);
      }
    }
  }

  lemma EndsBehind(bytes: seq<byte>, at: nat, count: nat, objects: Objects, starts: map<int, Name>, hash: Hash)
    requires at <= |bytes| && ReadEntries(bytes, at, count, objects, starts, hash).Ok?
    ensures at <= ReadEntries(bytes, at, count, objects, starts, hash).value.1
  {
    var es := EntriesAreTold(bytes, at, count, objects, starts, hash);
  }

  /** A pack that stops anywhere before its end is truncated, and nothing else is wrong with it. */
  lemma CutPackIsTruncated(bytes: seq<byte>, n: nat, objects: Objects, hash: Hash, sha1: seq<byte> -> seq<byte>)
    requires ReadPack(bytes, objects, hash, sha1).Ok? && n < |bytes|
    ensures ReadPack(bytes[..n], objects, hash, sha1) == Err(Truncated)
  {
    hide ReadEntries, BigEndian;
    if n >= HEADER_BYTES {
      assert bytes[..n][..4] == bytes[..4] && bytes[..n][4..8] == bytes[4..8] && bytes[..n][8..12] == bytes[8..12];
      BigEndianSame(bytes[..n], bytes, 4);
      BigEndianSame(bytes[..n], bytes, 8);
      CutEntries(bytes, n, HEADER_BYTES, BigEndian(bytes, 8), objects, map[], hash);
    }
  }

  lemma BigEndianSame(a: seq<byte>, b: seq<byte>, at: nat)
    requires at + 4 <= |a| && at + 4 <= |b| && a[at..at + 4] == b[at..at + 4]
    ensures BigEndian(a, at) == BigEndian(b, at)
  {
    BigEndianIff(a, at, BigEndian(a, at));
    BigEndianIff(b, at, BigEndian(a, at));
  }

  /** A pack with anything behind it is refused for that. */
  lemma MoreIsTrailing(
      bytes: seq<byte>, more: seq<byte>, objects: Objects, hash: Hash, sha1: seq<byte> -> seq<byte>)
    requires ReadPack(bytes, objects, hash, sha1).Ok? && more != []
    ensures ReadPack(bytes + more, objects, hash, sha1) == Err(TrailingBytes)
  {
    hide ReadEntries, IsEntries, BigEndian;
    var all, count := bytes + more, BigEndian(bytes, 8);
    assert all[..4] == bytes[..4] && all[4..8] == bytes[4..8] && all[8..12] == bytes[8..12];
    BigEndianSame(all, bytes, 4);
    BigEndianSame(all, bytes, 8);
    var (after, end) := ReadEntries(bytes, HEADER_BYTES, count, objects, map[], hash).value;
    var es := EntriesAreTold(bytes, HEADER_BYTES, count, objects, map[], hash);
    assert all[HEADER_BYTES..end] == bytes[HEADER_BYTES..end];
    ToldEntriesAreRead(all, HEADER_BYTES, end, es, objects, map[], hash, after);
  }

  /** And one with another trailer for its checksum. */
  lemma OtherTrailerIsMismatch(
      bytes: seq<byte>, trailer: seq<byte>, objects: Objects, hash: Hash, sha1: seq<byte> -> seq<byte>)
    requires ReadPack(bytes, objects, hash, sha1).Ok? && |trailer| == 20 && trailer != bytes[|bytes| - 20..]
    ensures ReadPack(bytes[..|bytes| - 20] + trailer, objects, hash, sha1) == Err(ChecksumMismatch)
  {
    hide ReadEntries, IsEntries, BigEndian;
    var end := |bytes| - 20;
    var all, count := bytes[..end] + trailer, BigEndian(bytes, 8);
    EndsBehind(bytes, HEADER_BYTES, count, objects, map[], hash);
    assert all[..4] == bytes[..4] && all[4..8] == bytes[4..8] && all[8..12] == bytes[8..12];
    BigEndianSame(all, bytes, 4);
    BigEndianSame(all, bytes, 8);
    var after := ReadEntries(bytes, HEADER_BYTES, count, objects, map[], hash).value.0;
    var es := EntriesAreTold(bytes, HEADER_BYTES, count, objects, map[], hash);
    assert all[HEADER_BYTES..end] == bytes[HEADER_BYTES..end];
    ToldEntriesAreRead(all, HEADER_BYTES, end, es, objects, map[], hash, after);
    assert all[end..] == trailer && all[..end] == bytes[..end];
  }
}
