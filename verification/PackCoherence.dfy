/** What a pack leaves in the store can be served again: every retained delta applies to its
    base, and every captured zlib stream inflates to what it stands for. */
module PackCoherence {
  import opened Bits
  import opened Options
  import opened Graph
  import opened PackFormat
  import Chunks
  import Exact
  import Huffman
  import Inflate
  import Delta
  import DeflateStream
  import DeflateHeader

  /** `z` is a zlib stream for `payload`, and nothing more. */
  ghost predicate Inflates(z: seq<byte>, payload: seq<byte>) {
    Chunks.Push(Chunks.Start(|payload|, true), z, false) == Chunks.Closed(payload, [])
  }

  function Payload(o: PackObject): seq<byte> {
    if o.delta.Some? then o.delta.value.bytes else o.bytes
  }

  /** The delta gives the object, out of whatever its base's name means. `u` is every object that
      was ever offered, so that a name always means the same one, also while it is not stored. */
  ghost predicate DeltaGives(u: map<Name, Content>, o: Content, base: Name, delta: seq<byte>) {
    && |delta| <= Delta.MAX_OBJECT_BYTES
    && base in u && u[base].kind == o.kind && Delta.Apply(u[base].bytes, delta) == Delta.Ok(o.bytes)
  }

  ghost predicate Known(u: map<Name, Content>, objects: Objects) {
    forall n :: n in objects ==> n in u && u[n] == ContentOf(objects[n])
  }

  /** The object is what its name means; its delta, if it has one, gives it; and what was captured
      is a zlib stream for what it stands for. */
  ghost predicate Sound(u: map<Name, Content>, hash: Hash, n: Name, o: PackObject) {
    && n == hash(o.kind, o.bytes) && n in u && u[n] == ContentOf(o)
    && |o.bytes| <= Delta.MAX_OBJECT_BYTES
    && (o.delta.Some? ==> DeltaGives(u, ContentOf(o), o.delta.value.base, o.delta.value.bytes))
    && Inflates(o.compressed, Payload(o))
  }

  ghost predicate CoherentStore(u: map<Name, Content>, hash: Hash, objects: Objects) {
    forall n :: n in objects ==> Sound(u, hash, n, objects[n])
  }

  /** A stream that inflates is followed by whatever follows it. */
  lemma InflatesThen(z: seq<byte>, payload: seq<byte>, rest: seq<byte>)
    requires Inflates(z, payload)
    ensures Chunks.Push(Chunks.Start(|payload|, true), z + rest, false) == Chunks.Closed(payload, rest)
  {
    hide Chunks.Push, Chunks.Start, Chunks.Live;
    Exact.StartIsOpen(|payload|);
    Chunks.PushSplits(Chunks.Start(|payload|, true), z, rest, false);
    assert [] + rest == rest;
  }

  lemma {:induction false} RunKeepsSize(d: Inflate.Decoder, bits: seq<bit>)
    requires Inflate.Began(d, bits)
    ensures Inflate.Run(d, bits).Ended? ==> |Inflate.Run(d, bits).out| == d.size
    decreases |bits| - d.at, Inflate.StoredRank(d)
  {
    hide Inflate.StepOn;
    Inflate.StepAdvances(d, bits);
    if Inflate.StepOn(d, bits).Continue? {
      RunKeepsSize(Inflate.StepOn(d, bits).d, bits);
    }
  }

  /** A stream that ended gave exactly the size it was promised. */
  lemma ClosedHasSize(s: Chunks.Session, chunk: seq<byte>)
    requires Chunks.Live(s) && s.Open?
    ensures Chunks.Push(s, chunk, false).Closed? ==> |Chunks.Push(s, chunk, false).out| == s.d.size
  {
    hide Inflate.StepOn, Inflate.Run;
    Chunks.RunStays(s.d, Unpack(s.held + chunk));
    RunKeepsSize(s.d, Unpack(s.held + chunk));
  }

  /** The bytes an entry took are the zlib stream of what it inflated to. */
  lemma CapturedInflates(bytes: seq<byte>, at: nat, size: nat)
    requires at <= |bytes| && ReadStream(bytes, at, size).Ok?
    ensures var (out, next) := ReadStream(bytes, at, size).value; |out| == size && Inflates(bytes[at..next], out)
  {
    hide Chunks.Push, Chunks.Start, Chunks.Live;
    Exact.StartIsOpen(size);
    var s := Chunks.Start(size, true);
    var t := Chunks.Push(s, bytes[at..], false);
    Chunks.LeftoverIsTail(s, bytes[at..], false);
    ClosedHasSize(s, bytes[at..]);
    var (out, next) := ReadStream(bytes, at, size).value;
    assert s.held + bytes[at..] == bytes[at..];
    assert bytes[at..] == bytes[at..next] + t.leftover;
    Exact.EndsWithItsLastByte(s, bytes[at..next], t.leftover, out);
  }

  // ---- What a pack adds ---------------------------------------------------------------------------

  /** `after` is `before` with sound objects added. */
  ghost predicate AddsSound(u: map<Name, Content>, hash: Hash, before: Objects, after: Objects) {
    forall n :: (n in before ==> n in after && after[n] == before[n]) &&
      (n in after && n !in before ==> Sound(u, hash, n, after[n]))
  }

  lemma AddIsSound(u: map<Name, Content>, objects: Objects, hash: Hash, o: PackObject)
    requires Add(objects, hash, o).Ok? && Known(u, Add(objects, hash, o).value.1)
    requires o.delta.Some? ==> DeltaGives(u, ContentOf(o), o.delta.value.base, o.delta.value.bytes)
    requires |o.bytes| <= Delta.MAX_OBJECT_BYTES && Inflates(o.compressed, Payload(o))
    ensures AddsSound(u, hash, objects, Add(objects, hash, o).value.1)
  {
    hide Inflates, Delta.Apply;
  }

  lemma ResolveIsSound(
      u: map<Name, Content>, bytes: seq<byte>, at: nat, size: nat, base: Name, objects: Objects, hash: Hash)
    requires at <= |bytes| && size <= Delta.MAX_OBJECT_BYTES && Known(u, objects)
    requires Resolve(bytes, at, size, base, objects, hash).Ok?
    requires Known(u, Resolve(bytes, at, size, base, objects, hash).value.objects)
    ensures AddsSound(u, hash, objects, Resolve(bytes, at, size, base, objects, hash).value.objects)
  {
    hide AddsSound, Inflates, Delta.Apply, ReadStream, Add;
    CapturedInflates(bytes, at, size);
    var (delta, next) := ReadStream(bytes, at, size).value;
    var result := Delta.Apply(objects[base].bytes, delta).value;
    Delta.AppliedIsBounded(objects[base].bytes, delta);
    AddIsSound(u, objects, hash, PackObject(objects[base].kind, result, Some(Retained(base, delta)), bytes[at..next]));
  }

  lemma EntryIsSound(
      u: map<Name, Content>, bytes: seq<byte>, at: nat, objects: Objects, offsets: map<int, Name>, hash: Hash)
    requires Known(u, objects) && ReadEntry(bytes, at, objects, offsets, hash).Ok?
    requires Known(u, ReadEntry(bytes, at, objects, offsets, hash).value.objects)
    ensures AddsSound(u, hash, objects, ReadEntry(bytes, at, objects, offsets, hash).value.objects)
  {
    hide AddsSound, Known, Inflates, Delta.Apply, ReadStream, Add, Resolve, ReadOffset, ReadHeader;
    var (kind, size, from) := ReadHeader(bytes, at).value;
    if kind == OFS_DELTA {
      var back := ReadOffset(bytes, from).value;
      ResolveIsSound(u, bytes, back.1, size, offsets[at - back.0], objects, hash);
    } else if kind == REF_DELTA {
      ResolveIsSound(u, bytes, from + OID_BYTES, size, NameOf(bytes[from..from + OID_BYTES]), objects, hash);
    } else {
      CapturedInflates(bytes, from, size);
      var (out, next) := ReadStream(bytes, from, size).value;
      AddIsSound(u, objects, hash, PackObject(KindOfEntry(kind).value, out, None, bytes[from..next]));
    }
  }

  lemma EntryAdds(bytes: seq<byte>, at: nat, objects: Objects, offsets: map<int, Name>, hash: Hash)
    requires ReadEntry(bytes, at, objects, offsets, hash).Ok?
    ensures var after := ReadEntry(bytes, at, objects, offsets, hash).value.objects;
      forall n :: n in objects ==> n in after && after[n] == objects[n]
  {
    hide Delta.Apply, ReadStream, ReadOffset, ReadHeader, NameOf;
  }

  lemma {:induction false} EntriesAreSound(
      u: map<Name, Content>, bytes: seq<byte>, at: nat, count: nat, objects: Objects, offsets: map<int, Name>,
      hash: Hash)
    requires ReadEntries(bytes, at, count, objects, offsets, hash).Ok?
    ensures Known(u, ReadEntries(bytes, at, count, objects, offsets, hash).value.0) ==>
      AddsSound(u, hash, objects, ReadEntries(bytes, at, count, objects, offsets, hash).value.0)
    ensures var after := ReadEntries(bytes, at, count, objects, offsets, hash).value.0;
      forall n :: n in objects ==> n in after && after[n] == objects[n]
    decreases count
  {
    hide Sound, ReadEntry, ContentOf;
    if count > 0 {
      var e := ReadEntry(bytes, at, objects, offsets, hash).value;
      EntryAdds(bytes, at, objects, offsets, hash);
      EntriesAreSound(u, bytes, e.next, count - 1, e.objects, offsets[at := e.name], hash);
      var after := ReadEntries(bytes, at, count, objects, offsets, hash).value.0;
      if Known(u, after) {
        KnownPart(u, e.objects, after);
        KnownPart(u, objects, after);
        EntryIsSound(u, bytes, at, objects, offsets, hash);
      }
    }
  }

  lemma KnownPart(u: map<Name, Content>, part: Objects, all: Objects)
    requires Known(u, all) && forall n :: n in part ==> n in all && all[n] == part[n]
    ensures Known(u, part)
  {
  }

  /** An accepted pack adds only sound objects, whatever the store holds and whatever it once held:
      each arrives with a delta that gives it, and in the stream that stands for it. */
  lemma PackAddsSound(
      u: map<Name, Content>, bytes: seq<byte>, objects: Objects, hash: Hash, sha1: seq<byte> -> seq<byte>)
    requires ReadPack(bytes, objects, hash, sha1).Ok? && Known(u, ReadPack(bytes, objects, hash, sha1).value)
    ensures AddsSound(u, hash, objects, ReadPack(bytes, objects, hash, sha1).value)
  {
    hide AddsSound, Known, ReadEntries, BigEndian;
    EntriesAreSound(u, bytes, HEADER_BYTES, BigEndian(bytes, 8), objects, map[], hash);
  }

  /** So it leaves a coherent store coherent, also one from which bases were reclaimed. */
  lemma PackKeepsCoherent(
      u: map<Name, Content>, bytes: seq<byte>, objects: Objects, hash: Hash, sha1: seq<byte> -> seq<byte>)
    requires CoherentStore(u, hash, objects)
    requires ReadPack(bytes, objects, hash, sha1).Ok? && Known(u, ReadPack(bytes, objects, hash, sha1).value)
    ensures CoherentStore(u, hash, ReadPack(bytes, objects, hash, sha1).value)
  {
    hide Sound, ReadPack;
    PackAddsSound(u, bytes, objects, hash, sha1);
  }

  /** Every compressor's stream inflates: what the writer compresses afresh is as good as what
      it kept. */
  lemma CompressedInflates(
      cmf: byte, flg: byte, pieces: seq<DeflateStream.Piece>, fill: DeflateStream.Fill, payload: seq<byte>)
    requires DeflateStream.IsZlibHeader(cmf, flg) && DeflateStream.ArePieces(pieces)
    requires DeflateStream.PiecesAdd([], pieces, payload)
    ensures Inflates(DeflateStream.ZlibStream(cmf, flg, pieces, fill, payload), payload)
  {
    hide DeflateStream.ZlibStream, DeflateStream.IsZlibHeader, DeflateStream.ArePieces, DeflateStream.PiecesAdd,
         Chunks.Push, Chunks.Start;
    var z := DeflateStream.ZlibStream(cmf, flg, pieces, fill, payload);
    DeflateStream.InflateUndoesDeflate(cmf, flg, pieces, fill, payload, [], false);
    assert z + [] == z;
  }
}
