/** The pack writer, and that what it writes is read back: the listed objects, each with its
    type and bytes, however they were represented. */
module PackWriter {
  import opened Bits
  import opened Options
  import opened Graph
  import opened PackFormat
  import opened PackCoherence
  import opened PackFrames
  import opened PackText
  import Delta
  import DeltaText
  import PackOrder
  import PktLine

  // ---- What is stored -----------------------------------------------------------------------

  /** A retained delta and, if it was ever compressed, its zlib stream. */
  datatype Kept = Kept(base: Name, bytes: seq<byte>, compressed: Option<seq<byte>>)

  datatype Stored = Stored(kind: Kind, bytes: seq<byte>, full: Option<seq<byte>>, delta: Option<Kept>)

  type Source = map<Name, Stored>

  ghost predicate CoherentDelta(source: Source, o: Stored, d: Kept) {
    && |d.bytes| <= Delta.MAX_OBJECT_BYTES && IsName(d.base)
    && (d.compressed.Some? ==> Inflates(d.compressed.value, d.bytes))
    && (d.base in source ==>
          source[d.base].kind == o.kind && Delta.Apply(source[d.base].bytes, d.bytes) == Delta.Ok(o.bytes))
  }

  /** Names are what they should be, caches hold what they stand for, and deltas apply. */
  ghost predicate CoherentSource(source: Source, hash: Hash) {
    forall n :: n in source ==>
      && IsName(n) && hash(source[n].kind, source[n].bytes) == n
      && |source[n].bytes| <= Delta.MAX_OBJECT_BYTES
      && (source[n].full.Some? ==> Inflates(source[n].full.value, source[n].bytes))
      && (source[n].delta.Some? ==> CoherentDelta(source, source[n], source[n].delta.value))
  }

  // ---- Entries --------------------------------------------------------------------------------

  function EntryBytes(e: Emitted): (bytes: seq<byte>)
    ensures bytes != []
  {
    match e
    case Full(kind, bytes, z) => EntryHeader(KindNumber(kind), |bytes|) + z
    case DeltaOf(base, delta, z) => EntryHeader(REF_DELTA, |delta|) + (NameBytes(base, OID_BYTES) + z)
    case DeltaBack(distance, delta, z) => EntryHeader(OFS_DELTA, |delta|) + (DistanceBytes(distance) + z)
  }

  function EntriesBytes(es: seq<Emitted>): seq<byte> {
    if es == [] then [] else EntryBytes(es[0]) + EntriesBytes(es[1..])
  }

  /** The retained delta of `oid`, against a base that is known. */
  ghost predicate EmitsDelta(source: Source, available: set<Name>, oid: Name, base: Name, delta: seq<byte>) {
    && oid in source && base in available && base in source
    && source[oid].delta.Some? && source[oid].delta.value.base == base && source[oid].delta.value.bytes == delta
  }

  /** An entry that may stand for `oid` when the objects of `available` are known. */
  ghost predicate Emits(source: Source, available: set<Name>, oid: Name, e: Emitted) {
    && oid in source && Inflates(e.z, PayloadOf(e))
    && match e
       case Full(kind, bytes, _) => kind == source[oid].kind && bytes == source[oid].bytes
       case DeltaOf(base, delta, _) => EmitsDelta(source, available, oid, base, delta)
       case DeltaBack(_, delta, _) =>
         source[oid].delta.Some? && EmitsDelta(source, available, oid, source[oid].delta.value.base, delta)
  }

  predicate IsBack(base: Name, order: seq<Name>, es: seq<Emitted>, i: nat, j: nat)
    requires j < i < |es| == |order| && es[i].DeltaBack?
  {
    order[j] == base && es[i].distance == |EntriesBytes(es[j..i])|
  }

  /** The distance leads back to where the entry of the base began. */
  ghost predicate PointsBack(source: Source, order: seq<Name>, es: seq<Emitted>, i: nat)
    requires i < |es| == |order| && es[i].DeltaBack?
  {
    && es[i].distance <= 9007199254740991 && order[i] in source && source[order[i]].delta.Some?
    && exists j: nat :: j < i && IsBack(source[order[i]].delta.value.base, order, es, i, j)
  }

  function AvailableAt(order: seq<Name>, i: nat, thin: bool, client: set<Name>): set<Name>
    requires i <= |order|
  {
    Members(order[..i]) + if thin then client else {}
  }

  // ---- What is written is a text of a pack ---------------------------------------------------------

  lemma {:induction false} RestIsGroups(remaining: nat)
    ensures var rest := SizeRest(remaining);
      DeltaText.Groups(rest) == remaining && forall i :: 0 <= i < |rest| ==> (rest[i] >= 128 <==> i < |rest| - 1)
  {
    if remaining > 0 {
      RestIsGroups(remaining / 128);
    }
  }

  lemma RestIsShort(remaining: nat)
    requires remaining <= 2097152
    ensures |SizeRest(remaining)| <= 4
  {
    var a, b, c := remaining / 128, remaining / 128 / 128, remaining / 128 / 128 / 128;
    assert a <= 16384 && b <= 128 && c <= 1 && c / 128 == 0;
    assert |SizeRest(c)| <= 1;
    assert |SizeRest(b)| <= 2;
    assert |SizeRest(a)| <= 3;
  }

  lemma HeaderIsWritten(kind: nat, size: nat)
    requires kind < 8 && size <= 33554432
    ensures IsHeader(EntryHeader(kind, size), kind, size)
  {
    var header, rest := EntryHeader(kind, size), SizeRest(size / 16);
    RestIsGroups(size / 16);
    RestIsShort(size / 16);
    assert header[1..] == rest;
    assert rest == [] <==> size / 16 == 0;
    assert header[0] / 16 % 8 == kind && header[0] % 16 == size % 16;
  }

  lemma EntryIsWritten(e: Emitted)
    requires IsEmitted(e) && Inflates(e.z, PayloadOf(e))
    ensures IsEntry(EntryBytes(e), e)
  {
    hide Inflates, IsHeader, EntryHeader, DistanceBytes, NameBytes, IsName, DeflateSound.IsZlibStream;
    HeaderIsWritten(TypeNumber(e), |PayloadOf(e)|);
    InflatesIff(e.z, PayloadOf(e));
    var header := EntryHeader(TypeNumber(e), |PayloadOf(e)|);
    assert EntryBytes(e) == header + (BaseBytes(e) + e.z);
    assert Written(EntryBytes(e), |header|, e);
  }

  // ---- Entries are read back ----------------------------------------------------------------------

  /** Where the reader and the writer know an object of the same name, it is the same. */
  predicate Same(source: Source, objects: Objects) {
    forall n :: n in source && n in objects ==> objects[n].kind == source[n].kind && objects[n].bytes == source[n].bytes
  }

  /** The object an entry gives the reader. */
  ghost predicate Gives(source: Source, objects: Objects, oid: Name, after: Objects) {
    && oid in after && after.Keys == objects.Keys + {oid} && Same(source, after)
    && forall n :: n in objects ==> after[n] == objects[n]
  }

  /** The objects with `o` under the name `oid`, unless there is one. */
  function With(objects: Objects, oid: Name, o: PackObject): Objects {
    if oid in objects then objects else objects[oid := o]
  }

  lemma AddGives(source: Source, objects: Objects, hash: Hash, oid: Name, o: PackObject)
    requires Same(source, objects) && oid in source && hash(o.kind, o.bytes) == oid
    requires o.kind == source[oid].kind && o.bytes == source[oid].bytes
    ensures Adds(objects, hash, o, oid, With(objects, oid, o)) && Gives(source, objects, oid, With(objects, oid, o))
  {
  }

  lemma DeltaMeans(
      source: Source, hash: Hash, oid: Name, base: Name, delta: seq<byte>, z: seq<byte>, available: set<Name>,
      objects: Objects) returns (after: Objects)
    requires CoherentSource(source, hash) && EmitsDelta(source, available, oid, base, delta) && Same(source, objects)
    requires available <= objects.Keys
    ensures Derives(objects, hash, base, delta, z, oid, after) && Gives(source, objects, oid, after)
  {
    hide Adds, Gives, Delta.Apply, Inflates, DeltaText.IsDelta;
    assert CoherentDelta(source, source[oid], source[oid].delta.value);
    var o := PackObject(source[oid].kind, source[oid].bytes, Some(Retained(base, delta)), z);
    AddGives(source, objects, hash, oid, o);
    after := With(objects, oid, o);
    DeltaText.ApplyIff(objects[base].bytes, delta, o.bytes);
    assert DerivesAs(objects, hash, base, delta, z, oid, after, o.bytes);
  }

  /** An entry adds its object, where its base is known and, if it points back, at the place it points to. */
  lemma EntryMeans(
      source: Source, hash: Hash, at: nat, oid: Name, e: Emitted, available: set<Name>, objects: Objects,
      starts: map<int, Name>) returns (after: Objects)
    requires CoherentSource(source, hash) && Emits(source, available, oid, e) && Same(source, objects)
    requires available <= objects.Keys
    requires e.DeltaBack? ==> at - e.distance in starts && starts[at - e.distance] == source[oid].delta.value.base
    ensures Means(e, at, objects, starts, hash, oid, after) && Gives(source, objects, oid, after)
  {
    hide Inflates, Gives, Derives, Adds, Same;
    match e {
      case Full(kind, bytes, z) =>
        AddGives(source, objects, hash, oid, PackObject(kind, bytes, None, z));
        after := With(objects, oid, PackObject(kind, bytes, None, z));
      case DeltaOf(base, delta, z) => after := DeltaMeans(source, hash, oid, base, delta, z, available, objects);
      case DeltaBack(_, delta, z) =>
        after := DeltaMeans(source, hash, oid, source[oid].delta.value.base, delta, z, available, objects);
    }
  }

  /** Every object is represented by what may stand for it where it stands. */
  ghost predicate Planned(source: Source, order: seq<Name>, es: seq<Emitted>, thin: bool, client: set<Name>) {
    && |es| == |order|
    && (forall i :: 0 <= i < |order| ==> Emits(source, AvailableAt(order, i, thin, client), order[i], es[i]))
    && (forall i :: 0 <= i < |order| && es[i].DeltaBack? ==> PointsBack(source, order, es, i))
  }

  /** What the reader has learnt after the first `i` entries. */
  ghost predicate Learnt(source: Source, order: seq<Name>, i: nat, before: Objects, after: Objects)
    requires i <= |order|
  {
    && after.Keys == before.Keys + Members(order[..i]) && Same(source, after)
    && forall n :: n in before ==> after[n] == before[n]
  }

  lemma LearntNext(source: Source, order: seq<Name>, i: nat, before: Objects, middle: Objects, after: Objects)
    requires i < |order| && Learnt(source, order, i, before, middle) && Gives(source, middle, order[i], after)
    ensures Learnt(source, order, i + 1, before, after)
  {
    hide Same;
    assert order[..i + 1] == order[..i] + [order[i]];
    assert Members(order[..i + 1]) == Members(order[..i]) + {order[i]};
  }

  /** `starts` holds the object of the `j`-th entry, by where that began if the `i`-th begins at `at`. */
  ghost predicate BeganAt(order: seq<Name>, es: seq<Emitted>, i: nat, at: nat, starts: map<int, Name>, j: nat)
    requires j < i <= |order| == |es|
  {
    var from := at - |EntriesBytes(es[j..i])|;
    from in starts && starts[from] == order[j]
  }

  ghost predicate Began(order: seq<Name>, es: seq<Emitted>, i: nat, at: nat, starts: map<int, Name>)
    requires i <= |order| == |es|
  {
    forall j: nat :: j < i ==> BeganAt(order, es, i, at, starts, j)
  }

  lemma BeganNext(order: seq<Name>, es: seq<Emitted>, i: nat, at: nat, starts: map<int, Name>)
    requires i < |order| == |es| && Began(order, es, i, at, starts)
    ensures Began(order, es, i + 1, at + |EntryBytes(es[i])|, starts[at := order[i]])
  {
    hide EntryBytes;
    var next, end, later := i + 1, at + |EntryBytes(es[i])|, starts[at := order[i]];
    forall j: nat | j < next
      ensures BeganAt(order, es, next, end, later, j)
    {
      assert es[j..i + 1] == es[j..i] + [es[i]];
      EntriesAppend(es[j..i], es[i]);
      if j < i {
        assert |EntriesBytes(es[j..i])| > 0;
        assert BeganAt(order, es, i, at, starts, j);
      }
    }
  }

  lemma {:induction false} EntriesAreRead(
      source: Source, hash: Hash, order: seq<Name>, es: seq<Emitted>, thin: bool, client: set<Name>, bytes: seq<byte>,
      at: nat, i: nat, before: Objects, objects: Objects, starts: map<int, Name>)
    requires CoherentSource(source, hash) && Planned(source, order, es, thin, client) && i <= |order|
    requires Learnt(source, order, i, before, objects) && (thin ==> client <= before.Keys)
    requires Delta.At(bytes, at, EntriesBytes(es[i..])) && Began(order, es, i, at, starts)
    ensures var r := ReadEntries(bytes, at, |order| - i, objects, starts, hash);
            && r.Ok? && r.value.1 == at + |EntriesBytes(es[i..])| && Learnt(source, order, |order|, before, r.value.0)
    decreases |order| - i
  {
    hide EntryBytes, ReadEntry, Emits, Same, Gives, CoherentSource, Began;
    if i < |order| {
      var e, rest := es[i], es[i + 1..];
      assert es[i..][0] == e && es[i..][1..] == rest;
      Delta.AtParts(bytes, at, EntryBytes(e), EntriesBytes(rest));
      var after := OneIsRead(source, hash, bytes, at, order, es, i, thin, client, before, objects, starts);
      LearntNext(source, order, i, before, objects, after);
      BeganNext(order, es, i, at, starts);
      EntriesAreRead(source, hash, order, es, thin, client, bytes, at + |EntryBytes(e)|, i + 1, before, after,
        starts[at := order[i]]);
    }
  }

  lemma OneIsRead(
      source: Source, hash: Hash, bytes: seq<byte>, at: nat, order: seq<Name>, es: seq<Emitted>, i: nat, thin: bool,
      client: set<Name>, before: Objects, objects: Objects, starts: map<int, Name>) returns (after: Objects)
    requires CoherentSource(source, hash) && Planned(source, order, es, thin, client) && i < |order|
    requires Learnt(source, order, i, before, objects) && (thin ==> client <= before.Keys)
    requires Delta.At(bytes, at, EntryBytes(es[i])) && Began(order, es, i, at, starts)
    ensures ReadEntry(bytes, at, objects, starts, hash) == Ok(Entry(order[i], after, at + |EntryBytes(es[i])|))
    ensures Gives(source, objects, order[i], after)
  {
    hide EntryBytes, ReadEntry, Same, Gives, Inflates, IsEntry, Means, Delta.Apply, IsName, Emits, CoherentSource,
         Began, PointsBack, EntriesBytes, IsEmitted;
    var e, oid := es[i], order[i];
    var available := AvailableAt(order, i, thin, client);
    assert Emits(source, available, oid, e);
    if e.DeltaBack? {
      BackBegan(source, order, es, i, at, starts);
    }
    assert Inflates(e.z, PayloadOf(e)) by { EmittedInflates(source, available, oid, e); }
    after := EntryMeans(source, hash, at, oid, e, available, objects, starts);
    EmittedFits(source, hash, oid, e, available);
    EntryIsWritten(e);
    ToldEntryIsRead(bytes, at, at + |EntryBytes(e)|, e, objects, starts, hash, oid, after);
  }

  lemma BackBegan(source: Source, order: seq<Name>, es: seq<Emitted>, i: nat, at: nat, starts: map<int, Name>)
    requires i < |order| == |es| && es[i].DeltaBack? && PointsBack(source, order, es, i)
    requires Began(order, es, i, at, starts)
    ensures order[i] in source && source[order[i]].delta.Some? && es[i].distance <= 9007199254740991
    ensures at - es[i].distance in starts
    ensures starts[at - es[i].distance] == source[order[i]].delta.value.base
  {
    hide EntriesBytes;
    var j: nat :| j < i && IsBack(source[order[i]].delta.value.base, order, es, i, j);
    assert BeganAt(order, es, i, at, starts, j);
  }

  lemma EmittedInflates(source: Source, available: set<Name>, oid: Name, e: Emitted)
    requires Emits(source, available, oid, e)
    ensures Inflates(e.z, PayloadOf(e))
  {
    hide Inflates;
  }

  lemma EmittedFits(source: Source, hash: Hash, oid: Name, e: Emitted, available: set<Name>)
    requires CoherentSource(source, hash) && Emits(source, available, oid, e)
    requires e.DeltaBack? ==> e.distance <= 9007199254740991
    ensures IsEmitted(e)
  {
    hide Inflates, Delta.Apply, IsName;
    assert source[oid].delta.Some? ==> CoherentDelta(source, source[oid], source[oid].delta.value);
  }

  // ---- The whole pack -------------------------------------------------------------------------------

  function PackHeader(count: nat): seq<byte>
    requires count < 0x1_0000_0000
  {
    SIGNATURE + BigEndianBytes(2) + BigEndianBytes(count)
  }

  /** A pack: header, entries, and the checksum over both. */
  function PackBody(es: seq<Emitted>): seq<byte>
    requires |es| < 0x1_0000_0000
  {
    PackHeader(|es|) + EntriesBytes(es)
  }

  lemma HeaderParts(count: nat, rest: seq<byte>)
    requires count < 0x1_0000_0000
    ensures var bytes := PackHeader(count) + rest;
            && |bytes| >= HEADER_BYTES && bytes[..4] == SIGNATURE && BigEndian(bytes, 4) == 2
            && BigEndian(bytes, 8) == count
            && |PackHeader(count)| == HEADER_BYTES
  {
    hide BigEndian;
    var bytes := PackHeader(count) + rest;
    assert bytes[..4] == SIGNATURE;
    assert bytes[4..8] == BigEndianBytes(2);
    assert bytes[8..12] == BigEndianBytes(count);
    BigEndianIsRead(bytes, 4, 2);
    BigEndianIsRead(bytes, 8, count);
  }

  /** The pack round trip: whoever holds the client's objects and reads the pack ends with the
      listed objects, with the right type and bytes, and with nothing else changed. */
  lemma PackIsRead(
      source: Source, hash: Hash, sha1: seq<byte> -> seq<byte>, order: seq<Name>, es: seq<Emitted>, thin: bool,
      client: set<Name>, objects: Objects)
    requires CoherentSource(source, hash) && Planned(source, order, es, thin, client) && |es| < 0x1_0000_0000
    requires (forall x :: |sha1(x)| == 20) && Same(source, objects) && (thin ==> client <= objects.Keys)
    ensures var r := ReadPack(PackBody(es) + sha1(PackBody(es)), objects, hash, sha1);
            && r.Ok? && r.value.Keys == objects.Keys + Members(order)
            && (forall n :: n in order ==> r.value[n].kind == source[n].kind && r.value[n].bytes == source[n].bytes)
            && (forall n :: n in objects ==> r.value[n] == objects[n])
  {
    hide BigEndian, PackHeader, EntryBytes, ReadEntries, CoherentSource, Emits;
    var body := PackBody(es);
    var bytes := body + sha1(body);
    var entries := EntriesBytes(es);
    assert bytes == PackHeader(|es|) + (entries + sha1(body));
    HeaderParts(|es|, entries + sha1(body));
    assert Delta.At(bytes, HEADER_BYTES, entries);
    assert es[0..] == es && order[..0] == [];
    EntriesAreRead(source, hash, order, es, thin, client, bytes, HEADER_BYTES, 0, objects, objects, map[]);
    var end := HEADER_BYTES + |entries|;
    assert bytes[..end] == body && bytes[end..] == sha1(body);
    PlannedIsStored(source, order, es, thin, client);
    assert order[..|order|] == order;
  }

  lemma PlannedIsStored(source: Source, order: seq<Name>, es: seq<Emitted>, thin: bool, client: set<Name>)
    requires Planned(source, order, es, thin, client)
    ensures forall n :: n in order ==> n in source
  {
    hide Inflates;
    forall n | n in order
      ensures n in source
    {
      var i :| 0 <= i < |order| && order[i] == n;
      assert Emits(source, AvailableAt(order, i, thin, client), order[i], es[i]);
    }
  }

  // ---- Choosing and writing entries -------------------------------------------------------------------

  /** A compressor that is one: its streams inflate. */
  ghost predicate Deflates(deflate: seq<byte> -> seq<byte>) {
    forall x :: |x| <= Delta.MAX_OBJECT_BYTES ==> Inflates(deflate(x), x)
  }

  /** A cached representation: the delta against a base that is known, or the full object. */
  function SelectCached(o: Stored, preferred: Option<Name>): Option<Emitted> {
    if preferred.Some? && o.delta.Some? && o.delta.value.base == preferred.value && o.delta.value.compressed.Some? then
      Some(DeltaOf(preferred.value, o.delta.value.bytes, o.delta.value.compressed.value))
    else if o.full.Some? then Some(Full(o.kind, o.bytes, o.full.value))
    else None
  }

  /** How `o` is written: from a cache, else as a delta if its base is known, else in full. */
  function Choose(o: Stored, baseIsAvailable: bool, deflate: seq<byte> -> seq<byte>): Emitted
    requires baseIsAvailable ==> o.delta.Some?
  {
    EntryOf(o, SelectCached(o, if baseIsAvailable then Some(o.delta.value.base) else None), baseIsAvailable, deflate)
  }

  /** The entry of an object for which `planned` was found in a cache. */
  function EntryOf(o: Stored, planned: Option<Emitted>, baseIsAvailable: bool, deflate: seq<byte> -> seq<byte>): Emitted
    requires baseIsAvailable ==> o.delta.Some?
  {
    if planned.Some? then planned.value
    else if baseIsAvailable then DeltaOf(o.delta.value.base, o.delta.value.bytes, deflate(o.delta.value.bytes))
    else Full(o.kind, o.bytes, deflate(o.bytes))
  }

  /** What is chosen may stand for the object, and is a delta only against a known base. */
  lemma ChoiceEmits(source: Source, hash: Hash, oid: Name, available: set<Name>, deflate: seq<byte> -> seq<byte>)
    requires CoherentSource(source, hash) && oid in source && Deflates(deflate) && available <= source.Keys
    ensures var o := source[oid];
            var known := o.delta.Some? && o.delta.value.base in available;
            Emits(source, available, oid, Choose(o, known, deflate))
  {
    hide Inflates, Delta.Apply;
    var o := source[oid];
    assert o.delta.Some? ==> CoherentDelta(source, o, o.delta.value);
  }

  /** The object itself, or its delta, and what of it was compressed before. The writer names the bases of its
      deltas; it never counts back to them. */
  lemma ChoiceIff(o: Stored, baseIsAvailable: bool, deflate: seq<byte> -> seq<byte>)
    requires baseIsAvailable ==> o.delta.Some?
    ensures var e := Choose(o, baseIsAvailable, deflate);
      && (e.DeltaOf? <==> baseIsAvailable && (o.delta.value.compressed.Some? || o.full.None?))
      && (!e.DeltaOf? ==> e.Full?)
      && (e.Full? ==>
            e.kind == o.kind && e.bytes == o.bytes && e.z == if o.full.Some? then o.full.value else deflate(o.bytes))
      && (e.DeltaOf? ==>
            var d := o.delta.value;
            && e.base == d.base && e.delta == d.bytes
            && e.z == if d.compressed.Some? then d.compressed.value else deflate(d.bytes))
  {
  }

  lemma {:induction false} EntriesAppend(es: seq<Emitted>, e: Emitted)
    ensures EntriesBytes(es + [e]) == EntriesBytes(es) + EntryBytes(e)
  {
    hide EntryBytes;
    if es == [] {
      assert [] + [e] == [e];
      assert [e][1..] == [];
      assert EntryBytes(e) + EntriesBytes([]) == EntryBytes(e);
    } else {
      assert (es + [e])[1..] == es[1..] + [e];
      EntriesAppend(es[1..], e);
    }
  }

  /** One entry through the frames. */
  method WriteEntry(frames: PackFrameWriter, e: Emitted)
    requires frames.Valid() && !frames.digested && !e.DeltaBack? && (e.DeltaOf? ==> IsName(e.base))
    modifies frames, frames.frame
    ensures frames.Valid() && !frames.digested && frames.taken == old(frames.taken)
    ensures frames.frame == old(frames.frame) || fresh(frames.frame)
    ensures frames.Written() == old(frames.Written()) + EntryBytes(e)
  {
    hide PackFrameWriter.Queued, PackFrameWriter.Sound, PackFrameWriter.Written, EntryHeader, KindNumber, NameBytes,
         IsName;
    match e {
      case Full(kind, bytes, z) =>
        frames.WriteEntryHeader(KindNumber(kind), |bytes|);
        frames.WriteAll(z);
      case DeltaOf(base, delta, z) =>
        frames.WriteEntryHeader(REF_DELTA, |delta|);
        frames.WriteObjectId(NameBytes(base, OID_BYTES));
        frames.WriteAll(z);
    }
  }

  /** Takes every frame that is complete. */
  method TakeFrames(frames: PackFrameWriter, out: seq<seq<byte>>) returns (more: seq<seq<byte>>)
    requires frames.Queued() && out == Frames(frames.banded, frames.payloads)[..frames.taken]
    modifies frames`ready, frames`taken
    ensures frames.Queued() && frames.taken == |Frames(frames.banded, frames.payloads)|
    ensures more == Frames(frames.banded, frames.payloads)
  {
    more := out;
    while true
      invariant frames.Queued() && more == Frames(frames.banded, frames.payloads)[..frames.taken]
      decreases |Frames(frames.banded, frames.payloads)| - frames.taken
    {
      var frame := frames.TakeFrame();
      if frame.None? {
        return;
      }
      more := more + [frame.value];
    }
  }

  /** Each object is written the way its base allows at that place. */
  ghost predicate ChosenInTurn(
      source: Source, order: seq<Name>, es: seq<Emitted>, thin: bool, client: set<Name>,
      deflate: seq<byte> -> seq<byte>)
  {
    && |es| <= |order|
    && forall i :: 0 <= i < |es| ==> order[i] in source && ChosenAt(source, order, es, i, thin, client, deflate)
  }

  predicate ChosenAt(
      source: Source, order: seq<Name>, es: seq<Emitted>, i: nat, thin: bool, client: set<Name>,
      deflate: seq<byte> -> seq<byte>)
    requires i < |es| <= |order| && order[i] in source
  {
    var o := source[order[i]];
    es[i] == Choose(o, o.delta.Some? && o.delta.value.base in AvailableAt(order, i, thin, client), deflate)
  }

  /** The base is an object written earlier, or, in a thin pack, one that the client has. */
  predicate IsKnown(order: seq<Name>, i: nat, thin: bool, client: set<Name>, base: Name)
    requires i <= |order|
  {
    (thin && base in client) || exists j :: 0 <= j < i && order[j] == base
  }

  /** An object is written as its delta exactly if the base is known where it stands, and the delta was compressed
      before or the object was not: nothing is compressed that there is a form of. */
  lemma EntryIsDeltaIff(
      source: Source, order: seq<Name>, es: seq<Emitted>, i: nat, thin: bool, client: set<Name>,
      deflate: seq<byte> -> seq<byte>)
    requires ChosenInTurn(source, order, es, thin, client, deflate) && i < |es|
    ensures var o, e := source[order[i]], es[i];
      && (e.DeltaOf? <==>
            && o.delta.Some? && IsKnown(order, i, thin, client, o.delta.value.base)
            && (o.delta.value.compressed.Some? || o.full.None?))
      && (e.DeltaOf? ==> e.base == o.delta.value.base && e.delta == o.delta.value.bytes)
      && (!e.DeltaOf? ==> e.Full? && e.kind == o.kind && e.bytes == o.bytes)
      && (e.Full? && o.full.Some? ==> e.z == o.full.value)
      && (e.DeltaOf? && o.delta.value.compressed.Some? ==> e.z == o.delta.value.compressed.value)
  {
    hide Choose;
    assert ChosenAt(source, order, es, i, thin, client, deflate);
    var o := source[order[i]];
    ChoiceIff(o, o.delta.Some? && o.delta.value.base in AvailableAt(order, i, thin, client), deflate);
    if o.delta.Some? {
      var base := o.delta.value.base;
      if base in Members(order[..i]) {
        var j :| 0 <= j < i && order[..i][j] == base;
        assert order[j] == base;
      }
      if exists j :: 0 <= j < i && order[j] == base {
        var j :| 0 <= j < i && order[j] == base;
        assert order[..i][j] == base;
      }
    }
  }

  lemma NothingChosen(
      source: Source, order: seq<Name>, thin: bool, client: set<Name>, deflate: seq<byte> -> seq<byte>)
    ensures ChosenInTurn(source, order, [], thin, client, deflate)
  {
  }

  lemma ChosenNext(
      source: Source, order: seq<Name>, es: seq<Emitted>, thin: bool, client: set<Name>,
      deflate: seq<byte> -> seq<byte>, e: Emitted)
    requires ChosenInTurn(source, order, es, thin, client, deflate) && |es| < |order| && order[|es|] in source
    requires var o := source[order[|es|]];
      e == Choose(o, o.delta.Some? && o.delta.value.base in AvailableAt(order, |es|, thin, client), deflate)
    ensures ChosenInTurn(source, order, es + [e], thin, client, deflate)
  {
    hide Choose, AvailableAt;
    forall i | 0 <= i < |es|
      ensures ChosenAt(source, order, es + [e], i, thin, client, deflate)
    {
      assert ChosenAt(source, order, es, i, thin, client, deflate);
    }
  }

  /** The bases that are known when the `i`-th object is written. */
  lemma KnownBases(source: Source, order: seq<Name>, i: nat, thin: bool, client: set<Name>, emitted: set<Name>)
    requires i <= |order| && emitted == Members(order[..i]) && client <= source.Keys
    requires forall n :: n in order ==> n in source
    ensures AvailableAt(order, i, thin, client) == emitted + (if thin then client else {})
    ensures AvailableAt(order, i, thin, client) <= source.Keys
  {
    forall n | n in emitted
      ensures n in source
    {
      assert n in order[..i];
    }
  }

  /** Whatever is chosen may stand for its object where it stands. */
  lemma ChosenIsPlanned(
      source: Source, hash: Hash, order: seq<Name>, es: seq<Emitted>, thin: bool, client: set<Name>,
      deflate: seq<byte> -> seq<byte>)
    requires CoherentSource(source, hash) && Deflates(deflate) && client <= source.Keys
    requires ChosenInTurn(source, order, es, thin, client, deflate) && |es| == |order|
    ensures Planned(source, order, es, thin, client)
  {
    hide CoherentSource, Deflates, Emits, Choose, AvailableAt;
    forall i | 0 <= i < |order|
      ensures Emits(source, AvailableAt(order, i, thin, client), order[i], es[i])
    {
      assert ChosenAt(source, order, es, i, thin, client, deflate);
      assert forall n :: n in order ==> n in source by {
        forall n | n in order
          ensures n in source
        {
          var k :| 0 <= k < |order| && order[k] == n;
          assert ChosenAt(source, order, es, k, thin, client, deflate);
        }
      }
      KnownBases(source, order, i, thin, client, Members(order[..i]));
      ChoiceEmits(source, hash, order[i], AvailableAt(order, i, thin, client), deflate);
    }
    forall i | 0 <= i < |order|
      ensures !es[i].DeltaBack?
    {
      assert ChosenAt(source, order, es, i, thin, client, deflate);
      var o := source[order[i]];
      ChoiceIff(o, o.delta.Some? && o.delta.value.base in AvailableAt(order, i, thin, client), deflate);
    }
  }

  lemma BaseHasName(source: Source, hash: Hash, oid: Name, e: Emitted, available: set<Name>)
    requires CoherentSource(source, hash) && Emits(source, available, oid, e)
    ensures e.DeltaOf? ==> IsName(e.base)
  {
    hide Inflates;
  }

  /** The bases as they were recorded, whatever they are. */
  function StoredBases(source: Source, oids: seq<Name>): map<Name, Name> {
    map n | n in oids && n in source && source[n].delta.Some? :: source[n].delta.value.base
  }

  /** The frames carry header, entries and checksum; each listed object has its entry, which stands for it. */
  ghost predicate Framed(
      source: Source, sha1: seq<byte> -> seq<byte>, oids: seq<Name>, client: set<Name>, thin: bool, banded: bool,
      out: seq<seq<byte>>, order: seq<Name>, es: seq<Emitted>, payloads: seq<seq<byte>>)
  {
    && Distinct(order) && (forall n :: n in order <==> n in oids)
    && Planned(source, order, es, thin, client) && |es| < 0x1_0000_0000
    && AllFit(banded, payloads) && AreFull(banded, payloads, |payloads| - 1) && out == Frames(banded, payloads)
    && Flatten(payloads) == PackBody(es) + sha1(PackBody(es))
  }

  /** Any pack of the listed objects, whatever forms of them it is made of. */
  ghost predicate IsPackFrom(
      source: Source, sha1: seq<byte> -> seq<byte>, oids: seq<Name>, client: set<Name>, thin: bool, banded: bool,
      out: seq<seq<byte>>)
  {
    exists order, es, payloads :: Framed(source, sha1, oids, client, thin, banded, out, order, es, payloads)
  }

  /** Each object stands behind the base of its retained delta, if that is written too and its chain of bases ends. */
  ghost predicate InOrder(source: Source, oids: seq<Name>, order: seq<Name>) {
    var bases := StoredBases(source, oids);
    forall x, n: nat :: x in oids && PackOrder.Depends(oids, bases, x) && PackOrder.Rooted(oids, bases, x, n) ==>
      PackOrder.Before(order, bases[x], x)
  }

  /** And bases stand first, and each entry is the one chosen as its base allows where it stands. */
  ghost predicate Carries(
      source: Source, sha1: seq<byte> -> seq<byte>, oids: seq<Name>, client: set<Name>, thin: bool, banded: bool,
      deflate: seq<byte> -> seq<byte>, out: seq<seq<byte>>, order: seq<Name>, es: seq<Emitted>,
      payloads: seq<seq<byte>>)
  {
    && Framed(source, sha1, oids, client, thin, banded, out, order, es, payloads)
    && ChosenInTurn(source, order, es, thin, client, deflate) && InOrder(source, oids, order)
  }

  ghost predicate IsPackOf(
      source: Source, sha1: seq<byte> -> seq<byte>, oids: seq<Name>, client: set<Name>, thin: bool, banded: bool,
      deflate: seq<byte> -> seq<byte>, out: seq<seq<byte>>)
  {
    exists order, es, payloads :: Carries(source, sha1, oids, client, thin, banded, deflate, out, order, es, payloads)
  }

  /** So in a pack of objects whose chains of bases do not go round in a circle, an object whose delta is kept is
      written as that, unless only the whole was compressed before, whenever its base is written too. */
  lemma KeptDeltasAreWritten(
      source: Source, sha1: seq<byte> -> seq<byte>, oids: seq<Name>, client: set<Name>, thin: bool, banded: bool,
      deflate: seq<byte> -> seq<byte>, out: seq<seq<byte>>, order: seq<Name>, es: seq<Emitted>,
      payloads: seq<seq<byte>>, some: set<Name>, rank: Name -> nat, i: nat)
    requires Carries(source, sha1, oids, client, thin, banded, deflate, out, order, es, payloads)
    requires PackOrder.Ranked(oids, StoredBases(source, oids), some, rank) && i < |order| && order[i] in some
    requires order[i] in source && source[order[i]].delta.Some?
    requires var d := source[order[i]].delta.value;
      d.base in oids && d.base != order[i] && (d.compressed.Some? || source[order[i]].full.None?)
    ensures i < |es| && es[i].DeltaOf?
    ensures es[i].base == source[order[i]].delta.value.base && es[i].delta == source[order[i]].delta.value.bytes
  {
    hide Planned, Frames, AllFit, PackBody, Choose, PackOrder.Rooted, PackOrder.Before;
    var x := order[i];
    var bases := StoredBases(source, oids);
    assert x in oids && x in bases && bases[x] == source[x].delta.value.base;
    PackOrder.BasesComeFirst(oids, bases, order, some, rank, x);
    var j, k :| 0 <= j < k < |order| && order[j] == bases[x] && order[k] == x;
    assert k == i;
    assert Framed(source, sha1, oids, client, thin, banded, out, order, es, payloads);
    assert |es| == |order| by { PlannedLength(source, order, es, thin, client); }
    EntryIsDeltaIff(source, order, es, i, thin, client, deflate);
  }

  lemma PlannedLength(source: Source, order: seq<Name>, es: seq<Emitted>, thin: bool, client: set<Name>)
    requires Planned(source, order, es, thin, client)
    ensures |es| == |order|
  {
  }

  lemma IsSomePack(
      source: Source, sha1: seq<byte> -> seq<byte>, oids: seq<Name>, client: set<Name>, thin: bool, banded: bool,
      deflate: seq<byte> -> seq<byte>, out: seq<seq<byte>>)
    requires IsPackOf(source, sha1, oids, client, thin, banded, deflate, out)
    ensures IsPackFrom(source, sha1, oids, client, thin, banded, out)
  {
    hide Framed, ChosenInTurn, InOrder;
  }

  /** From one store to another over the wire: the frames of a pack, the flush behind them and
      whatever comes next are taken apart again, and the pack read from them adds exactly the listed
      objects, with their types and bytes. */
  lemma PackTravels(
      source: Source, hash: Hash, sha1: seq<byte> -> seq<byte>, oids: seq<Name>, client: set<Name>, thin: bool,
      out: seq<seq<byte>>, objects: Objects, rest: seq<byte>)
    requires CoherentSource(source, hash) && IsPackFrom(source, sha1, oids, client, thin, true, out)
    requires (forall x :: |sha1(x)| == 20) && Same(source, objects) && (thin ==> client <= objects.Keys)
    ensures var received := Demultiplex(Flatten(out) + (PktLine.HexLength(0) + rest));
      && received.Some? && received.value.1 == rest
      && var r := ReadPack(received.value.0, objects, hash, sha1);
      && r.Ok? && r.value.Keys == objects.Keys + Members(oids)
      && (forall n :: n in oids ==>
            n in source && r.value[n].kind == source[n].kind && r.value[n].bytes == source[n].bytes)
      && (forall n :: n in objects ==> r.value[n] == objects[n])
  {
    hide ReadPack, Demultiplex, CoherentSource, Planned, Frames, PackBody, AllFit, PktLine.HexLength;
    var order, es, payloads :| Framed(source, sha1, oids, client, thin, true, out, order, es, payloads);
    FramesAreRead(payloads, rest);
    PackIsRead(source, hash, sha1, order, es, thin, client, objects);
    assert Members(order) == Members(oids);
    PlannedIsStored(source, order, es, thin, client);
  }

  lemma SameLength(oids: seq<Name>, order: seq<Name>)
    requires Distinct(oids) && Distinct(order) && forall n :: n in order <==> n in oids
    ensures |order| == |oids|
  {
    PackOrder.QueuedIsShort(oids, order);
    PackOrder.QueuedIsShort(order, oids);
  }
}
