/** The object store: a row for every object and one for every retained delta, with the bytes of
    each representation chunked in the key-value half of the same database. */
module ObjectStore {
  import opened Bits
  import opened Options
  import opened Graph
  import opened ChunkedKv

  /** A compressed count without a compressed size is a cache that is being written. */
  datatype Row = Row(
    kind: Kind, size: nat, chunkCount: nat, compressedSize: Option<nat>, compressedCount: Option<nat>, complete: bool)

  datatype DeltaRow = DeltaRow(
    base: Oid, size: nat, chunkCount: nat, compressedSize: Option<nat>, compressedCount: Option<nat>)

  datatype Database = Database(objects: map<Oid, Row>, deltas: map<Oid, DeltaRow>, kv: Kv)

  function OrNone(n: Option<nat>): nat {
    if n.Some? then n.value else 0
  }

  /** How many chunks the rows account for. */
  function Bound(db: Database, prefix: Prefix, oid: Oid): nat {
    match prefix
    case ObjectPrefix => if oid in db.objects then db.objects[oid].chunkCount else 0
    case CompressedObjectPrefix => if oid in db.objects then OrNone(db.objects[oid].compressedCount) else 0
    case DeltaPrefix => if oid in db.deltas then db.deltas[oid].chunkCount else 0
    case CompressedDeltaPrefix => if oid in db.deltas then OrNone(db.deltas[oid].compressedCount) else 0
  }

  predicate Complete(db: Database, oid: Oid) {
    oid in db.objects && db.objects[oid].complete
  }

  ghost predicate Represents(kv: Kv, prefix: Prefix, oid: Oid, size: nat, count: nat, bytes: Bytes) {
    |bytes| == size && count == ChunkCount(size) && Holds(kv, prefix, oid, bytes)
  }

  /** All the chunks of a representation are there. */
  ghost predicate Whole(kv: Kv, prefix: Prefix, oid: Oid, size: nat, count: nat) {
    exists bytes: Bytes :: Represents(kv, prefix, oid, size, count, bytes)
  }

  ghost predicate WholeIfCached(kv: Kv, prefix: Prefix, oid: Oid, size: Option<nat>, count: Option<nat>) {
    size.Some? ==> count.Some? && Whole(kv, prefix, oid, size.value, count.value)
  }

  /** Every chunk kept under the name is accounted for by a row; and if the object is complete, all
      of its representations can be read. */
  ghost predicate Sound(db: Database, oid: Oid) {
    && (oid in db.deltas ==> oid in db.objects)
    && (forall k :: k in db.kv && k.oid == oid ==> k.index < Bound(db, k.prefix, oid))
    && (Complete(db, oid) ==> Readable(db, oid))
  }

  ghost predicate Readable(db: Database, oid: Oid)
    requires oid in db.objects
  {
    var row := db.objects[oid];
    && Whole(db.kv, ObjectPrefix, oid, row.size, row.chunkCount)
    && WholeIfCached(db.kv, CompressedObjectPrefix, oid, row.compressedSize, row.compressedCount)
    && (oid in db.deltas ==>
          var delta := db.deltas[oid];
          && Whole(db.kv, DeltaPrefix, oid, delta.size, delta.chunkCount)
          && WholeIfCached(db.kv, CompressedDeltaPrefix, oid, delta.compressedSize, delta.compressedCount))
  }

  ghost predicate Inv(db: Database) {
    forall oid :: Sound(db, oid)
  }

  ghost predicate SameKeys(a: Kv, b: Kv, oid: Oid) {
    forall k: Key :: k.oid == oid ==> (k in a <==> k in b) && (k in a ==> a[k] == b[k])
  }

  /** Nothing about the object changed. */
  ghost predicate Same(a: Database, b: Database, oid: Oid) {
    && (oid in a.objects <==> oid in b.objects) && (oid in a.objects ==> a.objects[oid] == b.objects[oid])
    && (oid in a.deltas <==> oid in b.deltas) && (oid in a.deltas ==> a.deltas[oid] == b.deltas[oid])
    && SameKeys(a.kv, b.kv, oid)
  }

  ghost predicate OnlyTouches(a: Database, b: Database, oid: Oid) {
    forall other :: other != oid ==> Same(a, b, other)
  }

  lemma WholeStays(a: Kv, b: Kv, prefix: Prefix, oid: Oid, size: nat, count: nat)
    requires Agree(a, b, prefix, oid) && Whole(a, prefix, oid, size, count)
    ensures Whole(b, prefix, oid, size, count)
  {
    hide Chunk, ChunkCount;
    var bytes :| Represents(a, prefix, oid, size, count, bytes);
    assert Represents(b, prefix, oid, size, count, bytes);
  }

  lemma SoundStays(a: Database, b: Database, oid: Oid)
    requires Same(a, b, oid) && Sound(a, oid)
    ensures Sound(b, oid)
  {
    hide Whole;
    if Complete(a, oid) {
      var row := a.objects[oid];
      WholeStays(a.kv, b.kv, ObjectPrefix, oid, row.size, row.chunkCount);
      if row.compressedSize.Some? {
        WholeStays(a.kv, b.kv, CompressedObjectPrefix, oid, row.compressedSize.value, row.compressedCount.value);
      }
      if oid in a.deltas {
        var delta := a.deltas[oid];
        WholeStays(a.kv, b.kv, DeltaPrefix, oid, delta.size, delta.chunkCount);
        if delta.compressedSize.Some? {
          WholeStays(a.kv, b.kv, CompressedDeltaPrefix, oid, delta.compressedSize.value, delta.compressedCount.value);
        }
      }
    }
  }

  lemma InvStays(a: Database, b: Database, oid: Oid)
    requires Inv(a) && OnlyTouches(a, b, oid) && Sound(b, oid)
    ensures Inv(b)
  {
    hide Sound, Same;
    forall other
      ensures Sound(b, other)
    {
      if other != oid {
        assert Sound(a, other) && Same(a, b, other);
        SoundStays(a, b, other);
      }
    }
  }

  // ---- Writing one object ----------------------------------------------------------------------------

  datatype Delta = Delta(base: Oid, bytes: Bytes)

  datatype PackObject = PackObject(
    oid: Oid, kind: Kind, bytes: Bytes, delta: Option<Delta>, compressed: Option<Bytes>)

  /** An object with the compressed form it will be kept in: that of its delta if it has one. */
  datatype Write = Write(what: PackObject, full: Option<Bytes>, packed: Option<Bytes>)

  /** The compressed form of an object that is kept whole: the one it came with, or else a new one. */
  function FormOf(o: PackObject, deflate: Bytes -> Bytes): Bytes {
    if o.compressed.Some? then o.compressed.value else deflate(o.bytes)
  }

  predicate Proper(w: Write, deflate: Bytes -> Bytes) {
    if w.what.delta.None? then w.full == Some(FormOf(w.what, deflate)) && w.packed.None?
    else w.full.None? && w.packed == w.what.compressed
  }

  function LengthOf(bytes: Option<Bytes>): Option<nat> {
    if bytes.Some? then Some(|bytes.value|) else None
  }

  function CountOf(bytes: Option<Bytes>): Option<nat> {
    if bytes.Some? then Some(ChunkCount(|bytes.value|)) else None
  }

  function RowOf(w: Write, complete: bool): Row {
    Row(w.what.kind, |w.what.bytes|, ChunkCount(|w.what.bytes|), LengthOf(w.full), CountOf(w.full), complete)
  }

  function DeltaRowOf(w: Write): DeltaRow
    requires w.what.delta.Some?
  {
    var d := w.what.delta.value;
    DeltaRow(d.base, |d.bytes|, ChunkCount(|d.bytes|), LengthOf(w.packed), CountOf(w.packed))
  }

  /** The bytes a write keeps under a prefix. */
  function Part(w: Write, prefix: Prefix): Option<Bytes> {
    match prefix
    case ObjectPrefix => Some(w.what.bytes)
    case CompressedObjectPrefix => w.full
    case DeltaPrefix => if w.what.delta.Some? then Some(w.what.delta.value.bytes) else None
    case CompressedDeltaPrefix => w.packed
  }

  function PutPart(kv: Kv, w: Write, prefix: Prefix): Kv {
    var part := Part(w, prefix);
    if part.Some? then Put(kv, prefix, w.what.oid, part.value) else kv
  }

  function PutParts(kv: Kv, w: Write): Kv {
    PutPart(
      PutPart(PutPart(PutPart(kv, w, ObjectPrefix), w, CompressedObjectPrefix), w, DeltaPrefix),
      w, CompressedDeltaPrefix)
  }

  /** The write as the transaction leaves it. */
  function Stored(db: Database, w: Write): Database {
    var oid := w.what.oid;
    Database(
      db.objects[oid := RowOf(w, true)],
      if w.what.delta.Some? then db.deltas[oid := DeltaRowOf(w)] else db.deltas,
      PutParts(db.kv, w))
  }

  /** A part's chunks are there, and nothing else changed. */
  lemma PutPartKeeps(kv: Kv, w: Write, prefix: Prefix, k: Key)
    ensures var mine := k.prefix == prefix && k.oid == w.what.oid &&
        Part(w, prefix).Some? && k.index < ChunkCount(|Part(w, prefix).value|);
      && (k in PutPart(kv, w, prefix) <==> k in kv || mine)
      && (!mine && k in kv ==> PutPart(kv, w, prefix)[k] == kv[k])
  {
    hide Put, ChunkCount;
    if Part(w, prefix).Some? {
      PutAt(kv, prefix, w.what.oid, Part(w, prefix).value, k);
    }
  }

  lemma PutPartAgrees(kv: Kv, w: Write, prefix: Prefix, other: Prefix)
    requires other != prefix
    ensures Agree(kv, PutPart(kv, w, prefix), other, w.what.oid)
  {
    hide PutPart, Part, ChunkCount;
    forall i: nat
      ensures var k := Key(other, w.what.oid, i);
        (k in kv <==> k in PutPart(kv, w, prefix)) && (k in kv ==> kv[k] == PutPart(kv, w, prefix)[k])
    {
      PutPartKeeps(kv, w, prefix, Key(other, w.what.oid, i));
    }
  }

  lemma PutPartHolds(kv: Kv, w: Write, prefix: Prefix)
    requires Part(w, prefix).Some?
    ensures Holds(PutPart(kv, w, prefix), prefix, w.what.oid, Part(w, prefix).value)
  {
    hide Part, Put, ChunkCount, Chunk;
    PutHolds(kv, prefix, w.what.oid, Part(w, prefix).value);
  }

  /** Every part that was written can be read. */
  lemma PartsAreWhole(kv: Kv, w: Write, prefix: Prefix)
    requires Part(w, prefix).Some?
    ensures Represents(PutParts(kv, w), prefix, w.what.oid,
      |Part(w, prefix).value|, ChunkCount(|Part(w, prefix).value|), Part(w, prefix).value)
  {
    hide ChunkCount, Chunk, Part, PutPart, Put;
    var kv1 := PutPart(kv, w, ObjectPrefix);
    var kv2 := PutPart(kv1, w, CompressedObjectPrefix);
    var kv3 := PutPart(kv2, w, DeltaPrefix);
    var kv4 := PutPart(kv3, w, CompressedDeltaPrefix);
    var at := match prefix
      case ObjectPrefix => kv
      case CompressedObjectPrefix => kv1
      case DeltaPrefix => kv2
      case CompressedDeltaPrefix => kv3;
    PutPartHolds(at, w, prefix);
    if prefix != CompressedDeltaPrefix { PutPartAgrees(kv3, w, CompressedDeltaPrefix, prefix); }
    if prefix == ObjectPrefix || prefix == CompressedObjectPrefix { PutPartAgrees(kv2, w, DeltaPrefix, prefix); }
    if prefix == ObjectPrefix { PutPartAgrees(kv1, w, CompressedObjectPrefix, prefix); }
  }

  lemma PartsKeep(kv: Kv, w: Write, k: Key)
    ensures var part := Part(w, k.prefix);
      var mine := k.oid == w.what.oid && part.Some? && k.index < ChunkCount(|part.value|);
      && (k in PutParts(kv, w) <==> k in kv || mine)
      && (!mine && k in kv ==> PutParts(kv, w)[k] == kv[k])
  {
    hide ChunkCount, Part, PutPart;
    var kv1 := PutPart(kv, w, ObjectPrefix);
    var kv2 := PutPart(kv1, w, CompressedObjectPrefix);
    var kv3 := PutPart(kv2, w, DeltaPrefix);
    PutPartKeeps(kv, w, ObjectPrefix, k);
    PutPartKeeps(kv1, w, CompressedObjectPrefix, k);
    PutPartKeeps(kv2, w, DeltaPrefix, k);
    PutPartKeeps(kv3, w, CompressedDeltaPrefix, k);
  }

  /** What a row says there is of a compressed form is there. */
  ghost predicate Caches(kv: Kv, prefix: Prefix, oid: Oid, size: Option<nat>, count: Option<nat>, form: Option<Bytes>) {
    if form.None? then size.None?
    else size.Some? && count.Some? && Represents(kv, prefix, oid, size.value, count.value, form.value)
  }

  /** The object is there, complete, as this write brought it: its type and bytes, its delta if it has one, and the
      compressed form it came in; what is kept whole is given one if it came without. */
  ghost predicate Carries(db: Database, o: PackObject, deflate: Bytes -> Bytes) {
    && Complete(db, o.oid) && db.objects[o.oid].kind == o.kind
    && Represents(db.kv, ObjectPrefix, o.oid, db.objects[o.oid].size, db.objects[o.oid].chunkCount, o.bytes)
    && (o.oid in db.deltas <==> o.delta.Some?)
    && if o.delta.Some? then CarriesDelta(db, o) else CarriesFull(db, o, deflate)
  }

  ghost predicate CarriesDelta(db: Database, o: PackObject)
    requires o.oid in db.objects && o.oid in db.deltas && o.delta.Some?
  {
    var row := db.deltas[o.oid];
    && db.objects[o.oid].compressedSize.None? && row.base == o.delta.value.base
    && Represents(db.kv, DeltaPrefix, o.oid, row.size, row.chunkCount, o.delta.value.bytes)
    && Caches(db.kv, CompressedDeltaPrefix, o.oid, row.compressedSize, row.compressedCount, o.compressed)
  }

  ghost predicate CarriesFull(db: Database, o: PackObject, deflate: Bytes -> Bytes)
    requires o.oid in db.objects
  {
    var row, form := db.objects[o.oid], if o.compressed.Some? then o.compressed.value else deflate(o.bytes);
    Caches(db.kv, CompressedObjectPrefix, o.oid, row.compressedSize, row.compressedCount, Some(form))
  }

  lemma StoredIsSound(db: Database, w: Write, deflate: Bytes -> Bytes)
    requires Inv(db) && w.what.oid !in db.objects && Proper(w, deflate)
    ensures var after := Stored(db, w);
      Inv(after) && OnlyTouches(db, after, w.what.oid) && Carries(after, w.what, deflate)
  {
    hide PutParts, ChunkCount, Holds, Chunk;
    var oid, after := w.what.oid, Stored(db, w);
    assert Sound(db, oid);
    forall k: Key
      ensures k.oid != oid ==> (k in db.kv <==> k in after.kv) && (k in db.kv ==> db.kv[k] == after.kv[k])
      ensures k.oid == oid && k in after.kv ==> k.index < Bound(after, k.prefix, oid)
    {
      PartsKeep(db.kv, w, k);
    }
    PartsAreWhole(db.kv, w, ObjectPrefix);
    if w.full.Some? { PartsAreWhole(db.kv, w, CompressedObjectPrefix); }
    if w.what.delta.Some? { PartsAreWhole(db.kv, w, DeltaPrefix); }
    if w.packed.Some? { PartsAreWhole(db.kv, w, CompressedDeltaPrefix); }
    InvStays(db, after, oid);
  }

  // ---- Removing one object ----------------------------------------------------------------------------

  datatype Counts = Counts(plain: nat, compressedObject: nat, delta: nat, compressedDelta: nat)

  function CountAt(c: Counts, prefix: Prefix): nat {
    match prefix
    case ObjectPrefix => c.plain
    case CompressedObjectPrefix => c.compressedObject
    case DeltaPrefix => c.delta
    case CompressedDeltaPrefix => c.compressedDelta
  }

  function CountsOf(w: Write): Counts {
    Counts(
      ChunkCount(|w.what.bytes|), OrNone(CountOf(w.full)),
      if w.what.delta.Some? then ChunkCount(|w.what.delta.value.bytes|) else 0, OrNone(CountOf(w.packed)))
  }

  function Discarded(db: Database, oid: Oid, c: Counts): Database {
    var kv1 := Deleted(db.kv, ObjectPrefix, oid, c.plain);
    var kv2 := Deleted(kv1, DeltaPrefix, oid, c.delta);
    var kv3 := Deleted(kv2, CompressedObjectPrefix, oid, c.compressedObject);
    Database(db.objects - {oid}, db.deltas - {oid}, Deleted(kv3, CompressedDeltaPrefix, oid, c.compressedDelta))
  }

  /** The rows account for no more chunks than are deleted. */
  ghost predicate Accounts(db: Database, oid: Oid, c: Counts) {
    forall prefix :: Bound(db, prefix, oid) <= CountAt(c, prefix)
  }

  predicate Gone(db: Database, oid: Oid) {
    oid !in db.objects && oid !in db.deltas && forall k :: k in db.kv ==> k.oid != oid
  }

  lemma DiscardedAt(db: Database, oid: Oid, c: Counts, k: Key)
    ensures k in Discarded(db, oid, c).kv <==> k in db.kv && !(k.oid == oid && k.index < CountAt(c, k.prefix))
    ensures k in Discarded(db, oid, c).kv ==> Discarded(db, oid, c).kv[k] == db.kv[k]
  {
  }

  /** Deleting what the rows account for leaves no key behind. */
  lemma DiscardedIsSound(db: Database, oid: Oid, c: Counts)
    requires Inv(db) && Accounts(db, oid, c)
    ensures Inv(Discarded(db, oid, c)) && OnlyTouches(db, Discarded(db, oid, c), oid)
      && Gone(Discarded(db, oid, c), oid)
  {
    hide Bound, Deleted, CountAt, Readable;
    var after := Discarded(db, oid, c);
    assert Sound(db, oid);
    forall k: Key
      ensures k.oid == oid ==> k !in after.kv
      ensures k.oid != oid ==> (k in after.kv <==> k in db.kv) && (k in db.kv ==> after.kv[k] == db.kv[k])
    {
      DiscardedAt(db, oid, c, k);
      assert Bound(db, k.prefix, oid) <= CountAt(c, k.prefix);
    }
    InvStays(db, after, oid);
  }

  /** The marker for a write that failed. */
  function Staged(db: Database, w: Write): Database {
    var oid := w.what.oid;
    db.(
      objects := if oid in db.objects then db.objects else db.objects[oid := RowOf(w, false)],
      deltas := if w.what.delta.None? || oid in db.deltas then db.deltas else db.deltas[oid := DeltaRowOf(w)])
  }

  /** The object is absent, or is as this write left it. */
  ghost predicate Claims(db: Database, w: Write) {
    w.what.oid in db.objects ==>
      && Accounts(db, w.what.oid, CountsOf(w))
      && (w.what.delta.Some? ==> w.what.oid in db.deltas)
  }

  lemma StagedIsSound(db: Database, w: Write, deflate: Bytes -> Bytes)
    requires Inv(db) && Claims(db, w) && Proper(w, deflate)
    ensures Inv(Staged(db, w)) && OnlyTouches(db, Staged(db, w), w.what.oid)
    ensures Accounts(Staged(db, w), w.what.oid, CountsOf(w))
    ensures Complete(Staged(db, w), w.what.oid) ==> Complete(db, w.what.oid)
  {
    hide ChunkCount;
    var after := Staged(db, w);
    assert Sound(db, w.what.oid);
    if w.what.oid in db.objects {
      assert after == db;
    }
    InvStays(db, after, w.what.oid);
  }

  // ---- Compressed forms made later ---------------------------------------------------------------------

  function WithCache(db: Database, oid: Oid, size: Option<nat>, count: Option<nat>, kv: Kv): Database
    requires oid in db.objects
  {
    db.(objects := db.objects[oid := db.objects[oid].(compressedSize := size, compressedCount := count)], kv := kv)
  }

  /** Without a compressed form, whatever was staged of one. */
  function Uncached(db: Database, oid: Oid, count: nat): Database
    requires oid in db.objects
  {
    WithCache(db, oid, None, None, Deleted(db.kv, CompressedObjectPrefix, oid, count))
  }

  /** The object is untouched but for its compressed form. */
  ghost predicate OnlyRecached(a: Database, b: Database, oid: Oid) {
    && OnlyTouches(a, b, oid) && b.deltas == a.deltas
    && oid in a.objects && oid in b.objects
    && b.objects[oid] == a.objects[oid].(
         compressedSize := b.objects[oid].compressedSize, compressedCount := b.objects[oid].compressedCount)
    && (forall k: Key :: k.prefix != CompressedObjectPrefix ==>
          (k in a.kv <==> k in b.kv) && (k in a.kv ==> a.kv[k] == b.kv[k]))
  }

  /** Whatever is done to the compressed form, the rest can still be read; so the object is sound
      if its compressed chunks are accounted for, and all there when a size was recorded. */
  lemma RecachedIsSound(a: Database, b: Database, oid: Oid)
    requires Inv(a) && OnlyRecached(a, b, oid)
    requires forall k :: k in b.kv && k.oid == oid && k.prefix == CompressedObjectPrefix ==>
      k.index < Bound(b, k.prefix, oid)
    requires WholeIfCached(b.kv, CompressedObjectPrefix, oid, b.objects[oid].compressedSize,
      b.objects[oid].compressedCount)
    ensures Inv(b)
  {
    hide Whole, ChunkCount;
    assert Sound(a, oid);
    if Complete(a, oid) {
      var row := a.objects[oid];
      WholeStays(a.kv, b.kv, ObjectPrefix, oid, row.size, row.chunkCount);
      if oid in a.deltas {
        var delta := a.deltas[oid];
        WholeStays(a.kv, b.kv, DeltaPrefix, oid, delta.size, delta.chunkCount);
        if delta.compressedSize.Some? {
          WholeStays(a.kv, b.kv, CompressedDeltaPrefix, oid, delta.compressedSize.value, delta.compressedCount.value);
        }
      }
    }
    forall k | k in b.kv && k.oid == oid
      ensures k.index < Bound(b, k.prefix, oid)
    {
      if k.prefix != CompressedObjectPrefix {
        assert k in a.kv && Bound(b, k.prefix, oid) == Bound(a, k.prefix, oid);
      }
    }
    InvStays(a, b, oid);
  }

  /** The compressed form that is kept is that of the object's bytes. */
  ghost predicate CachesItself(db: Database, oid: Oid, deflate: Bytes -> Bytes)
    requires oid in db.objects
  {
    var row := db.objects[oid];
    && row.compressedSize.Some? && row.compressedCount.Some?
    && exists bytes: Bytes ::
      && Represents(db.kv, ObjectPrefix, oid, row.size, row.chunkCount, bytes)
      && Represents(db.kv, CompressedObjectPrefix, oid, row.compressedSize.value, row.compressedCount.value,
           deflate(bytes))
  }

  lemma RecachedReads(a: Database, b: Database, oid: Oid, bytes: Bytes)
    requires OnlyRecached(a, b, oid)
    requires Represents(a.kv, ObjectPrefix, oid, a.objects[oid].size, a.objects[oid].chunkCount, bytes)
    ensures Represents(b.kv, ObjectPrefix, oid, b.objects[oid].size, b.objects[oid].chunkCount, bytes)
  {
    hide ChunkCount, Chunk;
  }

  lemma RecachedAtFirst(db: Database, oid: Oid)
    requires oid in db.objects
    ensures OnlyRecached(db, db, oid)
  {
  }

  lemma RecachedChains(a: Database, b: Database, c: Database, oid: Oid)
    requires OnlyRecached(a, b, oid) && OnlyRecached(b, c, oid)
    ensures OnlyRecached(a, c, oid)
  {
    forall other | other != oid
      ensures Same(a, c, other)
    {
      assert Same(a, b, other) && Same(b, c, other);
    }
  }

  lemma UncachedIsSound(db: Database, oid: Oid, count: nat)
    requires Inv(db) && oid in db.objects && OrNone(db.objects[oid].compressedCount) <= count
    ensures Inv(Uncached(db, oid, count)) && OnlyRecached(db, Uncached(db, oid, count), oid)
  {
    assert Sound(db, oid);
    RecachedIsSound(db, Uncached(db, oid, count), oid);
  }

  /** Recording how many chunks there will be accounts for them before any is written. */
  lemma ReservedIsSound(db: Database, oid: Oid, count: nat)
    requires Inv(db) && oid in db.objects && db.objects[oid].compressedSize.None?
    requires db.objects[oid].compressedCount.None?
    ensures Inv(WithCache(db, oid, None, Some(count), db.kv))
    ensures OnlyRecached(db, WithCache(db, oid, None, Some(count), db.kv), oid)
  {
    assert Sound(db, oid);
    RecachedIsSound(db, WithCache(db, oid, None, Some(count), db.kv), oid);
  }

  /** So any number of chunks may be written before the size says that they are all there. */
  lemma CachedIsSound(db: Database, oid: Oid, bytes: Bytes, n: nat, size: Option<nat>)
    requires Inv(db) && oid in db.objects && db.objects[oid].compressedCount == Some(ChunkCount(|bytes|))
    requires n <= ChunkCount(|bytes|) && (size.Some? ==> size.value == |bytes| && n == ChunkCount(|bytes|))
    ensures var after := WithCache(
        db, oid, size, Some(ChunkCount(|bytes|)), Written(db.kv, CompressedObjectPrefix, oid, bytes, n));
      && Inv(after) && OnlyRecached(db, after, oid)
      && (size.Some? ==> Represents(after.kv, CompressedObjectPrefix, oid, |bytes|, ChunkCount(|bytes|), bytes))
  {
    hide ChunkCount, Written, Chunk;
    var all := ChunkCount(|bytes|);
    var after := WithCache(db, oid, size, Some(all), Written(db.kv, CompressedObjectPrefix, oid, bytes, n));
    assert Sound(db, oid);
    forall k: Key
      ensures k.oid != oid || k.prefix != CompressedObjectPrefix ==>
        (k in db.kv <==> k in after.kv) && (k in db.kv ==> db.kv[k] == after.kv[k])
      ensures k.oid == oid && k.prefix == CompressedObjectPrefix && k in after.kv ==> k.index < all
    {
      WrittenAt(db.kv, CompressedObjectPrefix, oid, bytes, n, k);
    }
    if size.Some? {
      PutHolds(db.kv, CompressedObjectPrefix, oid, bytes);
      assert Represents(after.kv, CompressedObjectPrefix, oid, |bytes|, all, bytes);
    }
    RecachedIsSound(db, after, oid);
  }

  lemma CachedHasEvery(db: Database, oid: Oid, n: nat)
    requires Inv(db) && Complete(db, oid) && db.objects[oid].compressedSize.Some?
    requires n < OrNone(db.objects[oid].compressedCount)
    ensures Key(CompressedObjectPrefix, oid, n) in db.kv
  {
    hide ChunkCount, Chunk;
    assert Sound(db, oid);
    var row := db.objects[oid];
    var bytes: Bytes :|
      Represents(db.kv, CompressedObjectPrefix, oid, row.compressedSize.value, row.compressedCount.value, bytes);
  }

  /** The size may be recorded exactly when every chunk is there: with any chunk missing, the store would
      promise bytes that it cannot read. */
  lemma SizeMustComeLastIff(db: Database, oid: Oid, bytes: Bytes, n: nat)
    requires Inv(db) && Complete(db, oid) && db.objects[oid].compressedCount == Some(ChunkCount(|bytes|))
    requires n <= ChunkCount(|bytes|) && forall k :: k in db.kv && k.oid == oid ==> k.prefix != CompressedObjectPrefix
    ensures var after := WithCache(
        db, oid, Some(|bytes|), Some(ChunkCount(|bytes|)), Written(db.kv, CompressedObjectPrefix, oid, bytes, n));
      Inv(after) <==> n == ChunkCount(|bytes|)
  {
    hide ChunkCount, Written, Chunk, Inv;
    var all := ChunkCount(|bytes|);
    var after := WithCache(db, oid, Some(|bytes|), Some(all), Written(db.kv, CompressedObjectPrefix, oid, bytes, n));
    if n == all {
      CachedIsSound(db, oid, bytes, n, Some(|bytes|));
    } else {
      WrittenAt(db.kv, CompressedObjectPrefix, oid, bytes, n, Key(CompressedObjectPrefix, oid, n));
      if Inv(after) {
        CachedHasEvery(after, oid, n);
      }
    }
  }

  // ---- A delta installed later ---------------------------------------------------------------------------

  function InstalledKv(kv: Kv, oid: Oid, delta: Delta, compressed: Bytes): Kv {
    Put(Put(kv, DeltaPrefix, oid, delta.bytes), CompressedDeltaPrefix, oid, compressed)
  }

  function Installed(db: Database, oid: Oid, delta: Delta, compressed: Bytes): Database {
    db.(
      deltas := db.deltas[oid := DeltaRow(delta.base, |delta.bytes|, ChunkCount(|delta.bytes|),
                                          Some(|compressed|), Some(ChunkCount(|compressed|)))],
      kv := InstalledKv(db.kv, oid, delta, compressed))
  }

  lemma InstalledAt(kv: Kv, oid: Oid, delta: Delta, compressed: Bytes, k: Key)
    ensures var mine := k.oid == oid && (
        || (k.prefix == DeltaPrefix && k.index < ChunkCount(|delta.bytes|))
        || (k.prefix == CompressedDeltaPrefix && k.index < ChunkCount(|compressed|)));
      && (k in InstalledKv(kv, oid, delta, compressed) <==> k in kv || mine)
      && (!mine && k in kv ==> InstalledKv(kv, oid, delta, compressed)[k] == kv[k])
  {
    hide ChunkCount, Put;
    PutAt(kv, DeltaPrefix, oid, delta.bytes, k);
    PutAt(Put(kv, DeltaPrefix, oid, delta.bytes), CompressedDeltaPrefix, oid, compressed, k);
  }

  lemma InstalledIsSound(db: Database, oid: Oid, delta: Delta, compressed: Bytes)
    requires Inv(db) && oid in db.objects && oid !in db.deltas
    ensures var after := Installed(db, oid, delta, compressed);
      && Inv(after) && OnlyTouches(db, after, oid) && after.objects == db.objects
      && Represents(after.kv, DeltaPrefix, oid, |delta.bytes|, ChunkCount(|delta.bytes|), delta.bytes)
      && Represents(after.kv, CompressedDeltaPrefix, oid, |compressed|, ChunkCount(|compressed|), compressed)
  {
    var after := Installed(db, oid, delta, compressed);
    var first := Put(db.kv, DeltaPrefix, oid, delta.bytes);
    assert after.kv == Put(first, CompressedDeltaPrefix, oid, compressed);
    hide ChunkCount, Put, InstalledKv, Chunk;
    assert Sound(db, oid);
    forall k: Key
      ensures k.oid != oid || (k.prefix != DeltaPrefix && k.prefix != CompressedDeltaPrefix) ==>
        (k in db.kv <==> k in after.kv) && (k in db.kv ==> db.kv[k] == after.kv[k])
      ensures k.oid == oid && k in after.kv ==> k.index < Bound(after, k.prefix, oid)
    {
      InstalledAt(db.kv, oid, delta, compressed, k);
    }
    PutHolds(db.kv, DeltaPrefix, oid, delta.bytes);
    PutHolds(first, CompressedDeltaPrefix, oid, compressed);
    forall i: nat
      ensures var k := Key(DeltaPrefix, oid, i);
        (k in first <==> k in after.kv) && (k in first ==> first[k] == after.kv[k])
    {
      PutAt(first, CompressedDeltaPrefix, oid, compressed, Key(DeltaPrefix, oid, i));
    }
    assert Represents(after.kv, DeltaPrefix, oid, |delta.bytes|, ChunkCount(|delta.bytes|), delta.bytes);
    assert Represents(after.kv, CompressedDeltaPrefix, oid, |compressed|, ChunkCount(|compressed|), compressed);
    if Complete(db, oid) {
      InstalledReads(db, after, oid);
    }
    InvStays(db, after, oid);
  }

  lemma InstalledReads(a: Database, b: Database, oid: Oid)
    requires Sound(a, oid) && a.objects == b.objects && Complete(a, oid)
    requires Agree(a.kv, b.kv, ObjectPrefix, oid) && Agree(a.kv, b.kv, CompressedObjectPrefix, oid)
    ensures var row := b.objects[oid];
      && Whole(b.kv, ObjectPrefix, oid, row.size, row.chunkCount)
      && WholeIfCached(b.kv, CompressedObjectPrefix, oid, row.compressedSize, row.compressedCount)
  {
    hide Whole;
    var row := a.objects[oid];
    WholeStays(a.kv, b.kv, ObjectPrefix, oid, row.size, row.chunkCount);
    if row.compressedSize.Some? {
      WholeStays(a.kv, b.kv, CompressedObjectPrefix, oid, row.compressedSize.value, row.compressedCount.value);
    }
  }

  /** Deleting the chunks of a delta whose row could not be inserted restores the store. */
  lemma InstallIsUndone(db: Database, oid: Oid, delta: Delta, compressed: Bytes)
    requires Inv(db) && oid !in db.deltas
    ensures var kv := Deleted(InstalledKv(db.kv, oid, delta, compressed), DeltaPrefix, oid, ChunkCount(|delta.bytes|));
      Deleted(kv, CompressedDeltaPrefix, oid, ChunkCount(|compressed|)) == db.kv
  {
    hide ChunkCount, InstalledKv;
    assert Sound(db, oid);
    var kv0 := InstalledKv(db.kv, oid, delta, compressed);
    var kv1 := Deleted(kv0, DeltaPrefix, oid, ChunkCount(|delta.bytes|));
    var kv2 := Deleted(kv1, CompressedDeltaPrefix, oid, ChunkCount(|compressed|));
    forall k: Key
      ensures (k in kv2 <==> k in db.kv) && (k in db.kv ==> kv2[k] == db.kv[k])
    {
      InstalledAt(db.kv, oid, delta, compressed, k);
    }
  }

  /** Unlike a compressed form, a delta's chunks are written before any row accounts for them. Were
      its row lost, the store would be sound only if there was nothing to write. */
  lemma InstallMustBeWhole(db: Database, oid: Oid, delta: Delta, compressed: Bytes)
    requires Inv(db) && oid in db.objects && oid !in db.deltas
    ensures Inv(db.(kv := InstalledKv(db.kv, oid, delta, compressed))) <==> delta.bytes == [] && compressed == []
  {
    var after := db.(kv := InstalledKv(db.kv, oid, delta, compressed));
    if delta.bytes == [] && compressed == [] {
      assert after == db;
    } else {
      var k := Key(if delta.bytes != [] then DeltaPrefix else CompressedDeltaPrefix, oid, 0);
      InstalledAt(db.kv, oid, delta, compressed, k);
      assert k in after.kv && !Sound(after, oid);
    }
  }

  /** What a batch, or any part of one, leaves of the store: complete objects are untouched, so is
      whatever the batch does not name, and what became complete has the bytes of the batch. */
  ghost predicate Kept(before: Database, after: Database, batch: seq<PackObject>, deflate: Bytes -> Bytes) {
    && Inv(after)
    && (forall oid :: Complete(before, oid) || Unnamed(batch, oid) ==> Same(before, after, oid))
    && (forall oid :: Complete(after, oid) && !Complete(before, oid) ==> CarriesOne(after, batch, deflate, oid))
  }

  predicate Unnamed(batch: seq<PackObject>, oid: Oid) {
    forall o :: o in batch ==> o.oid != oid
  }

  ghost predicate CarriesOne(db: Database, batch: seq<PackObject>, deflate: Bytes -> Bytes, oid: Oid) {
    exists o :: o in batch && o.oid == oid && Carries(db, o, deflate)
  }

  lemma SameChains(a: Database, b: Database, c: Database, oid: Oid)
    requires Same(a, b, oid) && Same(b, c, oid)
    ensures Same(a, c, oid)
  {
  }

  lemma SameIsComplete(a: Database, b: Database, oid: Oid)
    requires Same(a, b, oid)
    ensures Complete(a, oid) <==> Complete(b, oid)
  {
  }

  lemma CarriesStays(a: Database, b: Database, o: PackObject, deflate: Bytes -> Bytes)
    requires Carries(a, o, deflate) && Same(a, b, o.oid)
    ensures Carries(b, o, deflate)
  {
    hide Chunk, ChunkCount;
  }

  lemma KeptIsInv(before: Database, db: Database, batch: seq<PackObject>, deflate: Bytes -> Bytes)
    requires Kept(before, db, batch, deflate)
    ensures Inv(db)
  {
  }

  /** A step that touches one object of the batch, and that one only if it is not complete. */
  lemma KeptChains(
      before: Database, a: Database, b: Database, batch: seq<PackObject>, deflate: Bytes -> Bytes, o: PackObject)
    requires Kept(before, a, batch, deflate) && Inv(b) && OnlyTouches(a, b, o.oid) && o in batch
    requires !Complete(before, o.oid)
    requires Complete(b, o.oid) ==> Carries(b, o, deflate) || Same(a, b, o.oid)
    ensures Kept(before, b, batch, deflate)
  {
    hide Same, Carries, Inv;
    forall oid | Complete(before, oid) || Unnamed(batch, oid)
      ensures Same(before, b, oid)
    {
      SameChains(before, a, b, oid);
    }
    forall oid | Complete(b, oid) && !Complete(before, oid)
      ensures CarriesOne(b, batch, deflate, oid)
    {
      if oid == o.oid && Carries(b, o, deflate) {
      } else {
        assert Same(a, b, oid);
        SameIsComplete(a, b, oid);
        var p :| p in batch && p.oid == oid && Carries(a, p, deflate);
        CarriesStays(a, b, p, deflate);
      }
    }
  }

  /** The parts a write will keep: the compressed form that arrived with the object, or, for one
      that is kept whole, a new one. */
  function PreparedFor(o: PackObject, deflate: Bytes -> Bytes): (w: Write)
    ensures Proper(w, deflate) && w.what == o
  {
    if o.delta.None? then Write(o, Some(FormOf(o, deflate)), None)
    else Write(o, None, o.compressed)
  }

  predicate AllProper(prepared: seq<Write>, batch: seq<PackObject>, deflate: Bytes -> Bytes) {
    forall w :: w in prepared ==> Proper(w, deflate) && w.what in batch
  }

  /** The writes that inserted their row are of different objects, none of which was complete. */
  ghost predicate Claimed(before: Database, db: Database, prepared: seq<Write>, claimed: seq<bool>) {
    && |claimed| <= |prepared|
    && (forall i :: 0 <= i < |claimed| && claimed[i] ==>
          Claims(db, prepared[i]) && !Complete(before, prepared[i].what.oid))
    && (forall i, j :: 0 <= i < j < |claimed| && claimed[i] && claimed[j] ==>
          prepared[i].what.oid != prepared[j].what.oid)
  }

  lemma AbsentHasNoDelta(db: Database, oid: Oid)
    requires Inv(db) && oid !in db.objects
    ensures oid !in db.deltas
  {
    assert Sound(db, oid);
  }

  lemma StoredIsClaimed(db: Database, w: Write, deflate: Bytes -> Bytes)
    requires Proper(w, deflate) && w.what.oid !in db.deltas
    ensures Claims(Stored(db, w), w)
  {
    hide ChunkCount, PutParts;
    var after := Stored(db, w);
    forall prefix
      ensures Bound(after, prefix, w.what.oid) <= CountAt(CountsOf(w), prefix)
    {
    }
  }

  lemma ClaimsStays(a: Database, b: Database, w: Write)
    requires Claims(a, w) && Same(a, b, w.what.oid)
    ensures Claims(b, w)
  {
    hide CountsOf, CountAt, SameKeys;
    forall prefix
      ensures w.what.oid in b.objects ==> Bound(b, prefix, w.what.oid) <= CountAt(CountsOf(w), prefix)
    {
      assert w.what.oid in b.objects ==> Bound(b, prefix, w.what.oid) == Bound(a, prefix, w.what.oid);
    }
  }

  /** The claim of a write survives what touches only another object. */
  lemma ClaimedStays(
      before: Database, a: Database, b: Database, prepared: seq<Write>, claimed: seq<bool>, oid: Oid)
    requires Claimed(before, a, prepared, claimed) && OnlyTouches(a, b, oid)
    requires forall i :: 0 <= i < |claimed| && claimed[i] ==> prepared[i].what.oid != oid
    ensures Claimed(before, b, prepared, claimed)
  {
    hide Claims, Same;
    forall i | 0 <= i < |claimed| && claimed[i]
      ensures Claims(b, prepared[i])
    {
      ClaimsStays(a, b, prepared[i]);
    }
  }

  lemma NothingIsClaimed(before: Database, db: Database, prepared: seq<Write>)
    ensures Claimed(before, db, prepared, [])
  {
  }

  lemma ClaimedGrows(before: Database, db: Database, prepared: seq<Write>, claimed: seq<bool>, inserted: bool)
    requires Claimed(before, db, prepared, claimed) && |claimed| < |prepared|
    requires inserted ==>
      var w := prepared[|claimed|];
      && Claims(db, w) && !Complete(before, w.what.oid)
      && forall j :: 0 <= j < |claimed| && claimed[j] ==> prepared[j].what.oid != w.what.oid
    ensures Claimed(before, db, prepared, claimed + [inserted])
  {
    hide Claims;
  }

  lemma OthersStayClaimed(a: Database, b: Database, oid: Oid)
    requires OnlyTouches(a, b, oid)
    ensures forall v: Write :: v.what.oid != oid && Claims(a, v) ==> Claims(b, v)
  {
    hide Claims, Same;
    forall v: Write | v.what.oid != oid && Claims(a, v)
      ensures Claims(b, v)
    {
      ClaimsStays(a, b, v);
    }
  }

  lemma AbsentIsAccounted(db: Database, w: Write)
    requires Inv(db) && Claims(db, w)
    ensures Accounts(db, w.what.oid, CountsOf(w))
  {
    hide CountsOf;
    assert Sound(db, w.what.oid);
  }

  lemma StagedIsKept(before: Database, db: Database, batch: seq<PackObject>, deflate: Bytes -> Bytes, w: Write)
    requires Kept(before, db, batch, deflate) && Proper(w, deflate) && w.what in batch
    requires Claims(db, w) && !Complete(before, w.what.oid)
    ensures Kept(before, Staged(db, w), batch, deflate)
    ensures Accounts(Staged(db, w), w.what.oid, CountsOf(w)) && OnlyTouches(db, Staged(db, w), w.what.oid)
  {
    hide ChunkCount, Carries, Inv, Accounts, Kept;
    KeptIsInv(before, db, batch, deflate);
    StagedIsSound(db, w, deflate);
    KeptChains(before, db, Staged(db, w), batch, deflate, w.what);
  }

  lemma DiscardedIsKept(
      before: Database, a: Database, b: Database, batch: seq<PackObject>, deflate: Bytes -> Bytes, o: PackObject)
    requires Kept(before, a, batch, deflate) && Inv(b) && OnlyTouches(a, b, o.oid) && o in batch
    requires !Complete(before, o.oid) && Gone(b, o.oid)
    ensures Kept(before, b, batch, deflate)
  {
    hide Kept, Inv, OnlyTouches, Carries;
    KeptChains(before, a, b, batch, deflate, o);
  }

  lemma BatchBegins(db: Database, batch: seq<PackObject>, deflate: Bytes -> Bytes)
    requires Inv(db)
    ensures Kept(db, db, batch, deflate)
  {
  }

  predicate Waits(pending: seq<PackObject>, oid: Oid) {
    exists p :: p in pending && p.oid == oid
  }

  /** Rolled back, a claim is on an object that is absent again. */
  lemma RolledBack(before: Database, db: Database, saved: Database, prepared: seq<Write>, claimed: seq<bool>)
    requires Claimed(before, db, prepared, claimed)
    requires forall i :: 0 <= i < |claimed| && claimed[i] ==> prepared[i].what.oid !in saved.objects
    ensures Claimed(before, saved, prepared, claimed + seq(|prepared| - |claimed|, _ => false))
  {
  }

  class ObjectStore {
    var db: Database

    constructor ()
      ensures db == Database(map[], map[], map[]) && Inv(db)
    {
      db := Database(map[], map[], map[]);
    }

    /** The bytes of an object; what is not complete does not exist for a reader. */
    method Read(oid: Oid) returns (r: Option<Outcome>)
      requires Inv(db)
      ensures r.Some? <==> Complete(db, oid)
      ensures r.Some? ==>
        && r.value.Read?
        && Represents(db.kv, ObjectPrefix, oid, db.objects[oid].size, db.objects[oid].chunkCount, r.value.bytes)
    {
      if oid !in db.objects || !db.objects[oid].complete {
        return None;
      }
      var row := db.objects[oid];
      var read := ReadChunks(db.kv, ObjectPrefix, oid, row.size, row.chunkCount);
      assert Sound(db, oid);
      ghost var bytes :| Represents(db.kv, ObjectPrefix, oid, row.size, row.chunkCount, bytes);
      JoinedIsWhole(db.kv, ObjectPrefix, oid, bytes, row.chunkCount);
      assert bytes[..Least(row.chunkCount * CHUNK_BYTES, |bytes|)] == bytes;
      return Some(read);
    }

    /** Remove an object: the chunks of the counts given, and its rows. */
    method DiscardWrite(oid: Oid, c: Counts)
      requires Inv(db) && Accounts(db, oid, c)
      modifies this
      ensures db == Discarded(old(db), oid, c)
      ensures Inv(db) && OnlyTouches(old(db), db, oid) && Gone(db, oid)
    {
      DiscardedIsSound(db, oid, c);
      var kv := DeleteChunks(db.kv, ObjectPrefix, oid, c.plain);
      kv := DeleteChunks(kv, DeltaPrefix, oid, c.delta);
      kv := DeleteChunks(kv, CompressedObjectPrefix, oid, c.compressedObject);
      kv := DeleteChunks(kv, CompressedDeltaPrefix, oid, c.compressedDelta);
      db := Database(db.objects - {oid}, db.deltas - {oid}, kv);
    }

    /** What the rows say an object consists of. */
    method CountsIn(oid: Oid) returns (c: Counts)
      requires oid in db.objects
      ensures Accounts(db, oid, c)
    {
      var row := db.objects[oid];
      if oid in db.deltas {
        var delta := db.deltas[oid];
        return Counts(row.chunkCount, OrNone(row.compressedCount), delta.chunkCount, OrNone(delta.compressedCount));
      }
      return Counts(row.chunkCount, OrNone(row.compressedCount), 0, 0);
    }

    /** The sweep's removal of one object. Whatever an interrupted cache left is removed too. */
    method Reclaim(oid: Oid) returns (reclaimed: bool)
      requires Inv(db)
      modifies this
      ensures reclaimed == (oid in old(db).objects)
      ensures Inv(db) && OnlyTouches(old(db), db, oid) && Gone(db, oid)
    {
      if oid !in db.objects {
        assert Sound(db, oid);
        return false;
      }
      var c := CountsIn(oid);
      DiscardWrite(oid, c);
      return true;
    }

    /** What has to be written. A row that never became complete is removed first, unless the
        object brings its own compressed form: then the insertion will tell. */
    method Prepare(
        pending: seq<PackObject>, deflate: Bytes -> Bytes, ghost before: Database, ghost batch: seq<PackObject>)
      returns (prepared: seq<Write>, thrown: bool)
      requires Kept(before, db, batch, deflate) && (forall o :: o in pending ==> o in batch)
      modifies this
      ensures Kept(before, db, batch, deflate) && db.objects.Keys <= old(db).objects.Keys
      ensures forall oid :: Complete(old(db), oid) ==> Complete(db, oid)
      ensures AllProper(prepared, batch, deflate)
      ensures !thrown ==> forall o :: o in pending ==>
        Complete(db, o.oid) || exists w :: w in prepared && w.what == o
      ensures forall w :: w in prepared ==>
        w.what in pending && (w.what.compressed.None? ==> w.what.oid !in db.objects)
    {
      hide Same, Sound, Carries, Accounts, Gone;
      prepared, thrown := [], false;
      for i := 0 to |pending|
        invariant Kept(before, db, batch, deflate) && db.objects.Keys <= old(db).objects.Keys
        invariant forall oid :: Complete(old(db), oid) ==> Complete(db, oid)
        invariant AllProper(prepared, batch, deflate)
        invariant forall j :: 0 <= j < i ==>
          Complete(db, pending[j].oid) || exists w :: w in prepared && w.what == pending[j]
        invariant forall w :: w in prepared ==>
          w.what in pending && (w.what.compressed.None? ==> w.what.oid !in db.objects)
      {
        var o := pending[i];
        if o.compressed.None? && o.oid in db.objects {
          if db.objects[o.oid].complete {
            continue;
          }
          thrown := *;
          if thrown {
            return;
          }
          DiscardIncomplete(o, before, batch, deflate);
        }
        prepared := prepared + [PreparedFor(o, deflate)];
      }
    }

    method DiscardIncomplete(
        o: PackObject, ghost before: Database, ghost batch: seq<PackObject>, ghost deflate: Bytes -> Bytes)
      requires Kept(before, db, batch, deflate) && o in batch && o.oid in db.objects && !Complete(db, o.oid)
      modifies this
      ensures Kept(before, db, batch, deflate) && db.objects == old(db).objects - {o.oid}
      ensures OnlyTouches(old(db), db, o.oid)
    {
      hide Carries, Accounts, Sound;
      var c := CountsIn(o.oid);
      assert !Complete(before, o.oid);
      DiscardWrite(o.oid, c);
      KeptChains(before, old(db), db, batch, deflate, o);
    }

    /** One transaction for all the writes. Where a row exists already, it and its chunks stay. If
        anything throws, rows and chunks are as before, but the claims are not taken back. */
    method Transact(
        prepared: seq<Write>, ghost before: Database, ghost batch: seq<PackObject>, ghost deflate: Bytes -> Bytes)
      returns (claimed: seq<bool>, thrown: bool)
      requires Kept(before, db, batch, deflate) && AllProper(prepared, batch, deflate)
      modifies this
      ensures Kept(before, db, batch, deflate) && |claimed| == |prepared| && Claimed(before, db, prepared, claimed)
      ensures thrown ==> db == old(db)
      ensures !thrown ==>
        && (forall oid :: oid in old(db).objects ==> oid in db.objects && db.objects[oid] == old(db).objects[oid])
        && (forall oid :: oid in db.objects && oid !in old(db).objects ==> Complete(db, oid))
        && (forall w :: w in prepared ==> w.what.oid in db.objects)
        && (forall i :: 0 <= i < |prepared| && claimed[i] ==> Complete(db, prepared[i].what.oid))
    {
      hide Same, Inv, Carries, Claims, Stored, Claimed, Kept, OnlyTouches, RowOf;
      NothingIsClaimed(before, db, prepared);
      var saved := db;
      claimed, thrown := [], false;
      for i := 0 to |prepared|
        invariant |claimed| == i && Kept(before, db, batch, deflate) && Claimed(before, db, prepared, claimed)
        invariant saved == old(db)
        invariant forall oid :: oid in saved.objects ==> oid in db.objects && db.objects[oid] == saved.objects[oid]
        invariant forall j :: 0 <= j < i && claimed[j] ==> prepared[j].what.oid !in saved.objects
        invariant forall j :: 0 <= j < i ==> prepared[j].what.oid in db.objects
        invariant forall oid :: oid in db.objects && oid !in saved.objects ==> Complete(db, oid)
      {
        thrown := *;
        if thrown {
          break;
        }
        var w := prepared[i];
        if w.what.oid in db.objects {
          ClaimedGrows(before, db, prepared, claimed, false);
          claimed := claimed + [false];
        } else {
          ghost var a := db;
          assert forall j :: 0 <= j < i ==> prepared[j].what.oid != w.what.oid;
          Insert(w, before, batch, deflate);
          ClaimedStays(before, a, db, prepared, claimed, w.what.oid);
          ClaimedGrows(before, db, prepared, claimed, true);
          claimed := claimed + [true];
        }
      }
      if thrown {
        RolledBack(before, db, saved, prepared, claimed);
        db := saved;
        claimed := claimed + seq(|prepared| - |claimed|, _ => false);
      }
    }

    /** The rows of one object and the chunks of all its representations. */
    method Insert(w: Write, ghost before: Database, ghost batch: seq<PackObject>, ghost deflate: Bytes -> Bytes)
      requires Kept(before, db, batch, deflate) && Proper(w, deflate) && w.what in batch && w.what.oid !in db.objects
      modifies this
      ensures db == Stored(old(db), w) && Kept(before, db, batch, deflate)
      ensures db.objects == old(db).objects[w.what.oid := RowOf(w, true)] && Complete(db, w.what.oid)
      ensures Claims(db, w) && !Complete(before, w.what.oid) && OnlyTouches(old(db), db, w.what.oid)
    {
      hide ChunkCount, Carries, Sound, Claims;
      AbsentHasNoDelta(db, w.what.oid);
      StoredIsSound(db, w, deflate);
      StoredIsClaimed(db, w, deflate);
      var oid := w.what.oid;
      var kv := WriteChunks(db.kv, ObjectPrefix, oid, w.what.bytes);
      if w.full.Some? {
        kv := WriteChunks(kv, CompressedObjectPrefix, oid, w.full.value);
      }
      if w.what.delta.Some? {
        kv := WriteChunks(kv, DeltaPrefix, oid, w.what.delta.value.bytes);
        db := db.(deltas := db.deltas[oid := DeltaRowOf(w)]);
      }
      if w.packed.Some? {
        kv := WriteChunks(kv, CompressedDeltaPrefix, oid, w.packed.value);
      }
      db := db.(objects := db.objects[oid := RowOf(w, true)], kv := kv);
      assert !Complete(before, oid);
      KeptChains(before, old(db), db, batch, deflate, w.what);
    }

    /** After the transaction: a row that was in the way and never became complete is removed, and
        its object written again. */
    method Settle(
        prepared: seq<Write>, claimed: seq<bool>, ghost before: Database, ghost batch: seq<PackObject>,
        ghost deflate: Bytes -> Bytes)
      returns (retry: seq<PackObject>, thrown: bool)
      requires Kept(before, db, batch, deflate) && AllProper(prepared, batch, deflate)
      requires |claimed| == |prepared| && Claimed(before, db, prepared, claimed)
      requires forall i :: 0 <= i < |prepared| && (claimed[i] || prepared[i].what.compressed.None?) ==>
        Complete(db, prepared[i].what.oid)
      modifies this
      ensures Kept(before, db, batch, deflate) && Claimed(before, db, prepared, claimed)
      ensures forall oid :: Complete(old(db), oid) ==> Complete(db, oid)
      ensures forall o :: o in retry ==>
        o in batch && o.oid !in db.objects && exists w :: w in prepared && w.what == o
      ensures retry != [] ==> exists w :: w in prepared && !Complete(old(db), w.what.oid)
      ensures !thrown ==> forall w :: w in prepared ==>
        Complete(db, w.what.oid) || w.what.oid !in old(db).objects || Waits(retry, w.what.oid)
    {
      hide Same, Inv, Carries, Claims;
      retry, thrown := [], false;
      for i := 0 to |prepared|
        invariant Kept(before, db, batch, deflate) && Claimed(before, db, prepared, claimed)
        invariant forall oid :: Complete(old(db), oid) ==> Complete(db, oid)
        invariant forall oid :: oid in db.objects ==> oid in old(db).objects && db.objects[oid] == old(db).objects[oid]
        invariant forall o :: o in retry ==>
          o in batch && o.oid !in db.objects && exists w :: w in prepared && w.what == o
        invariant retry != [] ==> exists w :: w in prepared && !Complete(old(db), w.what.oid)
        invariant forall oid :: oid in old(db).objects && oid !in db.objects ==> Waits(retry, oid)
        invariant forall j :: 0 <= j < i ==>
          Complete(db, prepared[j].what.oid) || prepared[j].what.oid !in old(db).objects ||
          Waits(retry, prepared[j].what.oid)
      {
        var o := prepared[i].what;
        assert prepared[i] in prepared;
        if claimed[i] || o.compressed.None? {
          continue;
        }
        thrown := *;
        if thrown {
          return;
        }
        if o.oid in db.objects && !db.objects[o.oid].complete {
          ghost var a := db;
          DiscardIncomplete(o, before, batch, deflate);
          ClaimedStays(before, a, db, prepared, claimed, o.oid);
          retry := retry + [o];
        }
      }
    }

    method UndoOne(w: Write, ghost before: Database, ghost batch: seq<PackObject>, ghost deflate: Bytes -> Bytes)
      requires Kept(before, db, batch, deflate) && Proper(w, deflate) && w.what in batch
      requires Claims(db, w) && !Complete(before, w.what.oid)
      modifies this
      ensures Kept(before, db, batch, deflate)
      ensures forall v: Write :: v.what.oid != w.what.oid && Claims(old(db), v) ==> Claims(db, v)
    {
      hide Kept, Claims, Inv, OnlyTouches, Staged, CountsOf;
      ghost var a := db;
      var oid := w.what.oid;
      var marked: bool := *;
      if marked {
        StagedIsKept(before, db, batch, deflate, w);
        Mark(w);
        OthersStayClaimed(a, db, oid);
      } else {
        KeptIsInv(before, db, batch, deflate);
        AbsentIsAccounted(db, w);
      }
      var removed: bool := *;
      if removed {
        ghost var b := db;
        KeptIsInv(before, db, batch, deflate);
        DiscardWrite(oid, CountsOf(w));
        DiscardedIsKept(before, b, db, batch, deflate, w.what);
        OthersStayClaimed(b, db, oid);
      }
    }

    method Mark(w: Write)
      modifies this
      ensures db == Staged(old(db), w)
    {
      var oid := w.what.oid;
      if oid !in db.objects {
        db := db.(objects := db.objects[oid := RowOf(w, false)]);
      }
      if w.what.delta.Some? && oid !in db.deltas {
        db := db.(deltas := db.deltas[oid := DeltaRowOf(w)]);
      }
    }

    /** After a failure: mark what this call claimed as incomplete, so that a sweep would find it,
        and remove it. Either may fail as well. */
    method Undo(
        prepared: seq<Write>, claimed: seq<bool>, ghost before: Database, ghost batch: seq<PackObject>,
        ghost deflate: Bytes -> Bytes)
      requires Kept(before, db, batch, deflate) && AllProper(prepared, batch, deflate)
      requires |claimed| == |prepared| && Claimed(before, db, prepared, claimed)
      modifies this
      ensures Kept(before, db, batch, deflate)
    {
      hide Same, Inv, Carries, Claims, Accounts, Gone, Staged;
      for i := 0 to |prepared|
        invariant Kept(before, db, batch, deflate)
        invariant forall j :: i <= j < |prepared| && claimed[j] ==> Claims(db, prepared[j])
      {
        if claimed[i] {
          UndoOne(prepared[i], before, batch, deflate);
          forall j | i < j < |prepared| && claimed[j]
            ensures Claims(db, prepared[j])
          {
            assert prepared[i].what.oid != prepared[j].what.oid;
          }
        }
      }
    }

    /** One round over what is pending; what has to be tried again is returned. */
    method Round(
        pending: seq<PackObject>, deflate: Bytes -> Bytes, ghost before: Database, ghost batch: seq<PackObject>)
      returns (retry: seq<PackObject>, thrown: bool)
      requires Kept(before, db, batch, deflate) && (forall o :: o in pending ==> o in batch)
      modifies this
      ensures Kept(before, db, batch, deflate)
      ensures !thrown ==>
        && (forall oid :: Complete(old(db), oid) ==> Complete(db, oid))
        && (forall o :: o in pending ==> Complete(db, o.oid) || Waits(retry, o.oid))
        && (forall o :: o in retry ==> o in batch && o.oid !in db.objects)
        && (retry != [] ==> exists o :: o in pending && o.oid in old(db).objects)
    {
      hide Same, Inv, Carries, Claims, Kept;
      retry := [];
      var prepared, claimed;
      prepared, thrown := Prepare(pending, deflate, before, batch);
      if thrown || prepared == [] {
        return;
      }
      claimed, thrown := Transact(prepared, before, batch, deflate);
      if !thrown {
        retry, thrown := Settle(prepared, claimed, before, batch, deflate);
      }
      if thrown {
        Undo(prepared, claimed, before, batch, deflate);
      }
    }

    /** Store a batch. It returns with every object complete, each with bytes that the batch gave
        under its name unless it was complete before; or it throws. Either way nothing that was
        complete has changed. A row in the way costs one more round, never two. */
    method WriteBatch(batch: seq<PackObject>, deflate: Bytes -> Bytes) returns (thrown: bool)
      requires Inv(db)
      modifies this
      ensures Kept(old(db), db, batch, deflate)
      ensures !thrown ==> forall o :: o in batch ==> Complete(db, o.oid)
    {
      hide Inv, Kept, Complete;
      ghost var before := db;
      BatchBegins(db, batch, deflate);
      var pending := batch;
      ghost var rounds: nat := 2;
      while pending != []
        invariant Kept(before, db, batch, deflate)
        invariant forall o :: o in pending ==> o in batch
        invariant forall o :: o in batch ==> Complete(db, o.oid) || Waits(pending, o.oid)
        invariant rounds < 2 ==> forall o :: o in pending ==> o.oid !in db.objects
        invariant rounds == 0 ==> pending == []
        decreases rounds
      {
        pending, thrown := Round(pending, deflate, before, batch);
        if thrown {
          return;
        }
        rounds := rounds - 1;
      }
      return false;
    }

    /** Keep a compressed form of a complete object. The row says how many chunks there will be
        before they are written, so wherever this stops, between two of them too, nothing is left that no
        row accounts for. */
    method CacheFullCompression(oid: Oid, deflate: Bytes -> Bytes) returns (cached: bool)
      requires Inv(db) && Complete(db, oid) && db.objects[oid].compressedSize.None?
      modifies this
      ensures Inv(db) && OnlyRecached(old(db), db, oid)
      ensures cached ==> CachesItself(db, oid, deflate)
    {
      RecachedAtFirst(db, oid);
      hide Inv, ChunkCount, Written, Deleted, OnlyRecached, Represents;
      if db.objects[oid].compressedCount.Some? {
        DiscardFullCompression(oid, db.objects[oid].compressedCount.value);
      }
      ghost var empty := db;
      var read := Read(oid);
      var compressed := deflate(read.value.bytes);
      var count := ChunkCount(|compressed|);
      cached := false;
      var stopped: bool := *;
      if !stopped {
        ReservedIsSound(db, oid, count);
        db := WithCache(db, oid, None, Some(count), db.kv);
        ghost var reserved := db;
        RecachedChains(old(db), empty, reserved, oid);
        var kv, written := WriteSomeChunks(db.kv, CompressedObjectPrefix, oid, compressed);
        var recorded: bool := *;
        recorded := recorded && written == count;
        CachedIsSound(db, oid, compressed, written, if recorded then Some(|compressed|) else None);
        db := WithCache(db, oid, if recorded then Some(|compressed|) else None, Some(count), kv);
        RecachedChains(old(db), reserved, db, oid);
        RecachedChains(empty, reserved, db, oid);
        RecachedReads(empty, db, oid, read.value.bytes);
        var thrown: bool := *;
        cached := recorded && !thrown;
      }
      stopped := *;
      if !cached && !stopped {
        ghost var left := db;
        DiscardFullCompression(oid, count);
        RecachedChains(old(db), left, db, oid);
      }
    }

    method DiscardFullCompression(oid: Oid, count: nat)
      requires Inv(db) && oid in db.objects && OrNone(db.objects[oid].compressedCount) <= count
      modifies this
      ensures db == Uncached(old(db), oid, count) && Inv(db) && OnlyRecached(old(db), db, oid)
    {
      UncachedIsSound(db, oid, count);
      var kv := DeleteChunks(db.kv, CompressedObjectPrefix, oid, count);
      db := WithCache(db, oid, None, None, kv);
    }

    /** Give an object that has no retained delta one. */
    method InstallDelta(oid: Oid, delta: Delta, compressed: Bytes) returns (thrown: bool)
      requires Inv(db)
      modifies this
      ensures Inv(db) && OnlyTouches(old(db), db, oid) && db.objects == old(db).objects
      ensures oid in old(db).deltas || thrown ==> db == old(db)
      ensures oid !in old(db).deltas && !thrown ==>
        oid in db.objects && db == Installed(old(db), oid, delta, compressed)
    {
      if oid in db.deltas {
        return false;
      }
      var kv := WriteChunks(db.kv, DeltaPrefix, oid, delta.bytes);
      kv := WriteChunks(kv, CompressedDeltaPrefix, oid, compressed);
      thrown := *;
      if thrown || oid !in db.objects {
        InstallIsUndone(db, oid, delta, compressed);
        kv := DeleteChunks(kv, DeltaPrefix, oid, ChunkCount(|delta.bytes|));
        kv := DeleteChunks(kv, CompressedDeltaPrefix, oid, ChunkCount(|compressed|));
        db := db.(kv := kv);
        return true;
      }
      InstalledIsSound(db, oid, delta, compressed);
      db := Installed(db, oid, delta, compressed);
    }
  }
}
