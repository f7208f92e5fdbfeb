/** The rows and chunks of the object store are the objects that packs are read into, repacked among, and written
    from: what each operation does to the database is what it means for those. */
module StoreRefinement {
  import opened Bits
  import opened Options
  import opened Graph
  import opened PackFormat
  import opened PackWriter
  import opened PackReader
  import opened ChunkedKv
  import ObjectStore
  import Repack

  type Database = ObjectStore.Database

  /** The rows and chunks of one object are its type and bytes, and every form it is kept in. */
  ghost predicate ShowsOne(db: Database, n: Name, o: Stored)
    requires n in db.objects
  {
    var row := db.objects[n];
    && row.kind == o.kind
    && ObjectStore.Represents(db.kv, ObjectPrefix, n, row.size, row.chunkCount, o.bytes)
    && ObjectStore.Caches(db.kv, CompressedObjectPrefix, n, row.compressedSize, row.compressedCount, o.full)
    && (n in db.deltas <==> o.delta.Some?)
    && (o.delta.Some? ==> ShowsDelta(db, n, o.delta.value))
  }

  ghost predicate ShowsDelta(db: Database, n: Name, d: Kept)
    requires n in db.deltas
  {
    var row := db.deltas[n];
    && row.base == d.base
    && ObjectStore.Represents(db.kv, DeltaPrefix, n, row.size, row.chunkCount, d.bytes)
    && ObjectStore.Caches(db.kv, CompressedDeltaPrefix, n, row.compressedSize, row.compressedCount, d.compressed)
  }

  /** The complete objects of the database are those of `s`. */
  ghost predicate Shows(db: Database, s: Source) {
    && (forall n :: n in s <==> ObjectStore.Complete(db, n))
    && (forall n :: n in s ==> ShowsOne(db, n, s[n]))
  }

  lemma SameShows(a: Database, b: Database, n: Name, o: Stored)
    requires ObjectStore.Same(a, b, n) && n in a.objects && ShowsOne(a, n, o)
    ensures ShowsOne(b, n, o)
  {
    hide Chunk, ChunkCount;
  }

  // ---- A batch -----------------------------------------------------------------------------------

  function Keyed(n: Name, o: PackObject): ObjectStore.PackObject {
    ObjectStore.PackObject(
      n, o.kind, o.bytes,
      if o.delta.None? then None else Some(ObjectStore.Delta(o.delta.value.base, o.delta.value.bytes)),
      Some(o.compressed))
  }

  function AllKeyed(batch: seq<(Name, PackObject)>): seq<ObjectStore.PackObject> {
    seq(|batch|, i requires 0 <= i < |batch| => Keyed(batch[i].0, batch[i].1))
  }

  lemma CarriesShows(db: Database, n: Name, o: PackObject, deflate: Bytes -> Bytes)
    requires ObjectStore.Carries(db, Keyed(n, o), deflate)
    ensures ShowsOne(db, n, Repack.StoredFrom(o))
  {
    hide ObjectStore.Represents;
  }

  lemma {:induction false} AddAllGives(objects: Objects, batch: seq<(Name, PackObject)>, i: nat)
    requires i < |batch| && NamedOnce(batch) && batch[i].0 !in objects
    ensures batch[i].0 in AddAll(objects, batch) && AddAll(objects, batch)[batch[i].0] == batch[i].1
  {
    var n := |batch| - 1;
    if i < n {
      AddAllGives(objects, batch[..n], i);
    } else {
      AddAllKeeps(objects, batch[..n], batch[n].0);
      forall e | e in batch[..n]
        ensures e.0 != batch[n].0
      {
        var j :| 0 <= j < n && batch[j] == e;
      }
    }
  }

  /** An object that became complete is the one of the batch with its name. */
  lemma NewIsOfBatch(
      before: Database, after: Database, s: Source, batch: seq<(Name, PackObject)>, n: Name, deflate: Bytes -> Bytes)
    requires Shows(before, s) && ObjectStore.Kept(before, after, AllKeyed(batch), deflate) && NamedOnce(batch)
    requires ObjectStore.Complete(after, n) && n !in s
    ensures var all := AddAll(Repack.Seen(s), batch);
      n in all && ShowsOne(after, n, Repack.StoredFrom(all[n]))
  {
    hide ObjectStore.Carries, ObjectStore.Same, ObjectStore.Inv, ShowsOne, AddAll;
    var o :| o in AllKeyed(batch) && o.oid == n && ObjectStore.Carries(after, o, deflate);
    var i :| 0 <= i < |batch| && AllKeyed(batch)[i] == o;
    AddAllGives(Repack.Seen(s), batch, i);
    CarriesShows(after, n, batch[i].1, deflate);
  }

  /** Writing a batch adds its objects to those that are stored, each as it came; a write that fails adds some of
      them. */
  lemma BatchIsRefined(
      before: Database, after: Database, s: Repack.Store, batch: seq<(Name, PackObject)>, deflate: Bytes -> Bytes,
      thrown: bool)
      returns (left: Objects)
    requires Shows(before, s.objects) && ObjectStore.Kept(before, after, AllKeyed(batch), deflate) && NamedOnce(batch)
    requires !thrown ==> forall o :: o in AllKeyed(batch) ==> ObjectStore.Complete(after, o.oid)
    ensures Extends(Repack.Seen(s.objects), left) && Extends(left, AddAll(Repack.Seen(s.objects), batch))
    ensures !thrown ==> left == AddAll(Repack.Seen(s.objects), batch)
    ensures Shows(after, Repack.Accept(s, left).objects)
  {
    hide ObjectStore.Carries, ObjectStore.Same, ObjectStore.Inv, ShowsOne, AddAll;
    var seen, all := Repack.Seen(s.objects), AddAll(Repack.Seen(s.objects), batch);
    left := map n | n in all && ObjectStore.Complete(after, n) :: all[n];
    ViewExtends(seen, batch);
    forall n | n in s.objects
      ensures ObjectStore.Complete(after, n) && ShowsOne(after, n, s.objects[n])
    {
      ObjectStore.SameIsComplete(before, after, n);
      SameShows(before, after, n, s.objects[n]);
    }
    forall n | ObjectStore.Complete(after, n) && n !in s.objects
      ensures n in all && ShowsOne(after, n, Repack.StoredFrom(all[n]))
    {
      NewIsOfBatch(before, after, s.objects, batch, n, deflate);
    }
    if !thrown {
      forall n | n in all
        ensures n in left
      {
        AddAllKeeps(seen, batch, n);
        if n !in seen {
          var e :| e in batch && e.0 == n;
          var i :| 0 <= i < |batch| && batch[i] == e;
          assert AllKeyed(batch)[i] in AllKeyed(batch);
        }
      }
    }
  }

  // ---- One object ----------------------------------------------------------------------------------

  /** A representation is of one sequence of bytes. */
  lemma RepresentsOne(kv: Kv, prefix: Prefix, n: Name, size: nat, count: nat, a: Bytes, b: Bytes)
    requires ObjectStore.Represents(kv, prefix, n, size, count, a)
    requires ObjectStore.Represents(kv, prefix, n, size, count, b)
    ensures a == b
  {
    hide Chunk, ChunkCount;
    JoinedIsWhole(kv, prefix, n, a, count);
    JoinedIsWhole(kv, prefix, n, b, count);
    WholeCount(size);
    assert a[..size] == a && b[..size] == b;
  }

  lemma WholeCount(size: nat)
    ensures Least(ChunkCount(size) * CHUNK_BYTES, size) == size
  {
  }

  /** What is read of an object is its bytes. */
  lemma ReadIsRefined(db: Database, s: Source, n: Name, bytes: Bytes)
    requires Shows(db, s) && n in s
    requires ObjectStore.Represents(db.kv, ObjectPrefix, n, db.objects[n].size, db.objects[n].chunkCount, bytes)
    ensures bytes == s[n].bytes
  {
    RepresentsOne(db.kv, ObjectPrefix, n, db.objects[n].size, db.objects[n].chunkCount, bytes, s[n].bytes);
  }

  /** Reclaiming an object removes it and its delta. */
  lemma ReclaimIsRefined(before: Database, after: Database, s: Repack.Store, x: Name)
    requires Shows(before, s.objects) && ObjectStore.OnlyTouches(before, after, x) && ObjectStore.Gone(after, x)
    ensures Shows(after, Repack.Reclaim(s, x).objects)
  {
    hide ObjectStore.Same, ShowsOne;
    forall n | n != x
      ensures ObjectStore.Complete(before, n) <==> ObjectStore.Complete(after, n)
      ensures n in s.objects ==> ShowsOne(after, n, s.objects[n])
    {
      ObjectStore.SameIsComplete(before, after, n);
      if n in s.objects {
        SameShows(before, after, n, s.objects[n]);
      }
    }
  }

  /** Installing a delta gives it to its object, in both its forms. */
  lemma InstallIsRefined(db: Database, s: Source, x: Name, c: Name, base: Stored, deflate: seq<byte> -> seq<byte>)
    requires ObjectStore.Inv(db) && Shows(db, s) && x in s && s[x].delta.None?
    ensures var o := Repack.Installed(s[x], c, base, deflate);
      var kept := o.delta.value;
      Shows(ObjectStore.Installed(db, x, ObjectStore.Delta(c, kept.bytes), kept.compressed.value), s[x := o])
  {
    hide ObjectStore.Same, ObjectStore.Inv, ShowsOne, ObjectStore.Installed, Repack.Installed;
    var o := Repack.Installed(s[x], c, base, deflate);
    InstalledForms(s[x], c, base, deflate);
    var delta, compressed := ObjectStore.Delta(c, o.delta.value.bytes), o.delta.value.compressed.value;
    var after := ObjectStore.Installed(db, x, delta, compressed);
    HasNoDeltaRow(db, s, x);
    ObjectStore.InstalledIsSound(db, x, delta, compressed);
    forall n | n in s && n != x
      ensures ShowsOne(after, n, s[n])
    {
      SameShows(db, after, n, s[n]);
    }
    InstalledShows(db, x, delta, compressed, s[x]);
  }

  lemma HasNoDeltaRow(db: Database, s: Source, x: Name)
    requires Shows(db, s) && x in s && s[x].delta.None?
    ensures x in db.objects && x !in db.deltas
  {
  }

  lemma InstalledForms(o: Stored, c: Name, base: Stored, deflate: seq<byte> -> seq<byte>)
    ensures var p := Repack.Installed(o, c, base, deflate);
      && p.delta.Some? && p.delta.value.compressed.Some?
      && p == o.(delta := Some(Kept(c, p.delta.value.bytes, p.delta.value.compressed)))
  {
  }

  lemma InstalledShows(db: Database, x: Name, delta: ObjectStore.Delta, compressed: Bytes, o: Stored)
    requires ObjectStore.Inv(db) && x in db.objects && x !in db.deltas && ShowsOne(db, x, o)
    ensures ShowsOne(
      ObjectStore.Installed(db, x, delta, compressed), x,
      o.(delta := Some(Kept(delta.base, delta.bytes, Some(compressed)))))
  {
    hide ObjectStore.Same, ObjectStore.Inv, ObjectStore.InstalledKv, ObjectStore.Represents, ObjectStore.OnlyTouches;
    ObjectStore.InstalledIsSound(db, x, delta, compressed);
    InstalledKeepsFull(db, x, delta, compressed, o);
  }

  lemma InstalledKeepsFull(db: Database, x: Name, delta: ObjectStore.Delta, compressed: Bytes, o: Stored)
    requires x in db.objects && ShowsOne(db, x, o)
    ensures var kv, row := ObjectStore.InstalledKv(db.kv, x, delta, compressed), db.objects[x];
      && ObjectStore.Represents(kv, ObjectPrefix, x, row.size, row.chunkCount, o.bytes)
      && ObjectStore.Caches(kv, CompressedObjectPrefix, x, row.compressedSize, row.compressedCount, o.full)
  {
    hide ObjectStore.InstalledKv, Chunk, ChunkCount;
    var kv := ObjectStore.InstalledKv(db.kv, x, delta, compressed);
    forall k: Key | k.prefix == ObjectPrefix || k.prefix == CompressedObjectPrefix
      ensures k in db.kv ==> k in kv && kv[k] == db.kv[k]
    {
      ObjectStore.InstalledAt(db.kv, x, delta, compressed, k);
    }
  }

  /** Caching an object gives it the compressed form of its bytes. */
  lemma CacheIsRefined(before: Database, after: Database, s: Source, x: Name, deflate: Bytes -> Bytes)
    requires Shows(before, s) && x in s
    requires ObjectStore.OnlyRecached(before, after, x) && ObjectStore.CachesItself(after, x, deflate)
    ensures Shows(after, s[x := s[x].(full := Some(deflate(s[x].bytes)))])
  {
    hide ObjectStore.Same, Chunk, ChunkCount;
    var row := after.objects[x];
    var bytes: Bytes :|
      && ObjectStore.Represents(after.kv, ObjectPrefix, x, row.size, row.chunkCount, bytes)
      && ObjectStore.Represents(
           after.kv, CompressedObjectPrefix, x, row.compressedSize.value, row.compressedCount.value, deflate(bytes));
    ObjectStore.RecachedReads(before, after, x, s[x].bytes);
    RepresentsOne(after.kv, ObjectPrefix, x, row.size, row.chunkCount, bytes, s[x].bytes);
    forall n | n != x
      ensures ObjectStore.Complete(before, n) <==> ObjectStore.Complete(after, n)
      ensures n in s ==> ShowsOne(after, n, s[n])
    {
      assert ObjectStore.Same(before, after, n);
      ObjectStore.SameIsComplete(before, after, n);
      if n in s {
        SameShows(before, after, n, s[n]);
      }
    }
  }
}
