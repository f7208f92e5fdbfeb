/** Bytes kept in a key-value store that holds values of limited size: chunk after chunk, under
    numbered keys. */
module ChunkedKv {
  import opened Bits
  import opened Graph

  /** Resolved objects, retained deltas, and the compressed form of either. */
  datatype Prefix = ObjectPrefix | DeltaPrefix | CompressedObjectPrefix | CompressedDeltaPrefix

  datatype Key = Key(prefix: Prefix, oid: Oid, index: nat)

  type Bytes = seq<byte>

  type Kv = map<Key, Bytes>

  const CHUNK_BYTES: nat := 1_536 * 1_024

  function ChunkCount(size: nat): (n: nat)
    ensures size <= n * 1572864 < size + 1572864
    ensures n == 0 <==> size == 0
  {
    (size + CHUNK_BYTES - 1) / CHUNK_BYTES
  }

  function Chunk(bytes: Bytes, index: nat): Bytes
    requires index < ChunkCount(|bytes|)
  {
    bytes[index * 1572864..Least((index + 1) * 1572864, |bytes|)]
  }

  /** The store with the first `n` chunks written. */
  function Written(kv: Kv, prefix: Prefix, oid: Oid, bytes: Bytes, n: nat): Kv
    requires n <= ChunkCount(|bytes|)
    decreases n
  {
    if n == 0 then kv else Written(kv, prefix, oid, bytes, n - 1)[Key(prefix, oid, n - 1) := Chunk(bytes, n - 1)]
  }

  function Put(kv: Kv, prefix: Prefix, oid: Oid, bytes: Bytes): Kv {
    Written(kv, prefix, oid, bytes, ChunkCount(|bytes|))
  }

  function Deleted(kv: Kv, prefix: Prefix, oid: Oid, count: nat): Kv {
    map k | k in kv && !(k.prefix == prefix && k.oid == oid && k.index < count) :: kv[k]
  }

  /** Every chunk of the bytes is there. */
  ghost predicate Holds(kv: Kv, prefix: Prefix, oid: Oid, bytes: Bytes) {
    forall i: nat :: i < ChunkCount(|bytes|) ==>
      Key(prefix, oid, i) in kv && kv[Key(prefix, oid, i)] == Chunk(bytes, i)
  }

  /** Two stores agree on everything of one representation. */
  ghost predicate Agree(a: Kv, b: Kv, prefix: Prefix, oid: Oid) {
    forall i: nat :: var k := Key(prefix, oid, i);
      (k in a <==> k in b) && (k in a ==> a[k] == b[k])
  }

  lemma {:induction false} WrittenAt(kv: Kv, prefix: Prefix, oid: Oid, bytes: Bytes, n: nat, k: Key)
    requires n <= ChunkCount(|bytes|)
    ensures var mine := k.prefix == prefix && k.oid == oid && k.index < n;
      && (k in Written(kv, prefix, oid, bytes, n) <==> k in kv || mine)
      && (mine ==> Written(kv, prefix, oid, bytes, n)[k] == Chunk(bytes, k.index))
      && (!mine && k in kv ==> Written(kv, prefix, oid, bytes, n)[k] == kv[k])
    decreases n
  {
    hide Chunk;
    if n > 0 {
      WrittenAt(kv, prefix, oid, bytes, n - 1, k);
    }
  }

  lemma PutHolds(kv: Kv, prefix: Prefix, oid: Oid, bytes: Bytes)
    ensures Holds(Put(kv, prefix, oid, bytes), prefix, oid, bytes)
  {
    hide Chunk, Written, ChunkCount;
    forall i: nat | i < ChunkCount(|bytes|)
      ensures var k := Key(prefix, oid, i);
        k in Put(kv, prefix, oid, bytes) && Put(kv, prefix, oid, bytes)[k] == Chunk(bytes, i)
    {
      WrittenAt(kv, prefix, oid, bytes, ChunkCount(|bytes|), Key(prefix, oid, i));
    }
  }

  lemma PutAt(kv: Kv, prefix: Prefix, oid: Oid, bytes: Bytes, k: Key)
    ensures var mine := k.prefix == prefix && k.oid == oid && k.index < ChunkCount(|bytes|);
      && (k in Put(kv, prefix, oid, bytes) <==> k in kv || mine)
      && (!mine && k in kv ==> Put(kv, prefix, oid, bytes)[k] == kv[k])
  {
    hide Chunk, ChunkCount;
    WrittenAt(kv, prefix, oid, bytes, ChunkCount(|bytes|), k);
  }

  lemma IsChunk(bytes: Bytes, index: nat)
    requires index < ChunkCount(|bytes|)
    ensures bytes[index * CHUNK_BYTES..Least(index * CHUNK_BYTES + CHUNK_BYTES, |bytes|)] == Chunk(bytes, index)
  {
  }

  method WriteChunks(kv: Kv, prefix: Prefix, oid: Oid, bytes: Bytes) returns (after: Kv)
    ensures after == Put(kv, prefix, oid, bytes)
  {
    hide Chunk;
    after := kv;
    var index: nat := 0;
    while index * CHUNK_BYTES < |bytes|
      invariant index <= ChunkCount(|bytes|)
      invariant after == Written(kv, prefix, oid, bytes, index)
      decreases ChunkCount(|bytes|) - index
    {
      var at := index * CHUNK_BYTES;
      var chunk := bytes[at..Least(at + CHUNK_BYTES, |bytes|)];
      IsChunk(bytes, index);
      after := after[Key(prefix, oid, index) := chunk];
      index := index + 1;
    }
  }

  /** The same loop, stopped anywhere between two writes. */
  method WriteSomeChunks(kv: Kv, prefix: Prefix, oid: Oid, bytes: Bytes) returns (after: Kv, index: nat)
    ensures index <= ChunkCount(|bytes|) && after == Written(kv, prefix, oid, bytes, index)
  {
    hide Chunk;
    after, index := kv, 0;
    while index * CHUNK_BYTES < |bytes|
      invariant index <= ChunkCount(|bytes|)
      invariant after == Written(kv, prefix, oid, bytes, index)
      decreases ChunkCount(|bytes|) - index
    {
      var stopped: bool := *;
      if stopped {
        return;
      }
      var at := index * CHUNK_BYTES;
      IsChunk(bytes, index);
      after := after[Key(prefix, oid, index) := bytes[at..Least(at + CHUNK_BYTES, |bytes|)]];
      index := index + 1;
    }
  }

  method DeleteChunks(kv: Kv, prefix: Prefix, oid: Oid, count: nat) returns (after: Kv)
    ensures after == Deleted(kv, prefix, oid, count)
  {
    after := kv;
    assert after == Deleted(kv, prefix, oid, 0);
    for index := 0 to count
      invariant after == Deleted(kv, prefix, oid, index)
    {
      after := after - {Key(prefix, oid, index)};
    }
  }

  // ---- Reading -------------------------------------------------------------------------------------

  datatype Outcome = Read(bytes: Bytes) | Missing(key: Key) | WrongSize

  ghost predicate AllThere(kv: Kv, prefix: Prefix, oid: Oid, count: nat) {
    forall i: nat :: i < count ==> Key(prefix, oid, i) in kv
  }

  /** The first `n` chunks, one after another. */
  ghost function Joined(kv: Kv, prefix: Prefix, oid: Oid, n: nat): Bytes
    requires AllThere(kv, prefix, oid, n)
    decreases n
  {
    if n == 0 then [] else Joined(kv, prefix, oid, n - 1) + kv[Key(prefix, oid, n - 1)]
  }

  /** What was written is what is read, at every length. */
  lemma {:induction false} JoinedIsWhole(kv: Kv, prefix: Prefix, oid: Oid, bytes: Bytes, n: nat)
    requires Holds(kv, prefix, oid, bytes) && n <= ChunkCount(|bytes|)
    ensures AllThere(kv, prefix, oid, n) && Joined(kv, prefix, oid, n) == bytes[..Least(n * CHUNK_BYTES, |bytes|)]
    decreases n
  {
    if n > 0 {
      JoinedIsWhole(kv, prefix, oid, bytes, n - 1);
      assert (n - 1) * CHUNK_BYTES < |bytes|;
      var end := Least(n * CHUNK_BYTES, |bytes|);
      assert bytes[..end] == bytes[..(n - 1) * CHUNK_BYTES] + bytes[(n - 1) * CHUNK_BYTES..end];
    }
  }

  /** Read `count` chunks into a buffer of the declared size. A single chunk is handed over as it
      is; a chunk that would not fit, and a buffer that is not filled, are errors. */
  method ReadChunks(kv: Kv, prefix: Prefix, oid: Oid, size: nat, count: nat) returns (r: Outcome)
    ensures r.Read? <==> AllThere(kv, prefix, oid, count) && |Joined(kv, prefix, oid, count)| == size
    ensures r.Read? ==> r.bytes == Joined(kv, prefix, oid, count)
    ensures r.Missing? ==> r.key.index < count && r.key !in kv
  {
    if count == 1 {
      var key := Key(prefix, oid, 0);
      if key !in kv {
        return Missing(key);
      }
      assert Joined(kv, prefix, oid, 0) == [];
      assert Joined(kv, prefix, oid, 1) == kv[key];
      return if |kv[key]| != size then WrongSize else Read(kv[key]);
    }
    var bytes := new byte[size];
    var at: nat := 0;
    for index := 0 to count
      invariant AllThere(kv, prefix, oid, index)
      invariant at <= size && bytes[..at] == Joined(kv, prefix, oid, index)
    {
      var key := Key(prefix, oid, index);
      if key !in kv {
        return Missing(key);
      }
      var chunk := kv[key];
      if at + |chunk| > size {
        JoinedGrows(kv, prefix, oid, index + 1, count);
        return WrongSize;
      }
      ghost var before := bytes[..at];
      forall i | 0 <= i < |chunk| {
        bytes[at + i] := chunk[i];
      }
      assert bytes[..at + |chunk|] == before + chunk;
      at := at + |chunk|;
    }
    if at != size {
      return WrongSize;
    }
    assert bytes[..at] == bytes[..];
    return Read(bytes[..]);
  }

  lemma {:induction false} JoinedGrows(kv: Kv, prefix: Prefix, oid: Oid, m: nat, n: nat)
    requires m <= n && AllThere(kv, prefix, oid, m)
    ensures AllThere(kv, prefix, oid, n) ==> |Joined(kv, prefix, oid, m)| <= |Joined(kv, prefix, oid, n)|
    decreases n
  {
    if m < n {
      JoinedGrows(kv, prefix, oid, m, n - 1);
    }
  }

  /** Reading what was written gives the bytes back, whatever else the store holds. */
  lemma WriteThenRead(kv: Kv, prefix: Prefix, oid: Oid, bytes: Bytes)
    ensures var after := Put(kv, prefix, oid, bytes);
      var n := ChunkCount(|bytes|);
      AllThere(after, prefix, oid, n) && Joined(after, prefix, oid, n) == bytes
  {
    hide Put;
    var n := ChunkCount(|bytes|);
    PutHolds(kv, prefix, oid, bytes);
    JoinedIsWhole(Put(kv, prefix, oid, bytes), prefix, oid, bytes, n);
    assert bytes == bytes[..Least(n * CHUNK_BYTES, |bytes|)];
  }
}
