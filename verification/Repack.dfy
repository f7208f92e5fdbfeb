/** The objects of a repository as they are kept over time: packs are accepted, objects reclaimed, and
    the repacker, one bounded pass over the reachable objects, gives some of them a delta against the
    last full one of their kind and size. */
module Repack {
  import opened Bits
  import opened Options
  import opened Graph
  import opened PackFormat
  import opened PackCoherence
  import opened PackWriter
  import Delta
  import PackFrames
  import PackReader
  import PackText
  import Sweep
  import RepositoryObject

  type Bucket = (Kind, nat)

  function BucketOf(o: Stored): Bucket {
    (o.kind, Delta.Bucket(|o.bytes|))
  }

  /** The objects that are stored and the candidate to be a base for each bucket. */
  datatype Store = Store(objects: Source, candidates: map<Bucket, Oid>)

  function Empty(): Store {
    Store(map[], map[])
  }

  /** A stored object is what its name means, and so is every form it is kept in; a delta gives it out
      of what its base's name means, whether that is stored or not. */
  ghost predicate Faithful(u: map<Oid, Content>, hash: Hash, n: Oid, o: Stored) {
    && n == hash(o.kind, o.bytes) && n in u && u[n] == Content(o.kind, o.bytes)
    && |o.bytes| <= Delta.MAX_OBJECT_BYTES
    && (o.full.Some? ==> Inflates(o.full.value, o.bytes))
    && (o.delta.Some? ==> FaithfulDelta(u, o, o.delta.value))
  }

  ghost predicate FaithfulDelta(u: map<Oid, Content>, o: Stored, d: Kept) {
    && DeltaGives(u, Content(o.kind, o.bytes), d.base, d.bytes)
    && (d.compressed.Some? ==> Inflates(d.compressed.value, d.bytes))
  }

  /** Candidates are full objects of their bucket. */
  predicate Candidates(s: Store) {
    forall b :: b in s.candidates ==>
      var c := s.candidates[b];
      c in s.objects && s.objects[c].delta.None? && BucketOf(s.objects[c]) == b
  }

  ghost predicate AllFaithful(u: map<Oid, Content>, hash: Hash, objects: Source) {
    && (forall n :: n in u ==> IsName(n))
    && (forall n :: n in objects ==> Faithful(u, hash, n, objects[n]))
  }

  ghost predicate Valid(u: map<Oid, Content>, hash: Hash, s: Store) {
    AllFaithful(u, hash, s.objects) && Candidates(s)
  }

  /** Such a store can be served from. */
  lemma FaithfulIsCoherent(u: map<Oid, Content>, hash: Hash, objects: Source)
    requires AllFaithful(u, hash, objects)
    ensures CoherentSource(objects, hash)
  {
    hide Inflates, Delta.Apply, IsName;
    forall n | n in objects
      ensures objects[n].delta.Some? ==> CoherentDelta(objects, objects[n], objects[n].delta.value)
    {
      assert Faithful(u, hash, n, objects[n]);
      if objects[n].delta.Some? && objects[n].delta.value.base in objects {
        var base := objects[n].delta.value.base;
        assert Faithful(u, hash, base, objects[base]);
      }
    }
    assert forall n :: n in objects ==> Faithful(u, hash, n, objects[n]);
  }

  // ---- Cycles ----------------------------------------------------------------------------------

  function Bases(objects: Source): map<Oid, Oid> {
    map n | n in objects && objects[n].delta.Some? :: objects[n].delta.value.base
  }

  /** Following bases from `x` ends within `n` steps. */
  predicate Grounded(bases: map<Oid, Oid>, x: Oid, n: nat)
    decreases n
  {
    x !in bases || (n > 0 && Grounded(bases, bases[x], n - 1))
  }

  ghost predicate Ends(bases: map<Oid, Oid>, x: Oid) {
    exists n: nat :: Grounded(bases, x, n)
  }

  ghost predicate Acyclic(bases: map<Oid, Oid>) {
    forall x :: Ends(bases, x)
  }

  /** A delta against an object that has none closes no cycle. */
  lemma {:induction false} InstallKeepsGrounded(bases: map<Oid, Oid>, x: Oid, base: Oid, y: Oid, n: nat)
    requires x !in bases && base !in bases && base != x && Grounded(bases, y, n)
    ensures Grounded(bases[x := base], y, n + 1)
    decreases n
  {
    var after := bases[x := base];
    if y == x {
      assert Grounded(after, base, n);
    } else if y in bases {
      InstallKeepsGrounded(bases, x, base, bases[y], n - 1);
    }
  }

  lemma InstallKeepsAcyclic(bases: map<Oid, Oid>, x: Oid, base: Oid)
    requires x !in bases && base !in bases && base != x && Acyclic(bases)
    ensures Acyclic(bases[x := base])
  {
    var after := bases[x := base];
    forall y
      ensures Ends(after, y)
    {
      assert Ends(bases, y);
      var n: nat :| Grounded(bases, y, n);
      InstallKeepsGrounded(bases, x, base, y, n);
    }
  }

  // ---- What else happens to the store ------------------------------------------------------------

  /** A new object is stored as it arrived; one that is here stays. */
  function Write(s: Store, x: Oid, o: Stored): Store {
    if x in s.objects then s else s.(objects := s.objects[x := o])
  }

  /** An object goes with its delta and its candidacy. */
  function Reclaim(s: Store, x: Oid): Store {
    Store(s.objects - {x}, map b | b in s.candidates && s.candidates[b] != x :: s.candidates[b])
  }

  /** What the pack reader sees of the store: types and bytes. */
  function Seen(objects: Source): Objects {
    map n | n in objects :: PackObject(objects[n].kind, objects[n].bytes, None, [])
  }

  /** An object as the reader stores it: the stream it arrived in stands for its delta if it has one,
      and else for itself. */
  function StoredFrom(o: PackObject): Stored {
    if o.delta.None? then Stored(o.kind, o.bytes, Some(o.compressed), None)
    else Stored(o.kind, o.bytes, None, Some(Kept(o.delta.value.base, o.delta.value.bytes, Some(o.compressed))))
  }

  /** The store once a pack that reads as `after` was accepted. */
  function Accept(s: Store, after: Objects): Store {
    s.(objects := map n | n in after :: if n in s.objects then s.objects[n] else StoredFrom(after[n]))
  }

  /** Whatever sound objects arrive, every delta stays coherent: those that were retained, though their bases
      may have been reclaimed meanwhile and may return now, and those that arrived. */
  lemma ArrivalKeepsValid(u: map<Oid, Content>, hash: Hash, s: Store, after: Objects)
    requires Valid(u, hash, s) && AddsSound(u, hash, Seen(s.objects), after)
    ensures Valid(u, hash, Accept(s, after))
  {
    hide Inflates, Delta.Apply, BucketOf, IsName;
    var seen, t := Seen(s.objects), Accept(s, after);
    forall n | n in t.objects
      ensures Faithful(u, hash, n, t.objects[n])
    {
      if n in s.objects {
        assert Faithful(u, hash, n, s.objects[n]);
      } else {
        assert n !in seen && Sound(u, hash, n, after[n]);
      }
    }
    forall b | b in t.candidates
      ensures t.candidates[b] in t.objects && t.objects[t.candidates[b]] == s.objects[s.candidates[b]]
    {
      var c := s.candidates[b];
      assert c in seen && c in after;
    }
  }

  /** An accepted pack brings such objects, */
  lemma AcceptKeepsValid(
      u: map<Oid, Content>, hash: Hash, sha1: seq<byte> -> seq<byte>, s: Store, pack: seq<byte>)
    requires Valid(u, hash, s)
    requires ReadPack(pack, Seen(s.objects), hash, sha1).Ok?
    requires Known(u, ReadPack(pack, Seen(s.objects), hash, sha1).value)
    ensures Valid(u, hash, Accept(s, ReadPack(pack, Seen(s.objects), hash, sha1).value))
  {
    hide Valid, Accept, ReadPack, Known, AddsSound;
    PackAddsSound(u, pack, Seen(s.objects), hash, sha1);
    ArrivalKeepsValid(u, hash, s, ReadPack(pack, Seen(s.objects), hash, sha1).value);
  }

  /** What a pack that was not accepted may leave in the store: some of what its first `n` entries gave. */
  ghost predicate Leaves(u: map<Oid, Content>, hash: Hash, before: Objects, pack: seq<byte>, n: nat, left: Objects) {
    var r := ReadEntries(pack, HEADER_BYTES, n, before, map[], hash);
    r.Ok? && Known(u, r.value.0) && Extends(before, left) && Extends(left, r.value.0)
  }

  /** and so does one that is refused, or whose reader dies, wherever it stops. */
  lemma RefusalKeepsValid(
      u: map<Oid, Content>, hash: Hash, s: Store, pack: seq<byte>, n: nat, left: Objects)
    requires Valid(u, hash, s) && Leaves(u, hash, Seen(s.objects), pack, n, left)
    ensures Valid(u, hash, Accept(s, left))
  {
    hide Valid, Accept, ReadEntries, Known, Sound;
    var seen := Seen(s.objects);
    EntriesAreSound(u, pack, HEADER_BYTES, n, seen, map[], hash);
    assert AddsSound(u, hash, seen, left);
    ArrivalKeepsValid(u, hash, s, left);
  }

  /** A name in the pack means what it always meant. */
  ghost predicate NamesKnown(u: map<Oid, Content>, hash: Hash, before: Objects, pack: seq<byte>) {
    forall n: nat, after ::
      n <= EntryCount(pack) && FirstEntries(pack, HEADER_BYTES, n, before, hash, after) ==> Known(u, after)
  }

  /** The reader leaves a store like that: all of it if the pack is accepted, and else what its first entries
      gave, or a part of that. */
  lemma ReaderLeaves(
      u: map<Oid, Content>, hash: Hash, sha1: seq<byte> -> seq<byte>, before: Objects, pack: seq<byte>,
      r: Result<nat>, stored: Objects)
    requires Extends(before, stored) && PackReader.PackEnds(pack, before, hash, sha1, r, stored)
    requires NamesKnown(u, hash, before, pack)
    ensures r.Ok? ==> ReadPack(pack, before, hash, sha1) == Ok(stored)
    ensures exists n :: Leaves(u, hash, before, pack, n, stored)
  {
    hide ReadEntries, Known, BigEndian;
    if r.Ok? {
      assert FirstEntries(pack, HEADER_BYTES, EntryCount(pack), before, hash, stored);
      assert Leaves(u, hash, before, pack, EntryCount(pack), stored);
    } else {
      var n: nat, after :| n <= EntryCount(pack) && FirstEntries(pack, HEADER_BYTES, n, before, hash, after) &&
        Extends(stored, after);
      assert Leaves(u, hash, before, pack, n, stored);
    }
  }

  /** One faithful object written alone keeps it too. */
  lemma WriteKeepsValid(u: map<Oid, Content>, hash: Hash, s: Store, x: Oid, o: Stored)
    requires Valid(u, hash, s) && Faithful(u, hash, x, o)
    ensures Valid(u, hash, Write(s, x, o))
  {
    hide Inflates, Delta.Apply, BucketOf, Faithful, IsName;
  }

  lemma ReclaimKeepsValid(u: map<Oid, Content>, hash: Hash, s: Store, x: Oid)
    requires Valid(u, hash, s)
    ensures Valid(u, hash, Reclaim(s, x)) && x !in Reclaim(s, x).objects
  {
    hide Inflates, Delta.Apply, BucketOf, Faithful, IsName;
  }

  /** Two pushes with a sweep between them can leave a cycle: the first object arrives as a
      delta against the second, the second is reclaimed, and arrives again as a delta against
      the first. Each delta is coherent; only the order of a pack has to look out. */
  lemma PushesCanCycle() returns (u: map<Oid, Content>, hash: Hash, a: Stored, b: Stored, s: Store)
    ensures Valid(u, hash, s) && Bases(s.objects) == map[1 := 2, 2 := 1]
    ensures Faithful(u, hash, 1, a) && Faithful(u, hash, 2, b)
    ensures var full := Stored(BlobKind, [7], None, None);
      && Faithful(u, hash, 2, full)
      && s == Write(Reclaim(Write(Write(Empty(), 2, full), 1, a), 2), 2, b)
  {
    hide Delta.Apply, Delta.Build;
    u := map[1 := Content(BlobKind, []), 2 := Content(BlobKind, [7])];
    hash := (kind: Kind, bytes: seq<byte>) => if bytes == [] then 1 else 2;
    Delta.ApplyUndoesBuild([7], []);
    Delta.ApplyUndoesBuild([], [7]);
    Delta.BuildIsBounded([7], []);
    Delta.BuildIsBounded([], [7]);
    SmallNames();
    a := Stored(BlobKind, [], None, Some(Kept(2, Delta.Build([7], []), None)));
    b := Stored(BlobKind, [7], None, Some(Kept(1, Delta.Build([], [7]), None)));
    s := Store(map[1 := a, 2 := b], map[]);
    var full := Stored(BlobKind, [7], None, None);
    var first := Write(Write(Empty(), 2, full), 1, a);
    assert first.objects == map[2 := full, 1 := a];
    assert Reclaim(first, 2).objects == map[1 := a];
  }

  lemma SmallNames()
    ensures IsName(1) && IsName(2)
  {
    Delta.PowersOf256();
    assert Delta.Pow256(1) == 256;
    PowersGrow(1, OID_BYTES);
  }

  lemma {:induction false} PowersGrow(m: nat, n: nat)
    requires m <= n
    ensures Delta.Pow256(m) <= Delta.Pow256(n)
    decreases n
  {
    if m < n {
      PowersGrow(m, n - 1);
    }
  }

  // ---- The repacker's turn -------------------------------------------------------------------------

  datatype Pass = Pass(version: nat, cursor: Option<Oid>, completed: bool)

  datatype Phase = Waiting | Select | Complete

  /** An object with the compressed forms it will be served in. */
  function Cached(o: Stored, deflate: seq<byte> -> seq<byte>): (r: Stored)
    ensures r.kind == o.kind && r.bytes == o.bytes && r.full.Some?
    ensures r.delta.Some? <==> o.delta.Some?
    ensures o.delta.Some? ==> r.delta.value.base == o.delta.value.base && r.delta.value.bytes == o.delta.value.bytes
  {
    var full := if o.full.Some? then o.full else Some(deflate(o.bytes));
    var delta := if o.delta.Some? && o.delta.value.compressed.None?
                 then Some(o.delta.value.(compressed := Some(deflate(o.delta.value.bytes)))) else o.delta;
    o.(full := full, delta := delta)
  }

  /** A delta has to be an eighth smaller than the object, with room for the base's name. */
  predicate Worth(delta: seq<byte>, full: seq<byte>) {
    8 * |delta| + 160 < 7 * |full|
  }

  /** The base an object is given: the candidate of its bucket, if it has no delta yet, the candidate
      is another object, the two fit the memory budget, and the delta is worth it. */
  function BaseFor(s: Store, x: Oid, deflate: seq<byte> -> seq<byte>): (base: Option<Oid>)
    requires x in s.objects && Candidates(s)
    ensures base.Some? ==> base.value in s.objects
  {
    var o := Cached(s.objects[x], deflate);
    var bucket := BucketOf(o);
    if o.delta.Some? || bucket !in s.candidates || s.candidates[bucket] == x then None
    else
      var base := s.objects[s.candidates[bucket]].bytes;
      if Delta.EstimateRepackDeltaMemory(|base|, |o.bytes|) <= Delta.REPACK_DELTA_MEMORY_BUDGET_BYTES
         && Worth(deflate(Delta.Build(base, o.bytes)), o.full.value) then Some(s.candidates[bucket])
      else None
  }

  function Installed(o: Stored, c: Oid, base: Stored, deflate: seq<byte> -> seq<byte>): Stored {
    var delta := Delta.Build(base.bytes, o.bytes);
    o.(delta := Some(Kept(c, delta, Some(deflate(delta)))))
  }

  /** What the repacker makes of one object: a delta against such a base, or, if it has no delta, the
      candidate of its bucket. `room` says whether the store has space left for a delta. */
  function Turned(s: Store, x: Oid, deflate: seq<byte> -> seq<byte>, room: bool): Store
    requires x in s.objects && Candidates(s)
  {
    var o := Cached(s.objects[x], deflate);
    var base := BaseFor(s, x, deflate);
    if base.Some? && room then
      s.(objects := s.objects[x := Installed(o, base.value, s.objects[base.value], deflate)])
    else if o.delta.Some? then s.(objects := s.objects[x := o])
    else Store(s.objects[x := o], s.candidates[BucketOf(o) := x])
  }

  lemma BaseWillDo(s: Store, x: Oid, deflate: seq<byte> -> seq<byte>)
    requires x in s.objects && Candidates(s)
    ensures var o, base := Cached(s.objects[x], deflate), BaseFor(s, x, deflate);
      base.Some? ==>
        && o.delta.None? && base.value != x && s.objects[base.value].delta.None?
        && BucketOf(o) in s.candidates && s.candidates[BucketOf(o)] == base.value
        && BucketOf(s.objects[base.value]) == BucketOf(o)
        && Delta.EstimateRepackDeltaMemory(|s.objects[base.value].bytes|, |o.bytes|)
           <= Delta.REPACK_DELTA_MEMORY_BUDGET_BYTES
  {
    hide Delta.Build, Delta.EstimateRepackDeltaMemory, BucketOf, Cached, Worth;
  }

  /** The size lies between this power of two and the next. */
  predicate InBucket(size: nat, b: nat) {
    if size == 0 then b == 0 else Shl(1, b) <= size < Shl(1, b + 1)
  }

  /** The candidate of the object's type and power of two, if that is not the object itself, the two fit into 96 MiB
      with their delta, and the compressed delta with the twenty bytes of its base's name is less than seven eighths
      of the compressed object. */
  predicate WillDo(s: Store, x: Oid, b: nat, c: Oid, z: seq<byte>, full: seq<byte>)
    requires x in s.objects
  {
    var o := s.objects[x];
    && (o.kind, b) in s.candidates && s.candidates[(o.kind, b)] == c && c != x && c in s.objects
    && InBucket(|o.bytes|, b)
    && Delta.EstimateRepackDeltaMemory(|s.objects[c].bytes|, |o.bytes|) <= 100663296
    && 8 * (|z| + 20) < 7 * |full|
  }

  /** What the object will be served as in full. */
  function FullForm(o: Stored, deflate: seq<byte> -> seq<byte>): seq<byte> {
    if o.full.Some? then o.full.value else deflate(o.bytes)
  }

  lemma {:induction false} BucketIsUnique(size: nat, b: nat)
    requires InBucket(size, b)
    ensures Delta.Bucket(size) == b
    decreases b
  {
    if size > 1 {
      assert b > 0 && Shl(1, b) == 2 * Shl(1, b - 1);
      BucketIsUnique(size / 2, b - 1);
    } else if b > 0 {
      PowerIsLarge(b);
    }
  }

  lemma {:induction false} PowerIsLarge(b: nat)
    requires b > 0
    ensures Shl(1, b) >= 2
  {
    if b > 1 {
      PowerIsLarge(b - 1);
    }
  }

  /** A turn gives an object a delta exactly if it has none, there is room, and such a base; and then it is the one
      built against it, ready to be served. Otherwise an object without one becomes the candidate. */
  lemma DeltaIsGivenIff(s: Store, x: Oid, b: nat, c: Oid, deflate: seq<byte> -> seq<byte>, room: bool)
    requires x in s.objects && Candidates(s) && c in s.objects && s.objects[x].delta.None?
    ensures var o, t := s.objects[x], Turned(s, x, deflate, room);
      var delta := Delta.Build(s.objects[c].bytes, o.bytes);
      var gets := room && WillDo(s, x, b, c, deflate(delta), FullForm(o, deflate));
      && (gets ==> t.objects[x].delta == Some(Kept(c, delta, Some(deflate(delta)))) && t.candidates == s.candidates)
      && (t.objects[x].delta.Some? && t.objects[x].delta.value.base == c && b == Delta.Bucket(|o.bytes|) ==> gets)
      && (t.objects[x].delta.None? ==> t.candidates == s.candidates[BucketOf(o) := x])
  {
    hide Delta.Build, Delta.EstimateRepackDeltaMemory;
    var o := s.objects[x];
    if |o.bytes| > 0 {
      Delta.BucketRange(|o.bytes|);
    }
    if InBucket(|o.bytes|, b) {
      BucketIsUnique(|o.bytes|, b);
    }
  }

  lemma {:induction false} RestGrows(m: nat, n: nat)
    requires m <= n
    ensures |PackFrames.SizeRest(m)| <= |PackFrames.SizeRest(n)|
  {
    if m > 0 {
      RestGrows(m / 128, n / 128);
    }
  }

  lemma HeaderIsHardlyLonger(delta: nat, size: nat, a: nat, b: nat)
    requires delta <= size + (size + 126) / 127 + 32 && a < 8 && b < 8
    ensures |PackFrames.EntryHeader(a, delta)| <= 1 + |PackFrames.EntryHeader(b, size)|
  {
    var m, n := delta / 16, size / 16;
    assert m / 128 <= n;
    RestGrows(m / 128, n);
  }

  /** Whatever delta is given makes the object's entry shorter in every pack, header and base name included. */
  lemma DeltaIsShorter(s: Store, x: Oid, deflate: seq<byte> -> seq<byte>, room: bool)
    requires x in s.objects && Candidates(s) && s.objects[x].delta.None?
    requires forall n :: n in s.objects ==> |s.objects[n].bytes| <= Delta.MAX_OBJECT_BYTES
    ensures var t := Turned(s, x, deflate, room).objects[x];
      t.delta.Some? ==>
        && t.full.Some? && t.delta.value.compressed.Some?
        && |EntryBytes(PackText.DeltaOf(t.delta.value.base, t.delta.value.bytes, t.delta.value.compressed.value))|
           < |EntryBytes(PackText.Full(t.kind, t.bytes, t.full.value))|
  {
    hide Delta.Build, Delta.EstimateRepackDeltaMemory, Delta.Bucket, NameBytes, PackFrames.EntryHeader;
    var o, t := s.objects[x], Turned(s, x, deflate, room).objects[x];
    if t.delta.Some? {
      var c := t.delta.value.base;
      Delta.BuildIsBounded(s.objects[c].bytes, o.bytes);
      HeaderIsHardlyLonger(|t.delta.value.bytes|, |o.bytes|, REF_DELTA, PackText.KindNumber(o.kind));
    }
  }

  lemma TurnKeepsCandidates(s: Store, x: Oid, deflate: seq<byte> -> seq<byte>, room: bool)
    requires x in s.objects && Candidates(s)
    ensures Candidates(Turned(s, x, deflate, room))
  {
    hide Delta.Build, Delta.EstimateRepackDeltaMemory, Delta.Bucket, Worth, BaseFor;
    BaseWillDo(s, x, deflate);
    BucketIsKept(s.objects[x], deflate);
  }

  lemma BucketIsKept(o: Stored, deflate: seq<byte> -> seq<byte>)
    ensures BucketOf(Cached(o, deflate)) == BucketOf(o)
  {
    hide Delta.Bucket;
  }

  lemma CachedIsFaithful(u: map<Oid, Content>, hash: Hash, x: Oid, o: Stored, deflate: seq<byte> -> seq<byte>)
    requires Faithful(u, hash, x, o) && Deflates(deflate)
    ensures Faithful(u, hash, x, Cached(o, deflate))
  {
    hide Inflates, Delta.Apply;
  }

  /** A delta against a candidate applies, is of one type with its base, and fits an entry. */
  lemma InstallIsFaithful(
      u: map<Oid, Content>, hash: Hash, x: Oid, o: Stored, c: Oid, base: Stored, deflate: seq<byte> -> seq<byte>)
    requires Faithful(u, hash, x, o) && Deflates(deflate)
    requires Faithful(u, hash, c, base) && BucketOf(base) == BucketOf(o)
    requires Delta.EstimateRepackDeltaMemory(|base.bytes|, |o.bytes|) <= Delta.REPACK_DELTA_MEMORY_BUDGET_BYTES
    ensures Faithful(u, hash, x, Installed(o, c, base, deflate))
    ensures |Installed(o, c, base, deflate).delta.value.bytes| <= Delta.MAX_OBJECT_BYTES
  {
    hide Inflates, Delta.Apply, Delta.Build, Delta.EstimateRepackDeltaMemory, Delta.Bucket;
    Delta.RepackedDeltaIsReadable(base.bytes, o.bytes);
  }

  lemma PutIsFaithful(u: map<Oid, Content>, hash: Hash, objects: Source, x: Oid, o: Stored)
    requires AllFaithful(u, hash, objects) && Faithful(u, hash, x, o)
    ensures AllFaithful(u, hash, objects[x := o])
  {
    hide Faithful, IsName;
  }

  lemma TurnIsFaithful(
      u: map<Oid, Content>, hash: Hash, s: Store, x: Oid, deflate: seq<byte> -> seq<byte>, room: bool)
    requires Valid(u, hash, s) && x in s.objects && Deflates(deflate)
    ensures Valid(u, hash, Turned(s, x, deflate, room))
  {
    hide BaseFor, Delta.EstimateRepackDeltaMemory, BucketOf, Faithful, Cached, IsName, Installed, Candidates, Deflates;
    TurnKeepsCandidates(s, x, deflate, room);
    var o, base := Cached(s.objects[x], deflate), BaseFor(s, x, deflate);
    BaseWillDo(s, x, deflate);
    assert Faithful(u, hash, x, s.objects[x]);
    CachedIsFaithful(u, hash, x, s.objects[x], deflate);
    PutIsFaithful(u, hash, s.objects, x, o);
    if base.Some? {
      InstallIsFaithful(u, hash, x, o, base.value, s.objects[base.value], deflate);
      PutIsFaithful(u, hash, s.objects, x, Installed(o, base.value, s.objects[base.value], deflate));
    }
  }

  /** A turn adds a delta only where there was none and only against a full object, so it adds no
      cycle. */
  lemma TurnAddsNoCycle(s: Store, x: Oid, deflate: seq<byte> -> seq<byte>, room: bool)
    requires x in s.objects && Candidates(s)
    ensures var before, after := Bases(s.objects), Bases(Turned(s, x, deflate, room).objects);
      && (Acyclic(before) ==> Acyclic(after))
      && (after != before ==>
            && x !in before && x in after && after == before[x := after[x]]
            && after[x] in s.objects && s.objects[after[x]].delta.None?)
  {
    hide BaseFor, Delta.Build, Delta.EstimateRepackDeltaMemory, BucketOf, Acyclic;
    var base := BaseFor(s, x, deflate);
    BaseWillDo(s, x, deflate);
    var before, after := Bases(s.objects), Bases(Turned(s, x, deflate, room).objects);
    if base.Some? && room {
      assert after == before[x := base.value];
      if Acyclic(before) {
        InstallKeepsAcyclic(before, x, base.value);
      }
    } else {
      assert after == before;
    }
  }

  lemma TurnGrows(s: Store, x: Oid, deflate: seq<byte> -> seq<byte>, room: bool)
    requires x in s.objects && Candidates(s)
    ensures Grows(s.objects, Turned(s, x, deflate, room).objects)
  {
    hide BaseFor, Delta.Build, BucketOf;
    BaseWillDo(s, x, deflate);
  }

  /** The same objects, with every delta they had. */
  ghost predicate Grows(before: Source, after: Source) {
    && after.Keys == before.Keys
    && forall n :: n in before ==>
      && after[n].kind == before[n].kind && after[n].bytes == before[n].bytes
      && (before[n].delta.Some? ==>
            && after[n].delta.Some?
            && after[n].delta.value.base == before[n].delta.value.base
            && after[n].delta.value.bytes == before[n].delta.value.bytes)
  }

  // ---- Whole runs --------------------------------------------------------------------------------

  /** What may happen to a store: a pack is accepted; one is refused, or its reader dies, and leaves `left`; an
      object is reclaimed, or turned to by the repacker, which may also begin a new pass, or cached for a fetch. */
  datatype Change =
    | Accepted(pack: seq<byte>)
    | Refused(pack: seq<byte>, n: nat, left: Objects)
    | Reclaimed(x: Oid)
    | Repacked(x: Oid, room: bool)
    | Begun
    | Served(x: Oid)

  /** Nothing is asked of a pack; a name means the same object each time. */
  ghost predicate Allowed(u: map<Oid, Content>, hash: Hash, sha1: seq<byte> -> seq<byte>, s: Store, c: Change) {
    match c
    case Accepted(pack) =>
      var r := ReadPack(pack, Seen(s.objects), hash, sha1);
      r.Ok? && Known(u, r.value)
    case Refused(pack, n, left) => Leaves(u, hash, Seen(s.objects), pack, n, left)
    case Reclaimed(_) => true
    case Repacked(x, _) => x in s.objects && Candidates(s)
    case Begun => true
    case Served(x) => x in s.objects
  }

  ghost function Changed(
      u: map<Oid, Content>, hash: Hash, sha1: seq<byte> -> seq<byte>, deflate: seq<byte> -> seq<byte>, s: Store,
      c: Change): Store
    requires Allowed(u, hash, sha1, s, c)
  {
    match c
    case Accepted(pack) => Accept(s, ReadPack(pack, Seen(s.objects), hash, sha1).value)
    case Refused(_, _, left) => Accept(s, left)
    case Reclaimed(x) => Reclaim(s, x)
    case Repacked(x, room) => Turned(s, x, deflate, room)
    case Begun => s.(candidates := map[])
    case Served(x) => s.(objects := s.objects[x := Cached(s.objects[x], deflate)])
  }

  /** An object as a fork copies it: with its delta, if the base was copied before, or in full. */
  function Copy(o: Stored, withDelta: bool, deflate: seq<byte> -> seq<byte>): Stored {
    if withDelta && o.delta.Some? then
      Stored(o.kind, o.bytes, None, Some(Kept(o.delta.value.base, o.delta.value.bytes, None)))
    else Stored(o.kind, o.bytes, Some(deflate(o.bytes)), None)
  }

  /** All the repositories there are. */
  type World = map<nat, Store>

  /** What may happen to them: one is made, one goes, one changes, or one gets a copy of another's object. */
  datatype Event =
    | Made(repo: nat)
    | Gone(repo: nat)
    | In(repo: nat, change: Change)
    | Copied(repo: nat, from: nat, x: Oid, withDelta: bool)

  ghost predicate May(u: map<Oid, Content>, hash: Hash, sha1: seq<byte> -> seq<byte>, w: World, e: Event) {
    match e
    case Made(repo) => repo !in w
    case Gone(_) => true
    case In(repo, change) => repo in w && Allowed(u, hash, sha1, w[repo], change)
    case Copied(repo, from, x, _) => repo in w && from in w && x in w[from].objects
  }

  ghost function Then(
      u: map<Oid, Content>, hash: Hash, sha1: seq<byte> -> seq<byte>, deflate: seq<byte> -> seq<byte>, w: World,
      e: Event): World
    requires May(u, hash, sha1, w, e)
  {
    match e
    case Made(repo) => w[repo := Empty()]
    case Gone(repo) => w - {repo}
    case In(repo, change) => w[repo := Changed(u, hash, sha1, deflate, w[repo], change)]
    case Copied(repo, from, x, withDelta) =>
      w[repo := Write(w[repo], x, Copy(w[from].objects[x], withDelta, deflate))]
  }

  ghost predicate Leads(
      u: map<Oid, Content>, hash: Hash, sha1: seq<byte> -> seq<byte>, deflate: seq<byte> -> seq<byte>, w: World,
      events: seq<Event>, after: World)
    decreases |events|
  {
    if events == [] then after == w
    else
      May(u, hash, sha1, w, events[0]) &&
      Leads(u, hash, sha1, deflate, Then(u, hash, sha1, deflate, w, events[0]), events[1..], after)
  }

  ghost predicate AllValid(u: map<Oid, Content>, hash: Hash, w: World) {
    forall repo :: repo in w ==> Valid(u, hash, w[repo])
  }

  lemma EmptyIsValid(u: map<Oid, Content>, hash: Hash)
    requires forall n :: n in u ==> IsName(n)
    ensures Valid(u, hash, Empty())
  {
    hide IsName, Faithful, BucketOf;
  }

  lemma ServedKeepsValid(u: map<Oid, Content>, hash: Hash, s: Store, x: Oid, deflate: seq<byte> -> seq<byte>)
    requires Valid(u, hash, s) && x in s.objects && Deflates(deflate)
    ensures Valid(u, hash, s.(objects := s.objects[x := Cached(s.objects[x], deflate)]))
  {
    hide Faithful, Cached, BucketOf, IsName, Deflates;
    assert Faithful(u, hash, x, s.objects[x]);
    CachedIsFaithful(u, hash, x, s.objects[x], deflate);
    BucketIsKept(s.objects[x], deflate);
  }

  lemma ForgetCandidates(u: map<Oid, Content>, hash: Hash, s: Store)
    requires Valid(u, hash, s)
    ensures Valid(u, hash, s.(candidates := map[]))
  {
  }

  lemma ChangeKeepsValid(
      u: map<Oid, Content>, hash: Hash, sha1: seq<byte> -> seq<byte>, deflate: seq<byte> -> seq<byte>, s: Store,
      c: Change)
    requires Valid(u, hash, s) && Allowed(u, hash, sha1, s, c) && Deflates(deflate)
    ensures Valid(u, hash, Changed(u, hash, sha1, deflate, s, c))
  {
    hide Valid, Faithful, Accept, Reclaim, Turned, Cached, ReadPack, Known, Deflates, Leaves;
    match c
    case Accepted(pack) => AcceptKeepsValid(u, hash, sha1, s, pack);
    case Refused(pack, n, left) => RefusalKeepsValid(u, hash, s, pack, n, left);
    case Reclaimed(x) => ReclaimKeepsValid(u, hash, s, x);
    case Repacked(x, room) => TurnIsFaithful(u, hash, s, x, deflate, room);
    case Begun => ForgetCandidates(u, hash, s);
    case Served(x) => ServedKeepsValid(u, hash, s, x, deflate);
  }

  /** A copy is as good as its original: in another store its delta waits for the base of the same name. */
  lemma CopyIsFaithful(
      u: map<Oid, Content>, hash: Hash, x: Oid, o: Stored, withDelta: bool, deflate: seq<byte> -> seq<byte>)
    requires Faithful(u, hash, x, o) && Deflates(deflate)
    ensures Faithful(u, hash, x, Copy(o, withDelta, deflate))
  {
    hide Inflates, Delta.Apply;
  }

  lemma EventKeepsValid(
      u: map<Oid, Content>, hash: Hash, sha1: seq<byte> -> seq<byte>, deflate: seq<byte> -> seq<byte>, w: World,
      e: Event)
    requires (forall n :: n in u ==> IsName(n)) && Deflates(deflate)
    requires AllValid(u, hash, w) && May(u, hash, sha1, w, e)
    ensures AllValid(u, hash, Then(u, hash, sha1, deflate, w, e))
  {
    hide Candidates, Faithful, Changed, Allowed, Write, Copy, Deflates, IsName;
    match e
    case Made(_) => EmptyIsValid(u, hash);
    case Gone(_) =>
    case In(repo, change) => ChangeKeepsValid(u, hash, sha1, deflate, w[repo], change);
    case Copied(repo, from, x, withDelta) =>
      assert Valid(u, hash, w[from]) && Faithful(u, hash, x, w[from].objects[x]);
      CopyIsFaithful(u, hash, x, w[from].objects[x], withDelta, deflate);
      WriteKeepsValid(u, hash, w[repo], x, Copy(w[from].objects[x], withDelta, deflate));
  }

  lemma {:induction false} RunKeepsValid(
      u: map<Oid, Content>, hash: Hash, sha1: seq<byte> -> seq<byte>, deflate: seq<byte> -> seq<byte>, w: World,
      events: seq<Event>, after: World)
    requires (forall n :: n in u ==> IsName(n)) && Deflates(deflate)
    requires AllValid(u, hash, w) && Leads(u, hash, sha1, deflate, w, events, after)
    ensures AllValid(u, hash, after)
    decreases |events|
  {
    hide AllValid, May, Then, Deflates, IsName;
    if events != [] {
      EventKeepsValid(u, hash, sha1, deflate, w, events[0]);
      RunKeepsValid(u, hash, sha1, deflate, Then(u, hash, sha1, deflate, w, events[0]), events[1..], after);
    }
  }

  /** After any packs accepted or refused, forks, reclaims and repacking, in any order, every store can be served
      from: names mean their objects, caches hold what they stand for, and every delta whose base is stored
      applies. */
  lemma AlwaysCoherent(
      u: map<Oid, Content>, hash: Hash, sha1: seq<byte> -> seq<byte>, deflate: seq<byte> -> seq<byte>,
      events: seq<Event>, w: World, repo: nat)
    requires (forall n :: n in u ==> IsName(n)) && Deflates(deflate)
    requires Leads(u, hash, sha1, deflate, map[], events, w) && repo in w
    ensures AllFaithful(u, hash, w[repo].objects) && CoherentSource(w[repo].objects, hash)
  {
    hide Leads, Deflates, IsName, CoherentSource, Faithful, Candidates;
    RunKeepsValid(u, hash, sha1, deflate, map[], events, w);
    assert Valid(u, hash, w[repo]);
    FaithfulIsCoherent(u, hash, w[repo].objects);
  }

  /** In particular a delta gives its object, out of a base of the object's own type, even when the base
      was reclaimed and came back. */
  lemma DeltasAlwaysApply(
      u: map<Oid, Content>, hash: Hash, sha1: seq<byte> -> seq<byte>, deflate: seq<byte> -> seq<byte>,
      events: seq<Event>, w: World, repo: nat, x: Oid)
    requires (forall n :: n in u ==> IsName(n)) && Deflates(deflate)
    requires Leads(u, hash, sha1, deflate, map[], events, w) && repo in w && x in w[repo].objects
    requires var o := w[repo].objects[x]; o.delta.Some? && o.delta.value.base in w[repo].objects
    ensures var o := w[repo].objects[x];
      var base := w[repo].objects[o.delta.value.base];
      base.kind == o.kind && Delta.Apply(base.bytes, o.delta.value.bytes) == Delta.Ok(o.bytes)
  {
    hide Leads, Deflates, IsName, Delta.Apply, Inflates, AllFaithful;
    AlwaysCoherent(u, hash, sha1, deflate, events, w, repo);
    var objects := w[repo].objects;
    assert CoherentDelta(objects, objects[x], objects[x].delta.value);
  }

  // ---- The repacker --------------------------------------------------------------------------------

  /** The turns of several objects, in order. */
  ghost function TurnedAll(s: Store, rows: seq<Oid>, deflate: seq<byte> -> seq<byte>, room: Oid -> bool): (r: Store)
    requires Candidates(s) && forall x :: x in rows ==> x in s.objects
    ensures Candidates(r) && r.objects.Keys == s.objects.Keys
    decreases |rows|
  {
    if rows == [] then s
    else
      var x := rows[|rows| - 1];
      var before := TurnedAll(s, rows[..|rows| - 1], deflate, room);
      TurnKeepsCandidates(before, x, deflate, room(x));
      TurnGrows(before, x, deflate, room(x));
      Turned(before, x, deflate, room(x))
  }

  lemma GrowsOn(a: Source, b: Source, c: Source)
    requires Grows(a, b) && Grows(b, c)
    ensures Grows(a, c)
  {
  }

  lemma {:induction false} TurnsAreSafe(
      u: map<Oid, Content>, hash: Hash, s: Store, rows: seq<Oid>, deflate: seq<byte> -> seq<byte>, room: Oid -> bool)
    requires Valid(u, hash, s) && (forall x :: x in rows ==> x in s.objects) && Deflates(deflate)
    ensures var after := TurnedAll(s, rows, deflate, room);
      && Valid(u, hash, after) && (Acyclic(Bases(s.objects)) ==> Acyclic(Bases(after.objects)))
      && Grows(s.objects, after.objects)
    decreases |rows|
  {
    hide Turned, Acyclic, Bases, AllFaithful, Deflates, Candidates, Grows;
    if rows == [] {
      GrowsAtFirst(s.objects);
    } else {
      var x := rows[|rows| - 1];
      var before := TurnedAll(s, rows[..|rows| - 1], deflate, room);
      TurnsAreSafe(u, hash, s, rows[..|rows| - 1], deflate, room);
      TurnIsFaithful(u, hash, before, x, deflate, room(x));
      TurnAddsNoCycle(before, x, deflate, room(x));
      TurnGrows(before, x, deflate, room(x));
      GrowsOn(s.objects, before.objects, TurnedAll(s, rows, deflate, room).objects);
    }
  }

  lemma GrowsAtFirst(objects: Source)
    ensures Grows(objects, objects)
  {
  }

  /** The last sweep finished, and no ref moved since. */
  predicate Settled(version: Option<nat>, sweep: Option<Sweep.Checkpoint>) {
    version.Some? && sweep.Some? && sweep.value.phase == Sweep.Swept && sweep.value.version == version.value
  }

  function Remaining(stored: set<Oid>, reached: set<Oid>, cursor: Option<Oid>): set<Oid> {
    set x | x in reached && x in stored && (cursor.None? || x > cursor.value)
  }

  /** What one turn does once a sweep settled the repository. */
  ghost predicate Turn(
      before: Store, pass: Option<Pass>, version: nat, reached: set<Oid>, batchSize: nat,
      deflate: seq<byte> -> seq<byte>, room: Oid -> bool, rows: seq<Oid>, after: Store, next: Option<Pass>,
      phase: Phase)
  {
    var goesOn := pass.Some? && pass.value.version == version;
    var current := if goesOn then pass.value else Pass(version, None, false);
    var start := if goesOn then before else before.(candidates := map[]);
    if current.completed then phase == Complete && rows == [] && after == start && next == Some(current)
    else
      && RepositoryObject.IsBatch(Remaining(before.objects.Keys, reached, current.cursor), batchSize, rows)
      && Candidates(start) && after == TurnedAll(start, rows, deflate, room)
      && next == Some(
           Pass(version, if rows != [] then Some(rows[|rows| - 1]) else current.cursor, |rows| < batchSize))
      && phase == if |rows| < batchSize then Complete else Select
  }

  // ---- A whole pass --------------------------------------------------------------------------------

  datatype Done = Done(rows: seq<Oid>, room: Oid -> bool, after: Store, pass: Option<Pass>, phase: Phase)

  /** Turn after turn while the refs stay as they are. */
  ghost predicate Passes(
      before: Store, pass: Option<Pass>, version: nat, reached: set<Oid>, batchSize: nat,
      deflate: seq<byte> -> seq<byte>, turns: seq<Done>)
    decreases |turns|
  {
    turns != [] ==>
      var t := turns[0];
      && Turn(before, pass, version, reached, batchSize, deflate, t.room, t.rows, t.after, t.pass, t.phase)
      && Passes(t.after, t.pass, version, reached, batchSize, deflate, turns[1..])
  }

  function AllRows(turns: seq<Done>): seq<Oid> {
    if turns == [] then [] else turns[0].rows + AllRows(turns[1..])
  }

  lemma {:induction false} CompletedRests(
      before: Store, pass: Pass, version: nat, reached: set<Oid>, batchSize: nat, deflate: seq<byte> -> seq<byte>,
      turns: seq<Done>)
    requires pass.version == version && pass.completed
    requires Passes(before, Some(pass), version, reached, batchSize, deflate, turns)
    ensures AllRows(turns) == []
    decreases |turns|
  {
    hide TurnedAll, RepositoryObject.IsBatch, Candidates;
    if turns != [] {
      CompletedRests(turns[0].after, pass, version, reached, batchSize, deflate, turns[1..]);
    }
  }

  lemma TurnKeepsObjects(
      before: Store, pass: Pass, version: nat, reached: set<Oid>, batchSize: nat, deflate: seq<byte> -> seq<byte>,
      t: Done)
    requires pass.version == version
    requires Turn(before, Some(pass), version, reached, batchSize, deflate, t.room, t.rows, t.after, t.pass, t.phase)
    ensures t.after.objects.Keys == before.objects.Keys
  {
    hide RepositoryObject.IsBatch, Candidates;
  }

  predicate Ascending(rows: seq<Oid>) {
    forall i, j :: 0 <= i < j < |rows| ==> rows[i] < rows[j]
  }

  /** A batch and what is left behind it are what there was. */
  lemma BatchSplits(stored: set<Oid>, reached: set<Oid>, cursor: Option<Oid>, batchSize: nat, rows: seq<Oid>)
    requires RepositoryObject.IsBatch(Remaining(stored, reached, cursor), batchSize, rows) && batchSize > 0
    ensures Ascending(rows) && forall x :: x in rows ==> x in Remaining(stored, reached, cursor)
    ensures rows != [] ==>
      var last := rows[|rows| - 1];
      && (forall x :: x in rows ==> x <= last)
      && forall x :: x in Remaining(stored, reached, Some(last)) <==>
           x in Remaining(stored, reached, cursor) && x !in rows
    ensures |rows| < batchSize ==> forall x :: x in Remaining(stored, reached, cursor) ==> x in rows
  {
    if rows != [] {
      var last := rows[|rows| - 1];
      forall x | x in rows
        ensures x <= last
      {
        var i :| 0 <= i < |rows| && rows[i] == x;
      }
    }
  }

  lemma {:induction false} PassGoesOn(
      before: Store, pass: Pass, version: nat, reached: set<Oid>, batchSize: nat, deflate: seq<byte> -> seq<byte>,
      turns: seq<Done>)
    requires pass.version == version && !pass.completed && batchSize > 0 && turns != []
    requires Passes(before, Some(pass), version, reached, batchSize, deflate, turns)
    requires turns[|turns| - 1].phase.Complete?
    ensures Ascending(AllRows(turns))
    ensures forall x :: x in AllRows(turns) <==> x in Remaining(before.objects.Keys, reached, pass.cursor)
    decreases |turns|
  {
    hide TurnedAll, RepositoryObject.IsBatch, Candidates, Remaining;
    var t, rest := turns[0], turns[1..];
    var stored := before.objects.Keys;
    TurnKeepsObjects(before, pass, version, reached, batchSize, deflate, t);
    BatchSplits(stored, reached, pass.cursor, batchSize, t.rows);
    if t.phase.Complete? {
      CompletedRests(t.after, t.pass.value, version, reached, batchSize, deflate, rest);
      assert t.rows + [] == t.rows;
    } else {
      var last := t.rows[|t.rows| - 1];
      PassGoesOn(t.after, t.pass.value, version, reached, batchSize, deflate, rest);
      forall x | x in AllRows(rest)
        ensures x > last
      {
        AfterCursor(stored, reached, last, x);
      }
      AscendingJoin(t.rows, AllRows(rest));
    }
  }

  lemma AfterCursor(stored: set<Oid>, reached: set<Oid>, cursor: Oid, x: Oid)
    requires x in Remaining(stored, reached, Some(cursor))
    ensures x > cursor
  {
  }

  lemma AscendingJoin(a: seq<Oid>, b: seq<Oid>)
    requires Ascending(a) && Ascending(b) && forall x, y :: x in a && y in b ==> x < y
    ensures Ascending(a + b)
  {
    forall i, j | 0 <= i < j < |a + b|
      ensures (a + b)[i] < (a + b)[j]
    {
      if i < |a| <= j {
        assert a[i] in a && b[j - |a|] in b;
      }
    }
  }

  /** While the refs stay as they are, a pass turns every stored object that a ref reaches exactly once, in the order
      of their names, however the turns are cut. */
  lemma PassTurnsEachOnce(
      before: Store, pass: Option<Pass>, version: nat, reached: set<Oid>, batchSize: nat,
      deflate: seq<byte> -> seq<byte>, turns: seq<Done>)
    requires (pass.Some? ==> pass.value.version != version) && batchSize > 0 && turns != []
    requires Passes(before, pass, version, reached, batchSize, deflate, turns)
    requires turns[|turns| - 1].phase.Complete?
    ensures var rows := AllRows(turns);
      && (forall x :: x in rows <==> x in before.objects && x in reached)
      && forall i, j :: 0 <= i < j < |rows| ==> rows[i] < rows[j]
  {
    hide TurnedAll, RepositoryObject.IsBatch, Candidates;
    var start := before.(candidates := map[]);
    var t := turns[0];
    assert Turn(
      start, Some(Pass(version, None, false)), version, reached, batchSize, deflate, t.room, t.rows, t.after, t.pass,
      t.phase);
    PassGoesOn(start, Pass(version, None, false), version, reached, batchSize, deflate, turns);
  }

  class Repacker {
    ghost const u: map<Oid, Content>
    ghost const hash: Hash
    const deflate: seq<byte> -> seq<byte>
    var objects: Source
    var candidates: map<Bucket, Oid>
    var pass: Option<Pass>

    ghost function State(): Store
      reads this
    {
      Store(objects, candidates)
    }

    ghost predicate Ready()
      reads this
    {
      Valid(u, hash, State()) && Deflates(deflate)
    }

    constructor (ghost u: map<Oid, Content>, ghost hash: Hash, deflate: seq<byte> -> seq<byte>)
      requires (forall n :: n in u ==> IsName(n)) && Deflates(deflate)
      ensures Ready() && this.u == u && this.deflate == deflate && State() == Empty() && pass.None?
    {
      hide IsName, Inflates, Deflates, Faithful, BucketOf;
      this.u, this.hash, this.deflate := u, hash, deflate;
      objects, candidates, pass := map[], map[], None;
      new;
      EmptyIsValid(u, hash);
    }

    /** Caches the forms an object is served in, and gives it a delta or makes it a candidate. */
    method SelectOne(x: Oid, room: bool) returns (selected: bool)
      requires Candidates(State()) && x in objects
      modifies this`objects, this`candidates
      ensures State() == Turned(old(State()), x, deflate, room)
      ensures selected <==> Bases(objects) != Bases(old(objects))
    {
      hide Delta.Build, Delta.EstimateRepackDeltaMemory, Delta.Bucket;
      ghost var before := State();
      var o := Cached(objects[x], deflate);
      objects := objects[x := o];
      selected := false;
      if o.delta.Some? {
        assert Bases(objects) == Bases(before.objects);
        return;
      }
      var bucket := BucketOf(o);
      if bucket in candidates && candidates[bucket] != x {
        var c := candidates[bucket];
        var base := objects[c].bytes;
        if Delta.EstimateRepackDeltaMemory(|base|, |o.bytes|) <= Delta.REPACK_DELTA_MEMORY_BUDGET_BYTES {
          var delta := Delta.BuildRepackDelta(base, o.bytes);
          var compressed := deflate(delta);
          if 8 * |compressed| + 160 < 7 * |o.full.value| && room {
            objects := objects[x := o.(delta := Some(Kept(c, delta, Some(compressed))))];
            selected := true;
            assert x in Bases(objects) && x !in Bases(before.objects);
            return;
          }
        }
      }
      candidates := candidates[bucket := x];
      assert Bases(objects) == Bases(before.objects);
    }

    method SelectAll(rows: seq<Oid>, room: Oid -> bool)
      requires Ready() && forall x :: x in rows ==> x in objects
      modifies this`objects, this`candidates
      ensures Candidates(old(State())) && State() == TurnedAll(old(State()), rows, deflate, room)
    {
      hide AllFaithful, Turned, Candidates, Deflates, Bases;
      ghost var start := State();
      for i := 0 to |rows|
        invariant Candidates(start) && State() == TurnedAll(start, rows[..i], deflate, room)
      {
        assert rows[..i + 1][..i] == rows[..i];
        var selected := SelectOne(rows[i], room(rows[i]));
      }
      assert rows[..|rows|] == rows;
    }

    /** One bounded turn over the objects the last sweep reached, from where the last turn
        stopped; a pass begins anew, without candidates, once the refs have moved. */
    method Step(
        batchSize: nat, version: Option<nat>, sweep: Option<Sweep.Checkpoint>, reached: set<Oid>, room: Oid -> bool)
        returns (phase: Phase, rows: seq<Oid>)
      requires Ready() && batchSize > 0
      modifies this`objects, this`candidates, this`pass
      ensures Ready() && (old(Acyclic(Bases(objects))) ==> Acyclic(Bases(objects)))
      ensures Grows(old(objects), objects)
      ensures phase == Waiting <==>
        version.None? || sweep.None? || sweep.value.phase != Sweep.Swept || sweep.value.version != version.value
      ensures !Settled(version, sweep) ==> rows == [] && State() == old(State()) && pass == old(pass)
      ensures Settled(version, sweep) ==>
        Turn(old(State()), old(pass), version.value, reached, batchSize, deflate, room, rows, State(), pass, phase)
    {
      hide AllFaithful, Acyclic, TurnedAll, Candidates, Deflates, Bases, Grows;
      GrowsAtFirst(objects);
      if version.None? || sweep.None? || sweep.value.phase != Sweep.Swept || sweep.value.version != version.value {
        return Waiting, [];
      }
      if pass.None? || pass.value.version != version.value {
        ForgetCandidates(u, hash, State());
        candidates := map[];
        pass := Some(Pass(version.value, None, false));
      }
      if pass.value.completed {
        return Complete, [];
      }
      var current := pass.value;
      ghost var start := State();
      rows := RepositoryObject.FirstRows(Remaining(objects.Keys, reached, current.cursor), batchSize);
      TurnsAreSafe(u, hash, start, rows, deflate, room);
      SelectAll(rows, room);
      pass := Some(Pass(current.version, if rows != [] then Some(rows[|rows| - 1]) else current.cursor,
        |rows| < batchSize));
      phase := if |rows| < batchSize then Complete else Select;
    }
  }
}
