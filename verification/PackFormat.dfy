/** A pack as a whole: what its bytes say, entry by entry ("pack-*.pack files have the
    following format" and "Deltified representation" in gitformat-pack). */
module PackFormat {
  import opened Bits
  import opened Options
  import opened Graph
  import Chunks
  import Inflate
  import Delta
  import PackFrames

  /** An object's name: the number that its forty hexadecimal digits spell. */
  type Name = Oid

  datatype PackError =
    | NotAPack
    | UnsupportedVersion
    | Truncated
    | CorruptPack
    | ObjectTooLarge
    | MissingBase
    | TrailingBytes
    | ChecksumMismatch
    /** Two different objects with one name: nothing is promised about such a pack. */
    | Collision
    /** The store had no room: no fault of the pack. */
    | StorageFailed

  datatype Result<+T> = Ok(value: T) | Err(error: PackError)

  const HEADER_BYTES := 12
  const OFS_DELTA := 6
  const REF_DELTA := 7

  /** An object as it is kept: its bytes, the delta it arrived as, and the zlib stream it
      arrived in. */
  datatype Retained = Retained(base: Name, bytes: seq<byte>)

  datatype PackObject = PackObject(kind: Kind, bytes: seq<byte>, delta: Option<Retained>, compressed: seq<byte>)

  /** What an object is, however it is kept. */
  datatype Content = Content(kind: Kind, bytes: seq<byte>)

  function ContentOf(o: PackObject): Content {
    Content(o.kind, o.bytes)
  }

  type Objects = map<Name, PackObject>

  type Hash = (Kind, seq<byte>) -> Name

  // ---- Names -------------------------------------------------------------------------------

  /** A name fits its twenty bytes. */
  predicate IsName(name: Name) {
    name < Delta.Pow256(OID_BYTES)
  }

  /** The bytes of a name, the first digits first. */
  function NameBytes(name: Name, count: nat): (bytes: seq<byte>)
    ensures |bytes| == count
    decreases count
  {
    if count == 0 then [] else NameBytes(name / 256, count - 1) + [name % 256]
  }

  function NameOf(bytes: seq<byte>): Name
    decreases |bytes|
  {
    if bytes == [] then 0
    else
      var last: nat := bytes[|bytes| - 1];
      256 * NameOf(bytes[..|bytes| - 1]) + last
  }

  lemma {:induction false} NameIsRead(name: Name, count: nat)
    requires name < Delta.Pow256(count)
    ensures NameOf(NameBytes(name, count)) == name
    decreases count
  {
    if count > 0 {
      assert NameBytes(name, count)[..count - 1] == NameBytes(name / 256, count - 1);
      NameIsRead(name / 256, count - 1);
    }
  }

  /** Where the two first differ, `a` has the lesser byte. */
  predicate SortsBefore(a: seq<byte>, b: seq<byte>) {
    exists i :: 0 <= i < |a| && i < |b| && DiffersAt(a, b, i)
  }

  predicate DiffersAt(a: seq<byte>, b: seq<byte>, i: nat)
    requires i < |a| && i < |b|
  {
    a[..i] == b[..i] && a[i] < b[i]
  }

  lemma SortsBeforeLast(a: seq<byte>, x: byte, b: seq<byte>, y: byte)
    requires |a| == |b|
    ensures SortsBefore(a + [x], b + [y]) <==> SortsBefore(a, b) || (a == b && x < y)
  {
    var n := |a|;
    if SortsBefore(a + [x], b + [y]) {
      var i :| 0 <= i < n + 1 && DiffersAt(a + [x], b + [y], i);
      assert (a + [x])[..i] == a[..i] && (b + [y])[..i] == b[..i];
      assert i < n ==> DiffersAt(a, b, i);
    }
    if i :| 0 <= i < n && DiffersAt(a, b, i) {
      assert (a + [x])[..i] == a[..i] && (b + [y])[..i] == b[..i];
      assert DiffersAt(a + [x], b + [y], i);
    }
    if a == b && x < y {
      assert (a + [x])[..n] == a && (b + [y])[..n] == b;
      assert DiffersAt(a + [x], b + [y], n);
    }
  }

  /** Names are ordered as their bytes are, first byte first: so rows sorted by name are sorted by number. */
  lemma {:induction false} NamesSortAsBytes(a: Name, b: Name, count: nat)
    requires a < Delta.Pow256(count) && b < Delta.Pow256(count)
    ensures a < b <==> SortsBefore(NameBytes(a, count), NameBytes(b, count))
    decreases count
  {
    hide SortsBefore;
    if count == 0 {
      assert !SortsBefore([], []) by { NothingSorts(); }
    } else {
      NamesSortAsBytes(a / 256, b / 256, count - 1);
      SortsBeforeLast(NameBytes(a / 256, count - 1), a % 256, NameBytes(b / 256, count - 1), b % 256);
      if NameBytes(a / 256, count - 1) == NameBytes(b / 256, count - 1) {
        NameIsRead(a / 256, count - 1);
        NameIsRead(b / 256, count - 1);
      }
    }
  }

  lemma NothingSorts()
    ensures !SortsBefore([], [])
  {
  }

  // ---- Numbers -----------------------------------------------------------------------------

  /** The rest of a size, seven bits at a time, which has to stay a safe integer. */
  function SizeFrom(bytes: seq<byte>, at: nat, size: nat, shift: nat): (r: Result<(nat, nat)>)
    ensures r.Ok? ==> at < r.value.1 <= |bytes|
    decreases |bytes| - at
  {
    if at >= |bytes| then Err(Truncated)
    else
      var sum := size + Shl(bytes[at] % 128, shift);
      if shift >= Delta.INFINITE_SHIFT || sum > Delta.MAX_SAFE_INTEGER then Err(CorruptPack)
      else if bytes[at] < 128 then Ok((sum, at + 1))
      else SizeFrom(bytes, at + 1, sum, shift + 7)
  }

  /** Type, size, and where the entry goes on. */
  function ReadHeader(bytes: seq<byte>, at: nat): (r: Result<(nat, nat, nat)>)
    ensures r.Ok? ==> at < r.value.2 <= |bytes| && r.value.0 < 8 && r.value.1 <= Delta.MAX_OBJECT_BYTES
  {
    if at >= |bytes| then Err(Truncated)
    else
      var kind := bytes[at] / 16 % 8;
      var size := if bytes[at] < 128 then Ok((bytes[at] % 16, at + 1)) else SizeFrom(bytes, at + 1, bytes[at] % 16, 4);
      if size.Err? then Err(size.error)
      else if size.value.0 > Delta.MAX_OBJECT_BYTES then Err(ObjectTooLarge)
      else Ok((kind, size.value.0, size.value.1))
  }

  /** How far back a base lies: every continuation adds one. */
  function OffsetFrom(bytes: seq<byte>, at: nat, offset: nat): (r: Result<(nat, nat)>)
    ensures r.Ok? ==> at < r.value.1 <= |bytes|
    decreases |bytes| - at
  {
    if at >= |bytes| then Err(Truncated)
    else
      var next := (offset + 1) * 128 + bytes[at] % 128;
      if next > Delta.MAX_SAFE_INTEGER then Err(CorruptPack)
      else if bytes[at] < 128 then Ok((next, at + 1))
      else OffsetFrom(bytes, at + 1, next)
  }

  function ReadOffset(bytes: seq<byte>, at: nat): (r: Result<(nat, nat)>)
    ensures r.Ok? ==> at < r.value.1 <= |bytes|
  {
    if at >= |bytes| then Err(Truncated)
    else if bytes[at] < 128 then Ok((bytes[at] % 128, at + 1))
    else OffsetFrom(bytes, at + 1, bytes[at] % 128)
  }

  // ---- Entries --------------------------------------------------------------------------------

  function KindOfEntry(kind: nat): Option<Kind> {
    if kind == 1 then Some(CommitKind)
    else if kind == 2 then Some(TreeKind)
    else if kind == 3 then Some(BlobKind)
    else if kind == 4 then Some(TagKind)
    else None
  }

  /** The zlib stream that begins at `at`: what it inflates to, and where it ends. */
  function ReadStream(bytes: seq<byte>, at: nat, size: nat): (r: Result<(seq<byte>, nat)>)
    requires at <= |bytes|
    ensures r.Ok? ==> at <= r.value.1 <= |bytes|
  {
    hide Inflate.Run, Inflate.StepOn, Chunks.Push;
    Chunks.LeftoverIsTail(Chunks.Start(size, true), bytes[at..], false);
    match Chunks.Push(Chunks.Start(size, true), bytes[at..], false)
    case Closed(out, rest) => Ok((out, |bytes| - |rest|))
    case Open(_, _) => Err(Truncated)
    case Failed(_) => Err(CorruptPack)
  }

  /** The objects with one more, which may be there already. */
  function Add(objects: Objects, hash: Hash, o: PackObject): (r: Result<(Name, Objects)>)
    ensures r.Err? ==> r.error == Collision
  {
    var name := hash(o.kind, o.bytes);
    if name !in objects then Ok((name, objects[name := o]))
    else if objects[name].kind == o.kind && objects[name].bytes == o.bytes then Ok((name, objects))
    else Err(Collision)
  }

  datatype Entry = Entry(name: Name, objects: Objects, next: nat)

  function Added(r: Result<(Name, Objects)>, next: nat): (e: Result<Entry>)
    ensures e.Ok? ==> e.value.next == next
  {
    if r.Ok? then Ok(Entry(r.value.0, r.value.1, next)) else Err(r.error)
  }

  /** A delta against an object that is already known. */
  function Resolve(bytes: seq<byte>, at: nat, size: nat, base: Name, objects: Objects, hash: Hash): (r: Result<Entry>)
    requires at <= |bytes|
    ensures r.Ok? ==> r.value.next <= |bytes|
  {
    var stream := ReadStream(bytes, at, size);
    if stream.Err? then Err(stream.error)
    else
      var (delta, next) := stream.value;
      if base !in objects then Err(MissingBase)
      else
        match Delta.Apply(objects[base].bytes, delta)
        case Corrupt => Err(CorruptPack)
        case TooLarge => Err(ObjectTooLarge)
        case Ok(result) =>
          Added(Add(objects, hash, PackObject(objects[base].kind, result, Some(Retained(base, delta)),
                                              bytes[at..next])), next)
  }

  /** An object that arrives whole. */
  function FullEntry(
      bytes: seq<byte>, from: nat, kind: Kind, size: nat, objects: Objects, hash: Hash): (r: Result<Entry>)
    requires from <= |bytes|
    ensures r.Ok? ==> r.value.next <= |bytes|
  {
    var stream := ReadStream(bytes, from, size);
    if stream.Err? then Err(stream.error)
    else
      var (out, next) := stream.value;
      Added(Add(objects, hash, PackObject(kind, out, None, bytes[from..next])), next)
  }

  /** The entry whose header begins at `at` and ends at `from`. */
  function EntryBody(
      bytes: seq<byte>, at: int, kind: nat, size: nat, from: nat, objects: Objects, offsets: map<int, Name>, hash: Hash)
      : (r: Result<Entry>)
    requires from <= |bytes|
    ensures r.Ok? ==> r.value.next <= |bytes|
  {
    if kind == OFS_DELTA then
      var back := ReadOffset(bytes, from);
      if back.Err? then Err(back.error)
      else if at - back.value.0 !in offsets then Err(MissingBase)
      else Resolve(bytes, back.value.1, size, offsets[at - back.value.0], objects, hash)
    else if kind == REF_DELTA then
      if from + OID_BYTES > |bytes| then Err(Truncated)
      else Resolve(bytes, from + OID_BYTES, size, NameOf(bytes[from..from + OID_BYTES]), objects, hash)
    else if KindOfEntry(kind).None? then Err(CorruptPack)
    else FullEntry(bytes, from, KindOfEntry(kind).value, size, objects, hash)
  }

  function ReadEntry(
      bytes: seq<byte>, at: nat, objects: Objects, offsets: map<int, Name>, hash: Hash): (r: Result<Entry>)
    ensures r.Ok? ==> r.value.next <= |bytes|
  {
    var header := ReadHeader(bytes, at);
    if header.Err? then Err(header.error)
    else
      var (kind, size, from) := header.value;
      EntryBody(bytes, at, kind, size, from, objects, offsets, hash)
  }

  function ReadEntries(
      bytes: seq<byte>, at: nat, count: nat, objects: Objects, offsets: map<int, Name>,
      hash: Hash): (r: Result<(Objects, nat)>)
    ensures r.Ok? && at <= |bytes| ==> r.value.1 <= |bytes|
    decreases |bytes| + count, count
  {
    if count == 0 then Ok((objects, at))
    else
      var entry := ReadEntry(bytes, at, objects, offsets, hash);
      if entry.Err? then Err(entry.error)
      else
        var e := entry.value;
        ReadEntries(bytes, e.next, count - 1, e.objects, offsets[at := e.name], hash)
  }

  /** The objects there are once the first `n` entries from `at` were added. */
  predicate FirstEntries(bytes: seq<byte>, at: nat, n: nat, before: Objects, hash: Hash, after: Objects) {
    var r := ReadEntries(bytes, at, n, before, map[], hash);
    r.Ok? && r.value.0 == after
  }

  /** `b` holds everything of `a`, as it is there. */
  predicate Extends(a: Objects, b: Objects) {
    forall n :: n in a ==> n in b && b[n] == a[n]
  }

  function BigEndian(bytes: seq<byte>, at: nat): nat
    requires at + 4 <= |bytes|
  {
    var a: nat, b: nat, c: nat, d: nat := bytes[at], bytes[at + 1], bytes[at + 2], bytes[at + 3];
    16777216 * a + 65536 * b + 256 * c + d
  }

  const SIGNATURE: seq<byte> := [80, 65, 67, 75]

  /** How many entries a pack says it has. */
  function EntryCount(bytes: seq<byte>): nat {
    if |bytes| < HEADER_BYTES then 0 else BigEndian(bytes, 8)
  }

  /** What a pack adds to the objects already there. */
  function ReadPack(bytes: seq<byte>, objects: Objects, hash: Hash, sha1: seq<byte> -> seq<byte>): Result<Objects> {
    if |bytes| < HEADER_BYTES then Err(Truncated)
    else if bytes[..4] != SIGNATURE then Err(NotAPack)
    else if BigEndian(bytes, 4) != 2 && BigEndian(bytes, 4) != 3 then Err(UnsupportedVersion)
    else
      var entries := ReadEntries(bytes, HEADER_BYTES, BigEndian(bytes, 8), objects, map[], hash);
      if entries.Err? then Err(entries.error)
      else
        var (after, end) := entries.value;
        if end + 20 > |bytes| then Err(Truncated)
        else if end + 20 < |bytes| then Err(TrailingBytes)
        else if bytes[end..] != sha1(bytes[..end]) then Err(ChecksumMismatch)
        else Ok(after)
  }
}
