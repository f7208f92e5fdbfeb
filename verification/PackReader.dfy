/** The streaming pack reader: through a stream that may be cut anywhere, a resumable
    inflater, a cache of recent bases and a batcher, it does what reading the whole pack at
    once would do. */
module PackReader {
  import opened Bits
  import opened Options
  import opened Graph
  import opened PackFormat
  import Chunks
  import Exact
  import Huffman
  import Inflate
  import InflaterObject
  import Delta
  import PackStream

  // ---- The caches --------------------------------------------------------------------------

  const WRITE_BATCH_BYTES := 4 * 1024 * 1024
  const WRITE_BATCH_COUNT := 128
  const RECENT_BASE_BYTES := 4 * 1024 * 1024
  const RECENT_BASE_COUNT := 256

  /** What an object costs while it waits in a batch. */
  function Weight(o: PackObject): nat {
    |o.bytes| + (if o.delta.Some? then |o.delta.value.bytes| else 0) + |o.compressed|
  }

  function TotalWeight(batch: seq<(Name, PackObject)>): nat {
    if batch == [] then 0 else TotalWeight(batch[..|batch| - 1]) + Weight(batch[|batch| - 1].1)
  }

  /** At most 128 objects, and at most 4 MiB unless there is only one. */
  predicate Bounded(batch: seq<(Name, PackObject)>) {
    |batch| <= 128 && (|batch| > 1 ==> TotalWeight(batch) <= 4194304)
  }

  /** Objects written one after another; one that is here already stays. */
  function AddAll(objects: Objects, batch: seq<(Name, PackObject)>): Objects {
    if batch == [] then objects
    else
      var before := AddAll(objects, batch[..|batch| - 1]);
      var (name, o) := batch[|batch| - 1];
      if name in before then before else before[name := o]
  }

  lemma AddAllAppend(objects: Objects, batch: seq<(Name, PackObject)>, e: (Name, PackObject))
    ensures AddAll(objects, batch + [e]) ==
      if e.0 in AddAll(objects, batch) then AddAll(objects, batch) else AddAll(objects, batch)[e.0 := e.1]
    ensures TotalWeight(batch + [e]) == TotalWeight(batch) + Weight(e.1)
  {
    assert (batch + [e])[..|batch|] == batch;
  }

  lemma {:induction false} AddAllKeeps(objects: Objects, batch: seq<(Name, PackObject)>, name: Name)
    ensures name in objects ==> name in AddAll(objects, batch) && AddAll(objects, batch)[name] == objects[name]
    ensures name in AddAll(objects, batch) ==> name in objects || exists e :: e in batch && e.0 == name
    ensures (exists e :: e in batch && e.0 == name) ==> name in AddAll(objects, batch)
  {
    if batch != [] {
      var n := |batch| - 1;
      AddAllKeeps(objects, batch[..n], name);
      assert batch == batch[..n] + [batch[n]];
      if name in AddAll(objects, batch) && name !in objects && batch[n].0 != name {
        var e :| e in batch[..n] && e.0 == name;
        assert e in batch;
      }
    }
  }

  /** The objects with one more, unless there is one of its name. */
  function Plus(objects: Objects, name: Name, o: PackObject): Objects {
    if name in objects then objects else objects[name := o]
  }

  lemma PlusExtends(objects: Objects, name: Name, o: PackObject)
    ensures Extends(objects, Plus(objects, name, o))
  {
  }

  ghost predicate Agree(objects: Objects, pending: seq<(Name, PackObject)>) {
    var view := AddAll(objects, pending);
    forall e :: e in pending ==> e.0 in view && ContentOf(view[e.0]) == ContentOf(e.1)
  }

  lemma NothingAgrees(objects: Objects)
    ensures Agree(objects, [])
  {
  }

  lemma AddNothing(objects: Objects)
    ensures AddAll(objects, []) == objects
  {
  }

  lemma AppendAgrees(objects: Objects, pending: seq<(Name, PackObject)>, name: Name, o: PackObject)
    requires Agree(objects, pending)
    requires name in AddAll(objects, pending) ==> ContentOf(AddAll(objects, pending)[name]) == ContentOf(o)
    ensures Agree(objects, pending + [(name, o)])
  {
    AddAllAppend(objects, pending, (name, o));
  }

  /** No name twice. */
  predicate NamedOnce(batch: seq<(Name, PackObject)>) {
    forall i, j :: 0 <= i < j < |batch| ==> batch[i].0 != batch[j].0
  }

  lemma ViewExtends(objects: Objects, batch: seq<(Name, PackObject)>)
    ensures Extends(objects, AddAll(objects, batch))
  {
    hide AddAll;
    forall n | n in objects
      ensures n in AddAll(objects, batch) && AddAll(objects, batch)[n] == objects[n]
    {
      AddAllKeeps(objects, batch, n);
    }
  }

  lemma ExtendsOn(a: Objects, b: Objects, c: Objects)
    requires Extends(a, b) && Extends(b, c)
    ensures Extends(a, c)
  {
  }

  lemma ExtendsItself(a: Objects)
    ensures Extends(a, a)
  {
  }

  /** One object more of a batch, stored or not. */
  lemma PartExtends(objects: Objects, batch: seq<(Name, PackObject)>, i: nat, part: Objects)
    requires i < |batch| && NamedOnce(batch)
    requires Extends(objects, part) && Extends(part, AddAll(objects, batch[..i]))
    ensures Extends(part, AddAll(objects, batch[..i + 1]))
    ensures batch[i].0 !in part ==>
      Extends(objects, part[batch[i].0 := batch[i].1]) &&
      Extends(part[batch[i].0 := batch[i].1], AddAll(objects, batch[..i + 1]))
  {
    hide AddAll;
    var (name, o) := batch[i];
    assert batch[..i + 1] == batch[..i] + [batch[i]];
    AddAllAppend(objects, batch[..i], batch[i]);
    AddAllKeeps(objects, batch[..i], name);
    forall e | e in batch[..i]
      ensures e.0 != name
    {
      var j :| 0 <= j < i && batch[j] == e;
    }
  }

  class Sink {
    var objects: Objects

    constructor (objects: Objects)
      ensures this.objects == objects
    {
      this.objects := objects;
    }

    /** All of a batch is stored, or the write fails and any part of it may be. */
    method WriteBatch(batch: seq<(Name, PackObject)>) returns (failed: bool)
      requires Bounded(batch) && NamedOnce(batch)
      modifies this
      ensures Extends(old(objects), objects)
      ensures
        if failed then Extends(objects, AddAll(old(objects), batch)) else objects == AddAll(old(objects), batch)
    {
      hide AddAll;
      failed := *;
      AddNothing(objects);
      ExtendsItself(objects);
      for i := 0 to |batch|
        invariant Extends(old(objects), objects) && Extends(objects, AddAll(old(objects), batch[..i]))
        invariant !failed ==> objects == AddAll(old(objects), batch[..i])
      {
        assert batch[..i + 1] == batch[..i] + [batch[i]];
        AddAllAppend(old(objects), batch[..i], batch[i]);
        PartExtends(old(objects), batch, i, objects);
        var stored: bool := *;
        if batch[i].0 !in objects && (!failed || stored) {
          objects := objects[batch[i].0 := batch[i].1];
        }
      }
      assert batch[..|batch|] == batch;
    }
  }

  /** Pending objects remain readable until their bounded batch reaches storage. */
  class PackWrites {
    const sink: Sink
    var pending: seq<(Name, PackObject)>
    var bytes: nat

    /** Everything written so far. */
    ghost function View(): Objects
      reads this, sink
    {
      AddAll(sink.objects, pending)
    }

    ghost predicate Valid()
      reads this
    {
      bytes == TotalWeight(pending) && Bounded(pending) && NamedOnce(pending) && |pending| < WRITE_BATCH_COUNT
    }

    constructor (sink: Sink)
      ensures Valid() && this.sink == sink && View() == sink.objects && pending == []
    {
      this.sink := sink;
      pending, bytes := [], 0;
    }

    method Find(name: Name) returns (found: Option<PackObject>)
      ensures found.Some? ==> (name, found.value) in pending
      ensures found.None? ==> forall e :: e in pending ==> e.0 != name
    {
      for i := 0 to |pending|
        invariant forall j :: 0 <= j < i ==> pending[j].0 != name
      {
        if pending[i].0 == name {
          return Some(pending[i].1);
        }
      }
      found := None;
    }

    method Flush() returns (failed: bool)
      requires bytes == TotalWeight(pending) && Bounded(pending) && NamedOnce(pending)
      modifies this`pending, this`bytes, sink
      ensures Valid() && pending == []
      ensures Extends(old(sink.objects), sink.objects)
      ensures if failed then Extends(sink.objects, old(View())) else View() == old(View()) == sink.objects
    {
      if |pending| == 0 {
        return false;
      }
      var batch := pending;
      pending, bytes := [], 0;
      failed := sink.WriteBatch(batch);
    }

    /** Where a pending object is also stored, the two agree. */
    ghost predicate Agrees()
      reads this, sink
    {
      Agree(sink.objects, pending)
    }

    method Append(name: Name, o: PackObject)
      requires Valid() && (pending != [] ==> bytes + Weight(o) <= WRITE_BATCH_BYTES)
      requires forall e :: e in pending ==> e.0 != name
      modifies this`pending, this`bytes
      ensures pending == old(pending) + [(name, o)]
      ensures bytes == TotalWeight(pending) && Bounded(pending) && NamedOnce(pending)
    {
      AddAllAppend(sink.objects, pending, (name, o));
      pending, bytes := pending + [(name, o)], bytes + Weight(o);
    }

    /** Appends an object that is not pending, after whatever has to be stored to make room. */
    method AppendWithRoom(name: Name, o: PackObject) returns (failed: bool)
      requires Valid() && forall e :: e in pending ==> e.0 != name
      modifies this`pending, this`bytes, sink
      ensures bytes == TotalWeight(pending) && Bounded(pending) && NamedOnce(pending)
      ensures Extends(old(sink.objects), sink.objects)
      ensures failed ==> Valid() && Extends(sink.objects, old(View()))
      ensures !failed ==>
        && View() == Plus(old(View()), name, o)
        && (sink.objects == old(sink.objects) || sink.objects == old(View()))
      ensures !failed && old(Agrees()) && (name in old(View()) ==> ContentOf(old(View())[name]) == ContentOf(o)) ==>
        Agrees()
    {
      hide AddAll, Agree, TotalWeight, Extends;
      ExtendsItself(sink.objects);
      failed := false;
      if bytes + Weight(o) > WRITE_BATCH_BYTES {
        failed := Flush();
        if failed {
          return;
        }
        NothingAgrees(sink.objects);
        AddNothing(sink.objects);
      }
      AddAllAppend(sink.objects, pending, (name, o));
      if Agree(sink.objects, pending) && (name in View() ==> ContentOf(View()[name]) == ContentOf(o)) {
        AppendAgrees(sink.objects, pending, name, o);
      }
      Append(name, o);
    }

    /** Everything written so far and this object, unless there was one of its name. What is stored changes
        only where it has to, and then to all that was written, before this object or with it. */
    method Write(name: Name, o: PackObject) returns (failed: bool)
      requires Valid()
      modifies this`pending, this`bytes, sink
      ensures Valid() && Extends(old(sink.objects), sink.objects)
      ensures failed ==> Extends(sink.objects, Plus(old(View()), name, o))
      ensures !failed ==>
        && View() == Plus(old(View()), name, o)
        && (sink.objects == old(sink.objects) || sink.objects == old(View()) || sink.objects == View())
      ensures !failed && old(Agrees()) && (name in old(View()) ==> ContentOf(old(View())[name]) == ContentOf(o)) ==>
        Agrees()
    {
      hide AddAll, Agree, TotalWeight, Extends;
      ghost var view := View();
      ExtendsItself(sink.objects);
      var found := Find(name);
      if found.Some? {
        AddAllKeeps(sink.objects, pending, name);
        return false;
      }
      PlusExtends(view, name, o);
      failed := AppendWithRoom(name, o);
      if failed {
        ExtendsOn(sink.objects, view, Plus(view, name, o));
        return;
      }
      if |pending| >= WRITE_BATCH_COUNT || bytes >= WRITE_BATCH_BYTES {
        ghost var stored := sink.objects;
        failed := Flush();
        ExtendsOn(old(sink.objects), stored, sink.objects);
        NothingAgrees(sink.objects);
      }
    }

    method Read(name: Name) returns (base: Option<Content>)
      ensures Agrees() ==> base == if name in View() then Some(ContentOf(View()[name])) else None
    {
      var found := Find(name);
      AddAllKeeps(sink.objects, pending, name);
      if found.Some? {
        return Some(ContentOf(found.value));
      }
      base := if name in sink.objects then Some(ContentOf(sink.objects[name])) else None;
    }
  }

  function BytesOf(entries: seq<(Name, Content)>): nat {
    if entries == [] then 0 else |entries[0].1.bytes| + BytesOf(entries[1..])
  }

  lemma {:induction false} BytesOfParts(a: seq<(Name, Content)>, b: seq<(Name, Content)>)
    ensures BytesOf(a + b) == BytesOf(a) + BytesOf(b)
  {
    if a == [] {
      assert a + b == b;
    } else {
      assert (a + b)[1..] == a[1..] + b;
      BytesOfParts(a[1..], b);
    }
  }

  /** The entries without the one of this name. */
  function WithoutName(entries: seq<(Name, Content)>, name: Name): seq<(Name, Content)> {
    if entries == [] then []
    else (if entries[0].0 == name then [] else [entries[0]]) + WithoutName(entries[1..], name)
  }

  lemma {:induction false} WithoutNone(entries: seq<(Name, Content)>, name: Name)
    requires forall e :: e in entries ==> e.0 != name
    ensures WithoutName(entries, name) == entries
  {
    if entries != [] {
      WithoutNone(entries[1..], name);
    }
  }

  lemma {:induction false} WithoutParts(a: seq<(Name, Content)>, b: seq<(Name, Content)>, name: Name)
    ensures WithoutName(a + b, name) == WithoutName(a, name) + WithoutName(b, name)
  {
    if a == [] {
      assert a + b == b;
    } else {
      assert (a + b)[1..] == a[1..] + b;
      WithoutParts(a[1..], b, name);
    }
  }

  lemma WithoutOnly(e: (Name, Content))
    ensures WithoutName([e], e.0) == []
  {
    assert [e][1..] == [];
  }

  lemma WithoutMiddle(a: seq<(Name, Content)>, e: (Name, Content), b: seq<(Name, Content)>)
    requires (forall x :: x in a ==> x.0 != e.0) && forall x :: x in b ==> x.0 != e.0
    ensures WithoutName(a + ([e] + b), e.0) == a + b
  {
    hide WithoutName;
    WithoutNone(a, e.0);
    WithoutNone(b, e.0);
    WithoutOnly(e);
    WithoutParts(a, [e] + b, e.0);
    WithoutParts([e], b, e.0);
    assert [] + b == b;
  }

  lemma WithoutOne(entries: seq<(Name, Content)>, i: nat, name: Name)
    requires i < |entries| && entries[i].0 == name
    requires forall j :: 0 <= j < |entries| && j != i ==> entries[j].0 != name
    ensures WithoutName(entries, name) == entries[..i] + entries[i + 1..]
  {
    hide WithoutName;
    assert entries == entries[..i] + ([entries[i]] + entries[i + 1..]);
    WithoutMiddle(entries[..i], entries[i], entries[i + 1..]);
  }

  lemma BytesWithoutOne(entries: seq<(Name, Content)>, i: nat)
    requires i < |entries|
    ensures BytesOf(entries[..i] + entries[i + 1..]) + |entries[i].1.bytes| == BytesOf(entries)
  {
    hide BytesOf;
    var a, c, b := entries[..i], entries[i], entries[i + 1..];
    assert entries == a + ([c] + b);
    BytesOfParts(a, [c] + b);
    BytesOfParts([c], b);
    BytesOfOne(c);
    BytesOfParts(a, b);
  }

  predicate TooMuch(entries: seq<(Name, Content)>) {
    |entries| > 256 || BytesOf(entries) > 4194304
  }

  /** The newest of them that fit, and no fewer. */
  predicate NewestThatFit(all: seq<(Name, Content)>, k: nat, kept: seq<(Name, Content)>) {
    k < |all| && kept == all[k..] && !TooMuch(kept) && (k > 0 ==> TooMuch(all[k - 1..]))
  }

  lemma OneFits(entries: seq<(Name, Content)>)
    ensures |entries| == 1 && |entries[0].1.bytes| <= 4194304 ==> !TooMuch(entries)
  {
    if |entries| == 1 {
      assert entries == [entries[0]];
      BytesOfOne(entries[0]);
    }
  }

  lemma DropOldest(all: seq<(Name, Content)>, k: nat)
    requires k < |all| && TooMuch(all[k..]) && |all[|all| - 1].1.bytes| <= 4194304
    ensures k + 1 < |all| && all[k..][1..] == all[k + 1..]
    ensures BytesOf(all[k + 1..]) == BytesOf(all[k..]) - |all[k].1.bytes|
  {
    hide TooMuch;
    OneFits(all[k..]);
  }

  /** The bases used last, oldest first. */
  class RecentPackBases {
    var entries: seq<(Name, Content)>
    var bytes: nat

    ghost predicate Valid()
      reads this
    {
      && bytes == BytesOf(entries)
      && |entries| <= 256 && bytes <= 4194304
      && forall i, j :: 0 <= i < j < |entries| ==> entries[i].0 != entries[j].0
    }

    /** Every base it holds is the object of that name. */
    ghost predicate Remembers(objects: Objects)
      reads this
    {
      forall e :: e in entries ==> e.0 in objects && ContentOf(objects[e.0]) == e.1
    }

    constructor ()
      ensures Valid() && entries == []
    {
      entries, bytes := [], 0;
    }

    method Read(name: Name) returns (base: Option<Content>)
      ensures base.Some? ==> (name, base.value) in entries
      ensures base.None? ==> forall e :: e in entries ==> e.0 != name
    {
      for i := 0 to |entries|
        invariant forall j :: 0 <= j < i ==> entries[j].0 != name
      {
        if entries[i].0 == name {
          return Some(entries[i].1);
        }
      }
      base := None;
    }

    method Forget(name: Name)
      requires Valid()
      modifies this
      ensures Valid() && entries == WithoutName(old(entries), name)
      ensures forall e :: e in entries ==> e in old(entries) && e.0 != name
    {
      for i := 0 to |entries|
        invariant entries == old(entries) && bytes == old(bytes)
        invariant forall j :: 0 <= j < i ==> entries[j].0 != name
      {
        if entries[i].0 == name {
          WithoutOne(entries, i, name);
          BytesWithoutOne(entries, i);
          bytes := bytes - |entries[i].1.bytes|;
          entries := entries[..i] + entries[i + 1..];
          return;
        }
      }
      WithoutNone(entries, name);
    }

    /** Remembers a base as the newest, unless it is too large by itself, and drops the oldest until what is left
        fits. */
    method Remember(name: Name, base: Content)
      requires Valid()
      modifies this
      ensures Valid() && forall e :: e in entries ==> e in old(entries) || e == (name, base)
      ensures var others := WithoutName(old(entries), name);
        if |base.bytes| > 4194304 then entries == others
        else exists k: nat :: NewestThatFit(others + [(name, base)], k, entries)
    {
      Forget(name);
      if |base.bytes| > RECENT_BASE_BYTES {
        return;
      }
      hide BytesOf, WithoutName, NewestThatFit;
      BytesOfParts(entries, [(name, base)]);
      BytesOfOne((name, base));
      NewIsDistinct(entries, name, base);
      entries, bytes := entries + [(name, base)], bytes + |base.bytes|;
      ghost var all := entries;
      DropUntilFit();
      FittingIsPart(all, entries);
    }

    method DropUntilFit()
      requires entries != [] && bytes == BytesOf(entries) && |entries[|entries| - 1].1.bytes| <= 4194304
      modifies this
      ensures bytes == BytesOf(entries) && exists k: nat :: NewestThatFit(old(entries), k, entries)
    {
      hide BytesOf;
      ghost var all, k: nat := entries, 0;
      while |entries| > RECENT_BASE_COUNT || bytes > RECENT_BASE_BYTES
        invariant bytes == BytesOf(entries)
        invariant k < |all| && entries == all[k..] && (k > 0 ==> TooMuch(all[k - 1..]))
        decreases |entries|
      {
        if entries == [] {
          break;
        }
        DropOldest(all, k);
        bytes := bytes - |entries[0].1.bytes|;
        entries := entries[1..];
        k := k + 1;
      }
      assert NewestThatFit(all, k, entries);
    }
  }

  lemma FittingIsPart(all: seq<(Name, Content)>, kept: seq<(Name, Content)>)
    requires exists k: nat :: NewestThatFit(all, k, kept)
    requires forall i, j :: 0 <= i < j < |all| ==> all[i].0 != all[j].0
    ensures |kept| <= 256 && BytesOf(kept) <= 4194304
    ensures forall i, j :: 0 <= i < j < |kept| ==> kept[i].0 != kept[j].0
    ensures forall e :: e in kept ==> e in all
  {
    hide BytesOf;
  }

  lemma NewIsDistinct(entries: seq<(Name, Content)>, name: Name, base: Content)
    requires forall i, j :: 0 <= i < j < |entries| ==> entries[i].0 != entries[j].0
    requires forall e :: e in entries ==> e.0 != name
    ensures var all := entries + [(name, base)];
      && (forall i, j :: 0 <= i < j < |all| ==> all[i].0 != all[j].0)
      && forall e :: e in all ==> e in entries || e == (name, base)
  {
  }

  lemma BytesOfOne(e: (Name, Content))
    ensures BytesOf([e]) == |e.1.bytes|
  {
  }

  // ---- Entries --------------------------------------------------------------------------------

  lemma SizeUnfolds(whole: seq<byte>, at: nat, size: nat, shift: nat)
    requires at < |whole|
    ensures var sum := size + Shl(whole[at] % 128, shift);
            SizeFrom(whole, at, size, shift)
            == if shift >= Delta.INFINITE_SHIFT || sum > Delta.MAX_SAFE_INTEGER then Err(CorruptPack)
               else if whole[at] < 128 then Ok((sum, at + 1)) else SizeFrom(whole, at + 1, sum, shift + 7)
  {
  }

  /** Type and size of an entry. */
  method ReadEntryHeader(stream: PackStream.Stream) returns (r: Result<(nat, nat)>)
    requires stream.Valid()
    modifies stream
    ensures stream.Valid()
    ensures match PackFormat.ReadHeader(stream.whole, old(stream.position))
            case Err(error) => r == Err(error)
            case Ok((kind, size, next)) => r == Ok((kind, size)) && stream.position == next
  {
    hide Shl, SizeFrom;
    ghost var whole, from := stream.whole, stream.position;
    var first := stream.Byte();
    if first.None? {
      return Err(Truncated);
    }
    var b := first.value;
    var kind: nat, size: nat, shift: nat := b / 16 % 8, b % 16, 4;
    ghost var rest := if b < 128 then Ok((size, from + 1)) else SizeFrom(whole, from + 1, size, 4);
    while b >= 128
      invariant stream.Valid() && stream.position <= |whole|
      invariant rest == if b < 128 then Ok((size, stream.position)) else SizeFrom(whole, stream.position, size, shift)
      decreases |whole| - stream.position, if b >= 128 then 1 else 0
    {
      var at := stream.position;
      var next := stream.Byte();
      if next.None? {
        SizeEnds(whole, at, size, shift);
        return Err(Truncated);
      }
      b := next.value;
      SizeUnfolds(whole, at, size, shift);
      size := size + Shl(b % 128, shift);
      var safe := shift < Delta.INFINITE_SHIFT && size <= Delta.MAX_SAFE_INTEGER;
      shift := shift + 7;
      if !safe {
        return Err(CorruptPack);
      }
    }
    if size > Delta.MAX_OBJECT_BYTES {
      return Err(ObjectTooLarge);
    }
    r := Ok((kind, size));
  }

  lemma SizeEnds(whole: seq<byte>, at: nat, size: nat, shift: nat)
    requires at >= |whole|
    ensures SizeFrom(whole, at, size, shift) == Err(Truncated)
  {
  }

  method ReadBackOffset(stream: PackStream.Stream) returns (r: Result<nat>)
    requires stream.Valid()
    modifies stream
    ensures stream.Valid()
    ensures match PackFormat.ReadOffset(stream.whole, old(stream.position))
            case Err(error) => r == Err(error)
            case Ok((offset, next)) => r == Ok(offset) && stream.position == next
  {
    ghost var whole, from := stream.whole, stream.position;
    var first := stream.Byte();
    if first.None? {
      return Err(Truncated);
    }
    var b: nat := first.value;
    var offset: nat := b % 128;
    ghost var rest := if b < 128 then Ok((offset, from + 1)) else OffsetFrom(whole, from + 1, offset);
    while b >= 128
      invariant stream.Valid() && stream.position <= |whole|
      invariant rest == if b < 128 then Ok((offset, stream.position)) else OffsetFrom(whole, stream.position, offset)
      decreases |whole| - stream.position, if b >= 128 then 1 else 0
    {
      var next := stream.Byte();
      if next.None? {
        return Err(Truncated);
      }
      b := next.value;
      offset := (offset + 1) * 128 + b % 128;
      if offset > Delta.MAX_SAFE_INTEGER {
        return Err(CorruptPack);
      }
    }
    r := Ok(offset);
  }

  // ---- Inflating an entry -----------------------------------------------------------------------

  /** The first `length` of the bytes that were pushed. */
  method CompressedPrefix(parts: seq<seq<byte>>, length: nat) returns (bytes: seq<byte>)
    requires length <= |Flatten(parts)|
    ensures bytes == Flatten(parts)[..length]
  {
    bytes := [];
    ghost var all, done := Flatten(parts), [];
    for i := 0 to |parts|
      invariant all == done + Flatten(parts[i..])
      invariant bytes == all[..Least(length, |done|)]
    {
      assert parts[i..][1..] == parts[i + 1..];
      var remaining := length - |bytes|;
      if remaining > 0 {
        bytes := bytes + parts[i][..Least(remaining, |parts[i]|)];
      }
      done := done + parts[i];
    }
  }

  /** A session that has taken everything from `from` to `at`. */
  ghost predicate Inflating(whole: seq<byte>, from: nat, at: nat, size: nat, s: Chunks.Session) {
    && from < at <= |whole| && s.Open? && Chunks.Live(s)
    && Chunks.Push(Chunks.Start(size, true), whole[from..at], false) == s
  }

  lemma SliceSplits(whole: seq<byte>, from: nat, at: nat)
    requires from <= at <= |whole|
    ensures whole[from..] == whole[from..at] + whole[at..]
  {
  }

  lemma SliceTail(whole: seq<byte>, from: nat, at: nat, n: nat)
    requires from <= at <= |whole| && n <= at - from
    ensures whole[from..at][|whole[from..at]| - n..] == whole[at - n..at]
  {
  }

  lemma StreamIsPush(whole: seq<byte>, from: nat, size: nat)
    requires from <= |whole|
    ensures ReadStream(whole, from, size) ==
      match Chunks.Push(Chunks.Start(size, true), whole[from..], false)
      case Closed(out, rest) => if |rest| <= |whole| then Ok((out, |whole| - |rest|)) else Err(CorruptPack)
      case Open(_, _) => Err(Truncated)
      case Failed(_) => Err(CorruptPack)
  {
    hide Chunks.Push, Chunks.Start;
    Exact.StartIsOpen(size);
    Chunks.LeftoverIsTail(Chunks.Start(size, true), whole[from..], false);
  }

  lemma FirstChunk(whole: seq<byte>, from: nat, at: nat, size: nat)
    requires from < at <= |whole|
    ensures ChunkTaken(whole, from, at, size, Chunks.Push(Chunks.Start(size, true), whole[from..at], false))
  {
    hide Chunks.Push, Chunks.Start, Chunks.Live, ReadStream;
    Exact.StartIsOpen(size);
    var s, part, rest := Chunks.Start(size, true), whole[from..at], whole[at..];
    var t := Chunks.Push(s, part, false);
    SliceSplits(whole, from, at);
    Chunks.PushSplits(s, part, rest, false);
    Chunks.LeftoverIsTail(s, part, false);
    StreamIsPush(whole, from, size);
    assert s.held + part == part;
    if t.Closed? {
      SliceTail(whole, from, at, |t.leftover|);
    }
  }

  /** What pushing the bytes up to `at` says about the whole rest of the pack. */
  ghost predicate ChunkTaken(whole: seq<byte>, from: nat, at: nat, size: nat, t: Chunks.Session) {
    && from < at <= |whole|
    && match t
       case Open(_, _) => Inflating(whole, from, at, size, t)
       case Closed(out, rest) =>
         && |rest| <= at - from && rest == whole[at - |rest|..at]
         && ReadStream(whole, from, size) == Ok((out, at - |rest|))
       case Failed(code) => code == Chunks.CorruptStream && ReadStream(whole, from, size) == Err(CorruptPack)
  }

  lemma NextChunk(whole: seq<byte>, from: nat, at: nat, next: nat, size: nat, s: Chunks.Session)
    requires Inflating(whole, from, at, size, s) && at < next <= |whole|
    ensures ChunkTaken(whole, from, next, size, Chunks.Push(s, whole[at..next], false))
  {
    hide Chunks.Push, Chunks.Start, Chunks.Live, ChunkTaken;
    Exact.StartIsOpen(size);
    Chunks.PushSplits(Chunks.Start(size, true), whole[from..at], whole[at..next], false);
    assert whole[from..next] == whole[from..at] + whole[at..next];
    FirstChunk(whole, from, next, size);
  }

  lemma ChunksEnd(whole: seq<byte>, from: nat, size: nat, s: Chunks.Session)
    requires Inflating(whole, from, |whole|, size, s)
    ensures ReadStream(whole, from, size) == Err(Truncated)
  {
    hide Chunks.Push;
    assert whole[from..|whole|] == whole[from..];
  }

  lemma NothingToInflate(whole: seq<byte>, size: nat)
    ensures ReadStream(whole, |whole|, size) == Err(Truncated)
  {
    hide Huffman.Build;
    assert whole[|whole|..] == [];
    assert Chunks.Push(Chunks.Start(size, true), [], false).Open?;
  }

  /** The inflater has been pushed what the session was. */
  ghost predicate Follows(inflater: InflaterObject.Inflater, s: Chunks.Session)
    reads inflater, inflater.output
  {
    match s
    case Open(d, held) =>
      && inflater.Valid() && inflater.Abs() == d && inflater.input == held
      && inflater.state != Inflate.Finished && !inflater.atEnd
    case Closed(out, rest) =>
      inflater.Valid() && inflater.state == Inflate.Finished && inflater.output[..] == out && inflater.leftover == rest
    case Failed(_) => false
  }

  /** Pushes one more chunk; a failure is that of the session. */
  method PushChunk(inflater: InflaterObject.Inflater, chunk: seq<byte>, ghost s: Chunks.Session)
      returns (refused: Option<PackError>)
    requires s.Open? && Chunks.Live(s) && Follows(inflater, s)
    modifies inflater, inflater.output
    ensures var t := Chunks.Push(s, chunk, false);
            if t.Failed? then refused == Some(if t.code.TruncatedStream? then Truncated else CorruptPack)
            else refused.None? && Follows(inflater, t)
  {
    hide Chunks.Push, Chunks.Live;
    Chunks.OpenIsNotOver(s, chunk, false);
    var error := inflater.Push(chunk);
    if error.Throws? {
      return Some(if error.code.TruncatedStream? then Truncated else CorruptPack);
    }
    refused := None;
  }

  lemma TakenCases(whole: seq<byte>, from: nat, at: nat, size: nat, t: Chunks.Session)
    requires ChunkTaken(whole, from, at, size, t)
    ensures t.Open? ==> Inflating(whole, from, at, size, t) && Chunks.Live(t)
    ensures t.Closed? ==> |t.leftover| <= at - from && t.leftover == whole[at - |t.leftover|..at]
    ensures t.Closed? ==> ReadStream(whole, from, size) == Ok((t.out, at - |t.leftover|))
    ensures t.Failed? ==> t.code == Chunks.CorruptStream && ReadStream(whole, from, size) == Err(CorruptPack)
  {
    hide Chunks.Push, ReadStream, Chunks.Live;
  }

  /** Everything pushed so far is the pack from `from` to the stream's position. */
  ghost predicate Pushed(
      stream: PackStream.Stream, inflater: InflaterObject.Inflater, parts: seq<seq<byte>>, from: nat, size: nat,
      s: Chunks.Session)
    reads stream, inflater, inflater.output
  {
    && stream.Valid() && from < stream.position <= |stream.whole|
    && Flatten(parts) == stream.whole[from..stream.position]
    && ChunkTaken(stream.whole, from, stream.position, size, s)
    && Follows(inflater, s)
  }

  /** Pushes the next chunk of the stream, if there is one. */
  method PushNext(
      stream: PackStream.Stream, inflater: InflaterObject.Inflater, parts: seq<seq<byte>>, ghost from: nat,
      ghost size: nat, ghost s: Chunks.Session)
      returns (refused: Option<PackError>, more: seq<seq<byte>>, ghost t: Chunks.Session)
    requires Pushed(stream, inflater, parts, from, size, s) && s.Open?
    requires stream as object != inflater
    modifies stream, inflater, inflater.output
    ensures refused.Some? ==> stream.Valid() && ReadStream(stream.whole, from, size) == Err(refused.value)
    ensures refused.None? ==> Pushed(stream, inflater, more, from, size, t) && stream.position > old(stream.position)
  {
    hide Chunks.Push, ReadStream, ChunkTaken, Inflating, Chunks.Live, Flatten, Follows;
    ghost var whole, at := stream.whole, stream.position;
    TakenCases(whole, from, at, size, s);
    more, t := parts, s;
    var chunk := stream.TakeBuffered();
    if chunk.None? {
      ChunksEnd(whole, from, size, s);
      return Some(Truncated), more, t;
    }
    NextChunk(whole, from, at, stream.position, size, s);
    SlicesJoin(whole, from, at, stream.position);
    FlattenAppend(parts, chunk.value);
    more := parts + [chunk.value];
    refused := PushChunk(inflater, chunk.value, s);
    t := Chunks.Push(s, chunk.value, false);
    TakenCases(whole, from, stream.position, size, t);
  }

  /** The stream is over: what it inflated to, and the bytes it took. */
  method FinishEntry(
      stream: PackStream.Stream, inflater: InflaterObject.Inflater, parts: seq<seq<byte>>, ghost from: nat,
      ghost size: nat, ghost s: Chunks.Session)
      returns (out: seq<byte>, compressed: seq<byte>)
    requires Pushed(stream, inflater, parts, from, size, s) && s.Closed?
    modifies stream
    ensures stream.Valid() && from <= stream.position <= |stream.whole|
    ensures ReadStream(stream.whole, from, size) == Ok((out, stream.position))
    ensures compressed == stream.whole[from..stream.position]
  {
    hide Chunks.Push, ReadStream, ChunkTaken, Inflating, Chunks.Live, Flatten;
    ghost var whole, at := stream.whole, stream.position;
    TakenCases(whole, from, at, size, s);
    var n := |inflater.leftover|;
    compressed := CompressedPrefix(parts, |Flatten(parts)| - n);
    assert whole[from..at][..at - from - n] == whole[from..at - n];
    stream.Unread(inflater.leftover);
    out := inflater.output[..];
  }

  /** One entry's zlib stream, and what it inflates to; what was read past it is handed back. */
  method InflateEntry(stream: PackStream.Stream, size: nat) returns (r: Result<(seq<byte>, seq<byte>)>)
    requires stream.Valid()
    modifies stream
    ensures stream.Valid()
    ensures match ReadStream(stream.whole, old(stream.position), size)
            case Err(error) => r == Err(error)
            case Ok((out, next)) =>
              r == Ok((out, stream.whole[old(stream.position)..next])) && stream.position == next
  {
    hide Chunks.Push, ReadStream, ChunkTaken, Inflating, Chunks.Live, Chunks.Start, Flatten;
    ghost var whole, from := stream.whole, stream.position;
    var first := stream.TakeBuffered();
    if first.None? {
      NothingToInflate(whole, size);
      return Err(Truncated);
    }
    Exact.StartIsOpen(size);
    ghost var session := Chunks.Start(size, true);
    var inflater := new InflaterObject.Inflater(size, true);
    FreshFollows(inflater, size);
    FirstChunk(whole, from, stream.position, size);
    var parts := [first.value];
    FlattenOne(first.value);
    var refused := PushChunk(inflater, first.value, session);
    session := Chunks.Push(session, first.value, false);
    TakenCases(whole, from, stream.position, size, session);
    if refused.Some? {
      return Err(refused.value);
    }
    hide Follows, Pushed;
    while inflater.state != Inflate.Finished
      invariant fresh(inflater) && fresh(inflater.output)
      invariant Pushed(stream, inflater, parts, from, size, session)
      decreases |whole| - stream.position
    {
      OpenOrClosed(stream, inflater, parts, from, size, session);
      refused, parts, session := PushNext(stream, inflater, parts, from, size, session);
      if refused.Some? {
        return Err(refused.value);
      }
    }
    OpenOrClosed(stream, inflater, parts, from, size, session);
    var out, compressed := FinishEntry(stream, inflater, parts, from, size, session);
    r := Ok((out, compressed));
  }

  lemma OpenOrClosed(
      stream: PackStream.Stream, inflater: InflaterObject.Inflater, parts: seq<seq<byte>>, from: nat, size: nat,
      s: Chunks.Session)
    requires Pushed(stream, inflater, parts, from, size, s)
    ensures if inflater.state == Inflate.Finished then s.Closed? else s.Open?
    ensures stream.position <= |stream.whole|
  {
    hide ChunkTaken;
  }

  lemma FlattenOne(chunk: seq<byte>)
    ensures Flatten([chunk]) == chunk
  {
    assert [chunk][1..] == [];
    assert Flatten([]) == [];
  }

  lemma FreshFollows(inflater: InflaterObject.Inflater, size: nat)
    requires inflater.Valid() && inflater.Abs() == Inflate.Fresh(size, true) && inflater.input == [] && !inflater.atEnd
    ensures Follows(inflater, Chunks.Start(size, true))
  {
    hide Huffman.Build;
  }

  // ---- The whole pack ---------------------------------------------------------------------------

  /** The caches answer as a plain map of everything written would. */
  ghost predicate Coherent(writes: PackWrites, recent: RecentPackBases)
    reads writes, writes.sink, recent
  {
    writes.Valid() && recent.Valid() && writes.Agrees() && recent.Remembers(writes.View())
  }

  /** What one step of the reader did is what the format says, unless a write failed. */
  ghost predicate Stepped(
      r: Result<Name>, spec: Result<PackFormat.Entry>, position: nat, view: Objects, coherent: bool)
  {
    r == Err(StorageFailed) ||
    match spec
    case Err(Collision) => true
    case Err(error) => r == Err(error)
    case Ok(e) => r == Ok(e.name) && position == e.next && view == e.objects && coherent
  }

  /** What one step of the reader left stored: what was, what was written before it, or that and its own
      object; a part of that if a write failed. */
  ghost predicate Left(
      r: Result<Name>, spec: Result<PackFormat.Entry>, before: Objects, view: Objects, after: Objects)
  {
    && Extends(before, after)
    && (spec == Err(Collision) ||
        match r
        case Ok(_) => after == before || after == view || (spec.Ok? && after == spec.value.objects)
        case Err(StorageFailed) => Extends(after, view) || (spec.Ok? && Extends(after, spec.value.objects))
        case Err(_) => after == before || after == view)
  }

  /** Names an object, writes it, and remembers it as a base. */
  method Keep(writes: PackWrites, recent: RecentPackBases, o: PackObject, hash: Hash) returns (r: Result<Name>)
    requires writes.Valid() && recent.Valid()
    modifies writes, writes.sink, recent
    ensures writes.Valid() && recent.Valid()
    ensures old(Coherent(writes, recent)) ==>
      Stepped(
        r, Added(Add(old(writes.View()), hash, o), 0), 0, writes.View(), Coherent(writes, recent))
    ensures Left(
      r, Added(Add(old(writes.View()), hash, o), 0), old(writes.sink.objects), old(writes.View()), writes.sink.objects)
  {
    hide AddAll, Agree, Extends;
    var name := hash(o.kind, o.bytes);
    ghost var view := writes.View();
    var failed := writes.Write(name, o);
    if failed {
      return Err(StorageFailed);
    }
    recent.Remember(name, ContentOf(o));
    r := Ok(name);
  }

  /** The base of a delta, from the recent ones if it is among them. */
  method FindBase(writes: PackWrites, recent: RecentPackBases, name: Name) returns (base: Option<Content>)
    ensures Coherent(writes, recent) ==> base == if name in writes.View() then Some(ContentOf(writes.View()[name]))
      else None
  {
    hide AddAll, Agree;
    base := recent.Read(name);
    if base.None? {
      base := writes.Read(name);
    }
  }

  method ResolveEntry(
      stream: PackStream.Stream, writes: PackWrites, recent: RecentPackBases, size: nat, base: Name, hash: Hash)
      returns (r: Result<Name>)
    requires stream.Valid() && writes.Valid() && recent.Valid() && stream.position <= |stream.whole|
    modifies stream, writes, writes.sink, recent
    ensures stream.Valid() && writes.Valid() && recent.Valid()
    ensures Extends(old(writes.sink.objects), writes.sink.objects)
    ensures old(Coherent(writes, recent)) ==>
      var spec := Resolve(stream.whole, old(stream.position), size, base, old(writes.View()), hash);
      && Stepped(r, spec, stream.position, writes.View(), Coherent(writes, recent))
      && Left(r, spec, old(writes.sink.objects), old(writes.View()), writes.sink.objects)
  {
    hide ReadStream, Delta.Apply, AddAll, Agree, Add, Extends;
    ghost var from := stream.position;
    ExtendsItself(writes.sink.objects);
    ViewExtends(writes.sink.objects, writes.pending);
    var delta := InflateEntry(stream, size);
    if delta.Err? {
      return Err(delta.error);
    }
    var found := FindBase(writes, recent, base);
    if found.None? {
      return Err(MissingBase);
    }
    var applied := Delta.ApplyDelta(found.value.bytes, delta.value.0);
    if !applied.Ok? {
      return Err(if applied.TooLarge? then ObjectTooLarge else CorruptPack);
    }
    r := Keep(writes, recent,
              PackObject(found.value.kind, applied.value, Some(Retained(base, delta.value.0)), delta.value.1), hash);
  }

  method ReadFull(
      stream: PackStream.Stream, writes: PackWrites, recent: RecentPackBases, kind: Kind, size: nat, hash: Hash)
      returns (r: Result<Name>)
    requires stream.Valid() && writes.Valid() && recent.Valid() && stream.position <= |stream.whole|
    modifies stream, writes, writes.sink, recent
    ensures stream.Valid() && writes.Valid() && recent.Valid()
    ensures Extends(old(writes.sink.objects), writes.sink.objects)
    ensures old(Coherent(writes, recent)) ==>
      var spec := FullEntry(stream.whole, old(stream.position), kind, size, old(writes.View()), hash);
      && Stepped(r, spec, stream.position, writes.View(), Coherent(writes, recent))
      && Left(r, spec, old(writes.sink.objects), old(writes.View()), writes.sink.objects)
  {
    hide ReadStream, AddAll, Agree, Add, Extends;
    ExtendsItself(writes.sink.objects);
    ViewExtends(writes.sink.objects, writes.pending);
    var entry := InflateEntry(stream, size);
    if entry.Err? {
      return Err(entry.error);
    }
    r := Keep(writes, recent, PackObject(kind, entry.value.0, None, entry.value.1), hash);
  }

  /** Objects that wait are stored before an entry that will need the room. */
  method MakeRoom(writes: PackWrites, recent: RecentPackBases, size: nat) returns (failed: bool)
    requires writes.Valid() && recent.Valid()
    modifies writes, writes.sink
    ensures writes.Valid() && Extends(old(writes.sink.objects), writes.sink.objects)
    ensures failed ==> Extends(writes.sink.objects, old(writes.View()))
    ensures !failed ==>
      && writes.View() == old(writes.View())
      && (writes.sink.objects == old(writes.sink.objects) || writes.sink.objects == writes.View())
      && (old(Coherent(writes, recent)) ==> Coherent(writes, recent))
  {
    hide AddAll, Agree, Extends;
    ExtendsItself(writes.sink.objects);
    failed := false;
    if size >= WRITE_BATCH_BYTES {
      failed := writes.Flush();
      NothingAgrees(writes.sink.objects);
    }
  }

  method ReadOne(
      stream: PackStream.Stream, writes: PackWrites, recent: RecentPackBases, offsets: map<int, Name>, hash: Hash)
      returns (r: Result<Name>)
    requires stream.Valid() && writes.Valid() && recent.Valid()
    modifies stream, writes, writes.sink, recent
    ensures stream.Valid() && writes.Valid() && recent.Valid()
    ensures Extends(old(writes.sink.objects), writes.sink.objects)
    ensures old(Coherent(writes, recent)) ==>
      var spec := ReadEntry(stream.whole, old(stream.position), old(writes.View()), offsets, hash);
      && Stepped(r, spec, stream.position, writes.View(), Coherent(writes, recent))
      && Left(r, spec, old(writes.sink.objects), old(writes.View()), writes.sink.objects)
  {
    hide AddAll, Agree, Resolve, FullEntry, PackFormat.ReadHeader, Extends;
    ghost var stored := writes.sink.objects;
    ExtendsItself(stored);
    ViewExtends(stored, writes.pending);
    var offset: int := stream.position;
    var header := ReadEntryHeader(stream);
    if header.Err? {
      return Err(header.error);
    }
    var (kind, size) := header.value;
    var failed := MakeRoom(writes, recent, size);
    if failed {
      return Err(StorageFailed);
    }
    ghost var made := writes.sink.objects;
    r := ReadBody(stream, writes, recent, offset, kind, size, offsets, hash);
    ExtendsOn(stored, made, writes.sink.objects);
  }

  /** The entry behind its header. */
  method ReadBody(
      stream: PackStream.Stream, writes: PackWrites, recent: RecentPackBases, offset: int, kind: nat, size: nat,
      offsets: map<int, Name>, hash: Hash)
      returns (r: Result<Name>)
    requires stream.Valid() && writes.Valid() && recent.Valid() && stream.position <= |stream.whole|
    modifies stream, writes, writes.sink, recent
    ensures stream.Valid() && writes.Valid() && recent.Valid()
    ensures Extends(old(writes.sink.objects), writes.sink.objects)
    ensures old(Coherent(writes, recent)) ==>
      var spec :=
        EntryBody(stream.whole, offset, kind, size, old(stream.position), old(writes.View()), offsets, hash);
      && Stepped(r, spec, stream.position, writes.View(), Coherent(writes, recent))
      && Left(r, spec, old(writes.sink.objects), old(writes.View()), writes.sink.objects)
  {
    hide AddAll, Agree, Resolve, FullEntry, ReadOffset, Extends;
    ExtendsItself(writes.sink.objects);
    ViewExtends(writes.sink.objects, writes.pending);
    if kind == OFS_DELTA {
      var back := ReadBackOffset(stream);
      if back.Err? {
        return Err(back.error);
      }
      if offset - back.value !in offsets {
        return Err(MissingBase);
      }
      r := ResolveEntry(stream, writes, recent, size, offsets[offset - back.value], hash);
      return;
    }
    if kind == REF_DELTA {
      var base := stream.Take(OID_BYTES);
      if base.None? {
        return Err(Truncated);
      }
      r := ResolveEntry(stream, writes, recent, size, NameOf(base.value), hash);
      return;
    }
    if KindOfEntry(kind).None? {
      return Err(CorruptPack);
    }
    r := ReadFull(stream, writes, recent, KindOfEntry(kind).value, size, hash);
  }

  lemma EntriesUnfold(whole: seq<byte>, at: nat, count: nat, objects: Objects, offsets: map<int, Name>, hash: Hash)
    requires count > 0
    ensures ReadEntries(whole, at, count, objects, offsets, hash) ==
      match ReadEntry(whole, at, objects, offsets, hash)
      case Err(error) => Err(error)
      case Ok(e) => ReadEntries(whole, e.next, count - 1, e.objects, offsets[at := e.name], hash)
  {
    hide ReadEntry;
  }

  lemma EntriesOver(whole: seq<byte>, at: nat, objects: Objects, offsets: map<int, Name>, hash: Hash)
    ensures ReadEntries(whole, at, 0, objects, offsets, hash) == Ok((objects, at))
  {
  }

  /** Reading `m` entries from here, with what was read so far, is reading `n + m` from the start. */
  predicate ReadsOn(
      whole: seq<byte>, start: nat, n: nat, before: Objects, at: nat, view: Objects, offsets: map<int, Name>,
      hash: Hash, m: nat)
  {
    ReadEntries(whole, start, n + m, before, map[], hash) == ReadEntries(whole, at, m, view, offsets, hash)
  }

  ghost predicate Continues(
      whole: seq<byte>, start: nat, n: nat, before: Objects, at: nat, view: Objects, offsets: map<int, Name>,
      hash: Hash)
  {
    forall m: nat :: ReadsOn(whole, start, n, before, at, view, offsets, hash, m)
  }

  lemma ContinuesNext(
      whole: seq<byte>, start: nat, n: nat, before: Objects, at: nat, view: Objects, offsets: map<int, Name>,
      hash: Hash, e: PackFormat.Entry)
    requires Continues(whole, start, n, before, at, view, offsets, hash)
    requires ReadEntry(whole, at, view, offsets, hash) == Ok(e)
    ensures Continues(whole, start, n + 1, before, e.next, e.objects, offsets[at := e.name], hash)
  {
    hide ReadEntries, ReadEntry;
    var more, next, known := n + 1, e.next, offsets[at := e.name];
    forall m: nat
      ensures ReadsOn(whole, start, more, before, next, e.objects, known, hash, m)
    {
      assert more + m == n + (m + 1);
      assert ReadsOn(whole, start, n, before, at, view, offsets, hash, m + 1);
      EntriesUnfold(whole, at, m + 1, view, offsets, hash);
    }
  }

  lemma ContinuesFails(
      whole: seq<byte>, start: nat, n: nat, count: nat, before: Objects, at: nat, view: Objects,
      offsets: map<int, Name>, hash: Hash)
    requires Continues(whole, start, n, before, at, view, offsets, hash) && n < count
    requires ReadEntry(whole, at, view, offsets, hash).Err?
    ensures ReadEntries(whole, start, count, before, map[], hash)
      == Err(ReadEntry(whole, at, view, offsets, hash).error)
  {
    hide ReadEntries, ReadEntry;
    assert ReadsOn(whole, start, n, before, at, view, offsets, hash, count - n);
    EntriesUnfold(whole, at, count - n, view, offsets, hash);
  }

  lemma ContinuesFirst(
      whole: seq<byte>, start: nat, n: nat, before: Objects, at: nat, view: Objects, offsets: map<int, Name>,
      hash: Hash)
    requires Continues(whole, start, n, before, at, view, offsets, hash)
    ensures ReadEntries(whole, start, n, before, map[], hash) == Ok((view, at))
    ensures FirstEntries(whole, start, n, before, hash, view)
  {
    hide ReadEntries;
    assert ReadsOn(whole, start, n, before, at, view, offsets, hash, 0);
    EntriesOver(whole, at, view, offsets, hash);
  }

  lemma ContinuesAtFirst(whole: seq<byte>, start: nat, before: Objects, hash: Hash)
    ensures Continues(whole, start, 0, before, start, before, map[], hash)
  {
    hide ReadEntries;
  }

  /** What is stored is all that the first entries gave, for some number of them, */
  ghost predicate HoldsFirst(bytes: seq<byte>, at: nat, count: nat, before: Objects, hash: Hash, stored: Objects) {
    exists n: nat :: n <= count && FirstEntries(bytes, at, n, before, hash, stored)
  }

  /** or a part of that. */
  ghost predicate HoldsSome(bytes: seq<byte>, at: nat, count: nat, before: Objects, hash: Hash, stored: Objects) {
    exists n: nat, after :: n <= count && FirstEntries(bytes, at, n, before, hash, after) && Extends(stored, after)
  }

  /** How reading the entries may end. */
  ghost predicate EntriesEnd(
      bytes: seq<byte>, at: nat, count: nat, before: Objects, hash: Hash, r: Result<nat>, stored: Objects,
      position: nat)
  {
    match r
    case Ok(n) => n == count && ReadEntries(bytes, at, count, before, map[], hash) == Ok((stored, position))
    case Err(StorageFailed) => HoldsSome(bytes, at, count, before, hash, stored)
    case Err(error) =>
      && ReadEntries(bytes, at, count, before, map[], hash) == Err(error)
      && HoldsFirst(bytes, at, count, before, hash, stored)
  }

  /** An entry that could not be read, or not stored, ends it. */
  lemma EntryEnds(
      whole: seq<byte>, start: nat, n: nat, count: nat, before: Objects, at: nat, view: Objects,
      offsets: map<int, Name>, hash: Hash, r: Result<Name>, stored: Objects, left: Objects, position: nat)
    requires Continues(whole, start, n, before, at, view, offsets, hash) && n < count && r.Err?
    requires HoldsFirst(whole, start, count, before, hash, stored)
    requires var spec := ReadEntry(whole, at, view, offsets, hash);
      && spec != Err(Collision) && (r.error == StorageFailed || spec == Err(r.error))
      && Left(r, spec, stored, view, left)
    ensures EntriesEnd(whole, start, count, before, hash, Err(r.error), left, position)
  {
    hide ReadEntries, ReadEntry, FirstEntries, Extends;
    ContinuesFirst(whole, start, n, before, at, view, offsets, hash);
    var spec := ReadEntry(whole, at, view, offsets, hash);
    if r.error == StorageFailed {
      if !Extends(left, view) {
        ContinuesNext(whole, start, n, before, at, view, offsets, hash, spec.value);
        ContinuesFirst(
          whole, start, n + 1, before, spec.value.next, spec.value.objects, offsets[at := spec.value.name], hash);
      }
    } else {
      ContinuesFails(whole, start, n, count, before, at, view, offsets, hash);
    }
  }

  /** An entry that was read leads on. */
  lemma EntryLeadsOn(
      whole: seq<byte>, start: nat, n: nat, count: nat, before: Objects, at: nat, view: Objects,
      offsets: map<int, Name>, hash: Hash, r: Result<Name>, stored: Objects, left: Objects)
    requires Continues(whole, start, n, before, at, view, offsets, hash) && n < count && r.Ok?
    requires HoldsFirst(whole, start, count, before, hash, stored)
    requires var spec := ReadEntry(whole, at, view, offsets, hash);
      spec.Ok? && r == Ok(spec.value.name) && Left(r, spec, stored, view, left)
    ensures var e := ReadEntry(whole, at, view, offsets, hash).value;
      && Continues(whole, start, n + 1, before, e.next, e.objects, offsets[at := e.name], hash)
      && HoldsFirst(whole, start, count, before, hash, left)
  {
    hide ReadEntries, ReadEntry, FirstEntries, Extends;
    var e := ReadEntry(whole, at, view, offsets, hash).value;
    ContinuesFirst(whole, start, n, before, at, view, offsets, hash);
    ContinuesNext(whole, start, n, before, at, view, offsets, hash, e);
    ContinuesFirst(whole, start, n + 1, before, e.next, e.objects, offsets[at := e.name], hash);
  }

  lemma CollisionEnds(
      whole: seq<byte>, start: nat, n: nat, count: nat, before: Objects, at: nat, view: Objects,
      offsets: map<int, Name>, hash: Hash)
    requires Continues(whole, start, n, before, at, view, offsets, hash) && n < count
    requires ReadEntry(whole, at, view, offsets, hash) == Err(Collision)
    ensures ReadEntries(whole, start, count, before, map[], hash) == Err(Collision)
  {
    hide ReadEntries, ReadEntry;
    ContinuesFails(whole, start, n, count, before, at, view, offsets, hash);
  }

  /** Reads the entries. What was stored before stays; and unless two objects share a name, what is stored in
      the end is what the entries gave, or, if one could not be read or stored, what those before it gave. */
  method ReadAll(stream: PackStream.Stream, writes: PackWrites, count: nat, hash: Hash) returns (r: Result<nat>)
    requires stream.Valid() && writes.Valid() && writes.pending == []
    modifies stream, writes, writes.sink
    ensures stream.Valid() && Extends(old(writes.sink.objects), writes.sink.objects)
    ensures
      ReadEntries(stream.whole, old(stream.position), count, old(writes.sink.objects), map[], hash) == Err(Collision) ||
      EntriesEnd(
        stream.whole, old(stream.position), count, old(writes.sink.objects), hash, r, writes.sink.objects,
        stream.position)
  {
    hide ReadEntries, ReadEntry, AddAll, Agree, Extends, Continues, HoldsFirst, HoldsSome, Left, Coherent;
    ghost var whole, start, before := stream.whole, stream.position, writes.sink.objects;
    var offsets: map<int, Name> := map[];
    var recent := new RecentPackBases();
    ReadingBegins(writes, recent, whole, start, count, hash);
    ghost var sound := true;
    for index := 0 to count
      invariant stream.Valid() && writes.Valid() && recent.Valid() && fresh(recent)
      invariant Extends(before, writes.sink.objects)
      invariant !sound ==> ReadEntries(whole, start, count, before, map[], hash) == Err(Collision)
      invariant sound ==>
        && Coherent(writes, recent) && HoldsFirst(whole, start, count, before, hash, writes.sink.objects)
        && Continues(whole, start, index, before, stream.position, writes.View(), offsets, hash)
    {
      var offset := stream.position;
      ghost var view, stored := writes.View(), writes.sink.objects;
      if sound && ReadEntry(whole, offset, view, offsets, hash) == Err(Collision) {
        CollisionEnds(whole, start, index, count, before, offset, view, offsets, hash);
        sound := false;
      }
      var name := ReadOne(stream, writes, recent, offsets, hash);
      ExtendsOn(before, stored, writes.sink.objects);
      if name.Err? {
        if sound {
          EntryEnds(
            whole, start, index, count, before, offset, view, offsets, hash, name, stored, writes.sink.objects,
            stream.position);
        }
        return Err(name.error);
      }
      if sound {
        EntryLeadsOn(
          whole, start, index, count, before, offset, view, offsets, hash, name, stored, writes.sink.objects);
      }
      offsets := offsets[offset := name.value];
    }
    ghost var view, stored := writes.View(), writes.sink.objects;
    if sound {
      ContinuesFirst(whole, start, count, before, stream.position, view, offsets, hash);
    }
    var failed := writes.Flush();
    ExtendsOn(before, stored, writes.sink.objects);
    if failed {
      if sound {
        PartIsHeld(whole, start, count, before, hash, view, writes.sink.objects);
      }
      return Err(StorageFailed);
    }
    r := Ok(count);
  }

  lemma PartIsHeld(
      whole: seq<byte>, start: nat, count: nat, before: Objects, hash: Hash, after: Objects, stored: Objects)
    requires FirstEntries(whole, start, count, before, hash, after) && Extends(stored, after)
    ensures HoldsSome(whole, start, count, before, hash, stored)
  {
  }

  lemma ReadingBegins(
      writes: PackWrites, recent: RecentPackBases, whole: seq<byte>, start: nat, count: nat, hash: Hash)
    requires writes.Valid() && writes.pending == [] && recent.Valid() && recent.entries == []
    ensures Coherent(writes, recent) && Extends(writes.sink.objects, writes.sink.objects)
    ensures HoldsFirst(whole, start, count, writes.sink.objects, hash, writes.sink.objects)
    ensures Continues(whole, start, 0, writes.sink.objects, start, writes.View(), map[], hash)
  {
    hide ReadEntries;
    NothingAgrees(writes.sink.objects);
    AddNothing(writes.sink.objects);
    ContinuesAtFirst(whole, start, writes.sink.objects, hash);
    ContinuesFirst(whole, start, 0, writes.sink.objects, start, writes.sink.objects, map[], hash);
  }

  /** The trailer closes the pack and carries the checksum of all before it. */
  method ReadTrailer(stream: PackStream.Stream) returns (error: Option<PackError>)
    requires stream.Valid()
    modifies stream
    ensures var whole, end := stream.whole, old(stream.position);
            error == if end + 20 > |whole| then Some(Truncated)
                     else if end + 20 < |whole| then Some(TrailingBytes)
                     else if whole[end..] != stream.sha1(whole[..end]) then Some(ChecksumMismatch)
                     else None
  {
    ghost var whole, end := stream.whole, stream.position;
    var trailer := stream.Take(PackStream.TRAILER_BYTES);
    if trailer.None? {
      return Some(Truncated);
    }
    var over := stream.AtEnd();
    if !over {
      return Some(TrailingBytes);
    }
    var digest := stream.Digest();
    assert |whole| - Least(PackStream.TRAILER_BYTES, |whole|) == end;
    assert whole[end..] == whole[end..end + 20];
    error := if trailer.value != digest then Some(ChecksumMismatch) else None;
  }

  lemma BigEndianOfPrefix(whole: seq<byte>, at: nat)
    requires at + 4 <= HEADER_BYTES <= |whole|
    ensures BigEndian(whole[..HEADER_BYTES], at) == BigEndian(whole, at)
  {
  }

  /** How reading a pack may end. A pack that is refused has left what its first entries gave, for some number
      of them; a part of that if the refusal was for want of room. */
  ghost predicate PackEnds(
      bytes: seq<byte>, before: Objects, hash: Hash, sha1: seq<byte> -> seq<byte>, r: Result<nat>, stored: Objects)
  {
    match r
    case Ok(n) => n == EntryCount(bytes) && PackFormat.ReadPack(bytes, before, hash, sha1) == Ok(stored)
    case Err(StorageFailed) => HoldsSome(bytes, HEADER_BYTES, EntryCount(bytes), before, hash, stored)
    case Err(error) =>
      && PackFormat.ReadPack(bytes, before, hash, sha1) == Err(error)
      && HoldsFirst(bytes, HEADER_BYTES, EntryCount(bytes), before, hash, stored)
  }

  lemma NoEntryIsRead(bytes: seq<byte>, before: Objects, hash: Hash)
    ensures HoldsFirst(bytes, HEADER_BYTES, EntryCount(bytes), before, hash, before)
  {
    hide BigEndian;
    EntriesOver(bytes, HEADER_BYTES, before, map[], hash);
    assert FirstEntries(bytes, HEADER_BYTES, 0, before, hash, before);
  }

  lemma AllEntriesAreRead(bytes: seq<byte>, before: Objects, hash: Hash, after: Objects, end: nat)
    requires ReadEntries(bytes, HEADER_BYTES, EntryCount(bytes), before, map[], hash) == Ok((after, end))
    ensures HoldsFirst(bytes, HEADER_BYTES, EntryCount(bytes), before, hash, after)
  {
    hide BigEndian, ReadEntries;
    assert FirstEntries(bytes, HEADER_BYTES, EntryCount(bytes), before, hash, after);
  }

  /** Reads a pack out of a body that arrives in any chunks, into a sink that may already hold objects. What
      was there stays, whatever the pack; and the outcome is that of the whole pack, unless a write failed or
      two objects share a name. */
  method ReadPack(body: seq<seq<byte>>, sink: Sink, hash: Hash, sha1: seq<byte> -> seq<byte>) returns (r: Result<nat>)
    modifies sink
    ensures Extends(old(sink.objects), sink.objects)
    ensures
      PackFormat.ReadPack(Flatten(body), old(sink.objects), hash, sha1) == Err(Collision) ||
      PackEnds(Flatten(body), old(sink.objects), hash, sha1, r, sink.objects)
  {
    hide ReadEntries, BigEndian, AddAll, HoldsFirst, HoldsSome, Extends;
    ghost var whole, before := Flatten(body), sink.objects;
    NoEntryIsRead(whole, before, hash);
    ExtendsItself(before);
    var stream := new PackStream.Stream(body, sha1);
    var header := stream.Take(HEADER_BYTES);
    if header.None? {
      return Err(Truncated);
    }
    assert header.value == whole[..HEADER_BYTES];
    BigEndianOfPrefix(whole, 4);
    BigEndianOfPrefix(whole, 8);
    assert header.value[..4] == whole[..4];
    if header.value[..4] != SIGNATURE {
      return Err(NotAPack);
    }
    var version := BigEndian(header.value, 4);
    if version != 2 && version != 3 {
      return Err(UnsupportedVersion);
    }
    var count := BigEndian(header.value, 8);
    var writes := new PackWrites(sink);
    r := ReadAll(stream, writes, count, hash);
    if r.Err? {
      return;
    }
    if ReadEntries(whole, HEADER_BYTES, count, before, map[], hash) != Err(Collision) {
      AllEntriesAreRead(whole, before, hash, sink.objects, stream.position);
    }
    var error := ReadTrailer(stream);
    if error.Some? {
      r := Err(error.value);
    }
  }
}
