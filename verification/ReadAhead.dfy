/** Bounded reads planned once, and read ahead of the entries they serve under a byte
    budget. */
module ReadAhead {
  import opened Bits
  import opened Options
  import opened Graph
  import opened PackFormat
  import opened PackText
  import opened PackWriter
  import ChunkedKv
  import PackFrames

  const READ_BYTES := 8 * 1024 * 1024
  const READ_KEYS := 96
  const READ_AHEAD := 4
  const PREFETCH_BYTES := 16 * 1024 * 1024

  // ---- Windows ------------------------------------------------------------------------------

  /** A cached representation: its bytes, and the keys they are stored under. */
  datatype Representation = Representation(size: nat, chunkCount: nat)

  datatype DeltaMetadata = DeltaMetadata(base: Name, compressed: Option<Representation>)

  datatype Metadata = Metadata(full: Option<Representation>, delta: Option<DeltaMetadata>)

  datatype Request = Request(oid: Name, preferred: Option<Name>)

  datatype Window = Window(start: nat, end: nat, requests: seq<Request>, bytes: nat)

  /** What is known of the objects of a pack, in their order. */
  datatype Order = Order(oids: seq<Name>, bases: map<Name, Name>, metadata: map<Name, Metadata>)

  function Sized(z: Option<seq<byte>>): Option<Representation> {
    if z.None? then None else Some(Representation(|z.value|, ChunkedKv.ChunkCount(|z.value|)))
  }

  /** What is on record about a stored object. */
  function Describe(o: Stored): Metadata {
    Metadata(
      Sized(o.full),
      if o.delta.None? then None else Some(DeltaMetadata(o.delta.value.base, Sized(o.delta.value.compressed))))
  }

  /** All that is on record about the objects of a pack. */
  function OrderOf(source: Source, oids: seq<Name>): Order {
    Order(oids, StoredBases(source, oids), map n | n in oids && n in source :: Describe(source[n]))
  }

  /** The base that is known when the `i`-th object is written: what the emission decides by. */
  function KnownBase(order: Order, i: nat, thin: bool, client: set<Name>): Option<Name>
    requires i < |order.oids|
  {
    var oid := order.oids[i];
    if oid in order.bases && order.bases[oid] in AvailableAt(order.oids, i, thin, client) then Some(order.bases[oid])
    else None
  }

  /** The representation to read for the `i`-th object, if one is cached. */
  function Chosen(order: Order, i: nat, thin: bool, client: set<Name>): Option<Representation>
    requires i < |order.oids|
  {
    var oid := order.oids[i];
    if oid !in order.metadata then None
    else
      var m := order.metadata[oid];
      if KnownBase(order, i, thin, client).Some? then
        if m.delta.None? then None
        else if m.delta.value.compressed.Some? then m.delta.value.compressed else m.full
      else m.full
  }

  function RequestsIn(order: Order, start: nat, end: nat, thin: bool, client: set<Name>): seq<Request>
    requires start <= end <= |order.oids|
    decreases end
  {
    if start == end then []
    else
      RequestsIn(order, start, end - 1, thin, client)
      + if Chosen(order, end - 1, thin, client).Some?
        then [Request(order.oids[end - 1], KnownBase(order, end - 1, thin, client))]
        else []
  }

  function BytesIn(order: Order, start: nat, end: nat, thin: bool, client: set<Name>): nat
    requires start <= end <= |order.oids|
    decreases end
  {
    if start == end then 0
    else
      var r := Chosen(order, end - 1, thin, client);
      BytesIn(order, start, end - 1, thin, client) + if r.Some? then r.value.size else 0
  }

  function KeysIn(order: Order, start: nat, end: nat, thin: bool, client: set<Name>): nat
    requires start <= end <= |order.oids|
    decreases end
  {
    if start == end then 0
    else
      var r := Chosen(order, end - 1, thin, client);
      KeysIn(order, start, end - 1, thin, client) + if r.Some? then r.value.chunkCount else 0
  }

  /** A window asks for what its objects need, no more than one read may hold, which is 8 MiB under 96 keys, unless
      it asks for one thing only; and it ends only where the next object's form would not fit. */
  predicate IsWindow(order: Order, thin: bool, client: set<Name>, w: Window) {
    && w.start < w.end <= |order.oids|
    && w.requests == RequestsIn(order, w.start, w.end, thin, client)
    && w.bytes == BytesIn(order, w.start, w.end, thin, client)
    && (|w.requests| > 1 ==> w.bytes <= 8388608 && KeysIn(order, w.start, w.end, thin, client) <= 96)
    && (w.end < |order.oids| ==>
          && w.requests != [] && Chosen(order, w.end, thin, client).Some?
          && var next := Chosen(order, w.end, thin, client).value;
            w.bytes + next.size > 8388608 || KeysIn(order, w.start, w.end, thin, client) + next.chunkCount > 96)
  }

  /** The windows tile the order up to `end`. */
  predicate Tiles(windows: seq<Window>, end: nat) {
    && (windows == [] ==> end == 0)
    && (windows != [] ==> windows[0].start == 0 && windows[|windows| - 1].end == end)
    && forall i :: 0 < i < |windows| ==> windows[i].start == windows[i - 1].end
  }

  predicate Windowed(order: Order, thin: bool, client: set<Name>, windows: seq<Window>) {
    Tiles(windows, |order.oids|) && forall w :: w in windows ==> IsWindow(order, thin, client, w)
  }

  lemma OneMore(order: Order, start: nat, end: nat, thin: bool, client: set<Name>)
    requires start <= end < |order.oids|
    ensures var r := Chosen(order, end, thin, client);
            && RequestsIn(order, start, end + 1, thin, client)
               == RequestsIn(order, start, end, thin, client)
                  + (if r.Some? then [Request(order.oids[end], KnownBase(order, end, thin, client))] else [])
            && BytesIn(order, start, end + 1, thin, client) == BytesIn(order, start, end, thin, client)
                 + (if r.Some? then r.value.size else 0)
            && KeysIn(order, start, end + 1, thin, client) == KeysIn(order, start, end, thin, client)
                 + (if r.Some? then r.value.chunkCount else 0)
  {
    hide Chosen, KnownBase;
  }

  /** As many of the objects from `start` as one read may hold, and at least one. */
  method PlanWindow(order: Order, thin: bool, client: set<Name>, start: nat, before: set<Name>)
      returns (w: Window, available: set<Name>)
    requires start < |order.oids| && before == Members(order.oids[..start])
    ensures IsWindow(order, thin, client, w) && w.start == start
    ensures available == Members(order.oids[..w.end])
  {
    hide Chosen, KnownBase, RequestsIn, BytesIn, KeysIn;
    NoneYet(order, start, thin, client);
    var requests: seq<Request>, bytes: nat, keys: nat := [], 0, 0;
    var end := start;
    available := before;
    while end < |order.oids|
      invariant start <= end <= |order.oids|
      invariant available == Members(order.oids[..end])
      invariant requests == RequestsIn(order, start, end, thin, client)
      invariant bytes == BytesIn(order, start, end, thin, client) && keys == KeysIn(order, start, end, thin, client)
      invariant |requests| > 1 ==> bytes <= READ_BYTES && keys <= READ_KEYS
      invariant requests == [] ==> bytes == 0 && keys == 0
    {
      var oid := order.oids[end];
      var base := Known(order, end, thin, client, available);
      var r := Chosen(order, end, thin, client);
      OneMore(order, start, end, thin, client);
      if r.Some? && |requests| > 0 && (bytes + r.value.size > READ_BYTES || keys + r.value.chunkCount > READ_KEYS) {
        break;
      }
      if r.Some? {
        requests := requests + [Request(oid, base)];
        bytes, keys := bytes + r.value.size, keys + r.value.chunkCount;
      }
      assert order.oids[..end + 1] == order.oids[..end] + [oid];
      available := available + {oid};
      end := end + 1;
    }
    w := Window(start, end, requests, bytes);
  }

  lemma NoneYet(order: Order, start: nat, thin: bool, client: set<Name>)
    requires start <= |order.oids|
    ensures RequestsIn(order, start, start, thin, client) == [] && BytesIn(order, start, start, thin, client) == 0
    ensures KeysIn(order, start, start, thin, client) == 0
  {
  }

  method Known(order: Order, i: nat, thin: bool, client: set<Name>, available: set<Name>) returns (base: Option<Name>)
    requires i < |order.oids| && available == Members(order.oids[..i])
    ensures base == KnownBase(order, i, thin, client)
  {
    var oid := order.oids[i];
    if oid in order.bases && (order.bases[oid] in available || (thin && order.bases[oid] in client)) {
      return Some(order.bases[oid]);
    }
    base := None;
  }

  /** Plans all reads of a pack. */
  method PackReadWindows(order: Order, thin: bool, client: set<Name>) returns (windows: seq<Window>)
    ensures Windowed(order, thin, client, windows)
  {
    hide IsWindow;
    windows := [];
    var available: set<Name> := {};
    var start := 0;
    while start < |order.oids|
      invariant start <= |order.oids| && available == Members(order.oids[..start])
      invariant Tiles(windows, start) && forall w :: w in windows ==> IsWindow(order, thin, client, w)
    {
      var w: Window;
      w, available := PlanWindow(order, thin, client, start, available);
      WindowIsNotEmpty(order, thin, client, w);
      windows, start := windows + [w], w.end;
    }
  }

  lemma WindowIsNotEmpty(order: Order, thin: bool, client: set<Name>, w: Window)
    requires IsWindow(order, thin, client, w)
    ensures w.start < w.end <= |order.oids|
  {
  }

  // ---- What a window reads ------------------------------------------------------------------------

  /** The cached entry of the `i`-th object, as its base allows when it is written. */
  function SelectedAt(source: Source, oids: seq<Name>, i: nat, thin: bool, client: set<Name>): Option<Emitted>
    requires i < |oids| && oids[i] in source
  {
    SelectCached(source[oids[i]], KnownBase(OrderOf(source, oids), i, thin, client))
  }

  /** The plan and the emission decide alike, object by object: the base the plan supposes known is the
      one found known, and what it plans to read is, in size and keys, the entry then selected. */
  lemma PlannedAsEmitted(source: Source, oids: seq<Name>, i: nat, thin: bool, client: set<Name>)
    requires i < |oids| && oids[i] in source
    ensures var o, available := source[oids[i]], AvailableAt(oids, i, thin, client);
      && KnownBase(OrderOf(source, oids), i, thin, client)
         == (if o.delta.Some? && o.delta.value.base in available then Some(o.delta.value.base) else None)
      && var e := SelectedAt(source, oids, i, thin, client);
         Chosen(OrderOf(source, oids), i, thin, client) == Sized(if e.Some? then Some(e.value.z) else None)
  {
    var oid := oids[i];
    assert oid in StoredBases(source, oids) <==> source[oid].delta.Some?;
  }

  function Selected(source: Source, r: Request): Option<Emitted> {
    if r.oid in source then SelectCached(source[r.oid], r.preferred) else None
  }

  /** What a read brings. */
  function Brought(source: Source, requests: seq<Request>): map<Name, Emitted>
    decreases |requests|
  {
    if requests == [] then map[]
    else
      var r := requests[|requests| - 1];
      var e := Selected(source, r);
      var before := Brought(source, requests[..|requests| - 1]);
      if e.Some? then before[r.oid := e.value] else before
  }

  lemma WrittenMore(before: seq<byte>, es: seq<Emitted>, e: Emitted)
    ensures before + EntriesBytes(es) + EntryBytes(e) == before + EntriesBytes(es + [e])
  {
    hide EntryBytes, EntriesBytes;
    EntriesAppend(es, e);
    Regroup(before, EntriesBytes(es), EntryBytes(e));
  }

  lemma NoEntries()
    ensures EntriesBytes([]) == []
  {
  }

  lemma OrderedAsListed(source: Source, oids: seq<Name>)
    ensures OrderOf(source, oids).oids == oids
  {
  }

  method ReadCachedPackEntries(source: Source, requests: seq<Request>) returns (entries: map<Name, Emitted>)
    ensures entries == Brought(source, requests)
  {
    hide Selected;
    entries := map[];
    for i := 0 to |requests|
      invariant entries == Brought(source, requests[..i])
    {
      assert requests[..i + 1][..i] == requests[..i];
      var e := Selected(source, requests[i]);
      if e.Some? {
        entries := entries[requests[i].oid := e.value];
      }
    }
    assert requests[..|requests|] == requests;
  }

  function Found(entries: map<Name, Emitted>, oid: Name): Option<Emitted> {
    if oid in entries then Some(entries[oid]) else None
  }

  /** The read of a window brings exactly the cached entries of its objects. */
  ghost predicate Serves(
      source: Source, oids: seq<Name>, start: nat, end: nat, thin: bool, client: set<Name>, entries: map<Name, Emitted>)
    requires start <= end <= |oids| && forall n :: n in oids ==> n in source
  {
    && (forall n :: n in entries ==> n in oids[start..end])
    && (forall i :: start <= i < end ==> Found(entries, oids[i]) == SelectedAt(source, oids, i, thin, client))
  }

  lemma {:induction false} WindowServes(
      source: Source, oids: seq<Name>, start: nat, end: nat, thin: bool, client: set<Name>)
    requires start <= end <= |oids| && (forall n :: n in oids ==> n in source) && Distinct(oids)
    ensures Serves(
      source, oids, start, end, thin, client,
      Brought(source, RequestsIn(OrderOf(source, oids), start, end, thin, client)))
    decreases end
  {
    hide Chosen, KnownBase, SelectCached, AvailableAt;
    var order := OrderOf(source, oids);
    if start < end {
      var last := end - 1;
      WindowServes(source, oids, start, last, thin, client);
      PlannedAsEmitted(source, oids, last, thin, client);
      assert oids[start..end] == oids[start..last] + [oids[last]];
      var before, requests := RequestsIn(order, start, last, thin, client), RequestsIn(order, start, end, thin, client);
      if SelectedAt(source, oids, last, thin, client).Some? {
        assert requests[..|requests| - 1] == before;
      } else {
        assert requests == before;
      }
      assert oids[last] !in oids[start..last];
    }
  }

  lemma ReadServes(source: Source, oids: seq<Name>, thin: bool, client: set<Name>, windows: seq<Window>, k: nat)
    requires Windowed(OrderOf(source, oids), thin, client, windows) && k < |windows|
    requires (forall n :: n in oids ==> n in source) && Distinct(oids)
    ensures windows[k].start < windows[k].end <= |oids|
    ensures Serves(source, oids, windows[k].start, windows[k].end, thin, client, Brought(source, windows[k].requests))
  {
    hide Serves, RequestsIn, BytesIn, KeysIn;
    assert windows[k] in windows;
    WindowServes(source, oids, windows[k].start, windows[k].end, thin, client);
  }

  /** What was read ahead is what would be read now; so is what was not. */
  lemma ReadAheadIsSelected(
      source: Source, oids: seq<Name>, thin: bool, client: set<Name>, w: Window, i: nat, emitted: set<Name>)
    requires w.start <= i < w.end <= |oids| && (forall n :: n in oids ==> n in source)
    requires Serves(source, oids, w.start, w.end, thin, client, Brought(source, w.requests))
    requires AvailableAt(oids, i, thin, client) == emitted + (if thin then client else {})
    ensures var o := source[oids[i]];
      var known := o.delta.Some? && (o.delta.value.base in emitted || (thin && o.delta.value.base in client));
      && Found(Brought(source, w.requests), oids[i])
           == SelectCached(o, if known then Some(o.delta.value.base) else None)
      && known == (o.delta.Some? && o.delta.value.base in AvailableAt(oids, i, thin, client))
  {
    hide SelectCached, Brought, Found;
    PlannedAsEmitted(source, oids, i, thin, client);
  }

  // ---- What is written when --------------------------------------------------------------------------

  /** The `i`-th entry is written while `w` is active: it is what the read of `w` brought, and if that
      brought nothing, nothing was cached that could have been read. */
  ghost predicate WrittenIn(
      source: Source, oids: seq<Name>, thin: bool, client: set<Name>, w: Window, i: nat, e: Emitted)
  {
    && w.start <= i < w.end && i < |oids| && oids[i] in source
    && var read := Found(Brought(source, w.requests), oids[i]);
       if read.Some? then e == read.value else SelectedAt(source, oids, i, thin, client).None?
  }

  lemma PlannedIsWritten(
      source: Source, oids: seq<Name>, thin: bool, client: set<Name>, w: Window, i: nat, planned: Option<Emitted>,
      known: bool, deflate: seq<byte> -> seq<byte>)
    requires w.start <= i < w.end <= |oids| && (forall n :: n in oids ==> n in source)
    requires Serves(source, oids, w.start, w.end, thin, client, Brought(source, w.requests))
    requires known ==> source[oids[i]].delta.Some?
    requires var read := Found(Brought(source, w.requests), oids[i]); read.Some? ==> planned == read
    ensures WrittenIn(source, oids, thin, client, w, i, EntryOf(source[oids[i]], planned, known, deflate))
  {
    hide SelectedAt, Brought;
  }

  ghost predicate Logged(
      source: Source, oids: seq<Name>, thin: bool, client: set<Name>, windows: seq<Window>, es: seq<Emitted>,
      log: seq<nat>)
  {
    && |log| == |es|
    && forall i :: 0 <= i < |log| ==>
         log[i] < |windows| && WrittenIn(source, oids, thin, client, windows[log[i]], i, es[i])
  }

  lemma NothingLogged(source: Source, oids: seq<Name>, thin: bool, client: set<Name>, windows: seq<Window>)
    ensures Logged(source, oids, thin, client, windows, [], [])
  {
  }

  lemma LoggedNext(
      source: Source, oids: seq<Name>, thin: bool, client: set<Name>, windows: seq<Window>, es: seq<Emitted>,
      log: seq<nat>, e: Emitted, k: nat)
    requires Logged(source, oids, thin, client, windows, es, log)
    requires k < |windows| && WrittenIn(source, oids, thin, client, windows[k], |es|, e)
    ensures Logged(source, oids, thin, client, windows, es + [e], log + [k])
  {
    hide WrittenIn;
  }

  // ---- The scheduler ----------------------------------------------------------------------------

  /** The bytes of the windows from `from` to `to`. */
  function Sum(windows: seq<Window>, from: nat, to: nat): nat
    requires from <= to <= |windows|
    decreases |windows| - from
  {
    if from == to then 0 else windows[from].bytes + Sum(windows, from + 1, to)
  }

  lemma {:induction false} SumGrows(windows: seq<Window>, from: nat, to: nat)
    requires from <= to < |windows|
    ensures Sum(windows, from, to + 1) == Sum(windows, from, to) + windows[to].bytes
    decreases |windows| - from
  {
    if from < to {
      SumGrows(windows, from + 1, to);
    }
  }

  /** At most 16 MiB, or all of it belongs to one window of those counted. */
  predicate WithinBudget(windows: seq<Window>, first: nat, next: nat, reserved: nat) {
    reserved <= 16777216 || exists k: nat :: first <= k < next && k < |windows| && windows[k].bytes == reserved
  }

  lemma SumIsZero(windows: seq<Window>, from: nat, to: nat)
    requires from <= to <= |windows|
    ensures from == to ==> Sum(windows, from, to) == 0
  {
  }

  lemma WithinMore(windows: seq<Window>, first: nat, next: nat, reserved: nat)
    requires first <= next < |windows| && WithinBudget(windows, first, next, reserved)
    requires reserved == 0 || reserved + windows[next].bytes <= PREFETCH_BYTES
    ensures WithinBudget(windows, first, next + 1, reserved + windows[next].bytes)
  {
  }

  lemma {:induction false} SumHas(windows: seq<Window>, from: nat, to: nat, k: nat)
    requires from <= k < to <= |windows|
    ensures windows[k].bytes <= Sum(windows, from, to)
    decreases |windows| - from
  {
    if from < k {
      SumHas(windows, from + 1, to, k);
    }
  }

  /** Letting the first window go keeps the rest within the budget. */
  lemma ReleaseFirst(windows: seq<Window>, at: nat, next: nat, active: nat, reserved: nat)
    requires 0 < at <= next <= |windows| && active == windows[at - 1].bytes
    requires reserved == active + Sum(windows, at, next) && WithinBudget(windows, at - 1, next, reserved)
    ensures WithinBudget(windows, at, next, reserved - active)
  {
    if reserved > PREFETCH_BYTES {
      var k: nat :| at - 1 <= k < next && windows[k].bytes == reserved;
      if k >= at {
        SumHas(windows, at, next, k);
      }
    }
  }

  /** Writes the next entry: what was read ahead for it, or what is found now. */
  method WriteNext(
      frames: PackFrames.PackFrameWriter, source: Source, ghost hash: Hash, oids: seq<Name>, client: set<Name>,
      thin: bool, deflate: seq<byte> -> seq<byte>, index: nat, emitted: set<Name>, prefetched: map<Name, Emitted>,
      ghost active: Window)
      returns (e: Emitted)
    requires frames.Valid() && !frames.digested
    requires CoherentSource(source, hash) && Deflates(deflate)
    requires active.start <= index < active.end <= |oids| && forall n :: n in oids ==> n in source
    requires prefetched == Brought(source, active.requests)
    requires Serves(source, oids, active.start, active.end, thin, client, prefetched)
    requires AvailableAt(oids, index, thin, client) == emitted + (if thin then client else {}) <= source.Keys
    modifies frames, frames.frame
    ensures frames.Valid() && !frames.digested && frames.taken == old(frames.taken)
    ensures frames.frame == old(frames.frame) || fresh(frames.frame)
    ensures frames.Written() == old(frames.Written()) + EntryBytes(e)
    ensures var o := source[oids[index]];
      e == Choose(o, o.delta.Some? && o.delta.value.base in AvailableAt(oids, index, thin, client), deflate)
    ensures WrittenIn(source, oids, thin, client, active, index, e)
  {
    hide CoherentSource, Deflates, Emits, EntryBytes, PackFrames.PackFrameWriter.Sound, AvailableAt, Brought, EntryOf,
         SelectCached, WrittenIn, Serves, PackFrames.PackFrameWriter.Queued, PackFrames.PackFrameWriter.Written;
    var oid := oids[index];
    var o := source[oid];
    var known := o.delta.Some? && (o.delta.value.base in emitted || (thin && o.delta.value.base in client));
    ReadAheadIsSelected(source, oids, thin, client, active, index, emitted);
    var planned :=
      if oid in prefetched then Some(prefetched[oid])
        else SelectCached(o, if known then Some(o.delta.value.base) else None);
    e := EntryOf(o, planned, known, deflate);
    PlannedIsWritten(source, oids, thin, client, active, index, planned, known, deflate);
    ChoiceEmits(source, hash, oid, AvailableAt(oids, index, thin, client), deflate);
    BaseHasName(source, hash, oid, e, AvailableAt(oids, index, thin, client));
    ChoiceIff(o, known, deflate);
    WriteEntry(frames, e);
  }

  class Scheduler {
    const windows: seq<Window>
    var readWindowAt: nat
    var nextReadWindow: nat
    var prefetchedWindows: set<nat>
    var reservedBytes: nat
    var activeBytes: nat

    /** What is reserved, beyond the bytes being written, is what is queued. */
    ghost predicate Consistent(first: nat)
      reads this
    {
      && first <= readWindowAt <= nextReadWindow <= |windows|
      && nextReadWindow <= readWindowAt + 4
      && (forall i: nat :: i in prefetchedWindows <==> readWindowAt <= i < nextReadWindow)
      && reservedBytes == activeBytes + Sum(windows, readWindowAt, nextReadWindow)
      && WithinBudget(windows, first, nextReadWindow, reservedBytes)
    }

    /** The window last taken is being written. */
    ghost predicate Valid()
      reads this
    {
      if readWindowAt == 0 then activeBytes == 0 && Consistent(0)
      else Consistent(readWindowAt - 1) && activeBytes == windows[readWindowAt - 1].bytes
    }

    constructor (windows: seq<Window>)
      ensures Valid() && this.windows == windows && readWindowAt == 0
    {
      this.windows := windows;
      readWindowAt, nextReadWindow, prefetchedWindows, reservedBytes, activeBytes := 0, 0, {}, 0, 0;
      new;
      FillReadAhead(0);
    }

    /** Queues windows while the budget lasts; an oversized one runs alone. */
    method FillReadAhead(ghost first: nat)
      requires Consistent(first)
      modifies this`nextReadWindow, this`prefetchedWindows, this`reservedBytes
      ensures Consistent(first)
      ensures activeBytes == 0 && readWindowAt < |windows| ==> readWindowAt in prefetchedWindows
      ensures nextReadWindow == |windows| || nextReadWindow == readWindowAt + 4 ||
        (reservedBytes > 0 && reservedBytes + windows[nextReadWindow].bytes > 16777216)
    {
      while nextReadWindow < |windows| && nextReadWindow < readWindowAt + READ_AHEAD
        invariant Consistent(first)
        decreases |windows| - nextReadWindow
      {
        var window := windows[nextReadWindow];
        if reservedBytes > 0 && reservedBytes + window.bytes > PREFETCH_BYTES {
          SumIsZero(windows, readWindowAt, nextReadWindow);
          return;
        }
        SumGrows(windows, readWindowAt, nextReadWindow);
        WithinMore(windows, first, nextReadWindow, reservedBytes);
        reservedBytes := reservedBytes + window.bytes;
        prefetchedWindows := prefetchedWindows + {nextReadWindow};
        nextReadWindow := nextReadWindow + 1;
      }
    }

    /** At the start of a window: the last one's bytes are let go, more is queued, and the
        window about to be awaited is among what was queued. */
    method NextWindow() returns (window: Window)
      requires Valid() && readWindowAt < |windows|
      modifies this
      ensures Valid() && readWindowAt == old(readWindowAt) + 1 && window == windows[old(readWindowAt)]
    {
      if readWindowAt > 0 {
        ReleaseFirst(windows, readWindowAt, nextReadWindow, activeBytes, reservedBytes);
      }
      reservedBytes := reservedBytes - activeBytes;
      activeBytes := 0;
      FillReadAhead(readWindowAt);
      assert readWindowAt in prefetchedWindows;
      window := windows[readWindowAt];
      activeBytes := window.bytes;
      prefetchedWindows := prefetchedWindows - {readWindowAt};
      readWindowAt := readWindowAt + 1;
      FillReadAhead(readWindowAt - 1);
    }

    /** The emission of a pack. Each object is written while the window it lies in is active; it is the
        entry this window's read brought, and if it brought none then none was cached. */
    method Emit(
        frames: PackFrames.PackFrameWriter, source: Source, ghost hash: Hash, oids: seq<Name>, client: set<Name>,
        thin: bool, deflate: seq<byte> -> seq<byte>)
        returns (ghost es: seq<Emitted>, ghost log: seq<nat>)
      requires Valid() && readWindowAt == 0 && Windowed(OrderOf(source, oids), thin, client, windows)
      requires frames.Valid() && !frames.digested
      requires CoherentSource(source, hash) && Deflates(deflate) && client <= source.Keys
      requires Distinct(oids) && forall n :: n in oids ==> n in source
      modifies this, frames, frames.frame
      ensures Valid() && readWindowAt == |windows| && reservedBytes == activeBytes
      ensures frames.Valid() && !frames.digested && frames.taken == old(frames.taken)
      ensures frames.frame == old(frames.frame) || fresh(frames.frame)
      ensures frames.Written() == old(frames.Written()) + EntriesBytes(es)
      ensures Planned(source, oids, es, thin, client) && ChosenInTurn(source, oids, es, thin, client, deflate)
      ensures |es| == |oids| && Logged(source, oids, thin, client, windows, es, log)
    {
      hide IsWindow, OrderOf, CoherentSource, Deflates, EntriesBytes, PackFrames.PackFrameWriter.Sound, AvailableAt,
           ChosenInTurn, Logged, Planned, Brought, Choose, WrittenIn, Serves, Windowed, Valid, EntryBytes,
           PackFrames.PackFrameWriter.Written, PackFrames.PackFrameWriter.Queued;
      NoEntries();
      var emitted: set<Name> := {};
      var prefetched: map<Name, Emitted> := map[];
      es, log := [], [];
      NothingChosen(source, oids, thin, client, deflate);
      NothingLogged(source, oids, thin, client, windows);
      OrderedAsListed(source, oids);
      for index := 0 to |oids|
        invariant Valid() && WrittenUpTo(windows, readWindowAt, index)
        invariant readWindowAt > 0 ==> prefetched == Brought(source, windows[readWindowAt - 1].requests)
        invariant frames.Valid() && !frames.digested && frames.taken == old(frames.taken)
        invariant frames.frame == old(frames.frame) || fresh(frames.frame)
        invariant emitted == Members(oids[..index]) && |es| == index
        invariant ChosenInTurn(source, oids, es, thin, client, deflate)
        invariant Logged(source, oids, thin, client, windows, es, log)
        invariant frames.Written() == old(frames.Written()) + EntriesBytes(es)
      {
        NextIsActive(OrderOf(source, oids), thin, client, windows, readWindowAt, index);
        if readWindowAt < |windows| && index == windows[readWindowAt].start {
          var window := NextWindow();
          prefetched := ReadCachedPackEntries(source, window.requests);
        }
        ghost var active := windows[readWindowAt - 1];
        KnownBases(source, oids, index, thin, client, emitted);
        ReadServes(source, oids, thin, client, windows, readWindowAt - 1);
        var e := WriteNext(frames, source, hash, oids, client, thin, deflate, index, emitted, prefetched, active);
        WrittenMore(old(frames.Written()), es, e);
        ChosenNext(source, oids, es, thin, client, deflate, e);
        LoggedNext(source, oids, thin, client, windows, es, log, e, readWindowAt - 1);
        es, log := es + [e], log + [readWindowAt - 1];
        assert oids[..index + 1] == oids[..index] + [oids[index]];
        emitted := emitted + {oids[index]};
      }
      ChosenIsPlanned(source, hash, oids, es, thin, client, deflate);
      if readWindowAt < |windows| {
        MoreToWrite(OrderOf(source, oids), thin, client, windows, readWindowAt, |oids|);
      }
      NothingQueued();
    }

    lemma NothingQueued()
      requires Valid() && readWindowAt == |windows|
      ensures reservedBytes == activeBytes
    {
    }
  }

  /** The first `k` windows were taken, and the last of them holds the object before `index`. */
  predicate WrittenUpTo(windows: seq<Window>, k: nat, index: nat) {
    && k <= |windows| && (k == 0 <==> index == 0)
    && (k > 0 ==> windows[k - 1].start < index <= windows[k - 1].end)
  }

  lemma NextIsActive(order: Order, thin: bool, client: set<Name>, windows: seq<Window>, k: nat, index: nat)
    requires Windowed(order, thin, client, windows) && WrittenUpTo(windows, k, index) && index < |order.oids|
    ensures var active := if k < |windows| && index == windows[k].start then k else k - 1;
      && 0 <= active < |windows| && windows[active].start <= index < windows[active].end
      && WrittenUpTo(windows, active + 1, index + 1)
  {
    hide IsWindow;
    NonEmptyWindows(order, thin, client, windows);
  }

  lemma MoreToWrite(order: Order, thin: bool, client: set<Name>, windows: seq<Window>, k: nat, index: nat)
    requires Windowed(order, thin, client, windows) && WrittenUpTo(windows, k, index) && k < |windows|
    ensures index < |order.oids|
  {
    hide IsWindow;
    NonEmptyWindows(order, thin, client, windows);
    assert k > 0 ==> windows[k].start == windows[k - 1].end;
  }

  lemma NonEmptyWindows(order: Order, thin: bool, client: set<Name>, windows: seq<Window>)
    requires Windowed(order, thin, client, windows)
    ensures forall i :: 0 <= i < |windows| ==> windows[i].start < windows[i].end <= |order.oids|
  {
    forall i | 0 <= i < |windows|
      ensures windows[i].start < windows[i].end <= |order.oids|
    {
      assert windows[i] in windows;
    }
  }
}
