/** A fetch from end to end: what the server answers with, and what the client has once it took the
    answer in. */
module Transfer {
  import opened Bits
  import opened Options
  import opened Graph
  import opened PackFormat
  import opened PackFrames
  import opened PackWriter
  import Connectivity
  import Delta
  import Depth
  import Fetch
  import PackCoherence
  import PackOrder
  import PktLine
  import ReadAhead
  import Repack

  // ---- The pack --------------------------------------------------------------------------------

  /** What the writer may take for granted of the client. */
  ghost predicate MayBase(s: Connectivity.Store, boundaries: set<Oid>, held: set<Oid>, available: set<Oid>) {
    && held <= available <= s.objects.Keys
    && forall x :: x in available ==> Fetch.Owned(s.objects, boundaries, held, x)
  }

  predicate IsBase(bases: map<Name, Name>, x: Oid) {
    exists n :: n in bases && bases[n] == x
  }

  /** The client's objects that deltas of a thin pack may be based on: those known to be held, and those
      that the link index finds behind them. */
  method ClientBases(
      s: Connectivity.Store, bases: map<Name, Name>, ordered: seq<Name>, held: set<Oid>, thin: bool,
      boundaries: set<Oid>)
      returns (available: set<Oid>)
    requires Connectivity.GraftedStore(s, boundaries) && held <= s.objects.Keys
    ensures MayBase(s, boundaries, held, available)
    ensures forall x :: x in available <==>
      || x in held
      || (&& thin && x in s.objects && x !in ordered && IsBase(bases, x)
          && ReachedFrom(Connectivity.QueryEdges(s, boundaries, true), {}, held, x))
  {
    hide Fetch.Owned, ReachedFrom, Connectivity.QueryEdges;
    var candidates := set n | n in bases && bases[n] !in ordered && bases[n] !in held :: bases[n];
    var reachable: set<Oid> := {};
    if thin {
      reachable := Fetch.ReadReachableObjects(s, held, candidates, boundaries);
    }
    available := held + reachable;
    Fetch.IndexKnowsOwned(s, boundaries, held);
    Fetch.CommonIsOwned(s.objects, boundaries, held);
  }

  /** Writes a pack of the listed objects, for a client that holds those of `held`. */
  method PackBytes(
      s: Connectivity.Store, source: Source, ghost hash: Hash, sha1: seq<byte> -> seq<byte>, oids: seq<Name>,
      held: set<Name>, thin: bool, boundaries: set<Oid>, banded: bool, deflate: seq<byte> -> seq<byte>)
      returns (out: seq<seq<byte>>)
    requires Connectivity.GraftedStore(s, boundaries) && s.objects.Keys == source.Keys && held <= source.Keys
    requires CoherentSource(source, hash) && Deflates(deflate) && forall x :: |sha1(x)| == 20
    requires Distinct(oids) && |oids| < 0x1_0000_0000 && forall n :: n in oids ==> n in source
    ensures exists available ::
      && MayBase(s, boundaries, held, available)
      && IsPackOf(source, sha1, oids, available, thin, banded, deflate, out)
  {
    hide CoherentSource, Deflates, PackOrder.Rooted, PackOrder.Before, PackOrder.Depends, MayBase, IsPackOf;
    var bases := StoredBases(source, oids);
    var ordered := PackOrder.OrderPack(oids, bases);
    var client := ClientBases(s, bases, ordered, held, thin, boundaries);
    MayBaseIsStored(s, boundaries, held, client);
    out := WritePack(source, hash, sha1, oids, ordered, client, thin, banded, deflate);
  }

  lemma MayBaseIsStored(s: Connectivity.Store, boundaries: set<Oid>, held: set<Oid>, available: set<Oid>)
    requires MayBase(s, boundaries, held, available)
    ensures available <= s.objects.Keys
  {
    hide Fetch.Owned;
  }

  /** Writes the objects in the order that was found for them. */
  method WritePack(
      source: Source, ghost hash: Hash, sha1: seq<byte> -> seq<byte>, ghost oids: seq<Name>, ordered: seq<Name>,
      client: set<Name>, thin: bool, banded: bool, deflate: seq<byte> -> seq<byte>)
      returns (out: seq<seq<byte>>)
    requires CoherentSource(source, hash) && Deflates(deflate) && client <= source.Keys
    requires forall x :: |sha1(x)| == 20
    requires Distinct(oids) && |oids| < 0x1_0000_0000 && forall n :: n in oids ==> n in source
    requires Distinct(ordered) && (forall n :: n in ordered <==> n in oids) && InOrder(source, oids, ordered)
    ensures IsPackOf(source, sha1, oids, client, thin, banded, deflate, out)
  {
    hide CoherentSource, Deflates, Emits, PackHeader, Frames, EntriesBytes, AllFit, PackFrameWriter.Sound, Planned,
         ChosenInTurn, InOrder, ReadAhead.Windowed, ReadAhead.Logged, ReadAhead.OrderOf;
    var frames := new PackFrameWriter(banded, sha1);
    SameLength(oids, ordered);
    var windows := ReadAhead.PackReadWindows(ReadAhead.OrderOf(source, ordered), thin, client);
    var scheduler := new ReadAhead.Scheduler(windows);
    frames.WriteAll(PackHeader(|ordered|));
    assert frames.Written() == PackHeader(|ordered|);
    ghost var es, log := scheduler.Emit(frames, source, hash, ordered, client, thin, deflate);
    assert frames.Written() == PackBody(es);
    frames.Finish();
    out := TakeFrames(frames, []);
    assert Carries(source, sha1, oids, client, thin, banded, deflate, out, ordered, es, frames.payloads);
  }

  // ---- The answer ------------------------------------------------------------------------------

  type Parser = Content -> Object

  /** The graph that objects spell. */
  function GraphOf(objects: Objects, parse: Parser): map<Oid, Object> {
    map n | n in objects :: parse(ContentOf(objects[n]))
  }

  /** The rows a walk reads are those of the objects a pack is made of. */
  predicate Mirrors(s: Connectivity.Store, source: Source, parse: Parser) {
    s.objects == map n | n in source :: parse(Content(source[n].kind, source[n].bytes))
  }

  datatype Request = Request(
    wants: seq<Oid>,
    haves: seq<Oid>,
    shallow: seq<Oid>,
    depth: Option<nat>,
    done: bool,
    thin: bool)

  /** The grafts of either side. */
  function Boundaries(request: Request, shallow: set<Oid>): set<Oid> {
    shallow + Members(request.shallow)
  }

  /** The pack of an answer: what the plan says is missing, as entries the client can take in. */
  ghost predicate Answers(
      s: Connectivity.Store, source: Source, sha1: seq<byte> -> seq<byte>, deflate: seq<byte> -> seq<byte>,
      request: Request, shallow: set<Oid>, r: Fetch.Response, out: seq<seq<byte>>)
    requires r.Packed?
  {
    var common := Members(request.haves) * s.objects.Keys;
    && Fetch.Sends(s, shallow, Members(request.shallow), common, request.wants, r.plan, r.missing, r.held)
    && Fetch.PlannedToDepth(s.objects, shallow, Members(request.shallow), request.wants, request.depth, r.plan)
    && exists available ::
         && MayBase(s, Boundaries(request, shallow), r.held, available)
         && IsPackOf(source, sha1, r.missing, available, request.thin, true, deflate, out)
  }

  lemma FewMissing(s: Connectivity.Store, missing: seq<Oid>)
    requires Distinct(missing) && Members(missing) <= s.objects.Keys
    ensures |missing| <= |s.objects| && forall n :: n in missing ==> n in s.objects
  {
    DistinctIsShort(missing, s.objects.Keys);
    assert |s.objects.Keys| == |s.objects|;
    forall n | n in missing
      ensures n in s.objects
    {
      assert n in Members(missing);
    }
  }

  lemma {:induction false} DistinctIsShort(xs: seq<Oid>, all: set<Oid>)
    requires Distinct(xs) && Members(xs) <= all
    ensures |xs| <= |all|
  {
    if xs != [] {
      var n := |xs| - 1;
      assert xs[n] in Members(xs);
      forall x | x in Members(xs[..n])
        ensures x in all - {xs[n]}
      {
        assert x in xs[..n] && x in Members(xs);
      }
      DistinctIsShort(xs[..n], all - {xs[n]});
    }
  }

  /** Answers an upload-pack request, with a pack once negotiation is done. */
  method Serve(
      s: Connectivity.Store, source: Source, ghost hash: Hash, ghost parse: Parser, sha1: seq<byte> -> seq<byte>,
      deflate: seq<byte> -> seq<byte>, request: Request, advertised: set<Oid>, shallow: set<Oid>)
      returns (r: Fetch.Response, out: seq<seq<byte>>)
    requires Connectivity.GraftedStore(s, Boundaries(request, shallow)) && BlobsAreBlobs(s.objects)
    requires Depth.ParentsAreCommits(s.objects) && (request.depth.Some? ==> request.depth.value > 0)
    requires CoherentSource(source, hash) && Mirrors(s, source, parse) && |source| < 0x1_0000_0000
    requires Deflates(deflate) && forall x :: |sha1(x)| == 20
    ensures r.Packed? ==> Answers(s, source, sha1, deflate, request, shallow, r, out)
    ensures !r.Packed? ==> out == []
  {
    hide CoherentSource, Deflates, BlobsAreBlobs, Depth.ParentsAreCommits, MayBase, IsPackOf, Fetch.LeavesClosed,
         Fetch.PlannedFor, Fetch.PlannedToDepth, Fetch.Unreadable, Connectivity.GraftedStore, ReachedFrom, ReachEdges,
         Fetch.Owned, Connectivity.AllIndexed;
    r := Fetch.UploadPack(
      s, request.wants, request.haves, request.shallow, request.depth, request.done, advertised, shallow);
    out := [];
    if r.Packed? {
      FewMissing(s, r.missing);
      assert s.objects.Keys == source.Keys;
      out :=
        PackBytes(s, source, hash, sha1, r.missing, r.held, request.thin, Boundaries(request, shallow), true, deflate);
    }
  }

  // ---- The client --------------------------------------------------------------------------------

  /** A client knows an object by the same name as the server, and of what it has, `own` holds what it says it has
      and has no loose end up to its own grafts. Besides it may have anything, such as what an aborted fetch
      left. */
  ghost predicate Honest(source: Source, parse: Parser, request: Request, mine: Objects, own: set<Oid>) {
    && Members(request.haves) <= own <= mine.Keys && Same(source, mine)
    && Closed(ReachEdges(GraphOf(mine, parse), Members(request.shallow)), {}, own)
  }

  /** An object has the same links in two stores, less those that only one of them grafts. */
  lemma EdgesAgree(a: map<Oid, Object>, more: set<Oid>, b: map<Oid, Object>, less: set<Oid>, x: Oid)
    requires x in a && x in b && a[x] == b[x] && (x in less ==> x in more)
    ensures After(ReachEdges(a, more), x) <= After(ReachEdges(b, less), x)
  {
    Fetch.FewerEdges(b, more, less, x);
  }

  lemma SameObject(s: Connectivity.Store, source: Source, parse: Parser, objects: Objects, x: Oid)
    requires Mirrors(s, source, parse) && Same(source, objects) && x in source && x in objects
    ensures x in s.objects && x in GraphOf(objects, parse) && s.objects[x] == GraphOf(objects, parse)[x]
  {
  }

  /** What the server takes the client to own, it has. */
  lemma OwnedIsMine(
      s: Connectivity.Store, source: Source, parse: Parser, request: Request, boundaries: set<Oid>, mine: Objects,
      own: set<Oid>, common: set<Oid>, x: Oid)
    requires Mirrors(s, source, parse) && Honest(source, parse, request, mine, own)
    requires Members(request.shallow) <= boundaries && common <= own
    requires Fetch.Owned(s.objects, boundaries, common, x)
    ensures x in own
  {
    hide After, ReachEdges, GraphOf;
    var g := ReachEdges(s.objects, boundaries);
    forall y | y in own
      ensures After(g, y) <= own
    {
      if y in source {
        SameObject(s, source, parse, mine, y);
        EdgesAgree(s.objects, boundaries, GraphOf(mine, parse), Members(request.shallow), y);
      } else {
        NotStored(s, source, parse, boundaries, y);
      }
    }
    var c :| c in common && Reaches(g, {}, c, x);
    ClosedHolds(g, {}, own, c, x);
  }

  lemma NotStored(s: Connectivity.Store, source: Source, parse: Parser, grafts: set<Oid>, x: Oid)
    requires Mirrors(s, source, parse) && x !in source
    ensures After(ReachEdges(s.objects, grafts), x) == {}
  {
  }

  /** What is owned through what is owned is owned. */
  lemma OwnedThrough(store: map<Oid, Object>, boundaries: set<Oid>, common: set<Oid>, held: set<Oid>, x: Oid)
    requires (forall y :: y in held ==> Fetch.Owned(store, boundaries, common, y))
      && Fetch.Owned(store, boundaries, held, x)
    ensures Fetch.Owned(store, boundaries, common, x)
  {
    hide After, ReachEdges;
    var g := ReachEdges(store, boundaries);
    var h :| h in held && Reaches(g, {}, h, x);
    assert Fetch.Owned(store, boundaries, common, h);
    var c :| c in common && Reaches(g, {}, c, h);
    ReachesThrough(g, c, h, x);
  }

  lemma ReachesThrough(g: Edges, from: Oid, via: Oid, to: Oid)
    requires Reaches(g, {}, from, via) && Reaches(g, {}, via, to)
    ensures Reaches(g, {}, from, to)
  {
    var p :| Path(g, {}, p) && p[0] == from && p[|p| - 1] == via;
    var q :| Path(g, {}, q) && q[0] == via && q[|q| - 1] == to;
    var r := p + q[1..];
    forall i | 0 < i < |r|
      ensures r[i] in After(g, r[i - 1])
    {
      if i >= |p| {
        assert r[i] == q[i - |p| + 1] && r[i - 1] == q[i - |p|];
      }
    }
    assert Path(g, {}, r);
  }

  /** The client's objects with those that were sent. */
  ghost predicate TakenIn(source: Source, mine: Objects, sent: set<Oid>, after: Objects) {
    && after.Keys == mine.Keys + sent && Same(source, after) && sent <= source.Keys
    && forall n :: n in mine ==> after[n] == mine[n]
  }

  lemma LiftedIsStored(
      s: Connectivity.Store, shallow: set<Oid>, clientShallow: set<Oid>, wants: seq<Oid>, plan: Option<Depth.Plan>,
      x: Oid)
    requires Fetch.PlannedFor(s.objects, shallow, clientShallow, wants, plan)
    requires Fetch.Lifted(shallow + clientShallow, plan, x)
    ensures x in s.objects
  {
    hide Depth.Within, Depth.At, Depth.Boundary;
  }

  /** Nothing is loose once the objects are taken in and the grafts are those of the answer. */
  lemma TakingInCloses(
      s: Connectivity.Store, source: Source, parse: Parser, request: Request, shallow: set<Oid>, r: Fetch.Response,
      mine: Objects, own: set<Oid>, after: Objects)
    requires Mirrors(s, source, parse) && Honest(source, parse, request, mine, own) && r.Packed?
    requires Fetch.Sends(
      s, shallow, Members(request.shallow), Members(request.haves) * s.objects.Keys, request.wants, r.plan, r.missing,
      r.held)
    requires TakenIn(source, mine, Members(r.missing), after)
    ensures var grafts := Fetch.NewShallow(Boundaries(request, shallow), r.plan);
      Closed(ReachEdges(GraphOf(after, parse), grafts), {}, own + Members(r.missing))
    ensures Members(request.wants) <= own + Members(r.missing)
  {
    hide After, ReachEdges, GraphOf, Fetch.Owned, Fetch.PlannedFor, Connectivity.AllIndexed, ReachedFrom, Mirrors;
    var boundaries, kept := Boundaries(request, shallow), own + Members(r.missing);
    var grafts, common := Fetch.NewShallow(boundaries, r.plan), Members(request.haves) * s.objects.Keys;
    var g := ReachEdges(GraphOf(after, parse), grafts);
    forall x, y | x in kept && y in After(g, x)
      ensures y in kept
    {
      if x in Members(r.missing) || Fetch.Lifted(boundaries, r.plan, x) {
        if Fetch.Lifted(boundaries, r.plan, x) {
          LiftedIsStored(s, shallow, Members(request.shallow), request.wants, r.plan, x);
        }
        StoredIsSource(s, source, parse, x);
        SameObject(s, source, parse, after, x);
        EdgesAgree(GraphOf(after, parse), grafts, s.objects, grafts, x);
        if y !in Members(r.missing) {
          OwnedIsMine(s, source, parse, request, boundaries, mine, own, common, y);
        }
      } else {
        KeptObject(parse, mine, after, x);
        EdgesAgree(GraphOf(after, parse), grafts, GraphOf(mine, parse), Members(request.shallow), x);
      }
    }
    forall w | w in Members(request.wants)
      ensures w in kept
    {
      if w !in Members(r.missing) {
        OwnedIsMine(s, source, parse, request, boundaries, mine, own, common, w);
      }
    }
  }

  lemma StoredIsSource(s: Connectivity.Store, source: Source, parse: Parser, x: Oid)
    requires Mirrors(s, source, parse)
    ensures x in s.objects <==> x in source
  {
  }

  lemma KeptObject(parse: Parser, mine: Objects, after: Objects, x: Oid)
    requires x in mine && x in after && after[x] == mine[x]
    ensures GraphOf(after, parse)[x] == GraphOf(mine, parse)[x] && x in GraphOf(mine, parse)
      && x in GraphOf(after, parse)
  {
  }

  /** The client takes the bytes apart and reads the pack against its own objects. It then has exactly what
      it had and what was sent, what it wanted, and everything behind that down to the grafts it was told
      of; what it owned with what was sent has no loose end; and it has all that lies within the depth it asked
      for. */
  ghost predicate EndsWhole(
      s: Connectivity.Store, source: Source, hash: Hash, parse: Parser, sha1: seq<byte> -> seq<byte>,
      request: Request, shallow: set<Oid>, r: Fetch.Response, out: seq<seq<byte>>, mine: Objects, own: set<Oid>,
      rest: seq<byte>)
    requires r.Packed?
  {
    var received := Demultiplex(Flatten(out) + (PktLine.HexLength(0) + rest));
    && received.Some? && received.value.1 == rest
    && var read := ReadPack(received.value.0, mine, hash, sha1);
       && read.Ok? && TakenIn(source, mine, Members(r.missing), read.value)
       && Members(request.wants) <= read.value.Keys
       && var g := ReachEdges(GraphOf(read.value, parse), Fetch.NewShallow(Boundaries(request, shallow), r.plan));
          && Closed(g, {}, own + Members(r.missing))
          && (forall x :: ReachedFrom(g, {}, Members(request.wants), x) ==> x in read.value)
          && forall x :: Deep(s, request, shallow, x) ==> x in read.value
  }

  /** Behind the wants, up to the grafts of either side; or, of a request for a depth, within that many generations
      of the wants and not behind a graft of the server. */
  ghost predicate Deep(s: Connectivity.Store, request: Request, shallow: set<Oid>, x: Oid) {
    match request.depth
    case None => ReachedFrom(ReachEdges(s.objects, shallow + Members(request.shallow)), {}, Members(request.wants), x)
    case Some(depth) => Depth.Within(s.objects, shallow, request.wants, depth, x)
  }

  /** Whatever the server walks to without a graft of the client's, the client has. */
  lemma {:induction false} PathIsKept(
      s: Connectivity.Store, source: Source, parse: Parser, cut: set<Oid>, grafts: set<Oid>, after: Objects,
      kept: set<Oid>, p: seq<Oid>)
    requires Mirrors(s, source, parse) && Same(source, after) && kept <= after.Keys
    requires Closed(ReachEdges(GraphOf(after, parse), grafts), {}, kept)
    requires Path(ReachEdges(s.objects, cut), {}, p) && p[0] in kept
    requires forall i ::
      0 <= i < |p| - 1 && p[i] in grafts && p[i] in s.objects && s.objects[p[i]].Commit? ==> p[i] in cut
    ensures p[|p| - 1] in kept
    decreases |p|
  {
    hide Mirrors, Same, ReachEdges, After, GraphOf;
    if |p| > 1 {
      var q, x := p[..|p| - 1], p[|p| - 2];
      assert Path(ReachEdges(s.objects, cut), {}, q);
      PathIsKept(s, source, parse, cut, grafts, after, kept, q);
      assert x == q[|q| - 1] && p[|p| - 1] in After(ReachEdges(s.objects, cut), x);
      if x in source {
        SameObject(s, source, parse, after, x);
        CommitEdgesAgree(s.objects, cut, GraphOf(after, parse), grafts, x);
      } else {
        NotStored(s, source, parse, cut, x);
      }
    }
  }

  /** Only a commit's links depend on grafts. */
  lemma CommitEdgesAgree(a: map<Oid, Object>, more: set<Oid>, b: map<Oid, Object>, less: set<Oid>, x: Oid)
    requires x in a && x in b && a[x] == b[x] && (x in less && a[x].Commit? ==> x in more)
    ensures After(ReachEdges(a, more), x) <= After(ReachEdges(b, less), x)
  {
  }

  /** The commits of a trail within the depth are grafted for the client only where the answer cuts them off. */
  lemma {:induction false} TrailIsUncut(
      s: Connectivity.Store, request: Request, shallow: set<Oid>, plan: Depth.Plan, depth: nat, labels: map<Oid, nat>,
      p: seq<Oid>, i: nat)
    requires Fetch.Planned(s.objects, shallow, Members(request.shallow), request.wants, plan, depth, labels)
    requires Depth.Trail(s.objects, plan.shallow, request.wants, p) && i < |p|
    requires p[i] in s.objects && s.objects[p[i]].Commit?
    requires p[i] in Fetch.NewShallow(Boundaries(request, shallow), Some(plan))
    ensures p[i] in plan.shallow
  {
    hide Depth.Within, Depth.At;
    var q := p[..i + 1];
    assert Depth.Trail(s.objects, plan.shallow, request.wants, q);
    Depth.TrailIsWithin(s.objects, shallow, request.wants, depth, labels, q);
    assert p[i] in labels;
  }

  lemma DeepIsKept(
      s: Connectivity.Store, source: Source, parse: Parser, request: Request, shallow: set<Oid>,
      plan: Option<Depth.Plan>, after: Objects, kept: set<Oid>, x: Oid)
    requires Mirrors(s, source, parse) && Same(source, after) && Members(request.wants) <= kept <= after.Keys
    requires Fetch.PlannedToDepth(s.objects, shallow, Members(request.shallow), request.wants, request.depth, plan)
    requires Closed(
      ReachEdges(GraphOf(after, parse), Fetch.NewShallow(Boundaries(request, shallow), plan)), {}, kept)
    requires Deep(s, request, shallow, x)
    ensures x in kept
  {
    hide Mirrors, Same, ReachEdges, After, GraphOf, Closed, Depth.Within, Depth.Labelled, Depth.Boundary,
         Depth.Leads;
    var grafts := Fetch.NewShallow(Boundaries(request, shallow), plan);
    match request.depth {
      case None =>
        var g := ReachEdges(s.objects, grafts);
        var w :| w in Members(request.wants) && Reaches(g, {}, w, x);
        var p :| Path(g, {}, p) && p[0] == w && p[|p| - 1] == x;
        PathIsKept(s, source, parse, grafts, grafts, after, kept, p);
      case Some(depth) =>
        var labels :| Fetch.Planned(
          s.objects, shallow, Members(request.shallow), request.wants, plan.value, depth, labels);
        Depth.GraftIsExact(s.objects, shallow, request.wants, depth, labels, x);
        var p :| Depth.Trail(s.objects, plan.value.shallow, request.wants, p) && p[|p| - 1] == x;
        Fetch.TrailReaches(s.objects, plan.value.shallow, request.wants, p);
        forall i | 0 <= i < |p| - 1 && p[i] in grafts && p[i] in s.objects && s.objects[p[i]].Commit?
          ensures p[i] in plan.value.shallow
        {
          TrailIsUncut(s, request, shallow, plan.value, depth, labels, p, i);
        }
        assert p[0] in Members(request.wants);
        PathIsKept(s, source, parse, plan.value.shallow, grafts, after, kept, p);
    }
  }

  /** The same objects, in whatever forms. */
  predicate Alike(source: Source, forms: Source) {
    && forms.Keys == source.Keys
    && forall n :: n in source ==> forms[n].kind == source[n].kind && forms[n].bytes == source[n].bytes
  }

  /** An answer whose entries were made of other forms of the objects than those it was planned with. */
  ghost predicate AnswersFrom(
      s: Connectivity.Store, forms: Source, sha1: seq<byte> -> seq<byte>, request: Request, shallow: set<Oid>,
      r: Fetch.Response, out: seq<seq<byte>>)
    requires r.Packed?
  {
    var common := Members(request.haves) * s.objects.Keys;
    && Fetch.Sends(s, shallow, Members(request.shallow), common, request.wants, r.plan, r.missing, r.held)
    && Fetch.PlannedToDepth(s.objects, shallow, Members(request.shallow), request.wants, request.depth, r.plan)
    && exists available ::
         && MayBase(s, Boundaries(request, shallow), r.held, available)
         && IsPackFrom(forms, sha1, r.missing, available, request.thin, true, out)
  }

  lemma AnswersAreFrom(
      s: Connectivity.Store, source: Source, sha1: seq<byte> -> seq<byte>, deflate: seq<byte> -> seq<byte>,
      request: Request, shallow: set<Oid>, r: Fetch.Response, out: seq<seq<byte>>)
    requires r.Packed? && Answers(s, source, sha1, deflate, request, shallow, r, out)
    ensures AnswersFrom(s, source, sha1, request, shallow, r, out)
  {
    hide Fetch.Sends, MayBase, IsPackOf, IsPackFrom;
    var available :| MayBase(s, Boundaries(request, shallow), r.held, available)
      && IsPackOf(source, sha1, r.missing, available, request.thin, true, deflate, out);
    IsSomePack(source, sha1, r.missing, available, request.thin, true, deflate, out);
  }

  /** A fetch from end to end: whatever an honest client asks for, the answer leaves it whole. */
  lemma ClientIsWhole(
      s: Connectivity.Store, source: Source, forms: Source, hash: Hash, parse: Parser, sha1: seq<byte> -> seq<byte>,
      request: Request, shallow: set<Oid>, r: Fetch.Response, out: seq<seq<byte>>, mine: Objects, own: set<Oid>,
      rest: seq<byte>)
    requires CoherentSource(forms, hash) && Alike(source, forms)
    requires Mirrors(s, source, parse) && forall x :: |sha1(x)| == 20
    requires r.Packed? && AnswersFrom(s, forms, sha1, request, shallow, r, out)
    requires Honest(source, parse, request, mine, own)
    ensures EndsWhole(s, source, hash, parse, sha1, request, shallow, r, out, mine, own, rest)
  {
    hide Demultiplex, ReadPack, CoherentSource, IsPackFrom, Closed, ReachEdges, After, GraphOf, Mirrors, TakenIn, Same,
         Alike;
    var received := Demultiplex(Flatten(out) + (PktLine.HexLength(0) + rest));
    PackArrives(s, source, forms, hash, parse, sha1, request, shallow, r, out, mine, own, rest);
    var after := ReadPack(received.value.0, mine, hash, sha1).value;
    TakingInCloses(s, source, parse, request, shallow, r, mine, own, after);
    HasTaken(source, mine, own, Members(r.missing), after);
    var g := ReachEdges(GraphOf(after, parse), Fetch.NewShallow(Boundaries(request, shallow), r.plan));
    forall x | ReachedFrom(g, {}, Members(request.wants), x)
      ensures x in after
    {
      var w :| w in Members(request.wants) && Reaches(g, {}, w, x);
      ClosedHolds(g, {}, own + Members(r.missing), w, x);
    }
    assert Same(source, after) by { TakenIsSame(source, mine, Members(r.missing), after); }
    forall x | Deep(s, request, shallow, x)
      ensures x in after
    {
      DeepIsKept(s, source, parse, request, shallow, r.plan, after, own + Members(r.missing), x);
    }
  }

  lemma TakenIsSame(source: Source, mine: Objects, sent: set<Oid>, after: Objects)
    requires TakenIn(source, mine, sent, after)
    ensures Same(source, after)
  {
  }

  lemma HasTaken(source: Source, mine: Objects, own: set<Oid>, sent: set<Oid>, after: Objects)
    requires TakenIn(source, mine, sent, after) && own <= mine.Keys
    ensures own + sent <= after.Keys
  {
  }

  lemma PackArrives(
      s: Connectivity.Store, source: Source, forms: Source, hash: Hash, parse: Parser, sha1: seq<byte> -> seq<byte>,
      request: Request, shallow: set<Oid>, r: Fetch.Response, out: seq<seq<byte>>, mine: Objects, own: set<Oid>,
      rest: seq<byte>)
    requires CoherentSource(forms, hash) && Alike(source, forms)
    requires Mirrors(s, source, parse) && forall x :: |sha1(x)| == 20
    requires r.Packed? && AnswersFrom(s, forms, sha1, request, shallow, r, out)
    requires Honest(source, parse, request, mine, own)
    ensures var received := Demultiplex(Flatten(out) + (PktLine.HexLength(0) + rest));
      && received.Some? && received.value.1 == rest
      && var read := ReadPack(received.value.0, mine, hash, sha1);
         read.Ok? && TakenIn(source, mine, Members(r.missing), read.value)
  {
    hide Demultiplex, ReadPack, CoherentSource, IsPackFrom, Closed, ReachEdges, After, GraphOf, ReachedFrom,
         Fetch.Owned, Fetch.LeavesClosed, Fetch.PlannedFor, Connectivity.AllIndexed;
    var boundaries, common := Boundaries(request, shallow), Members(request.haves) * s.objects.Keys;
    var available :| MayBase(s, boundaries, r.held, available)
      && IsPackFrom(forms, sha1, r.missing, available, request.thin, true, out);
    forall x | x in available
      ensures x in mine.Keys
    {
      OwnedThrough(s.objects, boundaries, common, r.held, x);
      OwnedIsMine(s, source, parse, request, boundaries, mine, own, common, x);
    }
    PackTravels(forms, hash, sha1, r.missing, available, request.thin, out, mine, rest);
    assert forall n :: n in Members(r.missing) ==> n in r.missing;
  }

  lemma KnownIsSame(u: map<Oid, Content>, hash: Hash, objects: Source, mine: Objects)
    requires Repack.AllFaithful(u, hash, objects) && PackCoherence.Known(u, mine)
    ensures Same(objects, mine)
  {
    hide PackCoherence.Inflates, Delta.Apply, IsName;
    forall n | n in objects && n in mine
      ensures mine[n].kind == objects[n].kind && mine[n].bytes == objects[n].bytes
    {
      assert Repack.Faithful(u, hash, n, objects[n]);
    }
  }

  /** So it does whatever happened to the repositories before: any packs accepted or refused, objects copied,
      reclaimed and repacked, in any order. */
  lemma FetchAfterAnyRun(
      u: map<Oid, Content>, events: seq<Repack.Event>, w: Repack.World, repo: nat, s: Connectivity.Store, hash: Hash,
      parse: Parser, sha1: seq<byte> -> seq<byte>, deflate: seq<byte> -> seq<byte>, request: Request, shallow: set<Oid>,
      r: Fetch.Response, out: seq<seq<byte>>, mine: Objects, own: set<Oid>, rest: seq<byte>)
    requires (forall n :: n in u ==> IsName(n)) && Deflates(deflate) && forall x :: |sha1(x)| == 20
    requires Repack.Leads(u, hash, sha1, deflate, map[], events, w) && repo in w
    requires Mirrors(s, w[repo].objects, parse)
    requires r.Packed? && Answers(s, w[repo].objects, sha1, deflate, request, shallow, r, out)
    requires PackCoherence.Known(u, mine) && Members(request.haves) <= own <= mine.Keys
    requires Closed(ReachEdges(GraphOf(mine, parse), Members(request.shallow)), {}, own)
    ensures EndsWhole(s, w[repo].objects, hash, parse, sha1, request, shallow, r, out, mine, own, rest)
  {
    hide Repack.Leads, Deflates, IsName, CoherentSource, Mirrors, Answers, AnswersFrom, EndsWhole, PackCoherence.Known,
         Closed, Repack.AllFaithful;
    var objects := w[repo].objects;
    Repack.AlwaysCoherent(u, hash, sha1, deflate, events, w, repo);
    KnownIsSame(u, hash, objects, mine);
    AnswersAreFrom(s, objects, sha1, deflate, request, shallow, r, out);
    ClientIsWhole(s, objects, objects, hash, parse, sha1, request, shallow, r, out, mine, own, rest);
  }

  // ---- While the store changes -------------------------------------------------------------------

  /** Between planning and its entry an object may be written anew or get a delta: each in the form it has when its
      turn comes, the others as they were. */
  function FormsAt(source: Source, repo: nat, turns: map<Oid, Repack.World>): Source {
    map n | n in source ::
      if n in turns && repo in turns[n] && n in turns[n][repo].objects then turns[n][repo].objects[n] else source[n]
  }

  /** Each turn comes after any run from the state that the fetch was planned in. */
  ghost predicate TurnsCome(
      u: map<Oid, Content>, hash: Hash, sha1: seq<byte> -> seq<byte>, deflate: seq<byte> -> seq<byte>, w: Repack.World,
      turns: map<Oid, Repack.World>)
  {
    forall n :: n in turns ==> exists events :: Repack.Leads(u, hash, sha1, deflate, w, events, turns[n])
  }

  lemma FormsAreFaithful(
      u: map<Oid, Content>, hash: Hash, sha1: seq<byte> -> seq<byte>, deflate: seq<byte> -> seq<byte>, w: Repack.World,
      repo: nat, turns: map<Oid, Repack.World>)
    requires (forall n :: n in u ==> IsName(n)) && Deflates(deflate)
    requires Repack.AllValid(u, hash, w) && repo in w && TurnsCome(u, hash, sha1, deflate, w, turns)
    ensures Repack.AllFaithful(u, hash, FormsAt(w[repo].objects, repo, turns))
    ensures Alike(w[repo].objects, FormsAt(w[repo].objects, repo, turns))
  {
    hide Repack.Leads, Deflates, IsName, Repack.Candidates, Repack.FaithfulDelta, PackCoherence.Inflates;
    var source := w[repo].objects;
    var forms := FormsAt(source, repo, turns);
    assert Repack.Valid(u, hash, w[repo]);
    forall n | n in source
      ensures Repack.Faithful(u, hash, n, forms[n]) && Repack.Faithful(u, hash, n, source[n])
    {
      if n in turns && repo in turns[n] && n in turns[n][repo].objects {
        var events :| Repack.Leads(u, hash, sha1, deflate, w, events, turns[n]);
        Repack.RunKeepsValid(u, hash, sha1, deflate, w, events, turns[n]);
        assert Repack.Valid(u, hash, turns[n][repo]);
      }
    }
  }

  /** A fetch is not excluded by pushes, sweeps and repacking. Whatever they do between planning and the turn of each
      entry, as long as its object is there: if each entry stands for its object as it is when its turn comes, the
      answer leaves the client as whole as if nothing had happened. */
  lemma FetchWhileChanging(
      u: map<Oid, Content>, before: seq<Repack.Event>, w: Repack.World, repo: nat, turns: map<Oid, Repack.World>,
      s: Connectivity.Store, hash: Hash, parse: Parser, sha1: seq<byte> -> seq<byte>, deflate: seq<byte> -> seq<byte>,
      request: Request, shallow: set<Oid>, r: Fetch.Response, out: seq<seq<byte>>, mine: Objects, own: set<Oid>,
      rest: seq<byte>)
    requires (forall n :: n in u ==> IsName(n)) && Deflates(deflate) && forall x :: |sha1(x)| == 20
    requires Repack.Leads(u, hash, sha1, deflate, map[], before, w) && repo in w
    requires TurnsCome(u, hash, sha1, deflate, w, turns)
    requires Mirrors(s, w[repo].objects, parse)
    requires r.Packed? && AnswersFrom(s, FormsAt(w[repo].objects, repo, turns), sha1, request, shallow, r, out)
    requires PackCoherence.Known(u, mine) && Members(request.haves) <= own <= mine.Keys
    requires Closed(ReachEdges(GraphOf(mine, parse), Members(request.shallow)), {}, own)
    ensures EndsWhole(s, w[repo].objects, hash, parse, sha1, request, shallow, r, out, mine, own, rest)
  {
    hide Repack.Leads, Deflates, IsName, CoherentSource, Mirrors, AnswersFrom, EndsWhole, PackCoherence.Known, Closed,
         Repack.AllFaithful, TurnsCome, FormsAt, Alike, Repack.AllValid;
    var objects, forms := w[repo].objects, FormsAt(w[repo].objects, repo, turns);
    Repack.AlwaysCoherent(u, hash, sha1, deflate, before, w, repo);
    NoWorldIsValid(u, hash);
    Repack.RunKeepsValid(u, hash, sha1, deflate, map[], before, w);
    FormsAreFaithful(u, hash, sha1, deflate, w, repo, turns);
    Repack.FaithfulIsCoherent(u, hash, forms);
    KnownIsSame(u, hash, objects, mine);
    ClientIsWhole(s, objects, forms, hash, parse, sha1, request, shallow, r, out, mine, own, rest);
  }

  lemma NoWorldIsValid(u: map<Oid, Content>, hash: Hash)
    ensures Repack.AllValid(u, hash, map[])
  {
  }
}
