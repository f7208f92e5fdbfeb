/** What a fetch sends: the closure of the wants less what the client owns, which leaves the
    client with a graph that is closed again. */
module Fetch {
  import opened Options
  import opened Graph
  import opened Connectivity
  import Depth

  const FRONTIER := 100

  /** An object to visit, with the type its link claimed for it. */
  datatype Visit = Visit(oid: Oid, kind: Option<Kind>)

  datatype Reached = Found(objects: seq<Oid>, held: set<Oid>) | Absent(oid: Oid) | Garbled(oid: Oid)

  predicate ClaimHolds(store: map<Oid, Object>, v: Visit) {
    v.kind == Some(BlobKind) && v.oid in store ==> store[v.oid].Blob?
  }

  function Oids(visits: seq<Visit>): set<Oid> {
    set v <- visits :: v.oid
  }

  /** A walk in progress: what it holds was reached, and what is reached next is held, stopped
      at, still to come, or, for a lenient walk, not stored. */
  ghost predicate Collecting(
      store: map<Oid, Object>, g: Edges, stops: set<Oid>, roots: set<Oid>, lenient: bool, held: set<Oid>,
      todo: set<Oid>)
  {
    && (forall x :: x in held ==> x in store && Parses(store[x]) && ReachedFrom(g, stops, roots, x))
    && (forall x :: x in todo && x !in stops ==> ReachedFrom(g, stops, roots, x))
    && (forall x, y :: x in held && y in After(g, x) ==>
          y in held || y in stops || y in todo || (lenient && y !in store))
    && (forall r :: r in roots ==> r in held || r in stops || r in todo || (lenient && r !in store))
  }

  lemma CollectingStarts(store: map<Oid, Object>, g: Edges, stops: set<Oid>, roots: set<Oid>, lenient: bool)
    ensures Collecting(store, g, stops, roots, lenient, {}, roots)
  {
    forall x | x in roots && x !in stops
      ensures ReachedFrom(g, stops, roots, x)
    {
      ReachesItself(g, stops, x);
    }
  }

  lemma Collects(
      store: map<Oid, Object>, g: Edges, stops: set<Oid>, roots: set<Oid>, lenient: bool, held: set<Oid>,
      todo: set<Oid>, x: Oid, rest: set<Oid>)
    requires Collecting(store, g, stops, roots, lenient, held, todo) && x in todo && x !in stops
    requires x in store && Parses(store[x])
    requires todo <= rest + {x} && rest <= todo + After(g, x) && After(g, x) <= rest
    ensures Collecting(store, g, stops, roots, lenient, held + {x}, rest)
  {
    hide ReachedFrom, After, AllNames;
    forall y | y in After(g, x) && y !in stops
      ensures ReachedFrom(g, stops, roots, y)
    {
      NextIsReached(g, roots, stops, x, y);
    }
    forall z, y | z in held + {x} && y in After(g, z)
      ensures y in held + {x} || y in stops || y in rest || (lenient && y !in store)
    {
      assert z == x || z in held;
    }
  }

  lemma CollectsLess(
      store: map<Oid, Object>, g: Edges, stops: set<Oid>, roots: set<Oid>, lenient: bool, held: set<Oid>,
      todo: set<Oid>, less: set<Oid>)
    requires Collecting(store, g, stops, roots, lenient, held, todo) && less <= todo
    requires forall x :: x in todo && x !in less ==> x in held || x in stops || (lenient && x !in store)
    ensures Collecting(store, g, stops, roots, lenient, held, less)
  {
    hide ReachedFrom, After;
  }

  /** A finished walk holds exactly the stored objects that are reached. */
  lemma CollectingIsOver(
      store: map<Oid, Object>, g: Edges, stops: set<Oid>, roots: set<Oid>, lenient: bool, held: set<Oid>)
    requires Collecting(store, g, stops, roots, lenient, held, {}) && g.Keys <= store.Keys
    ensures forall x :: x in held <==> ReachedFrom(g, stops, roots, x) && x in store
    ensures forall x :: !lenient && ReachedFrom(g, stops, roots, x) ==> x in store
  {
    forall x | ReachedFrom(g, stops, roots, x) && (lenient ==> x in store)
      ensures x in held
    {
      var r :| r in roots && Reaches(g, stops, r, x);
      var p :| Path(g, stops, p) && p[0] == r && p[|p| - 1] == x;
      StoredPathIsHeld(store, g, stops, roots, lenient, held, p);
    }
  }

  lemma {:induction false} StoredPathIsHeld(
      store: map<Oid, Object>, g: Edges, stops: set<Oid>, roots: set<Oid>, lenient: bool, held: set<Oid>, p: seq<Oid>)
    requires Collecting(store, g, stops, roots, lenient, held, {}) && g.Keys <= store.Keys
    requires Path(g, stops, p) && p[0] in roots && (lenient ==> p[|p| - 1] in store)
    ensures p[|p| - 1] in held
    decreases |p|
  {
    hide ReachedFrom;
    if |p| > 1 {
      var q := p[..|p| - 1];
      assert Path(g, stops, q);
      assert p[|p| - 1] in After(g, q[|q| - 1]);
      StoredPathIsHeld(store, g, stops, roots, lenient, held, q);
    }
  }

  lemma OidsConcat(a: seq<Visit>, b: seq<Visit>)
    ensures Oids(a + b) == Oids(a) + Oids(b)
  {
  }

  lemma OidsFirst(v: Visit, rest: seq<Visit>)
    ensures Oids([v] + rest) == {v.oid} + Oids(rest)
  {
    assert v in [v] + rest;
    forall w | w in rest
      ensures w in [v] + rest
    {
    }
  }

  /** The visits pushed last come first, each object once, without those already settled. */
  method Candidates(visits: seq<Visit>, settled: set<Oid>) returns (candidates: seq<Visit>)
    ensures Oids(candidates) == Oids(visits) - settled
    ensures forall v :: v in candidates ==> v in visits
    ensures forall i, j :: 0 <= i < j < |candidates| ==> candidates[i].oid != candidates[j].oid
  {
    candidates := [];
    var seen: set<Oid> := {};
    var i := |visits|;
    while i > 0
      invariant 0 <= i <= |visits|
      invariant seen == Oids(candidates) == Oids(visits[i..]) - settled
      invariant forall v :: v in candidates ==> v in visits
      invariant forall i, j :: 0 <= i < j < |candidates| ==> candidates[i].oid != candidates[j].oid
    {
      i := i - 1;
      assert visits[i..] == [visits[i]] + visits[i + 1..];
      OidsFirst(visits[i], visits[i + 1..]);
      if visits[i].oid !in settled && visits[i].oid !in seen {
        OidsConcat(candidates, [visits[i]]);
        OidsFirst(visits[i], []);
        assert [visits[i]] + [] == [visits[i]];
        CandidateIsNew(candidates, visits[i]);
        seen := seen + {visits[i].oid};
        candidates := candidates + [visits[i]];
      }
    }
    assert visits[0..] == visits;
  }

  lemma CandidateIsNew(candidates: seq<Visit>, v: Visit)
    requires v.oid !in Oids(candidates)
    ensures forall i :: 0 <= i < |candidates| ==> candidates[i].oid != v.oid
  {
    forall i | 0 <= i < |candidates|
      ensures candidates[i].oid != v.oid
    {
      assert candidates[i] in candidates;
    }
  }

  function Visits(links: seq<Link>): seq<Visit> {
    seq(|links|, i requires 0 <= i < |links| => Visit(links[i].oid, Some(links[i].kind)))
  }

  lemma VisitsOf(links: seq<Link>)
    ensures Oids(Visits(links)) == Targets(links)
    ensures forall v :: v in Visits(links) ==> v.kind.Some? && Link(v.oid, v.kind.value) in links
  {
    forall x | x in Targets(links)
      ensures x in Oids(Visits(links))
    {
      var i :| 0 <= i < |links| && links[i].oid == x;
      assert Visits(links)[i] in Visits(links);
    }
  }

  lemma RowIsOfLinks(o: Object, l: Link)
    requires Parses(o) && l in IndexRow(o)
    ensures Names(o, false, true, l)
  {
    LinksAreNames(o, false, true, l);
    DeduplicatedKeepsFirst(LinksToReach(o, false), {}, l);
    FirstLinkExists(LinksToReach(o, false), l.oid);
  }

  /** The links of a held object, from its index row when it has one. */
  method LinksOut(s: Store, shallow: set<Oid>, x: Oid) returns (visits: seq<Visit>)
    requires GraftedStore(s, shallow) && Holds(s, x) && BlobsAreBlobs(s.objects)
    ensures Oids(visits) == After(ReachEdges(s.objects, shallow), x)
    ensures forall v :: v in visits ==> ClaimHolds(s.objects, v)
  {
    var o := s.objects[x];
    var links := LinksToReach(o, x in shallow);
    TargetsAreNamed(o, x in shallow, true);
    if x in s.indexed {
      IndexTells(o, x in shallow);
      var row := IndexRow(o);
      links := [];
      for i := 0 to |row|
        invariant forall l :: l in links <==> l in row[..i] && Follows(o, x in shallow, true, l)
      {
        assert row[..i + 1] == row[..i] + [row[i]];
        if !(x in shallow && o.Commit? && row[i].kind == CommitKind) {
          links := links + [row[i]];
        }
      }
      assert row[..|row|] == row;
      assert Targets(links) == IndexTargets(o, x in shallow, true);
    }
    visits := Visits(links);
    VisitsOf(links);
    forall v | v in visits
      ensures ClaimHolds(s.objects, v)
    {
      var l := Link(v.oid, v.kind.value);
      if x in s.indexed {
        RowIsOfLinks(o, l);
      } else {
        LinksAreNames(o, x in shallow, true, l);
      }
    }
  }

  /** A walk failed on an object that it really reached. */
  ghost predicate Fails(
      store: map<Oid, Object>, g: Edges, stops: set<Oid>, roots: set<Oid>, missingIsError: bool, r: Reached)
  {
    match r
    case Found(_, _) => false
    case Absent(x) => missingIsError && x !in store && ReachedFrom(g, stops, roots, x)
    case Garbled(x) => x in store && !Parses(store[x]) && ReachedFrom(g, stops, roots, x)
  }

  lemma FailsHere(
      store: map<Oid, Object>, g: Edges, stops: set<Oid>, roots: set<Oid>, lenient: bool, held: set<Oid>,
      todo: set<Oid>, x: Oid)
    requires Collecting(store, g, stops, roots, lenient, held, todo) && x in todo && x !in stops
    ensures ReachedFrom(g, stops, roots, x)
  {
  }

  lemma HeldIsStored(
      store: map<Oid, Object>, g: Edges, stops: set<Oid>, roots: set<Oid>, lenient: bool, held: set<Oid>,
      todo: set<Oid>)
    requires Collecting(store, g, stops, roots, lenient, held, todo)
    ensures held <= store.Keys
  {
  }

  lemma CandidateNext(candidates: seq<Visit>, i: nat)
    requires i < |candidates|
    requires forall j, k :: 0 <= j < k < |candidates| ==> candidates[j].oid != candidates[k].oid
    ensures Oids(candidates[i..]) == {candidates[i].oid} + Oids(candidates[i + 1..])
    ensures Oids(candidates[..i + 1]) == Oids(candidates[..i]) + {candidates[i].oid}
    ensures candidates[i].oid in Oids(candidates) && candidates[i] in candidates
    ensures candidates[i].oid !in Oids(candidates[..i])
  {
    var c := candidates[i];
    assert candidates[i..] == [c] + candidates[i + 1..] && candidates[..i + 1] == candidates[..i] + [c];
    OidsFirst(c, candidates[i + 1..]);
    OidsConcat(candidates[..i], [c]);
    OidsFirst(c, []);
    assert [c] + [] == [c];
  }

  lemma CandidatesDone(candidates: seq<Visit>)
    ensures Oids(candidates[..|candidates|]) == Oids(candidates) && Oids(candidates[|candidates|..]) == {}
  {
    assert candidates[..|candidates|] == candidates;
  }

  lemma NoneYet(candidates: seq<Visit>)
    ensures Oids(candidates[..0]) == {} && candidates[0..] == candidates
  {
  }

  lemma ClaimedBlob(store: map<Oid, Object>, v: Visit)
    requires ClaimHolds(store, v) && v.kind == Some(BlobKind) && v.oid in store
    ensures store[v.oid].Blob?
  {
  }

  lemma BlobLeadsNowhere(store: map<Oid, Object>, shallow: set<Oid>, x: Oid)
    requires x in store && store[x].Blob?
    ensures After(ReachEdges(store, shallow), x) == {}
  {
  }

  lemma HoldOne(objects: seq<Oid>, held: set<Oid>, x: Oid)
    requires Distinct(objects) && Members(objects) == held && x !in held
    ensures Distinct(objects + [x]) && Members(objects + [x]) == held + {x}
  {
    forall i | 0 <= i < |objects|
      ensures objects[i] != x
    {
      assert objects[i] in Members(objects);
    }
  }

  /** Visits one frontier. A link that claims a blob is taken at its word. */
  method VisitFrontier(
      s: Store, shallow: set<Oid>, stops: set<Oid>, ghost roots: set<Oid>, missingIsError: bool,
      candidates: seq<Visit>, rest: seq<Visit>, before: seq<Oid>, heldBefore: set<Oid>)
      returns (failure: Option<Reached>, pending: seq<Visit>, objects: seq<Oid>, held: set<Oid>)
    requires GraftedStore(s, shallow) && BlobsAreBlobs(s.objects)
    requires Collecting(s.objects, ReachEdges(s.objects, shallow), stops, roots, !missingIsError, heldBefore,
      Oids(rest) + Oids(candidates))
    requires Oids(candidates) !! stops + heldBefore && Distinct(before) && Members(before) == heldBefore
    requires forall i, j :: 0 <= i < j < |candidates| ==> candidates[i].oid != candidates[j].oid
    requires forall v :: v in rest || v in candidates ==> ClaimHolds(s.objects, v)
    ensures var g := ReachEdges(s.objects, shallow);
            && (failure.None? ==> Collecting(s.objects, g, stops, roots, !missingIsError, held, Oids(pending)))
            && (failure.Some? ==> Fails(s.objects, g, stops, roots, missingIsError, failure.value))
    ensures failure.None? ==>
      && heldBefore <= held <= s.objects.Keys && Distinct(objects) && Members(objects) == held
      && (forall v :: v in pending ==> ClaimHolds(s.objects, v))
      && (held == heldBefore ==> pending == rest)
      && (missingIsError ==> Oids(candidates) <= held)
  {
    hide Collecting, ReachedFrom, ReachEdges, After, GraftedStore, BlobsAreBlobs, ClaimHolds, Oids, Distinct, Members;
    ghost var g := ReachEdges(s.objects, shallow);
    failure, pending, objects, held := None, rest, before, heldBefore;
    HeldIsStored(s.objects, g, stops, roots, !missingIsError, held, Oids(rest) + Oids(candidates));
    NoneYet(candidates);
    for i := 0 to |candidates|
      invariant failure.None? && heldBefore <= held <= s.objects.Keys
      invariant Distinct(objects) && Members(objects) == held
      invariant held <= heldBefore + Oids(candidates[..i])
      invariant missingIsError ==> held == heldBefore + Oids(candidates[..i])
      invariant forall v :: v in pending ==> ClaimHolds(s.objects, v)
      invariant held == heldBefore ==> pending == rest
      invariant Collecting(s.objects, g, stops, roots, !missingIsError, held, Oids(pending) + Oids(candidates[i..]))
    {
      var v := candidates[i];
      ghost var todo := Oids(pending) + Oids(candidates[i..]);
      CandidateNext(candidates, i);
      if v.oid !in s.objects {
        if missingIsError {
          failure := Some(Absent(v.oid));
          FailsHere(s.objects, g, stops, roots, !missingIsError, held, todo, v.oid);
          return;
        }
        CollectsLess(s.objects, g, stops, roots, !missingIsError, held, todo,
          Oids(pending) + Oids(candidates[i + 1..]));
        continue;
      }
      if v.kind != Some(BlobKind) && !Parses(s.objects[v.oid]) {
        failure := Some(Garbled(v.oid));
        FailsHere(s.objects, g, stops, roots, !missingIsError, held, todo, v.oid);
        return;
      }
      HoldOne(objects, held, v.oid);
      if v.kind == Some(BlobKind) {
        ClaimedBlob(s.objects, v);
        BlobLeadsNowhere(s.objects, shallow, v.oid);
        Collects(s.objects, g, stops, roots, !missingIsError, held, todo, v.oid,
          Oids(pending) + Oids(candidates[i + 1..]));
      } else {
        var links := LinksOut(s, shallow, v.oid);
        OidsConcat(pending, links);
        Collects(s.objects, g, stops, roots, !missingIsError, held, todo, v.oid,
          Oids(pending + links) + Oids(candidates[i + 1..]));
        pending := pending + links;
      }
      objects, held := objects + [v.oid], held + {v.oid};
    }
    CandidatesDone(candidates);
    assert Oids(pending) + {} == Oids(pending);
  }

  /** Everything that is reached is stored and parses, as far as the walk insists on it. */
  ghost predicate Walkable(store: map<Oid, Object>, g: Edges, stops: set<Oid>, roots: set<Oid>, missingIsError: bool) {
    forall x :: ReachedFrom(g, stops, roots, x) ==> if x in store then Parses(store[x]) else !missingIsError
  }

  /** The stored objects the roots reach outside the stops, each listed once. It fails exactly
      when it reaches an object that does not parse, or one that is missing and should not be. */
  method Reachable(
      s: Store, roots: seq<Oid>, missingIsError: bool, stops: set<Oid>, shallow: set<Oid>)
      returns (r: Reached)
    requires GraftedStore(s, shallow) && BlobsAreBlobs(s.objects)
    ensures var g := ReachEdges(s.objects, shallow);
            && (r.Found? <==> Walkable(s.objects, g, stops, Members(roots), missingIsError))
            && (!r.Found? ==> Fails(s.objects, g, stops, Members(roots), missingIsError, r))
            && (r.Found? ==> Distinct(r.objects) && Members(r.objects) == r.held)
            && (r.Found? ==> forall x :: x in r.held <==> ReachedFrom(g, stops, Members(roots), x) && x in s.objects)
  {
    hide Collecting, ReachedFrom, ReachEdges, After, BlobsAreBlobs, ClaimHolds, Oids, Distinct, Members, Fails,
         Walkable;
    ghost var g, from := ReachEdges(s.objects, shallow), Members(roots);
    var closure := ReadObjectClosure(s, Members(roots), stops, shallow, true);
    if closure.Some? {
      IndexedIsWalkable(s, g, stops, from, missingIsError);
      var listed := List(closure.value);
      return Found(listed, closure.value);
    }
    var pending: seq<Visit> := seq(|roots|, i requires 0 <= i < |roots| => Visit(roots[i], None));
    RootVisits(s.objects, roots, pending);
    var objects: seq<Oid>, held: set<Oid> := [], {};
    CollectingStarts(s.objects, g, stops, from, !missingIsError);
    NothingHeld();
    while pending != []
      invariant Collecting(s.objects, g, stops, from, !missingIsError, held, Oids(pending))
      invariant held <= s.objects.Keys && Distinct(objects) && Members(objects) == held
      invariant forall v :: v in pending ==> ClaimHolds(s.objects, v)
      decreases s.objects.Keys - held, |pending|
    {
      var cut := if |pending| > FRONTIER then |pending| - FRONTIER else 0;
      var candidates := Candidates(pending[cut..], held + stops);
      assert pending == pending[..cut] + pending[cut..];
      OidsConcat(pending[..cut], pending[cut..]);
      CollectsLess(s.objects, g, stops, from, !missingIsError, held, Oids(pending),
        Oids(pending[..cut]) + Oids(candidates));
      var failure: Option<Reached>;
      ghost var before := held;
      failure, pending, objects, held :=
        VisitFrontier(s, shallow, stops, from, missingIsError, candidates, pending[..cut], objects, held);
      if failure.Some? {
        FailedIsNotWalkable(s.objects, g, stops, from, missingIsError, failure.value);
        return failure.value;
      }
      assert held == before || s.objects.Keys - held < s.objects.Keys - before;
    }
    EdgesAreStored(s.objects, shallow);
    assert Oids([]) == {} by { NoneYet([]); }
    CollectingIsOver(s.objects, g, stops, from, !missingIsError, held);
    CollectedIsWalkable(s.objects, g, stops, from, missingIsError, held);
    r := Found(objects, held);
  }

  lemma EdgesAreStored(store: map<Oid, Object>, shallow: set<Oid>)
    ensures ReachEdges(store, shallow).Keys <= store.Keys
  {
  }

  lemma IndexedIsWalkable(s: Store, g: Edges, stops: set<Oid>, roots: set<Oid>, missingIsError: bool)
    requires ValidStore(s) && AllIndexed(s, g, stops, roots)
    ensures Walkable(s.objects, g, stops, roots, missingIsError)
    ensures forall x :: ReachedFrom(g, stops, roots, x) ==> x in s.objects
  {
  }

  lemma CollectedIsWalkable(
      store: map<Oid, Object>, g: Edges, stops: set<Oid>, roots: set<Oid>, missingIsError: bool, held: set<Oid>)
    requires Collecting(store, g, stops, roots, !missingIsError, held, {})
    requires forall x :: x in held <==> ReachedFrom(g, stops, roots, x) && x in store
    requires forall x :: missingIsError && ReachedFrom(g, stops, roots, x) ==> x in store
    ensures Walkable(store, g, stops, roots, missingIsError)
  {
  }

  lemma FailedIsNotWalkable(
      store: map<Oid, Object>, g: Edges, stops: set<Oid>, roots: set<Oid>, missingIsError: bool, r: Reached)
    requires Fails(store, g, stops, roots, missingIsError, r)
    ensures !Walkable(store, g, stops, roots, missingIsError) && !r.Found?
  {
  }

  lemma RootVisits(store: map<Oid, Object>, roots: seq<Oid>, visits: seq<Visit>)
    requires visits == seq(|roots|, i requires 0 <= i < |roots| => Visit(roots[i], None))
    ensures Oids(visits) == Members(roots) && forall v :: v in visits ==> ClaimHolds(store, v)
  {
    forall x | x in Members(roots)
      ensures x in Oids(visits)
    {
      var i :| 0 <= i < |roots| && roots[i] == x;
      assert visits[i] in visits;
    }
  }

  lemma NothingHeld()
    ensures Distinct([]) && Members([]) == {}
  {
  }

  method List(items: set<Oid>) returns (listed: seq<Oid>)
    ensures Distinct(listed) && Members(listed) == items
  {
    listed := [];
    var rest := items;
    while rest != {}
      invariant rest <= items && Distinct(listed) && Members(listed) == items - rest
      decreases rest
    {
      var x :| x in rest;
      HoldOne(listed, items - rest, x);
      listed, rest := listed + [x], rest - {x};
    }
  }

  // ---- The request ----------------------------------------------------------------------------

  datatype Response =
    | NoWants
    | NotOurRef(oid: Oid)
    | Refused(oid: Oid)
    | DepthOnly(update: Depth.Plan)
    | Negotiating(acknowledged: seq<Oid>)
    | Packed(plan: Option<Depth.Plan>, common: seq<Oid>, missing: seq<Oid>, held: set<Oid>)

  /** What the client owns: everything behind what it has in common with the repository, up
      to the grafts of either side. */
  ghost predicate Owned(store: map<Oid, Object>, boundaries: set<Oid>, common: set<Oid>, x: Oid) {
    ReachedFrom(ReachEdges(store, boundaries), {}, common, x)
  }

  function Deepens(plan: Option<Depth.Plan>): bool {
    plan.Some? && plan.value.unshallow != {}
  }

  /** The grafts the pack is cut at. */
  function SentShallow(shallow: set<Oid>, plan: Option<Depth.Plan>): set<Oid> {
    if plan.Some? then plan.value.shallow else shallow
  }

  /** The client's grafts once it took the response in. */
  function NewShallow(boundaries: set<Oid>, plan: Option<Depth.Plan>): set<Oid> {
    if plan.Some? then boundaries + plan.value.shallow - plan.value.unshallow else boundaries
  }

  /** A graft that the response lifts, whether the client has the commit in common or not. */
  predicate Lifted(boundaries: set<Oid>, plan: Option<Depth.Plan>, x: Oid) {
    x in boundaries && x !in NewShallow(boundaries, plan)
  }

  /** The client's graph after the fetch has no loose end, and what it asked for is in it. */
  ghost predicate LeavesClosed(
      store: map<Oid, Object>, boundaries: set<Oid>, common: set<Oid>, plan: Option<Depth.Plan>, wants: seq<Oid>,
      sent: set<Oid>)
  {
    var g := ReachEdges(store, NewShallow(boundaries, plan));
    && (forall w :: w in wants ==> w in sent || Owned(store, boundaries, common, w))
    && (forall x, y ::
          (x in sent || Owned(store, boundaries, common, x) || Lifted(boundaries, plan, x)) && y in After(g, x) ==>
          y in sent || Owned(store, boundaries, common, y))
  }

  /** Grafting fewer commits only adds edges. */
  lemma FewerEdges(store: map<Oid, Object>, more: set<Oid>, less: set<Oid>, x: Oid)
    requires x in less ==> x in more
    ensures After(ReachEdges(store, more), x) <= After(ReachEdges(store, less), x)
  {
  }

  lemma OwnedNext(store: map<Oid, Object>, boundaries: set<Oid>, common: set<Oid>, x: Oid, y: Oid)
    requires Owned(store, boundaries, common, x) && y in After(ReachEdges(store, boundaries), x)
    ensures Owned(store, boundaries, common, y)
  {
    hide ReachEdges, After, ReachedFrom;
    NextIsReached(ReachEdges(store, boundaries), common, {}, x, y);
  }

  /** A trail within the depth is a path the sending walk can follow. */
  lemma {:induction false} TrailReaches(store: map<Oid, Object>, grafts: set<Oid>, wants: seq<Oid>, p: seq<Oid>)
    requires Depth.Trail(store, grafts, wants, p)
    ensures Path(ReachEdges(store, grafts), {}, p)
    decreases |p|
  {
    forall i | 0 < i < |p|
      ensures p[i] in After(ReachEdges(store, grafts), p[i - 1])
    {
      LeadsIsAnEdge(store, grafts, p[i - 1], p[i]);
    }
  }

  lemma LeadsIsAnEdge(store: map<Oid, Object>, grafts: set<Oid>, x: Oid, y: Oid)
    requires Depth.Leads(store, grafts, x, y)
    ensures y in After(ReachEdges(store, grafts), x)
  {
  }

  /** A commit whose graft is lifted is on the way to a want. */
  lemma UnshallowIsWanted(
      store: map<Oid, Object>, shallow: set<Oid>, wants: seq<Oid>, depth: nat, labels: map<Oid, nat>, x: Oid)
    requires Depth.Labelled(store, shallow, wants, depth, labels) && depth > 0 && x in labels
    ensures ReachedFrom(ReachEdges(store, Depth.Boundary(store, shallow, depth, labels)), {}, Members(wants), x)
  {
    var boundary := Depth.Boundary(store, shallow, depth, labels);
    Depth.GraftIsExact(store, shallow, wants, depth, labels, x);
    var p :| Depth.Trail(store, boundary, wants, p) && p[|p| - 1] == x;
    TrailReaches(store, boundary, wants, p);
    assert p[0] in Members(wants);
    assert Reaches(ReachEdges(store, boundary), {}, p[0], x);
  }

  /** The wanted walk found what is reached outside the stops. */
  ghost predicate Wanted(
      store: map<Oid, Object>, grafts: set<Oid>, stops: set<Oid>, wants: seq<Oid>, objects: set<Oid>)
  {
    forall x :: x in objects <==> ReachedFrom(ReachEdges(store, grafts), stops, Members(wants), x)
  }

  lemma WantedNext(
      store: map<Oid, Object>, grafts: set<Oid>, stops: set<Oid>, wants: seq<Oid>, objects: set<Oid>, x: Oid, y: Oid)
    requires Wanted(store, grafts, stops, wants, objects) && x in objects
    requires y in After(ReachEdges(store, grafts), x)
    ensures y in objects || y in stops
  {
    hide ReachEdges, After, ReachedFrom;
    if y !in stops {
      NextIsReached(ReachEdges(store, grafts), Members(wants), stops, x, y);
    }
  }

  lemma WantIsWanted(
      store: map<Oid, Object>, grafts: set<Oid>, stops: set<Oid>, wants: seq<Oid>, objects: set<Oid>, w: Oid)
    requires Wanted(store, grafts, stops, wants, objects) && w in wants
    ensures w in objects || w in stops
  {
    if w !in stops {
      ReachesItself(ReachEdges(store, grafts), stops, w);
      assert w in Members(wants);
    }
  }

  /** A plan made for this request. */
  ghost predicate PlannedFor(
      store: map<Oid, Object>, shallow: set<Oid>, clientShallow: set<Oid>, wants: seq<Oid>, plan: Option<Depth.Plan>)
  {
    plan.Some? ==> exists depth: nat, labels :: Planned(store, shallow, clientShallow, wants, plan.value, depth, labels)
  }

  ghost predicate Planned(
      store: map<Oid, Object>, shallow: set<Oid>, clientShallow: set<Oid>, wants: seq<Oid>, plan: Depth.Plan,
      depth: nat, labels: map<Oid, nat>)
  {
    && depth > 0 && Depth.Labelled(store, shallow, wants, depth, labels)
    && plan.shallow == Depth.Boundary(store, shallow, depth, labels)
    && plan.unshallow == set x | x in clientShallow && x in labels && x !in plan.shallow
  }

  /** Set subtraction leaves the client closed, whether the walk stopped at what the client
      has or, when old grafts are lifted, went all the way and left out what it owns. */
  lemma SubtractionLeavesClosed(
      store: map<Oid, Object>, shallow: set<Oid>, clientShallow: set<Oid>, common: set<Oid>, wants: seq<Oid>,
      plan: Option<Depth.Plan>, stops: set<Oid>, wanted: set<Oid>, sent: set<Oid>)
    requires PlannedFor(store, shallow, clientShallow, wants, plan)
    requires Wanted(store, SentShallow(shallow, plan), stops, wants, wanted) && (Deepens(plan) ==> stops == {})
    requires forall x :: x in stops ==> Owned(store, shallow + clientShallow, common, x)
    requires forall x :: x in wanted && x !in sent ==> Owned(store, shallow + clientShallow, common, x)
    requires sent <= wanted
    ensures LeavesClosed(store, shallow + clientShallow, common, plan, wants, sent)
  {
    hide Owned, ReachEdges, After, Wanted, Planned;
    var boundaries := shallow + clientShallow;
    var grafts, after := SentShallow(shallow, plan), NewShallow(boundaries, plan);
    forall w | w in wants
      ensures w in sent || Owned(store, boundaries, common, w)
    {
      WantIsWanted(store, grafts, stops, wants, wanted, w);
    }
    forall x, y | (x in sent || Owned(store, boundaries, common, x) || Lifted(boundaries, plan, x)) &&
                  y in After(ReachEdges(store, after), x)
      ensures y in sent || Owned(store, boundaries, common, y)
    {
      if Lifted(boundaries, plan, x) {
        LiftedIsWanted(store, shallow, clientShallow, wants, plan, stops, wanted, x);
      }
      if x in sent || Lifted(boundaries, plan, x) {
        PlanKeepsGrafts(store, shallow, clientShallow, wants, plan);
        FewerEdges(store, after, grafts, x);
        WantedNext(store, grafts, stops, wants, wanted, x, y);
      } else {
        FewerEdges(store, after, boundaries, x);
        OwnedNext(store, boundaries, common, x, y);
      }
    }
  }

  lemma PlanKeepsGrafts(
      store: map<Oid, Object>, shallow: set<Oid>, clientShallow: set<Oid>, wants: seq<Oid>, plan: Option<Depth.Plan>)
    requires PlannedFor(store, shallow, clientShallow, wants, plan)
    ensures SentShallow(shallow, plan) <= NewShallow(shallow + clientShallow, plan)
  {
    hide Depth.Labelled, Depth.Boundary;
  }

  lemma LiftedIsWanted(
      store: map<Oid, Object>, shallow: set<Oid>, clientShallow: set<Oid>, wants: seq<Oid>, plan: Option<Depth.Plan>,
      stops: set<Oid>, wanted: set<Oid>, x: Oid)
    requires PlannedFor(store, shallow, clientShallow, wants, plan)
    requires Wanted(store, SentShallow(shallow, plan), stops, wants, wanted) && (Deepens(plan) ==> stops == {})
    requires Lifted(shallow + clientShallow, plan, x)
    ensures x in wanted && stops == {}
  {
    hide Depth.Labelled, Depth.Boundary, ReachedFrom, ReachEdges;
    var depth: nat, labels :| Planned(store, shallow, clientShallow, wants, plan.value, depth, labels);
    assert x in plan.value.unshallow;
    UnshallowIsWanted(store, shallow, wants, depth, labels, x);
  }

  /** Everything the response of a completed fetch promises. */
  ghost predicate Sends(
      s: Store, shallow: set<Oid>, clientShallow: set<Oid>, common: set<Oid>, wants: seq<Oid>,
      plan: Option<Depth.Plan>, missing: seq<Oid>, held: set<Oid>)
  {
    var boundaries := shallow + clientShallow;
    && PlannedFor(s.objects, shallow, clientShallow, wants, plan)
    && Distinct(missing) && Members(missing) <= s.objects.Keys && Members(missing) !! held && held <= s.objects.Keys
    && (forall x :: x in missing ==>
          ReachedFrom(ReachEdges(s.objects, SentShallow(shallow, plan)), {}, Members(wants), x))
    && (forall x :: x in held ==> Owned(s.objects, boundaries, common, x))
    && (AllIndexed(s, ReachEdges(s.objects, boundaries), {}, common) ==>
          forall x :: x in missing ==> !Owned(s.objects, boundaries, common, x))
    && LeavesClosed(s.objects, boundaries, common, plan, wants, Members(missing))
  }

  /** The objects of the wanted walk that neither set of held objects names. */
  method Subtract(objects: seq<Oid>, held: set<Oid>, candidates: set<Oid>) returns (missing: seq<Oid>)
    requires Distinct(objects)
    ensures Distinct(missing) && Members(missing) == Members(objects) - held - candidates
  {
    missing := [];
    NothingHeld();
    for i := 0 to |objects|
      invariant Distinct(missing) && Members(missing) == Members(objects[..i]) - held - candidates
    {
      FrontierNext(objects, i);
      NewMember(objects, i);
      if objects[i] !in held && objects[i] !in candidates {
        HoldOne(missing, Members(missing), objects[i]);
        missing := missing + [objects[i]];
      }
    }
    assert objects[..|objects|] == objects;
  }

  lemma NewMember(objects: seq<Oid>, i: nat)
    requires Distinct(objects) && i < |objects|
    ensures objects[i] !in Members(objects[..i])
  {
  }

  lemma QueryIsPart(s: Store, shallow: set<Oid>)
    requires GraftedStore(s, shallow)
    ensures forall x :: After(QueryEdges(s, shallow, true), x) <= After(ReachEdges(s.objects, shallow), x)
  {
    forall x | x in s.indexed
      ensures After(QueryEdges(s, shallow, true), x) == After(ReachEdges(s.objects, shallow), x)
    {
      QueryFollowsLinks(s, shallow, true, x);
    }
  }

  /** What the link index says the client owns, it owns; and it says so of everything when all
      of it is indexed. */
  lemma IndexKnowsOwned(s: Store, boundaries: set<Oid>, common: set<Oid>)
    requires GraftedStore(s, boundaries)
    ensures var q := QueryEdges(s, boundaries, true);
            && (forall x :: ReachedFrom(q, {}, common, x) ==> Owned(s.objects, boundaries, common, x))
            && (AllIndexed(s, ReachEdges(s.objects, boundaries), {}, common) ==>
                  forall x :: Owned(s.objects, boundaries, common, x) ==> ReachedFrom(q, {}, common, x))
  {
    var q, g := QueryEdges(s, boundaries, true), ReachEdges(s.objects, boundaries);
    QueryIsPart(s, boundaries);
    QueryClosure(s, common, {}, boundaries, true);
    forall x | ReachedFrom(q, {}, common, x)
      ensures ReachedFrom(g, {}, common, x)
    {
      var r :| r in common && Reaches(q, {}, r, x);
      var p :| Path(q, {}, p) && p[0] == r && p[|p| - 1] == x;
      PathMoves(q, g, p);
      assert Reaches(g, {}, r, x);
    }
  }

  method HeldObjects(s: Store, oids: seq<Oid>) returns (held: set<Oid>)
    ensures held == Members(oids) * s.objects.Keys
  {
    held := {};
    for i := 0 to |oids|
      invariant held == Members(oids[..i]) * s.objects.Keys
    {
      FrontierNext(oids, i);
      if oids[i] in s.objects {
        held := held + {oids[i]};
      }
    }
    assert oids[..|oids|] == oids;
  }

  lemma CommonIsOwned(store: map<Oid, Object>, boundaries: set<Oid>, common: set<Oid>)
    ensures forall x :: x in common ==> Owned(store, boundaries, common, x)
  {
    forall x | x in common
      ensures Owned(store, boundaries, common, x)
    {
      ReachesItself(ReachEdges(store, boundaries), {}, x);
    }
  }

  /** What the client's full walk holds it owns: a `have` that is not here leads nowhere. */
  lemma ClientOwns(store: map<Oid, Object>, boundaries: set<Oid>, haves: seq<Oid>, x: Oid)
    requires ReachedFrom(ReachEdges(store, boundaries), {}, Members(haves), x) && x in store
    ensures Owned(store, boundaries, Members(haves) * store.Keys, x)
  {
    var g := ReachEdges(store, boundaries);
    var r :| r in Members(haves) && Reaches(g, {}, r, x);
    var p :| Path(g, {}, p) && p[0] == r && p[|p| - 1] == x;
    assert r in store by {
      if |p| > 1 {
        assert p[1] in After(g, p[0]);
      }
    }
    assert r in Members(haves) * store.Keys;
  }

  lemma PlannedIsGrafted(
      s: Store, shallow: set<Oid>, clientShallow: set<Oid>, wants: seq<Oid>, plan: Option<Depth.Plan>)
    requires GraftedStore(s, shallow + clientShallow) && PlannedFor(s.objects, shallow, clientShallow, wants, plan)
    ensures GraftedStore(s, SentShallow(shallow, plan))
  {
    hide Depth.Within, Depth.At;
  }

  lemma StrictWalk(store: map<Oid, Object>, grafts: set<Oid>, stops: set<Oid>, wants: seq<Oid>, held: set<Oid>)
    requires Walkable(store, ReachEdges(store, grafts), stops, Members(wants), true)
    requires forall x :: x in held <==> ReachedFrom(ReachEdges(store, grafts), stops, Members(wants), x) && x in store
    ensures Wanted(store, grafts, stops, wants, held) && held <= store.Keys
  {
  }

  lemma NothingFromNothing(g: Edges, x: Oid)
    ensures !ReachedFrom(g, {}, {}, x)
  {
  }

  /** The stored objects among `wanted` that the link index says the client owns. */
  method ReadReachableObjects(s: Store, roots: set<Oid>, wanted: set<Oid>, boundaries: set<Oid>)
      returns (held: set<Oid>)
    requires GraftedStore(s, boundaries)
    ensures forall x :: x in held <==>
      x in wanted && x in s.objects && ReachedFrom(QueryEdges(s, boundaries, true), {}, roots, x)
  {
    hide ReachedFrom, QueryEdges;
    if roots == {} || wanted == {} {
      forall x
        ensures !ReachedFrom(QueryEdges(s, boundaries, true), {}, {}, x)
      {
        NothingFromNothing(QueryEdges(s, boundaries, true), x);
      }
      return {};
    }
    var owned := Closure(QueryEdges(s, boundaries, true), roots, {});
    held := wanted * owned * s.objects.Keys;
  }

  lemma Subtracted(
      s: Store, boundaries: set<Oid>, common: set<Oid>, client: set<Oid>, wanted: set<Oid>, candidates: set<Oid>,
      missing: seq<Oid>)
    requires GraftedStore(s, boundaries) && wanted <= s.objects.Keys
    requires forall x :: x in client ==> Owned(s.objects, boundaries, common, x)
    requires forall x :: x in candidates <==>
      x in wanted && x in s.objects && ReachedFrom(QueryEdges(s, boundaries, true), {}, common, x)
    requires Members(missing) == wanted - client - candidates
    ensures Members(missing) !! client + candidates && forall x :: x in missing <==> x in Members(missing)
    ensures forall x :: x in client + candidates ==> Owned(s.objects, boundaries, common, x)
    ensures forall x :: x in wanted && x !in Members(missing) ==> Owned(s.objects, boundaries, common, x)
    ensures AllIndexed(s, ReachEdges(s.objects, boundaries), {}, common) ==>
      forall x :: x in missing ==> !Owned(s.objects, boundaries, common, x)
  {
    hide ReachedFrom, Owned, QueryEdges, ReachEdges;
    IndexKnowsOwned(s, boundaries, common);
  }

  /** The objects to send, once the request is done. */
  method Send(
      s: Store, wants: seq<Oid>, haves: seq<Oid>, clientShallow: set<Oid>, shallow: set<Oid>, plan: Option<Depth.Plan>,
      client: set<Oid>)
      returns (r: Response)
    requires GraftedStore(s, shallow + clientShallow) && BlobsAreBlobs(s.objects)
    requires PlannedFor(s.objects, shallow, clientShallow, wants, plan)
    requires client <= s.objects.Keys
    requires var common := Members(haves) * s.objects.Keys;
             forall x :: x in client ==> Owned(s.objects, shallow + clientShallow, common, x)
    ensures r.Packed? || r.Refused?
    ensures r.Refused? ==> Unreadable(s.objects, Members(wants) + Members(haves), r.oid)
    ensures r.Packed? ==>
      && r.plan == plan
      && Sends(s, shallow, clientShallow, Members(haves) * s.objects.Keys, wants, plan, r.missing, r.held)
    ensures r.Packed? <==>
      Walkable(s.objects, ReachEdges(s.objects, SentShallow(shallow, plan)), if Deepens(plan) then {} else client,
        Members(wants), true)
  {
    hide ReachedFrom, ReachEdges, GraftedStore, BlobsAreBlobs, Distinct, Owned, PlannedFor, Walkable, LeavesClosed,
         Fails, Unreadable, QueryEdges, AllIndexed, Wanted;
    var boundaries := shallow + clientShallow;
    ghost var common := Members(haves) * s.objects.Keys;
    PlannedIsGrafted(s, shallow, clientShallow, wants, plan);
    var stops := if plan.Some? && plan.value.unshallow != {} then {} else client;
    var grafts := if plan.Some? then plan.value.shallow else shallow;
    var reached := Reachable(s, wants, true, stops, grafts);
    if !reached.Found? {
      FailureIsReal(s.objects, grafts, stops, Members(wants), true, reached, Members(wants) + Members(haves));
      return Refused(reached.oid);
    }
    StrictWalk(s.objects, grafts, stops, wants, reached.held);
    var commonHaves := HeldObjects(s, haves);
    var candidates := ReadReachableObjects(s, commonHaves, reached.held, boundaries);
    var missing := Subtract(reached.objects, client, candidates);
    Subtracted(s, boundaries, common, client, reached.held, candidates, missing);
    SubtractionLeavesClosed(s.objects, shallow, clientShallow, common, wants, plan, stops, reached.held,
      Members(missing));
    forall x | x in missing
      ensures ReachedFrom(ReachEdges(s.objects, grafts), {}, Members(wants), x)
    {
      StillReached(ReachEdges(s.objects, grafts), stops, Members(wants), x);
    }
    r := Packed(plan, [], missing, client + candidates);
  }

  /** There is a plan exactly when a depth was asked for, and it is the one for that depth. */
  ghost predicate PlannedToDepth(
      store: map<Oid, Object>, shallow: set<Oid>, clientShallow: set<Oid>, wants: seq<Oid>, depth: Option<nat>,
      plan: Option<Depth.Plan>)
  {
    && (plan.Some? <==> depth.Some?)
    && (plan.Some? ==> exists labels :: Planned(store, shallow, clientShallow, wants, plan.value, depth.value, labels))
  }

  /** An object behind the request is missing or does not parse. */
  ghost predicate Unreadable(store: map<Oid, Object>, asked: set<Oid>, x: Oid) {
    && (x in store ==> !Parses(store[x]))
    && ReachedFrom(ReachEdges(store, {}), {}, asked, x)
  }

  lemma ReachedUngrafted(
      store: map<Oid, Object>, grafts: set<Oid>, stops: set<Oid>, roots: set<Oid>, asked: set<Oid>, x: Oid)
    requires ReachedFrom(ReachEdges(store, grafts), stops, roots, x) && roots <= asked
    ensures ReachedFrom(ReachEdges(store, {}), {}, asked, x)
  {
    var g, h := ReachEdges(store, grafts), ReachEdges(store, {});
    StillReached(g, stops, roots, x);
    var r :| r in roots && Reaches(g, {}, r, x);
    var p :| Path(g, {}, p) && p[0] == r && p[|p| - 1] == x;
    forall y
      ensures After(g, y) <= After(h, y)
    {
      FewerEdges(store, grafts, {}, y);
    }
    PathMoves(g, h, p);
  }

  lemma WithinIsReached(
      store: map<Oid, Object>, grafts: set<Oid>, wants: seq<Oid>, depth: nat, asked: set<Oid>, x: Oid)
    requires Depth.Within(store, grafts, wants, depth, x) && !Depth.Readable(store, x) && Members(wants) <= asked
    ensures Unreadable(store, asked, x)
  {
    var d: nat :| d <= depth && Depth.At(store, grafts, wants, x, d);
    var p :| Depth.Trail(store, grafts, wants, p) && p[|p| - 1] == x && Depth.Generation(store, p) == d;
    TrailReaches(store, grafts, wants, p);
    assert p[0] in Members(wants) && Reaches(ReachEdges(store, grafts), {}, p[0], x);
    ReachedUngrafted(store, grafts, {}, Members(wants), asked, x);
  }

  lemma FailureIsReal(
      store: map<Oid, Object>, grafts: set<Oid>, stops: set<Oid>, roots: set<Oid>, missingIsError: bool, r: Reached,
      asked: set<Oid>)
    requires Fails(store, ReachEdges(store, grafts), stops, roots, missingIsError, r) && roots <= asked
    ensures Unreadable(store, asked, r.oid)
  {
    ReachedUngrafted(store, grafts, stops, roots, asked, r.oid);
  }

  /** An upload-pack request from its wants to the objects of its pack. It is refused only for a want
      that was not advertised or an object that really cannot be read. */
  method UploadPack(
      s: Store, wants: seq<Oid>, haves: seq<Oid>, clientShallow: seq<Oid>, depth: Option<nat>, done: bool,
      advertised: set<Oid>, shallow: set<Oid>)
      returns (r: Response)
    requires GraftedStore(s, shallow + Members(clientShallow)) && BlobsAreBlobs(s.objects)
    requires Depth.ParentsAreCommits(s.objects) && (depth.Some? ==> depth.value > 0)
    ensures wants == [] <==> r.NoWants?
    ensures r.NotOurRef? <==> !(Members(wants) <= advertised)
    ensures r.NotOurRef? ==> r.oid in wants && r.oid !in advertised
    ensures r.Refused? ==> Unreadable(s.objects, Members(wants) + Members(haves), r.oid)
    ensures r.DepthOnly? ==>
      && depth.Some? && !done && haves == []
      && PlannedToDepth(s.objects, shallow, Members(clientShallow), wants, depth, Some(r.update))
    ensures r.Negotiating? ==>
      && !done && (depth.Some? ==> haves != [])
      && forall x :: x in r.acknowledged <==> x in haves && x in s.objects
    ensures r.Packed? ==>
      && done && PlannedToDepth(s.objects, shallow, Members(clientShallow), wants, depth, r.plan)
      && (forall x :: x in r.common <==> x in haves && x in s.objects)
      && Sends(s, shallow, Members(clientShallow), Members(haves) * s.objects.Keys, wants, r.plan, r.missing, r.held)
  {
    hide ReachedFrom, Fails, Unreadable, PlannedToDepth, ReachEdges, GraftedStore, BlobsAreBlobs, Owned, PlannedFor,
         Walkable, Sends, Depth.Readable, Depth.ParentsAreCommits, Depth.Labelled, Depth.Within;
    if wants == [] {
      return NoWants;
    }
    var unadvertised := FirstOutside(wants, advertised);
    if unadvertised.Some? {
      return NotOurRef(unadvertised.value);
    }
    var plan: Option<Depth.Plan> := None;
    NoPlan(s.objects, shallow, Members(clientShallow), wants);
    if depth.Some? {
      ghost var labels: map<Oid, nat>;
      var planned: Depth.Planned;
      planned, labels := Depth.PlanDepth(wants, clientShallow, depth.value, s.objects, shallow);
      if planned.Failed? {
        WithinIsReached(s.objects, shallow, wants, depth.value, Members(wants) + Members(haves), planned.oid);
        return Refused(planned.oid);
      }
      plan := Some(planned.plan);
      PlanIsFor(s.objects, shallow, clientShallow, wants, planned.plan, depth.value, labels);
      if !done && haves == [] {
        return DepthOnly(planned.plan);
      }
    }
    var boundaries := shallow + Members(clientShallow);
    var client := HeldObjects(s, haves);
    CommonIsOwned(s.objects, boundaries, client);
    if plan.Some? && plan.value.unshallow != {} {
      var reached := Reachable(s, haves, false, {}, boundaries);
      if !reached.Found? {
        FailureIsReal(s.objects, boundaries, {}, Members(haves), false, reached, Members(wants) + Members(haves));
        return Refused(reached.oid);
      }
      HavesAreHeld(s.objects, boundaries, haves, reached.held);
      HeldIsOwned(s.objects, boundaries, haves, reached.held);
      client := reached.held;
    }
    var acknowledged := Acknowledged(haves, client);
    if !done {
      return Negotiating(acknowledged);
    }
    r := Send(s, wants, haves, Members(clientShallow), shallow, plan, client);
    if r.Packed? {
      r := r.(common := acknowledged);
    }
  }

  lemma HavesAreHeld(store: map<Oid, Object>, boundaries: set<Oid>, haves: seq<Oid>, held: set<Oid>)
    requires forall x :: x in held <==> ReachedFrom(ReachEdges(store, boundaries), {}, Members(haves), x) && x in store
    ensures forall x :: x in haves ==> (x in held <==> x in store)
  {
    forall x | x in haves
      ensures ReachedFrom(ReachEdges(store, boundaries), {}, Members(haves), x)
    {
      ReachesItself(ReachEdges(store, boundaries), {}, x);
      assert x in Members(haves);
    }
  }

  lemma HeldIsOwned(store: map<Oid, Object>, boundaries: set<Oid>, haves: seq<Oid>, held: set<Oid>)
    requires forall x :: x in held <==> ReachedFrom(ReachEdges(store, boundaries), {}, Members(haves), x) && x in store
    ensures forall x :: x in held ==> Owned(store, boundaries, Members(haves) * store.Keys, x)
  {
    hide ReachedFrom, Owned;
    forall x | x in held
      ensures Owned(store, boundaries, Members(haves) * store.Keys, x)
    {
      ClientOwns(store, boundaries, haves, x);
    }
  }

  lemma NoPlan(store: map<Oid, Object>, shallow: set<Oid>, clientShallow: set<Oid>, wants: seq<Oid>)
    ensures PlannedFor(store, shallow, clientShallow, wants, None)
    ensures PlannedToDepth(store, shallow, clientShallow, wants, None, None)
  {
  }

  lemma PlanIsFor(
      store: map<Oid, Object>, shallow: set<Oid>, clientShallow: seq<Oid>, wants: seq<Oid>, plan: Depth.Plan,
      depth: nat, labels: map<Oid, nat>)
    requires depth > 0 && Depth.Labelled(store, shallow, wants, depth, labels)
    requires plan.shallow == Depth.Boundary(store, shallow, depth, labels)
    requires plan.unshallow == set x | x in clientShallow && x in labels && x !in plan.shallow
    ensures PlannedFor(store, shallow, Members(clientShallow), wants, Some(plan))
    ensures PlannedToDepth(store, shallow, Members(clientShallow), wants, Some(depth), Some(plan))
  {
    hide Depth.Labelled, Depth.Boundary;
    assert Planned(store, shallow, Members(clientShallow), wants, plan, depth, labels);
  }

  method FirstOutside(oids: seq<Oid>, known: set<Oid>) returns (first: Option<Oid>)
    ensures first.None? ==> Members(oids) <= known
    ensures first.Some? ==> first.value in oids && first.value !in known
  {
    for i := 0 to |oids|
      invariant Members(oids[..i]) <= known
    {
      if oids[i] !in known {
        return Some(oids[i]);
      }
      FrontierNext(oids, i);
    }
    assert oids[..|oids|] == oids;
    first := None;
  }

  method Acknowledged(haves: seq<Oid>, held: set<Oid>) returns (acknowledged: seq<Oid>)
    ensures forall x :: x in acknowledged <==> x in haves && x in held
  {
    acknowledged := [];
    for i := 0 to |haves|
      invariant forall x :: x in acknowledged <==> x in haves[..i] && x in held
    {
      assert haves[..i + 1] == haves[..i] + [haves[i]];
      if haves[i] in held {
        acknowledged := acknowledged + [haves[i]];
      }
    }
    assert haves[..|haves|] == haves;
  }
}
