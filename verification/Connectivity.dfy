/** Whether a push reaches what it claims: the store's graph index, the closure query
    over it, and the frontier walk that falls back to reading objects. */
module Connectivity {
  import opened Options
  import opened Graph

  // ---- The graph index --------------------------------------------------------------------

  /** Each target keeps its first link. */
  function Deduplicated(links: seq<Link>, seen: set<Oid>): seq<Link> {
    if links == [] then []
    else if links[0].oid in seen then Deduplicated(links[1..], seen)
    else [links[0]] + Deduplicated(links[1..], seen + {links[0].oid})
  }

  method DeduplicateLinks(links: seq<Link>) returns (kept: seq<Link>)
    ensures kept == Deduplicated(links, {})
  {
    var targets: set<Oid> := {};
    kept := [];
    for i := 0 to |links|
      invariant Deduplicated(links, {}) == kept + Deduplicated(links[i..], targets)
    {
      if links[i].oid !in targets {
        targets := targets + {links[i].oid};
        kept := kept + [links[i]];
      }
    }
  }

  function FirstLink(links: seq<Link>, target: Oid): Option<Link> {
    if links == [] then None
    else if links[0].oid == target then Some(links[0])
    else FirstLink(links[1..], target)
  }

  lemma {:induction false} DeduplicatedKeepsFirst(links: seq<Link>, seen: set<Oid>, l: Link)
    ensures l in Deduplicated(links, seen) <==> l.oid !in seen && FirstLink(links, l.oid) == Some(l)
  {
    if links != [] {
      DeduplicatedKeepsFirst(links[1..], seen, l);
      DeduplicatedKeepsFirst(links[1..], seen + {links[0].oid}, l);
    }
  }

  lemma {:induction false} FirstLinkExists(links: seq<Link>, target: Oid)
    ensures FirstLink(links, target).Some? <==> target in Targets(links)
    ensures FirstLink(links, target).Some? ==> FirstLink(links, target).value in links
    ensures FirstLink(links, target).Some? ==> FirstLink(links, target).value.oid == target
  {
    if links != [] {
      FirstLinkExists(links[1..], target);
      assert links == [links[0]] + links[1..];
    }
  }

  /** The edge rows stored for an object: never grafted, blobs included. */
  function IndexRow(o: Object): seq<Link>
    requires Parses(o)
  {
    Deduplicated(LinksToReach(o, false), {})
  }

  /** The rows a walk follows from `o`: no blobs out of a tree unless they are wanted, no
      parents past a graft. */
  predicate Follows(o: Object, grafted: bool, includeBlobs: bool, l: Link) {
    && (includeBlobs || !(o.Tree? && l.kind == BlobKind))
    && !(o.Commit? && grafted && l.kind == CommitKind)
  }

  function IndexTargets(o: Object, grafted: bool, includeBlobs: bool): set<Oid>
    requires Parses(o)
  {
    set l | l in IndexRow(o) && Follows(o, grafted, includeBlobs, l) :: l.oid
  }

  /** A tree names `y` as a subtree, and before that as a file. */
  predicate Conceals(o: Object, y: Oid) {
    && o.Tree? && Subtree(y) in o.entries
    && exists i :: 0 <= i < |o.entries| && o.entries[i] == File(y) && Subtree(y) !in o.entries[..i]
  }

  /** What an index row tells of the links a push verifies. */
  function RowNames(o: Object, grafted: bool): set<Oid> {
    set y <- Named(o, grafted, false) | !Conceals(o, y)
  }

  lemma {:induction false} FirstIsFile(entries: seq<Entry>, y: Oid)
    ensures FirstLink(EntryLinks(entries, true), y) == Some(Link(y, BlobKind)) <==>
      exists i :: 0 <= i < |entries| && entries[i] == File(y) && Subtree(y) !in entries[..i]
  {
    if entries != [] {
      var rest := entries[1..];
      FirstIsFile(rest, y);
      if i :| 0 <= i < |rest| && rest[i] == File(y) && Subtree(y) !in rest[..i] {
        assert entries[..i + 1] == [entries[0]] + rest[..i];
        assert entries[i + 1] == File(y);
      }
      if i :| 0 < i < |entries| && entries[i] == File(y) && Subtree(y) !in entries[..i] {
        assert entries[..i] == [entries[0]] + rest[..i - 1];
        assert rest[i - 1] == File(y);
      }
      assert entries[..0] == [];
    }
  }

  lemma TreeIndex(o: Object, grafted: bool, x: Oid)
    requires o.Tree?
    ensures x in IndexTargets(o, grafted, true) <==> x in Named(o, grafted, true)
    ensures x in IndexTargets(o, grafted, false) <==> x in RowNames(o, grafted)
  {
    var links := EntryLinks(o.entries, true);
    FirstLinkExists(links, x);
    FirstIsFile(o.entries, x);
    TargetsAreNamed(o, grafted, true);
    var first := FirstLink(links, x);
    if first.Some? {
      DeduplicatedKeepsFirst(links, {}, first.value);
      LinksAreNames(o, grafted, true, first.value);
    }
    forall l | l in IndexRow(o) && l.oid == x
      ensures Some(l) == first
    {
      DeduplicatedKeepsFirst(links, {}, l);
    }
  }

  lemma CommitIndex(o: Object, grafted: bool, includeBlobs: bool, x: Oid)
    requires o.Commit?
    ensures x in IndexTargets(o, grafted, includeBlobs) <==> x in Named(o, grafted, includeBlobs)
  {
    var links := LinksToReach(o, false);
    FirstLinkExists(links, x);
    TargetsAreNamed(o, false, true);
    var first := FirstLink(links, x);
    if first.Some? {
      DeduplicatedKeepsFirst(links, {}, first.value);
      LinksAreNames(o, false, true, first.value);
    }
    assert links[0] == Link(o.tree, TreeKind);
    forall l | l in IndexRow(o) && l.oid == x
      ensures Some(l) == first
    {
      DeduplicatedKeepsFirst(links, {}, l);
    }
  }

  lemma OtherIndex(o: Object, grafted: bool, includeBlobs: bool, x: Oid)
    requires o.Tag? || o.Blob?
    ensures x in IndexTargets(o, grafted, includeBlobs) <==> x in Named(o, grafted, includeBlobs)
  {
    if o.Tag? {
      assert Deduplicated([o.target], {}) == [o.target];
    }
  }

  /** The row, with its blobs, tells all that the object names, and without them all but what it conceals. */
  lemma IndexTells(o: Object, grafted: bool)
    requires Parses(o)
    ensures IndexTargets(o, grafted, true) == Named(o, grafted, true)
    ensures IndexTargets(o, grafted, false) == RowNames(o, grafted)
  {
    forall x
      ensures x in IndexTargets(o, grafted, true) <==> x in Named(o, grafted, true)
      ensures x in IndexTargets(o, grafted, false) <==> x in RowNames(o, grafted)
    {
      if o.Tree? {
        TreeIndex(o, grafted, x);
      } else if o.Commit? {
        CommitIndex(o, grafted, true, x);
        CommitIndex(o, grafted, false, x);
      } else {
        OtherIndex(o, grafted, true, x);
        OtherIndex(o, grafted, false, x);
      }
    }
  }

  /** The index answers as reading the object would, with its blobs always, and without
      them exactly when no subtree hides behind a file of the same name. */
  lemma IndexAgreesIff(o: Object, grafted: bool)
    requires Parses(o)
    ensures IndexTargets(o, grafted, true) == Targets(LinksToReach(o, grafted))
    ensures IndexTargets(o, grafted, false) == Targets(LinksToVerify(o, grafted)) <==> forall y :: !Conceals(o, y)
  {
    hide IndexTargets, LinksOf, Named, Conceals;
    IndexTells(o, grafted);
    TargetsAreNamed(o, grafted, true);
    TargetsAreNamed(o, grafted, false);
    forall y | Conceals(o, y)
      ensures y in Named(o, grafted, false)
    {
      ConcealedIsFile(o, grafted, y);
    }
  }

  /** A tree that names one object as a file and then as a subtree: the index forgets the
      subtree, so a walk over it would not notice that the subtree is missing. */
  lemma HiddenSubtree()
    ensures var o := Tree([File(7), Subtree(7)]);
      Conceals(o, 7) && 7 in Targets(LinksToVerify(o, false)) && IndexTargets(o, false, false) == {}
  {
    var o := Tree([File(7), Subtree(7)]);
    assert o.entries[0] == File(7) && o.entries[1] == Subtree(7);
    TargetsAreNamed(o, false, false);
    IndexTells(o, false);
    assert Subtree(7) in o.entries && Named(o, false, false) == {7};
  }

  // ---- The store ----------------------------------------------------------------------------

  /** The complete object rows, and which of them have their links indexed. */
  datatype Store = Store(objects: map<Oid, Object>, indexed: set<Oid>)

  /** Only objects that parsed are indexed. */
  predicate ValidStore(s: Store) {
    forall x :: x in s.indexed ==> x in s.objects && Parses(s.objects[x])
  }

  predicate Holds(s: Store, x: Oid) {
    x in s.objects && Parses(s.objects[x])
  }

  /** Grafts are commits. */
  predicate GraftedStore(s: Store, shallow: set<Oid>) {
    && ValidStore(s)
    && (forall x :: x in shallow && x in s.objects ==> s.objects[x].Commit? || s.objects[x].GarbledCommit?)
  }

  /** Rows the closure query follows: the graft filter looks at the target's type only. */
  function QueryTargets(o: Object, grafted: bool, includeBlobs: bool): set<Oid>
    requires Parses(o)
  {
    set l | l in IndexRow(o) && (includeBlobs || !(o.Tree? && l.kind == BlobKind)) && !(grafted && l.kind == CommitKind)
          :: l.oid
  }

  function QueryEdges(s: Store, shallow: set<Oid>, includeBlobs: bool): Edges
    requires ValidStore(s)
  {
    map x | x in s.indexed :: QueryTargets(s.objects[x], x in shallow, includeBlobs)
  }

  /** The edges a connectivity walk follows: those of the index where there is a row, and else those that
      reading the object gives. */
  function WalkEdges(s: Store, shallow: set<Oid>): Edges {
    map x | x in s.objects && Parses(s.objects[x]) ::
      if x in s.indexed then RowNames(s.objects[x], x in shallow) else Named(s.objects[x], x in shallow, false)
  }

  function Edge(s: Store, shallow: set<Oid>, includeBlobs: bool): Edges {
    if includeBlobs then ReachEdges(s.objects, shallow) else WalkEdges(s, shallow)
  }

  lemma QueryFollowsLinks(s: Store, shallow: set<Oid>, includeBlobs: bool, x: Oid)
    requires GraftedStore(s, shallow) && x in s.indexed
    ensures After(QueryEdges(s, shallow, includeBlobs), x) == After(Edge(s, shallow, includeBlobs), x)
  {
    var o, grafted := s.objects[x], x in shallow;
    IndexTells(o, grafted);
    assert grafted ==> o.Commit?;
    if grafted {
      CommitRowsAreNotBlobs(o);
    }
    assert QueryTargets(o, grafted, includeBlobs) == IndexTargets(o, grafted, includeBlobs);
  }

  lemma CommitRowsAreNotBlobs(o: Object)
    requires o.Commit?
    ensures forall l :: l in IndexRow(o) ==> l.kind != BlobKind
  {
    forall l | l in IndexRow(o)
      ensures l.kind != BlobKind
    {
      DeduplicatedKeepsFirst(LinksToReach(o, false), {}, l);
      FirstLinkExists(LinksToReach(o, false), l.oid);
    }
  }

  function AllNames(g: Edges, roots: set<Oid>): set<Oid> {
    roots + set x, y | x in g && y in g[x] :: y
  }

  /** The rows so far, and those of them whose edges are still to be followed. */
  ghost predicate Growing(g: Edges, roots: set<Oid>, stops: set<Oid>, rows: set<Oid>, todo: set<Oid>) {
    && todo <= rows <= AllNames(g, roots)
    && roots <= rows + stops
    && (forall x :: x in rows ==> ReachedFrom(g, stops, roots, x))
    && (forall x :: x in rows && x !in todo ==> After(g, x) <= rows + stops)
  }

  lemma NextIsReached(g: Edges, roots: set<Oid>, stops: set<Oid>, x: Oid, y: Oid)
    requires ReachedFrom(g, stops, roots, x) && y in After(g, x) && y !in stops
    ensures ReachedFrom(g, stops, roots, y) && y in AllNames(g, roots)
  {
    var r :| r in roots && Reaches(g, stops, r, x);
    ReachesNext(g, stops, r, x, y);
  }

  lemma GrowingStep(g: Edges, roots: set<Oid>, stops: set<Oid>, rows: set<Oid>, todo: set<Oid>, x: Oid)
    requires Growing(g, roots, stops, rows, todo) && x in todo
    ensures var next := After(g, x) - stops - rows; Growing(g, roots, stops, rows + next, todo - {x} + next)
  {
    hide AllNames, ReachedFrom, After;
    var next := After(g, x) - stops - rows;
    forall y | y in next
      ensures ReachedFrom(g, stops, roots, y) && y in AllNames(g, roots)
    {
      NextIsReached(g, roots, stops, x, y);
    }
    forall z | z in rows + next && z !in todo - {x} + next
      ensures After(g, z) <= rows + next + stops
    {
      assert z == x || (z in rows && z !in todo);
    }
  }

  /** The recursive query: rows are added until nothing new follows from them. */
  method Closure(g: Edges, roots: set<Oid>, stops: set<Oid>) returns (rows: set<Oid>)
    ensures forall x :: x in rows <==> ReachedFrom(g, stops, roots, x)
  {
    rows := roots - stops;
    var todo := rows;
    forall x | x in rows
      ensures ReachedFrom(g, stops, roots, x)
    {
      ReachesItself(g, stops, x);
    }
    while todo != {}
      invariant Growing(g, roots, stops, rows, todo)
      decreases AllNames(g, roots) - rows, todo
    {
      var x :| x in todo;
      var next := After(g, x) - stops - rows;
      GrowingStep(g, roots, stops, rows, todo, x);
      hide After, AllNames;
      assert next == {} || AllNames(g, roots) - (rows + next) < AllNames(g, roots) - rows;
      assert next == {} ==> rows + next == rows;
      rows, todo := rows + next, todo - {x} + next;
    }
    ClosureIsAll(g, roots, stops, rows);
  }

  lemma ClosureIsAll(g: Edges, roots: set<Oid>, stops: set<Oid>, rows: set<Oid>)
    requires roots <= rows + stops && Closed(g, stops, rows)
    ensures forall x :: ReachedFrom(g, stops, roots, x) ==> x in rows
  {
    forall x | ReachedFrom(g, stops, roots, x)
      ensures x in rows
    {
      var r :| r in roots && Reaches(g, stops, r, x);
      var p :| Path(g, stops, p) && p[0] == r && p[|p| - 1] == x;
      PathStays(g, stops, rows, p);
    }
  }

  /** Everything reached was held and indexed. */
  ghost predicate AllIndexed(s: Store, g: Edges, stops: set<Oid>, roots: set<Oid>) {
    forall x :: ReachedFrom(g, stops, roots, x) ==> x in s.indexed
  }

  /** One graph query instead of a walk: the exact closure, or nothing when the index
      cannot answer. */
  method ReadObjectClosure(s: Store, roots: set<Oid>, stops: set<Oid>, shallow: set<Oid>, includeBlobs: bool)
      returns (closure: Option<set<Oid>>)
    requires GraftedStore(s, shallow)
    ensures closure.Some? <==> AllIndexed(s, Edge(s, shallow, includeBlobs), stops, roots)
    ensures closure.Some? ==>
      forall x :: x in closure.value <==> ReachedFrom(Edge(s, shallow, includeBlobs), stops, roots, x)
  {
    var g := QueryEdges(s, shallow, includeBlobs);
    var rows := Closure(g, roots, stops);
    QueryClosure(s, roots, stops, shallow, includeBlobs);
    if rows <= s.indexed {
      closure := Some(rows);
    } else {
      closure := None;
    }
  }

  lemma {:induction false} PathSame(s: Store, g: Edges, h: Edges, stops: set<Oid>, roots: set<Oid>, p: seq<Oid>)
    requires forall x :: x in s.indexed ==> After(g, x) == After(h, x)
    requires AllIndexed(s, h, stops, roots)
    requires Path(g, stops, p) && p[0] in roots
    ensures Path(h, stops, p)
    decreases |p|
  {
    var n := |p| - 1;
    if n > 0 {
      var q := p[..n];
      PathSame(s, g, h, stops, roots, q);
      assert Reaches(h, stops, p[0], q[n - 1]);
      assert ReachedFrom(h, stops, roots, p[n - 1]);
      assert p[n] in After(h, p[n - 1]);
      assert forall i :: 0 < i < n ==> p[i] in After(h, p[i - 1]);
    }
  }

  /** While everything is indexed the two graphs reach the same. */
  lemma SameReach(s: Store, g: Edges, h: Edges, stops: set<Oid>, roots: set<Oid>)
    requires forall x :: x in s.indexed ==> After(g, x) == After(h, x)
    requires AllIndexed(s, h, stops, roots)
    ensures AllIndexed(s, g, stops, roots)
    ensures forall x :: ReachedFrom(g, stops, roots, x) ==> ReachedFrom(h, stops, roots, x)
  {
    forall x | ReachedFrom(g, stops, roots, x)
      ensures ReachedFrom(h, stops, roots, x)
    {
      var r :| r in roots && Reaches(g, stops, r, x);
      var p :| Path(g, stops, p) && p[0] == r && p[|p| - 1] == x;
      PathSame(s, g, h, stops, roots, p);
      assert Reaches(h, stops, r, x);
    }
  }

  lemma QueryClosure(s: Store, roots: set<Oid>, stops: set<Oid>, shallow: set<Oid>, includeBlobs: bool)
    requires GraftedStore(s, shallow)
    ensures var g, h := QueryEdges(s, shallow, includeBlobs), Edge(s, shallow, includeBlobs);
            && (AllIndexed(s, g, stops, roots) <==> AllIndexed(s, h, stops, roots))
            && (AllIndexed(s, g, stops, roots) ==>
                  forall x :: ReachedFrom(g, stops, roots, x) <==> ReachedFrom(h, stops, roots, x))
  {
    var g, h := QueryEdges(s, shallow, includeBlobs), Edge(s, shallow, includeBlobs);
    forall x | x in s.indexed
      ensures After(g, x) == After(h, x)
    {
      QueryFollowsLinks(s, shallow, includeBlobs, x);
    }
    if AllIndexed(s, h, stops, roots) {
      SameReach(s, g, h, stops, roots);
    }
    if AllIndexed(s, g, stops, roots) {
      SameReach(s, h, g, stops, roots);
    }
  }

  // ---- The walk -----------------------------------------------------------------------------

  const FRONTIER := 98

  /** What a walk over `s` has to find in place. */
  ghost predicate Complete(s: Store, g: Edges, stops: set<Oid>, tip: Oid) {
    forall x :: Reaches(g, stops, tip, x) ==> Holds(s, x)
  }

  /** A walk in progress: what was traversed is held, reached and leads only to what was
      traversed, to stops, or to what is still to come. */
  ghost predicate Walking(s: Store, g: Edges, stops: set<Oid>, tip: Oid, traversed: set<Oid>, todo: set<Oid>) {
    && (forall x :: x in traversed ==> Holds(s, x) && Reaches(g, stops, tip, x))
    && (forall x :: x in todo && x !in stops ==> Reaches(g, stops, tip, x))
    && (forall x :: x in traversed ==> After(g, x) <= traversed + stops + todo)
    && (tip in traversed + stops + todo)
  }

  lemma WalkingOn(
      s: Store, g: Edges, stops: set<Oid>, tip: Oid, traversed: set<Oid>, todo: set<Oid>, x: Oid, rest: set<Oid>)
    requires Walking(s, g, stops, tip, traversed, todo) && x in todo && x !in stops && Holds(s, x)
    requires todo <= rest + {x} && rest <= todo + After(g, x) && After(g, x) <= rest
    ensures Walking(s, g, stops, tip, traversed + {x}, rest)
  {
    forall y | y in After(g, x) && y !in stops
      ensures Reaches(g, stops, tip, y)
    {
      ReachesNext(g, stops, tip, x, y);
    }
    hide Reaches, Holds, After;
    var more := traversed + {x};
    forall z | z in more
      ensures After(g, z) <= more + stops + rest
    {
      assert z == x || z in traversed;
    }
  }

  lemma WalkingLess(s: Store, g: Edges, stops: set<Oid>, tip: Oid, traversed: set<Oid>, todo: set<Oid>, less: set<Oid>)
    requires Walking(s, g, stops, tip, traversed, todo)
    requires less <= todo && todo <= less + traversed + stops
    ensures Walking(s, g, stops, tip, traversed, less)
  {
    hide Reaches, Holds, After;
    forall x | x in traversed
      ensures After(g, x) <= traversed + stops + less
    {
      forall y | y in After(g, x)
        ensures y in traversed + stops + less
      {
        assert y in traversed + stops + todo;
      }
    }
  }

  /** A finished walk traversed exactly what the tip reaches, and all of it is held. */
  lemma WalkIsOver(s: Store, g: Edges, stops: set<Oid>, tip: Oid, traversed: set<Oid>)
    requires Walking(s, g, stops, tip, traversed, {})
    ensures Complete(s, g, stops, tip)
    ensures forall x :: Reaches(g, stops, tip, x) <==> x in traversed && tip !in stops
  {
    forall x | Reaches(g, stops, tip, x)
      ensures x in traversed && tip !in stops
    {
      var p :| Path(g, stops, p) && p[0] == tip && p[|p| - 1] == x;
      ClosedHolds(g, stops, traversed, tip, x);
    }
    forall x | x in traversed && tip !in stops
      ensures Reaches(g, stops, tip, x)
    {
    }
  }

  lemma StoppedAtOnce(s: Store, g: Edges, stops: set<Oid>, tip: Oid)
    requires tip in stops
    ensures Complete(s, g, stops, tip)
    ensures forall x :: !Reaches(g, stops, tip, x)
  {
    assert Walking(s, g, stops, tip, {}, {});
    WalkIsOver(s, g, stops, tip, {});
  }

  /** The targets of the links that satisfy a filter, one link more at a time. */
  lemma FollowedGrow(o: Object, grafted: bool, links: seq<Link>, l: Link)
    ensures var all := links + [l];
            (set m | m in all && Follows(o, grafted, false, m) :: m.oid)
            == (set m | m in links && Follows(o, grafted, false, m) :: m.oid)
               + if Follows(o, grafted, false, l) then {l.oid} else {}
  {
    hide Follows;
  }

  lemma TargetsGrow(links: seq<Link>, l: Link)
    ensures Targets(links + [l]) == Targets(links) + {l.oid}
  {
    forall x | x in Targets(links)
      ensures x in Targets(links + [l])
    {
      var m :| m in links && m.oid == x;
      assert m in links + [l];
    }
    assert l in links + [l];
  }

  /** The last names first, each once, without those already settled. */
  method Frontier(names: seq<Oid>, settled: set<Oid>) returns (frontier: seq<Oid>)
    ensures Members(frontier) == Members(names) - settled
  {
    frontier := [];
    var i := |names|;
    while i > 0
      invariant 0 <= i <= |names|
      invariant Members(frontier) == Members(names[i..]) - settled
    {
      i := i - 1;
      assert names[i..] == [names[i]] + names[i + 1..];
      MembersConcat([names[i]], names[i + 1..]);
      MembersOne(names[i]);
      if names[i] !in settled && names[i] !in frontier {
        MembersConcat(frontier, [names[i]]);
        frontier := frontier + [names[i]];
      }
    }
  }

  // ---- What the verdict is worth --------------------------------------------------------------

  /** What a row leaves out is what the object conceals, and that it also calls a file. */
  lemma ConcealedIsFile(o: Object, grafted: bool, y: Oid)
    ensures y in Named(o, grafted, false) <==> y in RowNames(o, grafted) || Conceals(o, y)
    ensures Conceals(o, y) ==> Names(o, false, true, Link(y, BlobKind))
    ensures Conceals(o, y) ==> y !in RowNames(o, grafted)
  {
    if Conceals(o, y) {
      var i :| 0 <= i < |o.entries| && o.entries[i] == File(y);
      assert File(y) in o.entries;
      assert Names(o, grafted, false, Link(y, TreeKind));
      NamedIff(o, grafted, false, y);
    }
  }

  /** The walk follows what reading the objects would give, but for what indexed trees conceal. */
  lemma WalkLeavesOut(s: Store, shallow: set<Oid>, x: Oid, y: Oid)
    requires ValidStore(s)
    ensures y in After(VerifyEdges(s.objects, shallow), x) <==>
      y in After(WalkEdges(s, shallow), x) || (x in s.indexed && Conceals(s.objects[x], y))
  {
    hide RowNames, Named, Conceals;
    if x in s.objects && Parses(s.objects[x]) {
      ConcealedIsFile(s.objects[x], x in shallow, y);
    }
  }

  /** Something the walk reaches conceals an object that is missing. */
  ghost predicate Overlooks(s: Store, shallow: set<Oid>, stops: set<Oid>, tip: Oid)
    requires ValidStore(s)
  {
    exists x, y :: Reaches(WalkEdges(s, shallow), stops, tip, x) && x in s.indexed &&
      Conceals(s.objects[x], y) && y !in stops && y !in s.objects
  }

  lemma WalkReachesLess(s: Store, shallow: set<Oid>, stops: set<Oid>, tip: Oid, x: Oid)
    requires ValidStore(s) && Reaches(WalkEdges(s, shallow), stops, tip, x)
    ensures Reaches(VerifyEdges(s.objects, shallow), stops, tip, x)
  {
    hide WalkEdges, VerifyEdges;
    var g, h := WalkEdges(s, shallow), VerifyEdges(s.objects, shallow);
    forall z
      ensures After(g, z) <= After(h, z)
    {
      forall y | y in After(g, z)
        ensures y in After(h, z)
      {
        WalkLeavesOut(s, shallow, z, y);
      }
    }
    MoreEdges(g, h, stops, tip, x);
  }

  /** Along any path the walk reaches what it holds, up to a concealed blob at the end. */
  lemma {:induction false} PathIsWalked(s: Store, shallow: set<Oid>, stops: set<Oid>, tip: Oid, p: seq<Oid>)
    requires ValidStore(s) && BlobsAreBlobs(s.objects)
    requires Complete(s, WalkEdges(s, shallow), stops, tip) && !Overlooks(s, shallow, stops, tip)
    requires Path(VerifyEdges(s.objects, shallow), stops, p) && p[0] == tip
    ensures var x := p[|p| - 1];
      Reaches(WalkEdges(s, shallow), stops, tip, x) || (x in s.objects && s.objects[x].Blob?)
    decreases |p|
  {
    hide WalkEdges, VerifyEdges, BlobsAreBlobs, Conceals;
    var n := |p| - 1;
    if n == 0 {
      ReachesItself(WalkEdges(s, shallow), stops, tip);
    } else {
      assert Path(VerifyEdges(s.objects, shallow), stops, p[..n]);
      PathIsWalked(s, shallow, stops, tip, p[..n]);
      NextIsWalked(s, shallow, stops, tip, p[n - 1], p[n]);
    }
  }

  lemma NextIsWalked(s: Store, shallow: set<Oid>, stops: set<Oid>, tip: Oid, x: Oid, y: Oid)
    requires ValidStore(s) && BlobsAreBlobs(s.objects) && !Overlooks(s, shallow, stops, tip)
    requires Reaches(WalkEdges(s, shallow), stops, tip, x) || (x in s.objects && s.objects[x].Blob?)
    requires y in After(VerifyEdges(s.objects, shallow), x) && y !in stops
    ensures Reaches(WalkEdges(s, shallow), stops, tip, y) || (y in s.objects && s.objects[y].Blob?)
  {
    hide WalkEdges, Conceals, Reaches;
    assert !(x in s.objects && s.objects[x].Blob?);
    WalkLeavesOut(s, shallow, x, y);
    if y in After(WalkEdges(s, shallow), x) {
      ReachesNext(WalkEdges(s, shallow), stops, tip, x, y);
    } else {
      ConcealedIsFile(s.objects[x], false, y);
    }
  }

  /** A walk that finds nothing missing is right exactly if nothing it reached conceals an object that is
      missing. */
  lemma VerdictIsTrueIff(s: Store, shallow: set<Oid>, stops: set<Oid>, tip: Oid)
    requires ValidStore(s) && BlobsAreBlobs(s.objects)
    ensures Complete(s, VerifyEdges(s.objects, shallow), stops, tip) <==>
      Complete(s, WalkEdges(s, shallow), stops, tip) && !Overlooks(s, shallow, stops, tip)
  {
    hide WalkEdges, VerifyEdges, BlobsAreBlobs, Conceals;
    var g, h := WalkEdges(s, shallow), VerifyEdges(s.objects, shallow);
    if Complete(s, h, stops, tip) {
      forall x | Reaches(g, stops, tip, x)
        ensures Holds(s, x)
        ensures forall y :: x in s.indexed && Conceals(s.objects[x], y) && y !in stops ==> y in s.objects
      {
        WalkReachesLess(s, shallow, stops, tip, x);
        forall y | x in s.indexed && Conceals(s.objects[x], y) && y !in stops
          ensures y in s.objects
        {
          WalkLeavesOut(s, shallow, x, y);
          ReachesNext(h, stops, tip, x, y);
          assert Holds(s, y);
        }
      }
    }
    if Complete(s, g, stops, tip) && !Overlooks(s, shallow, stops, tip) {
      forall x | Reaches(h, stops, tip, x)
        ensures Holds(s, x)
      {
        var p :| Path(h, stops, p) && p[0] == tip && p[|p| - 1] == x;
        PathIsWalked(s, shallow, stops, tip, p);
      }
    }
  }

  /** All verdicts on a store are right exactly if no indexed tree conceals an object that is missing. */
  lemma VerdictsAreTrueIff(s: Store, shallow: set<Oid>)
    requires ValidStore(s) && BlobsAreBlobs(s.objects)
    ensures
      (forall stops, tip ::
         Complete(s, WalkEdges(s, shallow), stops, tip) <==> Complete(s, VerifyEdges(s.objects, shallow), stops, tip))
      <==> (forall x, y :: x in s.indexed && Conceals(s.objects[x], y) ==> y in s.objects)
  {
    hide WalkEdges, VerifyEdges, BlobsAreBlobs, Conceals, Complete;
    var g, h := WalkEdges(s, shallow), VerifyEdges(s.objects, shallow);
    forall stops, tip
      ensures Complete(s, h, stops, tip) <==> Complete(s, g, stops, tip) && !Overlooks(s, shallow, stops, tip)
    {
      VerdictIsTrueIff(s, shallow, stops, tip);
    }
    if x, y :| x in s.indexed && Conceals(s.objects[x], y) && y !in s.objects {
      OneStepOverlooks(s, shallow, x, y);
    }
  }

  /** Stopped at all that its row names, the walk of such a tree finds nothing missing. */
  lemma OneStepOverlooks(s: Store, shallow: set<Oid>, x: Oid, y: Oid)
    requires ValidStore(s) && x in s.indexed && Conceals(s.objects[x], y) && y !in s.objects
    ensures exists stops :: Complete(s, WalkEdges(s, shallow), stops, x) && Overlooks(s, shallow, stops, x)
  {
    hide Conceals, IndexTargets;
    var g := WalkEdges(s, shallow);
    var stops := After(g, x) - {x};
    ConcealedIsFile(s.objects[x], x in shallow, y);
    ReachesItself(g, stops, x);
    forall z | Reaches(g, stops, x, z)
      ensures z == x
    {
      ClosedHolds(g, stops, {x}, x, z);
    }
    assert Complete(s, g, stops, x) && Overlooks(s, shallow, stops, x);
  }

  /** Such a push is accepted: the query finds everything it follows indexed, and the subtree that
      it does not follow is missing. */
  lemma HiddenSubtreeIsAccepted()
    ensures var s := Store(map[1 := Tree([File(7), Subtree(7)])], {1});
      && GraftedStore(s, {})
      && AllIndexed(s, QueryEdges(s, {}, false), {}, {1}) && Complete(s, WalkEdges(s, {}), {}, 1)
      && !Complete(s, VerifyEdges(s.objects, {}), {}, 1)
  {
    var o := Tree([File(7), Subtree(7)]);
    var s := Store(map[1 := o], {1});
    var q, g := QueryEdges(s, {}, false), VerifyEdges(s.objects, {});
    HiddenSubtree();
    IndexTells(o, false);
    QueryFollowsLinks(s, {}, false, 1);
    assert After(q, 1) == {};
    ClosureIsAll(q, {1}, {}, {1});
    QueryClosure(s, {1}, {}, {}, false);
    IndexedIsHeld(s, WalkEdges(s, {}), {}, 1);
    ReachesItself(g, {}, 1);
    ReachesNext(g, {}, 1, 1, 7);
  }

  /** What is carried from one command of a push to the next. */
  class Walk {
    const verified: set<Oid>
    const shallow: set<Oid>
    var visited: set<Oid>

    constructor (verified: set<Oid>, shallow: set<Oid>)
      ensures this.verified == verified && this.shallow == shallow && visited == {}
    {
      this.verified, this.shallow, visited := verified, shallow, {};
    }

    /** The links to follow out of one object, from the index when it has them. */
    method LinksOut(s: Store, x: Oid) returns (links: Option<seq<Oid>>)
      requires GraftedStore(s, shallow)
      ensures links.Some? <==> Holds(s, x)
      ensures links.Some? ==> Members(links.value) == After(WalkEdges(s, shallow), x)
    {
      if x in s.indexed {
        var o := s.objects[x];
        IndexTells(o, x in shallow);
        var row, out := IndexRow(o), [];
        for i := 0 to |row|
          invariant Members(out) == set l | l in row[..i] && Follows(o, x in shallow, false, l) :: l.oid
        {
          assert row[..i + 1] == row[..i] + [row[i]];
          FollowedGrow(o, x in shallow, row[..i], row[i]);
          MembersConcat(out, [row[i].oid]);
          MembersOne(row[i].oid);
          if !(o.Tree? && row[i].kind == BlobKind) && !(o.Commit? && x in shallow && row[i].kind == CommitKind) {
            out := out + [row[i].oid];
          }
        }
        assert row[..|row|] == row;
        return Some(out);
      }
      if x !in s.objects || !Parses(s.objects[x]) {
        return None;
      }
      var read, out := LinksToVerify(s.objects[x], x in shallow), [];
      TargetsAreNamed(s.objects[x], x in shallow, false);
      for i := 0 to |read|
        invariant Members(out) == Targets(read[..i])
      {
        assert read[..i + 1] == read[..i] + [read[i]];
        TargetsGrow(read[..i], read[i]);
        MembersConcat(out, [read[i].oid]);
        MembersOne(read[i].oid);
        out := out + [read[i].oid];
      }
      assert read[..|read|] == read;
      links := Some(out);
    }

    /** Visits one frontier; what its objects name is left pending. */
    method VisitFrontier(s: Store, ghost tip: Oid, frontier: seq<Oid>, rest: seq<Oid>, before: set<Oid>)
        returns (missing: Option<Oid>, pending: seq<Oid>, traversed: set<Oid>)
      requires GraftedStore(s, shallow) && Members(frontier) !! visited + verified
      requires Walking(s, WalkEdges(s, shallow), verified + visited, tip, before,
                       Members(rest) + Members(frontier))
      ensures var g, stops := WalkEdges(s, shallow), verified + visited;
              && (missing.None? ==> Walking(s, g, stops, tip, traversed, Members(pending)))
              && (missing.None? ==> traversed == before + Members(frontier) && Members(frontier) <= s.objects.Keys)
              && (missing.None? && frontier == [] ==> pending == rest)
              && (missing.Some? ==> !Complete(s, g, stops, tip))
              && (missing.Some? ==> Reaches(g, stops, tip, missing.value) && !Holds(s, missing.value))
    {
      hide Walking, Reaches, Complete, WalkEdges, After, GraftedStore;
      ghost var g, stops := WalkEdges(s, shallow), verified + visited;
      pending, traversed, missing := rest, before, None;
      for i := 0 to |frontier|
        invariant traversed == before + Members(frontier[..i]) && Members(frontier[..i]) <= s.objects.Keys
        invariant i == 0 ==> pending == rest
        invariant Walking(s, g, stops, tip, traversed, Members(pending) + Members(frontier[i..]))
      {
        var x := frontier[i];
        ghost var todo := Members(pending) + Members(frontier[i..]);
        FrontierNext(frontier, i);
        var links := LinksOut(s, x);
        if links.None? {
          WalkFound(s, g, stops, tip, traversed, todo, x);
          missing := Some(x);
          return;
        }
        MembersConcat(pending, links.value);
        WalkingOn(s, g, stops, tip, traversed, todo, x, Members(pending + links.value) + Members(frontier[i + 1..]));
        traversed, pending := traversed + {x}, pending + links.value;
      }
      assert frontier[..|frontier|] == frontier && frontier[|frontier|..] == [];
      assert Members(pending) + Members([]) == Members(pending);
    }

    /** The first object reached from `tip` that is missing or does not parse. There is
        none exactly when everything the tip reaches outside the stops is held, and then
        that is what becomes visited; a failed walk leaves nothing behind. */
    method FindMissingObject(s: Store, tip: Oid) returns (missing: Option<Oid>)
      requires GraftedStore(s, shallow)
      modifies this
      ensures var g, stops := WalkEdges(s, shallow), verified + old(visited);
              && (missing.None? <==> Complete(s, g, stops, tip))
              && (missing.Some? ==> Reaches(g, stops, tip, missing.value) && !Holds(s, missing.value))
              && (missing.Some? ==> visited == old(visited))
              && (missing.None? ==>
                    forall x :: x in visited <==> x in old(visited) || Reaches(g, stops, tip, x))
    {
      hide Walking, Reaches, WalkEdges, After, ReachedFrom, Complete;
      ghost var g, stops := WalkEdges(s, shallow), verified + visited;
      missing := None;
      if tip in verified || tip in visited {
        StoppedAtOnce(s, g, stops, tip);
        return;
      }
      var closure := ReadObjectClosure(s, {tip}, verified + visited, shallow, false);
      RootIsTip(g, stops, tip);
      if closure.Some? {
        IndexedIsHeld(s, g, stops, tip);
        visited := visited + closure.value;
        return;
      }
      var pending, traversed: set<Oid> := [tip], {};
      WalkStarts(s, g, stops, tip);
      while pending != []
        invariant visited == old(visited) && missing.None?
        invariant Walking(s, g, stops, tip, traversed, Members(pending))
        invariant traversed <= s.objects.Keys
        decreases s.objects.Keys - traversed, |pending|
      {
        var cut := if |pending| > FRONTIER then |pending| - FRONTIER else 0;
        var frontier := Frontier(pending[cut..], visited + verified + traversed);
        ghost var before := traversed;
        assert pending == pending[..cut] + pending[cut..];
        MembersConcat(pending[..cut], pending[cut..]);
        WalkingLess(s, g, stops, tip, traversed, Members(pending), Members(pending[..cut]) + Members(frontier));
        missing, pending, traversed := VisitFrontier(s, tip, frontier, pending[..cut], traversed);
        if missing.Some? {
          return;
        }
        if frontier != [] {
          assert frontier[0] in Members(frontier);
          assert s.objects.Keys - traversed < s.objects.Keys - before;
        } else {
          assert traversed == before;
        }
      }
      assert Members([]) == {};
      WalkIsOver(s, g, stops, tip, traversed);
      visited := visited + traversed;
    }
  }

  lemma FrontierNext(frontier: seq<Oid>, i: nat)
    requires i < |frontier|
    ensures Members(frontier[i..]) == {frontier[i]} + Members(frontier[i + 1..])
    ensures Members(frontier[..i + 1]) == Members(frontier[..i]) + {frontier[i]}
    ensures frontier[i] in Members(frontier)
  {
    assert frontier[i..] == [frontier[i]] + frontier[i + 1..];
    assert frontier[..i + 1] == frontier[..i] + [frontier[i]];
    MembersConcat([frontier[i]], frontier[i + 1..]);
    MembersConcat(frontier[..i], [frontier[i]]);
    MembersOne(frontier[i]);
  }

  lemma WalkStarts(s: Store, g: Edges, stops: set<Oid>, tip: Oid)
    requires tip !in stops
    ensures Walking(s, g, stops, tip, {}, Members([tip]))
  {
    ReachesItself(g, stops, tip);
    MembersOne(tip);
  }

  lemma IndexedIsHeld(s: Store, g: Edges, stops: set<Oid>, tip: Oid)
    requires ValidStore(s) && AllIndexed(s, g, stops, {tip})
    ensures Complete(s, g, stops, tip)
  {
    RootIsTip(g, stops, tip);
  }

  lemma WalkFound(s: Store, g: Edges, stops: set<Oid>, tip: Oid, traversed: set<Oid>, todo: set<Oid>, x: Oid)
    requires Walking(s, g, stops, tip, traversed, todo) && x in todo && x !in stops && !Holds(s, x)
    ensures Reaches(g, stops, tip, x) && !Complete(s, g, stops, tip)
  {
  }

  lemma RootIsTip(g: Edges, stops: set<Oid>, tip: Oid)
    ensures forall x :: ReachedFrom(g, stops, {tip}, x) <==> Reaches(g, stops, tip, x)
  {
    forall x | Reaches(g, stops, tip, x)
      ensures ReachedFrom(g, stops, {tip}, x)
    {
      assert tip in {tip};
    }
  }
}
