/** The shallow boundary of a `deepen` request: a label-correcting walk over the commit
    graph, and what grafting at its boundary keeps. */
module Depth {
  import opened Options
  import opened Graph

  /** A commit's parents are commits, where they are stored at all. */
  predicate ParentsAreCommits(store: map<Oid, Object>) {
    forall c, p :: c in store && store[c].Commit? && p in store[c].parents && p in store ==>
      KindOf(store[p]) == CommitKind
  }

  /** Where a walk goes on from `x`: from a tag to what it names, from a commit that is not
      grafted to its parents. */
  predicate Leads(store: map<Oid, Object>, grafts: set<Oid>, x: Oid, y: Oid) {
    x in store && match store[x]
                  case Commit(_, parents) => x !in grafts && y in parents
                  case Tag(target) => y == target.oid
                  case _ => false
  }

  ghost predicate Trail(store: map<Oid, Object>, grafts: set<Oid>, wants: seq<Oid>, p: seq<Oid>) {
    && p != [] && p[0] in wants
    && forall i :: 0 < i < |p| ==> Leads(store, grafts, p[i - 1], p[i])
  }

  /** The generation of a trail's end: the wants are the first, and every commit left behind
      adds one. */
  function Generation(store: map<Oid, Object>, p: seq<Oid>): nat {
    if |p| <= 1 then 1
    else
      var before := p[|p| - 2];
      Generation(store, p[..|p| - 1]) + if before in store && store[before].Commit? then 1 else 0
  }

  /** The commits that a trail leaves behind, by their place. */
  function LeftBehind(store: map<Oid, Object>, p: seq<Oid>): set<nat> {
    set i: nat | i < |p| - 1 && p[i] in store && store[p[i]].Commit?
  }

  /** So a want is of generation 1, what tags lead to is of theirs, and a parent is one later than its child. */
  lemma {:induction false} GenerationCounts(store: map<Oid, Object>, p: seq<Oid>)
    requires p != []
    ensures Generation(store, p) == 1 + |LeftBehind(store, p)|
    decreases |p|
  {
    if |p| == 1 {
      assert LeftBehind(store, p) == {};
    } else {
      var n := |p| - 2;
      GenerationCounts(store, p[..|p| - 1]);
      var before := LeftBehind(store, p[..|p| - 1]);
      if p[n] in store && store[p[n]].Commit? {
        assert LeftBehind(store, p) == before + {n};
      } else {
        assert LeftBehind(store, p) == before;
      }
    }
  }

  ghost predicate At(store: map<Oid, Object>, grafts: set<Oid>, wants: seq<Oid>, x: Oid, d: nat) {
    exists p :: Trail(store, grafts, wants, p) && p[|p| - 1] == x && Generation(store, p) == d
  }

  /** Within `depth` generations of the wants, and not behind a graft. */
  ghost predicate Within(store: map<Oid, Object>, grafts: set<Oid>, wants: seq<Oid>, depth: nat, x: Oid) {
    exists d: nat :: d <= depth && At(store, grafts, wants, x, d)
  }

  lemma AtWant(store: map<Oid, Object>, grafts: set<Oid>, wants: seq<Oid>, x: Oid)
    requires x in wants
    ensures At(store, grafts, wants, x, 1)
  {
    assert Trail(store, grafts, wants, [x]) && Generation(store, [x]) == 1;
  }

  lemma AtNext(store: map<Oid, Object>, grafts: set<Oid>, wants: seq<Oid>, x: Oid, d: nat, y: Oid)
    requires At(store, grafts, wants, x, d) && Leads(store, grafts, x, y)
    ensures At(store, grafts, wants, y, if store[x].Commit? then d + 1 else d)
  {
    var p :| Trail(store, grafts, wants, p) && p[|p| - 1] == x && Generation(store, p) == d;
    var q := p + [y];
    assert q[..|q| - 1] == p;
    assert Trail(store, grafts, wants, q);
  }

  lemma {:induction false} TrailFromTag(store: map<Oid, Object>, grafts: set<Oid>, wants: seq<Oid>, p: seq<Oid>)
    requires ParentsAreCommits(store) && Trail(store, grafts, wants, p)
    requires p[|p| - 1] in store && KindOf(store[p[|p| - 1]]) != CommitKind
    ensures Generation(store, p) == 1
    decreases |p|
  {
    if |p| > 1 {
      var q := p[..|p| - 1];
      assert Leads(store, grafts, q[|q| - 1], p[|p| - 1]);
      TrailFromTag(store, grafts, wants, q);
    }
  }

  // ---- The plan -------------------------------------------------------------------------------

  datatype Plan = Plan(shallow: set<Oid>, unshallow: set<Oid>)

  datatype Planned = Planned(plan: Plan) | Failed(oid: Oid)

  datatype Pending = Pending(oid: Oid, depth: nat)

  /** An object the walk has to read is here, and its header parses. */
  predicate Readable(store: map<Oid, Object>, x: Oid) {
    x in store && !store[x].GarbledCommit? && !store[x].GarbledTag?
  }

  /** Every commit within reach has its least generation. */
  ghost predicate Labelled(
      store: map<Oid, Object>, grafts: set<Oid>, wants: seq<Oid>, depth: nat, labels: map<Oid, nat>)
  {
    && (forall x :: x in labels <==> Within(store, grafts, wants, depth, x) && x in store && store[x].Commit?)
    && (forall x :: x in labels ==> At(store, grafts, wants, x, labels[x]) && labels[x] <= depth)
    && (forall x, d: nat :: x in labels && At(store, grafts, wants, x, d) ==> labels[x] <= d)
  }

  function Boundary(store: map<Oid, Object>, grafts: set<Oid>, depth: nat, labels: map<Oid, nat>): set<Oid>
    requires forall x :: x in labels ==> x in store && store[x].Commit?
  {
    set x | x in labels && (x in grafts || (labels[x] >= depth && store[x].parents != []))
  }

  /** The client is told to cut history behind exactly the commits within reach that the repository has cut itself,
      or that have parents and lie no nearer to a want than the depth. */
  lemma BoundaryIff(
      store: map<Oid, Object>, grafts: set<Oid>, wants: seq<Oid>, depth: nat, labels: map<Oid, nat>, x: Oid)
    requires Labelled(store, grafts, wants, depth, labels)
    ensures x in Boundary(store, grafts, depth, labels) <==>
      && x in store && store[x].Commit? && Within(store, grafts, wants, depth, x)
      && (x in grafts || (store[x].parents != [] && forall d: nat :: At(store, grafts, wants, x, d) ==> d >= depth))
  {
    hide At, Within;
    if x in labels && labels[x] < depth {
      assert At(store, grafts, wants, x, labels[x]);
    }
  }

  // ---- What the boundary keeps -------------------------------------------------------------------

  /** Every trail within the depth survives the grafts. */
  lemma {:induction false} TrailSurvives(
      store: map<Oid, Object>, grafts: set<Oid>, wants: seq<Oid>, depth: nat, labels: map<Oid, nat>, p: seq<Oid>)
    requires Labelled(store, grafts, wants, depth, labels)
    requires Trail(store, grafts, wants, p) && Generation(store, p) <= depth
    ensures Trail(store, Boundary(store, grafts, depth, labels), wants, p)
    decreases |p|
  {
    if |p| > 1 {
      var q, x, y := p[..|p| - 1], p[|p| - 2], p[|p| - 1];
      assert q[|q| - 1] == x && Leads(store, grafts, x, y);
      assert Trail(store, grafts, wants, q);
      TrailSurvives(store, grafts, wants, depth, labels, q);
      if store[x].Commit? {
        assert At(store, grafts, wants, x, Generation(store, q));
        assert labels[x] <= Generation(store, q) < depth;
      }
    }
  }

  /** No grafted trail leads further. */
  lemma {:induction false} TrailIsWithin(
      store: map<Oid, Object>, grafts: set<Oid>, wants: seq<Oid>, depth: nat, labels: map<Oid, nat>, p: seq<Oid>)
    requires Labelled(store, grafts, wants, depth, labels) && depth > 0
    requires Trail(store, Boundary(store, grafts, depth, labels), wants, p)
    ensures Within(store, grafts, wants, depth, p[|p| - 1])
    decreases |p|
  {
    var y := p[|p| - 1];
    if |p| == 1 {
      AtWant(store, grafts, wants, y);
    } else {
      var q, x := p[..|p| - 1], p[|p| - 2];
      assert q[|q| - 1] == x && Leads(store, Boundary(store, grafts, depth, labels), x, y);
      TrailIsWithin(store, grafts, wants, depth, labels, q);
      var d: nat :| d <= depth && At(store, grafts, wants, x, d);
      if store[x].Commit? {
        AtNext(store, grafts, wants, x, labels[x], y);
      } else {
        AtNext(store, grafts, wants, x, d, y);
      }
    }
  }

  /** `deepen` is exact: what can still be walked to once the history is cut at the boundary
      is what lies within the depth and not behind a graft of the repository. */
  lemma GraftIsExact(
      store: map<Oid, Object>, grafts: set<Oid>, wants: seq<Oid>, depth: nat, labels: map<Oid, nat>, x: Oid)
    requires Labelled(store, grafts, wants, depth, labels) && depth > 0
    ensures (exists p :: Trail(store, Boundary(store, grafts, depth, labels), wants, p) && p[|p| - 1] == x)
            <==> Within(store, grafts, wants, depth, x)
  {
    var boundary := Boundary(store, grafts, depth, labels);
    if p :| Trail(store, boundary, wants, p) && p[|p| - 1] == x {
      TrailIsWithin(store, grafts, wants, depth, labels, p);
    }
    if Within(store, grafts, wants, depth, x) {
      var d: nat :| d <= depth && At(store, grafts, wants, x, d);
      var p :| Trail(store, grafts, wants, p) && p[|p| - 1] == x && Generation(store, p) == d;
      TrailSurvives(store, grafts, wants, depth, labels, p);
    }
  }

  // ---- The walk -----------------------------------------------------------------------------------

  /** `y` has at most generation `d`, or will have. */
  predicate Settled(todo: seq<Pending>, labels: map<Oid, nat>, visited: set<Oid>, y: Oid, d: nat) {
    (y in labels && labels[y] <= d) || y in visited || exists e :: e in todo && e.oid == y && e.depth <= d
  }

  ghost predicate Sound(
      store: map<Oid, Object>, grafts: set<Oid>, wants: seq<Oid>, depth: nat, todo: seq<Pending>,
      labels: map<Oid, nat>, visited: set<Oid>)
  {
    && (forall e :: e in todo ==> 0 < e.depth <= depth && At(store, grafts, wants, e.oid, e.depth))
    && (forall x :: x in labels ==>
          x in store && store[x].Commit? && 0 < labels[x] <= depth && At(store, grafts, wants, x, labels[x]))
    && (forall x :: x in visited ==>
          Readable(store, x) && KindOf(store[x]) != CommitKind && At(store, grafts, wants, x, 1))
  }

  ghost predicate Relaxed(
      store: map<Oid, Object>, grafts: set<Oid>, wants: seq<Oid>, depth: nat, todo: seq<Pending>,
      labels: map<Oid, nat>, visited: set<Oid>)
  {
    && (forall w :: w in wants ==> Settled(todo, labels, visited, w, 1))
    && (forall x, y :: x in labels && Leads(store, grafts, x, y) && labels[x] < depth ==>
          Settled(todo, labels, visited, y, labels[x] + 1))
    && (forall x, y :: x in visited && Leads(store, grafts, x, y) ==> Settled(todo, labels, visited, y, 1))
  }

  /** Nothing is unsettled by taking a step that covers the entry it consumed. */
  lemma SettledOn(
      todo: seq<Pending>, labels: map<Oid, nat>, visited: set<Oid>, rest: seq<Pending>, labels': map<Oid, nat>,
      visited': set<Oid>, y: Oid, d: nat)
    requires todo != [] && Settled(todo, labels, visited, y, d)
    requires forall e :: e in todo[1..] ==> e in rest
    requires forall x :: x in labels ==> x in labels' && labels'[x] <= labels[x]
    requires visited <= visited'
    requires Settled(rest, labels', visited', todo[0].oid, todo[0].depth)
    ensures Settled(rest, labels', visited', y, d)
  {
    if !(y in labels && labels[y] <= d) && y !in visited {
      var e :| e in todo && e.oid == y && e.depth <= d;
      if e != todo[0] {
        assert e in todo[1..];
      }
    }
  }

  lemma RelaxedOn(
      store: map<Oid, Object>, grafts: set<Oid>, wants: seq<Oid>, depth: nat, todo: seq<Pending>,
      labels: map<Oid, nat>, visited: set<Oid>, rest: seq<Pending>, labels': map<Oid, nat>, visited': set<Oid>)
    requires todo != [] && Relaxed(store, grafts, wants, depth, todo, labels, visited)
    requires forall e :: e in todo[1..] ==> e in rest
    requires forall x :: x in labels ==> x in labels' && labels'[x] <= labels[x]
    requires visited <= visited'
    requires Settled(rest, labels', visited', todo[0].oid, todo[0].depth)
    requires forall x, y ::
      x in labels' && !(x in labels && labels[x] == labels'[x]) && Leads(store, grafts, x, y) && labels'[x] < depth ==>
        Settled(rest, labels', visited', y, labels'[x] + 1)
    requires forall x, y :: x in visited' && x !in visited && Leads(store, grafts, x, y) ==>
               Settled(rest, labels', visited', y, 1)
    ensures Relaxed(store, grafts, wants, depth, rest, labels', visited')
  {
    hide Settled, Leads;
    forall w | w in wants
      ensures Settled(rest, labels', visited', w, 1)
    {
      SettledOn(todo, labels, visited, rest, labels', visited', w, 1);
    }
    forall x, y | x in labels' && Leads(store, grafts, x, y) && labels'[x] < depth
      ensures Settled(rest, labels', visited', y, labels'[x] + 1)
    {
      if x in labels && labels[x] == labels'[x] {
        SettledOn(todo, labels, visited, rest, labels', visited', y, labels[x] + 1);
      }
    }
    forall x, y | x in visited' && Leads(store, grafts, x, y)
      ensures Settled(rest, labels', visited', y, 1)
    {
      if x in visited {
        SettledOn(todo, labels, visited, rest, labels', visited', y, 1);
      }
    }
  }

  /** Once nothing is pending, every trail within the depth has been followed. */
  lemma {:induction false} TrailIsSettled(
      store: map<Oid, Object>, grafts: set<Oid>, wants: seq<Oid>, depth: nat, labels: map<Oid, nat>,
      visited: set<Oid>, p: seq<Oid>)
    requires Sound(store, grafts, wants, depth, [], labels, visited)
    requires Relaxed(store, grafts, wants, depth, [], labels, visited)
    requires Trail(store, grafts, wants, p) && Generation(store, p) <= depth
    ensures Settled([], labels, visited, p[|p| - 1], Generation(store, p))
    decreases |p|
  {
    if |p| > 1 {
      var q, x, y := p[..|p| - 1], p[|p| - 2], p[|p| - 1];
      assert q[|q| - 1] == x && Leads(store, grafts, x, y);
      assert Trail(store, grafts, wants, q);
      TrailIsSettled(store, grafts, wants, depth, labels, visited, q);
      GenerationIsPositive(store, q);
      if store[x].Commit? {
        assert Settled([], labels, visited, y, labels[x] + 1);
      } else {
        assert Settled([], labels, visited, y, 1);
      }
    }
  }

  lemma {:induction false} GenerationIsPositive(store: map<Oid, Object>, p: seq<Oid>)
    ensures Generation(store, p) > 0
    decreases |p|
  {
    if |p| > 1 {
      GenerationIsPositive(store, p[..|p| - 1]);
    }
  }

  lemma WalkIsOver(
      store: map<Oid, Object>, grafts: set<Oid>, wants: seq<Oid>, depth: nat, labels: map<Oid, nat>, visited: set<Oid>)
    requires Sound(store, grafts, wants, depth, [], labels, visited) && depth > 0
    requires Relaxed(store, grafts, wants, depth, [], labels, visited)
    ensures Labelled(store, grafts, wants, depth, labels)
    ensures forall x :: Within(store, grafts, wants, depth, x) ==> Readable(store, x)
  {
    forall x, d: nat | At(store, grafts, wants, x, d) && d <= depth
      ensures Settled([], labels, visited, x, d) && Readable(store, x)
    {
      var p :| Trail(store, grafts, wants, p) && p[|p| - 1] == x && Generation(store, p) == d;
      TrailIsSettled(store, grafts, wants, depth, labels, visited, p);
    }
    hide At;
    forall x | Within(store, grafts, wants, depth, x)
      ensures Readable(store, x) && (store[x].Commit? ==> x in labels)
    {
      var d: nat :| d <= depth && At(store, grafts, wants, x, d);
      assert Settled([], labels, visited, x, d);
    }
    forall x, d: nat | x in labels && At(store, grafts, wants, x, d)
      ensures labels[x] <= d
    {
      if d <= depth {
        assert Settled([], labels, visited, x, d);
      }
    }
  }

  // ---- Every step ---------------------------------------------------------------------------------

  /** An entry that has nothing to add. */
  lemma SkipEntry(
      store: map<Oid, Object>, grafts: set<Oid>, wants: seq<Oid>, depth: nat, todo: seq<Pending>,
      labels: map<Oid, nat>, visited: set<Oid>)
    requires Sound(store, grafts, wants, depth, todo, labels, visited) && todo != []
    requires Relaxed(store, grafts, wants, depth, todo, labels, visited)
    requires (todo[0].oid in labels && labels[todo[0].oid] <= todo[0].depth) || todo[0].oid in visited
    ensures Sound(store, grafts, wants, depth, todo[1..], labels, visited)
    ensures Relaxed(store, grafts, wants, depth, todo[1..], labels, visited)
  {
    hide At, Relaxed, Readable;
    RelaxedOn(store, grafts, wants, depth, todo, labels, visited, todo[1..], labels, visited);
  }

  function Entries(oids: seq<Oid>, depth: nat): seq<Pending> {
    seq(|oids|, i requires 0 <= i < |oids| => Pending(oids[i], depth))
  }

  lemma EntriesOf(oids: seq<Oid>, depth: nat, e: Pending)
    ensures e in Entries(oids, depth) <==> e.oid in oids && e.depth == depth
  {
    if e.oid in oids && e.depth == depth {
      var i :| 0 <= i < |oids| && oids[i] == e.oid;
      assert Entries(oids, depth)[i] == e;
    }
  }

  lemma LabelEntry(
      store: map<Oid, Object>, grafts: set<Oid>, wants: seq<Oid>, depth: nat, todo: seq<Pending>,
      labels: map<Oid, nat>, visited: set<Oid>, parents: seq<Oid>)
    requires Sound(store, grafts, wants, depth, todo, labels, visited) && todo != []
    requires Relaxed(store, grafts, wants, depth, todo, labels, visited)
    requires var e := todo[0]; e.oid in store && store[e.oid].Commit? && store[e.oid].parents == parents
    requires todo[0].oid in labels ==> todo[0].depth < labels[todo[0].oid]
    ensures var e := todo[0];
            var rest := todo[1..] + if e.oid !in grafts && e.depth < depth then Entries(parents, e.depth + 1) else [];
            && Sound(store, grafts, wants, depth, rest, labels[e.oid := e.depth], visited)
            && Relaxed(store, grafts, wants, depth, rest, labels[e.oid := e.depth], visited)
  {
    hide At, Relaxed, Readable;
    var e := todo[0];
    var more := if e.oid !in grafts && e.depth < depth then Entries(parents, e.depth + 1) else [];
    var rest, labels' := todo[1..] + more, labels[e.oid := e.depth];
    forall f | f in rest
      ensures 0 < f.depth <= depth && At(store, grafts, wants, f.oid, f.depth)
    {
      if f !in todo[1..] {
        EntriesOf(parents, e.depth + 1, f);
        AtNext(store, grafts, wants, e.oid, e.depth, f.oid);
      }
    }
    forall y | Leads(store, grafts, e.oid, y) && e.depth < depth
      ensures Settled(rest, labels', visited, y, e.depth + 1)
    {
      EntriesOf(parents, e.depth + 1, Pending(y, e.depth + 1));
      assert Pending(y, e.depth + 1) in rest;
    }
    RelaxedOn(store, grafts, wants, depth, todo, labels, visited, rest, labels', visited);
  }

  lemma NonCommitAt(store: map<Oid, Object>, grafts: set<Oid>, wants: seq<Oid>, x: Oid, d: nat)
    requires ParentsAreCommits(store) && At(store, grafts, wants, x, d)
    requires x in store && KindOf(store[x]) != CommitKind
    ensures d == 1
  {
    var p :| Trail(store, grafts, wants, p) && p[|p| - 1] == x && Generation(store, p) == d;
    TrailFromTag(store, grafts, wants, p);
  }

  lemma VisitEntry(
      store: map<Oid, Object>, grafts: set<Oid>, wants: seq<Oid>, depth: nat, todo: seq<Pending>,
      labels: map<Oid, nat>, visited: set<Oid>, more: seq<Pending>)
    requires Sound(store, grafts, wants, depth, todo, labels, visited) && todo != [] && ParentsAreCommits(store)
    requires Relaxed(store, grafts, wants, depth, todo, labels, visited)
    requires var e := todo[0];
             && Readable(store, e.oid) && KindOf(store[e.oid]) != CommitKind
             && more == if store[e.oid].Tag? then [Pending(store[e.oid].target.oid, e.depth)] else []
    ensures Sound(store, grafts, wants, depth, todo[1..] + more, labels, visited + {todo[0].oid})
    ensures Relaxed(store, grafts, wants, depth, todo[1..] + more, labels, visited + {todo[0].oid})
  {
    hide At, Relaxed;
    var e := todo[0];
    NonCommitAt(store, grafts, wants, e.oid, e.depth);
    var rest, visited' := todo[1..] + more, visited + {e.oid};
    forall f | f in rest
      ensures 0 < f.depth <= depth && At(store, grafts, wants, f.oid, f.depth)
    {
      if f !in todo[1..] {
        AtNext(store, grafts, wants, e.oid, e.depth, f.oid);
      }
    }
    forall y | Leads(store, grafts, e.oid, y)
      ensures Settled(rest, labels, visited', y, 1)
    {
      assert Pending(y, 1) in rest;
    }
    RelaxedOn(store, grafts, wants, depth, todo, labels, visited, rest, labels, visited');
  }

  /** The labels that could still be given. */
  function Open(store: map<Oid, Object>, depth: nat, labels: map<Oid, nat>): set<(Oid, nat)> {
    set x, d: nat | x in store && 1 <= d <= depth && !(x in labels && labels[x] <= d) :: (x, d)
  }

  lemma LabelCloses(store: map<Oid, Object>, depth: nat, labels: map<Oid, nat>, x: Oid, d: nat)
    requires x in store && 1 <= d <= depth && (x in labels ==> d < labels[x])
    ensures Open(store, depth, labels[x := d]) < Open(store, depth, labels)
  {
    assert (x, d) in Open(store, depth, labels) && (x, d) !in Open(store, depth, labels[x := d]);
  }

  /** The grafts of a `deepen` request: it succeeds exactly when everything within the depth
      can be read, and then knows the least generation of each commit in reach, however late
      a shorter way to it turned up. */
  method PlanDepth(
      wants: seq<Oid>, clientShallow: seq<Oid>, depth: nat, store: map<Oid, Object>, repositoryShallow: set<Oid>)
      returns (r: Planned, ghost labels: map<Oid, nat>)
    requires depth > 0 && ParentsAreCommits(store)
    ensures r.Planned? <==> forall x :: Within(store, repositoryShallow, wants, depth, x) ==> Readable(store, x)
    ensures r.Failed? ==> Within(store, repositoryShallow, wants, depth, r.oid) && !Readable(store, r.oid)
    ensures r.Planned? ==>
      && Labelled(store, repositoryShallow, wants, depth, labels)
      && r.plan.shallow == Boundary(store, repositoryShallow, depth, labels)
      && r.plan.unshallow == set x | x in clientShallow && x in labels && x !in r.plan.shallow
  {
    hide At, Relaxed, Sound, Within, Open;
    var pending := Entries(wants, 1);
    var commits: map<Oid, nat> := map[];
    var visited: set<Oid> := {};
    labels := commits;
    var at := 0;
    StartEntries(store, repositoryShallow, wants, depth);
    assert pending[0..] == pending;
    while at < |pending|
      invariant at <= |pending|
      invariant Sound(store, repositoryShallow, wants, depth, pending[at..], commits, visited)
      invariant Relaxed(store, repositoryShallow, wants, depth, pending[at..], commits, visited)
      invariant visited <= store.Keys
      decreases Open(store, depth, commits), store.Keys - visited, |pending| - at
    {
      var next := pending[at];
      ghost var todo := pending[at..];
      assert todo[0] == next && todo[1..] == pending[at + 1..];
      NextIsAt(store, repositoryShallow, wants, depth, todo, commits, visited);
      if next.oid in commits && commits[next.oid] <= next.depth {
        SkipEntry(store, repositoryShallow, wants, depth, todo, commits, visited);
      } else if next.oid !in store || store[next.oid].GarbledCommit? || store[next.oid].GarbledTag? {
        r := Failed(next.oid);
        return;
      } else if store[next.oid].Commit? {
        var parents := store[next.oid].parents;
        LabelEntry(store, repositoryShallow, wants, depth, todo, commits, visited, parents);
        LabelCloses(store, depth, commits, next.oid, next.depth);
        commits := commits[next.oid := next.depth];
        if next.oid !in repositoryShallow && next.depth < depth {
          pending := pending + Entries(parents, next.depth + 1);
        }
        assert pending[at + 1..] == todo[1..] + pending[at + |todo|..];
      } else if next.oid in visited {
        SkipEntry(store, repositoryShallow, wants, depth, todo, commits, visited);
      } else {
        var more := if store[next.oid].Tag? then [Pending(store[next.oid].target.oid, next.depth)] else [];
        VisitEntry(store, repositoryShallow, wants, depth, todo, commits, visited, more);
        visited := visited + {next.oid};
        pending := pending + more;
        assert pending[at + 1..] == todo[1..] + more;
      }
      at := at + 1;
    }
    assert pending[at..] == [];
    WalkIsOver(store, repositoryShallow, wants, depth, commits, visited);
    labels := commits;
    var shallow := set x | x in commits && (x in repositoryShallow || (commits[x] >= depth && store[x].parents != []));
    r := Planned(Plan(shallow, set x | x in clientShallow && x in commits && x !in shallow));
  }

  lemma StartEntries(store: map<Oid, Object>, grafts: set<Oid>, wants: seq<Oid>, depth: nat)
    requires depth > 0
    ensures Sound(store, grafts, wants, depth, Entries(wants, 1), map[], {})
    ensures Relaxed(store, grafts, wants, depth, Entries(wants, 1), map[], {})
  {
    forall e | e in Entries(wants, 1)
      ensures e.depth == 1 && At(store, grafts, wants, e.oid, 1)
    {
      EntriesOf(wants, 1, e);
      AtWant(store, grafts, wants, e.oid);
    }
    forall w | w in wants
      ensures Settled(Entries(wants, 1), map[], {}, w, 1)
    {
      EntriesOf(wants, 1, Pending(w, 1));
    }
  }

  lemma NextIsAt(
      store: map<Oid, Object>, grafts: set<Oid>, wants: seq<Oid>, depth: nat, todo: seq<Pending>,
      labels: map<Oid, nat>, visited: set<Oid>)
    requires Sound(store, grafts, wants, depth, todo, labels, visited) && todo != []
    ensures 0 < todo[0].depth <= depth && Within(store, grafts, wants, depth, todo[0].oid)
    ensures forall x :: x in labels ==> x in store && store[x].Commit?
  {
    hide At;
    assert todo[0] in todo;
  }
}
