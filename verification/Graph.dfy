/** Git objects as the repository sees them: what each one names, and what can be
    reached along those names. */
module Graph {
  import opened Options

  type Oid = nat

  /** The length of a name in a pack. */
  const OID_BYTES := 20

  datatype Kind = CommitKind | TreeKind | BlobKind | TagKind

  datatype Link = Link(oid: Oid, kind: Kind)

  datatype Entry = Subtree(oid: Oid) | File(oid: Oid) | Gitlink(oid: Oid)

  /** An object after its bytes were parsed. The garbled ones have a type but do
      not parse; a blob always does. */
  datatype Object =
    | Commit(tree: Oid, parents: seq<Oid>)
    | Tree(entries: seq<Entry>)
    | Tag(target: Link)
    | Blob
    | GarbledCommit
    | GarbledTree
    | GarbledTag

  function KindOf(o: Object): Kind {
    match o
    case Commit(_, _) => CommitKind
    case GarbledCommit => CommitKind
    case Tree(_) => TreeKind
    case GarbledTree => TreeKind
    case Tag(_) => TagKind
    case GarbledTag => TagKind
    case Blob => BlobKind
  }

  predicate Parses(o: Object) {
    !o.GarbledCommit? && !o.GarbledTree? && !o.GarbledTag?
  }

  /** What an object names, and as what: a commit its tree and, unless it is grafted, its parents; a tree its
      subtrees and, if blobs are asked for, its files, but not what a submodule is at; a tag its target. */
  predicate Names(o: Object, grafted: bool, blobs: bool, l: Link) {
    match o
    case Commit(tree, parents) => l == Link(tree, TreeKind) || (!grafted && l.kind == CommitKind && l.oid in parents)
    case Tree(entries) =>
      || (l.kind == TreeKind && Subtree(l.oid) in entries)
      || (blobs && l.kind == BlobKind && File(l.oid) in entries)
    case Tag(target) => l == target
    case _ => false
  }

  function Named(o: Object, grafted: bool, blobs: bool): set<Oid> {
    match o
    case Commit(tree, parents) => if grafted then {tree} else {tree} + Members(parents)
    case Tree(entries) => set e <- entries | e.Subtree? || (e.File? && blobs) :: e.oid
    case Tag(target) => {target.oid}
    case _ => {}
  }

  lemma NamedIff(o: Object, grafted: bool, blobs: bool, y: Oid)
    ensures y in Named(o, grafted, blobs) <==> exists kind :: Names(o, grafted, blobs, Link(y, kind))
  {
    if y in Named(o, grafted, blobs) {
      var kind :=
        match o
        case Commit(tree, _) => if y == tree then TreeKind else CommitKind
        case Tree(entries) => if Subtree(y) in entries then TreeKind else BlobKind
        case Tag(target) => target.kind
        case _ => BlobKind;
      assert Names(o, grafted, blobs, Link(y, kind));
    }
  }

  function EntryLinks(entries: seq<Entry>, includeBlobs: bool): seq<Link> {
    if entries == [] then []
    else
      var rest := EntryLinks(entries[1..], includeBlobs);
      match entries[0]
      case Subtree(oid) => [Link(oid, TreeKind)] + rest
      case File(oid) => if includeBlobs then [Link(oid, BlobKind)] + rest else rest
      case Gitlink(_) => rest
  }

  function CommitLinks(tree: Oid, parents: seq<Oid>, grafted: bool): seq<Link> {
    [Link(tree, TreeKind)] + if grafted then []
      else seq(|parents|, i requires 0 <= i < |parents| => Link(parents[i], CommitKind))
  }

  function LinksOf(o: Object, grafted: bool, includeBlobs: bool): seq<Link>
    requires Parses(o)
  {
    match o
    case Commit(tree, parents) => CommitLinks(tree, parents, grafted)
    case Tree(entries) => EntryLinks(entries, includeBlobs)
    case Tag(target) => [target]
    case Blob => []
  }

  lemma {:induction false} EntryLinksAreNames(entries: seq<Entry>, blobs: bool, l: Link)
    ensures l in EntryLinks(entries, blobs) <==> Names(Tree(entries), false, blobs, l)
  {
    if entries != [] {
      EntryLinksAreNames(entries[1..], blobs, l);
      assert entries == [entries[0]] + entries[1..];
    }
  }

  /** The links read from an object are exactly what it names. */
  lemma LinksAreNames(o: Object, grafted: bool, blobs: bool, l: Link)
    requires Parses(o)
    ensures l in LinksOf(o, grafted, blobs) <==> Names(o, grafted, blobs, l)
  {
    match o
    case Commit(tree, parents) =>
      var links := CommitLinks(tree, parents, grafted);
      assert links[0] == Link(tree, TreeKind);
      if !grafted && l.kind == CommitKind && l.oid in parents {
        var i :| 0 <= i < |parents| && parents[i] == l.oid;
        assert links[1 + i] == l;
      }
    case Tree(entries) => EntryLinksAreNames(entries, blobs, l);
    case Tag(_) =>
    case Blob =>
  }

  lemma TargetsAreNamed(o: Object, grafted: bool, blobs: bool)
    requires Parses(o)
    ensures Targets(LinksOf(o, grafted, blobs)) == Named(o, grafted, blobs)
  {
    forall y
      ensures y in Targets(LinksOf(o, grafted, blobs)) <==> y in Named(o, grafted, blobs)
    {
      NamedIff(o, grafted, blobs, y);
      forall l: Link | l.oid == y
        ensures l in LinksOf(o, grafted, blobs) <==> Names(o, grafted, blobs, l)
      {
        LinksAreNames(o, grafted, blobs, l);
      }
    }
  }

  /** What a push must hold: everything an object names, but not a tree's blobs. */
  function LinksToVerify(o: Object, grafted: bool): seq<Link>
    requires Parses(o)
  {
    LinksOf(o, grafted, false)
  }

  /** What an object keeps alive. */
  function LinksToReach(o: Object, grafted: bool): seq<Link>
    requires Parses(o)
  {
    LinksOf(o, grafted, true)
  }

  function Targets(links: seq<Link>): set<Oid> {
    set l <- links :: l.oid
  }

  /** The verified links are the reachable ones without a tree's blobs. */
  lemma VerifyIsReachWithoutBlobs(o: Object, grafted: bool, l: Link)
    requires Parses(o)
    ensures l in LinksToVerify(o, grafted) <==> l in LinksToReach(o, grafted) && !(o.Tree? && l.kind == BlobKind)
  {
    LinksAreNames(o, grafted, false, l);
    LinksAreNames(o, grafted, true, l);
  }

  /** Grafting takes links away, and no other than those to parents. */
  lemma GraftedLinks(o: Object, l: Link)
    requires Parses(o)
    ensures l in LinksToReach(o, true) <==>
      l in LinksToReach(o, false) && !(o.Commit? && l.kind == CommitKind)
  {
    LinksAreNames(o, true, true, l);
    LinksAreNames(o, false, true, l);
  }

  /** What a link calls a blob is one, if it is ever stored. */
  predicate BlobsAreBlobs(u: map<Oid, Object>) {
    forall y, x :: y in u && x in u && Names(u[y], false, true, Link(x, BlobKind)) ==> u[x].Blob?
  }

  /** No name twice. */
  predicate Distinct(oids: seq<Oid>) {
    forall i, j :: 0 <= i < j < |oids| ==> oids[i] != oids[j]
  }

  function Members(xs: seq<Oid>): set<Oid> {
    set x <- xs
  }

  lemma MembersConcat(xs: seq<Oid>, ys: seq<Oid>)
    ensures Members(xs + ys) == Members(xs) + Members(ys)
  {
  }

  lemma MembersOne(x: Oid)
    ensures Members([x]) == {x}
  {
  }

  // ---- Reachability ---------------------------------------------------------------------

  type Edges = map<Oid, set<Oid>>

  function After(g: Edges, x: Oid): set<Oid> {
    if x in g then g[x] else {}
  }

  /** A walk along edges that never enters a stop. */
  predicate Path(g: Edges, stops: set<Oid>, p: seq<Oid>) {
    && p != []
    && (forall i :: 0 <= i < |p| ==> p[i] !in stops)
    && (forall i :: 0 < i < |p| ==> p[i] in After(g, p[i - 1]))
  }

  ghost predicate Reaches(g: Edges, stops: set<Oid>, from: Oid, to: Oid) {
    exists p: seq<Oid> :: Path(g, stops, p) && p[0] == from && p[|p| - 1] == to
  }

  ghost predicate ReachedFrom(g: Edges, stops: set<Oid>, roots: set<Oid>, x: Oid) {
    exists r :: r in roots && Reaches(g, stops, r, x)
  }

  /** Edges out of `s` stay in it or enter a stop. */
  predicate Closed(g: Edges, stops: set<Oid>, s: set<Oid>) {
    forall x :: x in s ==> After(g, x) <= s + stops
  }

  lemma ReachesItself(g: Edges, stops: set<Oid>, x: Oid)
    requires x !in stops
    ensures Reaches(g, stops, x, x)
  {
    assert Path(g, stops, [x]);
  }

  lemma ReachesNext(g: Edges, stops: set<Oid>, from: Oid, x: Oid, y: Oid)
    requires Reaches(g, stops, from, x) && y in After(g, x) && y !in stops
    ensures Reaches(g, stops, from, y)
  {
    var p :| Path(g, stops, p) && p[0] == from && p[|p| - 1] == x;
    assert Path(g, stops, p + [y]);
  }

  lemma {:induction false} PathStays(g: Edges, stops: set<Oid>, s: set<Oid>, p: seq<Oid>)
    requires Closed(g, stops, s) && Path(g, stops, p) && p[0] in s
    ensures p[|p| - 1] in s
    decreases |p|
  {
    if |p| > 1 {
      assert p[1] in After(g, p[0]);
      assert p[1..] != [] && p[1..][0] == p[1];
      PathStays(g, stops, s, p[1..]);
    }
  }

  /** What is reached past stops is reached past fewer. */
  lemma FewerStops(g: Edges, more: set<Oid>, less: set<Oid>, from: Oid, to: Oid)
    requires Reaches(g, more, from, to) && less <= more
    ensures Reaches(g, less, from, to)
  {
    var p :| Path(g, more, p) && p[0] == from && p[|p| - 1] == to;
    assert Path(g, less, p);
  }

  /** What is reached along edges is reached along more. */
  lemma MoreEdges(g: Edges, h: Edges, stops: set<Oid>, from: Oid, to: Oid)
    requires Reaches(g, stops, from, to) && forall x :: After(g, x) <= After(h, x)
    ensures Reaches(h, stops, from, to)
  {
    var p :| Path(g, stops, p) && p[0] == from && p[|p| - 1] == to;
    forall i | 0 < i < |p|
      ensures p[i] in After(h, p[i - 1])
    {
      assert p[i] in After(g, p[i - 1]);
    }
    assert Path(h, stops, p);
  }

  lemma StillReached(g: Edges, stops: set<Oid>, roots: set<Oid>, x: Oid)
    requires ReachedFrom(g, stops, roots, x)
    ensures ReachedFrom(g, {}, roots, x)
  {
    var r :| r in roots && Reaches(g, stops, r, x);
    FewerStops(g, stops, {}, r, x);
  }

  lemma PathMoves(g: Edges, h: Edges, p: seq<Oid>)
    requires Path(g, {}, p) && forall x :: After(g, x) <= After(h, x)
    ensures Path(h, {}, p)
  {
    forall i | 0 < i < |p|
      ensures p[i] in After(h, p[i - 1])
    {
      assert p[i] in After(g, p[i - 1]);
    }
  }

  /** A closed set holds everything that can be reached from inside it. */
  lemma ClosedHolds(g: Edges, stops: set<Oid>, s: set<Oid>, from: Oid, to: Oid)
    requires Closed(g, stops, s) && from in s && Reaches(g, stops, from, to)
    ensures to in s
  {
    var p :| Path(g, stops, p) && p[0] == from && p[|p| - 1] == to;
    PathStays(g, stops, s, p);
  }

  /** What a walk is allowed to follow in a store: the parsed objects' links. */
  function VerifyEdges(store: map<Oid, Object>, shallow: set<Oid>): Edges {
    map x | x in store && Parses(store[x]) :: Named(store[x], x in shallow, false)
  }

  function ReachEdges(store: map<Oid, Object>, shallow: set<Oid>): Edges {
    map x | x in store && Parses(store[x]) :: Named(store[x], x in shallow, true)
  }
}
