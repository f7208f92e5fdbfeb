/** The repository as a state machine: pushes, imports, forks, resets and an incremental
    mark-and-sweep, one durable transaction at a time, with a crash possible between any
    two. `u` is every object ever offered to the repository, so that a name always means
    the same object. */
module Sweep {
  import opened Options
  import opened Graph
  import opened Connectivity

  type Name = nat

  datatype Phase = Marking | Sweeping | Swept

  datatype Checkpoint = Checkpoint(phase: Phase, version: nat)

  /** A row of the mark set: what some link called the object, and whether its own links
      still have to be marked. */
  datatype Mark = Mark(expected: Option<Kind>, pending: bool)

  /** The operation that holds the gate. It is only in memory: a crash forgets it. */
  datatype Gate =
    | Idle
    | Pushing(visited: set<Oid>)
    | Importing(tip: Oid, shallow: set<Oid>, walked: set<Oid>)
    | Resetting(todo: set<Oid>)
    | Stepping(look: Option<(Oid, seq<Link>)>)
    | Reclaiming(batch: set<Oid>)

  /** `torn` remembers that a reset that found refs removed objects and has not finished. */
  datatype Repo = Repo(
    present: set<Oid>,
    refs: map<Name, Oid>,
    shallow: set<Oid>,
    version: Option<nat>,
    checkpoint: Option<Checkpoint>,
    marks: map<Oid, Mark>,
    gate: Gate,
    torn: bool)

  /** A repository just created: its row exists. */
  function Fresh(): Repo {
    Repo({}, map[], {}, Some(0), None, map[], Idle, false)
  }

  function Held(u: map<Oid, Object>, present: set<Oid>): map<Oid, Object> {
    map x | x in present && x in u :: u[x]
  }

  function CurrentVersion(s: Repo): nat {
    if s.version.Some? then s.version.value else 0
  }

  /** The checkpoint was taken of the current refs. */
  predicate Current(s: Repo) {
    s.checkpoint.Some? && s.checkpoint.value.version == CurrentVersion(s)
  }

  predicate InPhase(s: Repo, phase: Phase) {
    Current(s) && s.checkpoint.value.phase == phase
  }

  function Tips(s: Repo): set<Oid> {
    s.refs.Values
  }

  function Bumped(version: Option<nat>): Option<nat> {
    if version.Some? then Some(version.value + 1) else None
  }

  predicate NoPending(marks: map<Oid, Mark>) {
    forall x :: x in marks ==> !marks[x].pending
  }

  function Moved(refs: map<Name, Oid>, updates: map<Name, Option<Oid>>): map<Name, Oid> {
    map n | n in refs.Keys + updates.Keys && (n in updates ==> updates[n].Some?) ::
      if n in updates then updates[n].value else refs[n]
  }

  // ---- Marks ------------------------------------------------------------------------------

  /** Inserts a pending row, or fills in the type of one that has none. */
  function MarkLink(marks: map<Oid, Mark>, l: Link): map<Oid, Mark> {
    if l.oid !in marks then marks[l.oid := Mark(Some(l.kind), true)]
    else if marks[l.oid].expected.None? then marks[l.oid := marks[l.oid].(expected := Some(l.kind))]
    else marks
  }

  function MarkLinks(marks: map<Oid, Mark>, links: seq<Link>): map<Oid, Mark>
    decreases |links|
  {
    if links == [] then marks else MarkLinks(MarkLink(marks, links[0]), links[1..])
  }

  function MarkWalked(marks: map<Oid, Mark>, x: Oid): map<Oid, Mark> {
    if x in marks then marks[x := marks[x].(pending := false)] else marks
  }

  function RootMarks(tips: set<Oid>): map<Oid, Mark> {
    map x | x in tips :: Mark(None, true)
  }

  /** What marking `x` finds: nothing to follow from a blob, or from one that is absent. */
  function Outgoing(u: map<Oid, Object>, s: Repo, x: Oid): seq<Link> {
    if x in s.present && x in u && Parses(u[x]) then LinksToReach(u[x], x in s.shallow) else []
  }

  /** The marking of `x` goes on rather than failing. */
  predicate Markable(u: map<Oid, Object>, s: Repo, x: Oid) {
    x in s.marks && if x in s.present && x in u then Parses(u[x]) else s.marks[x].expected == Some(BlobKind)
  }

  // ---- Steps ------------------------------------------------------------------------------

  datatype Action =
    | Write(x: Oid)
    | BeginPush
    | VerifyTip(tip: Oid, visited: set<Oid>, indexed: set<Oid>)
    | ApplyUpdates(updates: map<Name, Option<Oid>>)
    | VerifyImport(tip: Oid, shallow: set<Oid>, walked: set<Oid>, indexed: set<Oid>)
    | ApplyImport(name: Name)
    | CompleteFork(refs: map<Name, Oid>)
    | BeginReset
    | ResetReclaim(x: Oid)
    | FinishReset
    | BeginStep
    | Restart
    | Look(x: Oid)
    | FinishMark
    | StartSweeping
    | SelectUnmarked(batch: set<Oid>)
    | Reclaim(x: Oid)
    | FinishSweep
    | Leave

  /** A connectivity walk from `tip` found nothing missing, and `visited` grew by what it saw. It followed
      the index where that had a row. */
  ghost predicate Verified(
      u: map<Oid, Object>, present: set<Oid>, indexed: set<Oid>, shallow: set<Oid>, stops: set<Oid>, tip: Oid,
      before: set<Oid>, visited: set<Oid>)
  {
    var store := Store(Held(u, present), indexed);
    var g := WalkEdges(store, shallow);
    && ValidStore(store) && Complete(store, g, stops, tip)
    && (forall x :: x in visited <==> x in before || Reaches(g, stops, tip, x))
  }

  /** A sweep of the current refs, if there is one, has marked the tips that a fork adds. */
  predicate Unswept(s: Repo, refs: map<Name, Oid>) {
    Current(s) ==> forall n :: n in refs && n !in s.refs ==> refs[n] in s.marks
  }

  /** The copy of a fork is complete. */
  ghost predicate ForkVerified(u: map<Oid, Object>, s: Repo, refs: map<Name, Oid>) {
    forall n :: n in refs ==> exists walked :: Verified(u, s.present, {}, s.shallow, {}, refs[n], {}, walked)
  }

  ghost predicate Enabled(u: map<Oid, Object>, s: Repo, a: Action) {
    match a
    case Write(x) => x in u
    case BeginPush => s.gate.Idle?
    case VerifyTip(tip, visited, indexed) =>
      && s.gate.Pushing?
      && Verified(u, s.present, indexed, s.shallow, Tips(s) + s.gate.visited, tip, s.gate.visited, visited)
    case ApplyUpdates(updates) =>
      && s.gate.Pushing?
      && forall n :: n in updates && updates[n].Some? ==> updates[n].value in Tips(s) + s.gate.visited
    case VerifyImport(tip, shallow, walked, indexed) =>
      && s.gate.Idle? && shallow <= s.present
      && (forall x :: x in shallow && x in u ==> KindOf(u[x]) == CommitKind)
      && Verified(u, s.present, indexed, shallow, {}, tip, {}, walked)
    case ApplyImport(_) => s.gate.Importing?
    case CompleteFork(refs) =>
      && s.gate.Idle? && Unswept(s, refs) && ForkVerified(u, s, refs)
    case BeginReset => s.gate.Idle?
    case ResetReclaim(x) => s.gate.Resetting? && x in s.gate.todo
    case FinishReset => s.gate.Resetting? && s.gate.todo == {}
    case BeginStep => s.gate.Idle?
    case Restart => s.gate == Stepping(None) && (!Current(s) || s.checkpoint.value.phase == Swept)
    case Look(x) =>
      && s.gate == Stepping(None) && InPhase(s, Marking)
      && Markable(u, s, x) && s.marks[x].pending
    case FinishMark => s.gate.Stepping? && s.gate.look.Some?
    case StartSweeping => s.gate == Stepping(None) && InPhase(s, Marking) && NoPending(s.marks)
    case SelectUnmarked(batch) =>
      && s.gate == Stepping(None) && InPhase(s, Sweeping)
      && batch <= s.present - s.marks.Keys
    case Reclaim(x) => s.gate.Reclaiming? && x in s.gate.batch
    case FinishSweep => s.gate.Reclaiming? && s.gate.batch == {} && s.present <= s.marks.Keys
    case Leave => true
  }

  function Do(u: map<Oid, Object>, s: Repo, a: Action): Repo {
    match a
    case Write(x) => s.(present := s.present + {x})
    case BeginPush => s.(gate := Pushing({}))
    case VerifyTip(_, visited, _) => s.(gate := Pushing(visited))
    case ApplyUpdates(updates) =>
      s.(refs := Moved(s.refs, updates), version := Bumped(s.version), gate := Idle)
    case VerifyImport(tip, shallow, walked, _) => s.(gate := Importing(tip, shallow, walked))
    case ApplyImport(name) =>
      if s.gate.Importing? then
        s.(refs := map[name := s.gate.tip], shallow := s.gate.shallow, version := Bumped(s.version), gate := Idle,
           torn := false)
      else s
    case CompleteFork(refs) =>
      s.(refs := refs + s.refs, version := if s.version.Some? then s.version else Some(0))
    case BeginReset => s.(gate := Resetting(s.present))
    case ResetReclaim(x) =>
      if s.gate.Resetting? then
        s.(present := s.present - {x}, gate := Resetting(s.gate.todo - {x}), torn := s.torn || s.refs != map[])
      else s
    case FinishReset =>
      s.(refs := map[], shallow := {}, marks := map[], checkpoint := None, version := Some(0), gate := Idle,
         torn := false)
    case BeginStep => s.(gate := Stepping(None))
    case Restart => s.(marks := RootMarks(Tips(s)), checkpoint := Some(Checkpoint(Marking, CurrentVersion(s))))
    case Look(x) => s.(gate := Stepping(Some((x, Outgoing(u, s, x)))))
    case FinishMark =>
      if s.gate.Stepping? && s.gate.look.Some? then
        var (x, links) := s.gate.look.value;
        s.(marks := MarkWalked(MarkLinks(s.marks, links), x), gate := Stepping(None))
      else s
    case StartSweeping =>
      if s.checkpoint.Some? then s.(checkpoint := Some(s.checkpoint.value.(phase := Sweeping))) else s
    case SelectUnmarked(batch) => s.(gate := Reclaiming(batch))
    case Reclaim(x) =>
      if s.gate.Reclaiming? then s.(present := s.present - {x}, gate := Reclaiming(s.gate.batch - {x})) else s
    case FinishSweep =>
      if s.checkpoint.Some? then s.(checkpoint := Some(s.checkpoint.value.(phase := Swept)), gate := Stepping(None))
      else s
    case Leave => s.(gate := Idle)
  }

  ghost predicate Runs(u: map<Oid, Object>, s: Repo, actions: seq<Action>, t: Repo)
    decreases |actions|
  {
    if actions == [] then t == s
    else Enabled(u, s, actions[0]) && Runs(u, Do(u, s, actions[0]), actions[1..], t)
  }

  // ---- The invariant -----------------------------------------------------------------------

  predicate NamesLink(u: map<Oid, Object>, shallow: set<Oid>, y: Oid, l: Link) {
    y in u && Names(u[y], y in shallow, true, l)
  }

  /** `l` is the first link of its target: a later one changes nothing. */
  predicate NamesFirst(u: map<Oid, Object>, shallow: set<Oid>, y: Oid, l: Link) {
    y in u && Parses(u[y]) && FirstLink(LinksToReach(u[y], y in shallow), l.oid) == Some(l)
  }

  lemma FirstIsNamed(u: map<Oid, Object>, shallow: set<Oid>, y: Oid, l: Link)
    requires NamesFirst(u, shallow, y, l)
    ensures NamesLink(u, shallow, y, l)
  {
    FirstLinkExists(LinksToReach(u[y], y in shallow), l.oid);
    LinksAreNames(u[y], y in shallow, true, l);
  }

  /** A mark has a reason: a ref, or the first link from another marked object. */
  ghost predicate Justified(u: map<Oid, Object>, tips: set<Oid>, shallow: set<Oid>, marks: map<Oid, Mark>, x: Oid)
    requires x in marks
  {
    match marks[x].expected
    case None => x in tips
    case Some(kind) => exists y :: y in marks && NamesFirst(u, shallow, y, Link(x, kind))
  }

  /** The mark set as far as it has come: it holds the refs, nothing without a reason, and
      whatever a finished row reaches next. */
  ghost predicate Marked(u: map<Oid, Object>, tips: set<Oid>, shallow: set<Oid>, marks: map<Oid, Mark>) {
    var g := ReachEdges(u, shallow);
    && tips <= marks.Keys
    && (forall x :: x in marks ==> Justified(u, tips, shallow, marks, x) && ReachedFrom(g, {}, tips, x))
    && (forall x :: x in marks && !marks[x].pending ==> After(g, x) <= marks.Keys)
  }

  /** What has to be here with an object: all that it names but the blobs of a tree, or, if not `strict`, what an
      index row tells of that. */
  function Follow(o: Object, grafted: bool, strict: bool): set<Oid>
    requires Parses(o)
  {
    if strict then Named(o, grafted, false) else RowNames(o, grafted)
  }

  lemma LooseIsLess(o: Object, grafted: bool)
    requires Parses(o)
    ensures Follow(o, grafted, false) <= Follow(o, grafted, true) <= Named(o, grafted, true)
  {
  }

  /** `c` is present, parses, and is closed. */
  predicate Closes(
      u: map<Oid, Object>, present: set<Oid>, shallow: set<Oid>, stops: set<Oid>, c: set<Oid>, strict: bool)
  {
    forall x :: x in c ==>
      x in present && x in u && Parses(u[x]) && Follow(u[x], x in shallow, strict) <= c + stops
  }

  /** And it holds the refs. */
  predicate Supports(u: map<Oid, Object>, s: Repo, c: set<Oid>, strict: bool) {
    Tips(s) <= c && Closes(u, s.present, s.shallow, {}, c, strict)
  }

  ghost predicate Stands(u: map<Oid, Object>, s: Repo, strict: bool) {
    exists c :: Supports(u, s, c, strict)
  }

  /** The links of a finished row. */
  predicate LinksFrom(u: map<Oid, Object>, shallow: set<Oid>, x: Oid, links: seq<Link>) {
    links == [] || (x in u && Parses(u[x]) && links == LinksToReach(u[x], x in shallow))
  }

  ghost predicate GateHolds(u: map<Oid, Object>, s: Repo) {
    match s.gate
    case Pushing(visited) => Closes(u, s.present, s.shallow, Tips(s), visited, false)
    case Importing(tip, shallow, walked) => tip in walked && Closes(u, s.present, shallow, {}, walked, false)
    case Stepping(Some((x, links))) =>
      && InPhase(s, Marking) && x in s.marks
      && LinksFrom(u, s.shallow, x, links)
      && After(ReachEdges(u, s.shallow), x) <= Targets(links)
    case Reclaiming(batch) => InPhase(s, Sweeping) && batch !! s.marks.Keys
    case _ => true
  }

  ghost predicate Inv(u: map<Oid, Object>, s: Repo) {
    && s.version.Some?
    && s.present <= u.Keys
    && (s.checkpoint.Some? ==> s.checkpoint.value.version <= s.version.value)
    && (Current(s) ==> Marked(u, Tips(s), s.shallow, s.marks))
    && (Current(s) && s.checkpoint.value.phase != Marking ==> NoPending(s.marks))
    && GateHolds(u, s)
    && (!s.torn ==> Stands(u, s, false))
  }

  // ---- Every step keeps it -------------------------------------------------------------------

  lemma VerifiedCloses(
      u: map<Oid, Object>, present: set<Oid>, indexed: set<Oid>, shallow: set<Oid>, stops: set<Oid>, tip: Oid,
      before: set<Oid>, visited: set<Oid>, strict: bool)
    requires Closes(u, present, shallow, stops, before, strict) && (strict ==> indexed == {})
    requires Verified(u, present, indexed, shallow, stops + before, tip, before, visited)
    ensures Closes(u, present, shallow, stops, visited, strict)
    ensures tip in stops + visited
  {
    hide Follow, RowNames;
    var g := WalkEdges(Store(Held(u, present), indexed), shallow);
    if tip !in stops + before {
      ReachesItself(g, stops + before, tip);
    }
    forall x | x in visited
      ensures x in present && x in u && Parses(u[x])
      ensures Follow(u[x], x in shallow, strict) <= visited + stops
    {
      if x !in before {
        assert Reaches(g, stops + before, tip, x) && Holds(Store(Held(u, present), indexed), x);
        FollowIsWalked(u, present, indexed, shallow, x, strict);
        forall y | y in After(g, x) && y !in stops + before
          ensures y in visited
        {
          ReachesNext(g, stops + before, tip, x, y);
        }
      }
    }
  }

  lemma FollowIsWalked(
      u: map<Oid, Object>, present: set<Oid>, indexed: set<Oid>, shallow: set<Oid>, x: Oid, strict: bool)
    requires x in present && x in u && Parses(u[x]) && (strict ==> indexed == {})
    ensures Follow(u[x], x in shallow, strict) <= After(WalkEdges(Store(Held(u, present), indexed), shallow), x)
  {
    hide RowNames;
    LooseIsLess(u[x], x in shallow);
  }

  lemma MovedTips(s: Repo, updates: map<Name, Option<Oid>>, more: set<Oid>)
    requires forall n :: n in updates && updates[n].Some? ==> updates[n].value in s.refs.Values + more
    ensures Moved(s.refs, updates).Values <= s.refs.Values + more
  {
    var moved := Moved(s.refs, updates);
    forall x | x in moved.Values
      ensures x in s.refs.Values + more
    {
      var n :| n in moved && moved[n] == x;
      if n !in updates {
        assert s.refs[n] in s.refs.Values;
      }
    }
  }

  lemma KeepsGate(u: map<Oid, Object>, s: Repo, a: Action)
    requires Inv(u, s) && Enabled(u, s, a)
    requires a.Write? || a.BeginPush? || a.VerifyTip? || a.ApplyUpdates? || a.VerifyImport? || a.ApplyImport?
    ensures GateHolds(u, Do(u, s, a))
  {
    hide Marked, Verified, Stands, Follow;
    match a {
      case VerifyTip(tip, visited, indexed) =>
        VerifiedCloses(u, s.present, indexed, s.shallow, Tips(s), tip, s.gate.visited, visited, false);
      case VerifyImport(tip, shallow, walked, indexed) =>
        var none: set<Oid> := {};
        assert none + none == none;
        VerifiedCloses(u, s.present, indexed, shallow, {}, tip, {}, walked, false);
      case _ =>
    }
  }

  lemma ForkSupported(u: map<Oid, Object>, s: Repo, refs: map<Name, Oid>, names: set<Name>, strict: bool)
      returns (c: set<Oid>)
    requires names <= refs.Keys
    requires ForkVerified(u, s, refs)
    ensures Closes(u, s.present, s.shallow, {}, c, strict) && forall n :: n in names ==> refs[n] in c
    decreases names
  {
    hide Verified, Follow;
    c := {};
    if names != {} {
      var n :| n in names;
      var walked :| Verified(u, s.present, {}, s.shallow, {}, refs[n], {}, walked);
      var none: set<Oid> := {};
      assert none + none == none;
      VerifiedCloses(u, s.present, {}, s.shallow, {}, refs[n], {}, walked, strict);
      var rest := ForkSupported(u, s, refs, names - {n}, strict);
      c := walked + rest;
    }
  }

  lemma ForkStands(u: map<Oid, Object>, s: Repo, refs: map<Name, Oid>, strict: bool)
    requires Inv(u, s) && Enabled(u, s, CompleteFork(refs)) && Stands(u, s, strict)
    ensures Stands(u, Do(u, s, CompleteFork(refs)), strict)
  {
    hide Marked, Verified, Follow, Inv;
    var t := Do(u, s, CompleteFork(refs));
    var c :| Supports(u, s, c, strict);
    var more := ForkSupported(u, s, refs, refs.Keys, strict);
    forall x | x in t.refs.Values
      ensures x in c + more
    {
      var n :| n in t.refs && t.refs[n] == x;
      if n in s.refs {
        assert s.refs[n] in Tips(s);
      }
    }
    assert Supports(u, t, c + more, strict);
  }

  lemma RootsAreMarked(u: map<Oid, Object>, tips: set<Oid>, shallow: set<Oid>)
    ensures Marked(u, tips, shallow, RootMarks(tips))
  {
    var g := ReachEdges(u, shallow);
    forall x | x in tips
      ensures ReachedFrom(g, {}, tips, x)
    {
      ReachesItself(g, {}, x);
    }
  }

  lemma {:induction false} MarkLinksMarks(marks: map<Oid, Mark>, links: seq<Link>, x: Oid)
    ensures var all := MarkLinks(marks, links);
            && (x in all <==> x in marks || x in Targets(links))
            && (x in all && x !in marks ==> all[x].pending)
            && (x in marks ==> all[x].pending == marks[x].pending)
            && (x in marks && marks[x].expected.Some? ==> all[x].expected == marks[x].expected)
            && (x in all && !(x in marks && all[x].expected == marks[x].expected) ==>
                  all[x].expected.Some? && FirstLink(links, x) == Some(Link(x, all[x].expected.value)))
    decreases |links|
  {
    if links != [] {
      MarkLinksMarks(MarkLink(marks, links[0]), links[1..], x);
      assert links == [links[0]] + links[1..];
    }
  }

  lemma BlobHasNoLinks(u: map<Oid, Object>, tips: set<Oid>, shallow: set<Oid>, marks: map<Oid, Mark>, x: Oid)
    requires BlobsAreBlobs(u) && x in marks && marks[x].expected == Some(BlobKind)
    requires Justified(u, tips, shallow, marks, x)
    ensures After(ReachEdges(u, shallow), x) == {}
  {
    var y :| y in marks && NamesFirst(u, shallow, y, Link(x, BlobKind));
    FirstIsNamed(u, shallow, y, Link(x, BlobKind));
    assert Names(u[y], false, true, Link(x, BlobKind));
  }

  lemma LookHolds(u: map<Oid, Object>, s: Repo, x: Oid)
    requires BlobsAreBlobs(u) && Inv(u, s) && Enabled(u, s, Look(x))
    ensures GateHolds(u, Do(u, s, Look(x)))
  {
    hide ReachedFrom, Closes, Justified, Stands;
    if x !in s.present {
      BlobHasNoLinks(u, Tips(s), s.shallow, s.marks, x);
    } else {
      TargetsAreNamed(u[x], x in s.shallow, true);
    }
  }

  lemma LinkIsReached(u: map<Oid, Object>, tips: set<Oid>, shallow: set<Oid>, x: Oid, l: Link)
    requires NamesLink(u, shallow, x, l) && ReachedFrom(ReachEdges(u, shallow), {}, tips, x)
    ensures ReachedFrom(ReachEdges(u, shallow), {}, tips, l.oid)
  {
    NamedIff(u[x], x in shallow, true, l.oid);
    var g := ReachEdges(u, shallow);
    var r :| r in tips && Reaches(g, {}, r, x);
    ReachesNext(g, {}, r, x, l.oid);
  }

  /** The rows after `x` was walked: the old ones, and one for each link. */
  lemma WalkedRow(marks: map<Oid, Mark>, x: Oid, links: seq<Link>, z: Oid)
    requires x in marks
    ensures var all := MarkWalked(MarkLinks(marks, links), x);
            && (z in all <==> z in marks || z in Targets(links))
            && (z in marks && marks[z].expected.Some? ==> all[z].expected == marks[z].expected)
            && (z in all && !all[z].pending <==> z in marks && (z == x || !marks[z].pending))
            && (z in all && !(z in marks && all[z].expected == marks[z].expected) ==>
                  all[z].expected.Some? && FirstLink(links, z) == Some(Link(z, all[z].expected.value)))
  {
    hide MarkLinks;
    MarkLinksMarks(marks, links, x);
    MarkLinksMarks(marks, links, z);
  }

  lemma FirstOfLinks(u: map<Oid, Object>, shallow: set<Oid>, x: Oid, links: seq<Link>, l: Link)
    requires LinksFrom(u, shallow, x, links) && FirstLink(links, l.oid) == Some(l)
    ensures NamesFirst(u, shallow, x, l) && NamesLink(u, shallow, x, l)
  {
    FirstLinkExists(links, l.oid);
    FirstIsNamed(u, shallow, x, l);
  }

  lemma WalkedRowJustified(
      u: map<Oid, Object>, tips: set<Oid>, shallow: set<Oid>, marks: map<Oid, Mark>, x: Oid, links: seq<Link>,
      all: map<Oid, Mark>, z: Oid)
    requires Marked(u, tips, shallow, marks) && x in marks && LinksFrom(u, shallow, x, links)
    requires all == MarkWalked(MarkLinks(marks, links), x) && z in all
    ensures Justified(u, tips, shallow, all, z) && ReachedFrom(ReachEdges(u, shallow), {}, tips, z)
  {
    hide ReachedFrom, NamesLink, NamesFirst, After, ReachEdges, MarkLinks, MarkWalked, LinksFrom;
    WalkedRow(marks, x, links, z);
    WalkedRow(marks, x, links, x);
    if z in marks && all[z].expected == marks[z].expected {
      assert Justified(u, tips, shallow, marks, z);
      if all[z].expected.Some? {
        var y :| y in marks && NamesFirst(u, shallow, y, Link(z, all[z].expected.value));
        WalkedRow(marks, x, links, y);
      }
    } else {
      FirstOfLinks(u, shallow, x, links, Link(z, all[z].expected.value));
      LinkIsReached(u, tips, shallow, x, Link(z, all[z].expected.value));
    }
  }

  lemma WalkedKeepsMarked(
      u: map<Oid, Object>, tips: set<Oid>, shallow: set<Oid>, marks: map<Oid, Mark>, x: Oid, links: seq<Link>)
    requires Marked(u, tips, shallow, marks) && x in marks && LinksFrom(u, shallow, x, links)
    requires After(ReachEdges(u, shallow), x) <= Targets(links)
    ensures Marked(u, tips, shallow, MarkWalked(MarkLinks(marks, links), x))
  {
    hide ReachedFrom, NamesLink, After, ReachEdges, MarkLinks, MarkWalked, Justified, LinksFrom;
    var all := MarkWalked(MarkLinks(marks, links), x);
    var g := ReachEdges(u, shallow);
    forall z | z in tips
      ensures z in all
    {
      WalkedRow(marks, x, links, z);
    }
    forall z | z in all
      ensures Justified(u, tips, shallow, all, z) && ReachedFrom(g, {}, tips, z)
      ensures !all[z].pending ==> After(g, z) <= all.Keys
    {
      WalkedRowJustified(u, tips, shallow, marks, x, links, all, z);
      WalkedRow(marks, x, links, z);
      if !all[z].pending {
        forall y | y in After(g, z)
          ensures y in all
        {
          WalkedRow(marks, x, links, y);
        }
      }
    }
  }

  lemma KeepsMarking(u: map<Oid, Object>, s: Repo, a: Action)
    requires BlobsAreBlobs(u) && Inv(u, s) && Enabled(u, s, a)
    requires a.BeginStep? || a.Restart? || a.Look? || a.FinishMark? || a.StartSweeping? || a.Leave?
    ensures var t := Do(u, s, a);
      && GateHolds(u, t) && (Current(t) ==> Marked(u, Tips(t), t.shallow, t.marks))
      && (Current(t) && t.checkpoint.value.phase != Marking ==> NoPending(t.marks))
  {
    hide MarkLinks, MarkWalked, Markable, Outgoing, Marked, RootMarks, Stands;
    match a {
      case Restart => RootsAreMarked(u, Tips(s), s.shallow);
      case FinishMark => WalkedKeepsMarked(u, Tips(s), s.shallow, s.marks, s.gate.look.value.0, s.gate.look.value.1);
      case Look(x) => LookHolds(u, s, x);
      case _ =>
    }
  }

  /** What nothing marked names can go: the closed part that is marked still supports the refs. */
  lemma ReclaimSupports(u: map<Oid, Object>, s: Repo, c: set<Oid>, x: Oid, strict: bool)
    requires Supports(u, s, c, strict) && Marked(u, Tips(s), s.shallow, s.marks) && NoPending(s.marks) && x !in s.marks
    ensures Supports(u, s.(present := s.present - {x}), c * s.marks.Keys, strict)
  {
    hide ReachedFrom, Justified, LinksToVerify, LinksToReach, Follow;
    var kept := c * s.marks.Keys;
    forall y | y in kept
      ensures Follow(u[y], y in s.shallow, strict) <= kept
    {
      LooseIsLess(u[y], y in s.shallow);
      assert Follow(u[y], y in s.shallow, strict) <= After(ReachEdges(u, s.shallow), y);
    }
  }

  lemma MovedStands(u: map<Oid, Object>, s: Repo, updates: map<Name, Option<Oid>>)
    requires Inv(u, s) && Enabled(u, s, ApplyUpdates(updates)) && Stands(u, s, false)
    ensures Stands(u, Do(u, s, ApplyUpdates(updates)), false)
  {
    hide Marked, Follow;
    var c :| Supports(u, s, c, false);
    MovedTips(s, updates, s.gate.visited);
    assert Supports(u, Do(u, s, ApplyUpdates(updates)), c + s.gate.visited, false);
  }

  lemma ImportedStands(u: map<Oid, Object>, s: Repo, name: Name)
    requires Inv(u, s) && Enabled(u, s, ApplyImport(name))
    ensures Stands(u, Do(u, s, ApplyImport(name)), false)
  {
    hide Marked, Follow;
    var t := Do(u, s, ApplyImport(name));
    assert t.refs.Values == {s.gate.tip} by {
      assert t.refs[name] == s.gate.tip;
    }
    assert Supports(u, t, s.gate.walked, false);
  }

  /** The step puts refs to objects that a walk over the index found complete. */
  predicate Accepts(a: Action) {
    a.ApplyUpdates? || a.ApplyImport?
  }

  /** No step but a reset takes from the refs what they need; as far as the index tells, for those that put refs to
      what a walk accepted. */
  lemma StepStands(u: map<Oid, Object>, s: Repo, a: Action, strict: bool)
    requires Inv(u, s) && Enabled(u, s, a) && Stands(u, s, strict)
    requires !a.ResetReclaim? && !(strict && Accepts(a))
    ensures Stands(u, Do(u, s, a), strict)
  {
    hide Verified, Follow, MarkLinks, MarkWalked, RootMarks, Outgoing, Markable, Marked;
    var t := Do(u, s, a);
    var c :| Supports(u, s, c, strict);
    if a.ApplyUpdates? {
      MovedStands(u, s, a.updates);
    } else if a.ApplyImport? {
      ImportedStands(u, s, a.name);
    } else if a.CompleteFork? {
      ForkStands(u, s, a.refs, strict);
    } else if a.FinishReset? {
      assert t.refs.Values == {};
      assert Supports(u, t, {}, strict);
    } else if a.Reclaim? {
      ReclaimSupports(u, s, c, a.x, strict);
      assert Supports(u, t, c * s.marks.Keys, strict);
    } else {
      assert Supports(u, t, c, strict);
    }
  }

  lemma ForkedTips(s: Repo, refs: map<Name, Oid>)
    ensures (refs + s.refs).Values == Tips(s) + set n | n in refs && n !in s.refs :: refs[n]
  {
    var all := refs + s.refs;
    forall x | x in all.Values
      ensures x in Tips(s) || exists n :: n in refs && n !in s.refs && refs[n] == x
    {
      var n :| n in all && all[n] == x;
      if n in s.refs {
        assert s.refs[n] == x;
      }
    }
    forall n | n in refs.Keys + s.refs.Keys
      ensures (if n in s.refs then s.refs[n] else refs[n]) in all.Values
    {
      assert all[n] == if n in s.refs then s.refs[n] else refs[n];
    }
  }

  lemma MoreTipsMarked(
      u: map<Oid, Object>, tips: set<Oid>, more: set<Oid>, shallow: set<Oid>, marks: map<Oid, Mark>)
    requires Marked(u, tips, shallow, marks) && tips <= more <= marks.Keys
    ensures Marked(u, more, shallow, marks)
  {
    hide ReachEdges, NamesFirst;
    forall x | x in marks
      ensures Justified(u, more, shallow, marks, x)
    {
      assert Justified(u, tips, shallow, marks, x);
    }
  }

  lemma ForkKeepsMarked(u: map<Oid, Object>, s: Repo, refs: map<Name, Oid>)
    requires Inv(u, s) && s.gate.Idle? && Unswept(s, refs)
    ensures var t := Do(u, s, CompleteFork(refs)); Current(t) ==> Marked(u, Tips(t), t.shallow, t.marks)
  {
    hide Stands, GateHolds;
    var t := Do(u, s, CompleteFork(refs));
    ForkedTips(s, refs);
    if Current(s) {
      assert Tips(s) <= s.marks.Keys;
      hide Marked;
      MoreTipsMarked(u, Tips(s), Tips(t), s.shallow, s.marks);
    }
  }

  /** A fork may complete exactly if a sweep that is under way has marked its tips: its refs do not change the
      version, so no sweep would begin anew. */
  lemma ForkMayCompleteIff(u: map<Oid, Object>, s: Repo, refs: map<Name, Oid>)
    requires BlobsAreBlobs(u) && Inv(u, s) && s.gate.Idle? && ForkVerified(u, s, refs)
    ensures Inv(u, Do(u, s, CompleteFork(refs))) <==> Unswept(s, refs)
  {
    hide ForkVerified, BlobsAreBlobs;
    if Unswept(s, refs) {
      hide Inv, Do;
      KeepsInv(u, s, CompleteFork(refs));
    } else {
      ForkIsSwept(u, s, refs);
    }
  }

  lemma ForkIsSwept(u: map<Oid, Object>, s: Repo, refs: map<Name, Oid>)
    requires Inv(u, s) && !Unswept(s, refs)
    ensures !Inv(u, Do(u, s, CompleteFork(refs)))
  {
    hide Stands, Justified, ReachedFrom, ReachEdges, GateHolds;
    var t := Do(u, s, CompleteFork(refs));
    var n :| n in refs && n !in s.refs && refs[n] !in s.marks;
    assert Current(t);
    assert refs[n] in Tips(t) by { ForkedTip(s, refs, n); }
  }

  lemma ForkedTip(s: Repo, refs: map<Name, Oid>, n: Name)
    requires n in refs && n !in s.refs
    ensures refs[n] in (refs + s.refs).Values
  {
    assert (refs + s.refs)[n] == refs[n];
  }

  lemma KeepsRows(u: map<Oid, Object>, s: Repo, a: Action)
    requires BlobsAreBlobs(u) && Inv(u, s) && Enabled(u, s, a)
    ensures var t := Do(u, s, a);
      && t.version.Some? && t.present <= u.Keys
      && (t.checkpoint.Some? ==> t.checkpoint.value.version <= t.version.value)
      && (Current(t) ==> Marked(u, Tips(t), t.shallow, t.marks))
      && (Current(t) && t.checkpoint.value.phase != Marking ==> NoPending(t.marks))
      && GateHolds(u, t)
  {
    hide MarkLinks, MarkWalked, Markable, Outgoing, Marked, RootMarks, Stands, Verified, Closes, LinksFrom;
    match a {
      case Write(_) | BeginPush | VerifyTip(_, _, _) | ApplyUpdates(_) | VerifyImport(_, _, _, _) | ApplyImport(_) =>
        KeepsGate(u, s, a);
      case BeginStep | Restart | Look(_) | FinishMark | StartSweeping | Leave => KeepsMarking(u, s, a);
      case CompleteFork(refs) => ForkKeepsMarked(u, s, refs);
      case _ =>
    }
  }

  lemma KeepsInv(u: map<Oid, Object>, s: Repo, a: Action)
    requires BlobsAreBlobs(u) && Inv(u, s) && Enabled(u, s, a)
    ensures Inv(u, Do(u, s, a))
  {
    KeepsRows(u, s, a);
    hide Enabled, Stands, Marked, GateHolds;
    if !Do(u, s, a).torn {
      KeepsStanding(u, s, a);
    }
  }

  lemma KeepsStanding(u: map<Oid, Object>, s: Repo, a: Action)
    requires Inv(u, s) && Enabled(u, s, a) && !Do(u, s, a).torn
    ensures Stands(u, Do(u, s, a), false)
  {
    hide Verified, Follow, MarkLinks, MarkWalked, RootMarks, Outgoing, Markable, Marked;
    var t := Do(u, s, a);
    if a.ResetReclaim? || a.FinishReset? {
      assert t.refs.Values == {};
      assert Supports(u, t, {}, false);
    } else if a.ApplyImport? {
      ImportedStands(u, s, a.name);
    } else {
      StepStands(u, s, a, false);
    }
  }

  // ---- Over all runs -------------------------------------------------------------------------

  lemma {:induction false} RunsKeepInv(u: map<Oid, Object>, s: Repo, actions: seq<Action>, t: Repo)
    requires BlobsAreBlobs(u) && Inv(u, s) && Runs(u, s, actions, t)
    ensures Inv(u, t)
    decreases |actions|
  {
    hide Inv, Enabled, Do;
    if actions != [] {
      KeepsInv(u, s, actions[0]);
      RunsKeepInv(u, Do(u, s, actions[0]), actions[1..], t);
    }
  }

  lemma FreshHolds(u: map<Oid, Object>)
    ensures Inv(u, Fresh())
  {
    assert Supports(u, Fresh(), {}, false);
  }

  lemma AlwaysInv(u: map<Oid, Object>, actions: seq<Action>, s: Repo)
    requires BlobsAreBlobs(u) && Runs(u, Fresh(), actions, s)
    ensures Inv(u, s)
  {
    FreshHolds(u);
    RunsKeepInv(u, Fresh(), actions, s);
  }

  // ---- Without trusting types ------------------------------------------------------------------

  /** What an object that is here names. */
  function NamesHere(u: map<Oid, Object>, s: Repo, x: Oid): set<Oid> {
    After(ReachEdges(Held(u, s.present), s.shallow), x)
  }

  /** The mark set as far as it has come, judged by what is here: whatever a finished row names is marked. */
  ghost predicate RowsHold(u: map<Oid, Object>, s: Repo) {
    && s.version.Some?
    && (s.checkpoint.Some? ==> s.checkpoint.value.version <= s.version.value)
    && (Current(s) ==>
          && Tips(s) <= s.marks.Keys
          && forall x :: x in s.marks && !s.marks[x].pending ==> NamesHere(u, s, x) <= s.marks.Keys)
    && (Current(s) && s.checkpoint.value.phase != Marking ==> NoPending(s.marks))
    && match s.gate
       case Stepping(Some((x, links))) => InPhase(s, Marking) && x in s.marks && NamesHere(u, s, x) <= Targets(links)
       case Reclaiming(batch) => InPhase(s, Sweeping) && batch !! s.marks.Keys
       case _ => true
  }

  /** The sweep is not done with `x` while it is absent, or `x` names nothing that it would have to mark. */
  ghost predicate MayBeWritten(u: map<Oid, Object>, s: Repo, x: Oid) {
    var names := NamesHere(u, s.(present := s.present + {x}), x);
    && (Current(s) && x in s.marks && !s.marks[x].pending ==> names <= s.marks.Keys)
    && (s.gate.Stepping? && s.gate.look.Some? && s.gate.look.value.0 == x ==> names <= Targets(s.gate.look.value.1))
  }

  lemma NamesOfOthers(u: map<Oid, Object>, s: Repo, x: Oid, y: Oid)
    requires y != x
    ensures NamesHere(u, s.(present := s.present + {x}), y) == NamesHere(u, s, y)
    ensures NamesHere(u, s.(present := s.present - {x}), y) == NamesHere(u, s, y)
    ensures NamesHere(u, s.(present := s.present - {x}), x) == {}
  {
  }

  /** Writing an object keeps the mark set good exactly if it is not one that the sweep is done with as an absent
      blob and that names something unmarked. */
  lemma WriteKeepsRowsIff(u: map<Oid, Object>, s: Repo, x: Oid)
    requires RowsHold(u, s)
    ensures RowsHold(u, Do(u, s, Write(x))) <==> MayBeWritten(u, s, x)
  {
    hide NamesHere;
    forall y | y != x
      ensures NamesHere(u, Do(u, s, Write(x)), y) == NamesHere(u, s, y)
    {
      NamesOfOthers(u, s, x, y);
    }
  }

  /** If declared types are true there is no such object. */
  lemma TypedMayBeWritten(u: map<Oid, Object>, s: Repo, x: Oid)
    requires BlobsAreBlobs(u) && Inv(u, s)
    ensures MayBeWritten(u, s, x)
  {
    hide Justified, ReachedFrom, Stands, LinksFrom;
    assert NamesHere(u, s.(present := s.present + {x}), x) <= After(ReachEdges(u, s.shallow), x);
  }

  lemma NamesDepend(u: map<Oid, Object>, s: Repo, t: Repo, x: Oid)
    requires s.present == t.present && s.shallow == t.shallow
    ensures NamesHere(u, s, x) == NamesHere(u, t, x)
  {
  }

  lemma OutgoingIsNames(u: map<Oid, Object>, s: Repo, x: Oid)
    ensures Targets(Outgoing(u, s, x)) == NamesHere(u, s, x)
  {
    if x in s.present && x in u && Parses(u[x]) {
      TargetsAreNamed(u[x], x in s.shallow, true);
    }
  }

  /** Every other step keeps it, whatever the types. */
  lemma StepKeepsRows(u: map<Oid, Object>, s: Repo, a: Action)
    requires RowsHold(u, s) && Enabled(u, s, a) && !a.Write?
    ensures RowsHold(u, Do(u, s, a))
  {
    hide NamesHere, Verified, MarkLinks, MarkWalked, Outgoing, ForkVerified, RootMarks;
    var t := Do(u, s, a);
    if t.present == s.present && t.shallow == s.shallow {
      forall y
        ensures NamesHere(u, t, y) == NamesHere(u, s, y)
      {
        NamesDepend(u, s, t, y);
      }
    }
    match a {
      case CompleteFork(refs) => ForkedTips(s, refs);
      case Restart => RootRows(Tips(s));
      case Look(x) => OutgoingIsNames(u, s, x);
      case FinishMark => RowIsFinished(u, s);
      case Reclaim(x) => RemovalKeepsNames(u, s, t, x);
      case ResetReclaim(x) => RemovalKeepsNames(u, s, t, x);
      case _ =>
    }
  }

  lemma RootRows(tips: set<Oid>)
    ensures RootMarks(tips).Keys == tips && forall x :: x in tips ==> RootMarks(tips)[x].pending
  {
  }

  lemma RemovalKeepsNames(u: map<Oid, Object>, s: Repo, t: Repo, x: Oid)
    requires t.present == s.present - {x} && t.shallow == s.shallow
    ensures forall y :: NamesHere(u, t, y) == if y == x then {} else NamesHere(u, s, y)
  {
    hide NamesHere;
    forall y: Oid
      ensures NamesHere(u, t, y) == if y == x then {} else NamesHere(u, s, y)
    {
      NamesDepend(u, s.(present := s.present - {x}), t, y);
      NamesOfOthers(u, s, x, if y != x then y else x + 1);
    }
  }

  lemma RowIsFinished(u: map<Oid, Object>, s: Repo)
    requires RowsHold(u, s) && s.gate.Stepping? && s.gate.look.Some?
    ensures RowsHold(u, Do(u, s, FinishMark))
  {
    hide NamesHere, MarkLinks, MarkWalked;
    var t := Do(u, s, FinishMark);
    var (x, links) := s.gate.look.value;
    forall z | z in s.marks
      ensures z in t.marks
    {
      WalkedRow(s.marks, x, links, z);
    }
    forall z | z in t.marks && !t.marks[z].pending
      ensures NamesHere(u, t, z) <= t.marks.Keys
    {
      WalkedRow(s.marks, x, links, z);
      NamesDepend(u, s, t, z);
      forall y | y in NamesHere(u, s, z)
        ensures y in t.marks
      {
        WalkedRow(s.marks, x, links, y);
      }
    }
  }

  /** Nothing that the sweep is done with is written with unmarked links. */
  ghost predicate WritesAreFine(u: map<Oid, Object>, s: Repo, actions: seq<Action>)
    decreases |actions|
  {
    actions == [] ||
    ((actions[0].Write? ==> MayBeWritten(u, s, actions[0].x)) && WritesAreFine(u, Do(u, s, actions[0]), actions[1..]))
  }

  /** The mark set is good at the start of the run and after every step. */
  ghost predicate RowsStay(u: map<Oid, Object>, s: Repo, actions: seq<Action>)
    decreases |actions|
  {
    RowsHold(u, s) && (actions != [] ==> RowsStay(u, Do(u, s, actions[0]), actions[1..]))
  }

  lemma {:induction false} RowsStayIff(u: map<Oid, Object>, s: Repo, actions: seq<Action>, t: Repo)
    requires RowsHold(u, s) && Runs(u, s, actions, t)
    ensures RowsStay(u, s, actions) <==> WritesAreFine(u, s, actions)
    ensures WritesAreFine(u, s, actions) ==> RowsHold(u, t)
    decreases |actions|
  {
    hide RowsHold, Enabled, Do, MayBeWritten;
    if actions != [] {
      var next := Do(u, s, actions[0]);
      if actions[0].Write? {
        WriteKeepsRowsIff(u, s, actions[0].x);
      } else {
        StepKeepsRows(u, s, actions[0]);
      }
      if RowsHold(u, next) {
        RowsStayIff(u, next, actions[1..], t);
      }
    }
  }

  /** So over such runs, whatever objects call each other, no object is reclaimed that a ref reaches through what is
      here. */
  lemma SweepNeverTakesHeld(u: map<Oid, Object>, actions: seq<Action>, s: Repo, x: Oid)
    requires Runs(u, Fresh(), actions, s) && WritesAreFine(u, Fresh(), actions) && Enabled(u, s, Reclaim(x))
    ensures !ReachedFrom(ReachEdges(Held(u, s.present), s.shallow), {}, Tips(s), x)
  {
    hide Runs, WritesAreFine;
    RowsStayIff(u, Fresh(), actions, s);
    var g := ReachEdges(Held(u, s.present), s.shallow);
    hide ReachEdges, Held;
    if ReachedFrom(g, {}, Tips(s), x) {
      var r :| r in Tips(s) && Reaches(g, {}, r, x);
      assert forall y :: After(g, y) == NamesHere(u, s, y);
      ClosedHolds(g, {}, s.marks.Keys, r, x);
    }
  }

  lemma MarkedHoldsReach(u: map<Oid, Object>, tips: set<Oid>, shallow: set<Oid>, marks: map<Oid, Mark>, x: Oid)
    requires Marked(u, tips, shallow, marks) && NoPending(marks)
    requires ReachedFrom(ReachEdges(u, shallow), {}, tips, x)
    ensures x in marks
  {
    var g := ReachEdges(u, shallow);
    var r :| r in tips && Reaches(g, {}, r, x);
    hide ReachEdges, After, Justified;
    assert Closed(g, {}, marks.Keys);
    ClosedHolds(g, {}, marks.Keys, r, x);
  }

  /** Whatever was pushed, imported, swept or interrupted before: the sweep never removes an
      object that a ref still reaches. */
  lemma SweepNeverTakesReachable(u: map<Oid, Object>, actions: seq<Action>, s: Repo, x: Oid)
    requires BlobsAreBlobs(u) && Runs(u, Fresh(), actions, s) && Enabled(u, s, Reclaim(x))
    ensures !ReachedFrom(ReachEdges(u, s.shallow), {}, Tips(s), x)
  {
    hide Runs, Marked, ReachedFrom, Stands, Closes, LinksFrom, Verified, Markable;
    AlwaysInv(u, actions, s);
    if ReachedFrom(ReachEdges(u, s.shallow), {}, Tips(s), x) {
      MarkedHoldsReach(u, Tips(s), s.shallow, s.marks, x);
    }
  }

  // ---- What the refs need ----------------------------------------------------------------------

  /** Along these edges a push looks for what has to be here: all of them, or those an index tells. */
  function NeedEdges(u: map<Oid, Object>, present: set<Oid>, shallow: set<Oid>, strict: bool): Edges {
    map x | x in present && x in u && Parses(u[x]) :: Follow(u[x], x in shallow, strict)
  }

  ghost predicate Needed(u: map<Oid, Object>, s: Repo, x: Oid, strict: bool) {
    ReachedFrom(NeedEdges(u, s.present, s.shallow, strict), {}, Tips(s), x)
  }

  /** Everything the refs need is here. */
  ghost predicate Whole(u: map<Oid, Object>, s: Repo) {
    Stands(u, s, true)
  }

  /** A walk over the index from any ref finds nothing missing. */
  ghost predicate Connected(u: map<Oid, Object>, s: Repo) {
    Stands(u, s, false)
  }

  lemma SupportedIsHeld(u: map<Oid, Object>, s: Repo, c: set<Oid>, x: Oid, strict: bool)
    requires Supports(u, s, c, strict)
    ensures Needed(u, s, x, strict) ==> x in c
  {
    hide Follow;
    if Needed(u, s, x, strict) {
      var g := NeedEdges(u, s.present, s.shallow, strict);
      var r :| r in Tips(s) && Reaches(g, {}, r, x);
      assert Closed(g, {}, c);
      ClosedHolds(g, {}, c, r, x);
    }
  }

  lemma NeededNext(u: map<Oid, Object>, s: Repo, y: Oid, x: Oid, strict: bool)
    requires Needed(u, s, y, strict) && y in s.present && y in u && Parses(u[y])
    requires x in Follow(u[y], y in s.shallow, strict)
    ensures Needed(u, s, x, strict)
  {
    hide Follow;
    var g := NeedEdges(u, s.present, s.shallow, strict);
    var r :| r in Tips(s) && Reaches(g, {}, r, y);
    ReachesNext(g, {}, r, y, x);
  }

  lemma TipIsNeeded(u: map<Oid, Object>, s: Repo, r: Oid, strict: bool)
    requires r in Tips(s)
    ensures Needed(u, s, r, strict)
  {
    ReachesItself(NeedEdges(u, s.present, s.shallow, strict), {}, r);
  }

  /** What is needed supports the refs by itself. */
  lemma NeededSupports(u: map<Oid, Object>, s: Repo, c: set<Oid>, strict: bool)
    requires Supports(u, s, c, strict)
    ensures Supports(u, s, (set x | x in c && Needed(u, s, x, strict)), strict)
  {
    hide Needed, Follow;
    var d := set x | x in c && Needed(u, s, x, strict);
    forall y, x | y in d && x in Follow(u[y], y in s.shallow, strict)
      ensures x in d
    {
      NeededNext(u, s, y, x, strict);
    }
    forall r | r in Tips(s)
      ensures r in d
    {
      TipIsNeeded(u, s, r, strict);
    }
  }

  lemma WholeHolds(u: map<Oid, Object>, s: Repo, x: Oid)
    requires Whole(u, s) && Needed(u, s, x, true)
    ensures x in s.present && x in u && Parses(u[x])
  {
    hide Needed, Follow;
    var c :| Supports(u, s, c, true);
    SupportedIsHeld(u, s, c, x, true);
  }

  lemma WholeIsConnected(u: map<Oid, Object>, s: Repo)
    requires Whole(u, s)
    ensures Connected(u, s)
  {
    hide Follow;
    var c :| Supports(u, s, c, true);
    forall x | x in c
      ensures Follow(u[x], x in s.shallow, false) <= c
    {
      LooseIsLess(u[x], x in s.shallow);
    }
    assert Supports(u, s, c, false);
  }

  // ---- Hidden subtrees --------------------------------------------------------------------------

  /** A walk from `tip` over the index passes a tree that conceals an object that is missing. */
  ghost predicate TipConceals(u: map<Oid, Object>, present: set<Oid>, shallow: set<Oid>, tip: Oid) {
    exists x, y :: Reaches(NeedEdges(u, present, shallow, false), {}, tip, x) && Exposes(u, present, x, y)
  }

  /** `x` conceals `y`, which is missing. */
  predicate Exposes(u: map<Oid, Object>, present: set<Oid>, x: Oid, y: Oid) {
    x in present && x in u && Parses(u[x]) && Conceals(u[x], y) && y !in present
  }

  lemma StrictIsMore(u: map<Oid, Object>, s: Repo, x: Oid)
    requires x in s.present && x in u && Parses(u[x])
    ensures forall y :: y in Follow(u[x], x in s.shallow, true) <==>
      y in Follow(u[x], x in s.shallow, false) || Conceals(u[x], y)
  {
    hide RowNames, Conceals;
    forall y
      ensures y in Follow(u[x], x in s.shallow, true) <==>
        y in Follow(u[x], x in s.shallow, false) || Conceals(u[x], y)
    {
      ConcealedIsFile(u[x], x in s.shallow, y);
    }
  }

  lemma ConcealedIsBlob(u: map<Oid, Object>, x: Oid, y: Oid)
    requires BlobsAreBlobs(u) && x in u && Parses(u[x]) && Conceals(u[x], y)
    ensures y in u ==> u[y].Blob?
  {
    ConcealedIsFile(u[x], false, y);
  }

  /** What an index vouches for is whole exactly if none of its trees conceals an object that is missing. */
  lemma WholeIff(u: map<Oid, Object>, s: Repo)
    requires BlobsAreBlobs(u) && s.present <= u.Keys
    ensures Whole(u, s) <==> Connected(u, s) && forall r :: r in Tips(s) ==> !TipConceals(u, s.present, s.shallow, r)
  {
    hide Follow, Conceals, Exposes, BlobsAreBlobs;
    if Whole(u, s) {
      WholeIsConnected(u, s);
      forall r | r in Tips(s)
        ensures !TipConceals(u, s.present, s.shallow, r)
      {
        WholeConcealsNothing(u, s, r);
      }
    }
    if Connected(u, s) && forall r :: r in Tips(s) ==> !TipConceals(u, s.present, s.shallow, r) {
      ConnectedIsWhole(u, s);
    }
  }

  lemma WholeConcealsNothing(u: map<Oid, Object>, s: Repo, r: Oid)
    requires Whole(u, s) && r in Tips(s)
    ensures !TipConceals(u, s.present, s.shallow, r)
  {
    hide Follow, Conceals;
    var c :| Supports(u, s, c, true);
    var g := NeedEdges(u, s.present, s.shallow, false);
    forall x | x in c
      ensures After(g, x) <= c && forall y :: Conceals(u[x], y) ==> y in c
    {
      StrictIsMore(u, s, x);
    }
    forall x | Reaches(g, {}, r, x)
      ensures x in c
    {
      assert Closed(g, {}, c);
      ClosedHolds(g, {}, c, r, x);
    }
  }

  lemma ConnectedIsWhole(u: map<Oid, Object>, s: Repo)
    requires BlobsAreBlobs(u) && s.present <= u.Keys
    requires Connected(u, s) && forall r :: r in Tips(s) ==> !TipConceals(u, s.present, s.shallow, r)
    ensures Whole(u, s)
  {
    hide Follow, Conceals, Needed, BlobsAreBlobs;
    var all :| Supports(u, s, all, false);
    var c := set x | x in all && Needed(u, s, x, false);
    NeededSupports(u, s, all, false);
    var blobs := set y | y in s.present && u[y].Blob?;
    forall x | x in c
      ensures Follow(u[x], x in s.shallow, true) <= c + blobs
    {
      StrictIsMore(u, s, x);
      forall y | Conceals(u[x], y)
        ensures y in blobs
      {
        ConcealedIsBlob(u, x, y);
        NeededConcealsNothing(u, s, x, y);
      }
    }
    forall x | x in blobs
      ensures Follow(u[x], x in s.shallow, true) == {}
    {
      BlobNeedsNothing(u[x], x in s.shallow);
    }
    assert Supports(u, s, c + blobs, true);
  }

  lemma BlobNeedsNothing(o: Object, grafted: bool)
    requires o.Blob?
    ensures Follow(o, grafted, true) == {}
  {
  }

  lemma NeededConcealsNothing(u: map<Oid, Object>, s: Repo, x: Oid, y: Oid)
    requires Needed(u, s, x, false) && x in s.present && x in u && Parses(u[x]) && Conceals(u[x], y)
    requires forall r :: r in Tips(s) ==> !TipConceals(u, s.present, s.shallow, r)
    ensures y in s.present
  {
    hide Conceals;
    var r :| r in Tips(s) && Reaches(NeedEdges(u, s.present, s.shallow, false), {}, r, x);
    assert Exposes(u, s.present, x, y) <==> y !in s.present;
  }

  // ---- Resets ----------------------------------------------------------------------------------

  function Without(s: Repo, gone: set<Oid>): Repo {
    s.(present := s.present - gone)
  }

  /** Removing objects leaves the refs whole exactly when none of those removed is needed. */
  lemma RemovalKeepsWholeIff(u: map<Oid, Object>, s: Repo, gone: set<Oid>)
    requires Whole(u, s)
    ensures Whole(u, Without(s, gone)) <==> forall x :: x in gone ==> !Needed(u, s, x, true)
  {
    hide Needed, Follow;
    var c :| Supports(u, s, c, true);
    if Whole(u, Without(s, gone)) {
      var d :| Supports(u, Without(s, gone), d, true);
      assert Supports(u, s, d, true);
      forall x | x in gone
        ensures !Needed(u, s, x, true)
      {
        SupportedIsHeld(u, s, d, x, true);
      }
    }
    if forall x :: x in gone ==> !Needed(u, s, x, true) {
      NeededSupports(u, s, c, true);
      assert Supports(u, Without(s, gone), (set x | x in c && Needed(u, s, x, true)), true);
    }
  }

  /** A reset may be interrupted anywhere exactly when it finds no ref. */
  lemma ResetMayStopAnywhereIff(u: map<Oid, Object>, s: Repo)
    requires Whole(u, s)
    ensures (forall gone :: gone <= s.present ==> Whole(u, Without(s, gone))) <==> s.refs == map[]
  {
    hide Needed, Stands;
    if s.refs == map[] {
      forall gone | gone <= s.present
        ensures Whole(u, Without(s, gone))
      {
        NothingIsNeeded(u, Without(s, gone));
      }
    } else {
      var n :| n in s.refs;
      var r := s.refs[n];
      assert r in Tips(s);
      TipIsNeeded(u, s, r, true);
      TipIsPresent(u, s, r, true);
      RemovalKeepsWholeIff(u, s, {r});
      assert {r} <= s.present && !Whole(u, Without(s, {r}));
    }
  }

  lemma NothingIsNeeded(u: map<Oid, Object>, s: Repo)
    requires s.refs == map[]
    ensures Whole(u, s) && Connected(u, s)
  {
    assert s.refs.Values == {};
    assert Supports(u, s, {}, true) && Supports(u, s, {}, false);
  }

  lemma TipIsPresent(u: map<Oid, Object>, s: Repo, r: Oid, strict: bool)
    requires Stands(u, s, strict) && r in Tips(s)
    ensures r in s.present
  {
    var c :| Supports(u, s, c, strict);
  }

  lemma ReclaimedIsWithout(u: map<Oid, Object>, s: Repo, x: Oid)
    requires Enabled(u, s, ResetReclaim(x))
    ensures Whole(u, Do(u, s, ResetReclaim(x))) <==> Whole(u, Without(s, {x}))
  {
    hide Closes;
    var t := Do(u, s, ResetReclaim(x));
    assert forall c :: Supports(u, t, c, true) <==> Supports(u, Without(s, {x}), c, true);
  }

  // ---- Which steps keep the refs whole -------------------------------------------------------------

  /** A reset takes nothing that the refs need; and what a push or an import puts a ref to conceals nothing that is
      missing. */
  ghost predicate Harmless(u: map<Oid, Object>, s: Repo, a: Action) {
    match a
    case ResetReclaim(x) => !Needed(u, s, x, true)
    case ApplyUpdates(updates) =>
      forall n :: n in updates && updates[n].Some? ==> !TipConceals(u, s.present, s.shallow, updates[n].value)
    case ApplyImport(_) => s.gate.Importing? ==> !TipConceals(u, s.present, s.gate.shallow, s.gate.tip)
    case _ => true
  }

  lemma MovedConceals(u: map<Oid, Object>, s: Repo, updates: map<Name, Option<Oid>>)
    requires forall r :: r in Tips(s) ==> !TipConceals(u, s.present, s.shallow, r)
    ensures Harmless(u, s, ApplyUpdates(updates)) <==>
      forall r :: r in Moved(s.refs, updates).Values ==> !TipConceals(u, s.present, s.shallow, r)
  {
    hide TipConceals;
    var moved := Moved(s.refs, updates);
    forall n | n in updates && updates[n].Some?
      ensures updates[n].value in moved.Values
    {
      assert moved[n] == updates[n].value;
    }
    forall r | r in moved.Values
      ensures r in Tips(s) || exists n :: n in updates && updates[n] == Some(r)
    {
      var n :| n in moved && moved[n] == r;
      if n !in updates {
        assert s.refs[n] == r;
      }
    }
  }

  /** Each step keeps the refs whole exactly if it is harmless. */
  lemma StepKeepsWholeIff(u: map<Oid, Object>, s: Repo, a: Action)
    requires BlobsAreBlobs(u) && Inv(u, s) && Whole(u, s) && Enabled(u, s, a)
    ensures Whole(u, Do(u, s, a)) <==> Harmless(u, s, a)
  {
    hide Needed, Stands, GateHolds, Marked, TipConceals, Verified, MarkLinks, MarkWalked, RootMarks, Outgoing, Markable,
         BlobsAreBlobs;
    var t := Do(u, s, a);
    if a.ResetReclaim? {
      RemovalKeepsWholeIff(u, s, {a.x});
      ReclaimedIsWithout(u, s, a.x);
    } else if Accepts(a) {
      WholeIsConnected(u, s);
      StepStands(u, s, a, false);
      WholeIff(u, s);
      WholeIff(u, t);
      if a.ApplyUpdates? {
        MovedConceals(u, s, a.updates);
      } else {
        assert t.refs.Values == {s.gate.tip} by {
          assert t.refs[a.name] == s.gate.tip;
        }
      }
    } else {
      StepStands(u, s, a, true);
    }
  }

  ghost predicate Gentle(u: map<Oid, Object>, s: Repo, actions: seq<Action>)
    decreases |actions|
  {
    actions == [] || (Harmless(u, s, actions[0]) && Gentle(u, Do(u, s, actions[0]), actions[1..]))
  }

  ghost predicate WholeThroughout(u: map<Oid, Object>, s: Repo, actions: seq<Action>)
    decreases |actions|
  {
    Whole(u, s) && (actions == [] || WholeThroughout(u, Do(u, s, actions[0]), actions[1..]))
  }

  /** The refs are whole at every point of a run exactly when every step of it is harmless: pushes that stop at ref
      tips, partial graphs that failed ones leave behind, forks, sweeps and crashes always are. */
  lemma {:induction false} RunStaysWholeIff(u: map<Oid, Object>, s: Repo, actions: seq<Action>, t: Repo)
    requires BlobsAreBlobs(u) && Inv(u, s) && Whole(u, s) && Runs(u, s, actions, t)
    ensures WholeThroughout(u, s, actions) <==> Gentle(u, s, actions)
    ensures Gentle(u, s, actions) ==> Whole(u, t)
    decreases |actions|
  {
    hide Inv, Whole, Harmless, Do, Enabled;
    if actions != [] {
      var next := Do(u, s, actions[0]);
      StepKeepsWholeIff(u, s, actions[0]);
      KeepsInv(u, s, actions[0]);
      if Whole(u, next) {
        RunStaysWholeIff(u, next, actions[1..], t);
      }
    }
  }

  /** So over such a run everything a ref reaches, but for the blobs of a tree, is present and parses. */
  lemma AlwaysComplete(u: map<Oid, Object>, actions: seq<Action>, s: Repo, x: Oid)
    requires BlobsAreBlobs(u) && Runs(u, Fresh(), actions, s) && Gentle(u, Fresh(), actions)
    requires Needed(u, s, x, true)
    ensures x in s.present && x in u && Parses(u[x])
  {
    hide Inv, Runs, Needed, Gentle;
    FreshHolds(u);
    NothingIsNeeded(u, Fresh());
    RunStaysWholeIff(u, Fresh(), actions, s);
    WholeHolds(u, s, x);
  }

  /** Every reset of the run was begun without refs. */
  ghost predicate Guarded(u: map<Oid, Object>, s: Repo, actions: seq<Action>)
    decreases |actions|
  {
    actions == [] ||
    ((actions[0].BeginReset? ==> s.refs == map[]) && Guarded(u, Do(u, s, actions[0]), actions[1..]))
  }

  lemma {:induction false} GuardedNeverTears(u: map<Oid, Object>, s: Repo, actions: seq<Action>, t: Repo)
    requires Runs(u, s, actions, t) && Guarded(u, s, actions)
    requires !s.torn && (s.gate.Resetting? ==> s.refs == map[])
    ensures !t.torn
    decreases |actions|
  {
    hide Verified, MarkLinks, MarkWalked;
    if actions != [] {
      GuardedNeverTears(u, Do(u, s, actions[0]), actions[1..], t);
    }
  }

  /** If resets are only begun without refs, a walk over the index from a ref finds nothing missing after any run,
      wherever it was interrupted, and the sweeper never stops at a mark. */
  lemma GuardedRunsAreConnected(u: map<Oid, Object>, actions: seq<Action>, s: Repo)
    requires BlobsAreBlobs(u) && Runs(u, Fresh(), actions, s) && Guarded(u, Fresh(), actions)
    ensures Connected(u, s)
    ensures InPhase(s, Marking) ==> forall x :: x in s.marks ==> Markable(u, s, x)
  {
    hide Inv, Runs, Guarded, Markable, Stands;
    GuardedNeverTears(u, Fresh(), actions, s);
    AlwaysInv(u, actions, s);
    InvIsConnected(u, s);
    if InPhase(s, Marking) {
      forall x | x in s.marks
        ensures Markable(u, s, x)
      {
        ConnectedIsMarkable(u, s, x);
      }
    }
  }

  lemma InvIsConnected(u: map<Oid, Object>, s: Repo)
    requires Inv(u, s) && !s.torn
    ensures Connected(u, s)
  {
  }

  /** Every push and import of the run put refs to what conceals nothing that is missing. */
  ghost predicate Open(u: map<Oid, Object>, s: Repo, actions: seq<Action>)
    decreases |actions|
  {
    actions == [] ||
    ((Accepts(actions[0]) ==> Harmless(u, s, actions[0])) && Open(u, Do(u, s, actions[0]), actions[1..]))
  }

  /** If besides that no accepted tip conceals what is missing, the refs are whole after any run. */
  lemma GuardedRunsAreWhole(u: map<Oid, Object>, actions: seq<Action>, s: Repo)
    requires BlobsAreBlobs(u) && Runs(u, Fresh(), actions, s)
    requires Guarded(u, Fresh(), actions) && Open(u, Fresh(), actions)
    ensures Whole(u, s)
  {
    hide Inv, Runs, Guarded, Open, Whole;
    FreshHolds(u);
    NothingIsNeeded(u, Fresh());
    GuardedIsGentle(u, Fresh(), actions, s);
    RunStaysWholeIff(u, Fresh(), actions, s);
  }

  lemma {:induction false} GuardedIsGentle(u: map<Oid, Object>, s: Repo, actions: seq<Action>, t: Repo)
    requires Runs(u, s, actions, t) && Guarded(u, s, actions) && Open(u, s, actions)
    requires s.gate.Resetting? ==> s.refs == map[]
    ensures Gentle(u, s, actions)
    decreases |actions|
  {
    hide Verified, MarkLinks, MarkWalked, TipConceals, Needed, RootMarks, Outgoing;
    if actions != [] {
      if actions[0].ResetReclaim? {
        NothingToNeed(u, s, actions[0].x);
      }
      GuardedIsGentle(u, Do(u, s, actions[0]), actions[1..], t);
    }
  }

  lemma NothingToNeed(u: map<Oid, Object>, s: Repo, x: Oid)
    requires s.refs == map[]
    ensures !Needed(u, s, x, true)
  {
    assert s.refs.Values == {};
  }

  /** And any other reset can tear: begun with refs, interrupted after one object, it leaves a ref
      whose object is missing. */
  lemma UnguardedResetTears(u: map<Oid, Object>, s: Repo) returns (actions: seq<Action>, t: Repo)
    requires Inv(u, s) && Connected(u, s) && s.gate.Idle? && s.refs != map[]
    ensures Runs(u, s, actions, t) && t.gate.Idle? && t.refs == s.refs && !Connected(u, t) && !Whole(u, t)
  {
    hide Runs, Marked, GateHolds, Stands;
    var n :| n in s.refs;
    var r := s.refs[n];
    assert r in Tips(s);
    TipIsPresent(u, s, r, false);
    RunsNothing(u, s);
    actions := ThenReset(u, s, [], s, r);
    t := s.(present := s.present - {r}, torn := true);
    if Connected(u, t) {
      TipIsPresent(u, t, r, false);
    }
    if Whole(u, t) {
      TipIsPresent(u, t, r, true);
    }
  }

  /** Along any path from a ref, the objects are held, up to a blob at the end. */
  lemma {:induction false} PathIsHeld(u: map<Oid, Object>, s: Repo, c: set<Oid>, p: seq<Oid>)
    requires BlobsAreBlobs(u) && Supports(u, s, c, false)
    requires Path(ReachEdges(u, s.shallow), {}, p) && p[0] in Tips(s)
    ensures p[|p| - 1] in c || After(ReachEdges(u, s.shallow), p[|p| - 1]) == {}
    decreases |p|
  {
    var g, n := ReachEdges(u, s.shallow), |p| - 1;
    if n > 0 {
      var q := p[..n];
      assert Path(g, {}, q);
      PathIsHeld(u, s, c, q);
      var y, x := p[n - 1], p[n];
      assert x in After(g, y);
      LinkIsHeld(u, s, c, y, x);
    }
  }

  lemma LinkIsHeld(u: map<Oid, Object>, s: Repo, c: set<Oid>, y: Oid, x: Oid)
    requires BlobsAreBlobs(u) && Supports(u, s, c, false) && y in c && x in After(ReachEdges(u, s.shallow), y)
    ensures x in c || After(ReachEdges(u, s.shallow), x) == {}
  {
    hide Conceals, RowNames;
    var o, grafted := u[y], y in s.shallow;
    ConcealedIsFile(o, grafted, x);
    if x !in Named(o, grafted, false) {
      assert Names(o, false, true, Link(x, BlobKind));
    }
  }

  lemma ReachedIsHeld(u: map<Oid, Object>, s: Repo, c: set<Oid>, x: Oid)
    requires BlobsAreBlobs(u) && Supports(u, s, c, false) && ReachedFrom(ReachEdges(u, s.shallow), {}, Tips(s), x)
    ensures x in c || After(ReachEdges(u, s.shallow), x) == {}
  {
    var g := ReachEdges(u, s.shallow);
    var r :| r in Tips(s) && Reaches(g, {}, r, x);
    var p :| Path(g, {}, p) && p[0] == r && p[|p| - 1] == x;
    PathIsHeld(u, s, c, p);
  }

  lemma NamedIsHeld(u: map<Oid, Object>, s: Repo, c: set<Oid>, y: Oid, l: Link)
    requires Supports(u, s, c, false) && y in c && NamesFirst(u, s.shallow, y, l)
    ensures l.oid in c || l.kind == BlobKind
  {
    var o, grafted := u[y], y in s.shallow;
    FirstIsNamed(u, s.shallow, y, l);
    if l.kind != BlobKind {
      FirstIsFollowed(o, grafted, l);
    }
  }

  /** An index keeps the first link of each target. */
  lemma FirstIsFollowed(o: Object, grafted: bool, l: Link)
    requires Parses(o) && FirstLink(LinksToReach(o, grafted), l.oid) == Some(l) && l.kind != BlobKind
    ensures l.oid in RowNames(o, grafted)
  {
    FirstLinkExists(LinksToReach(o, grafted), l.oid);
    LinksAreNames(o, grafted, true, l);
    if o.Tree? {
      FirstIsFile(o.entries, l.oid);
    }
  }

  lemma NamingIsAnEdge(u: map<Oid, Object>, shallow: set<Oid>, y: Oid, l: Link)
    requires NamesLink(u, shallow, y, l)
    ensures l.oid in After(ReachEdges(u, shallow), y)
  {
    NamedIff(u[y], y in shallow, true, l.oid);
  }

  lemma Reason(u: map<Oid, Object>, s: Repo, x: Oid) returns (y: Oid)
    requires Marked(u, Tips(s), s.shallow, s.marks) && x in s.marks && x !in Tips(s)
    ensures s.marks[x].expected.Some? && NamesFirst(u, s.shallow, y, Link(x, s.marks[x].expected.value))
    ensures ReachedFrom(ReachEdges(u, s.shallow), {}, Tips(s), y)
  {
    hide ReachedFrom, NamesFirst, ReachEdges, After;
    assert Justified(u, Tips(s), s.shallow, s.marks, x);
    y :| y in s.marks && NamesFirst(u, s.shallow, y, Link(x, s.marks[x].expected.value));
  }

  lemma MarkIsHeld(u: map<Oid, Object>, s: Repo, c: set<Oid>, x: Oid)
    requires BlobsAreBlobs(u) && Supports(u, s, c, false) && Marked(u, Tips(s), s.shallow, s.marks) && x in s.marks
    ensures x in c || s.marks[x].expected == Some(BlobKind)
  {
    hide ReachedFrom, NamesLink, NamesFirst, After, ReachEdges, Marked, BlobsAreBlobs, Closes;
    if x !in c {
      var y := Reason(u, s, x);
      var l := Link(x, s.marks[x].expected.value);
      FirstIsNamed(u, s.shallow, y, l);
      NamingIsAnEdge(u, s.shallow, y, l);
      ReachedIsHeld(u, s, c, y);
      NamedIsHeld(u, s, c, y, l);
    }
  }

  /** While a walk from the refs finds nothing missing the sweeper never meets a marked object it must refuse: one
      that is missing is called a blob, and one that is present parses. */
  lemma SweeperNeverStuck(u: map<Oid, Object>, actions: seq<Action>, s: Repo, x: Oid)
    requires BlobsAreBlobs(u) && Runs(u, Fresh(), actions, s) && Connected(u, s)
    requires InPhase(s, Marking) && x in s.marks
    ensures Markable(u, s, x)
  {
    hide Inv, Runs, Stands, Markable;
    AlwaysInv(u, actions, s);
    ConnectedIsMarkable(u, s, x);
  }

  lemma ConnectedIsMarkable(u: map<Oid, Object>, s: Repo, x: Oid)
    requires BlobsAreBlobs(u) && Inv(u, s) && Connected(u, s) && Current(s) && x in s.marks
    ensures Markable(u, s, x)
  {
    hide Marked, ReachedFrom, GateHolds, Follow;
    var c :| Supports(u, s, c, false);
    MarkIsHeld(u, s, c, x);
    if x !in c && x in s.present {
      MarkedIsJustified(u, Tips(s), s.shallow, s.marks, x);
      CalledBlob(u, Tips(s), s.shallow, s.marks, x);
    }
  }

  lemma MarkedIsJustified(u: map<Oid, Object>, tips: set<Oid>, shallow: set<Oid>, marks: map<Oid, Mark>, x: Oid)
    requires Marked(u, tips, shallow, marks) && x in marks
    ensures Justified(u, tips, shallow, marks, x)
  {
  }

  lemma CalledBlob(u: map<Oid, Object>, tips: set<Oid>, shallow: set<Oid>, marks: map<Oid, Mark>, x: Oid)
    requires BlobsAreBlobs(u) && x in marks && marks[x].expected == Some(BlobKind) && x in u
    requires Justified(u, tips, shallow, marks, x)
    ensures u[x].Blob?
  {
    var y :| y in marks && NamesFirst(u, shallow, y, Link(x, BlobKind));
    FirstIsNamed(u, shallow, y, Link(x, BlobKind));
    assert Names(u[y], false, true, Link(x, BlobKind));
  }

  /** A sweep that finishes has left only what a ref reaches. */
  lemma FinishedSweepIsExact(u: map<Oid, Object>, actions: seq<Action>, s: Repo, x: Oid)
    requires BlobsAreBlobs(u) && Runs(u, Fresh(), actions, s) && Enabled(u, s, FinishSweep) && x in s.present
    ensures ReachedFrom(ReachEdges(u, s.shallow), {}, Tips(s), x)
  {
    AlwaysInv(u, actions, s);
    hide ReachedFrom, ReachEdges, After, Closes;
  }

  // ---- What the hypotheses are for -------------------------------------------------------------

  lemma {:induction false} RunsThen(u: map<Oid, Object>, s: Repo, actions: seq<Action>, t: Repo, a: Action)
    requires Runs(u, s, actions, t) && Enabled(u, t, a)
    ensures Runs(u, s, actions + [a], Do(u, t, a))
    decreases |actions|
  {
    hide Enabled, Do;
    if actions == [] {
      assert ([a])[1..] == [];
    } else {
      RunsThen(u, Do(u, s, actions[0]), actions[1..], t, a);
      assert (actions + [a])[1..] == actions[1..] + [a];
    }
  }

  /** The walk of an object whose row, or bytes, name nothing to follow. */
  lemma LeafVerifies(u: map<Oid, Object>, present: set<Oid>, indexed: set<Oid>, tip: Oid)
    requires tip in present && tip in u && Parses(u[tip]) && ValidStore(Store(Held(u, present), indexed))
    requires After(WalkEdges(Store(Held(u, present), indexed), {}), tip) == {}
    ensures Verified(u, present, indexed, {}, {}, tip, {}, {tip})
  {
    var g := WalkEdges(Store(Held(u, present), indexed), {});
    ReachesItself(g, {}, tip);
    forall x | Reaches(g, {}, tip, x)
      ensures x == tip
    {
      ClosedHolds(g, {}, {tip}, tip, x);
    }
  }

  /** One more step of a run that began in `s0`. */
  lemma Then(u: map<Oid, Object>, s0: Repo, actions: seq<Action>, s: Repo, a: Action, t: Repo)
      returns (longer: seq<Action>)
    requires Runs(u, s0, actions, s) && Enabled(u, s, a) && Do(u, s, a) == t
    ensures Runs(u, s0, longer, t)
  {
    hide Enabled, Do, Runs;
    RunsThen(u, s0, actions, s, a);
    longer := actions + [a];
  }

  lemma ThenWrite(u: map<Oid, Object>, s0: Repo, before: seq<Action>, s: Repo, x: Oid) returns (actions: seq<Action>)
    requires Runs(u, s0, before, s) && x in u
    ensures Runs(u, s0, actions, s.(present := s.present + {x}))
  {
    hide Runs;
    actions := Then(u, s0, before, s, Write(x), s.(present := s.present + {x}));
  }

  lemma ThenLeave(u: map<Oid, Object>, s0: Repo, before: seq<Action>, s: Repo) returns (actions: seq<Action>)
    requires Runs(u, s0, before, s)
    ensures Runs(u, s0, actions, s.(gate := Idle))
  {
    hide Runs;
    actions := Then(u, s0, before, s, Leave, s.(gate := Idle));
  }

  lemma ThenBegin(u: map<Oid, Object>, s0: Repo, before: seq<Action>, s: Repo) returns (actions: seq<Action>)
    requires Runs(u, s0, before, s) && s.gate == Idle
    ensures Runs(u, s0, actions, s.(gate := Stepping(None)))
  {
    hide Runs;
    actions := Then(u, s0, before, s, BeginStep, s.(gate := Stepping(None)));
  }

  lemma ThenSelect(u: map<Oid, Object>, s0: Repo, before: seq<Action>, s: Repo, x: Oid) returns (actions: seq<Action>)
    requires Runs(u, s0, before, s) && s.gate == Stepping(None) && InPhase(s, Sweeping)
    requires x in s.present && x !in s.marks
    ensures Runs(u, s0, actions, s.(gate := Reclaiming({x})))
    ensures Enabled(u, s.(gate := Reclaiming({x})), Reclaim(x))
  {
    hide Runs;
    actions := Then(u, s0, before, s, SelectUnmarked({x}), s.(gate := Reclaiming({x})));
  }

  lemma ThenRestart(u: map<Oid, Object>, s0: Repo, before: seq<Action>, s: Repo, marks: map<Oid, Mark>)
      returns (actions: seq<Action>)
    requires Runs(u, s0, before, s) && s.gate == Stepping(None) && !Current(s) && marks == RootMarks(Tips(s))
    ensures Runs(u, s0, actions, s.(marks := marks, checkpoint := Some(Checkpoint(Marking, CurrentVersion(s)))))
  {
    hide Runs;
    actions := Then(u, s0, before, s, Restart,
      s.(marks := marks, checkpoint := Some(Checkpoint(Marking, CurrentVersion(s)))));
  }

  lemma ThenSweep(u: map<Oid, Object>, s0: Repo, before: seq<Action>, s: Repo) returns (actions: seq<Action>)
    requires Runs(u, s0, before, s) && s.gate == Stepping(None) && InPhase(s, Marking) && NoPending(s.marks)
    ensures Runs(u, s0, actions, s.(checkpoint := Some(Checkpoint(Sweeping, CurrentVersion(s)))))
  {
    hide Runs;
    actions := Then(u, s0, before, s, StartSweeping, s.(checkpoint := Some(Checkpoint(Sweeping, CurrentVersion(s)))));
  }

  /** Without the repository row nothing counts the push, the finished mark set still looks
      current, and the sweep takes an object a ref names. */
  lemma PushWithoutRowIsSwept() returns (u: map<Oid, Object>, actions: seq<Action>, s: Repo)
    ensures BlobsAreBlobs(u) && Runs(u, Fresh().(version := None), actions, s)
    ensures Enabled(u, s, Reclaim(1)) && 1 in Tips(s) && 1 in s.present
  {
    hide Runs, Enabled;
    u := map[1 := Blob];
    var s0 := Fresh().(version := None);
    RunsNothing(u, s0);
    actions := SweepNothing(u, s0, [], s0);
    s := s0.(checkpoint := Some(Checkpoint(Sweeping, 0)));
    actions := ThenWrite(u, s0, actions, s, 1);
    s := s.(present := s.present + {1});
    LeafVerifies(u, s.present, {}, 1);
    actions := PushLeaf(u, s0, actions, s, 1, {});
    s := s.(refs := map[0 := 1]);
    actions := ThenBegin(u, s0, actions, s);
    s := s.(gate := Stepping(None));
    actions := ThenSelect(u, s0, actions, s, 1);
    s := s.(gate := Reclaiming({1}));
    assert s.refs[0] == 1;
  }

  /** A push of one object that a walk finds complete by itself, under the first ref name. */
  lemma PushLeaf(u: map<Oid, Object>, s0: Repo, before: seq<Action>, s: Repo, x: Oid, indexed: set<Oid>)
      returns (actions: seq<Action>)
    requires Runs(u, s0, before, s) && s.gate == Idle && s.refs == map[] && s.shallow == {}
    requires Verified(u, s.present, indexed, {}, {}, x, {}, {x})
    ensures Runs(u, s0, actions, s.(refs := map[0 := x], version := Bumped(s.version)))
  {
    hide Runs, Verified;
    actions := Then(u, s0, before, s, BeginPush, s.(gate := Pushing({})));
    var none: set<Oid> := {};
    assert Tips(s) + none == {};
    actions := Then(u, s0, actions, s.(gate := Pushing({})), VerifyTip(x, {x}, indexed), s.(gate := Pushing({x})));
    var updates := map[0 := Some(x)];
    assert Moved(map[], updates) == map[0 := x];
    actions := Then(u, s0, actions, s.(gate := Pushing({x})), ApplyUpdates(updates),
                    s.(refs := map[0 := x], version := Bumped(s.version)));
  }

  /** A sweep of a repository without refs runs through to its sweeping phase. */
  lemma SweepNothing(u: map<Oid, Object>, s0: Repo, before: seq<Action>, s: Repo) returns (actions: seq<Action>)
    requires Runs(u, s0, before, s)
    requires s.gate == Idle && s.refs == map[] && s.checkpoint == None
    ensures Runs(u, s0, actions, s.(marks := map[], checkpoint := Some(Checkpoint(Sweeping, CurrentVersion(s)))))
  {
    hide Runs;
    var a := s.(gate := Stepping(None));
    var b := a.(marks := map[], checkpoint := Some(Checkpoint(Marking, CurrentVersion(s))));
    var c := b.(checkpoint := Some(Checkpoint(Sweeping, CurrentVersion(s))));
    assert RootMarks(Tips(a)) == map[];
    actions := ThenBegin(u, s0, before, s);
    actions := ThenRestart(u, s0, actions, a, map[]);
    actions := ThenSweep(u, s0, actions, b);
    actions := ThenLeave(u, s0, actions, c);
  }

  /** A fork that completed while a sweep was under way would lose what it copied: its refs
      do not change the version. */
  lemma ForkDuringSweepIsSwept()
      returns (u: map<Oid, Object>, actions: seq<Action>, s: Repo, after: seq<Action>, t: Repo)
    ensures BlobsAreBlobs(u) && Runs(u, Fresh(), actions, s)
    ensures s.gate == Idle && Verified(u, s.present, {}, s.shallow, {}, 1, {}, {1}) && s.checkpoint.Some?
    ensures Runs(u, Do(u, s, CompleteFork(map[0 := 1])), after, t)
    ensures Enabled(u, t, Reclaim(1)) && 1 in Tips(t) && 1 in t.present
  {
    hide Runs, Enabled, Verified;
    u := map[1 := Blob];
    RunsNothing(u, Fresh());
    actions := SweepNothing(u, Fresh(), [], Fresh());
    s := Fresh().(checkpoint := Some(Checkpoint(Sweeping, 0)));
    actions := ThenWrite(u, Fresh(), actions, s, 1);
    s := s.(present := s.present + {1});
    LeafVerifies(u, s.present, {}, 1);
    var forked := s.(refs := map[0 := 1]);
    var none: map<Name, Oid> := map[];
    assert map[0 := 1] + none == map[0 := 1];
    assert Do(u, s, CompleteFork(map[0 := 1])) == forked;
    RunsNothing(u, forked);
    after := ThenBegin(u, forked, [], forked);
    after := ThenSelect(u, forked, after, forked.(gate := Stepping(None)), 1);
    t := forked.(gate := Reclaiming({1}));
    assert t.refs[0] == 1;
  }

  lemma RunsNothing(u: map<Oid, Object>, s: Repo)
    ensures Runs(u, s, [], s)
  {
  }

  lemma ThenReset(u: map<Oid, Object>, s0: Repo, before: seq<Action>, s: Repo, x: Oid) returns (actions: seq<Action>)
    requires Runs(u, s0, before, s) && s.gate == Idle && x in s.present && s.refs != map[]
    ensures Runs(u, s0, actions, s.(present := s.present - {x}, torn := true))
  {
    hide Runs;
    actions := Then(u, s0, before, s, BeginReset, s.(gate := Resetting(s.present)));
    var t := s.(present := s.present - {x}, gate := Resetting(s.present - {x}), torn := true);
    actions := Then(u, s0, actions, s.(gate := Resetting(s.present)), ResetReclaim(x), t);
    actions := ThenLeave(u, s0, actions, t);
  }

  /** A reset that crashes half way leaves a ref without its object. */
  lemma InterruptedResetTears() returns (u: map<Oid, Object>, actions: seq<Action>, s: Repo)
    ensures BlobsAreBlobs(u) && Runs(u, Fresh(), actions, s) && s.gate == Idle
    ensures 1 in Tips(s) && 1 !in s.present && s.torn
  {
    hide Runs;
    u := map[1 := Blob];
    var s0 := Fresh();
    RunsNothing(u, s0);
    actions := ThenWrite(u, s0, [], s0, 1);
    s := s0.(present := s0.present + {1});
    LeafVerifies(u, s.present, {}, 1);
    actions := PushLeaf(u, s0, actions, s, 1, {});
    s := s.(refs := map[0 := 1], version := Some(1));
    assert s.refs[0] == 1;
    actions := ThenReset(u, s0, actions, s, 1);
    s := s.(present := s.present - {1}, torn := true);
  }

  /** A push of a tree that names an object as a file and then as a subtree, without that object: the walk over
      the index finds nothing missing, the ref moves, and what it needs is not there. */
  lemma HiddenSubtreeIsPushed() returns (u: map<Oid, Object>, actions: seq<Action>, s: Repo)
    ensures BlobsAreBlobs(u) && Runs(u, Fresh(), actions, s) && !s.torn
    ensures 1 in Tips(s) && Needed(u, s, 7, true) && 7 !in s.present && Connected(u, s) && !Whole(u, s)
  {
    hide Runs, Verified, Stands, Needed, BlobsAreBlobs, Inv;
    u := map[1 := Tree([File(7), Subtree(7)])];
    var s0 := Fresh();
    RunsNothing(u, s0);
    actions := ThenWrite(u, s0, [], s0, 1);
    s := s0.(present := s0.present + {1});
    HiddenRow(u);
    LeafVerifies(u, s.present, {1}, 1);
    actions := PushLeaf(u, s0, actions, s, 1, {1});
    s := s.(refs := map[0 := 1], version := Some(1));
    assert s.refs[0] == 1;
    HiddenIsNeeded(u, s);
    AlwaysInv(u, actions, s);
    InvIsConnected(u, s);
  }

  lemma HiddenRow(u: map<Oid, Object>)
    requires u == map[1 := Tree([File(7), Subtree(7)])]
    ensures BlobsAreBlobs(u) && ValidStore(Store(Held(u, {1}), {1}))
    ensures After(WalkEdges(Store(Held(u, {1}), {1}), {}), 1) == {}
  {
    HiddenSubtree();
    IndexTells(u[1], false);
  }

  lemma HiddenIsNeeded(u: map<Oid, Object>, s: Repo)
    requires u == map[1 := Tree([File(7), Subtree(7)])] && s.present == {1} && s.shallow == {} && Tips(s) == {1}
    ensures Needed(u, s, 7, true) && !Whole(u, s)
  {
    HiddenSubtree();
    TipIsNeeded(u, s, 1, true);
    NeededNext(u, s, 1, 7, true);
    hide Stands, Needed;
    if Whole(u, s) {
      WholeHolds(u, s, 7);
    }
  }

  /** A step of the sweep marks one object. */
  lemma MarkOne(
      u: map<Oid, Object>, s0: Repo, before: seq<Action>, s: Repo, x: Oid, links: seq<Link>, marks: map<Oid, Mark>)
      returns (actions: seq<Action>)
    requires Runs(u, s0, before, s) && Enabled(u, s, Look(x)) && Outgoing(u, s, x) == links
    requires marks == MarkWalked(MarkLinks(s.marks, links), x)
    ensures Runs(u, s0, actions, s.(marks := marks))
  {
    hide Runs, MarkLinks, MarkWalked, Outgoing;
    var looking := s.(gate := Stepping(Some((x, links))));
    actions := Then(u, s0, before, s, Look(x), looking);
    actions := Then(u, s0, actions, looking, FinishMark, s.(marks := marks));
  }

  /** A tree that calls another tree a file. */
  function Mistyped(): map<Oid, Object> {
    map[1 := Tree([File(2)]), 2 := Tree([Subtree(3)]), 3 := Tree([])]
  }

  function MistypedSweep(present: set<Oid>, phase: Phase, marks: map<Oid, Mark>, gate: Gate): Repo {
    Repo(present, map[0 := 1], {}, Some(1), Some(Checkpoint(phase, 1)), marks, gate, false)
  }

  lemma MistypedBegins() returns (actions: seq<Action>)
    ensures Runs(Mistyped(), Fresh(), actions,
                 MistypedSweep({1}, Marking, map[1 := Mark(None, true)], Stepping(None)))
  {
    hide Runs;
    var u, s0 := Mistyped(), Fresh();
    RunsNothing(u, s0);
    actions := ThenWrite(u, s0, [], s0, 1);
    var s := s0.(present := {1});
    assert s0.present + {1} == {1};
    LeafVerifies(u, s.present, {}, 1);
    actions := PushLeaf(u, s0, actions, s, 1, {});
    s := s.(refs := map[0 := 1], version := Some(1));
    assert s.refs[0] == 1;
    actions := ThenBegin(u, s0, actions, s);
    s := s.(gate := Stepping(None));
    assert RootMarks(Tips(s)) == map[1 := Mark(None, true)];
    actions := ThenRestart(u, s0, actions, s, map[1 := Mark(None, true)]);
  }

  lemma MistypedMarking() returns (actions: seq<Action>)
    ensures Runs(Mistyped(), Fresh(), actions,
                 MistypedSweep({1}, Marking, map[1 := Mark(None, false), 2 := Mark(Some(BlobKind), false)],
                   Stepping(None)))
  {
    hide Runs, MarkLinks, MarkWalked;
    var u, s0 := Mistyped(), Fresh();
    actions := MistypedBegins();
    MistypedMarks(u);
    var m1 := map[1 := Mark(None, true)];
    var m2 := map[1 := Mark(None, false), 2 := Mark(Some(BlobKind), true)];
    var m3 := map[1 := Mark(None, false), 2 := Mark(Some(BlobKind), false)];
    actions := MarkOne(u, s0, actions, MistypedSweep({1}, Marking, m1, Stepping(None)), 1, [Link(2, BlobKind)], m2);
    actions := MarkOne(u, s0, actions, MistypedSweep({1}, Marking, m2, Stepping(None)), 2, [], m3);
  }

  lemma MistypedSweeps() returns (actions: seq<Action>, s: Repo)
    ensures Runs(Mistyped(), Fresh(), actions, s)
    ensures s == MistypedSweep({1, 2, 3}, Sweeping, map[1 := Mark(None, false), 2 := Mark(Some(BlobKind), false)],
      Reclaiming({3}))
    ensures Enabled(Mistyped(), s, Reclaim(3))
  {
    hide Runs;
    var u, s0 := Mistyped(), Fresh();
    actions := MistypedMarking();
    var m3 := map[1 := Mark(None, false), 2 := Mark(Some(BlobKind), false)];
    s := MistypedSweep({1}, Marking, m3, Stepping(None));
    actions := ThenSweep(u, s0, actions, s);
    s := MistypedSweep({1}, Sweeping, m3, Stepping(None));
    actions := ThenLeave(u, s0, actions, s);
    s := s.(gate := Idle);
    actions := ThenWrite(u, s0, actions, s, 2);
    s := s.(present := s.present + {2});
    actions := ThenWrite(u, s0, actions, s, 3);
    s := s.(present := s.present + {3});
    actions := ThenBegin(u, s0, actions, s);
    s := s.(gate := Stepping(None));
    actions := ThenSelect(u, s0, actions, s, 3);
    s := s.(gate := Reclaiming({3}));
    assert {1} + {2} + {3} == {1, 2, 3};
  }

  /** Marked while absent, then written by a push that was refused, the second tree keeps
      nothing alive, and the sweep takes what a ref reaches through it. */
  lemma MistypedLinkIsSwept() returns (u: map<Oid, Object>, actions: seq<Action>, s: Repo)
    ensures Runs(u, Fresh(), actions, s) && !s.torn && Enabled(u, s, Reclaim(3))
    ensures !BlobsAreBlobs(u) && ReachedFrom(ReachEdges(u, s.shallow), {}, Tips(s), 3)
  {
    hide Runs, ReachEdges, BlobsAreBlobs, Reaches, Mistyped, Enabled;
    u := Mistyped();
    actions, s := MistypedSweeps();
    MistypedReaches(u);
    assert s.refs[0] == 1;
  }

  lemma MistypedMarks(u: map<Oid, Object>)
    requires u == Mistyped()
    ensures LinksToReach(u[1], false) == [Link(2, BlobKind)]
    ensures var m1, m2 := map[1 := Mark(None, true)], map[1 := Mark(None, false), 2 := Mark(Some(BlobKind), true)];
            && MarkWalked(MarkLinks(m1, [Link(2, BlobKind)]), 1) == m2
            && MarkWalked(MarkLinks(m2, []), 2) == map[1 := Mark(None, false), 2 := Mark(Some(BlobKind), false)]
  {
    var m1 := map[1 := Mark(None, true)];
    var links := [Link(2, BlobKind)];
    assert links[1..] == [];
    assert MarkLinks(m1, links) == MarkLink(m1, links[0]);
  }

  lemma MistypedReaches(u: map<Oid, Object>)
    requires u == Mistyped()
    ensures Reaches(ReachEdges(u, {}), {}, 1, 3) && !BlobsAreBlobs(u)
  {
    var g := ReachEdges(u, {});
    assert File(2) in u[1].entries && Subtree(3) in u[2].entries;
    assert Names(u[1], false, true, Link(2, BlobKind));
    assert 2 in After(g, 1) && 3 in After(g, 2);
    ReachesItself(g, {}, 1);
    ReachesNext(g, {}, 1, 1, 2);
    ReachesNext(g, {}, 1, 2, 3);
  }
}
