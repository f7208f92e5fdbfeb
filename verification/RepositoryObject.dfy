/** The repository's operations as they are carried out on its rows, each shown to be a
    run of the state machine. */
module RepositoryObject {
  import opened Options
  import opened Graph
  import opened Connectivity
  import opened Sweep
  import Commands

  /** What the repository is trusted with: a name always means the same object, and what is called a blob is
      one. */
  ghost predicate Trusted(u: map<Oid, Object>) {
    BlobsAreBlobs(u)
  }

  ghost predicate GraftsAreCommits(u: map<Oid, Object>, shallow: set<Oid>) {
    forall x :: x in shallow && x in u ==> KindOf(u[x]) == CommitKind
  }

  /** The first `limit` rows in the order of their names. */
  ghost predicate IsBatch(rows: set<Oid>, limit: nat, batch: seq<Oid>) {
    && (forall i :: 0 <= i < |batch| ==> batch[i] in rows)
    && (forall i, j :: 0 <= i < j < |batch| ==> batch[i] < batch[j])
    && (forall i, x :: 0 <= i < |batch| && x in rows && x !in batch ==> batch[i] < x)
    && (|batch| < limit ==> forall x :: x in rows ==> x in batch)
    && |batch| <= limit
  }

  method FirstRow(rows: set<Oid>) returns (least: Oid)
    requires rows != {}
    ensures least in rows && forall x :: x in rows ==> least <= x
  {
    least :| least in rows;
    var rest := rows - {least};
    while rest != {}
      invariant rest <= rows && least in rows
      invariant forall x :: x in rows ==> x in rest || least <= x
      decreases rest
    {
      var x :| x in rest;
      if x < least {
        least := x;
      }
      rest := rest - {x};
    }
  }

  method FirstRows(rows: set<Oid>, limit: nat) returns (batch: seq<Oid>)
    ensures IsBatch(rows, limit, batch)
  {
    batch := [];
    var rest := rows;
    while |batch| < limit && rest != {}
      invariant IsBatch(rows, |batch|, batch) && |batch| <= limit
      invariant forall x :: x in rows <==> x in batch || x in rest
      invariant forall x :: x in rest ==> x !in batch
      decreases rest
    {
      var x := FirstRow(rest);
      batch, rest := batch + [x], rest - {x};
    }
  }

  function Walked(marks: map<Oid, Mark>): set<Oid> {
    set x | x in marks && !marks[x].pending
  }

  function Pending(marks: map<Oid, Mark>): set<Oid> {
    set x | x in marks && marks[x].pending
  }

  /** The rows selected at `seen` that are still to be marked. */
  ghost predicate StillPending(seen: map<Oid, Mark>, marks: map<Oid, Mark>, batch: seq<Oid>, i: nat) {
    && Walked(seen) <= Walked(marks)
    && (forall j :: i <= j < |batch| ==> batch[j] in marks && marks[batch[j]].pending)
    && (forall x :: x in seen && seen[x].expected.Some? ==> x in marks && marks[x].expected == seen[x].expected)
  }

  lemma StillPendingNext(
      seen: map<Oid, Mark>, marks: map<Oid, Mark>, batch: seq<Oid>, i: nat, links: seq<Link>, all: map<Oid, Mark>)
    requires StillPending(seen, marks, batch, i) && i < |batch|
    requires forall j, k :: 0 <= j < k < |batch| ==> batch[j] < batch[k]
    requires all == MarkWalked(MarkLinks(marks, links), batch[i])
    ensures StillPending(seen, all, batch, i + 1) && batch[i] in Walked(all)
    ensures Walked(marks) <= Walked(all) <= Walked(marks) + {batch[i]}
  {
    hide MarkLinks, MarkWalked;
    var x := batch[i];
    forall z
      ensures z in marks ==> z in all
      ensures z in marks && marks[z].expected.Some? ==> all[z].expected == marks[z].expected
      ensures z in all && !all[z].pending <==> z in marks && (z == x || !marks[z].pending)
    {
      WalkedRow(marks, x, links, z);
    }
  }

  /** Of the rows that are finished no more than these were not before. */
  ghost predicate OnlyThese(seen: map<Oid, Mark>, marks: map<Oid, Mark>, batch: seq<Oid>) {
    Walked(marks) - Walked(seen) <= Members(batch)
  }

  lemma OnlyTheseNext(seen: map<Oid, Mark>, marks: map<Oid, Mark>, batch: seq<Oid>, i: nat, all: map<Oid, Mark>)
    requires i < |batch| && OnlyThese(seen, marks, batch[..i]) && Walked(all) <= Walked(marks) + {batch[i]}
    ensures OnlyThese(seen, all, batch[..i + 1])
  {
    hide Walked;
    FrontierNext(batch, i);
  }

  lemma NoneOfThese(seen: map<Oid, Mark>, batch: seq<Oid>)
    ensures OnlyThese(seen, seen, batch[..0])
  {
  }

  lemma FewFinished(seen: map<Oid, Mark>, marks: map<Oid, Mark>, batch: seq<Oid>, batchSize: nat)
    requires OnlyThese(seen, marks, batch) && |batch| <= batchSize
    ensures |Walked(marks) - Walked(seen)| <= batchSize
  {
    hide Walked;
    FewRows(Walked(marks) - Walked(seen), batch, batchSize);
  }

  lemma {:induction false} FewMembers(batch: seq<Oid>)
    ensures |Members(batch)| <= |batch|
  {
    if batch != [] {
      var n := |batch| - 1;
      FewMembers(batch[..n]);
      assert batch == batch[..n] + [batch[n]];
      assert Members(batch) == Members(batch[..n]) + {batch[n]};
    }
  }

  lemma FewRows(some: set<Oid>, batch: seq<Oid>, batchSize: nat)
    requires some <= Members(batch) && |batch| <= batchSize
    ensures |some| <= batchSize
  {
    FewMembers(batch);
    SubsetIsSmaller(some, Members(batch));
  }

  lemma FewGone(rows: set<Oid>, left: set<Oid>, batch: seq<Oid>, batchSize: nat)
    requires left == rows - Members(batch) && |batch| <= batchSize
    ensures |rows - left| <= batchSize
  {
    FewRows(rows - left, batch, batchSize);
  }

  lemma NoneWalked(tips: set<Oid>)
    ensures Walked(RootMarks(tips)) == {}
  {
  }

  /** No more than so many objects were removed, and so many rows finished. */
  ghost predicate IsBounded(before: Repo, after: Repo, batchSize: nat) {
    && |before.present - after.present| <= batchSize
    && |Walked(after.marks) - Walked(before.marks)| <= batchSize
  }

  lemma MarkingIsBounded(before: Repo, after: Repo, batchSize: nat)
    requires before.present == after.present && |Walked(after.marks) - Walked(before.marks)| <= batchSize
    ensures IsBounded(before, after, batchSize)
  {
    assert before.present - after.present == {};
  }

  lemma SweepingIsBounded(before: Repo, after: Repo, batchSize: nat)
    requires after.marks == before.marks && |before.present - after.present| <= batchSize
    ensures IsBounded(before, after, batchSize)
  {
    assert Walked(after.marks) - Walked(before.marks) == {};
  }

  lemma ResumedIsBounded(before: Repo, begun: Repo, after: Repo, batchSize: nat)
    requires IsBounded(begun, after, batchSize)
    requires before.present == begun.present && Walked(begun.marks) <= Walked(before.marks)
    ensures IsBounded(before, after, batchSize)
  {
    hide Walked;
    SubsetIsSmaller(Walked(after.marks) - Walked(before.marks), Walked(after.marks) - Walked(begun.marks));
  }

  lemma SubsetIsSmaller(a: set<Oid>, b: set<Oid>)
    requires a <= b
    ensures |a| <= |b|
  {
    assert b == a + (b - a);
  }

  /** Objects were only removed, and the links index with them. */
  predicate Shrunk(before: map<Oid, Object>, after: map<Oid, Object>) {
    forall x :: x in after ==> x in before && after[x] == before[x]
  }

  // ---- How far a sweep has come -------------------------------------------------------------

  ghost function Rank(s: Repo): nat {
    if !Current(s) || s.checkpoint.value.phase == Swept then 3
    else if s.checkpoint.value.phase == Marking then 2 else 1
  }

  ghost function Todo(u: map<Oid, Object>, s: Repo): set<Oid> {
    if Rank(s) == 2 then AllNames(ReachEdges(u, s.shallow), Tips(s)) - Walked(s.marks)
    else s.present - s.marks.Keys
  }

  ghost predicate Further(u: map<Oid, Object>, s: Repo, t: Repo) {
    Rank(t) < Rank(s) || (Rank(t) == Rank(s) && Todo(u, t) < Todo(u, s))
  }

  lemma MarkingIsFurther(u: map<Oid, Object>, s: Repo, t: Repo)
    requires Inv(u, t) && InPhase(s, Marking) && Current(t)
    requires s.refs == t.refs && s.shallow == t.shallow && s.version == t.version
    requires t.checkpoint.value.phase == Sweeping || (t.checkpoint == s.checkpoint && Walked(s.marks) < Walked(t.marks))
    ensures Further(u, s, t)
  {
    hide Inv, AllNames, Walked, ReachEdges;
    if t.checkpoint.value.phase == Marking {
      MarksAreNamed(u, t);
    }
  }

  lemma SweepingIsFurther(u: map<Oid, Object>, s: Repo, t: Repo)
    requires InPhase(s, Sweeping) && t.checkpoint == s.checkpoint && t.version == s.version
    requires t.marks == s.marks && t.present < s.present
    requires forall x :: x in s.present && x !in t.present ==> x !in s.marks
    ensures Further(u, s, t)
  {
    assert s.present == t.present + (s.present - t.present);
    assert s.present - t.present != {};
    var gone :| gone in s.present - t.present;
    assert gone in Todo(u, s) && gone !in Todo(u, t);
  }

  /** A turn that began by starting over is further if it left the first phase's start behind. */
  lemma RestartIsFurther(u: map<Oid, Object>, s: Repo, t: Repo)
    requires Rank(s) == 3 && Current(t) && t.checkpoint.value.phase != Swept
    ensures Further(u, s, t)
  {
  }

  /** The store a walk reads from. */
  function StoreOf(objects: map<Oid, Object>, indexed: set<Oid>): Store {
    Store(objects, indexed)
  }

  /** What `arrived` adds: objects already here stay as they are. */
  function Added(objects: map<Oid, Object>, arrived: map<Oid, Object>): map<Oid, Object> {
    arrived + objects
  }

  datatype StepResult = Advanced | Missing(oid: Oid)

  class Repository {
    ghost const u: map<Oid, Object>
    var objects: map<Oid, Object>
    var indexed: set<Oid>
    var refs: map<Name, Oid>
    var shallow: set<Oid>
    var version: Option<nat>
    var checkpoint: Option<Checkpoint>
    var marks: map<Oid, Mark>
    ghost var torn: bool

    ghost function State(): Repo
      reads this
    {
      Repo(objects.Keys, refs, shallow, version, checkpoint, marks, Idle, torn)
    }

    ghost predicate Valid()
      reads this
    {
      && Trusted(u) && Inv(u, State())
      && (forall x :: x in objects ==> x in u && objects[x] == u[x])
      && (forall x :: x in indexed ==> x in objects && Parses(objects[x]))
      && GraftsAreCommits(u, shallow)
    }

    constructor (ghost u: map<Oid, Object>)
      requires Trusted(u)
      ensures Valid() && this.u == u && State() == Fresh()
    {
      this.u := u;
      objects, indexed, refs, shallow := map[], {}, map[], {};
      version, checkpoint, marks, torn := Some(0), None, map[], false;
      new;
      assert State() == Fresh();
      FreshHolds(u);
    }

    // ---- The sweep --------------------------------------------------------------------------

    /** Starts the walk over from the refs. */
    method Reset()
      modifies this`marks, this`checkpoint
      ensures marks == RootMarks(Tips(State()))
      ensures checkpoint == Some(Checkpoint(Marking, CurrentVersion(State())))
    {
      marks := map[];
      checkpoint := Some(Checkpoint(Marking, if version.Some? then version.value else 0));
      var roots := refs.Values;
      while roots != {}
        invariant roots <= refs.Values
        invariant marks == RootMarks(refs.Values - roots)
        invariant checkpoint == Some(Checkpoint(Marking, CurrentVersion(State())))
        decreases roots
      {
        var x :| x in roots;
        if x !in marks {
          marks := marks[x := Mark(None, true)];
        }
        roots := roots - {x};
      }
      assert refs.Values - {} == refs.Values;
    }

    method FinishMark(x: Oid, links: seq<Link>)
      modifies this`marks
      ensures marks == MarkWalked(MarkLinks(old(marks), links), x)
    {
      for i := 0 to |links|
        invariant MarkLinks(old(marks), links) == MarkLinks(marks, links[i..])
      {
        var l := links[i];
        if l.oid !in marks {
          marks := marks[l.oid := Mark(Some(l.kind), true)];
        } else if marks[l.oid].expected.None? {
          marks := marks[l.oid := marks[l.oid].(expected := Some(l.kind))];
        }
      }
      if x in marks {
        marks := marks[x := marks[x].(pending := false)];
      }
    }

    /** Marks one batch of pending rows, and starts sweeping when none is left. It stops at
        an object it cannot account for, which only a torn repository has. */
    method MarkBatch(batchSize: nat, ghost s0: Repo, ghost before: seq<Action>)
        returns (stuck: Option<Oid>, ghost actions: seq<Action>)
      requires Valid() && batchSize > 0 && InPhase(State(), Marking)
      requires Runs(u, s0, before, State().(gate := Stepping(None)))
      modifies this`marks, this`checkpoint
      ensures Runs(u, s0, actions, State().(gate := Stepping(None)))
      ensures stuck.Some? ==> stuck.value in old(marks) && !Markable(u, old(State()), stuck.value)
      ensures stuck.Some? ==> torn && !Connected(u, old(State()))
      ensures if stuck.None? && NoPending(marks) then checkpoint == Some(old(checkpoint.value).(phase := Sweeping))
              else checkpoint == old(checkpoint)
      ensures stuck.None? && !NoPending(marks) ==> Walked(old(marks)) < Walked(marks)
      ensures |Walked(marks) - Walked(old(marks))| <= batchSize
    {
      hide Runs, MarkLinks, MarkWalked, Inv, Trusted, Walked, StillPending, Stands, OnlyThese, Members;
      ghost var begun := State();
      var seen := marks;
      var batch := FirstRows(Pending(marks), batchSize);
      assert StillPending(seen, marks, batch, 0) by { SelectionIsPending(marks, batchSize, batch); }
      actions := before;
      var i := 0;
      NoneOfThese(seen, batch);
      while i < |batch|
        invariant 0 <= i <= |batch|
        invariant checkpoint == begun.checkpoint
        invariant StillPending(seen, marks, batch, i) && OnlyThese(seen, marks, batch[..i])
        invariant if i > 0 then batch[0] in Walked(marks) else marks == seen
        invariant Runs(u, s0, actions, State().(gate := Stepping(None)))
        decreases |batch| - i
      {
        var x := batch[i];
        RowIsPending(seen, marks, batch, i, batchSize);
        var links: seq<Link> := [];
        if x !in objects {
          if seen[x].expected != Some(BlobKind) {
            StuckIsTorn(u, begun, x);
            FewFinished(seen, marks, batch[..i], batchSize);
            return Some(x), actions;
          }
        } else if !objects[x].Blob? {
          if !Parses(objects[x]) {
            StuckIsTorn(u, begun, x);
            FewFinished(seen, marks, batch[..i], batchSize);
            return Some(x), actions;
          }
          links := LinksToReach(objects[x], x in shallow);
        }
        ghost var all := MarkWalked(MarkLinks(marks, links), x);
        StillPendingNext(seen, marks, batch, i, links, all);
        OnlyTheseNext(seen, marks, batch, i, all);
        actions := MarkOne(u, s0, actions, State().(gate := Stepping(None)), x, links, all);
        FinishMark(x, links);
        i := i + 1;
      }
      stuck := None;
      FewFinished(seen, marks, batch[..i], batchSize);
      if forall x :: x in marks ==> !marks[x].pending {
        actions := ThenSweep(u, s0, actions, State().(gate := Stepping(None)));
        checkpoint := Some(checkpoint.value.(phase := Sweeping));
      }
      BatchWalked(seen, marks, batch, batchSize);
    }

    /** Reclaims the rows of a batch, one after another. */
    method ReclaimBatch(batch: seq<Oid>, ghost s0: Repo, ghost before: seq<Action>)
        returns (ghost actions: seq<Action>)
      requires indexed <= objects.Keys && forall j, k :: 0 <= j < k < |batch| ==> batch[j] < batch[k]
      requires Runs(u, s0, before, State().(gate := Reclaiming(Members(batch))))
      modifies this`objects, this`indexed
      ensures Runs(u, s0, actions, State().(gate := Reclaiming({})))
      ensures Shrunk(old(objects), objects) && indexed == old(indexed) * objects.Keys
      ensures objects.Keys == old(objects).Keys - Members(batch)
    {
      hide Runs, Members;
      actions := before;
      ghost var left := Members(batch);
      var i := 0;
      NothingYet(batch);
      while i < |batch|
        invariant 0 <= i <= |batch|
        invariant Shrunk(old(objects), objects) && indexed == old(indexed) * objects.Keys
        invariant objects.Keys == old(objects).Keys - Members(batch[..i]) && left == Members(batch[i..])
        invariant Runs(u, s0, actions, State().(gate := Reclaiming(left)))
        decreases |batch| - i
      {
        var x := batch[i];
        FrontierNext(batch, i);
        actions := ThenReclaim(u, s0, actions, State(), left, x);
        RestOfBatch(batch, i);
        left := left - {x};
        objects, indexed := objects - {x}, indexed - {x};
        i := i + 1;
      }
      EverythingDone(batch);
    }

    /** Reclaims one batch of rows that no mark names, and completes when none is left. */
    method SweepBatch(batchSize: nat, ghost s0: Repo, ghost before: seq<Action>) returns (ghost actions: seq<Action>)
      requires Valid() && batchSize > 0 && InPhase(State(), Sweeping)
      requires Runs(u, s0, before, State().(gate := Stepping(None)))
      modifies this`objects, this`indexed, this`checkpoint
      ensures Runs(u, s0, actions, State())
      ensures Shrunk(old(objects), objects) && indexed == old(indexed) * objects.Keys
      ensures |old(objects).Keys - objects.Keys| <= batchSize
      ensures forall x :: x in old(objects) && x !in objects ==> x !in marks
      ensures if objects.Keys <= marks.Keys then checkpoint == Some(old(checkpoint.value).(phase := Swept))
              else checkpoint == old(checkpoint) && objects.Keys < old(objects.Keys)
    {
      hide Runs, Inv, Trusted, Members, Shrunk;
      ghost var rows := objects.Keys;
      var batch := FirstRows(objects.Keys - marks.Keys, batchSize);
      BatchMembers(rows - marks.Keys, batchSize, batch);
      actions := ThenSelectAll(u, s0, before, State().(gate := Stepping(None)), Members(batch));
      actions := ReclaimBatch(batch, s0, actions);
      FewGone(rows, objects.Keys, batch, batchSize);
      if objects.Keys <= marks.Keys {
        actions := ThenFinish(u, s0, actions, State());
        checkpoint := Some(checkpoint.value.(phase := Swept));
        actions := ThenLeave(u, s0, actions, State().(gate := Stepping(None)));
      } else {
        LeftOver(rows, marks.Keys, batchSize, batch);
        actions := ThenLeave(u, s0, actions, State().(gate := Reclaiming({})));
      }
    }

    /** Starts over when there is no walk of the current refs to go on with. */
    method Resume(ghost s0: Repo, ghost before: seq<Action>) returns (ghost actions: seq<Action>)
      requires Valid() && s0 == State() && Runs(u, s0, before, s0.(gate := Stepping(None)))
      modifies this`checkpoint, this`marks
      ensures Valid() && Current(State()) && checkpoint.value.phase != Swept
      ensures Runs(u, s0, actions, State().(gate := Stepping(None)))
      ensures if Rank(s0) == 3 then checkpoint.value.phase == Marking else State() == s0
      ensures Walked(marks) <= Walked(s0.marks)
    {
      hide Runs, Inv, Trusted, Walked;
      actions := before;
      if checkpoint.None? || checkpoint.value.phase == Swept
         || checkpoint.value.version != (if version.Some? then version.value else 0) {
        Reset();
        NoneWalked(refs.Values);
        actions := Then(u, s0, actions, s0.(gate := Stepping(None)), Restart, State().(gate := Stepping(None)));
        StillValid(u, s0, actions, State().(gate := Stepping(None)));
      }
    }

    /** A turn that marks. */
    method MarkTurn(batchSize: nat, ghost s0: Repo, ghost before: seq<Action>)
        returns (r: StepResult, ghost actions: seq<Action>)
      requires Valid() && batchSize > 0 && InPhase(State(), Marking) && Inv(u, s0)
      requires Runs(u, s0, before, State().(gate := Stepping(None)))
      modifies this`marks, this`checkpoint
      ensures Valid() && Runs(u, s0, actions, State()) && Current(State()) && checkpoint.value.phase != Swept
      ensures r.Missing? ==> torn && !Connected(u, old(State()))
      ensures IsBounded(old(State()), State(), batchSize)
      ensures r.Advanced? ==> Further(u, old(State()), State())
    {
      hide Runs, Inv, Trusted, Walked, Further, Stands, IsBounded;
      ghost var begun := State();
      var stuck;
      stuck, actions := MarkBatch(batchSize, s0, before);
      MarkingIsBounded(begun, State(), batchSize);
      StillValid(u, s0, actions, State().(gate := Stepping(None)));
      actions := ThenLeave(u, s0, actions, State().(gate := Stepping(None)));
      r := if stuck.Some? then Missing(stuck.value) else Advanced;
      if r.Advanced? {
        MarkingIsFurther(u, begun, State());
      }
    }

    /** A turn that sweeps. */
    method SweepTurn(batchSize: nat, ghost s0: Repo, ghost before: seq<Action>) returns (ghost actions: seq<Action>)
      requires Valid() && batchSize > 0 && InPhase(State(), Sweeping) && Inv(u, s0)
      requires Runs(u, s0, before, State().(gate := Stepping(None)))
      modifies this`objects, this`indexed, this`checkpoint
      ensures Valid() && Runs(u, s0, actions, State()) && Current(State())
      ensures Shrunk(old(objects), objects)
      ensures forall x :: x in old(objects) && x !in objects ==>
        !ReachedFrom(ReachEdges(u, shallow), {}, refs.Values, x)
      ensures IsBounded(old(State()), State(), batchSize)
      ensures checkpoint.value.phase == Swept ==> objects.Keys <= marks.Keys
      ensures checkpoint.value.phase != Swept ==> Further(u, old(State()), State())
    {
      hide Runs, Inv, Trusted, ReachEdges, ReachedFrom, Walked, Further, IsBounded, GraftsAreCommits;
      ghost var begun := State();
      UnmarkedIsUnreached(u, begun);
      actions := SweepBatch(batchSize, s0, before);
      SweepingIsBounded(begun, State(), batchSize);
      StillValid(u, s0, actions, State());
      if !(objects.Keys <= marks.Keys) {
        SweepingIsFurther(u, begun, State());
      }
    }

    /** One alarm turn of the sweep. It changes no ref, removes only what no ref reaches, fails only in a torn
        repository, removes and finishes no more than its batch, and always gets further. */
    method Step(batchSize: nat) returns (r: StepResult, ghost actions: seq<Action>)
      requires Valid() && batchSize > 0
      modifies this`objects, this`indexed, this`checkpoint, this`marks
      ensures Valid() && Runs(u, old(State()), actions, State()) && Current(State())
      ensures r.Missing? ==> torn && !Connected(u, old(State()))
      ensures old(Whole(u, State())) ==> Whole(u, State())
      ensures old(Connected(u, State())) ==> Connected(u, State())
      ensures Shrunk(old(objects), objects)
      ensures forall x :: x in old(objects) && x !in objects ==>
        !ReachedFrom(ReachEdges(u, shallow), {}, refs.Values, x)
      ensures IsBounded(old(State()), State(), batchSize)
      ensures checkpoint.value.phase == Swept ==> objects.Keys <= marks.Keys
      ensures r.Advanced? && checkpoint.value.phase != Swept ==> Further(u, old(State()), State())
    {
      hide Runs, Inv, Trusted, ReachEdges, ReachedFrom, Walked, AllNames, Further, Todo, Stands, IsBounded;
      ghost var s0 := State();
      RunsNothing(u, s0);
      actions := ThenBegin(u, s0, [], s0);
      actions := Resume(s0, actions);
      ghost var begun := State();
      StandsAlike(u, s0, begun);
      if checkpoint.value.phase == Marking {
        r, actions := MarkTurn(batchSize, s0, actions);
        StandsAlike(u, s0, State());
      } else {
        actions := SweepTurn(batchSize, s0, actions);
        UnreachedLeavesStanding(u, s0, State(), true);
        UnreachedLeavesStanding(u, s0, State(), false);
        r := Advanced;
      }
      ResumedIsBounded(s0, begun, State(), batchSize);
      if Rank(s0) == 3 && checkpoint.value.phase != Swept {
        RestartIsFurther(u, s0, State());
      }
    }

    /** The alarm that re-arms itself until a sweep completes: what is left is what was there
        and a ref reaches. */
    method SweepUntilComplete(batchSize: nat) returns (r: StepResult)
      requires Valid() && batchSize > 0
      modifies this`objects, this`indexed, this`checkpoint, this`marks
      ensures Valid() && Shrunk(old(objects), objects)
      ensures r.Missing? ==> torn && !Connected(u, old(State()))
      ensures r.Advanced? ==>
        forall x :: x in objects <==> x in old(objects) && ReachedFrom(ReachEdges(u, shallow), {}, refs.Values, x)
    {
      hide Runs, Inv, Trusted, ReachEdges, ReachedFrom, Todo, Rank, Stands, IsBounded;
      ghost var g, tips := ReachEdges(u, shallow), refs.Values;
      ghost var actions: seq<Action>;
      r, actions := Step(batchSize);
      while r.Advanced? && checkpoint.value.phase != Swept
        invariant Valid() && Current(State()) && (r.Missing? ==> torn && !Connected(u, old(State())))
        invariant old(Whole(u, State())) ==> Whole(u, State())
        invariant old(Connected(u, State())) ==> Connected(u, State())
        invariant Shrunk(old(objects), objects)
        invariant forall x :: x in old(objects) && x !in objects ==> !ReachedFrom(g, {}, tips, x)
        invariant checkpoint.value.phase == Swept ==> objects.Keys <= marks.Keys
        decreases r.Advanced? && checkpoint.value.phase != Swept, Rank(State()), Todo(u, State())
      {
        r, actions := Step(batchSize);
      }
      if r.Advanced? {
        forall x | x in objects
          ensures ReachedFrom(g, {}, tips, x)
        {
          MarkIsReached(u, State(), x);
        }
      }
    }

    // ---- Pushes -----------------------------------------------------------------------------

    /** Nothing happens when the object is already here; what parses is indexed. */
    method WriteObject(x: Oid, o: Object)
      requires Valid() && x in u && u[x] == o
      modifies this`objects, this`indexed
      ensures Valid() && objects == if x in old(objects) then old(objects) else old(objects)[x := o]
      ensures State() == old(State()).(present := old(State()).present + {x})
    {
      hide Inv, Trusted, GraftsAreCommits;
      ghost var s := State();
      WritingHolds(u, s, x);
      if x !in objects {
        objects := objects[x := o];
        if Parses(o) {
          indexed := indexed + {x};
        }
      }
      assert State() == s.(present := s.present + {x});
    }

    /** The objects of a pack arrive one after another. */
    method WriteObjects(arrived: map<Oid, Object>, ghost s0: Repo, ghost before: seq<Action>, ghost gate: Gate)
        returns (ghost actions: seq<Action>)
      requires Valid() && (forall x :: x in arrived ==> x in u && arrived[x] == u[x])
      requires Runs(u, s0, before, State().(gate := gate))
      modifies this`objects, this`indexed
      ensures Valid() && objects == Added(old(objects), arrived)
      ensures Runs(u, s0, actions, State().(gate := gate))
    {
      hide Runs, Inv, Valid;
      actions := before;
      var names := arrived.Keys;
      while names != {}
        invariant names <= arrived.Keys && Valid()
        invariant objects.Keys == old(objects).Keys + (arrived.Keys - names)
        invariant forall x :: x in objects ==> objects[x] == if x in old(objects) then old(objects)[x] else arrived[x]
        invariant Runs(u, s0, actions, State().(gate := gate))
        decreases names
      {
        var x :| x in names;
        actions := ThenWrite(u, s0, actions, State().(gate := gate), x);
        WriteObject(x, arrived[x]);
        names := names - {x};
      }
    }

    /** Everything a walk needs to know of the store. */
    lemma StoreIsGrafted()
      requires Valid()
      ensures GraftedStore(StoreOf(objects, indexed), shallow)
      ensures Held(u, objects.Keys) == objects
    {
      hide Inv, BlobsAreBlobs;
    }

    /** What the refs need is here exactly if no tree behind them conceals an object that is missing, whatever was
        pushed before, unless a reset tore it. */
    lemma IsWholeIff()
      requires Valid() && !torn
      ensures Whole(u, State()) <==> forall r :: r in refs.Values ==> !TipConceals(u, objects.Keys, shallow, r)
    {
      hide Stands, TipConceals, BlobsAreBlobs;
      InvIsConnected(u, State());
      WholeIff(u, State());
    }

    /** Whether every new value is complete, with what one command saw carried to the next. */
    method VerifyAll(
        commands: seq<Commands.Command>, reasons: seq<Option<Commands.Rejection>>, ghost s0: Repo,
        ghost before: seq<Action>)
        returns (statuses: seq<Option<Commands.Rejection>>, ghost visited: set<Oid>, ghost actions: seq<Action>)
      requires Valid() && |reasons| == |commands|
      requires forall i :: 0 <= i < |commands| ==> reasons[i] == Commands.Screened(commands, refs, i)
      requires Runs(u, s0, before, State().(gate := Pushing({})))
      ensures |statuses| == |commands|
      ensures var store := StoreOf(objects, indexed);
        forall i :: 0 <= i < |commands| ==>
          Commands.Judged(store, WalkEdges(store, shallow), refs.Values, commands, refs, i, statuses[i])
      ensures Runs(u, s0, actions, State().(gate := Pushing(visited)))
      ensures forall i :: 0 <= i < |commands| && statuses[i].None? && commands[i].newOid.Some? ==>
        commands[i].newOid.value in refs.Values + visited
    {
      hide Runs, Inv, Trusted, GraftsAreCommits, Complete, Reaches, GraftedStore, Held, Holds, WalkEdges, WalkedBefore;
      StoreIsGrafted();
      var store := StoreOf(objects, indexed);
      ghost var g, tips := WalkEdges(StoreOf(objects, indexed), shallow), refs.Values;
      var walk := new Walk(refs.Values, shallow);
      statuses, actions := [], before;
      NothingWalked(store, shallow, tips);
      for i := 0 to |commands|
        invariant walk.verified == refs.Values && walk.shallow == shallow
        invariant |statuses| == i
        invariant WalkedBefore(store, shallow, tips, walk.visited)
        invariant forall j :: 0 <= j < i ==> Commands.Judged(store, g, tips, commands, refs, j, statuses[j])
        invariant forall j :: 0 <= j < i && statuses[j].None? && commands[j].newOid.Some? ==>
          commands[j].newOid.value in tips + walk.visited
        invariant Runs(u, s0, actions, State().(gate := Pushing(walk.visited)))
      {
        var status := reasons[i];
        if status.None? && commands[i].newOid.Some? {
          var tip := commands[i].newOid.value;
          ghost var seen := walk.visited;
          var missing := walk.FindMissingObject(store, tip);
          VisitedDoesNotMatter(store, shallow, tips, seen, tip);
          if missing.Some? {
            FewerStops(g, tips + seen, tips, tip, missing.value);
            status := Some(Commands.MissingObjects(missing.value));
          } else {
            FoundIsVerified(u, store, shallow, tips, tip, seen, walk.visited);
            actions := ThenVerify(u, s0, actions, State(), seen, tip, walk.visited, indexed);
          }
        }
        statuses := statuses + [status];
      }
      visited := walk.visited;
    }

    /** One transaction: the refs move, and the version counts it. */
    method ApplyUpdates(updates: seq<Commands.Command>)
      modifies this`refs, this`version
      ensures refs == Moved(old(refs), Commands.AsMap(updates)) && version == Bumped(old(version))
    {
      hide Moved, Commands.AsMap;
      ghost var before := refs;
      MovedByNothing(refs);
      for i := 0 to |updates|
        invariant refs == Moved(before, Commands.AsMap(updates[..i])) && version == old(version)
      {
        var c := updates[i];
        assert updates[..i + 1] == updates[..i] + [c];
        Commands.AsMapAppend(updates[..i], c);
        MovedNext(before, Commands.AsMap(updates[..i]), c.name, c.newOid);
        if c.newOid.None? {
          refs := refs - {c.name};
        } else {
          refs := refs[c.name := c.newOid.value];
        }
      }
      assert updates[..|updates|] == updates;
      version := if version.Some? then Some(version.value + 1) else None;
    }

    /** Each command is judged, and those that go ahead move their refs in one transaction,
        unless the push is atomic and one of them may not. */
    method UpdateRefs(
        commands: seq<Commands.Command>, reasons: seq<Option<Commands.Rejection>>, atomic: bool, ghost s0: Repo,
        ghost before: seq<Action>)
        returns (statuses: seq<Option<Commands.Rejection>>, ghost actions: seq<Action>)
      requires Valid() && |reasons| == |commands| && Inv(u, s0)
      requires forall i :: 0 <= i < |commands| ==> reasons[i] == Commands.Screened(commands, refs, i)
      requires Runs(u, s0, before, State().(gate := Pushing({})))
      modifies this`refs, this`version
      ensures Valid() && Runs(u, s0, actions, State())
      ensures var store := StoreOf(objects, indexed);
        Reported(store, WalkEdges(store, shallow), old(refs), commands, atomic, statuses, refs)
    {
      hide Runs, Inv, Trusted, GraftsAreCommits, WalkEdges, Commands.Judged, Moved, Reported, Commands.Screened,
           Commands.AsMap, Commands.Accepted;
      ghost var s := State();
      ghost var store, g := StoreOf(objects, indexed), WalkEdges(StoreOf(objects, indexed), shallow);
      ghost var visited: set<Oid>;
      statuses, visited, actions := VerifyAll(commands, reasons, s0, before);
      if atomic && exists i :: 0 <= i < |statuses| && statuses[i].Some? {
        ghost var judged := statuses;
        statuses := seq(|commands|, i requires 0 <= i < |statuses| =>
          if statuses[i].Some? then statuses[i] else Some(Commands.AtomicFailed));
        AtomicReported(store, g, s.refs, commands, judged, statuses);
        actions := ThenLeave(u, s0, actions, s.(gate := Pushing(visited)));
        return;
      }
      var updates := Commands.Accepted(commands, statuses);
      if updates == [] {
        NothingReported(store, g, s.refs, commands, atomic, statuses);
        actions := ThenLeave(u, s0, actions, s.(gate := Pushing(visited)));
        return;
      }
      AcceptedReported(store, g, s.refs, commands, atomic, statuses);
      AcceptedAreVerified(commands, statuses, s.refs.Values + visited);
      ApplyUpdates(updates);
      actions := ThenApply(u, s0, actions, s, visited, Commands.AsMap(updates));
      StillValid(u, s0, actions, State());
    }

    /** A push from its commands to its report. Objects are written before anything is
        checked, and stay whatever becomes of the push. */
    method ReceivePack(commands: seq<Commands.Command>, atomic: bool, arrived: map<Oid, Object>, unpacked: bool)
        returns (statuses: seq<Option<Commands.Rejection>>, ghost actions: seq<Action>)
      requires Valid() && (forall x :: x in arrived ==> x in u && arrived[x] == u[x])
      modifies this`objects, this`indexed, this`refs, this`version
      ensures Valid() && Runs(u, old(State()), actions, State())
      ensures |statuses| == |commands|
      ensures var packed := exists i :: 0 <= i < |commands| && commands[i].newOid.Some?;
        objects == if packed then Added(old(objects), arrived) else old(objects)
      ensures if !unpacked && exists i :: 0 <= i < |commands| && commands[i].newOid.Some? then
                refs == old(refs) && forall i :: 0 <= i < |commands| ==> statuses[i] == Some(Commands.Unpacker)
              else
                var store := StoreOf(objects, indexed);
                Reported(store, WalkEdges(store, shallow), old(refs), commands, atomic, statuses, refs)
    {
      hide Runs, Inv, Trusted, GraftsAreCommits, WalkEdges, Commands.Judged, Commands.Screened;
      ghost var s0 := State();
      RunsNothing(u, s0);
      actions := ThenPush(u, s0);
      var reasons := Commands.ScreenCommands(commands, refs);
      if exists i :: 0 <= i < |commands| && commands[i].newOid.Some? {
        actions := WriteObjects(arrived, s0, actions, Pushing({}));
        if !unpacked {
          actions := ThenLeave(u, s0, actions, State().(gate := Pushing({})));
          statuses := seq(|commands|, i => Some(Commands.Unpacker));
          return;
        }
      }
      statuses, actions := UpdateRefs(commands, reasons, atomic, s0, actions);
    }

    // ---- Imports ----------------------------------------------------------------------------

    /** One transaction replaces the refs by the imported branch, if its walk found nothing
        missing. */
    method InstallBranch(name: Name, tip: Oid, imported: set<Oid>, ghost s0: Repo, ghost before: seq<Action>)
        returns (ok: bool, ghost actions: seq<Action>)
      requires Valid() && Inv(u, s0) && Runs(u, s0, before, State())
      requires imported <= objects.Keys && forall x :: x in imported ==> KindOf(objects[x]) == CommitKind
      modifies this`refs, this`shallow, this`version, this`torn
      ensures Valid() && Runs(u, s0, actions, State())
      ensures ok <==> Complete(StoreOf(objects, indexed), WalkEdges(StoreOf(objects, indexed), imported), {}, tip)
      ensures ok ==> refs == map[name := tip] && shallow == imported && version == Bumped(old(version)) && !torn
      ensures !ok ==> State() == old(State())
    {
      hide Runs, Inv, Trusted, Complete, Reaches, GraftedStore, WalkEdges, WalkedBefore, GraftsAreCommits, Verified,
           Held;
      actions := before;
      ok := false;
      ImportIsGrafted(imported);
      var store := StoreOf(objects, indexed);
      var walk := new Walk({}, imported);
      var none: set<Oid> := {};
      assert none + none == none;
      var missing := walk.FindMissingObject(store, tip);
      if missing.Some? {
        return;
      }
      ghost var s := State();
      NothingWalked(store, imported, {});
      FoundIsVerified(u, store, imported, {}, tip, {}, walk.visited);
      actions := ThenImport(u, s0, actions, s, name, tip, imported, walk.visited, indexed);
      refs, shallow, torn := map[name := tip], imported, false;
      version := if version.Some? then Some(version.value + 1) else None;
      StillValid(u, s0, actions, State());
      ok := true;
    }

    /** An import: what arrived is written, the grafts kept are those that arrived as commits,
        and the branch is installed if everything it needs is here. */
    method ImportBranch(name: Name, tip: Oid, advertised: set<Oid>, arrived: map<Oid, Object>, unpacked: bool)
        returns (ok: bool, ghost actions: seq<Action>)
      requires Valid() && (forall x :: x in arrived ==> x in u && arrived[x] == u[x])
      modifies this`objects, this`indexed, this`refs, this`shallow, this`version, this`torn
      ensures Valid() && Runs(u, old(State()), actions, State())
      ensures objects == Added(old(objects), arrived)
      ensures var grafts, store := Grafts(objects, advertised), StoreOf(objects, indexed);
              && (ok <==> unpacked && Complete(store, WalkEdges(store, grafts), {}, tip))
              && (ok ==> refs == map[name := tip] && shallow == grafts && version == Bumped(old(version)) && !torn)
      ensures ok ==>
        forall x :: x in shallow <==> x in advertised && x in objects && KindOf(objects[x]) == CommitKind
      ensures !ok ==> State() == old(State()).(present := objects.Keys)
    {
      hide Runs, Inv, Trusted, Complete, WalkEdges, Valid;
      ghost var s0 := State();
      ValidIsInv();
      RunsNothing(u, s0);
      actions := WriteObjects(arrived, s0, [], Idle);
      ok := false;
      if unpacked {
        var imported := KeepGrafts(advertised);
        ok, actions := InstallBranch(name, tip, imported, s0, actions);
      }
    }

    lemma ValidIsInv()
      requires Valid()
      ensures Inv(u, State())
    {
    }

    method KeepGrafts(advertised: set<Oid>) returns (imported: set<Oid>)
      ensures imported == Grafts(objects, advertised)
      ensures forall x :: x in imported <==> x in advertised && x in objects && KindOf(objects[x]) == CommitKind
    {
      imported := {};
      var left := advertised;
      while left != {}
        invariant left <= advertised && imported == Grafts(objects, advertised - left)
        decreases left
      {
        var x :| x in left;
        if x in objects && KindOf(objects[x]) == CommitKind {
          imported := imported + {x};
        }
        left := left - {x};
      }
      assert advertised - {} == advertised;
    }

    lemma ImportIsGrafted(imported: set<Oid>)
      requires Valid() && imported <= objects.Keys
      requires forall x :: x in imported ==> KindOf(objects[x]) == CommitKind
      ensures GraftedStore(StoreOf(objects, indexed), imported) && Held(u, objects.Keys) == objects
      ensures GraftsAreCommits(u, imported)
    {
      hide Inv, BlobsAreBlobs;
    }

    /** Reclaims what the reset found, one object at a time, up to `limit` of them: all, or as many
        as it got to before the process died. */
    method ReclaimUpTo(limit: nat, ghost s0: Repo, ghost before: seq<Action>)
        returns (ghost todo: set<Oid>, ghost actions: seq<Action>)
      requires indexed <= objects.Keys && Runs(u, s0, before, State().(gate := Resetting(objects.Keys)))
      modifies this`objects, this`indexed, this`torn
      ensures Runs(u, s0, actions, State().(gate := Resetting(todo)))
      ensures todo == objects.Keys && (limit >= |old(objects)| ==> objects == map[])
      ensures torn == (old(torn) || (refs != map[] && limit > 0 && old(objects) != map[]))
      ensures Shrunk(old(objects), objects) && indexed == old(indexed) * objects.Keys
    {
      hide Runs;
      actions := before;
      var stored := objects.Keys;
      var done := 0;
      while stored != {} && done < limit
        invariant objects.Keys == stored && done <= limit
        invariant done + |stored| == |old(objects).Keys|
        invariant torn == (old(torn) || (refs != map[] && done > 0))
        invariant Shrunk(old(objects), objects) && indexed == old(indexed) * objects.Keys
        invariant Runs(u, s0, actions, State().(gate := Resetting(stored)))
        decreases stored
      {
        var x :| x in stored;
        ghost var s := State();
        objects, indexed, torn := objects - {x}, indexed - {x}, torn || refs != map[];
        actions := ThenResetOne(u, s0, actions, s, stored, x);
        stored := stored - {x};
        done := done + 1;
      }
      todo := stored;
    }

    /** A reset that died after some objects. It left the refs whole exactly when it took nothing they
        need, which is certain only if it found no ref. */
    method InterruptReset(limit: nat) returns (ghost actions: seq<Action>)
      requires Valid()
      modifies this`objects, this`indexed, this`torn
      ensures Valid() && Runs(u, old(State()), actions, State())
      ensures Shrunk(old(objects), objects)
      ensures old(Whole(u, State())) ==>
        (Whole(u, State()) <==>
           forall x :: x in old(objects) && x !in objects ==> !old(Needed(u, State(), x, true)))
      ensures refs == map[] ==> torn == old(torn)
    {
      hide Runs, Inv, Trusted, Stands, Needed;
      ghost var s0 := State();
      actions := ThenBeginReset(u, s0);
      ghost var todo;
      todo, actions := ReclaimUpTo(limit, s0, actions);
      actions := ThenLeave(u, s0, actions, State().(gate := Resetting(todo)));
      assert State() == State().(gate := Resetting(todo)).(gate := Idle);
      StillValid(u, s0, actions, State());
      if Whole(u, s0) {
        RemovalKeepsWholeIff(u, s0, s0.present - objects.Keys);
        StandsAlike(u, Without(s0, s0.present - objects.Keys), State());
      }
    }

    /** Back to an empty repository, one object at a time. Only the last transaction mends
        what the removals tear. */
    method ResetImport() returns (ghost actions: seq<Action>)
      requires Valid()
      modifies this
      ensures Valid() && Runs(u, old(State()), actions, State()) && State() == Fresh()
    {
      hide Runs, Inv, Trusted;
      ghost var s0 := State();
      actions := ThenBeginReset(u, s0);
      ghost var todo;
      todo, actions := ReclaimUpTo(|objects|, s0, actions);
      assert todo == {};
      ghost var s := State();
      indexed, refs, shallow, marks, checkpoint, version := {}, map[], {}, map[], None, Some(0);
      torn := false;
      actions := ThenFresh(u, s0, actions, s);
      FreshHolds(u);
    }
  }

  lemma ThenBeginReset(u: map<Oid, Object>, s: Repo) returns (actions: seq<Action>)
    requires s.gate == Idle
    ensures Runs(u, s, actions, s.(gate := Resetting(s.present)))
  {
    RunsNothing(u, s);
    hide Runs;
    actions := Then(u, s, [], s, BeginReset, s.(gate := Resetting(s.present)));
  }

  lemma ThenPush(u: map<Oid, Object>, s: Repo) returns (actions: seq<Action>)
    requires s.gate == Idle
    ensures Runs(u, s, actions, s.(gate := Pushing({})))
  {
    RunsNothing(u, s);
    hide Runs;
    actions := Then(u, s, [], s, BeginPush, s.(gate := Pushing({})));
  }

  function Grafts(objects: map<Oid, Object>, advertised: set<Oid>): set<Oid> {
    set x | x in advertised && x in objects && KindOf(objects[x]) == CommitKind
  }

  lemma ThenResetOne(u: map<Oid, Object>, s0: Repo, before: seq<Action>, s: Repo, todo: set<Oid>, x: Oid)
      returns (actions: seq<Action>)
    requires Runs(u, s0, before, s.(gate := Resetting(todo))) && x in todo
    ensures Runs(u, s0, actions,
                 s.(present := s.present - {x}, torn := s.torn || s.refs != map[], gate := Resetting(todo - {x})))
  {
    hide Runs;
    actions := Then(u, s0, before, s.(gate := Resetting(todo)), ResetReclaim(x),
                    s.(present := s.present - {x}, torn := s.torn || s.refs != map[], gate := Resetting(todo - {x})));
  }

  lemma ThenFresh(u: map<Oid, Object>, s0: Repo, before: seq<Action>, s: Repo) returns (actions: seq<Action>)
    requires Runs(u, s0, before, s.(gate := Resetting({}))) && s.present == {}
    ensures Runs(u, s0, actions, Fresh())
  {
    hide Runs;
    actions := Then(u, s0, before, s.(gate := Resetting({})), FinishReset, Fresh());
  }

  lemma ThenImport(
      u: map<Oid, Object>, s0: Repo, before: seq<Action>, s: Repo, name: Name, tip: Oid, shallow: set<Oid>,
      walked: set<Oid>, indexed: set<Oid>)
      returns (actions: seq<Action>)
    requires Runs(u, s0, before, s) && s.gate == Idle && shallow <= s.present && GraftsAreCommits(u, shallow)
    requires Verified(u, s.present, indexed, shallow, {} + {}, tip, {}, walked)
    ensures Runs(u, s0, actions,
                 s.(refs := map[name := tip], shallow := shallow, version := Bumped(s.version), torn := false))
  {
    hide Runs, Verified;
    var none: set<Oid> := {};
    assert none + none == none;
    actions := Then(
      u, s0, before, s, VerifyImport(tip, shallow, walked, indexed), s.(gate := Importing(tip, shallow, walked)));
    actions := Then(u, s0, actions, s.(gate := Importing(tip, shallow, walked)), ApplyImport(name),
                    s.(refs := map[name := tip], shallow := shallow, version := Bumped(s.version), torn := false));
  }

  lemma ThenApply(
      u: map<Oid, Object>, s0: Repo, before: seq<Action>, s: Repo, visited: set<Oid>, updates: map<Name, Option<Oid>>)
      returns (actions: seq<Action>)
    requires Runs(u, s0, before, s.(gate := Pushing(visited))) && s.gate == Idle
    requires forall n :: n in updates && updates[n].Some? ==> updates[n].value in Tips(s) + visited
    ensures Runs(u, s0, actions, s.(refs := Moved(s.refs, updates), version := Bumped(s.version)))
  {
    hide Runs, Moved;
    actions := Then(u, s0, before, s.(gate := Pushing(visited)), ApplyUpdates(updates),
                    s.(refs := Moved(s.refs, updates), version := Bumped(s.version)));
  }

  // ---- What a push reports ------------------------------------------------------------------

  /** The report and the refs agree: without a rejection in an atomic push every command has
      the status it was judged to have, an accepted one left its ref at its new value, and
      every other ref is as it was. */
  ghost predicate Reported(
      s: Store, g: Edges, before: map<Name, Oid>, commands: seq<Commands.Command>, atomic: bool,
      statuses: seq<Option<Commands.Rejection>>, after: map<Name, Oid>)
  {
    && |statuses| == |commands|
    && (forall i :: 0 <= i < |commands| ==>
          (atomic && statuses[i] == Some(Commands.AtomicFailed)
           && Commands.Judged(s, g, before.Values, commands, before, i, None))
          || Commands.Judged(s, g, before.Values, commands, before, i, statuses[i]))
    && (forall i :: 0 <= i < |commands| && statuses[i].None? ==>
          && Commands.Deserves(commands, before, i, None)
          && Commands.Has(after, commands[i].name, commands[i].newOid))
    && (forall name :: !Commands.NamedBy(commands, statuses, name) ==>
          (name in after <==> name in before) && (name in before ==> after[name] == before[name]))
    && (atomic ==> (forall i :: 0 <= i < |commands| ==> statuses[i].None?)
                   || (forall i :: 0 <= i < |commands| ==> statuses[i].Some?))
    && (forall i :: 0 <= i < |commands| && statuses[i] == Some(Commands.AtomicFailed) ==>
          exists j :: 0 <= j < |commands| && statuses[j].Some?
            && Commands.Judged(s, g, before.Values, commands, before, j, statuses[j]))
  }

  // ---- Many pushes to one ref ------------------------------------------------------------------

  datatype PushRecord = PushRecord(commands: seq<Commands.Command>, statuses: seq<Option<Commands.Rejection>>)

  /** What a push leaves: nothing changed and everything refused, or what its report says. */
  ghost predicate Pushed(before: map<Name, Oid>, p: PushRecord, after: map<Name, Oid>) {
    && |p.statuses| == |p.commands|
    && ((after == before && forall i :: 0 <= i < |p.commands| ==> p.statuses[i].Some?)
        || exists s, g, atomic :: Reported(s, g, before, p.commands, atomic, p.statuses, after))
  }

  /** One push after another, with the refs before and after each. */
  ghost predicate AllPushed(refs: seq<map<Name, Oid>>, pushes: seq<PushRecord>) {
    && |refs| == |pushes| + 1
    && (forall k :: 0 <= k < |pushes| ==> |pushes[k].statuses| == |pushes[k].commands|)
    && (forall k :: 0 <= k < |pushes| ==> Pushed(refs[k], pushes[k], refs[k + 1]))
  }

  /** From what to what an accepted command of the push moves the ref, if one does. */
  function MoveOf(p: PushRecord, name: Name): Option<(Option<Oid>, Option<Oid>)>
    requires |p.statuses| == |p.commands|
    decreases |p.commands|
  {
    if p.commands == [] then None
    else
      var n := |p.commands| - 1;
      var c := p.commands[n];
      if p.statuses[n].None? && c.name == name then Some((c.oldOid, c.newOid))
      else MoveOf(PushRecord(p.commands[..n], p.statuses[..n]), name)
  }

  /** The `i`-th command of the push is accepted, and for this ref. */
  predicate MovesAt(p: PushRecord, name: Name, i: nat)
    requires |p.statuses| == |p.commands|
  {
    i < |p.commands| && p.statuses[i].None? && p.commands[i].name == name
  }

  lemma {:induction false} MoveIsOf(p: PushRecord, name: Name) returns (i: nat)
    requires |p.statuses| == |p.commands|
    ensures MoveOf(p, name).Some? ==>
      MovesAt(p, name, i) && MoveOf(p, name).value == (p.commands[i].oldOid, p.commands[i].newOid)
    ensures MoveOf(p, name).None? ==> forall k: nat :: !MovesAt(p, name, k)
    decreases |p.commands|
  {
    i := 0;
    if p.commands != [] {
      var n := |p.commands| - 1;
      var q := PushRecord(p.commands[..n], p.statuses[..n]);
      if p.statuses[n].None? && p.commands[n].name == name {
        i := n;
      } else {
        i := MoveIsOf(q, name);
        forall k: nat
          ensures MovesAt(p, name, k) ==> MovesAt(q, name, k)
        {
        }
      }
    }
  }

  /** The moves of the ref, in order. */
  function MovesOf(pushes: seq<PushRecord>, name: Name): seq<(Option<Oid>, Option<Oid>)>
    requires forall k :: 0 <= k < |pushes| ==> |pushes[k].statuses| == |pushes[k].commands|
  {
    if pushes == [] then []
    else
      var move := MoveOf(pushes[0], name);
      (if move.Some? then [move.value] else []) + MovesOf(pushes[1..], name)
  }

  /** Each move starts where the one before it ended. */
  predicate Chained(start: Option<Oid>, moves: seq<(Option<Oid>, Option<Oid>)>, end: Option<Oid>)
    decreases |moves|
  {
    if moves == [] then start == end else moves[0].0 == start && Chained(moves[0].1, moves[1..], end)
  }

  lemma PushedMoves(before: map<Name, Oid>, p: PushRecord, after: map<Name, Oid>, name: Name)
    requires |p.statuses| == |p.commands| && Pushed(before, p, after)
    ensures var was, now, move := Commands.Current(before, name), Commands.Current(after, name), MoveOf(p, name);
      if move.Some? then move.value == (was, now) else was == now
  {
    hide Commands.Judged;
    var i := MoveIsOf(p, name);
    if MoveOf(p, name).None? {
      NotMoved(p, name);
    }
  }

  lemma NotMoved(p: PushRecord, name: Name)
    requires |p.statuses| == |p.commands| && MoveOf(p, name).None?
    ensures !Commands.NamedBy(p.commands, p.statuses, name)
  {
    var i := MoveIsOf(p, name);
    forall k | 0 <= k < |p.commands| && p.commands[k].name == name
      ensures p.statuses[k].Some?
    {
      assert !MovesAt(p, name, k);
    }
  }

  /** Whatever clients push, and whatever each of them saw: the accepted updates of a ref are a chain, each from
      exactly the value that the one before left, so that none is overwritten unseen. */
  lemma {:induction false} PushesAreChained(refs: seq<map<Name, Oid>>, pushes: seq<PushRecord>, name: Name)
    requires AllPushed(refs, pushes)
    ensures Chained(Commands.Current(refs[0], name), MovesOf(pushes, name),
                    Commands.Current(refs[|pushes|], name))
    decreases |pushes|
  {
    hide Pushed;
    if pushes != [] {
      PushedMoves(refs[0], pushes[0], refs[1], name);
      assert AllPushed(refs[1..], pushes[1..]) by {
        forall k | 0 <= k < |pushes| - 1
          ensures Pushed(refs[1..][k], pushes[1..][k], refs[1..][k + 1])
        {
          assert Pushed(refs[k + 1], pushes[k + 1], refs[k + 1 + 1]);
        }
      }
      PushesAreChained(refs[1..], pushes[1..], name);
      var move, rest := MoveOf(pushes[0], name), MovesOf(pushes[1..], name);
      if move.Some? {
        assert ([move.value] + rest)[1..] == rest;
      } else {
        assert [] + rest == rest;
      }
    }
  }

  /** Of two clients that saw the same value of a ref and want to move it, only the first does. */
  lemma OneOfTwoWins(
      before: map<Name, Oid>, p: PushRecord, middle: map<Name, Oid>, q: PushRecord, after: map<Name, Oid>, i: nat,
      j: nat)
    requires Pushed(before, p, middle) && Pushed(middle, q, after) && i < |p.commands| && j < |q.commands|
    requires p.commands[i].name == q.commands[j].name && p.commands[i].oldOid == q.commands[j].oldOid
    requires p.commands[i].newOid != p.commands[i].oldOid && p.statuses[i].None?
    ensures q.statuses[j].Some?
  {
    hide Commands.Judged;
  }

  lemma JudgedAreDistinct(
      s: Store, g: Edges, refs: map<Name, Oid>, commands: seq<Commands.Command>,
      statuses: seq<Option<Commands.Rejection>>)
    requires |statuses| == |commands|
    requires forall i :: 0 <= i < |commands| ==> Commands.Judged(s, g, refs.Values, commands, refs, i, statuses[i])
    ensures Commands.OnceEach(commands, statuses)
  {
    hide Complete, Reaches;
  }

  lemma AtomicReported(
      s: Store, g: Edges, refs: map<Name, Oid>, commands: seq<Commands.Command>,
      judged: seq<Option<Commands.Rejection>>, statuses: seq<Option<Commands.Rejection>>)
    requires |judged| == |commands| == |statuses|
    requires forall i :: 0 <= i < |commands| ==> Commands.Judged(s, g, refs.Values, commands, refs, i, judged[i])
    requires forall i :: 0 <= i < |commands| ==>
      statuses[i] == if judged[i].Some? then judged[i] else Some(Commands.AtomicFailed)
    requires exists i :: 0 <= i < |commands| && judged[i].Some?
    ensures Reported(s, g, refs, commands, true, statuses, refs)
  {
    hide Commands.Judged;
  }

  lemma AcceptedReported(
      s: Store, g: Edges, refs: map<Name, Oid>, commands: seq<Commands.Command>, atomic: bool,
      statuses: seq<Option<Commands.Rejection>>)
    requires |statuses| == |commands|
    requires forall i :: 0 <= i < |commands| ==> Commands.Judged(s, g, refs.Values, commands, refs, i, statuses[i])
    requires atomic ==> forall i :: 0 <= i < |commands| ==> statuses[i].None?
    ensures Reported(s, g, refs, commands, atomic, statuses,
      Moved(refs, Commands.AsMap(Commands.Accepted(commands, statuses))))
  {
    JudgedAreDistinct(s, g, refs, commands, statuses);
    hide Commands.Judged, Commands.AsMap, Commands.Accepted, Commands.OnceEach;
    var updates := Commands.AsMap(Commands.Accepted(commands, statuses));
    var after := Moved(refs, updates);
    forall i | 0 <= i < |commands| && statuses[i].None?
      ensures Commands.Deserves(commands, refs, i, None)
      ensures Commands.Has(after, commands[i].name, commands[i].newOid)
    {
      Commands.AcceptedIsCurrent(s, g, refs.Values, commands, refs, i);
      Commands.AcceptedAsMap(commands, statuses, commands[i].name);
    }
    forall name | !Commands.NamedBy(commands, statuses, name)
      ensures (name in after <==> name in refs) && (name in refs ==> after[name] == refs[name])
    {
      Commands.AcceptedAsMap(commands, statuses, name);
    }
  }

  lemma NothingReported(
      s: Store, g: Edges, refs: map<Name, Oid>, commands: seq<Commands.Command>, atomic: bool,
      statuses: seq<Option<Commands.Rejection>>)
    requires |statuses| == |commands|
    requires forall i :: 0 <= i < |commands| ==> Commands.Judged(s, g, refs.Values, commands, refs, i, statuses[i])
    requires atomic ==> forall i :: 0 <= i < |commands| ==> statuses[i].None?
    requires Commands.Accepted(commands, statuses) == []
    ensures Reported(s, g, refs, commands, atomic, statuses, refs)
  {
    hide Commands.Judged, Commands.Accepted, Reported;
    AcceptedReported(s, g, refs, commands, atomic, statuses);
    MovedByNothing(refs);
  }

  lemma {:induction false} AcceptedAreVerified(
      commands: seq<Commands.Command>, statuses: seq<Option<Commands.Rejection>>, verified: set<Oid>)
    requires |statuses| == |commands|
    requires forall i :: 0 <= i < |commands| && statuses[i].None? && commands[i].newOid.Some? ==>
      commands[i].newOid.value in verified
    ensures var updates := Commands.AsMap(Commands.Accepted(commands, statuses));
            forall n :: n in updates && updates[n].Some? ==> updates[n].value in verified
  {
    if commands != [] {
      var n := |commands| - 1;
      var cs, ss := commands[..n], statuses[..n];
      AcceptedAreVerified(cs, ss, verified);
      assert Commands.Accepted(cs, ss) + [] == Commands.Accepted(cs, ss);
      if statuses[n].None? {
        Commands.AsMapAppend(Commands.Accepted(cs, ss), commands[n]);
      }
    }
  }

  lemma MovedByNothing(refs: map<Name, Oid>)
    ensures Moved(refs, Commands.AsMap([])) == refs
  {
  }

  lemma MovedNext(refs: map<Name, Oid>, updates: map<Name, Option<Oid>>, name: Name, value: Option<Oid>)
    ensures Moved(refs, updates[name := value])
         == if value.None? then Moved(refs, updates) - {name} else Moved(refs, updates)[name := value.value]
  {
  }

  lemma WritingHolds(u: map<Oid, Object>, s: Repo, x: Oid)
    requires Trusted(u) && Inv(u, s) && x in u
    ensures Inv(u, s.(present := s.present + {x}))
  {
    hide Inv;
    KeepsInv(u, s, Write(x));
  }

  /** What earlier walks saw: it is held, and leads nowhere else. */
  predicate WalkedBefore(s: Store, shallow: set<Oid>, tips: set<Oid>, seen: set<Oid>) {
    Closed(WalkEdges(s, shallow), tips, seen) && forall x :: x in seen ==> Holds(s, x)
  }

  lemma NothingWalked(s: Store, shallow: set<Oid>, tips: set<Oid>)
    ensures WalkedBefore(s, shallow, tips, {})
  {
  }

  lemma PathMeets(g: Edges, tips: set<Oid>, seen: set<Oid>, p: seq<Oid>)
    requires Closed(g, tips, seen) && Path(g, tips, p)
    ensures Path(g, tips + seen, p) || p[|p| - 1] in seen
  {
    hide After, Closed;
    if exists i :: 0 <= i < |p| && p[i] in seen {
      var i :| 0 <= i < |p| && p[i] in seen;
      PathFrom(g, tips, p, i);
      PathStays(g, tips, seen, p[i..]);
    }
  }

  lemma PathFrom(g: Edges, tips: set<Oid>, p: seq<Oid>, i: nat)
    requires i < |p| && Path(g, tips, p)
    ensures Path(g, tips, p[i..])
  {
    hide After;
    var q := p[i..];
    assert forall k :: 0 <= k < |q| ==> q[k] == p[i + k];
  }

  /** What earlier commands of the push already saw does not change a verdict. */
  lemma VisitedDoesNotMatter(s: Store, shallow: set<Oid>, tips: set<Oid>, seen: set<Oid>, tip: Oid)
    requires WalkedBefore(s, shallow, tips, seen)
    ensures var g := WalkEdges(s, shallow); Complete(s, g, tips + seen, tip) <==> Complete(s, g, tips, tip)
  {
    hide WalkEdges, Holds, After;
    var g := WalkEdges(s, shallow);
    forall x | Reaches(g, tips, tip, x)
      ensures Reaches(g, tips + seen, tip, x) || x in seen
    {
      var p :| Path(g, tips, p) && p[0] == tip && p[|p| - 1] == x;
      PathMeets(g, tips, seen, p);
    }
    forall x | Reaches(g, tips + seen, tip, x)
      ensures Reaches(g, tips, tip, x)
    {
      FewerStops(g, tips + seen, tips, tip, x);
    }
  }

  lemma FoundIsVerified(
      u: map<Oid, Object>, s: Store, shallow: set<Oid>, tips: set<Oid>, tip: Oid, seen: set<Oid>, visited: set<Oid>)
    requires Held(u, s.objects.Keys) == s.objects && ValidStore(s) && WalkedBefore(s, shallow, tips, seen)
    requires Complete(s, WalkEdges(s, shallow), tips + seen, tip)
    requires forall x :: x in visited <==> x in seen || Reaches(WalkEdges(s, shallow), tips + seen, tip, x)
    ensures Verified(u, s.objects.Keys, s.indexed, shallow, tips + seen, tip, seen, visited)
    ensures WalkedBefore(s, shallow, tips, visited) && tip in tips + visited
    ensures seen <= visited
  {
    hide WalkEdges, Held, Reaches, Holds, After;
    var g := WalkEdges(s, shallow);
    assert Store(Held(u, s.objects.Keys), s.indexed) == s;
    if tip !in tips + seen {
      ReachesItself(g, tips + seen, tip);
    }
    forall x, y | x in visited && y in After(g, x)
      ensures y in visited + tips
    {
      if x !in seen && y !in tips + seen {
        ReachesNext(g, tips + seen, tip, x, y);
      }
    }
  }

  lemma ThenVerify(
      u: map<Oid, Object>, s0: Repo, before: seq<Action>, s: Repo, seen: set<Oid>, tip: Oid, visited: set<Oid>,
      indexed: set<Oid>)
      returns (actions: seq<Action>)
    requires Runs(u, s0, before, s.(gate := Pushing(seen)))
    requires Verified(u, s.present, indexed, s.shallow, Tips(s) + seen, tip, seen, visited)
    ensures Runs(u, s0, actions, s.(gate := Pushing(visited)))
  {
    hide Runs, Verified;
    actions := Then(
      u, s0, before, s.(gate := Pushing(seen)), VerifyTip(tip, visited, indexed), s.(gate := Pushing(visited)));
  }

  lemma ThenSelectAll(u: map<Oid, Object>, s0: Repo, before: seq<Action>, s: Repo, batch: set<Oid>)
      returns (actions: seq<Action>)
    requires Runs(u, s0, before, s) && s.gate == Stepping(None) && InPhase(s, Sweeping)
    requires batch <= s.present - s.marks.Keys
    ensures Runs(u, s0, actions, s.(gate := Reclaiming(batch)))
  {
    hide Runs;
    actions := Then(u, s0, before, s, SelectUnmarked(batch), s.(gate := Reclaiming(batch)));
  }

  lemma BatchMembers(rows: set<Oid>, limit: nat, batch: seq<Oid>)
    requires IsBatch(rows, limit, batch)
    ensures Members(batch) <= rows
  {
  }

  lemma NothingYet(batch: seq<Oid>)
    ensures Members(batch[..0]) == {} && batch[0..] == batch
  {
  }

  lemma EverythingDone(batch: seq<Oid>)
    ensures Members(batch[|batch|..]) == {} && batch[..|batch|] == batch
  {
  }

  lemma StillValid(u: map<Oid, Object>, s0: Repo, actions: seq<Action>, s: Repo)
    requires Trusted(u) && Inv(u, s0) && Runs(u, s0, actions, s)
    ensures Inv(u, s) && Inv(u, s.(gate := Idle))
  {
    hide Runs, Inv;
    RunsKeepInv(u, s0, actions, s);
    LeavingHolds(u, s);
  }

  lemma StandsAlike(u: map<Oid, Object>, s: Repo, t: Repo)
    requires s.present == t.present && s.refs == t.refs && s.shallow == t.shallow
    ensures (Whole(u, s) <==> Whole(u, t)) && (Connected(u, s) <==> Connected(u, t))
  {
    hide Closes;
    assert forall c, strict :: Supports(u, s, c, strict) <==> Supports(u, t, c, strict);
  }

  lemma NeededIsReached(u: map<Oid, Object>, s: Repo, x: Oid, strict: bool)
    requires Needed(u, s, x, strict) && s.present <= u.Keys
    ensures ReachedFrom(ReachEdges(u, s.shallow), {}, Tips(s), x)
  {
    hide Follow;
    var g, h := NeedEdges(u, s.present, s.shallow, strict), ReachEdges(u, s.shallow);
    var r :| r in Tips(s) && Reaches(g, {}, r, x);
    forall y
      ensures After(g, y) <= After(h, y)
    {
      if y in g {
        LooseIsLess(u[y], y in s.shallow);
      }
    }
    MoreEdges(g, h, {}, r, x);
  }

  lemma UnreachedLeavesStanding(u: map<Oid, Object>, s: Repo, t: Repo, strict: bool)
    requires s.present <= u.Keys && t.present <= s.present && s.refs == t.refs && s.shallow == t.shallow
    requires forall x :: x in s.present && x !in t.present ==> !ReachedFrom(ReachEdges(u, s.shallow), {}, Tips(s), x)
    ensures Stands(u, s, strict) ==> Stands(u, t, strict)
  {
    hide Needed, ReachedFrom, ReachEdges, Follow;
    if Stands(u, s, strict) {
      var c :| Supports(u, s, c, strict);
      var d := set x | x in c && Needed(u, s, x, strict);
      NeededSupports(u, s, c, strict);
      forall x | x in d
        ensures x in t.present
      {
        NeededIsReached(u, s, x, strict);
      }
      assert Supports(u, t, d, strict);
    }
  }

  lemma LeavingHolds(u: map<Oid, Object>, s: Repo)
    requires Trusted(u) && Inv(u, s)
    ensures Inv(u, s.(gate := Idle))
  {
    hide Inv;
    KeepsInv(u, s, Leave);
  }

  lemma ThenReclaim(u: map<Oid, Object>, s0: Repo, before: seq<Action>, s: Repo, left: set<Oid>, x: Oid)
      returns (actions: seq<Action>)
    requires Runs(u, s0, before, s.(gate := Reclaiming(left))) && x in left
    ensures Runs(u, s0, actions, s.(present := s.present - {x}, gate := Reclaiming(left - {x})))
  {
    hide Runs;
    actions := Then(u, s0, before, s.(gate := Reclaiming(left)), Reclaim(x),
                    s.(present := s.present - {x}, gate := Reclaiming(left - {x})));
  }

  lemma ThenFinish(u: map<Oid, Object>, s0: Repo, before: seq<Action>, s: Repo) returns (actions: seq<Action>)
    requires Runs(u, s0, before, s.(gate := Reclaiming({}))) && s.present <= s.marks.Keys && s.checkpoint.Some?
    ensures Runs(u, s0, actions, s.(checkpoint := Some(s.checkpoint.value.(phase := Swept)), gate := Stepping(None)))
  {
    hide Runs;
    actions := Then(u, s0, before, s.(gate := Reclaiming({})), FinishSweep,
                    s.(checkpoint := Some(s.checkpoint.value.(phase := Swept)), gate := Stepping(None)));
  }

  lemma RestOfBatch(batch: seq<Oid>, i: nat)
    requires i < |batch| && forall j, k :: 0 <= j < k < |batch| ==> batch[j] < batch[k]
    ensures Members(batch[i + 1..]) == Members(batch[i..]) - {batch[i]}
  {
    FrontierNext(batch, i);
    var rest := batch[i + 1..];
    forall y | y in rest
      ensures y != batch[i]
    {
      var j :| 0 <= j < |rest| && rest[j] == y;
      assert batch[i + 1 + j] == y;
    }
  }

  lemma LeftOver(rows: set<Oid>, marked: set<Oid>, batchSize: nat, batch: seq<Oid>)
    requires IsBatch(rows - marked, batchSize, batch) && batchSize > 0
    ensures rows - Members(batch) <= marked || rows - Members(batch) < rows
  {
    if batch == [] {
      assert forall x :: x in rows - marked ==> x in batch;
    } else {
      assert batch[0] in rows && batch[0] in Members(batch);
    }
  }

  lemma MarksAreNamed(u: map<Oid, Object>, s: Repo)
    requires Inv(u, s) && Current(s)
    ensures Walked(s.marks) <= AllNames(ReachEdges(u, s.shallow), Tips(s))
  {
    forall x | x in Walked(s.marks)
      ensures x in AllNames(ReachEdges(u, s.shallow), Tips(s))
    {
      MarkIsReached(u, s, x);
      ReachedIsNamed(ReachEdges(u, s.shallow), Tips(s), x);
    }
  }

  lemma MarkIsReached(u: map<Oid, Object>, s: Repo, x: Oid)
    requires Inv(u, s) && Current(s) && x in s.marks
    ensures ReachedFrom(ReachEdges(u, s.shallow), {}, Tips(s), x)
  {
    hide ReachedFrom, ReachEdges, Justified;
  }

  lemma ReachedIsNamed(g: Edges, roots: set<Oid>, x: Oid)
    requires ReachedFrom(g, {}, roots, x)
    ensures x in AllNames(g, roots)
  {
    var r :| r in roots && Reaches(g, {}, r, x);
    var p :| Path(g, {}, p) && p[0] == r && p[|p| - 1] == x;
    if |p| > 1 {
      assert x in After(g, p[|p| - 2]);
    }
  }

  lemma UnmarkedIsUnreached(u: map<Oid, Object>, s: Repo)
    requires Inv(u, s) && Current(s) && s.checkpoint.value.phase != Marking
    ensures forall x :: x !in s.marks ==> !ReachedFrom(ReachEdges(u, s.shallow), {}, Tips(s), x)
  {
    hide ReachedFrom, ReachEdges, Marked, GateHolds;
    forall x | ReachedFrom(ReachEdges(u, s.shallow), {}, Tips(s), x)
      ensures x in s.marks
    {
      MarkedHoldsReach(u, Tips(s), s.shallow, s.marks, x);
    }
  }

  lemma SelectionIsPending(marks: map<Oid, Mark>, batchSize: nat, batch: seq<Oid>)
    requires IsBatch(Pending(marks), batchSize, batch)
    ensures StillPending(marks, marks, batch, 0)
  {
  }

  lemma RowIsPending(seen: map<Oid, Mark>, marks: map<Oid, Mark>, batch: seq<Oid>, i: nat, batchSize: nat)
    requires IsBatch(Pending(seen), batchSize, batch) && StillPending(seen, marks, batch, i) && i < |batch|
    ensures batch[i] in seen && batch[i] in marks && marks[batch[i]].pending
    ensures seen[batch[i]].expected.Some? ==> marks[batch[i]].expected == seen[batch[i]].expected
  {
    assert batch[i] in Pending(seen);
  }

  lemma StuckIsTorn(u: map<Oid, Object>, s: Repo, x: Oid)
    requires Trusted(u) && Inv(u, s) && Current(s) && x in s.marks && !Markable(u, s, x)
    ensures s.torn && !Connected(u, s)
  {
    hide Inv, Current, Markable, Stands;
    if !s.torn {
      InvIsConnected(u, s);
    }
    if Connected(u, s) {
      ConnectedIsMarkable(u, s, x);
    }
  }

  lemma BatchWalked(seen: map<Oid, Mark>, marks: map<Oid, Mark>, batch: seq<Oid>, batchSize: nat)
    requires IsBatch(Pending(seen), batchSize, batch) && batchSize > 0 && StillPending(seen, marks, batch, |batch|)
    requires |batch| > 0 ==> batch[0] in Walked(marks)
    ensures |batch| > 0 ==> Walked(seen) < Walked(marks)
    ensures |batch| == 0 ==> NoPending(seen)
  {
    if |batch| > 0 {
      assert batch[0] in Pending(seen);
    } else {
      forall x | x in seen
        ensures !seen[x].pending
      {
        assert x !in Pending(seen);
      }
    }
  }
}
