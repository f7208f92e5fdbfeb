/** A history listing: the commits behind a revision, newest first, one page at a time. */
module History {
  import opened Options
  import opened Graph
  import opened CommitQueue
  import opened Bits

  datatype Reason = Corrupt | WrongObjectType

  datatype Answer<T> = Ok(value: T) | Failed(reason: Reason)

  /** An object as a listing reads it. */
  datatype Stored = ACommit(commit: CommitInfo) | Unparsable | NotACommit

  type Repo = map<Oid, Stored>

  function Read(r: Repo, oid: Oid): Answer<CommitInfo> {
    if oid !in r then Failed(Corrupt)
    else match r[oid]
      case ACommit(commit) => Ok(commit)
      case Unparsable => Failed(Corrupt)
      case NotACommit => Failed(WrongObjectType)
  }

  /** A commit read under a name carries that name. */
  predicate Named(r: Repo) {
    forall oid :: oid in r && r[oid].ACommit? ==> r[oid].commit.hash == oid
  }

  predicate IsCommit(r: Repo, oid: Oid) {
    oid in r && r[oid].ACommit?
  }

  // ---- The walk ----------------------------------------------------------------------------------

  /** What is still to be listed, in order, and everything that ever was to be. */
  datatype Front = Front(pending: seq<Queued>, scheduled: set<Oid>, sequence: nat)

  function Scheduling(r: Repo, parents: seq<Oid>, f: Front): Answer<Front>
    decreases |parents|
  {
    if parents == [] then Ok(f)
    else if parents[0] in f.scheduled then Scheduling(r, parents[1..], f)
    else match Read(r, parents[0])
      case Failed(reason) => Failed(reason)
      case Ok(commit) => Scheduling(r, parents[1..],
        Front(Inserted(f.pending, Queued(commit, f.sequence)), f.scheduled + {parents[0]}, f.sequence + 1))
  }

  /** The front once its first commit was listed. */
  function Advance(r: Repo, shallow: set<Oid>, f: Front): Answer<Front>
    requires f.pending != []
  {
    var newest := f.pending[0].commit;
    var rest := f.(pending := f.pending[1..]);
    if newest.hash in shallow then Ok(rest) else Scheduling(r, newest.parents, rest)
  }

  function Left(r: Repo, f: Front): nat {
    |r.Keys - f.scheduled| + |f.pending|
  }

  lemma {:induction false} SchedulingKeepsLeft(r: Repo, parents: seq<Oid>, f: Front)
    ensures Scheduling(r, parents, f).Ok? ==> Left(r, Scheduling(r, parents, f).value) == Left(r, f)
    decreases |parents|
  {
    if parents != [] {
      if parents[0] in f.scheduled {
        SchedulingKeepsLeft(r, parents[1..], f);
      } else if Read(r, parents[0]).Ok? {
        var commit := Read(r, parents[0]).value;
        var next := Front(Inserted(f.pending, Queued(commit, f.sequence)), f.scheduled + {parents[0]}, f.sequence + 1);
        assert r.Keys - f.scheduled == (r.Keys - next.scheduled) + {parents[0]};
        SchedulingKeepsLeft(r, parents[1..], next);
      }
    }
  }

  lemma AdvanceLeavesLess(r: Repo, shallow: set<Oid>, f: Front)
    requires f.pending != []
    ensures Advance(r, shallow, f).Ok? ==> Left(r, Advance(r, shallow, f).value) < Left(r, f)
  {
    var rest := f.(pending := f.pending[1..]);
    assert Left(r, rest) == Left(r, f) - 1;
    SchedulingKeepsLeft(r, f.pending[0].commit.parents, rest);
  }

  /** The whole listing. */
  function Listing(r: Repo, shallow: set<Oid>, f: Front): Answer<seq<CommitInfo>>
    decreases Left(r, f)
  {
    if f.pending == [] then Ok([])
    else
      AdvanceLeavesLess(r, shallow, f);
      match Advance(r, shallow, f)
      case Failed(reason) => Failed(reason)
      case Ok(next) =>
        match Listing(r, shallow, next)
        case Failed(reason) => Failed(reason)
        case Ok(rest) => Ok([f.pending[0].commit] + rest)
  }

  lemma ListingUnfolds(r: Repo, shallow: set<Oid>, f: Front)
    requires f.pending != []
    ensures var advanced := Advance(r, shallow, f);
      && (advanced.Failed? ==> Listing(r, shallow, f) == Failed(advanced.reason))
      && (advanced.Ok? && Listing(r, shallow, advanced.value).Failed? ==>
            Listing(r, shallow, f) == Listing(r, shallow, advanced.value))
      && (advanced.Ok? && Listing(r, shallow, advanced.value).Ok? ==>
            Listing(r, shallow, f) == Ok([f.pending[0].commit] + Listing(r, shallow, advanced.value).value))
  {
    hide Advance;
  }

  /** One page: `skip` commits are passed over and at most `limit` are listed. The parents of the
      last one are not looked at. */
  function Page(r: Repo, shallow: set<Oid>, f: Front, skip: nat, limit: nat): Answer<seq<CommitInfo>>
    decreases Left(r, f)
  {
    if f.pending == [] || limit == 0 then Ok([])
    else if skip == 0 && limit == 1 then Ok([f.pending[0].commit])
    else
      AdvanceLeavesLess(r, shallow, f);
      match Advance(r, shallow, f)
      case Failed(reason) => Failed(reason)
      case Ok(next) =>
        if skip > 0 then Page(r, shallow, next, skip - 1, limit)
        else match Page(r, shallow, next, 0, limit - 1)
          case Failed(reason) => Failed(reason)
          case Ok(rest) => Ok([f.pending[0].commit] + rest)
  }

  function Slice(s: seq<CommitInfo>, offset: nat, limit: nat): seq<CommitInfo> {
    if offset >= |s| then []
    else if limit >= |s| - offset then s[offset..]
    else s[offset..offset + limit]
  }

  lemma ListingOfNothing(r: Repo, shallow: set<Oid>, f: Front)
    ensures f.pending == [] ==> Listing(r, shallow, f) == Ok([])
  {
    hide Advance;
  }

  lemma AdvanceUnfolds(r: Repo, shallow: set<Oid>, f: Front)
    requires f.pending != []
    ensures var rest := f.(pending := f.pending[1..]);
      Advance(r, shallow, f) ==
      if f.pending[0].commit.hash in shallow then Ok(rest) else Scheduling(r, f.pending[0].commit.parents, rest)
  {
  }

  lemma SliceOfNothing(s: seq<CommitInfo>, offset: nat, limit: nat)
    ensures s == [] || limit == 0 ==> Slice(s, offset, limit) == []
  {
  }

  lemma SliceUnfolds(c: CommitInfo, rest: seq<CommitInfo>, offset: nat, limit: nat)
    ensures Slice([c] + rest, offset, limit) ==
      if limit == 0 then [] else if offset > 0 then Slice(rest, offset - 1, limit) else [c] + Slice(rest, 0, limit - 1)
  {
    var all := [c] + rest;
    if limit > 0 && offset == 0 && limit < |all| {
      assert all[0..limit] == [c] + rest[0..limit - 1];
    }
    if offset > 0 && offset < |all| && limit < |all| - offset {
      assert all[offset..offset + limit] == rest[offset - 1..offset - 1 + limit];
    }
  }

  lemma {:induction false} PageSlices(r: Repo, shallow: set<Oid>, f: Front, offset: nat, limit: nat)
    requires Listing(r, shallow, f).Ok?
    ensures Page(r, shallow, f, offset, limit) == Ok(Slice(Listing(r, shallow, f).value, offset, limit))
    decreases Left(r, f)
  {
    hide Advance, Left, Listing, Slice;
    if f.pending == [] {
      ListingOfNothing(r, shallow, f);
      SliceOfNothing([], offset, limit);
    } else {
      ListingUnfolds(r, shallow, f);
      AdvanceLeavesLess(r, shallow, f);
      var next := Advance(r, shallow, f).value;
      var all, rest := Listing(r, shallow, f).value, Listing(r, shallow, next).value;
      assert all == [f.pending[0].commit] + rest;
      if offset > 0 {
        PageSlices(r, shallow, next, offset - 1, limit);
      } else if limit > 1 {
        PageSlices(r, shallow, next, 0, limit - 1);
      }
      SliceUnfolds(f.pending[0].commit, rest, offset, limit);
      SliceOfNothing(rest, 0, 0);
      assert [f.pending[0].commit] + [] == [f.pending[0].commit];
    }
  }

  /** A page has the commits of the listing from its offset on, up to its limit or the end: pages that meet neither
      overlap nor leave a gap. */
  lemma PageIsSlice(r: Repo, shallow: set<Oid>, f: Front, offset: nat, limit: nat)
    requires Listing(r, shallow, f).Ok?
    ensures var all, page := Listing(r, shallow, f).value, Page(r, shallow, f, offset, limit);
      && page.Ok?
      && |page.value| == (if offset >= |all| then 0 else Least(limit, |all| - offset))
      && forall i :: 0 <= i < |page.value| ==> page.value[i] == all[offset + i]
  {
    hide Page, Listing;
    PageSlices(r, shallow, f, offset, limit);
  }

  // ---- What is looked at --------------------------------------------------------------------------

  predicate ChainAt(r: Repo, shallow: set<Oid>, fs: seq<Front>, i: nat)
    requires i < |fs| - 1
  {
    fs[i].pending != [] && Advance(r, shallow, fs[i]) == Ok(fs[i + 1])
  }

  /** Front after front, each one commit further. */
  ghost predicate Chain(r: Repo, shallow: set<Oid>, fs: seq<Front>) {
    forall i: nat :: i < |fs| - 1 ==> ChainAt(r, shallow, fs, i)
  }

  /** The commits that come first in the fronts from this one on. */
  predicate Heads(fs: seq<Front>, from: nat, page: seq<CommitInfo>)
    requires from + |page| <= |fs|
  {
    forall i: nat :: i < |page| ==> HeadAt(fs, from + i, page[i])
  }

  predicate HeadAt(fs: seq<Front>, k: nat, c: CommitInfo)
    requires k < |fs|
  {
    fs[k].pending != [] && c == fs[k].pending[0].commit
  }

  /** The fronts whose first commits are passed over and then listed: as many as were asked for, or up to where
      nothing waits. */
  ghost predicate PagedBy(
      r: Repo, shallow: set<Oid>, f: Front, skip: nat, limit: nat, page: seq<CommitInfo>, fs: seq<Front>)
  {
    && fs != [] && fs[0] == f && Chain(r, shallow, fs) && |fs| <= skip + limit
    && var over := fs[|fs| - 1].pending == [];
      && (!over ==> |fs| == skip + limit)
      && var n := if over then |fs| - 1 else |fs|;
         if n <= skip then page == [] else |page| == n - skip && Heads(fs, skip, page)
  }

  lemma ChainGrows(r: Repo, shallow: set<Oid>, f: Front, fs: seq<Front>)
    requires fs != [] && f.pending != [] && Advance(r, shallow, f) == Ok(fs[0]) && Chain(r, shallow, fs)
    ensures Chain(r, shallow, [f] + fs)
  {
    hide Advance;
    forall i: nat | i < |fs|
      ensures ChainAt(r, shallow, [f] + fs, i)
    {
      assert i > 0 ==> ChainAt(r, shallow, fs, i - 1);
    }
  }

  lemma ChainGoesOn(r: Repo, shallow: set<Oid>, fs: seq<Front>)
    requires |fs| > 1 && Chain(r, shallow, fs)
    ensures fs[0].pending != [] && Advance(r, shallow, fs[0]) == Ok(fs[1]) && Chain(r, shallow, fs[1..])
  {
    hide Advance;
    assert ChainAt(r, shallow, fs, 0);
    forall i: nat | i < |fs| - 2
      ensures ChainAt(r, shallow, fs[1..], i)
    {
      assert ChainAt(r, shallow, fs, i + 1);
    }
  }

  lemma HeadsMove(f: Front, fs: seq<Front>, from: nat, page: seq<CommitInfo>)
    requires from + |page| <= |fs|
    ensures Heads([f] + fs, from + 1, page) <==> Heads(fs, from, page)
    ensures f.pending != [] && from == 0 ==>
      (Heads([f] + fs, 0, [f.pending[0].commit] + page) <==> Heads(fs, 0, page))
  {
    hide HeadAt;
    var all := [f] + fs;
    assert forall k: nat, c :: k < |fs| ==> (HeadAt(all, k + 1, c) <==> HeadAt(fs, k, c)) by {
      HeadMoves(f, fs);
    }
    if from == 0 && f.pending != [] {
      var more := [f.pending[0].commit] + page;
      HeadOfAll(f, fs);
      if Heads(all, 0, more) {
        forall i: nat | i < |page|
          ensures HeadAt(fs, i, page[i])
        {
          assert HeadAt(all, 0 + (i + 1), more[i + 1]);
        }
      }
      if Heads(fs, 0, page) {
        forall i: nat | i < |more|
          ensures HeadAt(all, 0 + i, more[i])
        {
          if i > 0 {
            assert HeadAt(fs, 0 + (i - 1), page[i - 1]);
            assert HeadAt(all, (i - 1) + 1, more[i]);
          }
        }
      }
    }
    if Heads(all, from + 1, page) {
      forall i: nat | i < |page|
        ensures HeadAt(fs, from + i, page[i])
      {
        assert HeadAt(all, from + 1 + i, page[i]);
        assert HeadAt(all, (from + i) + 1, page[i]);
      }
    }
    if Heads(fs, from, page) {
      forall i: nat | i < |page|
        ensures HeadAt(all, from + 1 + i, page[i])
      {
        assert HeadAt(all, (from + i) + 1, page[i]);
      }
    }
  }

  lemma HeadMoves(f: Front, fs: seq<Front>)
    ensures forall k: nat, c :: k < |fs| ==> (HeadAt([f] + fs, k + 1, c) <==> HeadAt(fs, k, c))
  {
  }

  lemma HeadOfAll(f: Front, fs: seq<Front>)
    requires f.pending != []
    ensures HeadAt([f] + fs, 0, f.pending[0].commit)
  {
  }

  lemma {:induction false} PagedIsPage(
      r: Repo, shallow: set<Oid>, f: Front, skip: nat, limit: nat, page: seq<CommitInfo>, fs: seq<Front>)
    requires limit > 0 && PagedBy(r, shallow, f, skip, limit, page, fs)
    ensures Page(r, shallow, f, skip, limit) == Ok(page)
    decreases |fs|
  {
    hide Advance, Page, Chain, Heads;
    PageOfNothing(r, shallow, f, skip, limit);
    if |fs| > 1 {
      ChainGoesOn(r, shallow, fs);
      PageUnfolds(r, shallow, f, skip, limit);
      var rest := fs[1..];
      assert fs == [f] + rest;
      if skip > 0 {
        if page != [] {
          HeadsMove(f, rest, skip - 1, page);
        }
        PagedIsPage(r, shallow, fs[1], skip - 1, limit, page, rest);
      } else {
        FirstHead(fs, page);
        assert page == [f.pending[0].commit] + page[1..];
        HeadsMove(f, rest, 0, page[1..]);
        PagedIsPage(r, shallow, fs[1], 0, limit - 1, page[1..], rest);
      }
    } else if f.pending != [] {
      PageUnfolds(r, shallow, f, skip, limit);
      FirstHead(fs, page);
      assert page == [f.pending[0].commit];
    }
  }

  lemma FirstHead(fs: seq<Front>, page: seq<CommitInfo>)
    requires page != [] && |page| <= |fs| && Heads(fs, 0, page)
    ensures fs[0].pending != [] && page[0] == fs[0].pending[0].commit
  {
    assert HeadAt(fs, 0 + 0, page[0]);
  }

  lemma {:induction false} PageIsPaged(r: Repo, shallow: set<Oid>, f: Front, skip: nat, limit: nat)
      returns (fs: seq<Front>)
    requires limit > 0 && Page(r, shallow, f, skip, limit).Ok?
    ensures PagedBy(r, shallow, f, skip, limit, Page(r, shallow, f, skip, limit).value, fs)
    decreases Left(r, f)
  {
    hide Advance, Page, Left, Heads, Chain;
    fs := [f];
    NoChain(r, shallow, f);
    PageOfNothing(r, shallow, f, skip, limit);
    if f.pending != [] {
      PageUnfolds(r, shallow, f, skip, limit);
      HeadsMove(f, [], 0, []);
      NoHeads();
      assert [f] + [] == [f] && [f.pending[0].commit] + [] == [f.pending[0].commit];
      if skip > 0 || limit > 1 {
        AdvanceLeavesLess(r, shallow, f);
        var next := Advance(r, shallow, f).value;
        var rest: seq<Front>;
        if skip > 0 {
          rest := PageIsPaged(r, shallow, next, skip - 1, limit);
          var page := Page(r, shallow, next, skip - 1, limit).value;
          if page != [] {
            HeadsMove(f, rest, skip - 1, page);
          }
        } else {
          rest := PageIsPaged(r, shallow, next, 0, limit - 1);
          var page := Page(r, shallow, next, 0, limit - 1).value;
          HeadsMove(f, rest, 0, page);
          if page == [] {
            NoHeadsOf(rest);
          }
        }
        fs := [f] + rest;
        ChainGrows(r, shallow, f, rest);
      }
    }
  }

  lemma NoChain(r: Repo, shallow: set<Oid>, f: Front)
    ensures Chain(r, shallow, [f])
  {
  }

  lemma NoHeads()
    ensures Heads([], 0, [])
  {
  }

  lemma NoHeadsOf(fs: seq<Front>)
    ensures Heads(fs, 0, [])
  {
  }

  /** A page can be read exactly if the commits before its last can be passed over: what is behind its last is not
      looked at. */
  lemma PageIff(r: Repo, shallow: set<Oid>, f: Front, skip: nat, limit: nat, page: seq<CommitInfo>)
    requires limit > 0
    ensures Page(r, shallow, f, skip, limit) == Ok(page) <==> exists fs :: PagedBy(r, shallow, f, skip, limit, page, fs)
  {
    hide Advance, Page, PagedBy;
    if Page(r, shallow, f, skip, limit) == Ok(page) {
      var fs := PageIsPaged(r, shallow, f, skip, limit);
    }
    if fs :| PagedBy(r, shallow, f, skip, limit, page, fs) {
      PagedIsPage(r, shallow, f, skip, limit, page, fs);
    }
  }

  // ---- What is listed ------------------------------------------------------------------------------

  ghost predicate WellFormed(r: Repo, f: Front) {
    && Sorted(f.pending)
    && (forall q :: q in f.pending ==>
          q.sequence < f.sequence && q.commit.hash in f.scheduled && Read(r, q.commit.hash) == Ok(q.commit))
    && (forall x, y :: x in f.pending && y in f.pending && x.commit.hash == y.commit.hash ==> x == y)
  }

  function Hashes(commits: seq<CommitInfo>): set<Oid> {
    set c | c in commits :: c.hash
  }

  function Waiting(f: Front): set<Oid> {
    set q | q in f.pending :: q.commit.hash
  }

  function Enqueued(f: Front, commit: CommitInfo): Front {
    Front(Inserted(f.pending, Queued(commit, f.sequence)), f.scheduled + {commit.hash}, f.sequence + 1)
  }

  lemma EnqueuedIsWellFormed(r: Repo, f: Front, commit: CommitInfo)
    requires WellFormed(r, f) && commit.hash !in f.scheduled && Read(r, commit.hash) == Ok(commit)
    ensures WellFormed(r, Enqueued(f, commit))
    ensures Waiting(Enqueued(f, commit)) == Waiting(f) + {commit.hash}
  {
    hide Inserted, Sorted;
    var q := Queued(commit, f.sequence);
    InsertedIsSorted(f.pending, q);
    var g := Enqueued(f, commit);
    forall x | x in Waiting(f) + {commit.hash}
      ensures x in Waiting(g)
    {
      if x == commit.hash {
        assert q in g.pending;
      }
    }
  }

  /** Scheduling parents adds exactly those that never were scheduled. */
  lemma {:induction false} SchedulingIsExact(r: Repo, parents: seq<Oid>, f: Front)
    requires WellFormed(r, f) && Named(r) && Scheduling(r, parents, f).Ok?
    ensures var g := Scheduling(r, parents, f).value;
      && WellFormed(r, g)
      && Waiting(g) == Waiting(f) + ((set p | p in parents) - f.scheduled)
      && g.scheduled == f.scheduled + (set p | p in parents)
    decreases |parents|
  {
    hide Inserted, Sorted, WellFormed, Waiting;
    if parents != [] {
      var first, rest := parents[0], parents[1..];
      assert parents == [first] + rest;
      assert (set p | p in parents) == {first} + (set p | p in rest);
      if parents[0] in f.scheduled {
        SchedulingIsExact(r, parents[1..], f);
      } else {
        var commit := Read(r, parents[0]).value;
        EnqueuedIsWellFormed(r, f, commit);
        SchedulingIsExact(r, parents[1..], Enqueued(f, commit));
      }
    }
  }

  lemma RestIsWellFormed(r: Repo, f: Front)
    requires WellFormed(r, f) && f.pending != []
    ensures var rest := f.(pending := f.pending[1..]);
      WellFormed(r, rest) && Waiting(rest) == Waiting(f) - {f.pending[0].commit.hash}
  {
    var rest := f.(pending := f.pending[1..]);
    assert f.pending == [f.pending[0]] + rest.pending;
    assert f.pending[0] !in rest.pending;
  }

  function ParentsOf(shallow: set<Oid>, c: CommitInfo): set<Oid> {
    if c.hash in shallow then {} else set p | p in c.parents
  }

  lemma AdvanceIsExact(r: Repo, shallow: set<Oid>, f: Front)
    requires WellFormed(r, f) && Named(r) && f.pending != [] && Advance(r, shallow, f).Ok?
    ensures var g := Advance(r, shallow, f).value;
      var c := f.pending[0].commit;
      && WellFormed(r, g)
      && Waiting(g) == Waiting(f) - {c.hash} + (ParentsOf(shallow, c) - f.scheduled)
      && g.scheduled == f.scheduled + ParentsOf(shallow, c)
  {
    hide Inserted, Sorted, WellFormed;
    RestIsWellFormed(r, f);
    var rest := f.(pending := f.pending[1..]);
    if f.pending[0].commit.hash !in shallow {
      SchedulingIsExact(r, f.pending[0].commit.parents, rest);
    }
  }

  /** Everything listed is distinct, was scheduled, and was waiting or was never scheduled before;
      what waits is listed, and so are the parents of what is listed unless they were listed
      earlier. */
  ghost predicate Lists(r: Repo, shallow: set<Oid>, f: Front, commits: seq<CommitInfo>) {
    && Waiting(f) <= Hashes(commits)
    && (forall c :: c in commits ==>
          && Read(r, c.hash) == Ok(c)
          && (c.hash in Waiting(f) || c.hash !in f.scheduled)
          && ParentsOf(shallow, c) <= Hashes(commits) + (f.scheduled - Waiting(f)))
    && (forall i, j :: 0 <= i < j < |commits| ==> commits[i].hash != commits[j].hash)
  }

  lemma {:induction false} ListingLists(r: Repo, shallow: set<Oid>, f: Front)
    requires WellFormed(r, f) && Named(r) && Listing(r, shallow, f).Ok?
    ensures Lists(r, shallow, f, Listing(r, shallow, f).value)
    decreases Left(r, f)
  {
    hide Advance;
    if f.pending != [] {
      AdvanceLeavesLess(r, shallow, f);
      AdvanceIsExact(r, shallow, f);
      var next := Advance(r, shallow, f).value;
      ListingLists(r, shallow, next);
      ListsOneMore(r, shallow, f, next, Listing(r, shallow, next).value);
    }
  }

  lemma ListsOneMore(r: Repo, shallow: set<Oid>, f: Front, next: Front, rest: seq<CommitInfo>)
    requires WellFormed(r, f) && f.pending != []
    requires Lists(r, shallow, next, rest)
    requires var c := f.pending[0].commit;
      && Waiting(next) == Waiting(f) - {c.hash} + (ParentsOf(shallow, c) - f.scheduled)
      && next.scheduled == f.scheduled + ParentsOf(shallow, c)
    ensures Lists(r, shallow, f, [f.pending[0].commit] + rest)
  {
    hide Sorted, Read;
    var c := f.pending[0].commit;
    var all := [c] + rest;
    assert f.pending[0] in f.pending;
    assert c.hash in Waiting(f) && c.hash in f.scheduled && c.hash !in Waiting(next);
    assert Hashes(all) == {c.hash} + Hashes(rest);
    forall x | x in rest
      ensures x.hash != c.hash
    {
    }
  }

  /** A set of commits that has the parents of its members, grafts apart. */
  ghost predicate HasParents(r: Repo, shallow: set<Oid>, all: set<Oid>) {
    forall oid, p ::
      oid in all && IsCommit(r, oid) && oid !in shallow && p in r[oid].commit.parents ==> p in all
  }

  lemma {:induction false} ListsOnlyReachable(r: Repo, shallow: set<Oid>, f: Front, all: set<Oid>)
    requires WellFormed(r, f) && Named(r) && Listing(r, shallow, f).Ok?
    requires HasParents(r, shallow, all) && Waiting(f) <= all
    ensures Hashes(Listing(r, shallow, f).value) <= all
    decreases Left(r, f)
  {
    hide Advance;
    if f.pending != [] {
      AdvanceLeavesLess(r, shallow, f);
      AdvanceIsExact(r, shallow, f);
      var c := f.pending[0].commit;
      assert f.pending[0] in f.pending;
      assert c.hash in Waiting(f) && IsCommit(r, c.hash) && r[c.hash].commit == c;
      var next := Advance(r, shallow, f).value;
      ListsOnlyReachable(r, shallow, next, all);
      assert Hashes([c] + Listing(r, shallow, next).value) == {c.hash} + Hashes(Listing(r, shallow, next).value);
    }
  }

  function Start(first: CommitInfo): Front {
    Front([Queued(first, 0)], {first.hash}, 1)
  }

  /** The full listing names every commit that can be reached from the first without passing a
      graft, no other, and none of them twice. */
  lemma ListingIsReachable(r: Repo, shallow: set<Oid>, first: CommitInfo, all: set<Oid>)
    requires Named(r) && Read(r, first.hash) == Ok(first) && Listing(r, shallow, Start(first)).Ok?
    ensures var commits := Listing(r, shallow, Start(first)).value;
      && first.hash in Hashes(commits) && HasParents(r, shallow, Hashes(commits))
      && (first.hash in all && HasParents(r, shallow, all) ==> Hashes(commits) <= all)
      && (forall c :: c in commits ==> Read(r, c.hash) == Ok(c))
      && (forall i, j :: 0 <= i < j < |commits| ==> commits[i].hash != commits[j].hash)
  {
    var f := Start(first);
    assert f.pending[0] in f.pending;
    assert Waiting(f) == {first.hash};
    ListingLists(r, shallow, f);
    if first.hash in all && HasParents(r, shallow, all) {
      ListsOnlyReachable(r, shallow, f, all);
    }
  }

  // ---- When it fails -----------------------------------------------------------------------------------

  /** What stands in the way of a listing. */
  predicate StandsInTheWay(r: Repo, p: Oid, reason: Reason) {
    match reason
    case Corrupt => p in r ==> r[p].Unparsable?
    case WrongObjectType => p in r && r[p].NotACommit?
  }

  lemma {:induction false} SchedulingFails(r: Repo, parents: seq<Oid>, f: Front) returns (p: Oid)
    requires Scheduling(r, parents, f).Failed?
    ensures p in parents && StandsInTheWay(r, p, Scheduling(r, parents, f).reason)
    decreases |parents|
  {
    hide Inserted;
    p := parents[0];
    if p in f.scheduled {
      p := SchedulingFails(r, parents[1..], f);
    } else if Read(r, p).Ok? {
      var next :=
        Front(Inserted(f.pending, Queued(Read(r, p).value, f.sequence)), f.scheduled + {p}, f.sequence + 1);
      p := SchedulingFails(r, parents[1..], next);
    }
  }

  lemma {:induction false} ListingFails(r: Repo, shallow: set<Oid>, f: Front, all: set<Oid>) returns (p: Oid)
    requires WellFormed(r, f) && Named(r) && HasParents(r, shallow, all) && Waiting(f) <= all
    requires Listing(r, shallow, f).Failed?
    ensures p in all && StandsInTheWay(r, p, Listing(r, shallow, f).reason)
    decreases Left(r, f)
  {
    hide Advance, Sorted, Listing, Left;
    ListingOfNothing(r, shallow, f);
    ListingUnfolds(r, shallow, f);
    AdvanceUnfolds(r, shallow, f);
    var c := f.pending[0].commit;
    assert f.pending[0] in f.pending;
    assert c.hash in Waiting(f) && IsCommit(r, c.hash) && r[c.hash].commit == c;
    if Advance(r, shallow, f).Failed? {
      p := SchedulingFails(r, c.parents, f.(pending := f.pending[1..]));
    } else {
      AdvanceLeavesLess(r, shallow, f);
      AdvanceIsExact(r, shallow, f);
      p := ListingFails(r, shallow, Advance(r, shallow, f).value, all);
    }
  }

  /** The full listing fails exactly if something that can be reached up to the grafts is not a commit: every set of
      objects that the listing would have to stay within has one that stands in its way. */
  lemma ListingFailsIff(r: Repo, shallow: set<Oid>, first: CommitInfo)
    requires Named(r) && Read(r, first.hash) == Ok(first)
    ensures var listing := Listing(r, shallow, Start(first));
      && (listing.Ok? <==>
          exists all: set<Oid> ::
            first.hash in all && HasParents(r, shallow, all) && forall x :: x in all ==> IsCommit(r, x))
      && (listing.Failed? ==>
          forall all :: first.hash in all && HasParents(r, shallow, all) ==>
            exists p :: p in all && StandsInTheWay(r, p, listing.reason))
  {
    hide Listing, HasParents;
    var f := Start(first);
    assert f.pending[0] in f.pending;
    assert Waiting(f) == {first.hash};
    var listing := Listing(r, shallow, f);
    if listing.Ok? {
      ListingIsReachable(r, shallow, first, {});
      var all := Hashes(listing.value);
      assert forall x :: x in all ==> IsCommit(r, x);
    } else {
      forall all | first.hash in all && HasParents(r, shallow, all)
        ensures exists p :: p in all && StandsInTheWay(r, p, listing.reason)
      {
        var p := ListingFails(r, shallow, f, all);
      }
    }
  }

  // ---- The order -------------------------------------------------------------------------------------

  /** No parent is newer than its child. */
  ghost predicate Dated(r: Repo) {
    forall c, p :: IsCommit(r, c) && IsCommit(r, p) && p in r[c].commit.parents ==>
      r[p].commit.committedAt <= r[c].commit.committedAt
  }

  /** Every parent is older than its child. */
  ghost predicate StrictlyDated(r: Repo) {
    forall c, p :: IsCommit(r, c) && IsCommit(r, p) && p in r[c].commit.parents ==>
      r[p].commit.committedAt < r[c].commit.committedAt
  }

  ghost predicate NoNewer(f: Front, date: int) {
    forall q :: q in f.pending ==> q.commit.committedAt <= date
  }

  lemma {:induction false} SchedulesNoNewer(r: Repo, c: CommitInfo, parents: seq<Oid>, f: Front)
    requires Named(r) && Dated(r) && Read(r, c.hash) == Ok(c) && (forall p :: p in parents ==> p in c.parents)
    requires NoNewer(f, c.committedAt) && Scheduling(r, parents, f).Ok?
    ensures NoNewer(Scheduling(r, parents, f).value, c.committedAt)
    decreases |parents|
  {
    if parents != [] {
      assert parents[0] in c.parents;
      if parents[0] in f.scheduled {
        SchedulesNoNewer(r, c, parents[1..], f);
      } else {
        assert IsCommit(r, c.hash) && IsCommit(r, parents[0]);
        SchedulesNoNewer(r, c, parents[1..], Enqueued(f, Read(r, parents[0]).value));
      }
    }
  }

  /** With such dates a listing is in order of date. */
  lemma {:induction false} ListingIsDated(r: Repo, shallow: set<Oid>, f: Front, i: nat, j: nat)
    requires WellFormed(r, f) && Named(r) && Dated(r) && Listing(r, shallow, f).Ok?
    requires i < j < |Listing(r, shallow, f).value|
    ensures Listing(r, shallow, f).value[i].committedAt >= Listing(r, shallow, f).value[j].committedAt
    decreases Left(r, f)
  {
    hide Sorted, Dated, NoNewer, WellFormed, Advance, Listing, Left, Waiting, ParentsOf, Read, Named;
    ListingOfNothing(r, shallow, f);
    ListingUnfolds(r, shallow, f);
    AdvanceLeavesLess(r, shallow, f);
    AdvanceIsExact(r, shallow, f);
    var next := Advance(r, shallow, f).value;
    var date := f.pending[0].commit.committedAt;
    if i > 0 {
      ListingIsDated(r, shallow, next, i - 1, j - 1);
    } else {
      AdvancesNoNewer(r, shallow, f);
      ListsNoNewer(r, shallow, next, date, j - 1);
    }
  }

  lemma AdvancesNoNewer(r: Repo, shallow: set<Oid>, f: Front)
    requires WellFormed(r, f) && Named(r) && Dated(r) && f.pending != [] && Advance(r, shallow, f).Ok?
    ensures NoNewer(Advance(r, shallow, f).value, f.pending[0].commit.committedAt)
  {
    hide Dated, Scheduling, Read;
    var c := f.pending[0].commit;
    assert f.pending[0] in f.pending;
    var rest := f.(pending := f.pending[1..]);
    forall q | q in rest.pending
      ensures q.commit.committedAt <= c.committedAt
    {
      var k :| 0 <= k < |rest.pending| && rest.pending[k] == q;
      assert Newer(f.pending[0], f.pending[k + 1]);
    }
    if c.hash !in shallow {
      SchedulesNoNewer(r, c, c.parents, rest);
    }
  }

  lemma {:induction false} ListsNoNewer(r: Repo, shallow: set<Oid>, f: Front, date: int, k: nat)
    requires WellFormed(r, f) && Named(r) && Dated(r) && Listing(r, shallow, f).Ok?
    requires NoNewer(f, date) && k < |Listing(r, shallow, f).value|
    ensures Listing(r, shallow, f).value[k].committedAt <= date
    decreases Left(r, f)
  {
    hide Sorted, Dated, WellFormed, Advance, Listing, Left, Waiting, ParentsOf, Read, Named;
    ListingOfNothing(r, shallow, f);
    ListingUnfolds(r, shallow, f);
    assert f.pending[0] in f.pending;
    if k > 0 {
      AdvanceLeavesLess(r, shallow, f);
      AdvanceIsExact(r, shallow, f);
      AdvancesNoNewer(r, shallow, f);
      ListsNoNewer(r, shallow, Advance(r, shallow, f).value, date, k - 1);
    }
  }

  /** If every parent is strictly older than its child, no parent is listed before one of its
      children, grafted or not. */
  lemma ParentsFollowChildren(r: Repo, shallow: set<Oid>, first: CommitInfo, i: nat, j: nat)
    requires Named(r) && Read(r, first.hash) == Ok(first) && Listing(r, shallow, Start(first)).Ok?
    requires StrictlyDated(r) && i < j < |Listing(r, shallow, Start(first)).value|
    ensures var commits := Listing(r, shallow, Start(first)).value;
      commits[i].hash !in commits[j].parents
  {
    var f := Start(first);
    var commits := Listing(r, shallow, f).value;
    assert f.pending[0] in f.pending;
    ListingIsDated(r, shallow, f, i, j);
    ListingLists(r, shallow, f);
    assert commits[i] in commits && commits[j] in commits;
    assert IsCommit(r, commits[i].hash) && IsCommit(r, commits[j].hash);
  }

  const A: CommitInfo := CommitInfo(1, 10, [2, 3])
  const B: CommitInfo := CommitInfo(2, 1, [3])
  const C: CommitInfo := CommitInfo(3, 5, [])

  /** Where timestamps lie, a parent can come first: the newest commit still waiting wins. */
  lemma SkewedDatesReorder()
    ensures var r := map[1 := ACommit(A), 2 := ACommit(B), 3 := ACommit(C)];
      Named(r) && Listing(r, {}, Start(A)) == Ok([A, C, B]) && C.hash in B.parents
  {
    hide Listing;
    var r := map[1 := ACommit(A), 2 := ACommit(B), 3 := ACommit(C)];
    var f0 := Start(A);
    var f1 := Front([Queued(C, 2), Queued(B, 1)], {1, 2, 3}, 3);
    var f2 := Front([Queued(B, 1)], {1, 2, 3}, 3);
    var f3 := Front([], {1, 2, 3}, 3);
    SkewedSchedule(r);
    assert f0.(pending := f0.pending[1..]) == Front([], {1}, 1);
    ListingUnfolds(r, {}, f0);
    ListingUnfolds(r, {}, f1);
    assert f2.(pending := f2.pending[1..]) == f3 && Scheduling(r, [3], f3) == Ok(f3);
    ListingUnfolds(r, {}, f2);
    ListingOfNothing(r, {}, f3);
    assert [B] + [] == [B] && [C] + [B] == [C, B] && [A] + [C, B] == [A, C, B];
  }

  lemma SkewedSchedule(r: Repo)
    requires Read(r, 2) == Ok(B) && Read(r, 3) == Ok(C)
    ensures Scheduling(r, [2, 3], Front([], {1}, 1)) ==
      Ok(Front([Queued(C, 2), Queued(B, 1)], {1, 2, 3}, 3))
  {
    var g := Front([Queued(B, 1)], {1, 2}, 2);
    assert Inserted([], Queued(B, 1)) == [Queued(B, 1)];
    assert Inserted([Queued(B, 1)], Queued(C, 2)) == [Queued(C, 2), Queued(B, 1)];
    assert [2, 3][1..] == [3] && [3][1..] == [];
    assert {1, 2} + {3} == {1, 2, 3} && {1} + {2} == {1, 2};
    assert Scheduling(r, [3], g) == Ok(Front([Queued(C, 2), Queued(B, 1)], {1, 2, 3}, 3));
  }

  // ---- The method ------------------------------------------------------------------------------------

  function After(commits: seq<CommitInfo>, rest: Answer<seq<CommitInfo>>): Answer<seq<CommitInfo>> {
    match rest
    case Failed(reason) => Failed(reason)
    case Ok(more) => Ok(commits + more)
  }

  lemma AfterJoins(a: seq<CommitInfo>, b: seq<CommitInfo>, rest: Answer<seq<CommitInfo>>)
    ensures After(a, After(b, rest)) == After(a + b, rest)
    ensures After([], rest) == rest
  {
    if rest.Ok? {
      assert a + b + rest.value == a + (b + rest.value);
      assert [] + rest.value == rest.value;
    }
  }

  lemma PageOfNothing(r: Repo, shallow: set<Oid>, f: Front, skip: nat, limit: nat)
    ensures f.pending == [] || limit == 0 ==> Page(r, shallow, f, skip, limit) == Ok([])
  {
    hide Advance, Left;
  }

  /** One commit of a page. */
  lemma PageUnfolds(r: Repo, shallow: set<Oid>, f: Front, skip: nat, limit: nat)
    requires f.pending != [] && limit > 0
    ensures skip == 0 && limit == 1 ==> Page(r, shallow, f, skip, limit) == Ok([f.pending[0].commit])
    ensures skip > 0 || limit > 1 ==>
      var advanced := Advance(r, shallow, f);
      && (advanced.Failed? ==> Page(r, shallow, f, skip, limit) == Failed(advanced.reason))
      && (advanced.Ok? && skip > 0 ==>
            Page(r, shallow, f, skip, limit) == Page(r, shallow, advanced.value, skip - 1, limit))
      && (advanced.Ok? && skip == 0 ==>
            Page(r, shallow, f, skip, limit) ==
            After([f.pending[0].commit], Page(r, shallow, advanced.value, 0, limit - 1)))
  {
    hide Advance, Left;
    AdvanceLeavesLess(r, shallow, f);
  }

  function PageFrom(r: Repo, shallow: set<Oid>, tip: Oid, offset: nat, limit: nat): Answer<seq<CommitInfo>> {
    match Read(r, tip)
    case Failed(reason) => Failed(reason)
    case Ok(first) => Page(r, shallow, Start(first), offset, limit)
  }

  /** Read one page of the history behind a commit; `None` is a repository without one. */
  method ReadHistory(r: Repo, shallow: set<Oid>, resolved: Option<Oid>, limit: nat, offset: nat)
    returns (answer: Answer<seq<CommitInfo>>)
    requires Named(r)
    ensures resolved.None? ==> answer == Ok([])
    ensures resolved.Some? ==> answer == PageFrom(r, shallow, resolved.value, offset, limit)
  {
    hide Advance, Scheduling, Inserted, Sorted, Left, Page;
    if resolved.None? {
      return Ok([]);
    }
    var first := Read(r, resolved.value);
    if first.Failed? {
      return Failed(first.reason);
    }
    var commits: seq<CommitInfo> := [];
    var pending := new CommitDateQueue();
    pending.Push(first.value);
    InsertedAlone(Queued(first.value, 0));
    var scheduled := {resolved.value};
    var skipped: nat := 0;
    ghost var f := Start(first.value);
    ghost var whole := Page(r, shallow, f, offset, limit);
    AfterJoins([], [], whole);
    while pending.Length() > 0 && |commits| < limit
      invariant pending.Valid() && fresh(pending)
      invariant f == Front(pending.order, scheduled, pending.sequence)
      invariant skipped <= offset && |commits| <= limit && (commits != [] ==> skipped == offset)
      invariant whole == After(commits, Page(r, shallow, f, offset - skipped, limit - |commits|))
      decreases Left(r, f)
    {
      ghost var listed := commits;
      PageUnfolds(r, shallow, f, offset - skipped, limit - |commits|);
      AdvanceUnfolds(r, shallow, f);
      AdvanceLeavesLess(r, shallow, f);
      var popped := pending.Pop();
      var parsed := popped.value;
      if skipped < offset {
        skipped := skipped + 1;
      } else {
        commits := commits + [parsed];
        if |commits| == limit {
          assert whole == After(listed, Ok([parsed]));
          break;
        }
      }
      f := Front(pending.order, scheduled, pending.sequence);
      if parsed.hash !in shallow {
        var missing;
        missing, scheduled, f := Schedule(r, parsed.parents, pending, scheduled);
        if missing.Some? {
          return Failed(missing.value);
        }
      }
      AfterJoins(listed, [parsed], Page(r, shallow, f, 0, limit - |commits|));
    }
    PageOfNothing(r, shallow, f, offset - skipped, limit - |commits|);
    assert commits + [] == commits;
    return Ok(commits);
  }

  /** Queue the parents that were never scheduled. */
  method Schedule(r: Repo, parents: seq<Oid>, pending: CommitDateQueue, already: set<Oid>)
    returns (missing: Option<Reason>, scheduled: set<Oid>, ghost f: Front)
    requires pending.Valid()
    modifies pending
    ensures pending.Valid() && f == Front(pending.order, scheduled, pending.sequence)
    ensures Scheduling(r, parents, Front(old(pending.order), already, old(pending.sequence))) ==
      if missing.Some? then Failed(missing.value) else Ok(f)
  {
    hide Inserted, Sorted;
    scheduled := already;
    missing := None;
    f := Front(pending.order, scheduled, pending.sequence);
    var i := 0;
    while i < |parents|
      invariant 0 <= i <= |parents| && pending.Valid()
      invariant f == Front(pending.order, scheduled, pending.sequence)
      invariant Scheduling(r, parents, Front(old(pending.order), already, old(pending.sequence)))
        == Scheduling(r, parents[i..], f)
    {
      var parent := parents[i];
      assert parents[i..][1..] == parents[i + 1..];
      i := i + 1;
      if parent in scheduled {
        continue;
      }
      var loaded := Read(r, parent);
      if loaded.Failed? {
        missing := Some(loaded.reason);
        return;
      }
      scheduled := scheduled + {parent};
      pending.Push(loaded.value);
      f := Front(pending.order, scheduled, pending.sequence);
    }
  }
}
