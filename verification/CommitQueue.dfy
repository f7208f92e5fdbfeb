/** The queue behind a history listing: a binary heap, newest commit first, in which the order of
    insertion breaks ties. */
module CommitQueue {
  import opened Options
  import opened Graph

  datatype CommitInfo = CommitInfo(hash: Oid, committedAt: int, parents: seq<Oid>)

  datatype Queued = Queued(commit: CommitInfo, sequence: nat)

  predicate Newer(left: Queued, right: Queued) {
    || left.commit.committedAt > right.commit.committedAt
    || (left.commit.committedAt == right.commit.committedAt && left.sequence < right.sequence)
  }

  predicate Sorted(order: seq<Queued>) {
    forall i, j :: 0 <= i < j < |order| ==> Newer(order[i], order[j])
  }

  /** The sorted queue with one more commit. */
  function Inserted(order: seq<Queued>, q: Queued): (r: seq<Queued>)
    ensures multiset(r) == multiset(order) + multiset{q}
    ensures |r| == |order| + 1
    ensures forall x :: x in r <==> x in order || x == q
    decreases |order|
  {
    if order == [] || Newer(q, order[0]) then [q] + order
    else
      assert order == [order[0]] + order[1..];
      [order[0]] + Inserted(order[1..], q)
  }

  lemma InsertedAlone(q: Queued)
    ensures Inserted([], q) == [q]
  {
  }

  lemma {:induction false} InsertedIsSorted(order: seq<Queued>, q: Queued)
    requires Sorted(order) && forall x :: x in order ==> x.sequence != q.sequence
    ensures Sorted(Inserted(order, q))
    decreases |order|
  {
    if order != [] && !Newer(q, order[0]) {
      InsertedIsSorted(order[1..], q);
      forall x | x in Inserted(order[1..], q)
        ensures Newer(order[0], x)
      {
        if x != q {
          var i :| 0 <= i < |order[1..]| && order[1..][i] == x;
        }
      }
    }
  }

  lemma FirstIsNewest(order: seq<Queued>)
    requires Sorted(order) && order != []
    ensures Sorted(order[1..]) && order == [order[0]] + order[1..]
    ensures forall i :: 0 <= i < |order| ==> order[0].commit.committedAt >= order[i].commit.committedAt
  {
    forall i | 0 < i < |order|
      ensures order[0].commit.committedAt >= order[i].commit.committedAt
    {
      assert Newer(order[0], order[i]);
    }
  }

  lemma InsertedUnfolds(order: seq<Queued>, q: Queued)
    requires order != []
    ensures Inserted(order, q) ==
      if Newer(q, order[0]) then [q] + order else [order[0]] + Inserted(order[1..], q)
  {
  }

  /** The place of a commit of that date: behind all of its own date or a newer one. */
  predicate Stands(order: seq<Queued>, q: Queued, k: nat) {
    && k <= |order|
    && forall i :: 0 <= i < |order| ==> (i < k <==> order[i].commit.committedAt >= q.commit.committedAt)
  }

  lemma StandsNext(order: seq<Queued>, q: Queued, j: nat)
    requires order != [] && order[0].commit.committedAt >= q.commit.committedAt && Stands(order[1..], q, j)
    ensures Stands(order, q, j + 1)
    ensures order[..j + 1] == [order[0]] + order[1..][..j] && order[j + 1..] == order[1..][j..]
  {
    assert forall i :: 0 < i < |order| ==> order[i] == order[1..][i - 1];
  }

  /** A commit that comes after the others goes behind every commit of its own date or a newer one, and before all
      that are older: of equal dates the first to come is the first to leave. */
  lemma {:induction false} LatestStands(order: seq<Queued>, q: Queued) returns (k: nat)
    requires Sorted(order) && forall x :: x in order ==> x.sequence < q.sequence
    ensures Stands(order, q, k) && Inserted(order, q) == order[..k] + [q] + order[k..]
    decreases |order|
  {
    hide Inserted, Sorted;
    k := 0;
    if order == [] {
      InsertedAlone(q);
    } else {
      FirstIsNewest(order);
      InsertedUnfolds(order, q);
      assert order[0] in order;
      if !Newer(q, order[0]) {
        hide Stands;
        var j := LatestStands(order[1..], q);
        k := j + 1;
        StandsNext(order, q, j);
      }
    }
  }

  // ---- The heap ----------------------------------------------------------------------------------

  function Parent(i: nat): nat
    requires i > 0
  {
    (i - 1) / 2
  }

  predicate HeapOrdered(h: seq<Queued>) {
    forall i :: 0 < i < |h| ==> !Newer(h[i], h[Parent(i)])
  }

  /** Ordered, but for what was put at `at` being perhaps too new for its place. */
  predicate Rising(h: seq<Queued>, at: nat) {
    && at < |h|
    && (forall i :: 0 < i < |h| && i != at ==> !Newer(h[i], h[Parent(i)]))
    && (at > 0 ==> forall i :: 0 < i < |h| && Parent(i) == at ==> !Newer(h[i], h[Parent(at)]))
  }

  /** Ordered, but for what was put at `at` being perhaps too old for its place. */
  predicate Sinking(h: seq<Queued>, at: nat) {
    && at < |h|
    && (forall i :: 0 < i < |h| && Parent(i) != at ==> !Newer(h[i], h[Parent(i)]))
    && (at > 0 ==> forall i :: 0 < i < |h| && Parent(i) == at ==> !Newer(h[i], h[Parent(at)]))
  }

  function Swapped(h: seq<Queued>, i: nat, j: nat): seq<Queued>
    requires i < |h| && j < |h|
  {
    h[i := h[j]][j := h[i]]
  }

  lemma SwapKeepsContents(h: seq<Queued>, i: nat, j: nat)
    requires i < |h| && j < |h|
    ensures multiset(Swapped(h, i, j)) == multiset(h)
  {
  }

  /** Moving one element into the hole at `at` moves the hole, as far as what belongs there goes. */
  lemma HoleMoves(heap: seq<Queued>, at: nat, other: nat, q: Queued)
    requires at < |heap| && other < |heap| && at != other
    ensures heap[at := heap[other]][other := q] == Swapped(heap[at := q], at, other)
    ensures multiset(Swapped(heap[at := q], at, other)) == multiset(heap[at := q])
  {
    SwapKeepsContents(heap[at := q], at, other);
  }

  lemma RisesOn(h: seq<Queued>, at: nat)
    requires Rising(h, at) && at > 0 && Newer(h[at], h[Parent(at)])
    ensures Rising(Swapped(h, at, Parent(at)), Parent(at))
  {
    var p := Parent(at);
    var g := Swapped(h, at, p);
    forall i | 0 < i < |g| && i != p
      ensures !Newer(g[i], g[Parent(i)])
    {
      assert !Newer(h[at], h[p]) || i == at || Parent(i) == at || Parent(i) != at;
    }
  }

  lemma SinksOn(h: seq<Queued>, at: nat, child: nat)
    requires Sinking(h, at) && IsNewerChild(h, at, child) && Newer(h[child], h[at])
    ensures Sinking(Swapped(h, at, child), child)
  {
  }

  lemma LeafRises(h: seq<Queued>, q: Queued)
    requires HeapOrdered(h)
    ensures Rising(h + [q], |h|)
  {
  }

  lemma HasRisen(h: seq<Queued>, at: nat)
    requires Rising(h, at) && (at > 0 ==> !Newer(h[at], h[Parent(at)]))
    ensures HeapOrdered(h)
  {
  }

  /** The last element of the heap takes the place of its root. */
  lemma RootSinks(h: seq<Queued>)
    requires HeapOrdered(h) && |h| > 1
    ensures Sinking(h[..|h| - 1][0 := h[|h| - 1]], 0)
    ensures multiset(h[..|h| - 1][0 := h[|h| - 1]]) == multiset(h) - multiset{h[0]}
  {
    assert h == h[..|h| - 1] + [h[|h| - 1]];
  }

  /** The newer child of a place, where it has one. */
  predicate IsNewerChild(h: seq<Queued>, at: nat, child: nat) {
    && 0 < child < |h| && Parent(child) == at
    && forall i :: 0 < i < |h| && Parent(i) == at ==> !Newer(h[i], h[child])
  }

  lemma ChildIsNewer(heap: seq<Queued>, at: nat, child: nat, last: Queued)
    requires 2 * at + 1 < |heap|
    requires child ==
      if 2 * at + 2 < |heap| && Newer(heap[2 * at + 2], heap[2 * at + 1]) then 2 * at + 2 else 2 * at + 1
    ensures at < child < |heap|
    ensures IsNewerChild(heap[at := last], at, child) && heap[at := last][child] == heap[child]
  {
    var h := heap[at := last];
    forall i | 0 < i < |h| && Parent(i) == at
      ensures !Newer(h[i], h[child])
    {
      assert i == 2 * at + 1 || i == 2 * at + 2;
    }
  }

  lemma HasSunk(h: seq<Queued>, at: nat, child: nat)
    requires Sinking(h, at)
    requires 2 * at + 1 >= |h| || (IsNewerChild(h, at, child) && !Newer(h[child], h[at]))
    ensures HeapOrdered(h)
  {
    forall i | 0 < i < |h|
      ensures !Newer(h[i], h[Parent(i)])
    {
    }
  }

  lemma {:induction false} RootIsNewest(h: seq<Queued>, i: nat)
    requires HeapOrdered(h) && i < |h|
    ensures !Newer(h[i], h[0])
    decreases i
  {
    if i > 0 {
      RootIsNewest(h, Parent(i));
    }
  }

  lemma RootComesFirst(h: seq<Queued>, order: seq<Queued>)
    requires HeapOrdered(h) && Sorted(order) && multiset(h) == multiset(order) && h != []
    ensures order != [] && order[0] == h[0]
  {
    assert h[0] in multiset(h);
    var k :| 0 <= k < |order| && order[k] == h[0];
    assert order[0] in multiset(order);
    var i :| 0 <= i < |h| && h[i] == order[0];
    RootIsNewest(h, i);
  }

  lemma RestIsSorted(order: seq<Queued>)
    requires Sorted(order) && order != []
    ensures Sorted(order[1..]) && multiset(order[1..]) == multiset(order) - multiset{order[0]}
  {
    assert order == [order[0]] + order[1..];
  }

  lemma NothingIsOrdered()
    ensures HeapOrdered([]) && Sorted([])
  {
  }

  class CommitDateQueue {
    var heap: seq<Queued>
    var sequence: nat
    ghost var order: seq<Queued>

    ghost predicate Valid()
      reads this
    {
      && HeapOrdered(heap) && Sorted(order) && multiset(heap) == multiset(order)
      && (forall q :: q in order ==> q.sequence < sequence)
    }

    constructor ()
      ensures Valid() && order == [] && sequence == 0
    {
      heap, sequence, order := [], 0, [];
    }

    function Length(): (n: nat)
      reads this
      requires Valid()
      ensures n == |order|
    {
      assert |multiset(heap)| == |multiset(order)|;
      |heap|
    }

    method Push(commit: CommitInfo)
      requires Valid()
      modifies this
      ensures Valid() && sequence == old(sequence) + 1
      ensures order == Inserted(old(order), Queued(commit, old(sequence)))
    {
      hide Rising, HeapOrdered, Sorted, Inserted, Newer, Swapped;
      var queued := Queued(commit, sequence);
      InsertedIsSorted(order, queued);
      LeafRises(heap, queued);
      order := Inserted(order, queued);
      sequence := sequence + 1;
      heap := heap + [queued];
      var at: nat := |heap| - 1;
      assert heap[at := queued] == heap;
      while at > 0
        invariant at < |heap| && Rising(heap[at := queued], at) && multiset(heap[at := queued]) == multiset(order)
        modifies this`heap
        decreases at
      {
        var parent := Parent(at);
        if !Newer(queued, heap[parent]) {
          break;
        }
        ghost var h := heap[at := queued];
        RisesOn(h, at);
        HoleMoves(heap, at, parent, queued);
        heap := heap[at := heap[parent]];
        at := parent;
      }
      heap := heap[at := queued];
      HasRisen(heap, at);
    }

    method Pop() returns (newest: Option<CommitInfo>)
      requires Valid()
      modifies this
      ensures Valid() && sequence == old(sequence)
      ensures old(order) == [] ==> newest.None? && order == []
      ensures old(order) != [] ==> newest == Some(old(order)[0].commit) && order == old(order)[1..]
    {
      hide Sinking, HeapOrdered, Sorted, Newer;
      if heap == [] {
        assert |multiset(heap)| == |multiset(order)|;
        return None;
      }
      var first, last := heap[0], heap[|heap| - 1];
      RootComesFirst(heap, order);
      RestIsSorted(order);
      newest := Some(first.commit);
      if |heap| == 1 {
        assert |multiset(heap)| == |multiset(order)|;
        heap, order := [], [];
        NothingIsOrdered();
        return;
      }
      RootSinks(heap);
      order := order[1..];
      heap := heap[..|heap| - 1];
      SinkFromRoot(last);
    }

    /** What was last in the heap sinks from its root to its place. */
    method SinkFromRoot(last: Queued)
      requires heap != [] && Sinking(heap[0 := last], 0)
      modifies this`heap
      ensures HeapOrdered(heap) && multiset(heap) == multiset(old(heap)[0 := last])
    {
      hide Sinking, HeapOrdered, Newer, IsNewerChild, Swapped, Parent;
      var at: nat, child: nat := 0, 0;
      while true
        invariant at < |heap| && Sinking(heap[at := last], at)
          && multiset(heap[at := last]) == multiset(old(heap)[0 := last])
        modifies this`heap
        decreases |heap| - at
      {
        var left := 2 * at + 1;
        if left >= |heap| {
          break;
        }
        var right := left + 1;
        child := if right < |heap| && Newer(heap[right], heap[left]) then right else left;
        ghost var h := heap[at := last];
        ChildIsNewer(heap, at, child, last);
        if !Newer(heap[child], last) {
          break;
        }
        SinksOn(h, at, child);
        HoleMoves(heap, at, child, last);
        heap := heap[at := heap[child]];
        at := child;
      }
      HasSunk(heap[at := last], at, child);
      heap := heap[at := last];
    }
  }
}
