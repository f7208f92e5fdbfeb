/** The order a pack is written in: every delta after its base, as far as the relations
    between them allow. */
module PackOrder {
  import opened Graph
  import opened Options
  import opened PackFormat

  /** The base of `x` when it travels in the same pack. */
  predicate Depends(oids: seq<Name>, bases: map<Name, Name>, x: Name) {
    x in bases && bases[x] in oids && bases[x] != x
  }

  /** `x` stands in `order` before `y` does. */
  predicate Before(order: seq<Name>, x: Name, y: Name) {
    exists i, j :: 0 <= i < j < |order| && order[i] == x && order[j] == y
  }

  /** Following bases within the pack from `x` comes to an end after `n` steps. */
  predicate Rooted(oids: seq<Name>, bases: map<Name, Name>, x: Name, n: nat)
    decreases n
  {
    !Depends(oids, bases, x) || (n > 0 && Rooted(oids, bases, bases[x], n - 1))
  }

  /** The queue of objects that may be written: each once, after its base. */
  predicate Queue(oids: seq<Name>, bases: map<Name, Name>, ready: seq<Name>) {
    && Distinct(ready)
    && (forall x :: x in ready ==> x in oids)
    && forall j :: 0 <= j < |ready| && Depends(oids, bases, ready[j]) ==> bases[ready[j]] in ready[..j]
  }

  /** Whatever depends on the first `at` of the queue is queued, up to the first `k` of its
      dependents. */
  predicate Covers(oids: seq<Name>, bases: map<Name, Name>, ready: seq<Name>, at: nat) {
    && (forall x :: x in oids && !Depends(oids, bases, x) ==> x in ready)
    && forall x :: x in oids && Depends(oids, bases, x) && at <= |ready| && bases[x] in ready[..at] ==> x in ready
  }

  /** Which objects depend on which, and which wait for another. */
  method Relate(oids: seq<Name>, bases: map<Name, Name>)
      returns (dependents: map<Name, seq<Name>>, dependentOids: set<Name>)
    ensures forall x :: x in dependentOids <==> x in oids && Depends(oids, bases, x)
    ensures forall b, x :: b in dependents && x in dependents[b] ==>
      x in oids && Depends(oids, bases, x) && bases[x] == b
    ensures forall x :: x in oids && Depends(oids, bases, x) ==> bases[x] in dependents && x in dependents[bases[x]]
  {
    dependents, dependentOids := map[], {};
    for i := 0 to |oids|
      invariant forall x :: x in dependentOids <==> x in oids[..i] && Depends(oids, bases, x)
      invariant forall b, x :: b in dependents && x in dependents[b] ==>
        x in oids[..i] && Depends(oids, bases, x) && bases[x] == b
      invariant forall x :: x in oids[..i] && Depends(oids, bases, x) ==>
        bases[x] in dependents && x in dependents[bases[x]]
    {
      var oid := oids[i];
      assert oids[..i + 1] == oids[..i] + [oid];
      if oid in bases && bases[oid] in oids && bases[oid] != oid {
        var base := bases[oid];
        dependentOids := dependentOids + {oid};
        dependents := dependents[base := (if base in dependents then dependents[base] else []) + [oid]];
      }
    }
    assert oids[..|oids|] == oids;
  }

  method Independent(oids: seq<Name>, bases: map<Name, Name>, dependentOids: set<Name>) returns (ready: seq<Name>)
    requires Distinct(oids) && forall x :: x in dependentOids <==> x in oids && Depends(oids, bases, x)
    ensures Queue(oids, bases, ready)
    ensures forall x :: x in ready <==> x in oids && !Depends(oids, bases, x)
  {
    ready := [];
    for i := 0 to |oids|
      invariant Queue(oids, bases, ready)
      invariant forall x :: x in ready <==> x in oids[..i] && !Depends(oids, bases, x)
    {
      assert oids[..i + 1] == oids[..i] + [oids[i]];
      if oids[i] !in dependentOids {
        NotYet(oids, i);
        QueueMore(oids, bases, ready, oids[i]);
        ready := ready + [oids[i]];
      }
    }
    assert oids[..|oids|] == oids;
  }

  lemma NotYet(oids: seq<Name>, i: nat)
    requires Distinct(oids) && i < |oids|
    ensures oids[i] !in oids[..i]
  {
  }

  lemma QueueMore(oids: seq<Name>, bases: map<Name, Name>, ready: seq<Name>, x: Name)
    requires Queue(oids, bases, ready) && x in oids && x !in ready
    requires Depends(oids, bases, x) ==> bases[x] in ready
    ensures Queue(oids, bases, ready + [x])
  {
    var more := ready + [x];
    forall j | 0 <= j < |more| && Depends(oids, bases, more[j])
      ensures bases[more[j]] in more[..j]
    {
      assert more[..j] == ready[..j];
      if j == |ready| {
        assert ready[..j] == ready;
      }
    }
  }

  /** Queues the dependents of one object that are not queued yet. */
  method QueueDependents(oids: seq<Name>, bases: map<Name, Name>, ready: seq<Name>, base: Name, waiting: seq<Name>)
      returns (more: seq<Name>)
    requires Queue(oids, bases, ready) && base in ready
    requires forall x :: x in waiting ==> x in oids && Depends(oids, bases, x) && bases[x] == base
    ensures Queue(oids, bases, more) && ready <= more && forall x :: x in waiting ==> x in more
  {
    more := ready;
    for k := 0 to |waiting|
      invariant Queue(oids, bases, more) && ready <= more && base in more
      invariant forall x :: x in waiting[..k] ==> x in more
    {
      assert waiting[..k + 1] == waiting[..k] + [waiting[k]];
      if waiting[k] !in more {
        assert waiting[k] in waiting;
        QueueMore(oids, bases, more, waiting[k]);
        more := more + [waiting[k]];
      }
    }
    assert waiting[..|waiting|] == waiting;
  }

  lemma CoversNext(oids: seq<Name>, bases: map<Name, Name>, ready: seq<Name>, at: nat, more: seq<Name>)
    requires Covers(oids, bases, ready, at) && at < |ready| && ready <= more
    requires forall x :: x in oids && Depends(oids, bases, x) && bases[x] == ready[at] ==> x in more
    ensures Covers(oids, bases, more, at + 1)
  {
    assert more[..at + 1] == ready[..at] + [ready[at]];
    forall x | x in ready
      ensures x in more
    {
      var i :| 0 <= i < |ready| && ready[i] == x;
      assert more[i] == x;
    }
  }

  /** An object whose bases come to an end is queued. */
  lemma {:induction false} RootedIsQueued(oids: seq<Name>, bases: map<Name, Name>, ready: seq<Name>, x: Name, n: nat)
    requires Covers(oids, bases, ready, |ready|) && x in oids && Rooted(oids, bases, x, n)
    ensures x in ready
    decreases n
  {
    if Depends(oids, bases, x) {
      RootedIsQueued(oids, bases, ready, bases[x], n - 1);
      assert ready[..|ready|] == ready;
    }
  }

  lemma {:induction false} QueuedIsShort(oids: seq<Name>, ready: seq<Name>)
    requires Distinct(ready) && forall x :: x in ready ==> x in oids
    ensures |ready| <= |oids|
  {
    if ready != [] {
      var n := |ready| - 1;
      assert ready[n] in ready;
      var i :| 0 <= i < |oids| && oids[i] == ready[n];
      var rest := oids[..i] + oids[i + 1..];
      forall x | x in ready[..n]
        ensures x in rest
      {
        assert x in ready;
        var j :| 0 <= j < |oids| && oids[j] == x;
        assert j < i ==> oids[..i][j] == x;
        assert j > i ==> oids[i + 1..][j - i - 1] == x;
      }
      QueuedIsShort(rest, ready[..n]);
    }
  }

  /** The queue run through: what depends on something queued is queued behind it. */
  method RunQueue(oids: seq<Name>, bases: map<Name, Name>) returns (ready: seq<Name>)
    requires Distinct(oids)
    ensures Queue(oids, bases, ready) && Covers(oids, bases, ready, |ready|)
  {
    hide Depends;
    var dependents, dependentOids := Relate(oids, bases);
    ready := Independent(oids, bases, dependentOids);
    var at := 0;
    while at < |ready|
      invariant at <= |ready| && Queue(oids, bases, ready) && Covers(oids, bases, ready, at)
      decreases |oids| - at
    {
      hide Queue, Covers;
      var oid := ready[at];
      QueueIsShort(oids, bases, ready);
      var waiting := if oid in dependents then dependents[oid] else [];
      var more := QueueDependents(oids, bases, ready, oid, waiting);
      CoversNext(oids, bases, ready, at, more);
      ready, at := more, at + 1;
    }
  }

  lemma QueueIsShort(oids: seq<Name>, bases: map<Name, Name>, ready: seq<Name>)
    requires Queue(oids, bases, ready)
    ensures |ready| <= |oids|
  {
    hide Depends;
    QueuedIsShort(oids, ready);
  }

  /** What is behind a cycle, which no valid pack leaves, follows at the end. */
  method AppendRest(oids: seq<Name>, ready: seq<Name>) returns (ordered: seq<Name>)
    requires Distinct(oids) && Distinct(ready) && forall x :: x in ready ==> x in oids
    ensures Distinct(ordered) && ready <= ordered && forall x :: x in ordered <==> x in oids
  {
    ordered := ready;
    for i := 0 to |oids|
      invariant Distinct(ordered) && ready <= ordered
      invariant forall x :: x in ordered <==> x in ready || x in oids[..i]
    {
      assert oids[..i + 1] == oids[..i] + [oids[i]];
      if oids[i] !in ready {
        NotYet(oids, i);
        ordered := ordered + [oids[i]];
      }
    }
    assert oids[..|oids|] == oids;
  }

  /** Orders a pack: a permutation, in which every object comes after its base, unless the
      chain of its bases within the pack never ends. */
  method OrderPack(oids: seq<Name>, bases: map<Name, Name>) returns (ordered: seq<Name>)
    requires Distinct(oids)
    ensures Distinct(ordered) && forall x :: x in ordered <==> x in oids
    ensures forall x, n: nat :: x in oids && Depends(oids, bases, x) && Rooted(oids, bases, x, n) ==>
      Before(ordered, bases[x], x)
  {
    hide Rooted, Covers, Before;
    var ready := RunQueue(oids, bases);
    ordered := AppendRest(oids, ready);
    forall x, n: nat | x in oids && Depends(oids, bases, x) && Rooted(oids, bases, x, n)
      ensures Before(ordered, bases[x], x)
    {
      RootedIsQueued(oids, bases, ready, x, n);
      QueuedAfterBase(oids, bases, ready, ordered, x);
    }
  }

  /** The base of each of these that travels along is among them, and is of lower rank: no chain of bases from them
      goes round in a circle. */
  predicate Ranked(oids: seq<Name>, bases: map<Name, Name>, some: set<Name>, rank: Name -> nat) {
    forall x :: x in some ==>
      && x in oids
      && (x in bases && bases[x] in oids && bases[x] != x ==> bases[x] in some && rank(bases[x]) < rank(x))
  }

  lemma {:induction false} RankedIsRooted(
      oids: seq<Name>, bases: map<Name, Name>, some: set<Name>, rank: Name -> nat, x: Name)
    requires Ranked(oids, bases, some, rank) && x in some
    ensures Rooted(oids, bases, x, rank(x))
    decreases rank(x)
  {
    if Depends(oids, bases, x) {
      RankedIsRooted(oids, bases, some, rank, bases[x]);
      RootedLonger(oids, bases, bases[x], rank(bases[x]), rank(x) - 1);
    }
  }

  lemma {:induction false} RootedLonger(oids: seq<Name>, bases: map<Name, Name>, x: Name, n: nat, m: nat)
    requires Rooted(oids, bases, x, n) && n <= m
    ensures Rooted(oids, bases, x, m)
    decreases n
  {
    if Depends(oids, bases, x) {
      RootedLonger(oids, bases, bases[x], n - 1, m - 1);
    }
  }

  /** Whatever goes round in a circle elsewhere: of objects whose chains of bases do not, each stands behind its
      base, if that travels along. */
  lemma BasesComeFirst(
      oids: seq<Name>, bases: map<Name, Name>, ordered: seq<Name>, some: set<Name>, rank: Name -> nat, x: Name)
    requires forall y, n: nat :: y in oids && Depends(oids, bases, y) && Rooted(oids, bases, y, n) ==>
      Before(ordered, bases[y], y)
    requires Ranked(oids, bases, some, rank) && x in some && x in bases && bases[x] in oids && bases[x] != x
    ensures exists i, j :: 0 <= i < j < |ordered| && ordered[i] == bases[x] && ordered[j] == x
  {
    hide Rooted;
    RankedIsRooted(oids, bases, some, rank, x);
    assert Before(ordered, bases[x], x);
  }

  lemma QueuedAfterBase(oids: seq<Name>, bases: map<Name, Name>, ready: seq<Name>, ordered: seq<Name>, x: Name)
    requires Queue(oids, bases, ready) && x in ready && Depends(oids, bases, x) && ready <= ordered
    ensures Before(ordered, bases[x], x)
  {
    var j :| 0 <= j < |ready| && ready[j] == x;
    var i :| 0 <= i < j && ready[i] == bases[x];
    assert ordered[i] == bases[x] && ordered[j] == x;
  }
}
