/** How a flock unit sorts the members its proximity sensor currently holds:
    hostile units to avoid, members of its own flock to separate from and
    to follow, and everyone else ignored. The vector sums built from these
    sets are left to the engine; the model keeps the counts that decide which
    steering terms are computed. */
module FlockNeighbours {
  import opened Basics

  /** One sensed unit as the force computation reads it: its flock id, its
      plane distance from the unit, whether it is "legit" (FlockFilter's flag
      for a usable dynamics body) and its rigidbody (present, kinematic). */
  datatype Neighbour = Neighbour(
    id: int,
    dist: real,
    isLegit: bool,
    hasBody: bool,
    isKinematic: bool)

  /** The unit's own FlockFilter: its flock id and the avoid relation
      (CheckAvoid, whose body is not part of this model). */
  datatype Filter = Filter(id: int, checkAvoid: int -> bool)

  /** How many sensed units fell into each steering term. */
  datatype Tally = Tally(numSeparate: nat, numAvoid: nat, numFollow: nat)

  const NoNeighbours := Tally(0, 0, 0)

  function Plus(a: Tally, b: Tally): Tally
  {
    Tally(a.numSeparate + b.numSeparate, a.numAvoid + b.numAvoid, a.numFollow + b.numFollow)
  }

  /** The counts ComputeSeparate keeps: it never counts followers. */
  function SeparateOnly(t: Tally): Tally
  {
    t.(numFollow := 0)
  }

  /** A destroyed sensor entry is null and skipped. */
  predicate Avoids(n: Option<Neighbour>, f: Filter, avoidDistance: real)
  {
    n.Some? && f.checkAvoid(n.value.id) && n.value.dist < avoidDistance
  }

  /** Same flock (and not to be avoided) is tested only after the avoid test. */
  predicate SameGroup(n: Option<Neighbour>, f: Filter)
  {
    n.Some? && !f.checkAvoid(n.value.id) && n.value.id == f.id
  }

  predicate Separates(n: Option<Neighbour>, f: Filter, separateDistance: real)
  {
    SameGroup(n, f) && n.value.dist < separateDistance
  }

  /** Only same-flock units with a legit, non-kinematic body are followed
      (aligned with and drawn towards). */
  predicate Follows(n: Option<Neighbour>, f: Filter)
  {
    SameGroup(n, f) && n.value.isLegit && n.value.hasBody && !n.value.isKinematic
  }

  /** The three counted steering terms. */
  datatype Term = SeparateTerm | AvoidTerm | FollowTerm

  predicate Qualifies(t: Term, n: Option<Neighbour>, f: Filter, separateDistance: real, avoidDistance: real)
  {
    match t
    case SeparateTerm => Separates(n, f, separateDistance)
    case AvoidTerm => Avoids(n, f, avoidDistance)
    case FollowTerm => Follows(n, f)
  }

  /** How many entries of the snapshot qualify for term `t`. */
  function Count(items: seq<Option<Neighbour>>, t: Term, f: Filter, separateDistance: real, avoidDistance: real): nat
  {
    if |items| == 0 then 0
    else Count(items[..|items| - 1], t, f, separateDistance, avoidDistance)
         + (if Qualifies(t, items[|items| - 1], f, separateDistance, avoidDistance) then 1 else 0)
  }

  /** The counts of a whole snapshot. */
  function TallyOf(items: seq<Option<Neighbour>>, f: Filter, separateDistance: real, avoidDistance: real): Tally
  {
    Tally(
      Count(items, SeparateTerm, f, separateDistance, avoidDistance),
      Count(items, AvoidTerm, f, separateDistance, avoidDistance),
      Count(items, FollowTerm, f, separateDistance, avoidDistance))
  }

  /** Number of entries that are still alive. */
  function Present(items: seq<Option<Neighbour>>): nat
  {
    if |items| == 0 then 0
    else Present(items[..|items| - 1]) + (if items[|items| - 1].Some? then 1 else 0)
  }

  /** The snapshot with its null entries removed. */
  function Alive(items: seq<Option<Neighbour>>): (r: seq<Option<Neighbour>>)
    ensures |r| == Present(items)
    ensures forall i :: 0 <= i < |r| ==> r[i].Some?
  {
    if |items| == 0 then []
    else Alive(items[..|items| - 1]) + (if items[|items| - 1].Some? then [items[|items| - 1]] else [])
  }

  /** Counting two parts of the snapshot separately and adding gives the
      count of the whole. */
  lemma {:induction false} CountAppend(a: seq<Option<Neighbour>>, b: seq<Option<Neighbour>>,
                                       t: Term, f: Filter, sep: real, avoid: real)
    ensures Count(a + b, t, f, sep, avoid) == Count(a, t, f, sep, avoid) + Count(b, t, f, sep, avoid)
    decreases |b|
  {
    if |b| == 0 {
      assert a + b == a;
    } else {
      var ab := a + b;
      assert ab[..|ab| - 1] == a + b[..|b| - 1];
      assert ab[|ab| - 1] == b[|b| - 1];
      CountAppend(a, b[..|b| - 1], t, f, sep, avoid);
    }
  }

  lemma TallyAppend(a: seq<Option<Neighbour>>, b: seq<Option<Neighbour>>, f: Filter, sep: real, avoid: real)
    ensures TallyOf(a + b, f, sep, avoid) == Plus(TallyOf(a, f, sep, avoid), TallyOf(b, f, sep, avoid))
  {
    CountAppend(a, b, SeparateTerm, f, sep, avoid);
    CountAppend(a, b, AvoidTerm, f, sep, avoid);
    CountAppend(a, b, FollowTerm, f, sep, avoid);
  }

  /** A count depends only on which entries the snapshot holds, not on
      their order: any two orderings of the same entries count alike. */
  lemma {:induction false} CountPermutation(a: seq<Option<Neighbour>>, b: seq<Option<Neighbour>>,
                                            t: Term, f: Filter, sep: real, avoid: real)
    requires multiset(a) == multiset(b)
    ensures Count(a, t, f, sep, avoid) == Count(b, t, f, sep, avoid)
    decreases |a|
  {
    if |a| == 0 {
      assert |b| == |multiset(b)| == 0;
    } else {
      var init, x := a[..|a| - 1], a[|a| - 1];
      assert a == init + [x];
      assert x in multiset(b) by { assert x in multiset(a); }
      var j :| 0 <= j < |b| && b[j] == x;
      var front, back := b[..j], b[j + 1..];
      assert b == front + [x] + back;
      var rest := front + back;
      assert multiset(init) == multiset(rest) by {
        assert multiset(rest) == multiset(front) + multiset(back);
        assert multiset(init) == multiset(a) - multiset{x};
        assert multiset(rest) == multiset(b) - multiset{x};
      }
      CountPermutation(init, rest, t, f, sep, avoid);
      CountAppend(front, back, t, f, sep, avoid);
      CountAppend(front + [x], back, t, f, sep, avoid);
      CountAppend(front, [x], t, f, sep, avoid);
      CountAppend(init, [x], t, f, sep, avoid);
    }
  }

  /** The sensor's set is unordered: the counts of a snapshot are those of
      any reordering of it. */
  lemma TallyOrderIrrelevant(a: seq<Option<Neighbour>>, b: seq<Option<Neighbour>>,
                             f: Filter, sep: real, avoid: real)
    requires multiset(a) == multiset(b)
    ensures TallyOf(a, f, sep, avoid) == TallyOf(b, f, sep, avoid)
  {
    CountPermutation(a, b, SeparateTerm, f, sep, avoid);
    CountPermutation(a, b, AvoidTerm, f, sep, avoid);
    CountPermutation(a, b, FollowTerm, f, sep, avoid);
  }

  /** Null entries are skipped: dropping them changes no count. */
  lemma {:induction false} CountSkipsNull(items: seq<Option<Neighbour>>, t: Term, f: Filter, sep: real, avoid: real)
    ensures Count(Alive(items), t, f, sep, avoid) == Count(items, t, f, sep, avoid)
  {
    if |items| > 0 {
      var init, last := items[..|items| - 1], items[|items| - 1];
      CountSkipsNull(init, t, f, sep, avoid);
      CountAppend(Alive(init), if last.Some? then [last] else [], t, f, sep, avoid);
      if last.Some? {
        assert [last][..0] == [];
      }
    }
  }

  lemma TallySkipsNull(items: seq<Option<Neighbour>>, f: Filter, sep: real, avoid: real)
    ensures TallyOf(Alive(items), f, sep, avoid) == TallyOf(items, f, sep, avoid)
  {
    CountSkipsNull(items, SeparateTerm, f, sep, avoid);
    CountSkipsNull(items, AvoidTerm, f, sep, avoid);
    CountSkipsNull(items, FollowTerm, f, sep, avoid);
  }

  /** An avoided unit is never also counted as same-group: no entry of an
      avoided flock is same-group, so an entry adds to at most one of avoid
      and separate, and at most one of avoid and follow, and these pairs
      never exceed the number of live entries. */
  lemma {:induction false} AvoidExcludesSameGroup(items: seq<Option<Neighbour>>, f: Filter, sep: real, avoid: real)
    ensures forall i | 0 <= i < |items| && items[i].Some? && f.checkAvoid(items[i].value.id) ::
      !SameGroup(items[i], f)
    ensures TallyOf(items, f, sep, avoid).numAvoid + TallyOf(items, f, sep, avoid).numSeparate <= Present(items)
    ensures TallyOf(items, f, sep, avoid).numAvoid + TallyOf(items, f, sep, avoid).numFollow <= Present(items)
  {
    if |items| > 0 {
      AvoidExcludesSameGroup(items[..|items| - 1], f, sep, avoid);
    }
  }

  /** A count is zero exactly when no entry qualifies for its term. */
  lemma {:induction false} CountZeroIff(items: seq<Option<Neighbour>>, t: Term, f: Filter, sep: real, avoid: real)
    ensures Count(items, t, f, sep, avoid) == 0
        <==> forall i :: 0 <= i < |items| ==> !Qualifies(t, items[i], f, sep, avoid)
  {
    if |items| > 0 {
      var init := items[..|items| - 1];
      CountZeroIff(init, t, f, sep, avoid);
      assert forall i :: 0 <= i < |init| ==> init[i] == items[i];
    }
  }

  /** Separation counts only same-flock units strictly inside
      `separateDistance`, avoidance only avoided units strictly inside
      `avoidDistance`, and following only same-flock units with a legit,
      non-kinematic body: each count is zero exactly when no entry qualifies. */
  lemma TallyZeroIff(items: seq<Option<Neighbour>>, f: Filter, sep: real, avoid: real)
    ensures TallyOf(items, f, sep, avoid).numSeparate == 0
        <==> forall i :: 0 <= i < |items| ==> !Separates(items[i], f, sep)
    ensures TallyOf(items, f, sep, avoid).numAvoid == 0
        <==> forall i :: 0 <= i < |items| ==> !Avoids(items[i], f, avoid)
    ensures TallyOf(items, f, sep, avoid).numFollow == 0
        <==> forall i :: 0 <= i < |items| ==> !Follows(items[i], f)
  {
    CountZeroIff(items, SeparateTerm, f, sep, avoid);
    CountZeroIff(items, AvoidTerm, f, sep, avoid);
    CountZeroIff(items, FollowTerm, f, sep, avoid);
  }
}
