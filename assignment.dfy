/**
 * The assignment engine of chronoclust/hddstream.py: for one point and one list of
 * microclusters, find the nearest microcluster that may take the point and decide whether it
 * takes it. The pcore list filters candidates by the projected dimensionality of the tentative
 * clone; the outlier list has no filter. The chosen candidate is the first one, in list order,
 * at minimal projected distance, and the point is committed only if the tentative clone's
 * projected radius stays within epsilon. When that radius test fails there is no second try
 * with the next nearest candidate.
 */
module Assignment {
  import opened Wrappers
  import opened Microclusters

  /**
   * The projected distance from `m` to `p` if `m` is a candidate for `p`, and None otherwise.
   * With `pi == Some(n)` (the pcore list) `m` is a candidate when the clone of `m` with `p`
   * added has at most `n` entries different from 1 in its preferred-dimension vector; with
   * `pi == None` (the outlier list) every microcluster is a candidate.
   */
  function Candidate(prims: Primitives, m: Microcluster, p: Point, deltaSquared: real, k: real,
                     pi: Option<int>): Option<real>
  {
    if pi.None? || PdimNotOne(prims.copyWithNewPoint(m.stats, p, deltaSquared, k).pdv) <= pi.value
    then Some(prims.projectedDistToPoint(m.stats, p))
    else None
  }

  /** The candidate distances of a whole list, position by position. */
  function Candidates(prims: Primitives, s: seq<Microcluster>, p: Point, deltaSquared: real, k: real,
                      pi: Option<int>): (c: seq<Option<real>>)
    ensures |c| == |s|
  {
    seq(|s|, i requires 0 <= i < |s| => Candidate(prims, s[i], p, deltaSquared, k, pi))
  }

  /**
   * The index the search loops keep at the end: a later candidate replaces the current one
   * only when it is strictly closer.
   */
  function FirstNearest(c: seq<Option<real>>): (r: Option<nat>)
    ensures r.Some? ==> r.value < |c| && c[r.value].Some?
  {
    if c == [] then None
    else
      var best := FirstNearest(c[..|c| - 1]);
      var last := c[|c| - 1];
      if last.Some? && (best.None? || last.value < c[best.value].value) then Some(|c| - 1)
      else best
  }

  /** A chosen index of `c`: a candidate at minimal distance, closer than every candidate before it. */
  ghost predicate IsFirstNearest(c: seq<Option<real>>, i: nat)
  {
    && i < |c| && c[i].Some?
    && (forall j | 0 <= j < |c| && c[j].Some? :: c[i].value <= c[j].value)
    && (forall j | 0 <= j < i && c[j].Some? :: c[i].value < c[j].value)
  }

  /**
   * FirstNearest finds nothing exactly when there is no candidate, and otherwise finds the
   * first candidate at minimal distance: ties go to the lowest index.
   */
  lemma {:induction false} FirstNearestIsFirstMinimum(c: seq<Option<real>>)
    ensures FirstNearest(c).None? <==> forall j | 0 <= j < |c| :: c[j].None?
    ensures FirstNearest(c).Some? ==> IsFirstNearest(c, FirstNearest(c).value)
  {
    if c != [] {
      var front := c[..|c| - 1];
      FirstNearestIsFirstMinimum(front);
      assert forall j | 0 <= j < |front| :: front[j] == c[j];
    }
  }

  /** At most one index is the first nearest candidate. */
  lemma FirstNearestIsUnique(c: seq<Option<real>>, i: nat, j: nat)
    requires IsFirstNearest(c, i) && IsFirstNearest(c, j)
    ensures i == j
  {
  }

  /**
   * The search loops of _add_to_pcore (with the pi filter) and _add_to_outlier (without it):
   * the index of the first microcluster at minimal projected distance among the candidates.
   */
  method FindClosest(prims: Primitives, s: seq<Microcluster>, p: Point, deltaSquared: real, k: real,
                     pi: Option<int>) returns (closest: Option<nat>)
    ensures closest == FirstNearest(Candidates(prims, s, p, deltaSquared, k, pi))
    ensures closest.None? <==> forall j | 0 <= j < |s| :: Candidate(prims, s[j], p, deltaSquared, k, pi).None?
    ensures closest.Some? ==> IsFirstNearest(Candidates(prims, s, p, deltaSquared, k, pi), closest.value)
  {
    ghost var c := Candidates(prims, s, p, deltaSquared, k, pi);
    var closestDistance: Option<real> := None;
    closest := None;
    var index := 0;
    while index < |s|
      invariant 0 <= index <= |s|
      invariant closest == FirstNearest(c[..index])
      invariant closest.Some? <==> closestDistance.Some?
      invariant closest.Some? ==> closest.value < index && closestDistance.value == c[closest.value].value
    {
      assert c[..index + 1][..index] == c[..index];
      var admitted := true;
      if pi.Some? {
        var tentative := prims.copyWithNewPoint(s[index].stats, p, deltaSquared, k);
        admitted := PdimNotOne(tentative.pdv) <= pi.value;
      }
      assert admitted <==> c[index].Some?;
      if admitted {
        var distance := prims.projectedDistToPoint(s[index].stats, p);
        assert distance == c[index].value;
        if closestDistance.None? || distance < closestDistance.value {
          closestDistance := Some(distance);
          closest := Some(index);
        }
      }
      index := index + 1;
    }
    assert c[..|s|] == c;
    FirstNearestIsFirstMinimum(c);
    assert forall j | 0 <= j < |s| :: c[j] == Candidate(prims, s[j], p, deltaSquared, k, pi);
  }

  /**
   * The index that takes `p`: the first nearest candidate, provided the clone of it with `p`
   * added has a projected radius squared of at most `epsilonSquared`; None otherwise.
   */
  function Fit(prims: Primitives, s: seq<Microcluster>, p: Point, deltaSquared: real, k: real,
               epsilonSquared: real, pi: Option<int>): (r: Option<nat>)
    ensures r.Some? ==> r.value < |s|
  {
    match FirstNearest(Candidates(prims, s, p, deltaSquared, k, pi))
    case None => None
    case Some(i) =>
      if prims.projectedRadiusSquared(prims.copyWithNewPoint(s[i].stats, p, deltaSquared, k)) <= epsilonSquared
      then Some(i) else None
  }

  /**
   * Fit in terms of the candidates alone: it chooses index i exactly when i is the first
   * candidate at minimal distance and its tentative radius is within epsilon; it chooses
   * nothing when there is no candidate or when that one candidate's radius is too large,
   * however well the other candidates would fit.
   */
  lemma FitCharacterized(prims: Primitives, s: seq<Microcluster>, p: Point, deltaSquared: real, k: real,
                         epsilonSquared: real, pi: Option<int>, i: nat)
    ensures Fit(prims, s, p, deltaSquared, k, epsilonSquared, pi) == Some(i) <==>
      IsFirstNearest(Candidates(prims, s, p, deltaSquared, k, pi), i) &&
      prims.projectedRadiusSquared(prims.copyWithNewPoint(s[i].stats, p, deltaSquared, k)) <= epsilonSquared
    ensures IsFirstNearest(Candidates(prims, s, p, deltaSquared, k, pi), i) &&
      prims.projectedRadiusSquared(prims.copyWithNewPoint(s[i].stats, p, deltaSquared, k)) > epsilonSquared
      ==> Fit(prims, s, p, deltaSquared, k, epsilonSquared, pi).None?
  {
    var c := Candidates(prims, s, p, deltaSquared, k, pi);
    FirstNearestIsFirstMinimum(c);
    if IsFirstNearest(c, i) {
      FirstNearestIsUnique(c, i, FirstNearest(c).value);
    }
  }

  /**
   * The commit of a point: add_new_point followed by update_preferred_dimensions on the
   * microcluster itself; its id and identity are kept.
   */
  function Commit(prims: Primitives, m: Microcluster, p: Point, t: int, deltaSquared: real, k: real): (r: Microcluster)
    ensures r.id == m.id && r.key == m.key
  {
    m.(stats := prims.updatePreferredDimensions(prims.addNewPoint(m.stats, p, t), deltaSquared, k))
  }
}
