/**
 * The lifecycle of microclusters in chronoclust/hddstream.py, as functions of the two lists:
 * routing a point (pcore, then outlier with its upgrade check, then a new outlier), the day
 * boundary (decay, downgrade of pcores, deletion of outliers, clearing the point buffers).
 * The class in hddstream.dfy changes its fields exactly as these functions say.
 */
module Lifecycle {
  import opened Wrappers
  import opened Microclusters
  import opened Assignment

  /**
   * The thresholds the engine holds while it routes a batch; coreWeight is beta * mu, the
   * weight a potential core microcluster must reach.
   */
  datatype Thresholds = Thresholds(epsilonSquared: real, deltaSquared: real, k: real, mu: real,
                                   coreWeight: real, pi: int, omicron: real)

  /** beta * mu, the product both the upgrade and the downgrade test compare the weight with. */
  function CoreWeight(beta: real, mu: real): real
  {
    beta * mu
  }

  /** The two lists pcore_MC and outlier_MC, and the next identity to hand out. */
  datatype Model = Model(pcore: seq<Microcluster>, outlier: seq<Microcluster>, nextKey: nat)

  function KeySeq(s: seq<Microcluster>): (r: seq<nat>)
    ensures |r| == |s|
  {
    seq(|s|, i requires 0 <= i < |s| => s[i].key)
  }

  /** The identities of all live microclusters, with their multiplicity. */
  function Keys(m: Model): multiset<nat>
  {
    multiset(KeySeq(m.pcore)) + multiset(KeySeq(m.outlier))
  }

  function Size(m: Model): nat
  {
    |m.pcore| + |m.outlier|
  }

  /** Every live microcluster is in one list, at one position, and its identity was handed out. */
  ghost predicate Valid(m: Model)
  {
    forall key | key in Keys(m) :: Keys(m)[key] == 1 && key < m.nextKey
  }

  lemma KeySeqConcat(a: seq<Microcluster>, b: seq<Microcluster>)
    ensures KeySeq(a + b) == KeySeq(a) + KeySeq(b)
  {
  }

  lemma KeySeqUpdate(s: seq<Microcluster>, i: nat, x: Microcluster)
    requires i < |s| && x.key == s[i].key
    ensures KeySeq(s[i := x]) == KeySeq(s)
  {
  }

  lemma KeySeqRemove(s: seq<Microcluster>, i: nat)
    requires i < |s|
    ensures multiset(KeySeq(s[..i] + s[i + 1..])) + multiset{s[i].key} == multiset(KeySeq(s))
  {
    assert s == s[..i] + [s[i]] + s[i + 1..];
    KeySeqConcat(s[..i] + [s[i]], s[i + 1..]);
    KeySeqConcat(s[..i], [s[i]]);
    KeySeqConcat(s[..i], s[i + 1..]);
  }

  /** Two positions holding the same identity make it count twice. */
  lemma SharedKeyCountsTwice(a: seq<nat>, i: nat, j: nat)
    requires i < j < |a|
    ensures a[i] == a[j] ==> multiset(a)[a[i]] >= 2
  {
    assert a == a[..j] + a[j..];
    assert a[i] in a[..j];
    assert a[j] in a[j..];
  }

  /**
   * Validity gives mutual exclusivity: no microcluster is in both lists, and no microcluster
   * is twice in the same list.
   */
  lemma {:induction false} ValidMeansExclusive(m: Model)
    requires Valid(m)
    ensures forall i, j | 0 <= i < |m.pcore| && 0 <= j < |m.outlier| :: m.pcore[i].key != m.outlier[j].key
    ensures forall i, j | 0 <= i < j < |m.pcore| :: m.pcore[i].key != m.pcore[j].key
    ensures forall i, j | 0 <= i < j < |m.outlier| :: m.outlier[i].key != m.outlier[j].key
  {
    var p, o := KeySeq(m.pcore), KeySeq(m.outlier);
    forall i, j | 0 <= i < |m.pcore| && 0 <= j < |m.outlier|
      ensures m.pcore[i].key != m.outlier[j].key
    {
      assert p[i] in multiset(p) && o[j] in multiset(o);
      assert Keys(m)[p[i]] == multiset(p)[p[i]] + multiset(o)[p[i]];
      assert Keys(m)[o[j]] == multiset(p)[o[j]] + multiset(o)[o[j]];
      assert p[i] in Keys(m);
    }
    forall i, j | 0 <= i < j < |m.pcore| ensures m.pcore[i].key != m.pcore[j].key {
      SharedKeyCountsTwice(p, i, j);
      assert p[i] in multiset(p);
      assert Keys(m)[p[i]] == multiset(p)[p[i]] + multiset(o)[p[i]];
      assert p[i] in Keys(m);
    }
    forall i, j | 0 <= i < j < |m.outlier| ensures m.outlier[i].key != m.outlier[j].key {
      SharedKeyCountsTwice(o, i, j);
      assert o[i] in multiset(o);
      assert Keys(m)[o[i]] == multiset(p)[o[i]] + multiset(o)[o[i]];
      assert o[i] in Keys(m);
    }
  }

  /** A model with the same identities, at most the same ones, or one fresh one more, stays valid. */
  lemma ValidWhenKeysShrink(m: Model, r: Model)
    requires Valid(m) && Keys(r) <= Keys(m) && m.nextKey <= r.nextKey
    ensures Valid(r)
  {
  }

  lemma ValidWithFreshKey(m: Model, r: Model)
    requires Valid(m) && Keys(r) == Keys(m) + multiset{m.nextKey} && r.nextKey == m.nextKey + 1
    ensures Valid(r)
  {
    assert m.nextKey !in Keys(m);
  }

  // ---------------------------------------------------------------- routing a point

  /** _add_to_pcore: the pcore list with the point committed to the fitting microcluster, if any. */
  function AfterAddToPcore(prims: Primitives, m: Model, p: Point, t: int, th: Thresholds): (r: (Model, bool))
  {
    match Fit(prims, m.pcore, p, th.deltaSquared, th.k, th.epsilonSquared, Some(th.pi))
    case None => (m, false)
    case Some(i) => (m.(pcore := m.pcore[i := Commit(prims, m.pcore[i], p, t, th.deltaSquared, th.k)]), true)
  }

  /** Definition 6 of the HDDStream paper as _upgrade_outlier_microcluster tests it; both bounds inclusive. */
  predicate Upgradable(o: Microcluster, th: Thresholds)
  {
    o.stats.weight >= th.coreWeight && PdimAboveOne(o.stats.pdv) <= th.pi
  }

  /**
   * _upgrade_outlier_microcluster on the outlier at index i: if it qualifies, it leaves the
   * outlier list and is appended to the pcore list with the old pcore length as its id.
   */
  function AfterUpgrade(m: Model, i: nat, th: Thresholds): (r: Model)
    requires i < |m.outlier|
  {
    var o := m.outlier[i];
    if Upgradable(o, th)
    then Model(m.pcore + [Renamed(o, |m.pcore|)], m.outlier[..i] + m.outlier[i + 1..], m.nextKey)
    else m
  }

  /** _add_to_outlier: commit to the fitting outlier, then the upgrade check on that outlier. */
  function AfterAddToOutlier(prims: Primitives, m: Model, p: Point, t: int, th: Thresholds): (r: (Model, bool))
  {
    match Fit(prims, m.outlier, p, th.deltaSquared, th.k, th.epsilonSquared, None)
    case None => (m, false)
    case Some(i) =>
      (AfterUpgrade(m.(outlier := m.outlier[i := Commit(prims, m.outlier[i], p, t, th.deltaSquared, th.k)]), i, th), true)
  }

  function Zeros(n: nat): (z: seq<real>)
    ensures |z| == n
  {
    seq(n, _ => 0.0)
  }

  /** The microcluster _create_new_outlier_cluster builds for a point. */
  function NewOutlier(prims: Primitives, p: Point, t: int, th: Thresholds, id: nat, key: nat): (o: Microcluster)
  {
    var created := prims.create(Zeros(|p|), Zeros(|p|), t);
    Microcluster(prims.updatePreferredDimensions(prims.addNewPoint(created, p, t), th.deltaSquared, th.k), id, key)
  }

  /** _create_new_outlier_cluster: a new outlier, with the old outlier length as its id, at the end of outlier_MC. */
  function AfterNewOutlier(prims: Primitives, m: Model, p: Point, t: int, th: Thresholds): (r: Model)
  {
    m.(outlier := m.outlier + [NewOutlier(prims, p, t, th, |m.outlier|, m.nextKey)], nextKey := m.nextKey + 1)
  }

  /** One iteration of the routing loop of online_microcluster_maintenance. */
  function AfterPoint(prims: Primitives, m: Model, p: Point, t: int, th: Thresholds): (r: Model)
  {
    var (m1, trial1) := AfterAddToPcore(prims, m, p, t, th);
    if trial1 then m1
    else
      var (m2, trial2) := AfterAddToOutlier(prims, m1, p, t, th);
      if trial2 then m2 else AfterNewOutlier(prims, m2, p, t, th)
  }

  /**
   * The upgrade moves an outlier between the lists and changes nothing else: the identities
   * and their number are kept. When it happens, the microcluster is the last pcore and its id
   * is the old pcore length.
   */
  lemma UpgradeMoves(m: Model, i: nat, th: Thresholds)
    requires i < |m.outlier|
    ensures Keys(AfterUpgrade(m, i, th)) == Keys(m)
    ensures Size(AfterUpgrade(m, i, th)) == Size(m)
    ensures AfterUpgrade(m, i, th).nextKey == m.nextKey
    ensures Upgradable(m.outlier[i], th) <==> |AfterUpgrade(m, i, th).pcore| == |m.pcore| + 1
    ensures !Upgradable(m.outlier[i], th) ==> AfterUpgrade(m, i, th) == m
    ensures Upgradable(m.outlier[i], th) ==>
      var r := AfterUpgrade(m, i, th);
      r.pcore[|m.pcore|] == Renamed(m.outlier[i], |m.pcore|) && r.pcore[..|m.pcore|] == m.pcore
  {
    if Upgradable(m.outlier[i], th) {
      var r := AfterUpgrade(m, i, th);
      KeySeqConcat(m.pcore, [Renamed(m.outlier[i], |m.pcore|)]);
      KeySeqRemove(m.outlier, i);
      assert multiset(KeySeq(r.pcore)) == multiset(KeySeq(m.pcore)) + multiset{m.outlier[i].key};
    }
  }

  /** The route through a fitting pcore: only that pcore changes, and no identity. */
  lemma PcoreRoute(prims: Primitives, m: Model, p: Point, t: int, th: Thresholds, i: nat)
    requires Valid(m)
    requires Fit(prims, m.pcore, p, th.deltaSquared, th.k, th.epsilonSquared, Some(th.pi)) == Some(i)
    ensures var r := AfterPoint(prims, m, p, t, th);
      && r.outlier == m.outlier && |r.pcore| == |m.pcore| && r.nextKey == m.nextKey
      && (forall j | 0 <= j < |m.pcore| && j != i :: r.pcore[j] == m.pcore[j])
      && Keys(r) == Keys(m) && Valid(r)
  {
    KeySeqUpdate(m.pcore, i, Commit(prims, m.pcore[i], p, t, th.deltaSquared, th.k));
  }

  /**
   * The route through a fitting outlier, with its upgrade check: only outlier i changes, and it
   * then either stays in place or, if it qualifies, moves to the end of pcore_MC. No identity
   * is created or lost.
   */
  lemma OutlierRoute(prims: Primitives, m: Model, p: Point, t: int, th: Thresholds, i: nat)
    requires Valid(m)
    requires Fit(prims, m.pcore, p, th.deltaSquared, th.k, th.epsilonSquared, Some(th.pi)).None?
    requires Fit(prims, m.outlier, p, th.deltaSquared, th.k, th.epsilonSquared, None) == Some(i)
    ensures i < |m.outlier|
    ensures var r, c := AfterPoint(prims, m, p, t, th), Commit(prims, m.outlier[i], p, t, th.deltaSquared, th.k);
      && (Upgradable(c, th) ==> r.pcore == m.pcore + [Renamed(c, |m.pcore|)] && r.outlier == m.outlier[..i] + m.outlier[i + 1..])
      && (!Upgradable(c, th) ==> r.pcore == m.pcore && r.outlier == m.outlier[i := c])
    ensures var r := AfterPoint(prims, m, p, t, th);
      Keys(r) == Keys(m) && Size(r) == Size(m) && r.nextKey == m.nextKey && Valid(r)
  {
    var c := Commit(prims, m.outlier[i], p, t, th.deltaSquared, th.k);
    var m1 := m.(outlier := m.outlier[i := c]);
    KeySeqUpdate(m.outlier, i, c);
    assert Keys(m1) == Keys(m);
    UpgradeMoves(m1, i, th);
  }

  /** The route when nothing fits: one new outlier, with a fresh identity, at the end of outlier_MC. */
  lemma NewOutlierRoute(prims: Primitives, m: Model, p: Point, t: int, th: Thresholds)
    requires Valid(m)
    requires Fit(prims, m.pcore, p, th.deltaSquared, th.k, th.epsilonSquared, Some(th.pi)).None?
    requires Fit(prims, m.outlier, p, th.deltaSquared, th.k, th.epsilonSquared, None).None?
    ensures var r := AfterPoint(prims, m, p, t, th);
      && r.pcore == m.pcore && r.outlier[..|m.outlier|] == m.outlier && |r.outlier| == |m.outlier| + 1
      && r.outlier[|m.outlier|].id == |m.outlier| && r.outlier[|m.outlier|].key == m.nextKey
      && Keys(r) == Keys(m) + multiset{m.nextKey} && Valid(r)
  {
    var r := AfterPoint(prims, m, p, t, th);
    var o := NewOutlier(prims, p, t, th, |m.outlier|, m.nextKey);
    assert r.outlier == m.outlier + [o];
    KeySeqConcat(m.outlier, [o]);
    ValidWithFreshKey(m, r);
  }

  /**
   * Each point takes exactly one route. If some pcore fits, only that pcore changes. If none
   * does and some outlier fits, no microcluster is created or lost. Only if neither fits is a
   * microcluster created: the lists then hold one more microcluster, with a fresh identity and
   * the old outlier length as its id. The model stays valid in every case.
   */
  lemma PointTakesOneRoute(prims: Primitives, m: Model, p: Point, t: int, th: Thresholds)
    requires Valid(m)
    ensures Valid(AfterPoint(prims, m, p, t, th))
    ensures
      var pcoreFit := Fit(prims, m.pcore, p, th.deltaSquared, th.k, th.epsilonSquared, Some(th.pi));
      var outlierFit := Fit(prims, m.outlier, p, th.deltaSquared, th.k, th.epsilonSquared, None);
      var r := AfterPoint(prims, m, p, t, th);
      && (pcoreFit.Some? ==>
            && r.outlier == m.outlier && |r.pcore| == |m.pcore|
            && forall j | 0 <= j < |m.pcore| && j != pcoreFit.value :: r.pcore[j] == m.pcore[j])
      && (pcoreFit.None? && outlierFit.Some? ==>
            && outlierFit.value < |m.outlier|
            && var c := Commit(prims, m.outlier[outlierFit.value], p, t, th.deltaSquared, th.k);
            && (Upgradable(c, th) ==>
                  r.pcore == m.pcore + [Renamed(c, |m.pcore|)] &&
                  r.outlier == m.outlier[..outlierFit.value] + m.outlier[outlierFit.value + 1..])
            && (!Upgradable(c, th) ==> r.pcore == m.pcore && r.outlier == m.outlier[outlierFit.value := c])
            && Keys(r) == Keys(m) && Size(r) == Size(m))
      && (pcoreFit.None? && outlierFit.None? ==>
            r.pcore == m.pcore && r.outlier[..|m.outlier|] == m.outlier && |r.outlier| == |m.outlier| + 1 &&
            r.outlier[|m.outlier|].id == |m.outlier| && r.outlier[|m.outlier|].key == m.nextKey)
      && Size(r) == Size(m) + (if pcoreFit.None? && outlierFit.None? then 1 else 0)
      && Keys(r) == Keys(m) + (if pcoreFit.None? && outlierFit.None? then multiset{m.nextKey} else multiset{})
  {
    var pcoreFit := Fit(prims, m.pcore, p, th.deltaSquared, th.k, th.epsilonSquared, Some(th.pi));
    var outlierFit := Fit(prims, m.outlier, p, th.deltaSquared, th.k, th.epsilonSquared, None);
    if pcoreFit.Some? {
      PcoreRoute(prims, m, p, t, th, pcoreFit.value);
    } else if outlierFit.Some? {
      OutlierRoute(prims, m, p, t, th, outlierFit.value);
    } else {
      NewOutlierRoute(prims, m, p, t, th);
    }
  }

  /** The routing loop over a batch, point by point in batch order. */
  function AfterBatch(prims: Primitives, m: Model, ps: seq<Point>, t: int, th: Thresholds): (r: Model)
  {
    if ps == [] then m else AfterPoint(prims, AfterBatch(prims, m, ps[..|ps| - 1], t, th), ps[|ps| - 1], t, th)
  }

  /**
   * Routing a batch keeps the model valid, loses no microcluster and creates at most one
   * microcluster per point.
   */
  lemma {:induction false} BatchKeepsValid(prims: Primitives, m: Model, ps: seq<Point>, t: int, th: Thresholds)
    requires Valid(m)
    ensures Valid(AfterBatch(prims, m, ps, t, th))
    ensures Keys(m) <= Keys(AfterBatch(prims, m, ps, t, th))
    ensures Size(m) <= Size(AfterBatch(prims, m, ps, t, th)) <= Size(m) + |ps|
  {
    if ps != [] {
      BatchKeepsValid(prims, m, ps[..|ps| - 1], t, th);
      PointTakesOneRoute(prims, AfterBatch(prims, m, ps[..|ps| - 1], t, th), ps[|ps| - 1], t, th);
    }
  }

  // ---------------------------------------------------------------- the day boundary

  /** Every microcluster of a list decayed by the same factor. */
  function DecayedAll(s: seq<Microcluster>, f: real): (r: seq<Microcluster>)
    ensures |r| == |s|
  {
    seq(|s|, i requires 0 <= i < |s| => Decayed(s[i], f))
  }

  /** Every microcluster of a list with its point buffer cleared. */
  function WithoutPointsAll(s: seq<Microcluster>): (r: seq<Microcluster>)
    ensures |r| == |s|
  {
    seq(|s|, i requires 0 <= i < |s| => WithoutPoints(s[i]))
  }

  /** _decay_clusters_weight: both lists decayed by the factor, in place. */
  function AfterDecay(m: Model, f: real): (r: Model)
  {
    m.(pcore := DecayedAll(m.pcore, f), outlier := DecayedAll(m.outlier, f))
  }

  /**
   * Decay changes the statistics of every microcluster by the factor and nothing else: the
   * lists keep their lengths, their order, the ids and the identities.
   */
  lemma DecayKeepsLists(m: Model, f: real)
    ensures Keys(AfterDecay(m, f)) == Keys(m) && AfterDecay(m, f).nextKey == m.nextKey
    ensures |AfterDecay(m, f).pcore| == |m.pcore| && |AfterDecay(m, f).outlier| == |m.outlier|
    ensures forall i | 0 <= i < |m.pcore| ::
      var d := AfterDecay(m, f).pcore[i];
      d.id == m.pcore[i].id && d.key == m.pcore[i].key && d.stats.weight == m.pcore[i].stats.weight * f
    ensures forall i | 0 <= i < |m.outlier| ::
      var d := AfterDecay(m, f).outlier[i];
      d.id == m.outlier[i].id && d.key == m.outlier[i].key && d.stats.weight == m.outlier[i].stats.weight * f
  {
    assert KeySeq(DecayedAll(m.pcore, f)) == KeySeq(m.pcore);
    assert KeySeq(DecayedAll(m.outlier, f)) == KeySeq(m.outlier);
  }

  /** Decaying over two consecutive intervals is decaying once by the product of the factors. */
  lemma {:induction false} DecayAllComposes(m: Model, f1: real, f2: real)
    ensures AfterDecay(AfterDecay(m, f1), f2) == AfterDecay(m, f1 * f2)
  {
    forall s: seq<Microcluster> ensures DecayedAll(DecayedAll(s, f1), f2) == DecayedAll(s, f1 * f2) {
      forall i | 0 <= i < |s| ensures DecayedAll(DecayedAll(s, f1), f2)[i] == DecayedAll(s, f1 * f2)[i] {
        DecayedComposes(s[i], f1, f2);
      }
    }
  }

  /** The microclusters of `s`, in order, for which `keep` holds. */
  function Filter(s: seq<Microcluster>, keep: Microcluster -> bool): (r: seq<Microcluster>)
    ensures |r| <= |s|
  {
    if s == [] then []
    else Filter(s[..|s| - 1], keep) + (if keep(s[|s| - 1]) then [s[|s| - 1]] else [])
  }

  lemma FilterSnoc(s: seq<Microcluster>, x: Microcluster, keep: Microcluster -> bool)
    ensures Filter(s + [x], keep) == Filter(s, keep) + (if keep(x) then [x] else [])
  {
    assert (s + [x])[..|s|] == s;
  }

  /** A filter keeps exactly the microclusters for which `keep` holds. */
  lemma {:induction false} FilterMembers(s: seq<Microcluster>, keep: Microcluster -> bool)
    ensures forall x :: x in Filter(s, keep) <==> x in s && keep(x)
  {
    if s != [] {
      FilterMembers(s[..|s| - 1], keep);
      assert s == s[..|s| - 1] + [s[|s| - 1]];
    }
  }

  /** A filter and its complement split the identities of a list between them. */
  lemma {:induction false} FilterSplitsKeys(s: seq<Microcluster>, keep: Microcluster -> bool, drop: Microcluster -> bool)
    requires forall x :: drop(x) == !keep(x)
    ensures multiset(KeySeq(Filter(s, keep))) + multiset(KeySeq(Filter(s, drop))) == multiset(KeySeq(s))
  {
    if s != [] {
      var front, x := s[..|s| - 1], s[|s| - 1];
      FilterSplitsKeys(front, keep, drop);
      assert s == front + [x];
      KeySeqConcat(front, [x]);
      KeySeqConcat(Filter(front, keep), if keep(x) then [x] else []);
      KeySeqConcat(Filter(front, drop), if drop(x) then [x] else []);
    }
  }

  /** The condition of _downgrade_potential_microclusters: the weight is below beta * mu, or pdim exceeds pi. */
  predicate Downgradable(m: Microcluster, th: Thresholds)
  {
    m.stats.weight < th.coreWeight || PdimAboveOne(m.stats.pdv) > th.pi
  }

  function Stays(th: Thresholds): Microcluster -> bool
  {
    x => !Downgradable(x, th)
  }

  function Leaves(th: Thresholds): Microcluster -> bool
  {
    x => Downgradable(x, th)
  }

  /** The microclusters of `s`, renamed to consecutive ids starting at `from`. */
  function Renumbered(s: seq<Microcluster>, from: nat): (r: seq<Microcluster>)
    ensures |r| == |s|
  {
    seq(|s|, i requires 0 <= i < |s| => Renamed(s[i], from + i))
  }

  /**
   * _downgrade_potential_microclusters as its documentation intends it: every pcore that no
   * longer qualifies moves, in order, to the end of outlier_MC, each with the outlier length
   * at the time of its move as id.
   */
  function AfterPotentialDowngrade(m: Model, th: Thresholds): (r: Model)
  {
    m.(pcore := Filter(m.pcore, Stays(th)),
       outlier := m.outlier + Renumbered(Filter(m.pcore, Leaves(th)), |m.outlier|))
  }

  /**
   * What the pcore downgrade does: the pcores left are exactly the qualifying ones, in their
   * old order; the outliers are kept as a prefix; every appended microcluster was a pcore that
   * no longer qualified, with id old |outlier_MC| + its position among the moved; no identity is
   * created or lost.
   */
  lemma PotentialDowngradeCorrect(m: Model, th: Thresholds)
    ensures var r := AfterPotentialDowngrade(m, th);
      && (forall x :: x in r.pcore <==> x in m.pcore && !Downgradable(x, th))
      && r.outlier[..|m.outlier|] == m.outlier
      && (forall j | |m.outlier| <= j < |r.outlier| ::
            r.outlier[j].id == j && Downgradable(r.outlier[j], th) &&
            exists x :: x in m.pcore && r.outlier[j] == Renamed(x, j))
      && Keys(r) == Keys(m) && Size(r) == Size(m) && r.nextKey == m.nextKey
  {
    var r := AfterPotentialDowngrade(m, th);
    var moved := Filter(m.pcore, Leaves(th));
    FilterMembers(m.pcore, Stays(th));
    FilterMembers(m.pcore, Leaves(th));
    forall j | |m.outlier| <= j < |r.outlier|
      ensures r.outlier[j].id == j && Downgradable(r.outlier[j], th)
      ensures exists x :: x in m.pcore && r.outlier[j] == Renamed(x, j)
    {
      var x := moved[j - |m.outlier|];
      assert x in moved;
      assert r.outlier[j] == Renamed(x, j);
    }
    assert KeySeq(Renumbered(moved, |m.outlier|)) == KeySeq(moved);
    KeySeqConcat(m.outlier, Renumbered(moved, |m.outlier|));
    FilterSplitsKeys(m.pcore, Stays(th), Leaves(th));
  }

  /** The condition of _downgrade_outlier_microclusters: the weight is at most omicron (inclusive). */
  predicate Deletable(o: Microcluster, th: Thresholds)
  {
    o.stats.weight <= th.omicron
  }

  function Survives(th: Thresholds): Microcluster -> bool
  {
    x => !Deletable(x, th)
  }

  function Deleted(th: Thresholds): Microcluster -> bool
  {
    x => Deletable(x, th)
  }

  /** _downgrade_outlier_microclusters as its documentation intends it: every outlier at or below omicron is deleted. */
  function AfterOutlierDeletion(m: Model, th: Thresholds): (r: Model)
  {
    m.(outlier := Filter(m.outlier, Survives(th)))
  }

  /**
   * What the outlier deletion does: it keeps exactly the outliers above omicron, in their
   * order, touches no pcore and only loses identities.
   */
  lemma OutlierDeletionCorrect(m: Model, th: Thresholds)
    ensures var r := AfterOutlierDeletion(m, th);
      && r.pcore == m.pcore && r.nextKey == m.nextKey
      && (forall x :: x in r.outlier <==> x in m.outlier && !Deletable(x, th))
      && Keys(r) <= Keys(m)
  {
    FilterMembers(m.outlier, Survives(th));
    FilterSplitsKeys(m.outlier, Survives(th), Deleted(th));
  }

  /** downgrade_microclusters: the pcore pass, then the outlier pass over the new outlier list. */
  function AfterDowngrade(m: Model, th: Thresholds): (r: Model)
  {
    AfterOutlierDeletion(AfterPotentialDowngrade(m, th), th)
  }

  /** The point buffers of both lists cleared, as the loops after the downgrade do. */
  function AfterReset(m: Model): (r: Model)
  {
    m.(pcore := WithoutPointsAll(m.pcore), outlier := WithoutPointsAll(m.outlier))
  }

  /** The block online_microcluster_maintenance runs when the day changes. */
  function AfterNewDay(m: Model, f: real, th: Thresholds): (r: Model)
  {
    AfterReset(AfterDowngrade(AfterDecay(m, f), th))
  }

  /**
   * The day-boundary block of online_microcluster_maintenance: it runs only when the daystamp
   * differs from the last one, and decays by the factor for the elapsed interval.
   */
  function AfterDayBoundary(prims: Primitives, m: Model, lambda: real, last: int, daystamp: int, th: Thresholds): (r: Model)
  {
    if last - daystamp != 0 then AfterNewDay(m, prims.decayFactor(lambda, daystamp - last), th) else m
  }

  /** A second batch with the same daystamp does no decay, downgrade or reset. */
  lemma SameDayKeepsModel(prims: Primitives, m: Model, lambda: real, daystamp: int, th: Thresholds)
    ensures AfterDayBoundary(prims, m, lambda, daystamp, daystamp, th) == m
  {
  }

  /**
   * The day boundary keeps the model valid: it moves and deletes microclusters but never
   * duplicates or creates one. After it, every outlier is above omicron.
   */
  lemma NewDayKeepsValid(m: Model, f: real, th: Thresholds)
    requires Valid(m)
    ensures Valid(AfterNewDay(m, f, th))
    ensures Keys(AfterNewDay(m, f, th)) <= Keys(m)
    ensures forall j | 0 <= j < |AfterNewDay(m, f, th).outlier| :: !Deletable(AfterNewDay(m, f, th).outlier[j], th)
  {
    var d := AfterDecay(m, f);
    DecayKeepsLists(m, f);
    PotentialDowngradeCorrect(d, th);
    var g := AfterDowngrade(d, th);
    OutlierDeletionCorrect(AfterPotentialDowngrade(d, th), th);
    var r := AfterReset(g);
    assert KeySeq(r.pcore) == KeySeq(g.pcore);
    assert KeySeq(r.outlier) == KeySeq(g.outlier);
    ValidWhenKeysShrink(m, r);
    forall j | 0 <= j < |r.outlier| ensures !Deletable(r.outlier[j], th) {
      assert g.outlier[j] in g.outlier;
    }
  }

  // ---------------------------------------------------------------- the passes as written

  /**
   * _downgrade_potential_microclusters as written: a Python for loop over pcore_MC that
   * removes the current element. The loop index advances after a removal as well, so the
   * element that moved into the freed position is not examined.
   */
  function PotentialPassAsWritten(pcore: seq<Microcluster>, outlier: seq<Microcluster>, i: nat, th: Thresholds):
    (r: (seq<Microcluster>, seq<Microcluster>))
    decreases |pcore| - i
  {
    if i >= |pcore| then (pcore, outlier)
    else if Downgradable(pcore[i], th)
    then PotentialPassAsWritten(pcore[..i] + pcore[i + 1..], outlier + [Renamed(pcore[i], |outlier|)], i + 1, th)
    else PotentialPassAsWritten(pcore, outlier, i + 1, th)
  }

  /** _downgrade_outlier_microclusters as written, with the same skip after each removal. */
  function OutlierPassAsWritten(outlier: seq<Microcluster>, i: nat, th: Thresholds): (r: seq<Microcluster>)
    decreases |outlier| - i
  {
    if i >= |outlier| then outlier
    else if Deletable(outlier[i], th) then OutlierPassAsWritten(outlier[..i] + outlier[i + 1..], i + 1, th)
    else OutlierPassAsWritten(outlier, i + 1, th)
  }

  /**
   * Of two consecutive pcores that both no longer qualify, the written loop moves the first
   * and leaves the second in pcore_MC.
   */
  lemma PotentialPassAsWrittenSkips(a: Microcluster, b: Microcluster, outlier: seq<Microcluster>, th: Thresholds)
    requires Downgradable(a, th) && Downgradable(b, th)
    ensures PotentialPassAsWritten([a, b], outlier, 0, th) == ([b], outlier + [Renamed(a, |outlier|)])
    ensures AfterPotentialDowngrade(Model([a, b], outlier, 0), th).pcore == []
  {
    assert [a, b][..0] + [a, b][1..] == [b];
    assert Filter([a, b], Stays(th)) == Filter([a], Stays(th)) + [];
    assert Filter([a], Stays(th)) == Filter([], Stays(th)) + [];
  }

  /** Of two consecutive outliers both at or below omicron, the written loop deletes only the first. */
  lemma OutlierPassAsWrittenSkips(a: Microcluster, b: Microcluster, th: Thresholds)
    requires Deletable(a, th) && Deletable(b, th)
    ensures OutlierPassAsWritten([a, b], 0, th) == [b]
    ensures AfterOutlierDeletion(Model([], [a, b], 0), th).outlier == []
  {
    assert [a, b][..0] + [a, b][1..] == [b];
    assert Filter([a, b], Survives(th)) == Filter([a], Survives(th)) + [];
    assert Filter([a], Survives(th)) == Filter([], Survives(th)) + [];
  }

  /**
   * What the written pcore loop still guarantees: every pcore it moves no longer qualified and
   * gets the outlier length at its move as id, and a pcore that qualifies is never moved.
   */
  lemma {:induction false} PotentialPassAsWrittenSound(pcore: seq<Microcluster>, outlier: seq<Microcluster>, i: nat,
                                                       th: Thresholds)
    ensures var r := PotentialPassAsWritten(pcore, outlier, i, th);
      && |outlier| <= |r.1| && r.1[..|outlier|] == outlier
      && (forall j | |outlier| <= j < |r.1| :: r.1[j].id == j && Downgradable(r.1[j].(id := 0), th))
      && (forall x :: x in pcore && !Downgradable(x, th) ==> x in r.0)
    decreases |pcore| - i
  {
    if i < |pcore| {
      if Downgradable(pcore[i], th) {
        var rest := pcore[..i] + pcore[i + 1..];
        var outlier' := outlier + [Renamed(pcore[i], |outlier|)];
        PotentialPassAsWrittenSound(rest, outlier', i + 1, th);
        var r := PotentialPassAsWritten(rest, outlier', i + 1, th);
        assert r.1[..|outlier'|][..|outlier|] == r.1[..|outlier|];
        forall x | x in pcore && !Downgradable(x, th) ensures x in rest {
          assert pcore == pcore[..i] + [pcore[i]] + pcore[i + 1..];
        }
      } else {
        PotentialPassAsWrittenSound(pcore, outlier, i + 1, th);
      }
    }
  }

  /** What the written outlier loop still guarantees: an outlier above omicron is never deleted. */
  lemma {:induction false} OutlierPassAsWrittenSound(outlier: seq<Microcluster>, i: nat, th: Thresholds)
    ensures forall x :: x in outlier && !Deletable(x, th) ==> x in OutlierPassAsWritten(outlier, i, th)
    decreases |outlier| - i
  {
    if i < |outlier| {
      if Deletable(outlier[i], th) {
        var rest := outlier[..i] + outlier[i + 1..];
        OutlierPassAsWrittenSound(rest, i + 1, th);
        forall x | x in outlier && !Deletable(x, th) ensures x in rest {
          assert outlier == outlier[..i] + [outlier[i]] + outlier[i + 1..];
        }
      } else {
        OutlierPassAsWrittenSound(outlier, i + 1, th);
      }
    }
  }
}
