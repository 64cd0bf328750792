/**
 * The HDDStream object of chronoclust/hddstream.py: its configuration-derived thresholds, the
 * per-batch parameters, the lists pcore_MC and outlier_MC, and the online microcluster
 * maintenance that updates them in place, batch by batch (section 4.2 of Ntoutsi et al.,
 * "Density-based Projected Clustering over High Dimensional Data Streams", SDM 2012).
 * Each method changes the fields as a function of Lifecycle or Offline says.
 */
module HDDStreamEngine {
  import opened Wrappers
  import opened Microclusters
  import opened Assignment
  import opened Lifecycle
  import opened Offline

  /** The values the engine reads from its configuration, each parsed as a float. */
  datatype Config = Config(epsilon: real, upsilon: real, delta: real, beta: real, k: real,
                           lambda: real, pi: real, mu: real, omicron: real)

  /** A batch: the rows of a two-dimensional input array and its number of columns. */
  datatype Dataset = Dataset(rows: seq<Point>, columns: nat)

  /**
   * calculate_pref_dim_variance_threshold: the configured delta, which must lie in [0, 1];
   * outside that range the process exits, which the Failure stands for.
   */
  function PrefDimVarianceThreshold(configDelta: real): (r: Result<real, string>)
    ensures r.Success? <==> 0.0 <= configDelta <= 1.0
    ensures r.Success? ==> r.value == configDelta
  {
    if configDelta > 1.0 || configDelta < 0.0 then Failure("Given delta is out of range. Must be within 0-1.")
    else Success(configDelta)
  }

  /** Python's int() of a float: the integer part, rounding toward zero. */
  function TruncateToInt(x: real): (n: int)
    ensures x >= 0.0 ==> n as real <= x < n as real + 1.0
    ensures x < 0.0 ==> n as real - 1.0 < x <= n as real
  {
    if x >= 0.0 then x.Floor else -((-x).Floor)
  }

  /** The pi that _set_dataset_dependent_parameters derives from the configured value. */
  function ProjectedDimensionalityThreshold(configPi: real, dimensionality: nat): (pi: int)
  {
    var truncated := TruncateToInt(configPi);
    if truncated <= 0 then dimensionality else truncated
  }

  /**
   * A configured pi below 1 (zero, negative, or a fraction that truncates to zero) falls back
   * to the dataset dimensionality; otherwise pi is its integer part, at least 1.
   */
  lemma ProjectedDimensionalityFallsBack(configPi: real, dimensionality: nat)
    ensures configPi < 1.0 ==> ProjectedDimensionalityThreshold(configPi, dimensionality) == dimensionality
    ensures configPi >= 1.0 ==>
      && ProjectedDimensionalityThreshold(configPi, dimensionality) >= 1
      && ProjectedDimensionalityThreshold(configPi, dimensionality) as real <= configPi
      < ProjectedDimensionalityThreshold(configPi, dimensionality) as real + 1.0
  {
    var truncated := TruncateToInt(configPi);
    if configPi >= 1.0 {
      assert truncated as real > 0.0;
    } else if configPi >= 0.0 {
      assert truncated as real < 1.0;
    }
  }

  /**
   * A configured proportion of a number of data points, as the density threshold mu and the
   * outlier deletion threshold omicron are derived: it scales linearly with the count.
   */
  function DatasetProportion(proportion: real, count: nat): (r: real)
    ensures count == 0 ==> r == 0.0
    ensures proportion >= 0.0 ==> r >= 0.0
  {
    proportion * count as real
  }

  /**
   * The proportion is linear in the count: the threshold for two batches together is the sum
   * of their thresholds, and with a non-negative proportion a larger batch never gives a lower
   * threshold.
   */
  lemma DatasetProportionScales(proportion: real, a: nat, b: nat)
    ensures DatasetProportion(proportion, a + b) == DatasetProportion(proportion, a) + DatasetProportion(proportion, b)
    ensures proportion >= 0.0 && a <= b ==> DatasetProportion(proportion, a) <= DatasetProportion(proportion, b)
  {
    assert proportion * (a + b) as real == proportion * a as real + proportion * b as real;
    if proportion >= 0.0 && a <= b {
      assert DatasetProportion(proportion, b) == DatasetProportion(proportion, a) + DatasetProportion(proportion, b - a);
    }
  }

  /** Renumbering a list extended by one microcluster renumbers the list and names the new one next. */
  lemma RenumberedSnoc(s: seq<Microcluster>, x: Microcluster, from: nat)
    ensures Renumbered(s + [x], from) == Renumbered(s, from) + [Renamed(x, from + |s|)]
  {
  }

  /**
   * A list split into a done part and a non-empty rest: the element after the done part is
   * the first of the rest, removing it leaves the done part and the remaining rest, and
   * keeping it extends the done part.
   */
  lemma SplitAtFront(s: seq<Microcluster>, done: seq<Microcluster>, rest: seq<Microcluster>)
    requires s == done + rest && |done| < |s|
    ensures s[|done|] == rest[0]
    ensures s[..|done|] + s[|done| + 1..] == done + rest[1..]
    ensures s == (done + [rest[0]]) + rest[1..]
  {
  }

  /** One step of the pcore downgrade loop: the next pcore joins the staying or the moved ones. */
  lemma PotentialStep(pcore0: seq<Microcluster>, done: nat, from: nat, th: Thresholds)
    requires done < |pcore0|
    ensures var x, moved := pcore0[done], Filter(pcore0[..done], Leaves(th));
      && Filter(pcore0[..done + 1], Stays(th)) == Filter(pcore0[..done], Stays(th)) + (if Downgradable(x, th) then [] else [x])
      && Renumbered(Filter(pcore0[..done + 1], Leaves(th)), from) ==
           Renumbered(moved, from) + (if Downgradable(x, th) then [Renamed(x, from + |moved|)] else [])
  {
    var x, moved := pcore0[done], Filter(pcore0[..done], Leaves(th));
    assert pcore0[..done + 1] == pcore0[..done] + [x];
    FilterSnoc(pcore0[..done], x, Stays(th));
    FilterSnoc(pcore0[..done], x, Leaves(th));
    if Downgradable(x, th) {
      RenumberedSnoc(moved, x, from);
    } else {
      assert moved + [] == moved;
    }
  }

  /** Routing one more point of a batch: the batch prefix extended by that point. */
  lemma BatchStep(prims: Primitives, m: Model, ps: seq<Point>, row: nat, t: int, th: Thresholds)
    requires row < |ps|
    ensures AfterBatch(prims, m, ps[..row + 1], t, th) == AfterPoint(prims, AfterBatch(prims, m, ps[..row], t, th), ps[row], t, th)
  {
    assert ps[..row + 1][..row] == ps[..row];
  }

  /**
   * The state of the pcore downgrade loop once `done` of the original pcores were examined:
   * the staying ones come first and the index points just past them, the unexamined ones
   * follow, and the moved ones were appended to the outliers with consecutive ids.
   */
  predicate PotentialLoop(pcore0: seq<Microcluster>, outlier0: seq<Microcluster>, done: nat, i: nat,
                          pcore: seq<Microcluster>, outlier: seq<Microcluster>, th: Thresholds)
  {
    && done <= |pcore0|
    && i == |Filter(pcore0[..done], Stays(th))|
    && pcore == Filter(pcore0[..done], Stays(th)) + pcore0[done..]
    && outlier == outlier0 + Renumbered(Filter(pcore0[..done], Leaves(th)), |outlier0|)
  }

  /** Examining pcore[i] either moves it to the outliers or steps past it, and the loop state holds on. */
  lemma PotentialLoopStep(pcore0: seq<Microcluster>, outlier0: seq<Microcluster>, done: nat, i: nat,
                          pcore: seq<Microcluster>, outlier: seq<Microcluster>, th: Thresholds)
    requires PotentialLoop(pcore0, outlier0, done, i, pcore, outlier, th) && i < |pcore|
    ensures done < |pcore0| && pcore[i] == pcore0[done]
    ensures Downgradable(pcore[i], th) ==>
      PotentialLoop(pcore0, outlier0, done + 1, i, pcore[..i] + pcore[i + 1..],
                    outlier + [Renamed(pcore[i], |outlier|)], th)
    ensures !Downgradable(pcore[i], th) ==> PotentialLoop(pcore0, outlier0, done + 1, i + 1, pcore, outlier, th)
  {
    SplitAtFront(pcore, Filter(pcore0[..done], Stays(th)), pcore0[done..]);
    PotentialStep(pcore0, done, |outlier0|, th);
    assert pcore0[done + 1..] == pcore0[done..][1..];
    if Downgradable(pcore[i], th) {
      var moved := Filter(pcore0[..done], Leaves(th));
      assert outlier + [Renamed(pcore[i], |outlier|)]
          == outlier0 + (Renumbered(moved, |outlier0|) + [Renamed(pcore0[done], |outlier0| + |moved|)]);
    }
  }

  /** When the index reaches the end, the loop has done what AfterPotentialDowngrade says. */
  lemma PotentialLoopExit(pcore0: seq<Microcluster>, outlier0: seq<Microcluster>, done: nat, i: nat,
                          pcore: seq<Microcluster>, outlier: seq<Microcluster>, th: Thresholds)
    requires PotentialLoop(pcore0, outlier0, done, i, pcore, outlier, th) && i >= |pcore|
    ensures forall n :: Model(pcore, outlier, n) == AfterPotentialDowngrade(Model(pcore0, outlier0, n), th)
  {
    assert pcore0[..|pcore0|] == pcore0;
  }

  /**
   * The state of the outlier deletion loop once `done` of the original outliers were examined:
   * the surviving ones first, the index just past them, the unexamined ones after.
   */
  predicate DeletionLoop(outlier0: seq<Microcluster>, done: nat, i: nat, outlier: seq<Microcluster>,
                         th: Thresholds)
  {
    && done <= |outlier0|
    && i == |Filter(outlier0[..done], Survives(th))|
    && outlier == Filter(outlier0[..done], Survives(th)) + outlier0[done..]
  }

  /** Examining outlier[i] either deletes it or steps past it, and the loop state holds on. */
  lemma DeletionLoopStep(outlier0: seq<Microcluster>, done: nat, i: nat, outlier: seq<Microcluster>,
                         th: Thresholds)
    requires DeletionLoop(outlier0, done, i, outlier, th) && i < |outlier|
    ensures done < |outlier0| && outlier[i] == outlier0[done]
    ensures Deletable(outlier[i], th) ==> DeletionLoop(outlier0, done + 1, i, outlier[..i] + outlier[i + 1..], th)
    ensures !Deletable(outlier[i], th) ==> DeletionLoop(outlier0, done + 1, i + 1, outlier, th)
  {
    SplitAtFront(outlier, Filter(outlier0[..done], Survives(th)), outlier0[done..]);
    assert outlier0[..done + 1] == outlier0[..done] + [outlier0[done]];
    assert outlier0[done + 1..] == outlier0[done..][1..];
    FilterSnoc(outlier0[..done], outlier0[done], Survives(th));
  }

  /** When the index reaches the end, the loop has done what AfterOutlierDeletion says. */
  lemma DeletionLoopExit(outlier0: seq<Microcluster>, done: nat, i: nat, outlier: seq<Microcluster>,
                         th: Thresholds)
    requires DeletionLoop(outlier0, done, i, outlier, th) && i >= |outlier|
    ensures forall pcore, n :: Model(pcore, outlier, n) == AfterOutlierDeletion(Model(pcore, outlier0, n), th)
  {
    assert outlier0[..|outlier0|] == outlier0;
  }

  class HDDStream {
    const prims: Primitives
    const config: Config
    const epsilon: real
    const epsilonSquared: real
    const upsilon: real
    const delta: real
    const deltaSquared: real
    const beta: real
    const k: real
    const lambda: real

    /** The batch-dependent thresholds; the source holds None in them until the first reset. */
    var pi: int
    var mu: real
    var omicron: real
    var paramsSet: bool

    var pcore: seq<Microcluster>
    var outlier: seq<Microcluster>
    /** The identity the next microcluster created receives. */
    var nextKey: nat
    var lastDataTimestamp: int
    var datasetDimensionality: nat
    var datasetSize: nat

    /** The two lists and the identity counter as a value. */
    function State(): Model
      reads this`pcore, this`outlier, this`nextKey
    {
      Model(pcore, outlier, nextKey)
    }

    /** The thresholds the maintenance methods read. */
    function Th(): Thresholds
      reads this`mu, this`pi, this`omicron
    {
      Thresholds(epsilonSquared, deltaSquared, k, mu, CoreWeight(beta, mu), pi, omicron)
    }

    ghost predicate Valid()
      reads this`pcore, this`outlier, this`nextKey
    {
      Lifecycle.Valid(State())
    }

    /** __init__, for a configuration whose delta passes calculate_pref_dim_variance_threshold. */
    constructor (config: Config, prims: Primitives)
      requires PrefDimVarianceThreshold(config.delta).Success?
      ensures Valid() && this.config == config && this.prims == prims
      ensures epsilon == config.epsilon && epsilonSquared == config.epsilon * config.epsilon
      ensures upsilon == config.upsilon * config.epsilon
      ensures delta == config.delta && deltaSquared == config.delta * config.delta
      ensures beta == config.beta && k == config.k && lambda == config.lambda
      ensures !paramsSet && pcore == [] && outlier == []
      ensures lastDataTimestamp == 0 && datasetDimensionality == 0 && datasetSize == 0
    {
      this.config := config;
      this.prims := prims;
      epsilon := config.epsilon;
      epsilonSquared := config.epsilon * config.epsilon;
      upsilon := config.upsilon * config.epsilon;
      delta := PrefDimVarianceThreshold(config.delta).value;
      deltaSquared := config.delta * config.delta;
      beta := config.beta;
      k := config.k;
      lambda := config.lambda;
      pi, mu, omicron, paramsSet := 0, 0.0, 0.0, false;
      pcore, outlier, nextKey := [], [], 0;
      lastDataTimestamp, datasetDimensionality, datasetSize := 0, 0, 0;
    }

    /** calculate_density_threshold: the configured proportion of the current dataset size. */
    function CalculateDensityThreshold(): (threshold: real)
      reads this
      ensures threshold == DatasetProportion(config.mu, datasetSize)
    {
      config.mu * datasetSize as real
    }

    /**
     * _set_dataset_dependent_parameters. The order matters: omicron is scaled by the size of
     * the previous batch, read before dataset_size becomes the size of this batch; mu is scaled
     * by the size of this batch.
     */
    method SetDatasetDependentParameters(input: Dataset)
      modifies this`datasetDimensionality, this`pi, this`omicron, this`datasetSize, this`mu, this`paramsSet
      ensures datasetDimensionality == input.columns
      ensures pi == ProjectedDimensionalityThreshold(config.pi, input.columns)
      ensures omicron == DatasetProportion(config.omicron, old(datasetSize))
      ensures datasetSize == |input.rows|
      ensures mu == DatasetProportion(config.mu, |input.rows|)
      ensures paramsSet
    {
      datasetDimensionality := input.columns;
      var configPi := TruncateToInt(config.pi);
      if configPi <= 0 {
        pi := datasetDimensionality;
      } else {
        pi := configPi;
      }
      omicron := config.omicron * datasetSize as real;
      datasetSize := |input.rows|;
      mu := CalculateDensityThreshold();
      paramsSet := true;
    }

    /** decay_a_cluster_weight: the factor 2 ** (-lambda * interval) applied to one microcluster. */
    function DecayAClusterWeight(interval: int, m: Microcluster): (r: Microcluster)
      ensures r.id == m.id && r.key == m.key && r.stats.pdv == m.stats.pdv && r.stats.points == m.stats.points
      ensures r.stats.weight == m.stats.weight * prims.decayFactor(lambda, interval)
      ensures |r.stats.cf1| == |m.stats.cf1| && |r.stats.cf2| == |m.stats.cf2|
      ensures forall d | 0 <= d < |m.stats.cf1| :: r.stats.cf1[d] == m.stats.cf1[d] * prims.decayFactor(lambda, interval)
      ensures forall d | 0 <= d < |m.stats.cf2| :: r.stats.cf2[d] == m.stats.cf2[d] * prims.decayFactor(lambda, interval)
    {
      Decayed(m, prims.decayFactor(lambda, interval))
    }

    /** _decay_clusters_weight: every pcore, then every outlier, decayed in place. */
    method DecayClustersWeight(interval: int)
      modifies this`pcore, this`outlier
      ensures State() == AfterDecay(old(State()), prims.decayFactor(lambda, interval))
    {
      ghost var f := prims.decayFactor(lambda, interval);
      for i := 0 to |pcore|
        invariant |pcore| == |old(pcore)| && outlier == old(outlier)
        invariant forall j | 0 <= j < i :: pcore[j] == Decayed(old(pcore)[j], f)
        invariant forall j | i <= j < |pcore| :: pcore[j] == old(pcore)[j]
      {
        pcore := pcore[i := DecayAClusterWeight(interval, pcore[i])];
      }
      for i := 0 to |outlier|
        invariant |outlier| == |old(outlier)| && pcore == DecayedAll(old(pcore), f)
        invariant forall j | 0 <= j < i :: outlier[j] == Decayed(old(outlier)[j], f)
        invariant forall j | i <= j < |outlier| :: outlier[j] == old(outlier)[j]
      {
        outlier := outlier[i := DecayAClusterWeight(interval, outlier[i])];
      }
    }

    /**
     * _add_to_pcore: the nearest pcore that passes the pi filter takes the point if its
     * tentative radius is within epsilon; otherwise nothing changes.
     */
    method AddToPcore(datapoint: Point, timestamp: int) returns (added: bool)
      modifies this`pcore
      ensures (State(), added) == AfterAddToPcore(prims, old(State()), datapoint, timestamp, Th())
    {
      var closest := FindClosest(prims, pcore, datapoint, deltaSquared, k, Some(pi));
      if closest.Some? {
        var i := closest.value;
        var tentative := prims.copyWithNewPoint(pcore[i].stats, datapoint, deltaSquared, k);
        if prims.projectedRadiusSquared(tentative) <= epsilonSquared {
          var m := pcore[i];
          m := m.(stats := prims.addNewPoint(m.stats, datapoint, timestamp));
          m := m.(stats := prims.updatePreferredDimensions(m.stats, deltaSquared, k));
          pcore := pcore[i := m];
          return true;
        }
      }
      return false;
    }

    /**
     * _add_to_outlier: the nearest outlier, with no pi filter, takes the point if its tentative
     * radius is within epsilon, and is then offered the upgrade; otherwise nothing changes.
     */
    method AddToOutlier(datapoint: Point, timestamp: int) returns (added: bool)
      modifies this`pcore, this`outlier
      ensures (State(), added) == AfterAddToOutlier(prims, old(State()), datapoint, timestamp, Th())
    {
      var closest := FindClosest(prims, outlier, datapoint, deltaSquared, k, None);
      if closest.Some? {
        var i := closest.value;
        var tentative := prims.copyWithNewPoint(outlier[i].stats, datapoint, deltaSquared, k);
        if prims.projectedRadiusSquared(tentative) <= epsilonSquared {
          var m := outlier[i];
          m := m.(stats := prims.addNewPoint(m.stats, datapoint, timestamp));
          m := m.(stats := prims.updatePreferredDimensions(m.stats, deltaSquared, k));
          outlier := outlier[i := m];
          UpgradeOutlierMicrocluster(i);
          return true;
        }
      }
      return false;
    }

    /**
     * _upgrade_outlier_microcluster on the outlier at index i: it moves to the end of pcore_MC,
     * with the old pcore length as id, when its weight is at least beta * mu and at most pi of
     * its preferred-dimension entries are above 1.
     */
    method UpgradeOutlierMicrocluster(i: nat)
      requires i < |outlier|
      modifies this`pcore, this`outlier
      ensures State() == AfterUpgrade(old(State()), i, Th())
    {
      var outlierMc := outlier[i];
      var weightThresholdObeyed := outlierMc.stats.weight >= beta * mu;
      var pdimThresholdObeyed := PdimAboveOne(outlierMc.stats.pdv) <= pi;
      if weightThresholdObeyed && pdimThresholdObeyed {
        outlierMc := Renamed(outlierMc, |pcore|);
        outlier := outlier[..i] + outlier[i + 1..];
        pcore := pcore + [outlierMc];
      }
    }

    /** _create_new_outlier_cluster: a microcluster seeded with the point, appended to outlier_MC. */
    method CreateNewOutlierCluster(datapoint: Point, creationTime: int)
      modifies this`outlier, this`nextKey
      ensures State() == AfterNewOutlier(prims, old(State()), datapoint, creationTime, Th())
    {
      var created := prims.create(Zeros(|datapoint|), Zeros(|datapoint|), creationTime);
      created := prims.addNewPoint(created, datapoint, creationTime);
      created := prims.updatePreferredDimensions(created, deltaSquared, k);
      outlier := outlier + [Microcluster(created, |outlier|, nextKey)];
      nextKey := nextKey + 1;
    }

    /** downgrade_microclusters: the pcore pass, then the outlier pass. */
    method DowngradeMicroclusters()
      modifies this`pcore, this`outlier
      ensures State() == AfterDowngrade(old(State()), Th())
    {
      DowngradePotentialMicroclusters();
      DowngradeOutlierMicroclusters();
    }

    /**
     * _downgrade_potential_microclusters, with the loop index kept in place after a removal so
     * that every pcore is examined.
     */
    method DowngradePotentialMicroclusters()
      modifies this`pcore, this`outlier
      ensures State() == AfterPotentialDowngrade(old(State()), Th())
    {
      var th := Th();
      ghost var pcore0, outlier0 := pcore, outlier;
      ghost var done := 0;
      var i := 0;
      while i < |pcore|
        invariant PotentialLoop(pcore0, outlier0, done, i, pcore, outlier, th)
        decreases |pcore| - i
      {
        PotentialLoopStep(pcore0, outlier0, done, i, pcore, outlier, th);
        var potentialCluster := pcore[i];
        var weightThresholdObeyed := potentialCluster.stats.weight < th.coreWeight;
        var pdimThresholdObeyed := PdimAboveOne(potentialCluster.stats.pdv) > pi;
        if weightThresholdObeyed || pdimThresholdObeyed {
          outlier := outlier + [Renamed(potentialCluster, |outlier|)];
          pcore := pcore[..i] + pcore[i + 1..];
        } else {
          i := i + 1;
        }
        done := done + 1;
      }
      PotentialLoopExit(pcore0, outlier0, done, i, pcore, outlier, th);
      assert Th() == th;
    }

    /**
     * _downgrade_outlier_microclusters, with the loop index kept in place after a removal so
     * that every outlier is examined.
     */
    method DowngradeOutlierMicroclusters()
      modifies this`outlier
      ensures State() == AfterOutlierDeletion(old(State()), Th())
    {
      ghost var th := Th();
      ghost var outlier0 := outlier;
      ghost var done := 0;
      var i := 0;
      while i < |outlier|
        invariant DeletionLoop(outlier0, done, i, outlier, th)
        decreases |outlier| - i
      {
        DeletionLoopStep(outlier0, done, i, outlier, th);
        if outlier[i].stats.weight <= omicron {
          outlier := outlier[..i] + outlier[i + 1..];
        } else {
          i := i + 1;
        }
        done := done + 1;
      }
      DeletionLoopExit(outlier0, done, i, outlier, th);
      assert Th() == th;
    }

    /** The loops that call reset_points on every pcore and every outlier. */
    method ResetClusterPoints()
      modifies this`pcore, this`outlier
      ensures State() == AfterReset(old(State()))
    {
      for i := 0 to |pcore|
        invariant |pcore| == |old(pcore)| && outlier == old(outlier)
        invariant forall j | 0 <= j < i :: pcore[j] == WithoutPoints(old(pcore)[j])
        invariant forall j | i <= j < |pcore| :: pcore[j] == old(pcore)[j]
      {
        pcore := pcore[i := WithoutPoints(pcore[i])];
      }
      for i := 0 to |outlier|
        invariant |outlier| == |old(outlier)| && pcore == WithoutPointsAll(old(pcore))
        invariant forall j | 0 <= j < i :: outlier[j] == WithoutPoints(old(outlier)[j])
        invariant forall j | i <= j < |outlier| :: outlier[j] == old(outlier)[j]
      {
        outlier := outlier[i := WithoutPoints(outlier[i])];
      }
    }

    /**
     * offline_clustering up to the call of PreDeCon: the dictionary of records, keyed by id,
     * with each pcore's own core flag.
     */
    method OfflineClustering() returns (datapoints: map<nat, PayloadEntry>)
      ensures datapoints == Payload(prims, pcore, Th())
    {
      datapoints := map[];
      for i := 0 to |pcore|
        invariant datapoints == Payload(prims, pcore[..i], Th())
      {
        assert pcore[..i + 1][..i] == pcore[..i];
        var cluster := pcore[i];
        var clusterIsCore := prims.isCore(cluster.stats, epsilonSquared, mu, pi);
        datapoints := datapoints[cluster.id := PayloadEntry(prims.clusterCentroids(cluster.stats), cluster.stats.cf1,
                                                            cluster.stats.cf2, cluster.stats.weight, clusterIsCore)];
      }
      assert pcore[..|pcore|] == pcore;
    }

    /**
     * The day-boundary block of online_microcluster_maintenance: decay every microcluster by
     * the interval, downgrade, then clear the point buffers.
     */
    method StartNewDay(interval: int)
      requires Valid()
      modifies this`pcore, this`outlier
      ensures State() == AfterNewDay(old(State()), prims.decayFactor(lambda, interval), Th())
      ensures Valid()
    {
      ghost var before := State();
      DecayClustersWeight(interval);
      DowngradeMicroclusters();
      ResetClusterPoints();
      NewDayKeepsValid(before, prims.decayFactor(lambda, interval), Th());
    }

    /**
     * One iteration of the routing loop of online_microcluster_maintenance: the pcores first,
     * then the outliers, and a new outlier when neither takes the point.
     */
    method RoutePoint(datapoint: Point, timestamp: int)
      requires Valid()
      modifies this`pcore, this`outlier, this`nextKey
      ensures State() == AfterPoint(prims, old(State()), datapoint, timestamp, Th())
      ensures Valid()
    {
      PointTakesOneRoute(prims, State(), datapoint, timestamp, Th());
      var trial1 := AddToPcore(datapoint, timestamp);
      var trial2 := false;
      if !trial1 {
        trial2 := AddToOutlier(datapoint, timestamp);
      }
      if !trial1 && !trial2 {
        CreateNewOutlierCluster(datapoint, timestamp);
      }
    }

    /** The routing loop of online_microcluster_maintenance: every point, in batch order. */
    method RouteBatch(rows: seq<Point>, daystamp: int)
      requires Valid()
      modifies this`pcore, this`outlier, this`nextKey
      ensures Valid()
      ensures State() == AfterBatch(prims, old(State()), rows, daystamp, Th())
    {
      var row := 0;
      while row < |rows|
        invariant 0 <= row <= |rows|
        invariant Valid()
        invariant State() == AfterBatch(prims, old(State()), rows[..row], daystamp, Th())
      {
        RoutePoint(rows[row], daystamp);
        BatchStep(prims, old(State()), rows, row, daystamp, Th());
        row := row + 1;
      }
      assert rows[..|rows|] == rows;
    }

    /**
     * The part of online_microcluster_maintenance after the parameter reset: the day boundary
     * when the daystamp differs from the last one, the routing of the batch, and the recording
     * of the daystamp.
     */
    method MaintainMicroclusters(rows: seq<Point>, daystamp: int)
      requires Valid()
      modifies this`pcore, this`outlier, this`nextKey, this`lastDataTimestamp
      ensures Valid() && lastDataTimestamp == daystamp
      ensures State() == AfterBatch(prims, AfterDayBoundary(prims, old(State()), lambda, old(lastDataTimestamp), daystamp, Th()),
                                    rows, daystamp, Th())
    {
      ghost var th := Th();
      ghost var before := AfterDayBoundary(prims, State(), lambda, lastDataTimestamp, daystamp, th);
      if lastDataTimestamp - daystamp != 0 {
        StartNewDay(daystamp - lastDataTimestamp);
      }
      assert State() == before;
      RouteBatch(rows, daystamp);
      assert Th() == th;
      ghost var routed := State();
      assert routed == AfterBatch(prims, before, rows, daystamp, th);
      lastDataTimestamp := daystamp;
      assert State() == routed;
    }

    /**
     * online_microcluster_maintenance: reset the batch parameters if asked; if the daystamp
     * differs from the last one, decay by the elapsed interval, downgrade and clear the point
     * buffers; route every point in batch order; record the daystamp; build the offline payload.
     */
    method OnlineMicroclusterMaintenance(input: Dataset, daystamp: int, resetParam: bool)
      returns (datapoints: map<nat, PayloadEntry>)
      requires Valid()
      requires resetParam || paramsSet
      modifies this
      ensures Valid()
      ensures resetParam ==>
        && datasetDimensionality == input.columns
        && pi == ProjectedDimensionalityThreshold(config.pi, input.columns)
        && omicron == DatasetProportion(config.omicron, old(datasetSize))
        && datasetSize == |input.rows| && mu == DatasetProportion(config.mu, |input.rows|)
      ensures !resetParam ==>
        && datasetDimensionality == old(datasetDimensionality) && pi == old(pi) && omicron == old(omicron)
        && datasetSize == old(datasetSize) && mu == old(mu)
      ensures paramsSet && lastDataTimestamp == daystamp
      ensures State() == AfterBatch(prims, AfterDayBoundary(prims, old(State()), lambda, old(lastDataTimestamp), daystamp, Th()),
                                    input.rows, daystamp, Th())
      ensures datapoints == Payload(prims, pcore, Th())
    {
      if resetParam {
        SetDatasetDependentParameters(input);
      }
      MaintainMicroclusters(input.rows, daystamp);
      datapoints := OfflineClustering();
    }
  }

  /**
   * Construction with the delta check of calculate_pref_dim_variance_threshold: a delta
   * outside [0, 1] ends the process, which the Failure stands for.
   */
  method NewHDDStream(config: Config, prims: Primitives) returns (r: Result<HDDStream, string>)
    ensures r.Failure? <==> !(0.0 <= config.delta <= 1.0)
    ensures r.Success? ==>
      && fresh(r.value) && r.value.Valid() && r.value.config == config
      && r.value.pcore == [] && r.value.outlier == [] && r.value.delta == config.delta
  {
    var checked := PrefDimVarianceThreshold(config.delta);
    if checked.Failure? {
      return Failure(checked.error);
    }
    var engine := new HDDStream(config, prims);
    return Success(engine);
  }
}
