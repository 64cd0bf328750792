/**
 * Microclusters as the online maintenance engine of chronoclust/hddstream.py sees them.
 *
 * The statistics of a microcluster belong to helper_objects.Microcluster, which is not part of
 * this model: its operations (cloning with a tentative point, projected distance and radius,
 * adding a point, recomputing the preferred dimensions, the core test, the centroid) are
 * parameters of the model, collected in `Primitives`. Nothing is assumed about what they
 * compute, but each is a pure function of the five fields of `Stats`: an operation cannot alter
 * the microcluster it is given, and the unseen class holds no state besides those fields.
 * What the engine itself does to a microcluster (decay, counting preferred dimensions, changing
 * its id) is defined here. So is reset_points, a method of the unseen class the engine calls at
 * the day boundary: it is taken to empty the buffer of raw points and to keep everything else.
 */
module Microclusters {

  /** One row of a batch: a value per dimension. */
  type Point = seq<real>

  /**
   * The state a helper_objects.Microcluster owns apart from its id: the decayed linear sum
   * CF1, the decayed squared sum CF2, the cumulative weight, the preferred-dimension vector
   * and the buffer of raw points received since the last day boundary.
   */
  datatype Stats = Stats(cf1: seq<real>, cf2: seq<real>, weight: real, pdv: seq<real>, points: seq<Point>)

  /**
   * A microcluster in one of the engine's two lists. `id` is the single integer the engine
   * stores in the microcluster's id collection. `key` stands for the identity of the Python
   * object: the lists are searched and edited by identity, and no two live microclusters
   * share a key.
   */
  datatype Microcluster = Microcluster(stats: Stats, id: nat, key: nat)

  /**
   * The operations the engine calls but does not define. Every property of the model holds
   * whatever these functions are.
   *   create                    Microcluster(cf1=, cf2=, creation_time_in_hrs=), without the id
   *   copyWithNewPoint          get_copy_with_new_point(point, delta_squared, k)
   *   projectedDistToPoint      get_projected_dist_to_point(point)
   *   projectedRadiusSquared    calculate_projected_radius_squared()
   *   addNewPoint               add_new_point(point, timestamp)
   *   updatePreferredDimensions update_preferred_dimensions(delta_squared, k)
   *   isCore                    is_core(epsilon_squared, mu, pi)
   *   clusterCentroids          the cluster_centroids attribute
   *   decayFactor               2 ** (-lambda * interval), evaluated in floating point by the source
   */
  datatype Primitives = Primitives(
    create: (seq<real>, seq<real>, int) -> Stats,
    copyWithNewPoint: (Stats, Point, real, real) -> Stats,
    projectedDistToPoint: (Stats, Point) -> real,
    projectedRadiusSquared: Stats -> real,
    addNewPoint: (Stats, Point, int) -> Stats,
    updatePreferredDimensions: (Stats, real, real) -> Stats,
    isCore: (Stats, real, real, int) -> bool,
    clusterCentroids: Stats -> seq<real>,
    decayFactor: (real, int) -> real)

  /** The projected dimensionality as the pcore search counts it: entries different from 1. */
  function PdimNotOne(v: seq<real>): (n: nat)
    ensures n <= |v|
  {
    if v == [] then 0 else (if v[0] != 1.0 then 1 else 0) + PdimNotOne(v[1..])
  }

  /** The projected dimensionality as the upgrade and downgrade tests count it: entries above 1. */
  function PdimAboveOne(v: seq<real>): (n: nat)
    ensures n <= |v|
  {
    if v == [] then 0 else (if v[0] > 1.0 then 1 else 0) + PdimAboveOne(v[1..])
  }

  /** Every entry above 1 is also different from 1, so the second count never exceeds the first. */
  lemma {:induction false} PdimAboveOneAtMostNotOne(v: seq<real>)
    ensures PdimAboveOne(v) <= PdimNotOne(v)
  {
    if v != [] {
      PdimAboveOneAtMostNotOne(v[1..]);
    }
  }

  /**
   * The two counts agree on every vector whose entries are 1 (preferred) or some value
   * above 1 (not preferred). That this is the encoding update_preferred_dimensions produces is
   * an assumption about helper_objects.Microcluster, which is not part of this model.
   */
  lemma {:induction false} PdimCountsAgree(v: seq<real>)
    requires forall i | 0 <= i < |v| :: v[i] == 1.0 || v[i] > 1.0
    ensures PdimNotOne(v) == PdimAboveOne(v)
  {
    if v != [] {
      PdimCountsAgree(v[1..]);
    }
  }

  /** Without that encoding the counts differ: an entry below 1 is counted by one test only. */
  lemma {:induction false} PdimCountsDiffer(v: seq<real>, i: nat)
    requires i < |v| && v[i] < 1.0
    ensures PdimAboveOne(v) < PdimNotOne(v)
  {
    if i == 0 {
      PdimAboveOneAtMostNotOne(v[1..]);
    } else {
      PdimCountsDiffer(v[1..], i - 1);
    }
  }

  /** A vector multiplied entry by entry by `f`, as numpy's `*=` does. */
  function Scaled(v: seq<real>, f: real): (r: seq<real>)
    ensures |r| == |v|
  {
    seq(|v|, i requires 0 <= i < |v| => v[i] * f)
  }

  /**
   * decay_a_cluster_weight: CF1, CF2 and the cumulative weight are multiplied by the decay
   * factor; the preferred dimensions, the point buffer, the id and the identity are kept.
   */
  function Decayed(m: Microcluster, f: real): (r: Microcluster)
  {
    m.(stats := m.stats.(cf1 := Scaled(m.stats.cf1, f), cf2 := Scaled(m.stats.cf2, f),
                         weight := m.stats.weight * f))
  }

  /**
   * Decaying by `f1` and then by `f2` is decaying once by `f1 * f2`. With the exact factor
   * 2^(-lambda d), decaying over d1 days and then over d2 days is decaying over d1 + d2 days.
   */
  lemma DecayedComposes(m: Microcluster, f1: real, f2: real)
    ensures Decayed(Decayed(m, f1), f2) == Decayed(m, f1 * f2)
  {
    forall v: seq<real> ensures Scaled(Scaled(v, f1), f2) == Scaled(v, f1 * f2) {
      forall i | 0 <= i < |v| ensures Scaled(Scaled(v, f1), f2)[i] == Scaled(v, f1 * f2)[i] {
        assert v[i] * f1 * f2 == v[i] * (f1 * f2);
      }
    }
  }

  /** A factor of 1 (an interval of zero days with the exact factor) leaves a microcluster as it is. */
  lemma DecayedByOne(m: Microcluster)
    ensures Decayed(m, 1.0) == m
  {
    assert Scaled(m.stats.cf1, 1.0) == m.stats.cf1;
    assert Scaled(m.stats.cf2, 1.0) == m.stats.cf2;
  }

  /**
   * reset_points of helper_objects.Microcluster, as this model takes it: the buffer of raw
   * points is emptied, and CF1, CF2, the weight and the preferred dimensions are kept.
   */
  function WithoutPoints(m: Microcluster): (r: Microcluster)
  {
    m.(stats := m.stats.(points := []))
  }

  /** A microcluster given a new id, as upgrade and downgrade do. */
  function Renamed(m: Microcluster, id: nat): (r: Microcluster)
  {
    m.(id := id)
  }
}
