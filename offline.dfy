/**
 * What the online phase of chronoclust/hddstream.py hands to the offline clustering step: one
 * record per pcore microcluster, in a dictionary keyed by the microcluster's id. The offline
 * step itself (PreDeCon) is not part of this model.
 */
module Offline {
  import opened Microclusters
  import opened Lifecycle

  /** The fields of a MicroclusterAsDatapoint the engine fills in, besides its id. */
  datatype PayloadEntry = PayloadEntry(centroid: seq<real>, cf1: seq<real>, cf2: seq<real>, weight: real,
                                       isCore: bool)

  /** The record for one pcore: its own core test decides the core flag, not PreDeCon. */
  function Entry(prims: Primitives, m: Microcluster, th: Thresholds): (e: PayloadEntry)
  {
    PayloadEntry(prims.clusterCentroids(m.stats), m.stats.cf1, m.stats.cf2, m.stats.weight,
                 prims.isCore(m.stats, th.epsilonSquared, th.mu, th.pi))
  }

  /** The dictionary the loop of offline_clustering builds: a later pcore overwrites an earlier one with the same id. */
  function Payload(prims: Primitives, s: seq<Microcluster>, th: Thresholds): (d: map<nat, PayloadEntry>)
  {
    if s == [] then map[]
    else Payload(prims, s[..|s| - 1], th)[s[|s| - 1].id := Entry(prims, s[|s| - 1], th)]
  }

  /** The ids of the microclusters of a list. */
  function Ids(s: seq<Microcluster>): set<nat>
  {
    set m | m in s :: m.id
  }

  /** The dictionary has an entry for every id of a pcore, and for nothing else. */
  lemma {:induction false} PayloadKeys(prims: Primitives, s: seq<Microcluster>, th: Thresholds)
    ensures Payload(prims, s, th).Keys == Ids(s)
  {
    if s != [] {
      var front := s[..|s| - 1];
      PayloadKeys(prims, front, th);
      assert s == front + [s[|s| - 1]];
      assert Ids(s) == Ids(front) + {s[|s| - 1].id};
    }
  }

  /** The entry under an id is the record of the last pcore with that id. */
  lemma {:induction false} PayloadHoldsLast(prims: Primitives, s: seq<Microcluster>, th: Thresholds, i: nat)
    requires i < |s| && forall j | i < j < |s| :: s[j].id != s[i].id
    ensures s[i].id in Payload(prims, s, th) && Payload(prims, s, th)[s[i].id] == Entry(prims, s[i], th)
  {
    if i < |s| - 1 {
      var front := s[..|s| - 1];
      assert front[i] == s[i];
      PayloadHoldsLast(prims, front, th, i);
    }
  }

  /** The dictionary never has more entries than there are pcores. */
  lemma {:induction false} PayloadAtMostPcores(prims: Primitives, s: seq<Microcluster>, th: Thresholds)
    ensures |Payload(prims, s, th)| <= |s|
  {
    if s != [] {
      PayloadAtMostPcores(prims, s[..|s| - 1], th);
    }
  }

  /** Two pcores with the same id make the dictionary lose one of them. */
  lemma {:induction false} PayloadDropsSharedIds(prims: Primitives, s: seq<Microcluster>, th: Thresholds, i: nat, j: nat)
    requires i < j < |s| && s[i].id == s[j].id
    ensures |Payload(prims, s, th)| < |s|
  {
    var front := s[..|s| - 1];
    if j < |s| - 1 {
      PayloadDropsSharedIds(prims, front, th, i, j);
    } else {
      PayloadKeys(prims, front, th);
      assert front[i] in front;
      PayloadAtMostPcores(prims, front, th);
    }
  }

  /**
   * With pairwise distinct ids, as the offline step intends, every pcore reaches the dictionary:
   * it has one entry per pcore, and each pcore's own record sits under its id.
   */
  lemma {:induction false} PayloadKeepsDistinctIds(prims: Primitives, s: seq<Microcluster>, th: Thresholds)
    requires forall i, j | 0 <= i < j < |s| :: s[i].id != s[j].id
    ensures |Payload(prims, s, th)| == |s|
    ensures forall i | 0 <= i < |s| :: s[i].id in Payload(prims, s, th) && Payload(prims, s, th)[s[i].id] == Entry(prims, s[i], th)
  {
    if s != [] {
      var front := s[..|s| - 1];
      PayloadKeepsDistinctIds(prims, front, th);
      PayloadKeys(prims, front, th);
      assert s[|s| - 1].id !in Ids(front);
    }
    forall i | 0 <= i < |s|
      ensures s[i].id in Payload(prims, s, th) && Payload(prims, s, th)[s[i].id] == Entry(prims, s[i], th)
    {
      PayloadHoldsLast(prims, s, th, i);
    }
  }

  /**
   * Positional ids can collide. Pcores a and b carry ids 0 and 1; a is downgraded and b is not,
   * so pcore_MC is [b]. An outlier o that then qualifies for the upgrade gets id len(pcore_MC),
   * which is 1 again, and the dictionary handed to the offline step holds one of the two pcores.
   */
  lemma PositionalIdsCollide(prims: Primitives, a: Microcluster, b: Microcluster, o: Microcluster,
                             nextKey: nat, th: Thresholds)
    requires a.id == 0 && b.id == 1
    requires Downgradable(a, th) && !Downgradable(b, th) && Upgradable(o, th)
    ensures var d := AfterPotentialDowngrade(Model([a, b], [o], nextKey), th);
      var r := AfterUpgrade(d, 0, th);
      && |r.pcore| == 2 && r.pcore[0].id == r.pcore[1].id == 1
      && |Payload(prims, r.pcore, th)| == 1
  {
    var d := AfterPotentialDowngrade(Model([a, b], [o], nextKey), th);
    assert [a, b][..1] == [a];
    assert Filter([a], Stays(th)) == Filter([], Stays(th)) + [];
    assert Filter([a, b], Stays(th)) == Filter([a], Stays(th)) + [b];
    assert d.pcore == [b];
    assert d.outlier[0] == o;
    var r := AfterUpgrade(d, 0, th);
    assert r.pcore == [b, Renamed(o, 1)];
    assert r.pcore[..1] == [b];
    assert [b][..0] == [];
    assert Payload(prims, [b], th) == map[1 := Entry(prims, b, th)];
  }
}
