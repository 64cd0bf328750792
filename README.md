# HDDStream online microcluster maintenance, in Dafny

This project models the online phase of the HDDStream clustering engine in
`chronoclust/hddstream.py` (after Ntoutsi et al., "Density-based Projected Clustering over High
Dimensional Data Streams", SDM 2012). The engine has two lists: `pcore_MC`, the potential core
microclusters, and `outlier_MC`, the outlier microclusters. For each batch of points with a
daystamp it does the following:

1. It optionally recomputes the batch-dependent thresholds pi, omicron and mu.
2. On a new day it decays every microcluster, downgrades and deletes, and clears the point buffers.
3. It routes every point in batch order. A point goes to the nearest admissible pcore, or else
   to the nearest outlier (with the upgrade check), or else to a new outlier.
4. It records the daystamp.
5. It builds the dictionary of pcore records that it hands to the offline clustering step.

The model has these files:

- `microclusters.dfy` holds the microcluster values.
  - Their internals belong to `helper_objects.Microcluster`, which is not part of this model.
  - The operations the engine calls on it are the function-valued fields of `Primitives`.
    Each is a pure function of a microcluster's statistics (CF1, CF2, weight, preferred
    dimensions, point buffer), and every result holds whatever those functions compute. The
    one exception is `reset_points`, which the model defines (`WithoutPoints`): it empties the
    point buffer.
  - A microcluster carries a `key` that stands for Python object identity.
- `assignment.dfy` holds the nearest-candidate search, with its strict `<` tie-break, and the
  radius test.
- `lifecycle.dfy` gives every state change as a function of the two lists: routing a point, a
  batch, the day boundary. It also states their invariants.
  - `Valid` says every live identity occurs exactly once across both lists and was handed out.
- `offline.dfy` holds the dictionary `offline_clustering` builds.
- `hddstream.dfy` holds the `HDDStream` class.
  - Its fields are the engine's fields. Its methods update them in place with the loops of the
    source. The two downgrade methods are the exception: they use the corrected loop, which
    does not skip the element after a removal (see Findings).
  - Each method is proved to change the fields exactly as the functions of `lifecycle.dfy` and
    `offline.dfy` say.

The helper operations, the floating-point decay factor `2 ** (-lambda * interval)`, the
configuration XML are parameters of the model.

## Model

| member | source | states |
|---|---|---|
| Microclusters.PdimAboveOneAtMostNotOne | chronoclust/hddstream.py:294-296 | The upgrade and downgrade count (entries above 1) never exceeds the pcore-search count (entries different from 1). |
| Microclusters.PdimCountsAgree | chronoclust/hddstream.py:384-385 | The two pdim counts agree on every vector whose entries are 1 or above 1. |
| Microclusters.PdimCountsDiffer | chronoclust/hddstream.py:467-468 | One entry below 1 makes the counts differ strictly, so the two tests in the source are not interchangeable in general. |
| Microclusters.DecayedComposes | chronoclust/hddstream.py:255-270 | Decaying CF1, CF2 and the weight by f1 and then by f2 is decaying once by f1·f2. |
| Microclusters.DecayedByOne | chronoclust/hddstream.py:267-270 | A factor of 1 leaves a microcluster unchanged. |
| Assignment.FirstNearestIsFirstMinimum | chronoclust/hddstream.py:296-303 | The search finds nothing iff there is no candidate. Otherwise it finds a candidate at minimal distance that is strictly closer than every earlier one, so ties go to the lowest index. |
| Assignment.FirstNearestIsUnique | chronoclust/hddstream.py:301-303 | Only one index satisfies that characterisation. |
| Assignment.FindClosest | chronoclust/hddstream.py:282-303 | The search loop (pi filter for pcores; no filter, as at lines 337-345, for outliers) returns the first nearest candidate. It returns None iff no microcluster is admitted. |
| Assignment.FitCharacterized | chronoclust/hddstream.py:305-320 | Fit picks index i iff i is the first nearest candidate and its tentative radius is within epsilon. If that one candidate's radius is too large, nothing is picked. |
| Assignment.Commit | chronoclust/hddstream.py:316-318 | Committing a point keeps the microcluster's id and identity. |
| Lifecycle.ValidMeansExclusive | chronoclust/hddstream.py:387-390 | A valid model has no microcluster in both lists and none twice in one list. |
| Lifecycle.UpgradeMoves | chronoclust/hddstream.py:368-390 | The upgrade keeps the identities and the total count. It happens iff the outlier qualifies (weight >= beta·mu, pdim <= pi). The moved microcluster is then the last pcore, with the old pcore length as id. A non-qualifying outlier leaves both lists unchanged. |
| Lifecycle.PcoreRoute | chronoclust/hddstream.py:272-320 | When a pcore fits, only that pcore changes. The outliers, the identities and validity are kept. |
| Lifecycle.OutlierRoute | chronoclust/hddstream.py:322-366 | When no pcore fits and outlier i does, only outlier i changes, to its committed form c. If c qualifies, it leaves outlier_MC and is appended to pcore_MC with the old pcore length as id. Otherwise it stays in place and pcore_MC is unchanged. No identity is created or lost, and the model stays valid. |
| Lifecycle.NewOutlierRoute | chronoclust/hddstream.py:392-409 | When nothing fits, exactly one outlier is appended. Its id is the old outlier length and its identity is fresh. |
| Lifecycle.PointTakesOneRoute | chronoclust/hddstream.py:207-224 | Each point takes exactly one of the three routes. The model stays valid, and one microcluster is created iff neither list fits. |
| Lifecycle.BatchKeepsValid | chronoclust/hddstream.py:207-224 | Routing a batch keeps the model valid and loses no identity. It adds at most one microcluster per point. |
| Lifecycle.DecayKeepsLists | chronoclust/hddstream.py:237-253 | Decay keeps both lists' lengths, order, ids and identities, and multiplies every weight by the factor. |
| Lifecycle.DecayAllComposes | chronoclust/hddstream.py:237-270 | Decaying both lists twice is decaying them once by the product of the factors. |
| Lifecycle.PotentialDowngradeCorrect | chronoclust/hddstream.py:458-474 | After the pcore pass, the pcores are exactly the old ones that still qualify, and the old outliers are a prefix. Each appended outlier was a non-qualifying pcore whose id is its position. Identities and count are kept. |
| Lifecycle.OutlierDeletionCorrect | chronoclust/hddstream.py:476-484 | The outlier pass keeps exactly the outliers above omicron and touches no pcore. Identities only shrink. |
| Lifecycle.SameDayKeepsModel | chronoclust/hddstream.py:189 | A batch with the same daystamp as the last one does no decay, downgrade or reset. |
| Lifecycle.NewDayKeepsValid | chronoclust/hddstream.py:189-203 | The day boundary keeps the model valid and creates no identity. Afterwards no outlier is at or below omicron. |
| Lifecycle.PotentialPassAsWrittenSkips | chronoclust/hddstream.py:464-474 | On two consecutive non-qualifying pcores, the written loop moves only the first. The corrected pass moves both. |
| Lifecycle.OutlierPassAsWrittenSkips | chronoclust/hddstream.py:480-484 | On two consecutive outliers at or below omicron, the written loop deletes only the first. The corrected pass deletes both. |
| Lifecycle.PotentialPassAsWrittenSound | chronoclust/hddstream.py:464-474 | The written pcore loop still keeps the old outliers as a prefix and moves only non-qualifying pcores, each with its position as id. It never moves a qualifying pcore. |
| Lifecycle.OutlierPassAsWrittenSound | chronoclust/hddstream.py:480-484 | The written outlier loop never deletes an outlier above omicron. |
| Offline.PayloadKeys | chronoclust/hddstream.py:421-438 | The dictionary's keys are exactly the pcores' ids. |
| Offline.PayloadHoldsLast | chronoclust/hddstream.py:435-438 | The entry under an id is the record of the last pcore with that id. |
| Offline.PayloadAtMostPcores | chronoclust/hddstream.py:424-438 | The dictionary has at most as many entries as there are pcores. |
| Offline.PayloadDropsSharedIds | chronoclust/hddstream.py:428-438 | Two pcores sharing an id make the dictionary strictly smaller than the pcore list. |
| Offline.PayloadKeepsDistinctIds | chronoclust/hddstream.py:424-438 | With pairwise distinct ids, the dictionary has exactly one entry per pcore, and each pcore's own record sits under its id. |
| Offline.PositionalIdsCollide | chronoclust/hddstream.py:388-390 | A downgrade followed by an upgrade can give two pcores the same id. The dictionary then holds one of them. |
| HDDStreamEngine.PrefDimVarianceThreshold | chronoclust/hddstream.py:122-143 | delta is accepted iff 0 <= delta <= 1, and then returned unchanged. |
| HDDStreamEngine.TruncateToInt | chronoclust/hddstream.py:99 | int() of a float rounds toward zero, for negative values too. |
| HDDStreamEngine.ProjectedDimensionalityFallsBack | chronoclust/hddstream.py:99-106 | A configured pi below 1 falls back to the dataset dimensionality. Otherwise pi is its integer part, at least 1. |
| HDDStreamEngine.DatasetProportionScales | chronoclust/hddstream.py:108-118 | omicron and mu are a configured proportion of a number of data points, and that proportion is linear in the count: two batches together give the sum of their thresholds. With a non-negative proportion, a larger batch never gives a lower threshold. |
| HDDStreamEngine.HDDStream.constructor | chronoclust/hddstream.py:30-62 | The derived constants are epsilon², upsilon·epsilon and delta². Both lists are empty, the counters are zero, and the model is valid. |
| HDDStreamEngine.HDDStream.SetDatasetDependentParameters | chronoclust/hddstream.py:84-120 | pi falls back or truncates. omicron scales the previous batch size and mu, through `calculate_density_threshold` (lines 145-156), the current one. The dimensionality and size are updated. |
| HDDStreamEngine.HDDStream.DecayAClusterWeight | chronoclust/hddstream.py:255-270 | CF1, CF2 (entry by entry) and the weight are multiplied by the decay factor for the interval. The preferred dimensions, the point buffer, the id and the identity are kept. |
| HDDStreamEngine.HDDStream.DecayClustersWeight | chronoclust/hddstream.py:237-253 | The two loops leave the lists equal to AfterDecay of the old lists. |
| HDDStreamEngine.HDDStream.AddToPcore | chronoclust/hddstream.py:272-320 | The new pcore list and the success flag are those of AfterAddToPcore. |
| HDDStreamEngine.HDDStream.AddToOutlier | chronoclust/hddstream.py:322-366 | The new lists and the flag are those of AfterAddToOutlier, upgrade included. |
| HDDStreamEngine.HDDStream.UpgradeOutlierMicrocluster | chronoclust/hddstream.py:368-390 | The new lists are AfterUpgrade of the old ones. |
| HDDStreamEngine.HDDStream.CreateNewOutlierCluster | chronoclust/hddstream.py:392-409 | The new lists are AfterNewOutlier of the old ones. |
| HDDStreamEngine.HDDStream.DowngradeMicroclusters | chronoclust/hddstream.py:454-456 | The pcore pass and then the outlier pass, as AfterDowngrade. |
| HDDStreamEngine.HDDStream.DowngradePotentialMicroclusters | chronoclust/hddstream.py:458-474 | The in-place loop leaves the lists equal to AfterPotentialDowngrade. It uses the corrected loop (see Findings). |
| HDDStreamEngine.HDDStream.DowngradeOutlierMicroclusters | chronoclust/hddstream.py:476-484 | The in-place loop leaves the outliers equal to AfterOutlierDeletion. It uses the corrected loop (see Findings). |
| HDDStreamEngine.HDDStream.ResetClusterPoints | chronoclust/hddstream.py:197-203 | Every pcore and every outlier has its point buffer cleared, and nothing else changes. |
| HDDStreamEngine.HDDStream.OfflineClustering | chronoclust/hddstream.py:411-439 | The dictionary built is Payload of the pcore list. |
| HDDStreamEngine.HDDStream.StartNewDay | chronoclust/hddstream.py:189-203 | Decay, downgrade and reset give AfterNewDay, and validity is kept. |
| HDDStreamEngine.HDDStream.RoutePoint | chronoclust/hddstream.py:210-224 | One loop iteration gives AfterPoint and keeps validity. |
| HDDStreamEngine.HDDStream.RouteBatch | chronoclust/hddstream.py:207-224 | The routing loop gives AfterBatch of the batch in order and keeps validity. |
| HDDStreamEngine.HDDStream.MaintainMicroclusters | chronoclust/hddstream.py:189-231 | The day boundary (only when the daystamp differs), then the batch, then the daystamp recorded. |
| HDDStreamEngine.HDDStream.OnlineMicroclusterMaintenance | chronoclust/hddstream.py:158-235 | The parameters are reset iff asked. The lists become AfterBatch of the day-boundary state, the daystamp is recorded, the result is Payload of the pcores, and validity is kept. |
| HDDStreamEngine.NewHDDStream | chronoclust/hddstream.py:44 | Construction fails iff delta lies outside [0, 1]. Otherwise it yields a fresh, valid engine with empty lists. |

## Left out

- The PreDeCon run in `offline_clustering` (lines 442-452) and `final_clusters` are left out. PreDeCon is not part of this model; the model stops at the dictionary handed to it.
- Logging, the progress bar and `TqdmToLogger`, `progres_bar_interval`, `__getstate__`/`__setstate__`, `set_logger` and `set_config` are left out. They are I/O or persistence and do not change the clustering state.
- The helper operations are modelled as pure functions of (cf1, cf2, weight, pdv, points). Two things are therefore assumed and not proved. `get_copy_with_new_point` cannot alter the original microcluster. The unseen class holds no other state, for example no field for the creation time passed to `create`.
- `helper_objects.Microcluster` is not part of this model. The operations the engine calls on it are uninterpreted parameters, so no property depends on what they compute, except `reset_points`.
- `WithoutPoints`: `reset_points` (called at lines 198-203) is modelled as emptying only the point buffer and keeping CF1, CF2, the weight and the preferred dimensions. This is an assumption about the unseen class. `ResetClusterPoints` and the last ensures of `NewDayKeepsValid` (no outlier at or below omicron after the day boundary) depend on it. The comment at line 197 says the reset targets `current_data_points_weight_sum`. The model has no such field, so this reset is taken to be the point buffer alone.
- Floating point is not modelled. Real arithmetic is exact, and the decay factor `2 ** (-lambda * interval)` is a parameter, so its monotonicity in the interval is not modelled.
- The None that pi, mu and omicron hold before the first parameter reset is not modelled as a value. `OnlineMicroclusterMaintenance` requires `resetParam || paramsSet`, so the model excludes a call on a fresh engine without a reset. The source raises TypeError as soon as pi, mu or omicron is used in that case (a pcore search at line 296, an upgrade test at lines 382-383, a deletion test at line 482). A batch that uses none of them runs through in the source but is outside the model.
- The process exit of `calculate_pref_dim_variance_threshold` is the `Failure` of `NewHDDStream`.
- Lists of ids (`list(range(n, n + 1))`, `set(range(...))`) are modelled as the single integer they hold.
- `PdimAboveOne` models `np.array(pdv > 1).sum()` as the count of entries above 1, assuming the preferred-dimension vector is a numpy array. `PdimNotOne` counts the entries different from 1, for the search at line 294.
- `AfterUpgrade` and `AfterPotentialDowngrade` keep the positional ids of lines 388 and 472, as written. A corrected id scheme is not modelled. Only what distinct ids guarantee is proved (`Offline.PayloadKeepsDistinctIds`).
- `list.remove` is modelled as removing the element with the given identity (`key`). Microclusters are compared by identity.

## Findings

| source | as written | input that shows it | evidently intended | confidence | as-written member | corrected member |
|---|---|---|---|---|---|---|
| chronoclust/hddstream.py:464-474 | `for potential_cluster in self.pcore_MC` removes the current element from the list it iterates. The iterator advances anyway, so the next pcore is never examined. | pcore_MC = [a, b], where both have weight below beta·mu. Only a moves to outlier_MC; b stays a pcore. | Every pcore that no longer qualifies moves to outlier_MC (docstring, lines 459-462). | not executed | Lifecycle.PotentialPassAsWrittenSkips | Lifecycle.PotentialDowngradeCorrect |
| chronoclust/hddstream.py:480-484 | `for outlier_cluster in self.outlier_MC` removes the current element while iterating. The next outlier is skipped. | outlier_MC = [a, b], where both have weight <= omicron. Only a is deleted. | Every outlier at or below omicron is deleted (section 4.4 of the HDDStream paper, docstring line 478). | not executed | Lifecycle.OutlierPassAsWrittenSkips | Lifecycle.OutlierDeletionCorrect |
| chronoclust/hddstream.py:388 | Ids are positional. An upgraded outlier gets `len(pcore_MC)` (line 388) and a downgraded pcore gets `len(outlier_MC)` (line 472). After a removal the ids repeat, and the dictionary keyed by id (line 435) overwrites one pcore with another. | pcores a, b with ids 0 and 1. a is downgraded and b is not, so pcore_MC = [b]. Then an outlier is upgraded and gets id len(pcore_MC) = 1. The dictionary holds one record for the two pcores. | Every pcore reaches the offline step under its own id, which needs pairwise distinct ids. | not executed | Offline.PositionalIdsCollide | Offline.PayloadKeepsDistinctIds |

The class methods `DowngradePotentialMicroclusters` and `DowngradeOutlierMicroclusters` use the
corrected loop: the index stays in place after a removal. They are proved against the corrected
functions.

The id assignment itself is kept as written in the rest of the model: `AfterUpgrade` and
`AfterPotentialDowngrade` hand out positional ids. `Offline.PayloadDropsSharedIds` states what a
collision costs, and `Offline.PayloadKeepsDistinctIds` states what distinct ids guarantee.
