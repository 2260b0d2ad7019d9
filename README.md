# Particle selection in a 1-D stream-bed sediment simulation

A Dafny model of the selection core of py_SBeLT, a one-dimensional stream-bed
sediment-transport model. The core has two operations:

- `define_subregions(bed_length, subregion_count, iterations)` splits the bed
  `[0, bed_length]` into `subregion_count` equal, contiguous subregions,
  ordered left to right. Each one gets a zeroed flux ledger with one slot per
  iteration. A count of zero or less is rejected, and so is a count that does
  not divide the bed length. This is `Partition.DefineSubregions` in
  `partition.dfy`.
- `get_event_particles(entrainment_events, subregions, particles, level_limit,
  height_dependant)` returns the uids entrained in one iteration. These are
  every ghost particle (`x == -1`), active or not, plus, for each subregion, a
  random draw without replacement of up to `entrainment_events` particles that
  are active and sit in that subregion. This is
  `Entrainment.GetEventParticles` in `entrainment.dfy`.

Subregion membership is half-open, `[left, right)`. The last subregion of the
sequence is closed on the right. So a particle on a shared boundary belongs to
the subregion that the boundary starts (`Partition.Contains`).

The random draw is nondeterministic choice. `Entrainment.Draw` returns the
whole pool when the pool holds at most the quota: a shortfall is not an
error. Otherwise it takes the quota's worth of particles one at a time from
the ones not yet taken. The selector returns the real result `uids` together
with a ghost record `picks` of each subregion's draw. Its postcondition,
`EventSelection`, says that `uids` is the ghost uids followed by the uids of
each subregion's draw. Each draw (`IsDraw`) holds `Min(quota, eligible)`
distinct eligible rows. Every property below is proved about
`EventSelection`, so it holds for every outcome of the draw.

Two facts are hypotheses of the lemmas rather than preconditions of the
selector:
- `UniqueUids`: no two rows share a uid. This is the particle table's
  invariant.
- `Tiled`: the subregions are ordered and contiguous. `PartitionIsTiled`
  proves this for every partition that `DefineSubregions` builds of a bed of
  non-negative length. `DefineSubregions` also accepts a negative bed length,
  and the partition it then builds is not tiled. So `NoDuplicateUids` and
  `QuotaPerSubregion` apply only to partitions of non-negative beds.

`scenarios.dfy` restates each selector test of `tests/test_logic.py` as a
lemma. The lemmas hold for every draw and for every particle position in the
range the test draws positions from. The test
`test_some_ghost_particles_returns_ghost_and_regular`
(`tests/test_logic.py:107-118`) has the same body as the all-ghost test. It
never builds the mix of ghost and regular particles that its name promises,
so `AllGhostsEntrained` covers it. The mixed case is covered in general by
`GhostsAlwaysEntrained` and `SupplyWithinQuota`.

## Model

| member | source | states |
|---|---|---|
| Partition.DefineSubregions | tests/test_logic.py:220-286 | fails with InvalidCount exactly when the count is ≤ 0 and with InexactPartition exactly when a positive count does not divide the bed length; on success returns `count` subregions, each with a flux ledger of `iterations` zeros |
| Partition.PartitionBoundaries | tests/test_logic.py:233-275 | a successful partition starts at 0 and ends at bed_length; each subregion starts where the previous one ends; each is bed_length / count wide |
| Partition.PartitionIsTiled | tests/test_logic.py:233-275 | on a bed of non-negative length the partition is ordered and contiguous (Tiled), so the selector's disjointness lemmas apply to it |
| Partition.EveryPositionInOneSubregion | tests/test_logic.py:198-211 | every position in [0, bed_length], boundaries included, lies in exactly one subregion of a successful partition, the one `Locate` names |
| Partition.MembershipDisjoint | tests/test_logic.py:198-211 | in a tiled subregion sequence no position lies in two subregions |
| Partition.SharedBoundaryBelongsRight | tests/test_logic.py:198-211 | a position on the boundary shared by subregions s-1 and s lies in subregion s and in no other |
| Partition.PartitionExamples | tests/test_logic.py:220-275 | (10, 3) and (10, 0) are rejected; (10, 2) gives boundaries 0, 5, 10; (10, 5) gives 0, 2, 4, 6, 8, 10 |
| Entrainment.Draw | tests/test_logic.py:62-91 | the draw holds min(quota, pool size) distinct members of the pool; a short pool is taken whole, not an error |
| Entrainment.GetEventParticles | tests/test_logic.py:35-211 | the result is an EventSelection: the ghost uids, then, subregion by subregion, the uids of a draw of min(quota, eligible) distinct eligible particles; so every ghost uid is returned, every returned uid belongs to a ghost or to an active particle inside some subregion, and the length is the ghost count plus the sum of min(quota, eligible) |
| Entrainment.GhostsAlwaysEntrained | tests/test_logic.py:94-118 | every ghost particle's uid is in the result, whatever its active flag and whatever the subregions |
| Entrainment.OnlyEntrainableEntrained | tests/test_logic.py:62-91 | every returned uid is that of a ghost or of a particle that is active and inside some subregion |
| Entrainment.InactiveNeverEntrained | tests/test_logic.py:62-91 | with unique uids, an inactive particle that is not a ghost is never returned |
| Entrainment.QuotaPerSubregion | tests/test_logic.py:144-196 | with unique uids and tiled subregions, subregion s contributes exactly min(quota, eligible count in s) particles: never more than the quota, all of them when supply is short |
| Entrainment.NoDuplicateUids | tests/test_logic.py:198-211 | with unique uids and tiled subregions no uid is returned twice, not even for a particle on a shared boundary |
| Entrainment.SupplyWithinQuota | tests/test_logic.py:35-91 | when no subregion has more eligible particles than the quota, every ghost and every eligible particle is returned |
| Entrainment.WeightingIrrelevantWithinQuota | tests/test_logic.py:51-59 | when supply is within the quota, any two calls (weighted or not) return the same set of uids |
| Entrainment.ResultLength | tests/test_logic.py:178-196 | the result length is the ghost count plus the sum over subregions of min(quota, eligible count) |
| Entrainment.FullSupplyLength | tests/test_logic.py:144-165 | when every subregion can supply the quota, the result length is the ghost count plus quota × subregion count |
| Scenarios.AllActiveSingleSubregion | tests/test_logic.py:35-59 | three active particles in one subregion with quota 3: all three uids come back, and the weighted call returns the same set |
| Scenarios.PartialActiveShortfall | tests/test_logic.py:62-77 | two of three particles active: exactly the two active uids come back |
| Scenarios.NoneActiveNothingEntrained | tests/test_logic.py:80-91 | no particle active, none a ghost: the result is empty |
| Scenarios.AllGhostsEntrained | tests/test_logic.py:94-118 | every particle a ghost and inactive: the result has one entry per particle and contains every uid |
| Scenarios.TwoSubregionsFullSupply | tests/test_logic.py:144-175 | three active particles in each of two subregions, quota 3: six distinct uids, all of the table's uids, and the weighted call returns the same set |
| Scenarios.ActiveInOneSubregionOnly | tests/test_logic.py:178-196 | only the first subregion's three particles are active: exactly those three uids come back |
| Scenarios.BoundaryParticleEntrainedOnce | tests/test_logic.py:198-211 | one active particle at x = 10 between [0, 10) and [10, 20], quota 1: the result is exactly its uid, drawn by the second subregion |

## Left out

- `model/logic.py` is not part of this model. The model follows the contract that `tests/test_logic.py` pins down, not a particular implementation.
- Sampling distribution: uniform draws and elevation-weighted draws (`height_dependant`) are floating-point probability concerns. `GetEventParticles` keeps the `heightDependant` parameter, but any draw of the right size is allowed in both modes.
- Entrainment.GetEventParticles: the model does not capture reproducibility from a seeded random source, because the draw is a nondeterministic choice.
- Level limit: which comparison of `level_limit` against the particle counters decides eligibility is not visible in the tests, which use a random limit with zeroed counters. The rule is a parameter `levelRule(particle, levelLimit)`, and the scenario lemmas assume that it admits the test particles.
- The warning that is logged on a shortfall is left out. It is logging only, and the tests leave asserting it as a TODO.
- Subregion names (`getName`) are left out, because no test of `define_subregions` reads them.
- Positions and boundaries are integers. The tests' boundaries such as `test_length / 2` are Python floats with integral values, and the partition only accepts exact division.
- Partition.DefineSubregions: `iterations` is a `nat`, so a negative iteration count is not modelled. The source's behaviour on one is not visible.
- Entrainment.GetEventParticles: `entrainment_events` is a `nat`; a negative quota is not modelled.
- The order of the returned uids is not part of the tests' contract, which compare contents only. The model returns ghosts first, then subregions in order.
- The particle table is a numpy array with an active flag stored as 0/1 and uids stored as floats. The model uses a sequence of records with a boolean flag and integer uids.
- Bed construction, adding bed particles, particle movement, flux accounting after initialisation and the outer simulation loop are not modelled. They are either not shown or only commented out in the tests.
