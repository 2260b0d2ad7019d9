/** The selector's test scenarios, stated for every outcome of the random
    draw and for particle positions anywhere in the ranges the scenarios
    draw them from. The level rule is assumed to admit the particles, as it
    does for the scenarios' fresh particles. */
module Scenarios {
  import opened Partition
  import opened Entrainment

  /** A row set given by membership has as many rows as the set has members. */
  lemma PoolSize(r: seq<nat>, members: set<nat>)
    requires Increasing(r)
    requires forall j :: j in r <==> j in members
    ensures |r| == |members|
  {
    assert Distinct(r);
    assert Elems(r) == members;
    DistinctCard(r);
  }

  lemma NoGhostRows(ps: seq<Particle>)
    requires forall j :: 0 <= j < |ps| ==> 0 <= ps[j].x
    ensures GhostIndices(ps) == []
  {
    PoolSize(GhostIndices(ps), {});
  }

  /** One subregion [0, 10]. */
  function OneSubregion(f: seq<int>): seq<Subregion>
  {
    [Subregion(0, 10, f)]
  }

  /** Two subregions [0, 10) and [10, 20]. */
  function TwoSubregions(f0: seq<int>, f1: seq<int>): seq<Subregion>
  {
    [Subregion(0, 10, f0), Subregion(10, 20, f1)]
  }

  /** Three active particles on a single subregion, quota 3: all three uids
      come back, and a second call (the height-dependent one) returns the
      same uids. */
  lemma AllActiveSingleSubregion(f: seq<int>, ps: seq<Particle>, levelLimit: int,
                                 levelRule: (Particle, int) -> bool,
                                 picks: seq<seq<nat>>, uids: seq<int>,
                                 weightedPicks: seq<seq<nat>>, weightedUids: seq<int>)
    requires |ps| == 3
    requires forall j :: 0 <= j < 3 ==> 0 <= ps[j].x < 10 && ps[j].active && levelRule(ps[j], levelLimit)
    requires EventSelection(3, OneSubregion(f), ps, levelLimit, levelRule, picks, uids)
    requires EventSelection(3, OneSubregion(f), ps, levelLimit, levelRule, weightedPicks, weightedUids)
    ensures |uids| == 3
    ensures forall j :: 0 <= j < 3 ==> ps[j].uid in uids
    ensures forall u :: u in uids <==> u in weightedUids
  {
    var subs := OneSubregion(f);
    assert |EligibleIndices(subs, 0, ps, levelLimit, levelRule)| == 3 by {
      PoolSize(EligibleIndices(subs, 0, ps, levelLimit, levelRule), {0, 1, 2});
    }
    assert |uids| == 3 by {
      NoGhostRows(ps);
      ResultLength(3, subs, ps, levelLimit, levelRule, picks, uids);
    }
    forall j | 0 <= j < 3
      ensures Entrainable(subs, ps[j], levelLimit, levelRule)
    {
      assert EligibleIn(subs, 0, ps[j], levelLimit, levelRule);
    }
    SupplyWithinQuota(3, subs, ps, levelLimit, levelRule, picks, uids);
    WeightingIrrelevantWithinQuota(3, subs, ps, levelLimit, levelRule, picks, uids, weightedPicks, weightedUids);
  }

  /** Three particles on a single subregion, two of them active, quota 3:
      exactly the two active uids come back (a shortfall, not an error). */
  lemma PartialActiveShortfall(f: seq<int>, ps: seq<Particle>, levelLimit: int,
                               levelRule: (Particle, int) -> bool,
                               picks: seq<seq<nat>>, uids: seq<int>)
    requires |ps| == 3 && UniqueUids(ps)
    requires forall j :: 0 <= j < 3 ==> 0 <= ps[j].x < 10 && levelRule(ps[j], levelLimit)
    requires ps[0].active && ps[1].active && !ps[2].active
    requires EventSelection(3, OneSubregion(f), ps, levelLimit, levelRule, picks, uids)
    ensures |uids| == 2
    ensures forall u :: u in uids <==> u == ps[0].uid || u == ps[1].uid
  {
    var subs := OneSubregion(f);
    var pool := EligibleIndices(subs, 0, ps, levelLimit, levelRule);
    PoolSize(pool, {0, 1});
    NoGhostRows(ps);
    ResultLength(3, subs, ps, levelLimit, levelRule, picks, uids);
    assert EligibleIn(subs, 0, ps[0], levelLimit, levelRule);
    assert EligibleIn(subs, 0, ps[1], levelLimit, levelRule);
    SupplyWithinQuota(3, subs, ps, levelLimit, levelRule, picks, uids);
    InactiveNeverEntrained(3, subs, ps, levelLimit, levelRule, picks, uids, 2);
    OnlyEntrainableEntrained(3, subs, ps, levelLimit, levelRule, picks, uids);
  }

  /** Three particles on a single subregion, none active: nothing is entrained. */
  lemma NoneActiveNothingEntrained(f: seq<int>, ps: seq<Particle>, k: nat, levelLimit: int,
                                   levelRule: (Particle, int) -> bool,
                                   picks: seq<seq<nat>>, uids: seq<int>)
    requires forall j :: 0 <= j < |ps| ==> 0 <= ps[j].x < 10 && !ps[j].active
    requires EventSelection(k, OneSubregion(f), ps, levelLimit, levelRule, picks, uids)
    ensures uids == []
  {
    var subs := OneSubregion(f);
    PoolSize(EligibleIndices(subs, 0, ps, levelLimit, levelRule), {});
    NoGhostRows(ps);
    ResultLength(k, subs, ps, levelLimit, levelRule, picks, uids);
  }

  /** Every particle a ghost, none active: every uid comes back. */
  lemma AllGhostsEntrained(f: seq<int>, ps: seq<Particle>, k: nat, levelLimit: int,
                           levelRule: (Particle, int) -> bool,
                           picks: seq<seq<nat>>, uids: seq<int>)
    requires UniqueUids(ps)
    requires forall j :: 0 <= j < |ps| ==> IsGhost(ps[j]) && !ps[j].active
    requires EventSelection(k, OneSubregion(f), ps, levelLimit, levelRule, picks, uids)
    ensures |uids| == |ps|
    ensures forall j :: 0 <= j < |ps| ==> ps[j].uid in uids
  {
    var subs := OneSubregion(f);
    PoolSize(EligibleIndices(subs, 0, ps, levelLimit, levelRule), {});
    AllRowsKept(ps, |ps|);
    ResultLength(k, subs, ps, levelLimit, levelRule, picks, uids);
    GhostsAlwaysEntrained(k, subs, ps, levelLimit, levelRule, picks, uids);
  }

  lemma {:induction false} AllRowsKept(ps: seq<Particle>, n: nat)
    requires n <= |ps|
    requires forall j :: 0 <= j < n ==> IsGhost(ps[j])
    ensures |Where(ps, IsGhost, n)| == n
  {
    if n > 0 {
      AllRowsKept(ps, n - 1);
    }
  }

  /** With six particles split three and three by position, subregion s of
      [0, 10), [10, 20] has three eligible particles. */
  lemma HalfPool(f0: seq<int>, f1: seq<int>, ps: seq<Particle>, levelLimit: int,
                 levelRule: (Particle, int) -> bool, s: int)
    requires |ps| == 6 && (s == 0 || s == 1)
    requires forall j :: 0 <= j < 6 ==> ps[j].active && levelRule(ps[j], levelLimit)
    requires forall j :: 0 <= j < 3 ==> 0 <= ps[j].x < 10
    requires forall j :: 3 <= j < 6 ==> 10 <= ps[j].x < 20
    ensures |EligibleIndices(TwoSubregions(f0, f1), s, ps, levelLimit, levelRule)| == 3
  {
    var subs := TwoSubregions(f0, f1);
    var pool := EligibleIndices(subs, s, ps, levelLimit, levelRule);
    var members: set<nat> := if s == 0 then {0, 1, 2} else {3, 4, 5};
    forall j
      ensures j in pool <==> j in members
    {
      if 0 <= j < 6 {
        assert Contains(subs, s, ps[j].x) <==> (j < 3) == (s == 0);
      }
    }
    PoolSize(pool, members);
  }

  /** Three active particles in [0, 10) and three in [10, 20), quota 3 per
      subregion: all six uids come back, each once, and a second call (the
      height-dependent one) returns the same uids. */
  lemma TwoSubregionsFullSupply(f0: seq<int>, f1: seq<int>, ps: seq<Particle>, levelLimit: int,
                                levelRule: (Particle, int) -> bool,
                                picks: seq<seq<nat>>, uids: seq<int>,
                                weightedPicks: seq<seq<nat>>, weightedUids: seq<int>)
    requires |ps| == 6 && UniqueUids(ps)
    requires forall j :: 0 <= j < 6 ==> ps[j].active && levelRule(ps[j], levelLimit)
    requires forall j :: 0 <= j < 3 ==> 0 <= ps[j].x < 10
    requires forall j :: 3 <= j < 6 ==> 10 <= ps[j].x < 20
    requires EventSelection(3, TwoSubregions(f0, f1), ps, levelLimit, levelRule, picks, uids)
    requires EventSelection(3, TwoSubregions(f0, f1), ps, levelLimit, levelRule, weightedPicks, weightedUids)
    ensures |uids| == 6 && Distinct(uids)
    ensures forall j :: 0 <= j < 6 ==> ps[j].uid in uids
    ensures forall u :: u in uids <==> u in weightedUids
  {
    var subs := TwoSubregions(f0, f1);
    HalfPool(f0, f1, ps, levelLimit, levelRule, 0);
    HalfPool(f0, f1, ps, levelLimit, levelRule, 1);
    assert |uids| == 6 by {
      NoGhostRows(ps);
      FullSupplyLength(3, subs, ps, levelLimit, levelRule, picks, uids);
    }
    assert Distinct(uids) by {
      NoDuplicateUids(3, subs, ps, levelLimit, levelRule, picks, uids);
    }
    forall j | 0 <= j < 6
      ensures Entrainable(subs, ps[j], levelLimit, levelRule)
    {
      if j < 3 {
        assert EligibleIn(subs, 0, ps[j], levelLimit, levelRule);
      } else {
        assert EligibleIn(subs, 1, ps[j], levelLimit, levelRule);
      }
    }
    SupplyWithinQuota(3, subs, ps, levelLimit, levelRule, picks, uids);
    WeightingIrrelevantWithinQuota(3, subs, ps, levelLimit, levelRule, picks, uids, weightedPicks, weightedUids);
  }

  /** Three active particles in [0, 10), three inactive in [10, 20): exactly
      the three active uids come back; the empty subregion's quota adds
      nothing. */
  lemma ActiveInOneSubregionOnly(f0: seq<int>, f1: seq<int>, ps: seq<Particle>, levelLimit: int,
                                 levelRule: (Particle, int) -> bool,
                                 picks: seq<seq<nat>>, uids: seq<int>)
    requires |ps| == 6 && UniqueUids(ps)
    requires forall j :: 0 <= j < 3 ==> 0 <= ps[j].x < 10 && ps[j].active && levelRule(ps[j], levelLimit)
    requires forall j :: 3 <= j < 6 ==> 10 <= ps[j].x < 20 && !ps[j].active
    requires EventSelection(3, TwoSubregions(f0, f1), ps, levelLimit, levelRule, picks, uids)
    ensures |uids| == 3
    ensures forall u :: u in uids <==> u == ps[0].uid || u == ps[1].uid || u == ps[2].uid
  {
    var subs := TwoSubregions(f0, f1);
    PoolSize(EligibleIndices(subs, 0, ps, levelLimit, levelRule), {0, 1, 2});
    PoolSize(EligibleIndices(subs, 1, ps, levelLimit, levelRule), {});
    NoGhostRows(ps);
    ResultLength(3, subs, ps, levelLimit, levelRule, picks, uids);
    assert TotalQuota(3, subs, ps, levelLimit, levelRule, 1) == 3;
    forall j | 0 <= j < 3
      ensures Entrainable(subs, ps[j], levelLimit, levelRule)
    {
      assert EligibleIn(subs, 0, ps[j], levelLimit, levelRule);
    }
    SupplyWithinQuota(3, subs, ps, levelLimit, levelRule, picks, uids);
    OnlyEntrainableEntrained(3, subs, ps, levelLimit, levelRule, picks, uids);
  }

  /** One active particle exactly on the shared boundary x = 10, quota 1:
      it is entrained once, by the subregion the boundary starts. */
  lemma BoundaryParticleEntrainedOnce(f0: seq<int>, f1: seq<int>, p: Particle, levelLimit: int,
                                      levelRule: (Particle, int) -> bool,
                                      picks: seq<seq<nat>>, uids: seq<int>)
    requires p.x == 10 && p.active && levelRule(p, levelLimit)
    requires EventSelection(1, TwoSubregions(f0, f1), [p], levelLimit, levelRule, picks, uids)
    ensures uids == [p.uid]
    ensures picks == [[], [0]]
  {
    var subs := TwoSubregions(f0, f1);
    PoolSize(EligibleIndices(subs, 0, [p], levelLimit, levelRule), {});
    PoolSize(EligibleIndices(subs, 1, [p], levelLimit, levelRule), {0});
    NoGhostRows([p]);
    assert picks[0] == [];
    assert picks[1][0] in EligibleIndices(subs, 1, [p], levelLimit, levelRule);
    assert picks[1] == [0];
    assert picks[..1] == [[]];
    assert Flatten(picks[..1]) == [];
    assert Flatten(picks) == [0];
  }
}
