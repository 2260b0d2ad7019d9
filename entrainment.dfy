/** Choosing, for one simulation iteration, which bed particles are
    entrained: every ghost particle, plus a random draw of up to the quota
    of eligible particles from each subregion. */
module Entrainment {
  import opened Partition

  /** One row of the particle table: position, diameter, elevation, unique
      id, active flag, age counter and loop age counter. */
  datatype Particle = Particle(x: int, diameter: int, elevation: int, uid: int,
                               active: bool, age: int, loopAge: int)

  /** Position of a particle that is outside the bed. */
  const GhostX: int := -1

  predicate IsGhost(p: Particle)
  {
    p.x == GhostX
  }

  /** The level criterion is a pluggable rule `levelRule(p, levelLimit)`;
      a particle is eligible in subregion s when it is not a ghost, sits in
      subregion s, is active and passes the level rule. */
  predicate EligibleIn(subs: seq<Subregion>, s: int, p: Particle, levelLimit: int,
                       levelRule: (Particle, int) -> bool)
  {
    !IsGhost(p) && Contains(subs, s, p.x) && p.active && levelRule(p, levelLimit)
  }

  /** A particle the selector may return: a ghost, or a particle eligible in
      some subregion. */
  predicate Entrainable(subs: seq<Subregion>, p: Particle, levelLimit: int,
                        levelRule: (Particle, int) -> bool)
  {
    IsGhost(p) || exists s :: 0 <= s < |subs| && EligibleIn(subs, s, p, levelLimit, levelRule)
  }

  /** The table invariant: no two rows share a uid. */
  predicate UniqueUids(ps: seq<Particle>)
  {
    forall i, j :: 0 <= i < |ps| && 0 <= j < |ps| && ps[i].uid == ps[j].uid ==> i == j
  }

  predicate Increasing(r: seq<nat>)
  {
    forall a, b :: 0 <= a < b < |r| ==> r[a] < r[b]
  }

  predicate Distinct<T(==)>(s: seq<T>)
  {
    forall a, b :: 0 <= a < b < |s| ==> s[a] != s[b]
  }

  function Min(a: int, b: int): int
  {
    if a < b then a else b
  }

  /** Row indices below n whose particle satisfies keep, in table order
      (a boolean mask over the particle table). */
  function Where(ps: seq<Particle>, keep: Particle -> bool, n: nat): (r: seq<nat>)
    requires n <= |ps|
    ensures forall j :: j in r <==> 0 <= j < n && keep(ps[j])
    ensures Increasing(r)
  {
    if n == 0 then []
    else
      var init := Where(ps, keep, n - 1);
      AllBelow(init, n - 1);
      init + (if keep(ps[n - 1]) then [n - 1] else [])
  }

  lemma AllBelow(r: seq<nat>, bound: int)
    requires forall j :: j in r ==> j < bound
    ensures forall a :: 0 <= a < |r| ==> r[a] < bound
  {
    forall a | 0 <= a < |r|
      ensures r[a] < bound
    {
      assert r[a] in r;
    }
  }

  /** Rows of all ghost particles. */
  function GhostIndices(ps: seq<Particle>): (r: seq<nat>)
    ensures forall j :: j in r <==> 0 <= j < |ps| && IsGhost(ps[j])
    ensures Increasing(r)
  {
    Where(ps, IsGhost, |ps|)
  }

  /** Rows of the particles eligible in subregion s. */
  function EligibleIndices(subs: seq<Subregion>, s: int, ps: seq<Particle>, levelLimit: int,
                           levelRule: (Particle, int) -> bool): (r: seq<nat>)
    ensures forall j :: j in r <==> 0 <= j < |ps| && EligibleIn(subs, s, ps[j], levelLimit, levelRule)
    ensures Increasing(r)
  {
    Where(ps, p => EligibleIn(subs, s, p, levelLimit, levelRule), |ps|)
  }

  /** The uids of the given rows, in the same order. */
  function UidsOf(ps: seq<Particle>, idx: seq<nat>): seq<int>
    requires forall j :: j in idx ==> j < |ps|
  {
    seq(|idx|, a requires 0 <= a < |idx| => assert idx[a] in idx; ps[idx[a]].uid)
  }

  /** The per-subregion draws, one after the other. */
  function Flatten(picks: seq<seq<nat>>): seq<nat>
  {
    if picks == [] then [] else Flatten(picks[..|picks| - 1]) + picks[|picks| - 1]
  }

  /** The sum over the first n subregions of Min(k, eligible count): how
      many particles those subregions contribute with quota k. */
  function TotalQuota(k: nat, subs: seq<Subregion>, ps: seq<Particle>, levelLimit: int,
                      levelRule: (Particle, int) -> bool, n: nat): nat
  {
    if n == 0 then 0
    else TotalQuota(k, subs, ps, levelLimit, levelRule, n - 1)
         + Min(k, |EligibleIndices(subs, n - 1, ps, levelLimit, levelRule)|)
  }

  /** A draw without replacement of Min(k, |pool|) distinct members of pool. */
  ghost predicate IsDraw(chosen: seq<nat>, pool: seq<nat>, k: nat)
  {
    Distinct(chosen) && (forall c :: c in chosen ==> c in pool) && |chosen| == Min(k, |pool|)
  }

  /** uids is what one call of the selector may return when picks[s] is the
      random draw made in subregion s: the ghost uids, then the uids of each
      subregion's draw, subregion by subregion. */
  ghost predicate EventSelection(k: nat, subs: seq<Subregion>, ps: seq<Particle>, levelLimit: int,
                                 levelRule: (Particle, int) -> bool,
                                 picks: seq<seq<nat>>, uids: seq<int>)
  {
    |picks| == |subs| &&
    (forall s :: 0 <= s < |subs| ==>
      IsDraw(picks[s], EligibleIndices(subs, s, ps, levelLimit, levelRule), k)) &&
    (forall j :: j in Flatten(picks) ==> j < |ps|) &&
    uids == UidsOf(ps, GhostIndices(ps) + Flatten(picks))
  }

  /** The rows of a subregion's eligible particles whose uid is in uids. */
  function EntrainedFrom(subs: seq<Subregion>, s: int, ps: seq<Particle>, levelLimit: int,
                         levelRule: (Particle, int) -> bool, uids: seq<int>): set<nat>
  {
    set j | j in EligibleIndices(subs, s, ps, levelLimit, levelRule) && ps[j].uid in uids
  }

  // ----- sequence facts -----

  /** The set of elements of a sequence. */
  function Elems<T>(s: seq<T>): set<T>
  {
    set x | x in s
  }

  lemma {:induction false} DistinctCard<T>(s: seq<T>)
    requires Distinct(s)
    ensures |Elems(s)| == |s|
  {
    if s != [] {
      var n := |s| - 1;
      DistinctCard(s[..n]);
      assert Elems(s) == Elems(s[..n]) + {s[n]};
      assert s[n] !in Elems(s[..n]);
    }
  }

  lemma DistinctConcat<T>(a: seq<T>, b: seq<T>)
    requires Distinct(a) && Distinct(b)
    requires forall x :: x in a ==> x !in b
    ensures Distinct(a + b)
  {
    forall i, j | 0 <= i < j < |a + b|
      ensures (a + b)[i] != (a + b)[j]
    {
      if i < |a| && |a| <= j {
        assert (a + b)[i] in a && (a + b)[j] in b;
      }
    }
  }

  lemma {:induction false} FlattenIn(picks: seq<seq<nat>>, j: nat)
    ensures j in Flatten(picks) <==> exists t :: 0 <= t < |picks| && j in picks[t]
  {
    if picks != [] {
      var n := |picks| - 1;
      var init := picks[..n];
      FlattenIn(init, j);
      assert Flatten(picks) == Flatten(init) + picks[n];
      if j in Flatten(init) {
        var t :| 0 <= t < |init| && j in init[t];
        assert picks[t] == init[t];
      }
      if t :| 0 <= t < |picks| && j in picks[t] {
        if t < n {
          assert init[t] == picks[t];
        }
      }
    }
  }

  lemma FlattenSnoc(picks: seq<seq<nat>>, chosen: seq<nat>)
    ensures Flatten(picks + [chosen]) == Flatten(picks) + chosen
  {
    assert (picks + [chosen])[..|picks|] == picks;
  }

  lemma {:induction false} FlattenDistinct(picks: seq<seq<nat>>)
    requires forall t :: 0 <= t < |picks| ==> Distinct(picks[t])
    requires forall t, u, j :: 0 <= t < u < |picks| && j in picks[t] ==> j !in picks[u]
    ensures Distinct(Flatten(picks))
  {
    if picks != [] {
      var n := |picks| - 1;
      var init := picks[..n];
      FlattenDistinct(init);
      forall j | j in Flatten(init)
        ensures j !in picks[n]
      {
        FlattenIn(init, j);
        var t :| 0 <= t < |init| && j in init[t];
        assert j in picks[t];
      }
      DistinctConcat(Flatten(init), picks[n]);
    }
  }

  lemma UidsOfAppend(ps: seq<Particle>, a: seq<nat>, b: seq<nat>)
    requires forall j :: j in a ==> j < |ps|
    requires forall j :: j in b ==> j < |ps|
    ensures UidsOf(ps, a + b) == UidsOf(ps, a) + UidsOf(ps, b)
  {
  }

  lemma UidsOfIn(ps: seq<Particle>, idx: seq<nat>, u: int)
    requires forall j :: j in idx ==> j < |ps|
    ensures u in UidsOf(ps, idx) <==> exists j :: j in idx && ps[j].uid == u
  {
    if u in UidsOf(ps, idx) {
      var a :| 0 <= a < |idx| && UidsOf(ps, idx)[a] == u;
      assert idx[a] in idx;
    }
    if j :| j in idx && ps[j].uid == u {
      var a :| 0 <= a < |idx| && idx[a] == j;
      assert UidsOf(ps, idx)[a] == u;
    }
  }

  // ----- the selector -----

  /** The random draw of one subregion: the whole pool when it holds at most
      k particles (a shortfall is not an error), otherwise k distinct members
      taken one at a time without replacement. */
  method Draw(pool: seq<nat>, k: nat) returns (chosen: seq<nat>)
    requires Distinct(pool)
    ensures IsDraw(chosen, pool, k)
  {
    if |pool| <= k {
      return pool;
    }
    var remaining := Elems(pool);
    DistinctCard(pool);
    chosen := [];
    while |chosen| < k
      invariant |chosen| <= k
      invariant Distinct(chosen)
      invariant forall c :: c in chosen ==> c in pool && c !in remaining
      invariant remaining <= Elems(pool)
      invariant |remaining| + |chosen| == |pool|
      decreases k - |chosen|
    {
      assert remaining != {};
      var c :| c in remaining;
      chosen := chosen + [c];
      remaining := remaining - {c};
    }
  }

  /** get_event_particles: the uids entrained in one iteration. `picks` is
      the record of each subregion's random draw. `heightDependant` only
      changes the probabilities of the draw, not which draws are possible. */
  method GetEventParticles(entrainmentEvents: nat, subs: seq<Subregion>, ps: seq<Particle>,
                           levelLimit: int, levelRule: (Particle, int) -> bool,
                           heightDependant: bool)
    returns (uids: seq<int>, ghost picks: seq<seq<nat>>)
    ensures EventSelection(entrainmentEvents, subs, ps, levelLimit, levelRule, picks, uids)
    ensures forall j :: 0 <= j < |ps| && IsGhost(ps[j]) ==> ps[j].uid in uids
    ensures forall u :: u in uids ==>
      exists j :: 0 <= j < |ps| && ps[j].uid == u && Entrainable(subs, ps[j], levelLimit, levelRule)
    ensures |uids| == |GhostIndices(ps)| + TotalQuota(entrainmentEvents, subs, ps, levelLimit, levelRule, |subs|)
  {
    var ghosts := GhostIndices(ps);
    uids := UidsOf(ps, ghosts);
    picks := [];
    var s := 0;
    while s < |subs|
      invariant s <= |subs| && |picks| == s
      invariant forall t :: 0 <= t < s ==>
        IsDraw(picks[t], EligibleIndices(subs, t, ps, levelLimit, levelRule), entrainmentEvents)
      invariant forall j :: j in Flatten(picks) ==> j < |ps|
      invariant uids == UidsOf(ps, ghosts + Flatten(picks))
    {
      var pool := EligibleIndices(subs, s, ps, levelLimit, levelRule);
      var chosen := Draw(pool, entrainmentEvents);
      FlattenSnoc(picks, chosen);
      assert ghosts + Flatten(picks + [chosen]) == (ghosts + Flatten(picks)) + chosen;
      UidsOfAppend(ps, ghosts + Flatten(picks), chosen);
      uids := uids + UidsOf(ps, chosen);
      picks := picks + [chosen];
      s := s + 1;
    }
    GhostsAlwaysEntrained(entrainmentEvents, subs, ps, levelLimit, levelRule, picks, uids);
    OnlyEntrainableEntrained(entrainmentEvents, subs, ps, levelLimit, levelRule, picks, uids);
    ResultLength(entrainmentEvents, subs, ps, levelLimit, levelRule, picks, uids);
  }

  // ----- what every selection guarantees -----

  /** A row drawn in any subregion is eligible in that subregion. */
  lemma DrawnRowIsEligible(k: nat, subs: seq<Subregion>, ps: seq<Particle>, levelLimit: int,
                           levelRule: (Particle, int) -> bool, picks: seq<seq<nat>>, uids: seq<int>,
                           j: nat)
    requires EventSelection(k, subs, ps, levelLimit, levelRule, picks, uids)
    requires j in Flatten(picks)
    ensures exists t :: 0 <= t < |subs| && j in picks[t] && j < |ps| &&
                        EligibleIn(subs, t, ps[j], levelLimit, levelRule)
  {
    FlattenIn(picks, j);
    var t :| 0 <= t < |picks| && j in picks[t];
    assert j in EligibleIndices(subs, t, ps, levelLimit, levelRule);
  }

  /** Every ghost particle is entrained, active or not, whatever the
      subregions are. */
  lemma GhostsAlwaysEntrained(k: nat, subs: seq<Subregion>, ps: seq<Particle>, levelLimit: int,
                              levelRule: (Particle, int) -> bool, picks: seq<seq<nat>>, uids: seq<int>)
    requires EventSelection(k, subs, ps, levelLimit, levelRule, picks, uids)
    ensures forall j :: 0 <= j < |ps| && IsGhost(ps[j]) ==> ps[j].uid in uids
  {
    var idx := GhostIndices(ps) + Flatten(picks);
    forall j | 0 <= j < |ps| && IsGhost(ps[j])
      ensures ps[j].uid in uids
    {
      assert j in idx;
      UidsOfIn(ps, idx, ps[j].uid);
    }
  }

  /** Every entrained uid belongs to a ghost or to a particle eligible in
      some subregion. */
  lemma OnlyEntrainableEntrained(k: nat, subs: seq<Subregion>, ps: seq<Particle>, levelLimit: int,
                                 levelRule: (Particle, int) -> bool, picks: seq<seq<nat>>, uids: seq<int>)
    requires EventSelection(k, subs, ps, levelLimit, levelRule, picks, uids)
    ensures forall u :: u in uids ==>
      exists j :: 0 <= j < |ps| && ps[j].uid == u && Entrainable(subs, ps[j], levelLimit, levelRule)
  {
    var idx := GhostIndices(ps) + Flatten(picks);
    forall u | u in uids
      ensures exists j :: 0 <= j < |ps| && ps[j].uid == u && Entrainable(subs, ps[j], levelLimit, levelRule)
    {
      UidsOfIn(ps, idx, u);
      var j :| j in idx && ps[j].uid == u;
      if j !in GhostIndices(ps) {
        DrawnRowIsEligible(k, subs, ps, levelLimit, levelRule, picks, uids, j);
      }
    }
  }

  /** An inactive particle that is not a ghost is never entrained. */
  lemma InactiveNeverEntrained(k: nat, subs: seq<Subregion>, ps: seq<Particle>, levelLimit: int,
                               levelRule: (Particle, int) -> bool, picks: seq<seq<nat>>, uids: seq<int>,
                               j: int)
    requires EventSelection(k, subs, ps, levelLimit, levelRule, picks, uids)
    requires UniqueUids(ps)
    requires 0 <= j < |ps| && !IsGhost(ps[j]) && !ps[j].active
    ensures ps[j].uid !in uids
  {
    OnlyEntrainableEntrained(k, subs, ps, levelLimit, levelRule, picks, uids);
  }

  /** With uids unique and subregions tiled, subregion s contributes exactly
      Min(k, number of its eligible particles) entrained particles: never more
      than the quota, and all of them when the supply is short. */
  lemma QuotaPerSubregion(k: nat, subs: seq<Subregion>, ps: seq<Particle>, levelLimit: int,
                          levelRule: (Particle, int) -> bool, picks: seq<seq<nat>>, uids: seq<int>,
                          s: int)
    requires EventSelection(k, subs, ps, levelLimit, levelRule, picks, uids)
    requires UniqueUids(ps) && Tiled(subs)
    requires 0 <= s < |subs|
    ensures |EntrainedFrom(subs, s, ps, levelLimit, levelRule, uids)|
            == Min(k, |EligibleIndices(subs, s, ps, levelLimit, levelRule)|)
  {
    var idx := GhostIndices(ps) + Flatten(picks);
    var pool := EligibleIndices(subs, s, ps, levelLimit, levelRule);
    var got := EntrainedFrom(subs, s, ps, levelLimit, levelRule, uids);
    forall j | j in picks[s]
      ensures j in got
    {
      FlattenIn(picks, j);
      assert j in idx;
      UidsOfIn(ps, idx, ps[j].uid);
    }
    forall j | j in got
      ensures j in picks[s]
    {
      UidsOfIn(ps, idx, ps[j].uid);
      var i :| i in idx && ps[i].uid == ps[j].uid;
      assert i == j;
      assert j !in GhostIndices(ps);
      DrawnRowIsEligible(k, subs, ps, levelLimit, levelRule, picks, uids, j);
      var t :| 0 <= t < |subs| && j in picks[t] && EligibleIn(subs, t, ps[j], levelLimit, levelRule);
      MembershipDisjoint(subs, s, t, ps[j].x);
    }
    assert got == Elems(picks[s]);
    DistinctCard(picks[s]);
  }

  /** With uids unique and subregions tiled, no uid is returned twice, not
      even that of a particle sitting on a shared boundary. */
  lemma NoDuplicateUids(k: nat, subs: seq<Subregion>, ps: seq<Particle>, levelLimit: int,
                        levelRule: (Particle, int) -> bool, picks: seq<seq<nat>>, uids: seq<int>)
    requires EventSelection(k, subs, ps, levelLimit, levelRule, picks, uids)
    requires UniqueUids(ps) && Tiled(subs)
    ensures Distinct(uids)
  {
    var ghosts := GhostIndices(ps);
    forall t, u, j | 0 <= t < u < |picks| && j in picks[t]
      ensures j !in picks[u]
    {
      if j in picks[u] {
        assert j in EligibleIndices(subs, t, ps, levelLimit, levelRule);
        assert j in EligibleIndices(subs, u, ps, levelLimit, levelRule);
        MembershipDisjoint(subs, t, u, ps[j].x);
      }
    }
    FlattenDistinct(picks);
    forall j | j in ghosts
      ensures j !in Flatten(picks)
    {
      if j in Flatten(picks) {
        DrawnRowIsEligible(k, subs, ps, levelLimit, levelRule, picks, uids, j);
      }
    }
    DistinctConcat(ghosts, Flatten(picks));
    var idx := ghosts + Flatten(picks);
    forall a, b | 0 <= a < b < |uids|
      ensures uids[a] != uids[b]
    {
      assert idx[a] in idx && idx[b] in idx;
    }
  }

  /** When no subregion holds more eligible particles than the quota, every
      ghost and every eligible particle is entrained. */
  lemma SupplyWithinQuota(k: nat, subs: seq<Subregion>, ps: seq<Particle>, levelLimit: int,
                          levelRule: (Particle, int) -> bool, picks: seq<seq<nat>>, uids: seq<int>)
    requires EventSelection(k, subs, ps, levelLimit, levelRule, picks, uids)
    requires forall s :: 0 <= s < |subs| ==> |EligibleIndices(subs, s, ps, levelLimit, levelRule)| <= k
    ensures forall j :: 0 <= j < |ps| && Entrainable(subs, ps[j], levelLimit, levelRule) ==> ps[j].uid in uids
  {
    var idx := GhostIndices(ps) + Flatten(picks);
    GhostsAlwaysEntrained(k, subs, ps, levelLimit, levelRule, picks, uids);
    forall j | 0 <= j < |ps| && Entrainable(subs, ps[j], levelLimit, levelRule)
      ensures ps[j].uid in uids
    {
      if !IsGhost(ps[j]) {
        var s :| 0 <= s < |subs| && EligibleIn(subs, s, ps[j], levelLimit, levelRule);
        var pool := EligibleIndices(subs, s, ps, levelLimit, levelRule);
        DistinctCard(picks[s]);
        DistinctCard(pool);
        SubsetOfSameSize(Elems(picks[s]), Elems(pool));
        assert j in pool;
        assert j in Elems(pool);
        assert j in picks[s];
        FlattenIn(picks, j);
        assert j in Flatten(picks);
        assert j in idx;
        UidsOfIn(ps, idx, ps[j].uid);
      }
    }
  }

  lemma SubsetOfSameSize<T>(a: set<T>, b: set<T>)
    requires a <= b && |a| == |b|
    ensures a == b
  {
    assert |b - a| == |b| - |a|;
  }

  /** When supply is within the quota the draw has nothing to decide: two
      calls (for instance one with height-dependent weighting and one
      without) entrain the same uids. */
  lemma WeightingIrrelevantWithinQuota(k: nat, subs: seq<Subregion>, ps: seq<Particle>, levelLimit: int,
                                       levelRule: (Particle, int) -> bool,
                                       picks1: seq<seq<nat>>, uids1: seq<int>,
                                       picks2: seq<seq<nat>>, uids2: seq<int>)
    requires EventSelection(k, subs, ps, levelLimit, levelRule, picks1, uids1)
    requires EventSelection(k, subs, ps, levelLimit, levelRule, picks2, uids2)
    requires forall s :: 0 <= s < |subs| ==> |EligibleIndices(subs, s, ps, levelLimit, levelRule)| <= k
    ensures forall u :: u in uids1 <==> u in uids2
  {
    OnlyEntrainableEntrained(k, subs, ps, levelLimit, levelRule, picks1, uids1);
    OnlyEntrainableEntrained(k, subs, ps, levelLimit, levelRule, picks2, uids2);
    SupplyWithinQuota(k, subs, ps, levelLimit, levelRule, picks1, uids1);
    SupplyWithinQuota(k, subs, ps, levelLimit, levelRule, picks2, uids2);
  }

  lemma {:induction false} DrawsLength(k: nat, subs: seq<Subregion>, ps: seq<Particle>, levelLimit: int,
                                       levelRule: (Particle, int) -> bool, picks: seq<seq<nat>>, n: nat)
    requires |picks| == |subs| && n <= |subs|
    requires forall s :: 0 <= s < |subs| ==>
      IsDraw(picks[s], EligibleIndices(subs, s, ps, levelLimit, levelRule), k)
    ensures |Flatten(picks[..n])| == TotalQuota(k, subs, ps, levelLimit, levelRule, n)
  {
    if n > 0 {
      DrawsLength(k, subs, ps, levelLimit, levelRule, picks, n - 1);
      assert picks[..n] == picks[..n - 1] + [picks[n - 1]];
      FlattenSnoc(picks[..n - 1], picks[n - 1]);
    }
  }

  /** The result holds one uid per ghost plus Min(k, eligible count) per
      subregion. */
  lemma ResultLength(k: nat, subs: seq<Subregion>, ps: seq<Particle>, levelLimit: int,
                     levelRule: (Particle, int) -> bool, picks: seq<seq<nat>>, uids: seq<int>)
    requires EventSelection(k, subs, ps, levelLimit, levelRule, picks, uids)
    ensures |uids| == |GhostIndices(ps)| + TotalQuota(k, subs, ps, levelLimit, levelRule, |subs|)
  {
    DrawsLength(k, subs, ps, levelLimit, levelRule, picks, |subs|);
    assert picks[..|subs|] == picks;
  }

  lemma {:induction false} FullQuota(k: nat, subs: seq<Subregion>, ps: seq<Particle>, levelLimit: int,
                                     levelRule: (Particle, int) -> bool, n: nat)
    requires n <= |subs|
    requires forall s :: 0 <= s < n ==> k <= |EligibleIndices(subs, s, ps, levelLimit, levelRule)|
    ensures TotalQuota(k, subs, ps, levelLimit, levelRule, n) == k * n
  {
    if n > 0 {
      FullQuota(k, subs, ps, levelLimit, levelRule, n - 1);
    }
  }

  /** When every subregion can supply the quota, the result holds one uid
      per ghost plus exactly k per subregion. */
  lemma FullSupplyLength(k: nat, subs: seq<Subregion>, ps: seq<Particle>, levelLimit: int,
                         levelRule: (Particle, int) -> bool, picks: seq<seq<nat>>, uids: seq<int>)
    requires EventSelection(k, subs, ps, levelLimit, levelRule, picks, uids)
    requires forall s :: 0 <= s < |subs| ==> k <= |EligibleIndices(subs, s, ps, levelLimit, levelRule)|
    ensures |uids| == |GhostIndices(ps)| + k * |subs|
  {
    ResultLength(k, subs, ps, levelLimit, levelRule, picks, uids);
    FullQuota(k, subs, ps, levelLimit, levelRule, |subs|);
  }
}
