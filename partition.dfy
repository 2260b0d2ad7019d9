/** Splitting the stream bed into equal-width subregions, and deciding
    which subregion a position along the bed belongs to. */
module Partition {

  /** A spatial interval of the bed. Membership is half-open, [left, right),
      except for the last subregion of a sequence, which is closed on the
      right so that the whole bed is covered. `flux` holds one slot per
      simulation iteration. */
  datatype Subregion = Subregion(left: int, right: int, flux: seq<int>)

  /** The two ways a partition request is rejected (both raise ValueError). */
  datatype PartitionError = InvalidCount | InexactPartition

  datatype Result<T> = Ok(value: T) | Err(error: PartitionError)

  /** Position x lies in the s-th subregion of subs. */
  predicate Contains(subs: seq<Subregion>, s: int, x: int)
  {
    0 <= s < |subs| && subs[s].left <= x &&
    (x < subs[s].right || (s == |subs| - 1 && x == subs[s].right))
  }

  /** Subregions are ordered left to right, none has negative width, and
      each one starts where the previous one ends. */
  predicate Tiled(subs: seq<Subregion>)
  {
    (forall s :: 0 <= s < |subs| ==> subs[s].left <= subs[s].right) &&
    (forall s :: 0 < s < |subs| ==> subs[s - 1].right == subs[s].left)
  }

  /** define_subregions: `count` equal, contiguous intervals of [0, bedLength],
      each with a zeroed flux ledger of `iterations` slots. */
  function DefineSubregions(bedLength: int, count: int, iterations: nat): (r: Result<seq<Subregion>>)
    ensures r == Err(InvalidCount) <==> count <= 0
    ensures r == Err(InexactPartition) <==> count > 0 && bedLength % count != 0
    ensures r.Ok? ==> |r.value| == count
    ensures r.Ok? ==> forall s :: 0 <= s < |r.value| ==>
      |r.value[s].flux| == iterations && forall i :: 0 <= i < iterations ==> r.value[s].flux[i] == 0
  {
    if count <= 0 then Err(InvalidCount)
    else if bedLength % count != 0 then Err(InexactPartition)
    else
      var width := bedLength / count;
      Ok(seq(count, i => Subregion(i * width, (i + 1) * width, seq(iterations, _ => 0))))
  }

  lemma MulMonotone(a: int, b: int, w: int)
    requires a <= b && 0 <= w
    ensures a * w <= b * w
  {
    assert b * w - a * w == (b - a) * w;
  }

  /** A successful partition starts at 0, ends at bedLength, has no gaps
      and every subregion is bedLength / count wide. */
  lemma PartitionBoundaries(bedLength: int, count: int, iterations: nat)
    requires DefineSubregions(bedLength, count, iterations).Ok?
    ensures var subs := DefineSubregions(bedLength, count, iterations).value;
      subs[0].left == 0 && subs[count - 1].right == bedLength &&
      (forall s :: 0 < s < count ==> subs[s].left == subs[s - 1].right) &&
      (forall s :: 0 <= s < count ==> subs[s].right - subs[s].left == bedLength / count)
  {
    assert bedLength == count * (bedLength / count);
  }

  /** On a bed of non-negative length the partition is tiled, so the
      selector's disjointness guarantees apply to it. */
  lemma PartitionIsTiled(bedLength: int, count: int, iterations: nat)
    requires DefineSubregions(bedLength, count, iterations).Ok?
    requires 0 <= bedLength
    ensures Tiled(DefineSubregions(bedLength, count, iterations).value)
  {
    var subs := DefineSubregions(bedLength, count, iterations).value;
    forall s | 0 <= s < count
      ensures subs[s].left <= subs[s].right
    {
      MulMonotone(s, s + 1, bedLength / count);
    }
  }

  /** Index of the subregion of a successful partition that holds x. */
  function Locate(bedLength: int, count: int, x: int): int
    requires 0 < count && bedLength % count == 0
    requires 0 <= x <= bedLength
  {
    if x == bedLength then count - 1
    else
      var width := bedLength / count;
      assert width == 0 ==> bedLength == 0;
      x / width
  }

  /** Every position on the bed, boundaries included, lies in exactly one
      subregion: the one Locate names. */
  lemma EveryPositionInOneSubregion(bedLength: int, count: int, iterations: nat, x: int)
    requires DefineSubregions(bedLength, count, iterations).Ok?
    requires 0 <= x <= bedLength
    ensures 0 <= Locate(bedLength, count, x) < count
    ensures forall s :: Contains(DefineSubregions(bedLength, count, iterations).value, s, x)
                        <==> s == Locate(bedLength, count, x)
  {
    var subs := DefineSubregions(bedLength, count, iterations).value;
    var w := bedLength / count;
    assert bedLength == count * w;
    assert 0 <= w;
    if x == bedLength {
      MulMonotone(count - 1, count, w);
      assert Contains(subs, count - 1, x);
      forall s | 0 <= s < count - 1
        ensures !Contains(subs, s, x)
      {
        MulMonotone(s + 1, count, w);
      }
    } else {
      assert 0 < w;
      var q := x / w;
      assert q * w <= x < (q + 1) * w;
      if count <= q {
        MulMonotone(count, q, w);
        assert false;
      }
      assert Contains(subs, q, x);
      forall s | 0 <= s < count && s != q
        ensures !Contains(subs, s, x)
      {
        if s < q {
          MulMonotone(s + 1, q, w);
        } else {
          MulMonotone(q + 1, s, w);
        }
      }
    }
  }

  lemma {:induction false} BoundariesOrdered(subs: seq<Subregion>, s: int, t: int)
    requires Tiled(subs)
    requires 0 <= s < t < |subs|
    ensures subs[s].right <= subs[t].left
  {
    if s < t - 1 {
      BoundariesOrdered(subs, s, t - 1);
    }
  }

  /** Membership in a tiled sequence is disjoint: no position lies in two
      subregions, not even one sitting on a shared boundary. */
  lemma MembershipDisjoint(subs: seq<Subregion>, s: int, t: int, x: int)
    requires Tiled(subs)
    requires Contains(subs, s, x) && Contains(subs, t, x)
    ensures s == t
  {
    if s < t {
      BoundariesOrdered(subs, s, t);
    } else if t < s {
      BoundariesOrdered(subs, t, s);
    }
  }

  /** A position on the boundary shared by subregions s - 1 and s belongs to
      subregion s (the one the boundary is the left edge of) and no other. */
  lemma SharedBoundaryBelongsRight(subs: seq<Subregion>, s: int)
    requires Tiled(subs)
    requires 0 < s < |subs|
    requires subs[s].left < subs[s].right || s == |subs| - 1
    ensures Contains(subs, s, subs[s].left)
    ensures forall t :: t != s ==> !Contains(subs, t, subs[s].left)
  {
    forall t | t != s
      ensures !Contains(subs, t, subs[s].left)
    {
      if Contains(subs, t, subs[s].left) {
        MembershipDisjoint(subs, s, t, subs[s].left);
      }
    }
  }

  /** The cases the partitioner's tests pin down. */
  lemma PartitionExamples()
    ensures DefineSubregions(10, 3, 10) == Err(InexactPartition)
    ensures DefineSubregions(10, 0, 10) == Err(InvalidCount)
    ensures var r := DefineSubregions(10, 2, 10);
      r.Ok? && |r.value| == 2 &&
      r.value[0].left == 0 && r.value[0].right == 5 &&
      r.value[1].left == 5 && r.value[1].right == 10
    ensures var r := DefineSubregions(10, 5, 10);
      r.Ok? && |r.value| == 5 &&
      forall s :: 0 <= s < 5 ==> r.value[s].left == 2 * s && r.value[s].right == 2 * s + 2
  {
  }
}
