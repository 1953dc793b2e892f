/**
 * Overlap of two detections (`Cascade::calculateIntersection`) and the greedy merge of
 * overlapping detections (`Cascade::clusterDetections`), src/Cascade.php.
 *
 * In `$x + $s >> 1` PHP binds `+` tighter than `>>`, so a detection's extent on an axis is
 * [(c - s) >> 1, (c + s) >> 1]: an interval of length s around c / 2, not around c. The model
 * follows this. Clustering takes seeds in input order (there is no sorting), and a seed also
 * claims detections that an earlier seed already claimed.
 */
module Clustering {
  import opened MathUtil
  import opened Detections

  // ---------------------------------------------------------------- calculateIntersection

  /** `c + s >> 1` and `c - s >> 1`: the upper and lower ends of the extent on one axis. */
  function Upper(c: int, s: int): int {
    Shr1(c + s)
  }

  function Lower(c: int, s: int): int {
    Shr1(c - s)
  }

  /** The overlap of two extents on one axis, clamped at 0. */
  function Overlap(c1: int, s1: int, c2: int, s2: int): (r: int)
    ensures r >= 0
  {
    Max(0, Min(Upper(c1, s1), Upper(c2, s2)) - Max(Lower(c1, s1), Lower(c2, s2)))
  }

  /** `$overX * $overY`. */
  function OverlapArea(one: Detection, two: Detection): int {
    Overlap(one.x, one.scale, two.x, two.scale) * Overlap(one.y, one.scale, two.y, two.scale)
  }

  /** The union: the sum of the two squares minus their overlap. */
  function Union(one: Detection, two: Detection): int {
    one.scale * one.scale + two.scale * two.scale - OverlapArea(one, two)
  }

  /** Intersection over union. A zero union is a DivisionByZeroError in the source. */
  function Intersection(one: Detection, two: Detection): (r: real)
    requires Union(one, two) != 0
    ensures IsQuotient(r, OverlapArea(one, two), Union(one, two))
  {
    var area, union := OverlapArea(one, two), Union(one, two);
    Ratio(area, union)
  }

  /** PHP's `/` on two integers whose quotient is used as a float. */
  function Ratio(a: int, b: int): (r: real)
    requires b != 0
    ensures IsQuotient(r, a, b)
  {
    a as real / b as real
  }

  /** `r` is the exact quotient `a / b`: multiplied back by the divisor it gives the dividend. */
  predicate IsQuotient(r: real, a: int, b: int)
  {
    r * b as real == a as real
  }

  /** The extent has length exactly s: shifting by 2 s shifts the halved value by s. */
  lemma ExtentLength(c: int, s: int)
    ensures Upper(c, s) - Lower(c, s) == s
  {
    var l := Lower(c, s);
    assert 2 * (l + s) <= c + s < 2 * (l + s) + 2;
  }

  /** The overlap on an axis is never more than either side. */
  lemma OverlapAtMostSides(c1: int, s1: int, c2: int, s2: int)
    requires s1 >= 0 && s2 >= 0
    ensures Overlap(c1, s1, c2, s2) <= Min(s1, s2)
  {
    ExtentLength(c1, s1);
    ExtentLength(c2, s2);
  }

  /** Swapping the two detections changes nothing. */
  lemma IntersectionSymmetric(one: Detection, two: Detection)
    ensures OverlapArea(one, two) == OverlapArea(two, one)
    ensures Union(one, two) == Union(two, one)
    ensures Union(one, two) != 0 ==> Intersection(one, two) == Intersection(two, one)
  {
    assert Overlap(one.x, one.scale, two.x, two.scale) == Overlap(two.x, two.scale, one.x, one.scale);
    assert Overlap(one.y, one.scale, two.y, two.scale) == Overlap(two.y, two.scale, one.y, one.scale);
  }

  lemma QuotientInUnit(a: real, b: real)
    requires 0.0 <= a <= b && b > 0.0
    ensures 0.0 <= a / b <= 1.0
  {
  }

  /** For positive sides the union is positive and the intersection over union lies in [0, 1]. */
  lemma IntersectionInUnit(one: Detection, two: Detection)
    requires one.scale > 0 && two.scale > 0
    ensures 0 <= OverlapArea(one, two) <= Min(one.scale, two.scale) * Min(one.scale, two.scale)
    ensures Union(one, two) > 0
    ensures 0.0 <= Intersection(one, two) <= 1.0
  {
    var ox := Overlap(one.x, one.scale, two.x, two.scale);
    var oy := Overlap(one.y, one.scale, two.y, two.scale);
    var m := Min(one.scale, two.scale);
    OverlapAtMostSides(one.x, one.scale, two.x, two.scale);
    OverlapAtMostSides(one.y, one.scale, two.y, two.scale);
    MulMono(ox, m, oy);
    MulMono(oy, m, m);
    MulMono(0, ox, oy);
    MulMono(m, one.scale, one.scale);
    MulMono(m, one.scale, m);
    MulMono(m, two.scale, two.scale);
    MulMono(m, two.scale, m);
    MulMono(1, m, m);
    assert OverlapArea(one, two) == ox * oy;
    QuotientInUnit(OverlapArea(one, two) as real, Union(one, two) as real);
  }

  /** The union is positive for positive sides, so the quotient is defined. */
  lemma UnionPositive(one: Detection, two: Detection)
    requires one.scale > 0 && two.scale > 0
    ensures Union(one, two) > 0
  {
    IntersectionInUnit(one, two);
  }

  /** A detection overlaps itself completely. */
  lemma IntersectionWithItself(d: Detection)
    requires d.scale > 0
    ensures Union(d, d) > 0
    ensures Intersection(d, d) == 1.0
  {
    ExtentLength(d.x, d.scale);
    ExtentLength(d.y, d.scale);
    assert OverlapArea(d, d) == d.scale * d.scale;
    IntersectionInUnit(d, d);
  }

  lemma Quarter(a: int, b: int)
    requires a == 40 && b == 160
    ensures a as real / b as real == 0.25
  {
    assert a as real == 0.25 * b as real;
  }

  lemma HalvedCentresArea(a: Detection, b: Detection)
    requires a == Detection(0, 0, 10, 1.0) && b == Detection(12, 0, 10, 1.0)
    ensures OverlapArea(a, b) == 40 && Union(a, b) == 160
  {
    assert Upper(0, 10) == 5 && Lower(0, 10) == -5;
    assert Upper(12, 10) == 11 && Lower(12, 10) == 1;
    var ox, oy := Overlap(0, 10, 12, 10), Overlap(0, 10, 0, 10);
    assert ox == 4 && oy == 10;
    assert OverlapArea(a, b) == ox * oy;
  }

  /**
   * Because of the precedence, (x, y, scale) = (0, 0, 10) and (12, 0, 10), whose squares centred
   * at x do not meet, overlap with intersection over union 1/4.
   */
  lemma HalvedCentresOverlap()
    ensures Intersection(Detection(0, 0, 10, 1.0), Detection(12, 0, 10, 1.0)) == 0.25
  {
    var a, b := Detection(0, 0, 10, 1.0), Detection(12, 0, 10, 1.0);
    HalvedCentresArea(a, b);
    Quarter(OverlapArea(a, b), Union(a, b));
  }

  // ---------------------------------------------------------------- clusterDetections

  /** All sides are positive, so every intersection over union is defined. */
  predicate PositiveScales(ds: seq<Detection>) {
    forall k :: 0 <= k < |ds| ==> ds[k].scale > 0
  }

  /** Seed i claims j: `calculateIntersection($detections[$i], $detections[$j]) > $threshold`. */
  predicate Claims(ds: seq<Detection>, t: real, i: int, j: int)
    requires PositiveScales(ds) && 0 <= i < |ds| && 0 <= j < |ds|
  {
    UnionPositive(ds[i], ds[j]);
    Intersection(ds[i], ds[j]) > t
  }

  /** Index i seeds a cluster: no earlier seed claimed it (`$assignments[$i] === 0`). */
  predicate IsSeed(ds: seq<Detection>, t: real, i: nat)
    requires PositiveScales(ds) && i < |ds|
    decreases i, 1
  {
    !AssignedBy(ds, t, i, i)
  }

  /** Index j is marked after the outer loop has handled indexes 0 .. i-1. */
  predicate AssignedBy(ds: seq<Detection>, t: real, i: nat, j: nat)
    requires PositiveScales(ds) && i <= |ds| && j < |ds|
    decreases i, 0
  {
    if i == 0 then false
    else AssignedBy(ds, t, i - 1, j) || (IsSeed(ds, t, i - 1) && i - 1 <= j && Claims(ds, t, i - 1, j))
  }

  /** The inner loop's accumulators: sums of x, y, side and score, and the member count. */
  datatype Sums = Sums(x: real, y: real, s: real, q: real, n: int)

  /** The accumulators after the inner loop for seed i has visited j = i .. k-1. */
  function Accumulated(ds: seq<Detection>, t: real, i: nat, k: nat): (a: Sums)
    requires PositiveScales(ds) && i < |ds| && i <= k <= |ds| && t < 1.0
    ensures 0 <= a.n <= k - i
    ensures k > i ==> a.n >= 1
    decreases k
  {
    if k == i then Sums(0.0, 0.0, 0.0, 0.0, 0)
    else
      var a := Accumulated(ds, t, i, k - 1);
      SelfClaimed(ds, t, i);
      if Claims(ds, t, i, k - 1) then
        var d := ds[k - 1];
        Sums(a.x + d.x as real, a.y + d.y as real, a.s + d.scale as real, a.q + d.score, a.n + 1)
      else
        a
  }

  /** Because the threshold is below 1, every index claims itself. */
  lemma SelfClaimed(ds: seq<Detection>, t: real, i: nat)
    requires PositiveScales(ds) && i < |ds| && t < 1.0
    ensures Claims(ds, t, i, i)
  {
    IntersectionWithItself(ds[i]);
  }

  /** The cluster seed i produces: the truncated mean position and side, and the summed score. */
  function Cluster(ds: seq<Detection>, t: real, i: nat): Detection
    requires PositiveScales(ds) && i < |ds| && t < 1.0
  {
    var a := Accumulated(ds, t, i, |ds|);
    NewDetection(a.x / a.n as real, a.y / a.n as real, a.s / a.n as real, a.q)
  }

  /** The clusters of seeds 0 .. m-1, in input order. */
  function Clusters(ds: seq<Detection>, t: real, m: nat): seq<Detection>
    requires PositiveScales(ds) && m <= |ds| && t < 1.0
  {
    if m == 0 then []
    else Clusters(ds, t, m - 1) + (if IsSeed(ds, t, m - 1) then [Cluster(ds, t, m - 1)] else [])
  }

  /** Marking j for seed i, the others unchanged. */
  lemma AssignedBySeed(ds: seq<Detection>, t: real, i: nat, j: nat)
    requires PositiveScales(ds) && i < |ds| && j < |ds| && IsSeed(ds, t, i)
    ensures AssignedBy(ds, t, i + 1, j) <==> AssignedBy(ds, t, i, j) || (i <= j && Claims(ds, t, i, j))
  {
  }

  lemma AssignedByNonSeed(ds: seq<Detection>, t: real, i: nat, j: nat)
    requires PositiveScales(ds) && i < |ds| && j < |ds| && !IsSeed(ds, t, i)
    ensures AssignedBy(ds, t, i + 1, j) == AssignedBy(ds, t, i, j)
  {
  }

  /**
   * The inner loop of `clusterDetections` for seed i: marks every j >= i the seed claims and
   * sums their positions, sides and scores.
   */
  method ClaimMembers(ds: seq<Detection>, threshold: real, i: nat, assignments: array<int>)
    returns (x: real, y: real, s: real, q: real, n: int)
    requires PositiveScales(ds) && i < |ds| && threshold < 1.0 && assignments.Length == |ds|
    modifies assignments
    ensures Sums(x, y, s, q, n) == Accumulated(ds, threshold, i, |ds|)
    ensures forall k :: 0 <= k < |ds| ==>
      assignments[k] == (if i <= k && Claims(ds, threshold, i, k) then 1 else old(assignments[k]))
  {
    y := 0.0;
    x := 0.0;
    s := 0.0;
    q := 0.0;
    n := 0;

    var j := i;
    while j < |ds|
      invariant i <= j <= |ds|
      invariant Sums(x, y, s, q, n) == Accumulated(ds, threshold, i, j)
      invariant forall k :: 0 <= k < |ds| ==>
        assignments[k] == (if i <= k < j && Claims(ds, threshold, i, k) then 1 else old(assignments[k]))
    {
      x, y, s, q, n := ClaimMember(ds, threshold, i, j, assignments, x, y, s, q, n);
      j := j + 1;
    }
  }

  /** The body of the inner loop: marks j and adds it to the sums when seed i claims it. */
  method ClaimMember(ds: seq<Detection>, threshold: real, i: nat, j: nat, assignments: array<int>,
                     x: real, y: real, s: real, q: real, n: int)
    returns (x': real, y': real, s': real, q': real, n': int)
    requires PositiveScales(ds) && i <= j < |ds| && threshold < 1.0 && assignments.Length == |ds|
    requires Sums(x, y, s, q, n) == Accumulated(ds, threshold, i, j)
    modifies assignments
    ensures Sums(x', y', s', q', n') == Accumulated(ds, threshold, i, j + 1)
    ensures forall k :: 0 <= k < |ds| ==>
      assignments[k] == (if k == j && Claims(ds, threshold, i, j) then 1 else old(assignments[k]))
  {
    x', y', s', q', n' := x, y, s, q, n;
    UnionPositive(ds[i], ds[j]);
    if Intersection(ds[i], ds[j]) > threshold {
      assignments[j] := 1;
      x' := x' + ds[j].x as real;
      y' := y' + ds[j].y as real;
      s' := s' + ds[j].scale as real;
      q' := q' + ds[j].score;
      n' := n' + 1;
    }
  }

  /**
   * `clusterDetections($detections, $threshold)`. A threshold of 1 or more would leave a seed
   * without members, a division by zero in the source; the model demands t < 1.
   */
  method ClusterDetections(ds: seq<Detection>, threshold: real) returns (clusters: seq<Detection>)
    requires PositiveScales(ds) && threshold < 1.0
    ensures clusters == Clusters(ds, threshold, |ds|)
  {
    var count := |ds|;
    var assignments := new int[count](_ => 0);
    clusters := [];

    var i := 0;
    while i < count
      invariant 0 <= i <= count
      invariant clusters == Clusters(ds, threshold, i)
      invariant forall k :: 0 <= k < count ==> (assignments[k] == 1 <==> AssignedBy(ds, threshold, i, k))
      invariant forall k :: 0 <= k < count ==> assignments[k] == 0 || assignments[k] == 1
    {
      if assignments[i] == 0 {
        var x, y, s, q, n := ClaimMembers(ds, threshold, i, assignments);
        clusters := clusters + [NewDetection(x / n as real, y / n as real, s / n as real, q)];
      }
      i := i + 1;
    }
  }

  // ---------------------------------------------------------------- properties of the clustering

  /** A seed always claims itself, so its cluster has at least one member. */
  lemma SeedClaimsItself(ds: seq<Detection>, t: real, i: nat)
    requires PositiveScales(ds) && i < |ds| && t < 1.0
    ensures Claims(ds, t, i, i)
    ensures Accumulated(ds, t, i, |ds|).n >= 1
  {
    IntersectionWithItself(ds[i]);
  }

  /** A mark once set stays set. */
  lemma {:induction false} AssignedStays(ds: seq<Detection>, t: real, i: nat, i': nat, j: nat)
    requires PositiveScales(ds) && i <= i' <= |ds| && j < |ds|
    requires AssignedBy(ds, t, i, j)
    ensures AssignedBy(ds, t, i', j)
    decreases i' - i
  {
    if i < i' {
      AssignedStays(ds, t, i, i' - 1, j);
    }
  }

  /** Index j is marked after seeds 0 .. i-1 exactly when one of them, at or before j, claims it. */
  lemma {:induction false} AssignedByWitness(ds: seq<Detection>, t: real, i: nat, j: nat)
    requires PositiveScales(ds) && i <= |ds| && j < |ds|
    ensures AssignedBy(ds, t, i, j) <==>
      exists k :: 0 <= k < i && k <= j && IsSeed(ds, t, k) && Claims(ds, t, k, j)
  {
    if i > 0 {
      AssignedByWitness(ds, t, i - 1, j);
      if IsSeed(ds, t, i - 1) && i - 1 <= j && Claims(ds, t, i - 1, j) {
        assert 0 <= i - 1 < i;
      }
    }
  }

  /** When the outer loop ends every index is marked: each detection belongs to some cluster. */
  lemma EveryIndexAssigned(ds: seq<Detection>, t: real, j: nat)
    requires PositiveScales(ds) && j < |ds| && t < 1.0
    ensures AssignedBy(ds, t, |ds|, j)
  {
    if !AssignedBy(ds, t, j, j) {
      SeedClaimsItself(ds, t, j);
      assert AssignedBy(ds, t, j + 1, j);
      AssignedStays(ds, t, j + 1, |ds|, j);
    } else {
      AssignedStays(ds, t, j, |ds|, j);
    }
  }

  /** The number of seeds among 0 .. m-1. */
  function SeedCount(ds: seq<Detection>, t: real, m: nat): (c: nat)
    requires PositiveScales(ds) && m <= |ds|
    ensures c <= m
  {
    if m == 0 then 0 else SeedCount(ds, t, m - 1) + (if IsSeed(ds, t, m - 1) then 1 else 0)
  }

  /** One cluster per seed: never more clusters than detections; none for no detections. */
  lemma {:induction false} ClusterCount(ds: seq<Detection>, t: real, m: nat)
    requires PositiveScales(ds) && m <= |ds| && t < 1.0
    ensures |Clusters(ds, t, m)| == SeedCount(ds, t, m) <= m
    ensures m == 0 ==> Clusters(ds, t, m) == []
  {
    if m > 0 {
      ClusterCount(ds, t, m - 1);
    }
  }

  /** The first detection always seeds, so a non-empty input gives at least one cluster. */
  lemma {:induction false} FirstIsSeed(ds: seq<Detection>, t: real)
    requires PositiveScales(ds) && |ds| >= 1 && t < 1.0
    ensures IsSeed(ds, t, 0)
    ensures |Clusters(ds, t, |ds|)| >= 1
  {
    SeedsCounted(ds, t, |ds|);
  }

  lemma {:induction false} SeedsCounted(ds: seq<Detection>, t: real, m: nat)
    requires PositiveScales(ds) && 1 <= m <= |ds| && t < 1.0
    ensures SeedCount(ds, t, m) >= 1
    ensures |Clusters(ds, t, m)| >= 1
  {
    ClusterCount(ds, t, m);
    if m > 1 {
      SeedsCounted(ds, t, m - 1);
    }
  }

  /** A single detection is its own cluster. */
  lemma SingleDetection(d: Detection, t: real)
    requires d.scale > 0 && t < 1.0
    ensures Clusters([d], t, 1) == [d]
  {
    var ds := [d];
    SeedClaimsItself(ds, t, 0);
    var a := Accumulated(ds, t, 0, 1);
    assert a == Sums(d.x as real, d.y as real, d.scale as real, d.score, 1);
    assert a.x / a.n as real == d.x as real && a.y / a.n as real == d.y as real;
    assert a.s / a.n as real == d.scale as real;
    IntegralInputsKept(d.x, d.y, d.scale, d.score);
  }

  /** A quotient of integers exceeds 0.2 when five times the numerator exceeds the denominator. */
  lemma AboveOneFifth(a: int, b: int)
    requires b > 0 && 5 * a > b
    ensures a as real / b as real > 0.2
  {
    assert a as real > 0.2 * b as real;
    QuotientAbove(a, b, 0.2);
  }

  lemma QuotientAbove(a: int, b: int, t: real)
    requires b > 0 && a as real > t * b as real
    ensures a as real / b as real > t
  {
  }

  lemma MergedPairOverlaps()
    ensures Overlap(50, 40, 52, 42) == 40 && Overlap(50, 40, 49, 42) == 40
  {
  }

  lemma MergedPairArea()
    ensures OverlapArea(Detection(50, 50, 40, 3.0), Detection(52, 49, 42, 5.0)) == 1600
  {
    MergedPairOverlaps();
  }

  lemma MergedPairUnion()
    ensures Union(Detection(50, 50, 40, 3.0), Detection(52, 49, 42, 5.0)) == 1764
  {
    MergedPairArea();
  }

  lemma MergedPairClaim()
    ensures Intersection(Detection(50, 50, 40, 3.0), Detection(52, 49, 42, 5.0)) > 0.2
  {
    MergedPairArea();
    MergedPairUnion();
    AboveOneFifth(1600, 1764);
  }

  /**
   * Two strongly overlapping detections (50, 50, 40, score 3) and (52, 49, 42, score 5) with
   * threshold 0.2 merge into one cluster at the truncated mean (51, 49.5 -> 49, 41) with the
   * summed score 8; the second is claimed by the first and seeds nothing.
   */
  lemma MergedPair()
    ensures Clusters([Detection(50, 50, 40, 3.0), Detection(52, 49, 42, 5.0)], 0.2, 2)
         == [Detection(51, 49, 41, 8.0)]
  {
    var ds := [Detection(50, 50, 40, 3.0), Detection(52, 49, 42, 5.0)];
    MergedPairClaim();
    assert Claims(ds, 0.2, 0, 1);
    SeedClaimsItself(ds, 0.2, 0);
    assert !IsSeed(ds, 0.2, 1);
    assert Accumulated(ds, 0.2, 0, 1) == Sums(50.0, 50.0, 40.0, 3.0, 1);
    var sums := Accumulated(ds, 0.2, 0, 2);
    assert sums == Sums(102.0, 99.0, 82.0, 8.0, 2);
    assert sums.x / sums.n as real == 51.0 && sums.y / sums.n as real == 49.5 && sums.s / sums.n as real == 41.0;
    assert Truncate(51.0) == 51 && Truncate(49.5) == 49 && Truncate(41.0) == 41;
    assert Cluster(ds, 0.2, 0) == Detection(51, 49, 41, 8.0);
    assert Clusters(ds, 0.2, 1) == [Cluster(ds, 0.2, 0)];
  }

  lemma ApartOverlaps()
    ensures Overlap(0, 10, 20, 10) == 0 && Overlap(0, 10, 0, 10) == 10
  {
  }

  lemma FirstOverlaps()
    ensures Overlap(0, 10, 10, 10) == 5 && Overlap(0, 10, 0, 10) == 10
  {
  }

  lemma SecondOverlaps()
    ensures Overlap(20, 10, 10, 10) == 5 && Overlap(0, 10, 0, 10) == 10
  {
  }

  lemma ReclaimApartArea()
    ensures OverlapArea(Detection(0, 0, 10, 1.0), Detection(20, 0, 10, 2.0)) == 0
  {
    ApartOverlaps();
  }

  lemma ReclaimApartClaim()
    ensures Intersection(Detection(0, 0, 10, 1.0), Detection(20, 0, 10, 2.0)) == 0.0
  {
    ReclaimApartArea();
    assert Union(Detection(0, 0, 10, 1.0), Detection(20, 0, 10, 2.0)) == 200;
  }

  lemma ReclaimFirstArea()
    ensures OverlapArea(Detection(0, 0, 10, 1.0), Detection(10, 0, 10, 4.0)) == 50
  {
    FirstOverlaps();
  }

  lemma ReclaimFirstClaim()
    ensures Intersection(Detection(0, 0, 10, 1.0), Detection(10, 0, 10, 4.0)) > 0.2
  {
    ReclaimFirstArea();
    assert Union(Detection(0, 0, 10, 1.0), Detection(10, 0, 10, 4.0)) == 150;
    AboveOneFifth(50, 150);
  }

  lemma ReclaimSecondArea()
    ensures OverlapArea(Detection(20, 0, 10, 2.0), Detection(10, 0, 10, 4.0)) == 50
  {
    SecondOverlaps();
  }

  lemma ReclaimSecondClaim()
    ensures Intersection(Detection(20, 0, 10, 2.0), Detection(10, 0, 10, 4.0)) > 0.2
  {
    ReclaimSecondArea();
    assert Union(Detection(20, 0, 10, 2.0), Detection(10, 0, 10, 4.0)) == 150;
    AboveOneFifth(50, 150);
  }

  /** A two-member cluster whose sums are even is exactly their mean. */
  lemma MeanOfTwo(a: Sums, x: int, y: int, side: int)
    requires a.n == 2 && a.x == (2 * x) as real && a.y == (2 * y) as real && a.s == (2 * side) as real
    ensures NewDetection(a.x / a.n as real, a.y / a.n as real, a.s / a.n as real, a.q) == Detection(x, y, side, a.q)
  {
    assert a.x / a.n as real == x as real;
    assert a.y / a.n as real == y as real;
    assert a.s / a.n as real == side as real;
    IntegralInputsKept(x, y, side, a.q);
  }

  /** The three inputs of the re-claiming scenario below. */
  predicate ReclaimInput(ds: seq<Detection>) {
    |ds| == 3 && ds[0] == Detection(0, 0, 10, 1.0) && ds[1] == Detection(20, 0, 10, 2.0)
    && ds[2] == Detection(10, 0, 10, 4.0)
  }

  /** In the scenario, indexes 0 and 1 seed and index 2 is claimed by both. */
  lemma ReclaimSeeds(ds: seq<Detection>)
    requires ReclaimInput(ds)
    ensures PositiveScales(ds)
    ensures IsSeed(ds, 0.2, 0) && IsSeed(ds, 0.2, 1) && !IsSeed(ds, 0.2, 2)
    ensures !Claims(ds, 0.2, 0, 1) && Claims(ds, 0.2, 0, 2) && Claims(ds, 0.2, 1, 2)
  {
    ReclaimApartClaim();
    ReclaimFirstClaim();
    ReclaimSecondClaim();
    assert !Claims(ds, 0.2, 0, 1);
    assert Claims(ds, 0.2, 0, 2);
    assert Claims(ds, 0.2, 1, 2);
    SelfClaimed(ds, 0.2, 0);
    assert IsSeed(ds, 0.2, 1);
  }

  /** The sums for both seeds: the third detection is counted in each. */
  lemma ReclaimSums(ds: seq<Detection>)
    requires ReclaimInput(ds)
    ensures PositiveScales(ds)
    ensures Accumulated(ds, 0.2, 0, 3) == Sums(10.0, 0.0, 20.0, 5.0, 2)
    ensures Accumulated(ds, 0.2, 1, 3) == Sums(30.0, 0.0, 20.0, 6.0, 2)
  {
    ReclaimSeeds(ds);
    SelfClaimed(ds, 0.2, 0);
    SelfClaimed(ds, 0.2, 1);
    assert Accumulated(ds, 0.2, 0, 2) == Accumulated(ds, 0.2, 0, 1);
  }

  lemma ReclaimClusters(ds: seq<Detection>)
    requires ReclaimInput(ds)
    ensures PositiveScales(ds)
    ensures Clusters(ds, 0.2, 3) == [Detection(5, 0, 10, 5.0), Detection(15, 0, 10, 6.0)]
  {
    ReclaimSeeds(ds);
    ReclaimSums(ds);
    MeanOfTwo(Accumulated(ds, 0.2, 0, 3), 5, 0, 10);
    MeanOfTwo(Accumulated(ds, 0.2, 1, 3), 15, 0, 10);
    var c0, c1 := Cluster(ds, 0.2, 0), Cluster(ds, 0.2, 1);
    assert c0 == Detection(5, 0, 10, 5.0);
    assert c1 == Detection(15, 0, 10, 6.0);
    assert Clusters(ds, 0.2, 1) == [c0];
    assert Clusters(ds, 0.2, 2) == [c0, c1];
  }

  /**
   * Re-claiming: with inputs (0, 0, 10, score 1), (20, 0, 10, score 2), (10, 0, 10, score 4) and
   * threshold 0.2, the first and second do not overlap and both seed; the third is claimed by
   * both, so its score counts in both clusters (scores 5 and 6, total 11 from inputs totalling 7).
   */
  lemma ReclaimedDetection()
    ensures PositiveScales([Detection(0, 0, 10, 1.0), Detection(20, 0, 10, 2.0), Detection(10, 0, 10, 4.0)])
    ensures Clusters([Detection(0, 0, 10, 1.0), Detection(20, 0, 10, 2.0), Detection(10, 0, 10, 4.0)], 0.2, 3)
         == [Detection(5, 0, 10, 5.0), Detection(15, 0, 10, 6.0)]
  {
    ReclaimClusters([Detection(0, 0, 10, 1.0), Detection(20, 0, 10, 2.0), Detection(10, 0, 10, 4.0)]);
  }
}
