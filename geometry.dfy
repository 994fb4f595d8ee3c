/**
 * The pairwise geometry of `utils/structure_utils.py`: distograms, hard and
 * soft contact maps, and the inverse of the soft map.
 *
 * Real numbers stand for the float32/float64 arrays of the source. The square
 * root, exponential and natural logarithm are parameters: the model assumes of
 * them only the laws stated by `IsSqrt` and `IsLogOfExp`, and only in the
 * lemmas that need them.
 */
module Geometry {
  import opened Wrappers
  import opened Constants

  /** A residue's (or atom's) position in space. */
  datatype Point = Point(x: real, y: real, z: real)

  /** A dense matrix, row by row. */
  type Matrix = seq<seq<real>>

  /** Default hard-contact threshold of `get_contact_map`, in Angstrom. */
  const DefaultThreshold: real := 8.0

  /** `sqrt` is the non-negative square root on the non-negative reals. */
  ghost predicate IsSqrt(sqrt: real -> real) {
    forall x :: 0.0 <= x ==> 0.0 <= sqrt(x) && sqrt(x) * sqrt(x) == x
  }

  /** `log` undoes `exp`. */
  ghost predicate IsLogOfExp(exp: real -> real, log: real -> real) {
    forall x :: log(exp(x)) == x
  }

  /** The squared Euclidean norm of `p - q`. */
  function SquaredDistance(p: Point, q: Point): (d: real)
    ensures 0.0 <= d
    ensures p == q ==> d == 0.0
  {
    var dx, dy, dz := p.x - q.x, p.y - q.y, p.z - q.z;
    dx * dx + dy * dy + dz * dz
  }

  lemma SquaredDistanceSymmetric(p: Point, q: Point)
    ensures SquaredDistance(p, q) == SquaredDistance(q, p)
  {
  }

  /** `a < b` between non-negative reals survives squaring. */
  lemma SquareMonotone(a: real, b: real)
    requires 0.0 <= a < b
    ensures a * a < b * b
  {
    var c := b - a;
    assert b * b == a * a + 2.0 * a * c + c * c;
    assert a * c >= 0.0;
    assert c * c > 0.0;
  }

  /** The square root of 0 is 0, of 1 is 1. */
  lemma SqrtValues(sqrt: real -> real)
    requires IsSqrt(sqrt)
    ensures sqrt(0.0) == 0.0 && sqrt(1.0) == 1.0
  {
    var zero, one := sqrt(0.0), sqrt(1.0);
    assert 0.0 <= zero && zero * zero == 0.0;
    if zero > 0.0 {
      SquareMonotone(0.0, zero);
    }
    assert 0.0 <= one && one * one == 1.0;
    if one < 1.0 {
      SquareMonotone(one, 1.0);
    } else if one > 1.0 {
      SquareMonotone(1.0, one);
    }
  }

  /** `np.linalg.norm(p - q)`: the Euclidean distance. */
  function Distance(p: Point, q: Point, sqrt: real -> real): real {
    sqrt(SquaredDistance(p, q))
  }

  /** The axioms the source relies on: symmetric, non-negative, zero on identical points. */
  lemma DistanceLaws(p: Point, q: Point, sqrt: real -> real)
    requires IsSqrt(sqrt)
    ensures Distance(p, q, sqrt) == Distance(q, p, sqrt)
    ensures 0.0 <= Distance(p, q, sqrt)
    ensures p == q ==> Distance(p, q, sqrt) == 0.0
  {
    SquaredDistanceSymmetric(p, q);
    SqrtValues(sqrt);
  }

  predicate IsSquare(m: Matrix, n: nat) {
    |m| == n && forall i :: 0 <= i < n ==> |m[i]| == n
  }

  predicate Symmetric(m: Matrix)
    requires IsSquare(m, |m|)
  {
    forall i, j :: 0 <= i < |m| && 0 <= j < |m| ==> m[i][j] == m[j][i]
  }

  /**
   * `get_distogram`: None when there are at most one or more than MAX_SIZE
   * coordinates, otherwise the n x n matrix of pairwise distances.
   */
  function Distogram(coords: seq<Point>, sqrt: real -> real): (r: Option<Matrix>)
    ensures r.None? <==> |coords| <= 1 || |coords| > MaxSize
    ensures r.Some? ==> IsSquare(r.value, |coords|)
    ensures r.Some? ==> forall i, j :: 0 <= i < |coords| && 0 <= j < |coords| ==>
      r.value[i][j] == Distance(coords[i], coords[j], sqrt)
  {
    if |coords| <= 1 || |coords| > MaxSize then None
    else
      var n := |coords|;
      Some(seq(n, i requires 0 <= i < n => seq(n, j requires 0 <= j < n => Distance(coords[i], coords[j], sqrt))))
  }

  /** A distogram is symmetric, has a zero diagonal and no negative entry. */
  lemma DistogramIsMetric(coords: seq<Point>, sqrt: real -> real)
    requires IsSqrt(sqrt)
    requires Distogram(coords, sqrt).Some?
    ensures var d := Distogram(coords, sqrt).value;
      Symmetric(d) &&
      (forall i :: 0 <= i < |d| ==> d[i][i] == 0.0) &&
      (forall i, j :: 0 <= i < |d| && 0 <= j < |d| ==> 0.0 <= d[i][j])
  {
    var d := Distogram(coords, sqrt).value;
    forall i, j | 0 <= i < |d| && 0 <= j < |d|
      ensures d[i][j] == d[j][i] && 0.0 <= d[i][j] && (i == j ==> d[i][j] == 0.0)
    {
      DistanceLaws(coords[i], coords[j], sqrt);
    }
  }

  /** `np.where(distances < threshold, 1.0, 0.0).astype(int)`. */
  function Threshold(d: Matrix, threshold: real): (r: seq<seq<int>>)
    requires IsSquare(d, |d|)
    ensures |r| == |d| && forall i :: 0 <= i < |d| ==> |r[i]| == |d|
    ensures forall i, j :: 0 <= i < |d| && 0 <= j < |d| ==> (r[i][j] == 1 <==> d[i][j] < threshold)
    ensures forall i, j :: 0 <= i < |d| && 0 <= j < |d| ==> (r[i][j] == 0 <==> !(d[i][j] < threshold))
  {
    seq(|d|, i requires 0 <= i < |d| => seq(|d|, j requires 0 <= j < |d| => if d[i][j] < threshold then 1 else 0))
  }

  /** `get_contact_map`: None exactly when the distogram is None, else the thresholded distogram. */
  function ContactMap(coords: seq<Point>, sqrt: real -> real, threshold: real): (r: Option<seq<seq<int>>>)
    ensures r.None? <==> Distogram(coords, sqrt).None?
    ensures r.Some? ==> |r.value| == |coords| && forall i :: 0 <= i < |coords| ==> |r.value[i]| == |coords|
    ensures r.Some? ==> forall i, j :: 0 <= i < |coords| && 0 <= j < |coords| ==>
      (r.value[i][j] == 1 <==> Distance(coords[i], coords[j], sqrt) < threshold) &&
      (r.value[i][j] == 0 <==> !(Distance(coords[i], coords[j], sqrt) < threshold))
  {
    match Distogram(coords, sqrt)
    case None => None
    case Some(d) => Some(Threshold(d, threshold))
  }

  /**
   * The contact map is symmetric, and a positive threshold puts 1 on the
   * diagonal (a residue is at distance 0 < threshold from itself).
   */
  lemma ContactMapShape(coords: seq<Point>, sqrt: real -> real, threshold: real)
    requires IsSqrt(sqrt)
    requires ContactMap(coords, sqrt, threshold).Some?
    ensures var c := ContactMap(coords, sqrt, threshold).value;
      (forall i, j :: 0 <= i < |c| && 0 <= j < |c| ==> c[i][j] == c[j][i]) &&
      (forall i, j :: 0 <= i < |c| && 0 <= j < |c| ==> c[i][j] == 0 || c[i][j] == 1) &&
      (0.0 < threshold ==> forall i :: 0 <= i < |c| ==> c[i][i] == 1)
  {
    var c := ContactMap(coords, sqrt, threshold).value;
    forall i, j | 0 <= i < |c| && 0 <= j < |c|
      ensures c[i][j] == c[j][i] && (i == j && 0.0 < threshold ==> c[i][j] == 1)
    {
      DistanceLaws(coords[i], coords[j], sqrt);
    }
  }

  /** Raising the threshold can only add contacts. */
  lemma ContactMapMonotone(coords: seq<Point>, sqrt: real -> real, t1: real, t2: real)
    requires t1 <= t2
    ensures var c1, c2 := ContactMap(coords, sqrt, t1), ContactMap(coords, sqrt, t2);
      (c1.Some? <==> c2.Some?) &&
      (c1.Some? ==> forall i, j :: 0 <= i < |coords| && 0 <= j < |coords| ==> c1.value[i][j] <= c2.value[i][j])
  {
  }

  /** One entry of the soft contact map: `exp(-decay_rate * d)`. */
  function SoftContact(d: real, exp: real -> real, decayRate: real): real {
    exp(-decayRate * d)
  }

  /** One entry recovered from a soft contact value: `-log(c) / decay_rate`. */
  function RecoveredDistance(c: real, log: real -> real, decayRate: real): real
    requires decayRate != 0.0
  {
    -log(c) / decayRate
  }

  /** `np.exp(-decay_rate * distances)`. */
  function Decay(d: Matrix, exp: real -> real, decayRate: real): (r: Matrix)
    requires IsSquare(d, |d|)
    ensures IsSquare(r, |d|)
    ensures forall i, j :: 0 <= i < |d| && 0 <= j < |d| ==> r[i][j] == SoftContact(d[i][j], exp, decayRate)
  {
    seq(|d|, i requires 0 <= i < |d| => seq(|d|, j requires 0 <= j < |d| => SoftContact(d[i][j], exp, decayRate)))
  }

  /** `-np.log(contact_map) / decay_rate`. */
  function Undecay(c: Matrix, log: real -> real, decayRate: real): (r: Matrix)
    requires IsSquare(c, |c|)
    requires decayRate != 0.0
    ensures IsSquare(r, |c|)
    ensures forall i, j :: 0 <= i < |c| && 0 <= j < |c| ==> r[i][j] == RecoveredDistance(c[i][j], log, decayRate)
  {
    seq(|c|, i requires 0 <= i < |c| => seq(|c|, j requires 0 <= j < |c| => RecoveredDistance(c[i][j], log, decayRate)))
  }

  /**
   * `get_soft_contact_map`: None exactly when the distogram is None, else the
   * entrywise `exp(-decay_rate * d)`.
   */
  function SoftContactMap(coords: seq<Point>, sqrt: real -> real, exp: real -> real, decayRate: real): (r: Option<Matrix>)
    ensures r.None? <==> Distogram(coords, sqrt).None?
    ensures r.Some? ==> IsSquare(r.value, |coords|)
    ensures r.Some? ==> forall i, j :: 0 <= i < |coords| && 0 <= j < |coords| ==>
      r.value[i][j] == SoftContact(Distance(coords[i], coords[j], sqrt), exp, decayRate)
  {
    match Distogram(coords, sqrt)
    case None => None
    case Some(d) => Some(Decay(d, exp, decayRate))
  }

  /** The soft contact map is symmetric and equals `exp(0)` on the diagonal. */
  lemma SoftContactMapShape(coords: seq<Point>, sqrt: real -> real, exp: real -> real, decayRate: real)
    requires IsSqrt(sqrt)
    requires SoftContactMap(coords, sqrt, exp, decayRate).Some?
    ensures var s := SoftContactMap(coords, sqrt, exp, decayRate).value;
      Symmetric(s) && forall i :: 0 <= i < |s| ==> s[i][i] == SoftContact(0.0, exp, decayRate)
  {
    var s := SoftContactMap(coords, sqrt, exp, decayRate).value;
    forall i, j | 0 <= i < |s| && 0 <= j < |s|
      ensures s[i][j] == s[j][i] && (i == j ==> s[i][j] == SoftContact(0.0, exp, decayRate))
    {
      DistanceLaws(coords[i], coords[j], sqrt);
    }
  }

  function Transpose(m: Matrix): (t: Matrix)
    requires IsSquare(m, |m|)
    ensures IsSquare(t, |m|)
    ensures forall i, j :: 0 <= i < |m| && 0 <= j < |m| ==> t[i][j] == m[j][i]
  {
    seq(|m|, i requires 0 <= i < |m| => seq(|m|, j requires 0 <= j < |m| => m[j][i]))
  }

  /** `(distances + distances.T) / 2`. */
  function SymmetricPart(m: Matrix): (r: Matrix)
    requires IsSquare(m, |m|)
    ensures IsSquare(r, |m|)
    ensures forall i, j :: 0 <= i < |m| && 0 <= j < |m| ==> r[i][j] == (m[i][j] + m[j][i]) / 2.0
  {
    var t := Transpose(m);
    seq(|m|, i requires 0 <= i < |m| => seq(|m|, j requires 0 <= j < |m| => (m[i][j] + t[i][j]) / 2.0))
  }

  /** The averaged matrix is symmetric, and averaging leaves a symmetric matrix unchanged. */
  lemma SymmetricPartProperties(m: Matrix)
    requires IsSquare(m, |m|)
    ensures Symmetric(SymmetricPart(m))
    ensures Symmetric(m) ==> SymmetricPart(m) == m
  {
    var r := SymmetricPart(m);
    if Symmetric(m) {
      forall i | 0 <= i < |m| ensures r[i] == m[i] {
        assert forall j :: 0 <= j < |m| ==> r[i][j] == m[i][j];
      }
    }
  }

  /** Applying the averaging step a second time changes nothing. */
  lemma SymmetricPartIdempotent(m: Matrix)
    requires IsSquare(m, |m|)
    ensures SymmetricPart(SymmetricPart(m)) == SymmetricPart(m)
  {
    SymmetricPartProperties(m);
    SymmetricPartProperties(SymmetricPart(m));
  }

  /**
   * `get_distogram_from_soft_contact_map`: the entrywise `-log(c) / decay_rate`,
   * averaged with its transpose. The source divides by `decay_rate`; this model
   * asks it to be non-zero.
   */
  function DistogramFromSoftContactMap(contactMap: Matrix, log: real -> real, decayRate: real): (r: Matrix)
    requires IsSquare(contactMap, |contactMap|)
    requires decayRate != 0.0
    ensures IsSquare(r, |contactMap|)
    ensures Symmetric(r)
    ensures forall i, j :: 0 <= i < |r| && 0 <= j < |r| ==>
      r[i][j] == (RecoveredDistance(contactMap[i][j], log, decayRate) + RecoveredDistance(contactMap[j][i], log, decayRate)) / 2.0
  {
    var distances := Undecay(contactMap, log, decayRate);
    SymmetricPartProperties(distances);
    SymmetricPart(distances)
  }

  /** One entry of the round trip: `-log(exp(-rate * d)) / rate == d`. */
  lemma RecoverSoftContact(d: real, exp: real -> real, log: real -> real, decayRate: real)
    requires IsLogOfExp(exp, log)
    requires decayRate != 0.0
    ensures RecoveredDistance(SoftContact(d, exp, decayRate), log, decayRate) == d
  {
    assert log(exp(-decayRate * d)) == -decayRate * d;
  }

  /**
   * Round trip: with a non-zero decay rate and `log(exp(x)) == x`, inverting
   * the soft contact map of some coordinates gives back their distogram.
   */
  lemma SoftContactMapRoundTrip(coords: seq<Point>, sqrt: real -> real, exp: real -> real, log: real -> real, decayRate: real)
    requires IsSqrt(sqrt)
    requires IsLogOfExp(exp, log)
    requires decayRate != 0.0
    requires Distogram(coords, sqrt).Some?
    ensures DistogramFromSoftContactMap(SoftContactMap(coords, sqrt, exp, decayRate).value, log, decayRate)
            == Distogram(coords, sqrt).value
  {
    var d := Distogram(coords, sqrt).value;
    var s := SoftContactMap(coords, sqrt, exp, decayRate).value;
    var l := Undecay(s, log, decayRate);
    forall i, j | 0 <= i < |d| && 0 <= j < |d| ensures l[i][j] == d[i][j] {
      RecoverSoftContact(d[i][j], exp, log, decayRate);
    }
    assert l == d by {
      forall i | 0 <= i < |d| ensures l[i] == d[i] {
        assert forall j :: 0 <= j < |d| ==> l[i][j] == d[i][j];
      }
    }
    DistogramIsMetric(coords, sqrt);
    SymmetricPartProperties(d);
  }

  /** The three points of the worked example: the origin and the two unit points on the x and y axes. */
  function ThreePoints(): seq<Point> {
    [Point(0.0, 0.0, 0.0), Point(1.0, 0.0, 0.0), Point(0.0, 1.0, 0.0)]
  }

  /** The squared distances between the three points: 0 on the diagonal, 1 to the origin, 2 between the unit points. */
  lemma ThreePointSquaredDistances()
    ensures var p := ThreePoints();
      && SquaredDistance(p[0], p[0]) == 0.0 && SquaredDistance(p[1], p[1]) == 0.0 && SquaredDistance(p[2], p[2]) == 0.0
      && SquaredDistance(p[0], p[1]) == 1.0 && SquaredDistance(p[1], p[0]) == 1.0
      && SquaredDistance(p[0], p[2]) == 1.0 && SquaredDistance(p[2], p[0]) == 1.0
      && SquaredDistance(p[1], p[2]) == 2.0 && SquaredDistance(p[2], p[1]) == 2.0
  {
  }

  /** Their distogram is [[0,1,1],[1,0,sqrt 2],[1,sqrt 2,0]]. */
  lemma ThreePointDistogram(sqrt: real -> real)
    requires IsSqrt(sqrt)
    ensures Distogram(ThreePoints(), sqrt) == Some([[0.0, 1.0, 1.0], [1.0, 0.0, sqrt(2.0)], [1.0, sqrt(2.0), 0.0]])
  {
    var p := ThreePoints();
    ThreePointSquaredDistances();
    SqrtValues(sqrt);
    var d := Distogram(p, sqrt).value;
    assert d[0][0] == 0.0 && d[0][1] == 1.0 && d[0][2] == 1.0;
    assert d[1][0] == 1.0 && d[1][1] == 0.0 && d[1][2] == sqrt(2.0);
    assert d[2][0] == 1.0 && d[2][1] == sqrt(2.0) && d[2][2] == 0.0;
    assert d[0] == [0.0, 1.0, 1.0];
    assert d[1] == [1.0, 0.0, sqrt(2.0)];
    assert d[2] == [1.0, sqrt(2.0), 0.0];
    assert d == [d[0], d[1], d[2]];
  }

  /** The square root of 2 is below the default threshold 8. */
  lemma SqrtTwoBelowThreshold(sqrt: real -> real)
    requires IsSqrt(sqrt)
    ensures sqrt(2.0) < DefaultThreshold
  {
    var two := sqrt(2.0);
    assert 0.0 <= two && two * two == 2.0;
    if two >= 8.0 {
      if two > 8.0 { SquareMonotone(8.0, two); }
      assert false;
    }
  }

  /**
   * At the default threshold of 8.0 every entry of their contact map is 1,
   * the diagonal included.
   */
  lemma ThreePointContactMap(sqrt: real -> real)
    requires IsSqrt(sqrt)
    ensures ContactMap(ThreePoints(), sqrt, DefaultThreshold) == Some([[1, 1, 1], [1, 1, 1], [1, 1, 1]])
  {
    var p := ThreePoints();
    ThreePointSquaredDistances();
    SqrtValues(sqrt);
    SqrtTwoBelowThreshold(sqrt);
    var c := ContactMap(p, sqrt, DefaultThreshold).value;
    assert c[0][0] == 1 && c[0][1] == 1 && c[0][2] == 1;
    assert c[1][0] == 1 && c[1][1] == 1 && c[1][2] == 1;
    assert c[2][0] == 1 && c[2][1] == 1 && c[2][2] == 1;
    assert c[0] == [1, 1, 1] && c[1] == [1, 1, 1] && c[2] == [1, 1, 1];
    assert c == [c[0], c[1], c[2]];
  }
}
