/**
 * The projection pipeline of the 3D view (performPCA in
 * src/components/ThreeVisualization.tsx): three anchor entries are put in
 * front of the data, every bipolar pair is normalised to shares of 100, the
 * eight main-key shares form a matrix that is centred, its covariance is
 * filled into an 8x8 array and deflated in place after each of three
 * eigen-components, the rows are projected on the components, moved so that
 * the centre anchor is the origin and scaled by one factor.
 *
 * The power iteration (random start, floating-point convergence) is the
 * parameter `power`; `Math.sqrt` is the parameter `sqrt`; the anchor colours,
 * read from the DOM, are parameters.
 */
module Projection {
  import opened Wrappers
  import opened Types
  import opened Config

  /** A row of the PCA matrix, an eigenvector, or a row of the covariance matrix. */
  type Vec8 = v: seq<real> | |v| == 8 witness [0.0, 0.0, 0.0, 0.0, 0.0, 0.0, 0.0, 0.0]

  /** `values.reduce((sum, v) => sum + v, 0)`. */
  function Sum(s: seq<real>): real {
    if s == [] then 0.0 else s[0] + Sum(s[1..])
  }

  /** Subtracting c from every value subtracts |s|·c from the sum. */
  lemma {:induction false} SumShift(s: seq<real>, c: real)
    ensures Sum(seq(|s|, k requires 0 <= k < |s| => s[k] - c)) == Sum(s) - (|s| as real) * c
  {
    if s != [] {
      var shifted := seq(|s|, k requires 0 <= k < |s| => s[k] - c);
      assert shifted[1..] == seq(|s[1..]|, k requires 0 <= k < |s[1..]| => s[1..][k] - c);
      SumShift(s[1..], c);
    }
  }

  /** A sum of non-negative values is non-negative. */
  lemma {:induction false} SumNonNegative(s: seq<real>)
    requires forall k :: 0 <= k < |s| ==> s[k] >= 0.0
    ensures Sum(s) >= 0.0
  {
    if s != [] {
      SumNonNegative(s[1..]);
    }
  }

  // ---------------------------------------------------------------- anchors

  /** Anchor scores: `main` on every main key of AXES_CONFIG, `opposite` on every opposite key. */
  function AnchorScores(main: real, opposite: real): Scores {
    seq(16, k requires 0 <= k < 16 => Some(if k % 2 == 0 then main else opposite))
  }

  /** The three anchors put in front of the data. Their colours come from the DOM. */
  function Markers(red: string, blue: string, orange: string): (m: seq<Entry>)
    ensures |m| == 3 && m[0].id == -1 && m[1].id == -2 && m[2].id == -3
  {
    [ Entry(-1, "Extrême gauche", red, AnchorScores(100.0, 0.0)),
      Entry(-2, "Extrême droite", blue, AnchorScores(0.0, 100.0)),
      Entry(-3, "Centrisme absolu", orange, AnchorScores(50.0, 50.0)) ]
  }

  /** The anchors' scores read through AXES_CONFIG: the key of every pair gets `main`, its opposite `opposite`. */
  lemma AnchorScoresByPair(main: real, opposite: real, j: nat)
    requires j < 8
    ensures var e := Entry(0, "", "", AnchorScores(main, opposite));
      e.Score(AxesConfig[j].key) == Some(main) && e.Score(AxesConfig[j].oppositeKey) == Some(opposite)
  {
    AxisAt(j);
    AllKeysDistinct();
    assert Index(AllKeys[2 * j]) == 2 * j && Index(AllKeys[2 * j + 1]) == 2 * j + 1;
  }

  // ---------------------------------------------------------- normalisation

  /** The normalised shares of one pair. */
  datatype Share = Share(main: real, opposite: real)

  /**
   * One pair normalised: 50/50 when the raw total is 0, otherwise each value's
   * share of the total, times 100. Either way the shares add up to 100.
   */
  function NormalizePair(main: real, opposite: real): (s: Share)
    ensures s.main + s.opposite == 100.0
    ensures main + opposite == 0.0 ==> s == Share(50.0, 50.0)
    ensures main + opposite != 0.0 ==>
      s.main * (main + opposite) == 100.0 * main && s.opposite * (main + opposite) == 100.0 * opposite
  {
    var total := main + opposite;
    if total == 0.0 then Share(50.0, 50.0)
    else
      var s := Share(main / total * 100.0, opposite / total * 100.0);
      assert s.main + s.opposite == (main + opposite) / total * 100.0;
      s
  }

  /** `normalized`: the shares of the eight pairs of an entry, in AXES_CONFIG order, null read as 0. */
  function Normalized(e: Entry): (n: seq<Share>)
    ensures |n| == 8
  {
    seq(8, j requires 0 <= j < 8 =>
      NormalizePair(NumberOf(e.Score(AxesConfig[j].key)), NumberOf(e.Score(AxesConfig[j].oppositeKey))))
  }

  /**
   * For every pair, the normalised key and opposite values add up to 100; they
   * are 50/50 exactly when the raw total, nulls counting as 0, is 0.
   */
  lemma NormalizedPairSums(e: Entry, j: nat)
    requires j < 8
    ensures Normalized(e)[j].main + Normalized(e)[j].opposite == 100.0
    ensures var total := NumberOf(e.Score(AxesConfig[j].key)) + NumberOf(e.Score(AxesConfig[j].oppositeKey));
      total == 0.0 ==> Normalized(e)[j] == Share(50.0, 50.0)
    ensures e.Score(AxesConfig[j].key) == None && e.Score(AxesConfig[j].oppositeKey) == None ==>
      Normalized(e)[j] == Share(50.0, 50.0)
  {
  }

  /** `matrix`: the normalised shares of the eight main keys, in AXES_CONFIG order. */
  function MatrixRow(e: Entry): (row: Vec8)
    ensures forall j :: 0 <= j < 8 ==> row[j] == Normalized(e)[j].main
  {
    seq(8, j requires 0 <= j < 8 => Normalized(e)[j].main)
  }

  /** The anchors sit at the two extremes and the exact middle of every axis. */
  lemma AnchorRows(red: string, blue: string, orange: string)
    ensures var m := Markers(red, blue, orange);
      && MatrixRow(m[0]) == [100.0, 100.0, 100.0, 100.0, 100.0, 100.0, 100.0, 100.0]
      && MatrixRow(m[1]) == [0.0, 0.0, 0.0, 0.0, 0.0, 0.0, 0.0, 0.0]
      && MatrixRow(m[2]) == [50.0, 50.0, 50.0, 50.0, 50.0, 50.0, 50.0, 50.0]
  {
    var m := Markers(red, blue, orange);
    forall j | 0 <= j < 8
      ensures MatrixRow(m[0])[j] == 100.0 && MatrixRow(m[1])[j] == 0.0 && MatrixRow(m[2])[j] == 50.0
    {
      AnchorScoresByPair(100.0, 0.0, j);
      AnchorScoresByPair(0.0, 100.0, j);
      AnchorScoresByPair(50.0, 50.0, j);
      assert m[0].scores == AnchorScores(100.0, 0.0);
      assert m[1].scores == AnchorScores(0.0, 100.0);
      assert m[2].scores == AnchorScores(50.0, 50.0);
    }
  }

  // ------------------------------------------------------------- centering

  /** Column i of a matrix. */
  function Column(m: seq<Vec8>, i: nat): (col: seq<real>)
    requires i < 8
    ensures |col| == |m|
  {
    seq(|m|, r requires 0 <= r < |m| => m[r][i])
  }

  /** `means`: the average of each column. */
  function Means(m: seq<Vec8>): Vec8
    requires |m| > 0
  {
    seq(8, i requires 0 <= i < 8 => Sum(Column(m, i)) / (|m| as real))
  }

  /** `centeredMatrix`: every value minus its column's mean. */
  function Centered(m: seq<Vec8>): (c: seq<Vec8>)
    requires |m| > 0
    ensures |c| == |m|
  {
    var means := Means(m);
    seq(|m|, r requires 0 <= r < |m| => seq(8, i requires 0 <= i < 8 => m[r][i] - means[i]))
  }

  /** Every column of the centred matrix sums to 0. */
  lemma CenteredColumnsSumToZero(m: seq<Vec8>, i: nat)
    requires |m| > 0 && i < 8
    ensures Sum(Column(Centered(m), i)) == 0.0
  {
    var col := Column(m, i);
    var mean := Means(m)[i];
    assert Column(Centered(m), i) == seq(|col|, k requires 0 <= k < |col| => col[k] - mean);
    SumShift(col, mean);
    var n := |m| as real;
    assert mean == Sum(col) / n;
    assert n * (Sum(col) / n) == Sum(col);
  }

  // ------------------------------------------------------------ covariance

  /** The products of columns i and j, row by row. */
  function Products(c: seq<Vec8>, i: nat, j: nat): (p: seq<real>)
    requires i < 8 && j < 8
    ensures |p| == |c|
  {
    seq(|c|, r requires 0 <= r < |c| => c[r][i] * c[r][j])
  }

  /** `covMatrix[i][j]`: the sum of products of columns i and j divided by rowCount − 1. */
  function CovEntry(c: seq<Vec8>, i: nat, j: nat): real
    requires |c| >= 2 && i < 8 && j < 8
  {
    Sum(Products(c, i, j)) / ((|c| - 1) as real)
  }

  /** The whole covariance matrix. */
  function Covariance(c: seq<Vec8>): (cov: seq<Vec8>)
    requires |c| >= 2
    ensures |cov| == 8
  {
    seq(8, i requires 0 <= i < 8 => seq(8, j requires 0 <= j < 8 => CovEntry(c, i, j)))
  }

  /** An 8x8 matrix equal to its transpose. */
  predicate Symmetric(m: seq<Vec8>)
    requires |m| == 8
  {
    forall i, j :: 0 <= i < 8 && 0 <= j < 8 ==> m[i][j] == m[j][i]
  }

  /** The covariance matrix is symmetric and its diagonal is non-negative. */
  lemma CovarianceSymmetricNonNegative(c: seq<Vec8>)
    requires |c| >= 2
    ensures Symmetric(Covariance(c))
    ensures forall i :: 0 <= i < 8 ==> Covariance(c)[i][i] >= 0.0
  {
    forall i, j | 0 <= i < 8 && 0 <= j < 8 ensures Covariance(c)[i][j] == Covariance(c)[j][i] {
      assert Products(c, i, j) == Products(c, j, i);
    }
    forall i | 0 <= i < 8 ensures Covariance(c)[i][i] >= 0.0 {
      SumNonNegative(Products(c, i, i));
    }
  }

  // ------------------------------------------------------------- deflation

  /** An eigenvalue and its eigenvector, as the power iteration returns them. */
  datatype EigenPair = EigenPair(eigenvalue: real, eigenvector: Vec8)

  /** `remainingMatrix[i][j] -= eigenvalue * eigenvector[i] * eigenvector[j]` for all i, j. */
  function Deflated(m: seq<Vec8>, p: EigenPair): (d: seq<Vec8>)
    requires |m| == 8
    ensures |d| == 8
  {
    seq(8, i requires 0 <= i < 8 =>
      seq(8, j requires 0 <= j < 8 => m[i][j] - p.eigenvalue * p.eigenvector[i] * p.eigenvector[j]))
  }

  /** Deflation keeps a symmetric matrix symmetric. */
  lemma DeflatedKeepsSymmetry(m: seq<Vec8>, p: EigenPair)
    requires |m| == 8 && Symmetric(m)
    ensures Symmetric(Deflated(m, p))
  {
    var d := Deflated(m, p);
    forall i, j | 0 <= i < 8 && 0 <= j < 8 ensures d[i][j] == d[j][i] {
      var v := p.eigenvector;
      assert p.eigenvalue * v[i] * v[j] == p.eigenvalue * v[j] * v[i];
    }
  }

  /** The matrix the power iteration sees in round k: the covariance deflated k times. */
  function Remaining(cov: seq<Vec8>, power: seq<Vec8> -> EigenPair, k: nat): (m: seq<Vec8>)
    requires |cov| == 8
    ensures |m| == 8
  {
    if k == 0 then cov
    else var prev := Remaining(cov, power, k - 1); Deflated(prev, power(prev))
  }

  /** `components`: the eigen-pairs of the first k rounds, in order. */
  function Components(cov: seq<Vec8>, power: seq<Vec8> -> EigenPair, k: nat): (cs: seq<EigenPair>)
    requires |cov| == 8
    ensures |cs| == k
  {
    if k == 0 then [] else Components(cov, power, k - 1) + [power(Remaining(cov, power, k - 1))]
  }

  /** Round k's component is the power iteration of the matrix left after k deflations. */
  lemma {:induction false} ComponentAt(cov: seq<Vec8>, power: seq<Vec8> -> EigenPair, k: nat, r: nat)
    requires |cov| == 8 && r < k
    ensures Components(cov, power, k)[r] == power(Remaining(cov, power, r))
  {
    if r < k - 1 {
      ComponentAt(cov, power, k - 1, r);
    }
  }

  /** Every matrix the power iteration sees is symmetric when the covariance is. */
  lemma {:induction false} RemainingSymmetric(cov: seq<Vec8>, power: seq<Vec8> -> EigenPair, k: nat)
    requires |cov| == 8 && Symmetric(cov)
    ensures Symmetric(Remaining(cov, power, k))
  {
    if k > 0 {
      RemainingSymmetric(cov, power, k - 1);
      var prev := Remaining(cov, power, k - 1);
      DeflatedKeepsSymmetry(prev, power(prev));
    }
  }

  // ------------------------------------------------------------ projection

  /** A projected point with the identity of the entry it comes from. */
  datatype Point = Point(x: real, y: real, z: real, id: int, color: string, pseudo: string)

  function Dot8(a: Vec8, b: Vec8): real {
    Sum(seq(8, i requires 0 <= i < 8 => a[i] * b[i]))
  }

  /** `projectedData`: each centred row on the first three components, with its entry's id, colour and pseudo. */
  function Projected(c: seq<Vec8>, entries: seq<Entry>, cs: seq<EigenPair>): (ps: seq<Point>)
    requires |c| == |entries| && |cs| >= 3
    ensures |ps| == |c|
    ensures forall k :: 0 <= k < |ps| ==>
      ps[k].id == entries[k].id && ps[k].color == entries[k].color && ps[k].pseudo == entries[k].pseudo
  {
    seq(|c|, k requires 0 <= k < |c| =>
      Point(Dot8(c[k], cs[0].eigenvector), Dot8(c[k], cs[1].eigenvector), Dot8(c[k], cs[2].eigenvector),
            entries[k].id, entries[k].color, entries[k].pseudo))
  }

  // ------------------------------------------------------ re-centre, scale

  /** `find((point) => point.id === id)`: the position of the first point with that id. */
  function FindId(ps: seq<Point>, id: int): (r: Option<nat>)
    ensures r.Some? ==> r.value < |ps| && ps[r.value].id == id && forall k :: 0 <= k < r.value ==> ps[k].id != id
    ensures r.None? ==> forall k :: 0 <= k < |ps| ==> ps[k].id != id
  {
    if ps == [] then None
    else if ps[0].id == id then Some(0)
    else match FindId(ps[1..], id)
      case None => None
      case Some(k) => Some(k + 1)
  }

  /** A point moved by minus an offset; identity unchanged. */
  function Shifted(p: Point, dx: real, dy: real, dz: real): Point {
    p.(x := p.x - dx, y := p.y - dy, z := p.z - dz)
  }

  /** Every point moved by minus the coordinates of point k. */
  function Offset(ps: seq<Point>, k: nat): (r: seq<Point>)
    requires k < |ps|
    ensures |r| == |ps|
  {
    seq(|ps|, i requires 0 <= i < |ps| => Shifted(ps[i], ps[k].x, ps[k].y, ps[k].z))
  }

  /** The points moved so that the first point with id -3, when there is one, is the origin. */
  function Recentered(ps: seq<Point>): (r: seq<Point>)
    ensures |r| == |ps|
  {
    match FindId(ps, -3)
    case None => ps
    case Some(k) => Offset(ps, k)
  }

  function Mean(values: seq<real>): real
    requires |values| > 0
  {
    Sum(values) / (|values| as real)
  }

  /** calculateStats: the population variance, `Math.pow(v - mean, 2)` summed and divided by the count. */
  function Variance(values: seq<real>): real
    requires |values| > 0
  {
    var mean := Mean(values);
    Sum(seq(|values|, i requires 0 <= i < |values| => (values[i] - mean) * (values[i] - mean))) / (|values| as real)
  }

  /** The population variance is never negative, so `Math.sqrt` is applied to a non-negative value. */
  lemma VarianceNonNegative(values: seq<real>)
    requires |values| > 0
    ensures Variance(values) >= 0.0
  {
    var mean := Mean(values);
    SumNonNegative(seq(|values|, i requires 0 <= i < |values| => (values[i] - mean) * (values[i] - mean)));
  }

  function Xs(ps: seq<Point>): seq<real> { seq(|ps|, i requires 0 <= i < |ps| => ps[i].x) }
  function Ys(ps: seq<Point>): seq<real> { seq(|ps|, i requires 0 <= i < |ps| => ps[i].y) }
  function Zs(ps: seq<Point>): seq<real> { seq(|ps|, i requires 0 <= i < |ps| => ps[i].z) }

  /** `Math.max(a, b, c)`. */
  function Max3(a: real, b: real, c: real): (m: real)
    ensures m >= a && m >= b && m >= c && (m == a || m == b || m == c)
  {
    if a >= b && a >= c then a else if b >= c then b else c
  }

  /** The largest of the three standard deviations. */
  function MaxStd(ps: seq<Point>, sqrt: real -> real): real
    requires |ps| > 0
  {
    Max3(sqrt(Variance(Xs(ps))), sqrt(Variance(Ys(ps))), sqrt(Variance(Zs(ps))))
  }

  /** The uniform factor of the points: the one their largest standard deviation calls for. */
  function ScaleFactor(ps: seq<Point>, sqrt: real -> real): real
    requires |ps| > 0
  {
    FactorFor(MaxStd(ps, sqrt))
  }

  /**
   * The factor for a largest standard deviation: it brings that deviation to
   * 5, or is 1 when the deviation is 0, and it is positive when the deviation
   * is not negative.
   */
  function FactorFor(maxStd: real): (s: real)
    ensures maxStd == 0.0 ==> s == 1.0
    ensures maxStd != 0.0 ==> s * maxStd == 5.0
    ensures maxStd >= 0.0 ==> s > 0.0
  {
    if maxStd == 0.0 then 1.0 else 5.0 / maxStd
  }

  /** A point with its coordinates multiplied by s; identity unchanged. */
  function Scaled(p: Point, s: real): Point {
    p.(x := p.x * s, y := p.y * s, z := p.z * s)
  }

  /** Every point multiplied by s. */
  function ScaledBy(ps: seq<Point>, s: real): (r: seq<Point>)
    ensures |r| == |ps|
  {
    seq(|ps|, i requires 0 <= i < |ps| => Scaled(ps[i], s))
  }

  /** Every point multiplied by the one factor (nothing to do without points). */
  function Rescaled(ps: seq<Point>, sqrt: real -> real): (r: seq<Point>)
    ensures |r| == |ps|
  {
    if |ps| == 0 then ps else ScaledBy(ps, ScaleFactor(ps, sqrt))
  }

  /**
   * r is ps moved by point k and multiplied by s: point k at the origin, every
   * point its difference from point k times s, every id, colour and pseudo kept.
   */
  predicate IsScaledOffset(r: seq<Point>, ps: seq<Point>, k: nat, s: real) {
    && |r| == |ps| && k < |ps|
    && r[k].x == 0.0 && r[k].y == 0.0 && r[k].z == 0.0
    && forall i :: 0 <= i < |ps| ==>
         && r[i].x == (ps[i].x - ps[k].x) * s
         && r[i].y == (ps[i].y - ps[k].y) * s
         && r[i].z == (ps[i].z - ps[k].z) * s
         && r[i].id == ps[i].id && r[i].color == ps[i].color && r[i].pseudo == ps[i].pseudo
  }

  lemma OffsetThenScale(ps: seq<Point>, k: nat, s: real)
    requires k < |ps|
    ensures IsScaledOffset(ScaledBy(Offset(ps, k), s), ps, k, s)
  {
  }

  /**
   * When the first point with id -3 is at position k, re-centring and scaling
   * moves every point by point k and multiplies it by one factor, computed
   * from the moved points.
   */
  lemma RecenterAndScale(ps: seq<Point>, k: nat, sqrt: real -> real)
    requires FindId(ps, -3) == Some(k)
    ensures Rescaled(Recentered(ps), sqrt) == ScaledBy(Offset(ps, k), ScaleFactor(Offset(ps, k), sqrt))
  {
  }

  // --------------------------------------------------------- whole pipeline

  /** `dataAvecMarqueurs`: the anchors, then the data. */
  function WithMarkers(data: seq<Entry>, red: string, blue: string, orange: string): (entries: seq<Entry>)
    ensures |entries| == |data| + 3
  {
    Markers(red, blue, orange) + data
  }

  /** The eight-column matrix of all entries. */
  function Matrix(entries: seq<Entry>): (m: seq<Vec8>)
    ensures |m| == |entries|
  {
    seq(|entries|, k requires 0 <= k < |entries| => MatrixRow(entries[k]))
  }

  /** The centred matrix of the anchors and the data. */
  function CenteredRows(data: seq<Entry>, red: string, blue: string, orange: string): (c: seq<Vec8>)
    ensures |c| == |data| + 3
  {
    Centered(Matrix(WithMarkers(data, red, blue, orange)))
  }

  /** The rows projected on the three components, before re-centring and scaling. */
  function RawProjection(data: seq<Entry>, red: string, blue: string, orange: string,
                         power: seq<Vec8> -> EigenPair): (ps: seq<Point>)
    ensures |ps| == |data| + 3
  {
    var c := CenteredRows(data, red, blue, orange);
    Projected(c, WithMarkers(data, red, blue, orange), Components(Covariance(c), power, 3))
  }

  /** performPCA's projectedData. */
  function Pca(data: seq<Entry>, red: string, blue: string, orange: string,
               power: seq<Vec8> -> EigenPair, sqrt: real -> real): seq<Point>
  {
    if |data| == 0 then []
    else Rescaled(Recentered(RawProjection(data, red, blue, orange, power)), sqrt)
  }

  /**
   * Empty data projects to nothing. Otherwise the anchors -1, -2, -3 come
   * first, then every entry in input order with its id, colour and pseudo, and
   * the centre anchor is the origin.
   */
  lemma PcaShape(data: seq<Entry>, red: string, blue: string, orange: string,
                 power: seq<Vec8> -> EigenPair, sqrt: real -> real)
    ensures var r := Pca(data, red, blue, orange, power, sqrt);
      && (|data| == 0 ==> r == [])
      && (|data| > 0 ==>
        && |r| == |data| + 3
        && r[0].id == -1 && r[0].pseudo == "Extrême gauche" && r[0].color == red
        && r[1].id == -2 && r[1].pseudo == "Extrême droite" && r[1].color == blue
        && r[2].id == -3 && r[2].pseudo == "Centrisme absolu" && r[2].color == orange
        && r[2].x == 0.0 && r[2].y == 0.0 && r[2].z == 0.0
        && forall i :: 0 <= i < |data| ==>
             r[i + 3].id == data[i].id && r[i + 3].color == data[i].color && r[i + 3].pseudo == data[i].pseudo)
  {
    if |data| > 0 {
      var entries := WithMarkers(data, red, blue, orange);
      var ps := RawProjection(data, red, blue, orange, power);
      PcaUniformScale(data, red, blue, orange, power, sqrt);
      var r := Pca(data, red, blue, orange, power, sqrt);
      assert forall i :: 0 <= i < |data| + 3 ==> r[i].id == entries[i].id && r[i].color == entries[i].color && r[i].pseudo == entries[i].pseudo;
      assert forall i :: 0 <= i < |data| ==> entries[i + 3] == data[i];
    }
  }

  /**
   * The output is the raw projection moved so that the centre anchor (always
   * at position 2) is the origin, then multiplied by one factor.
   */
  lemma PcaUniformScale(data: seq<Entry>, red: string, blue: string, orange: string,
                        power: seq<Vec8> -> EigenPair, sqrt: real -> real)
    requires |data| > 0
    ensures var ps := RawProjection(data, red, blue, orange, power);
      IsScaledOffset(Pca(data, red, blue, orange, power, sqrt), ps, 2, ScaleFactor(Offset(ps, 2), sqrt))
  {
    var ps := RawProjection(data, red, blue, orange, power);
    CentreAnchorFound(data, red, blue, orange, power);
    RecenterAndScale(ps, 2, sqrt);
    OffsetThenScale(ps, 2, ScaleFactor(Offset(ps, 2), sqrt));
  }

  /** In the raw projection the first point with id -3 is the centre anchor, at position 2. */
  lemma CentreAnchorFound(data: seq<Entry>, red: string, blue: string, orange: string,
                          power: seq<Vec8> -> EigenPair)
    ensures FindId(RawProjection(data, red, blue, orange, power), -3) == Some(2)
  {
    var ps := RawProjection(data, red, blue, orange, power);
    var entries := WithMarkers(data, red, blue, orange);
    assert entries[0].id == -1 && entries[1].id == -2 && entries[2].id == -3;
    assert ps[0].id == -1 && ps[1].id == -2 && ps[2].id == -3;
  }

  /** Each component is the power iteration of a symmetric matrix: the covariance deflated by the earlier ones. */
  lemma PcaComponents(data: seq<Entry>, red: string, blue: string, orange: string,
                      power: seq<Vec8> -> EigenPair, r: nat)
    requires |data| > 0 && r < 3
    ensures var c := CenteredRows(data, red, blue, orange);
      && Components(Covariance(c), power, 3)[r] == power(Remaining(Covariance(c), power, r))
      && Symmetric(Remaining(Covariance(c), power, r))
  {
    var c := CenteredRows(data, red, blue, orange);
    CovarianceSymmetricNonNegative(c);
    ComponentAt(Covariance(c), power, 3, r);
    RemainingSymmetric(Covariance(c), power, r);
  }

  // ------------------------------------------------------ imperative parts

  /** The contents of an 8x8 array as a matrix value. */
  function Contents(a: array2<real>): (m: seq<Vec8>)
    requires a.Length0 == 8 && a.Length1 == 8
    reads a
    ensures |m| == 8 && forall i, j :: 0 <= i < 8 && 0 <= j < 8 ==> m[i][j] == a[i, j]
  {
    seq(8, i requires 0 <= i < 8 reads a => seq(8, j requires 0 <= j < 8 reads a => a[i, j]))
  }

  /** Two 8x8 matrices that agree on every cell are equal. */
  lemma SameCells(a: seq<Vec8>, b: seq<Vec8>)
    requires |a| == 8 && |b| == 8
    requires forall i, j :: 0 <= i < 8 && 0 <= j < 8 ==> a[i][j] == b[i][j]
    ensures a == b
  {
    forall i | 0 <= i < 8 ensures a[i] == b[i] {
      assert forall j :: 0 <= j < 8 ==> a[i][j] == b[i][j];
    }
  }

  /** The nested loops that fill `covMatrix`. */
  method FillCovariance(c: seq<Vec8>) returns (cov: array2<real>)
    requires |c| >= 2
    ensures fresh(cov) && cov.Length0 == 8 && cov.Length1 == 8
    ensures Contents(cov) == Covariance(c)
  {
    cov := new real[8, 8];
    var i := 0;
    while i < 8
      invariant 0 <= i <= 8
      invariant forall r, s :: 0 <= r < i && 0 <= s < 8 ==> cov[r, s] == CovEntry(c, r, s)
    {
      var j := 0;
      while j < 8
        invariant 0 <= j <= 8
        invariant forall r, s :: 0 <= r < i && 0 <= s < 8 ==> cov[r, s] == CovEntry(c, r, s)
        invariant forall s :: 0 <= s < j ==> cov[i, s] == CovEntry(c, i, s)
      {
        cov[i, j] := CovEntry(c, i, j);
        j := j + 1;
      }
      i := i + 1;
    }
    SameCells(Contents(cov), Covariance(c));
  }

  /** The in-place deflation loop: subtracts the component from every cell. */
  method Deflate(m: array2<real>, p: EigenPair)
    requires m.Length0 == 8 && m.Length1 == 8
    modifies m
    ensures Contents(m) == Deflated(old(Contents(m)), p)
  {
    ghost var before := Contents(m);
    var i := 0;
    while i < 8
      invariant 0 <= i <= 8
      invariant forall r, s :: 0 <= r < i && 0 <= s < 8 ==> m[r, s] == Deflated(before, p)[r][s]
      invariant forall r, s :: i <= r < 8 && 0 <= s < 8 ==> m[r, s] == before[r][s]
    {
      var j := 0;
      while j < 8
        invariant 0 <= j <= 8
        invariant forall r, s :: 0 <= r < i && 0 <= s < 8 ==> m[r, s] == Deflated(before, p)[r][s]
        invariant forall r, s :: i < r < 8 && 0 <= s < 8 ==> m[r, s] == before[r][s]
        invariant forall s :: 0 <= s < j ==> m[i, s] == Deflated(before, p)[i][s]
        invariant forall s :: j <= s < 8 ==> m[i, s] == before[i][s]
      {
        m[i, j] := m[i, j] - p.eigenvalue * p.eigenvector[i] * p.eigenvector[j];
        j := j + 1;
      }
      i := i + 1;
    }
    SameCells(Contents(m), Deflated(before, p));
  }

  /** The three rounds: power iteration on the remaining matrix, then deflation of that same array. */
  method PrincipalComponents(cov: array2<real>, power: seq<Vec8> -> EigenPair) returns (cs: seq<EigenPair>)
    requires cov.Length0 == 8 && cov.Length1 == 8
    modifies cov
    ensures cs == Components(old(Contents(cov)), power, 3)
    ensures Contents(cov) == Remaining(old(Contents(cov)), power, 3)
  {
    ghost var start := Contents(cov);
    cs := [];
    var round := 0;
    while round < 3
      invariant 0 <= round <= 3
      invariant cs == Components(start, power, round)
      invariant Contents(cov) == Remaining(start, power, round)
    {
      var p := power(Contents(cov));
      cs := cs + [p];
      Deflate(cov, p);
      round := round + 1;
    }
  }

  /** performPCA: the pure steps around the imperative covariance and deflation loops. */
  method PerformPca(data: seq<Entry>, red: string, blue: string, orange: string,
                    power: seq<Vec8> -> EigenPair, sqrt: real -> real) returns (points: seq<Point>)
    ensures points == Pca(data, red, blue, orange, power, sqrt)
  {
    if |data| == 0 {
      return [];
    }
    var entries := WithMarkers(data, red, blue, orange);
    var c := CenteredRows(data, red, blue, orange);
    var cov := FillCovariance(c);
    var cs := PrincipalComponents(cov, power);
    points := Rescaled(Recentered(Projected(c, entries, cs)), sqrt);
  }
}
