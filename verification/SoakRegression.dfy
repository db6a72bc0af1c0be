/** The plateau slope is the slope of the least-squares line through the readings. */
module SoakRegression {
  import opened Sequences
  import opened SoakEvents
  import opened SoakBatch

  function Product(x: real, y: real): real { x * y }

  /** How far a point lies above the line `a + b * x`. */
  function Distance(x: real, y: real, a: real, b: real): real { y - (a + b * x) }

  function SumOfSquares(x: seq<real>, y: seq<real>, a: real, b: real): real
    requires |x| == |y|
  {
    if x == [] then 0.0
    else
      var distance := Distance(Last(x), Last(y), a, b);
      SumOfSquares(DropLast(x), DropLast(y), a, b) + Product(distance, distance)
  }

  // ----- vectors ---------------------------------------------------------------

  function Plus(p: seq<real>, q: seq<real>): (r: seq<real>)
    requires |p| == |q|
    ensures |r| == |p|
  {
    if p == [] then [] else Plus(DropLast(p), DropLast(q)) + [Last(p) + Last(q)]
  }

  function Scaled(c: real, p: seq<real>): (r: seq<real>)
    ensures |r| == |p|
  {
    if p == [] then [] else Scaled(c, DropLast(p)) + [Product(c, Last(p))]
  }

  function Constant(c: real, n: nat): (r: seq<real>)
    ensures |r| == n
  {
    if n == 0 then [] else Constant(c, n - 1) + [c]
  }

  function Less(x: seq<real>, c: real): (r: seq<real>)
    ensures |r| == |x|
  {
    if x == [] then [] else Less(DropLast(x), c) + [Last(x) - c]
  }

  function Dot(p: seq<real>, q: seq<real>): real
    requires |p| == |q|
  {
    if p == [] then 0.0 else Dot(DropLast(p), DropLast(q)) + Product(Last(p), Last(q))
  }

  lemma {:induction false} Distribute(c: real, s: real, t: real)
    ensures Product(c, s + t) == Product(c, s) + Product(c, t)
  {
  }

  lemma {:induction false} Associate(c: real, s: real, t: real)
    ensures Product(t, Product(c, s)) == Product(c, Product(t, s))
  {
  }

  lemma {:induction false} DotPlus(p: seq<real>, q: seq<real>, r: seq<real>)
    requires |p| == |q| == |r|
    ensures Dot(r, Plus(p, q)) == Dot(r, p) + Dot(r, q)
  {
    if p != [] {
      DotPlus(DropLast(p), DropLast(q), DropLast(r));
      Distribute(Last(r), Last(p), Last(q));
      assert DropLast(Plus(p, q)) == Plus(DropLast(p), DropLast(q));
    }
  }

  lemma {:induction false} DotScaled(c: real, p: seq<real>, r: seq<real>)
    requires |p| == |r|
    ensures Dot(r, Scaled(c, p)) == Product(c, Dot(r, p))
  {
    if p != [] {
      DotScaled(c, DropLast(p), DropLast(r));
      assert DropLast(Scaled(c, p)) == Scaled(c, DropLast(p));
      Distribute(c, Dot(DropLast(r), DropLast(p)), Product(Last(r), Last(p)));
      Associate(c, Last(p), Last(r));
    }
  }

  lemma {:induction false} DotConstant(c: real, r: seq<real>)
    ensures Dot(r, Constant(c, |r|)) == Product(c, SumReal(r))
  {
    if r != [] {
      DotConstant(c, DropLast(r));
      assert DropLast(Constant(c, |r|)) == Constant(c, |r| - 1);
      Distribute(c, SumReal(DropLast(r)), Last(r));
    }
  }

  lemma {:induction false} DotCommutes(p: seq<real>, q: seq<real>)
    requires |p| == |q|
    ensures Dot(p, q) == Dot(q, p)
  {
    if p != [] { DotCommutes(DropLast(p), DropLast(q)); }
  }

  lemma {:induction false} SumPlus(p: seq<real>, q: seq<real>)
    requires |p| == |q|
    ensures SumReal(Plus(p, q)) == SumReal(p) + SumReal(q)
  {
    if p != [] { SumPlus(DropLast(p), DropLast(q)); }
  }

  lemma {:induction false} SumScaled(c: real, p: seq<real>)
    ensures SumReal(Scaled(c, p)) == Product(c, SumReal(p))
  {
    if p != [] {
      SumScaled(c, DropLast(p));
      Distribute(c, SumReal(DropLast(p)), Last(p));
    }
  }

  lemma {:induction false} SumLess(x: seq<real>, c: real)
    ensures SumReal(Less(x, c)) == SumReal(x) - c * |x| as real
  {
    if x != [] {
      SumLess(DropLast(x), c);
      Distribute(c, (|x| - 1) as real, 1.0);
    }
  }

  lemma {:induction false} DeviationsCancel(x: seq<real>)
    requires x != []
    ensures SumReal(Less(x, Mean(x))) == 0.0
  {
    SumLess(x, Mean(x));
  }

  lemma {:induction false} Square(x: real)
    ensures 0.0 <= Product(x, x)
    ensures Product(x, x) == 0.0 <==> x == 0.0
  {
    if 0.0 < x {
      PositiveProduct(x, x);
    } else if x < 0.0 {
      PositiveProduct(-x, -x);
      assert Product(-x, -x) == Product(x, x);
    }
  }

  lemma {:induction false} PositiveProduct(x: real, y: real)
    requires 0.0 < x && 0.0 < y
    ensures 0.0 < Product(x, y)
  {
  }

  lemma {:induction false} DotIsZeroIff(p: seq<real>)
    ensures 0.0 <= Dot(p, p)
    ensures Dot(p, p) == 0.0 <==> forall i :: 0 <= i < |p| ==> p[i] == 0.0
  {
    if p != [] {
      DotIsZeroIff(DropLast(p));
      Square(Last(p));
    }
  }

  lemma {:induction false} LessAt(x: seq<real>, c: real, i: nat)
    requires i < |x|
    ensures Less(x, c)[i] == x[i] - c
  {
    if i < |x| - 1 { LessAt(DropLast(x), c, i); }
  }

  // ----- spread of the times -----------------------------------------------------

  lemma {:induction false} TermsAreDot(x: seq<real>, mx: real, y: seq<real>, my: real)
    requires |x| == |y|
    ensures SumOfTerms(Times, x, mx, y, my) == Dot(Less(x, mx), Less(y, my))
  {
    if x != [] {
      TermsAreDot(DropLast(x), mx, DropLast(y), my);
      assert DropLast(Less(x, mx)) == Less(DropLast(x), mx) && DropLast(Less(y, my)) == Less(DropLast(y), my);
    }
  }

  lemma {:induction false} MeanOfConstant(x: seq<real>, c: real)
    requires x != [] && forall i :: 0 <= i < |x| ==> x[i] == c
    ensures Mean(x) == c
  {
    SumOfConstant(x, c);
    Cancelled(|x| as real, c);
  }

  lemma {:induction false} SumOfConstant(x: seq<real>, c: real)
    requires forall i :: 0 <= i < |x| ==> x[i] == c
    ensures SumReal(x) == |x| as real * c
  {
    if x != [] {
      SumOfConstant(DropLast(x), c);
      Distribute(c, (|x| - 1) as real, 1.0);
    }
  }

  lemma {:induction false} Cancelled(n: real, c: real)
    requires n != 0.0
    ensures n * c / n == c
  {
  }

  lemma {:induction false} SpreadIffTwoTimes(x: seq<real>)
    requires x != []
    ensures SumOfTerms(Times, x, Mean(x), x, Mean(x)) == 0.0 <==> forall i :: 0 <= i < |x| ==> x[i] == x[0]
  {
    var m := Mean(x);
    TermsAreDot(x, m, x, m);
    DotIsZeroIff(Less(x, m));
    forall i | 0 <= i < |x| ensures Less(x, m)[i] == x[i] - m { LessAt(x, m, i); }
    if forall i :: 0 <= i < |x| ==> x[i] == x[0] {
      MeanOfConstant(x, x[0]);
    } else {
      var j :| 0 <= j < |x| && x[j] != x[0];
      assert Less(x, m)[j] != Less(x, m)[0];
    }
  }

  // ----- the line ----------------------------------------------------------------

  /** Adding to `r` a vector orthogonal to it adds the squares. */
  lemma {:induction false} Pythagoras(r: seq<real>, e: seq<real>)
    requires |r| == |e| && Dot(r, e) == 0.0
    ensures Dot(Plus(r, e), Plus(r, e)) == Dot(r, r) + Dot(e, e)
  {
    DotPlus(r, e, Plus(r, e));
    DotCommutes(Plus(r, e), r);
    DotCommutes(Plus(r, e), e);
    DotPlus(r, e, r);
    DotPlus(r, e, e);
    DotCommutes(r, e);
  }

  /** The vector `u + v * w`. */
  function Affine(u: real, v: real, w: seq<real>): (e: seq<real>)
    ensures |e| == |w|
  {
    Plus(Constant(u, |w|), Scaled(v, w))
  }

  lemma {:induction false} AffineAt(u: real, v: real, w: seq<real>, i: nat)
    requires i < |w|
    ensures Affine(u, v, w)[i] == u + Product(v, w[i])
  {
    assert DropLast(Constant(u, |w|)) == Constant(u, |w| - 1) && DropLast(Scaled(v, w)) == Scaled(v, DropLast(w));
    if i < |w| - 1 { AffineAt(u, v, DropLast(w), i); }
  }

  lemma {:induction false} AffineOrthogonal(r: seq<real>, u: real, v: real, w: seq<real>)
    requires |r| == |w| && SumReal(r) == 0.0 && Dot(r, w) == 0.0
    ensures Dot(r, Affine(u, v, w)) == 0.0
  {
    DotPlus(Constant(u, |w|), Scaled(v, w), r);
    DotConstant(u, r);
    DotScaled(v, w, r);
  }

  /** The distances from the line through the means with slope `b`. */
  function Residuals(x: seq<real>, mx: real, y: seq<real>, my: real, b: real): (r: seq<real>)
    requires |x| == |y|
    ensures |r| == |x|
  {
    Plus(Less(y, my), Scaled(-b, Less(x, mx)))
  }

  lemma {:induction false} Negated(b: real, s: real)
    ensures Product(-b, s) == -Product(b, s)
    ensures s == 0.0 ==> Product(b, s) == 0.0
  {
  }

  lemma {:induction false} ResidualsCancel(x: seq<real>, y: seq<real>, b: real)
    requires |x| == |y| && x != []
    requires Product(b, SumOfTerms(Times, x, Mean(x), x, Mean(x))) == SumOfTerms(Times, x, Mean(x), y, Mean(y))
    ensures var r := Residuals(x, Mean(x), y, Mean(y), b); SumReal(r) == 0.0 && Dot(r, Less(x, Mean(x))) == 0.0
  {
    var w, d := Less(x, Mean(x)), Less(y, Mean(y));
    var r := Residuals(x, Mean(x), y, Mean(y), b);
    DeviationsCancel(x);
    DeviationsCancel(y);
    SumPlus(d, Scaled(-b, w));
    SumScaled(-b, w);
    TermsAreDot(x, Mean(x), x, Mean(x));
    TermsAreDot(x, Mean(x), y, Mean(y));
    DotPlus(d, Scaled(-b, w), w);
    DotScaled(-b, w, w);
    DotCommutes(w, r);
    Negated(b, Dot(w, w));
    Negated(b, 0.0);
  }

  lemma {:induction false} DistanceFromLine(x: real, y: real, mx: real, my: real, b: real, a2: real, b2: real, u: real, v: real)
    requires v == b - b2 && u == my - a2 - Product(b2, mx)
    ensures Distance(x, y, a2, b2) == ((y - my) + Product(-b, x - mx)) + (u + Product(v, x - mx))
  {
  }

  /** The distances of all points from the line `a2 + b2 * x`. */
  function Distances(x: seq<real>, mx: real, y: seq<real>, my: real, b: real, u: real, v: real): (z: seq<real>)
    requires |x| == |y|
    ensures |z| == |x|
  {
    Plus(Residuals(x, mx, y, my, b), Affine(u, v, Less(x, mx)))
  }

  lemma {:induction false} DistancesSnoc(x: seq<real>, mx: real, y: seq<real>, my: real, b: real, u: real, v: real)
    requires |x| == |y| && x != []
    ensures Distances(x, mx, y, my, b, u, v) == Distances(DropLast(x), mx, DropLast(y), my, b, u, v)
            + [((Last(y) - my) + Product(-b, Last(x) - mx)) + (u + Product(v, Last(x) - mx))]
  {
    var xs, ys := DropLast(x), DropLast(y);
    ResidualsSnoc(x, mx, y, my, b);
    AffineSnoc(u, v, Less(xs, mx), Last(x) - mx);
    PlusSnoc(Residuals(xs, mx, ys, my, b), (Last(y) - my) + Product(-b, Last(x) - mx),
             Affine(u, v, Less(xs, mx)), u + Product(v, Last(x) - mx));
  }

  lemma {:induction false} DotSnoc(p: seq<real>, d: real)
    ensures Dot(p + [d], p + [d]) == Dot(p, p) + Product(d, d)
  {
    assert DropLast(p + [d]) == p && Last(p + [d]) == d;
  }

  lemma {:induction false} SquaresOfLine(
      x: seq<real>, mx: real, y: seq<real>, my: real, b: real, a2: real, b2: real, u: real, v: real)
    requires |x| == |y| && v == b - b2 && u == my - a2 - Product(b2, mx)
    ensures var z := Distances(x, mx, y, my, b, u, v); SumOfSquares(x, y, a2, b2) == Dot(z, z)
  {
    if x != [] {
      SquaresOfLine(DropLast(x), mx, DropLast(y), my, b, a2, b2, u, v);
      DistancesSnoc(x, mx, y, my, b, u, v);
      DistanceFromLine(Last(x), Last(y), mx, my, b, a2, b2, u, v);
      DotSnoc(Distances(DropLast(x), mx, DropLast(y), my, b, u, v), Distance(Last(x), Last(y), a2, b2));
    }
  }

  lemma {:induction false} ResidualsSnoc(x: seq<real>, mx: real, y: seq<real>, my: real, b: real)
    requires |x| == |y| && x != []
    ensures Residuals(x, mx, y, my, b)
         == Residuals(DropLast(x), mx, DropLast(y), my, b) + [(Last(y) - my) + Product(-b, Last(x) - mx)]
  {
    ScaledSnoc(-b, Less(DropLast(x), mx), Last(x) - mx);
    PlusSnoc(Less(DropLast(y), my), Last(y) - my, Scaled(-b, Less(DropLast(x), mx)), Product(-b, Last(x) - mx));
  }

  lemma {:induction false} AffineSnoc(u: real, v: real, w: seq<real>, t: real)
    ensures Affine(u, v, w + [t]) == Affine(u, v, w) + [u + Product(v, t)]
  {
    ScaledSnoc(v, w, t);
    PlusSnoc(Constant(u, |w|), u, Scaled(v, w), Product(v, t));
  }

  lemma {:induction false} PlusSnoc(p: seq<real>, a: real, q: seq<real>, b: real)
    requires |p| == |q|
    ensures Plus(p + [a], q + [b]) == Plus(p, q) + [a + b]
  {
    assert DropLast(p + [a]) == p && Last(p + [a]) == a && DropLast(q + [b]) == q && Last(q + [b]) == b;
  }

  lemma {:induction false} ScaledSnoc(c: real, p: seq<real>, a: real)
    ensures Scaled(c, p + [a]) == Scaled(c, p) + [Product(c, a)]
  {
    assert DropLast(p + [a]) == p && Last(p + [a]) == a;
  }

  lemma {:induction false} SquaresSplit(
      x: seq<real>, mx: real, y: seq<real>, my: real, b: real, a2: real, b2: real, u: real, v: real)
    requires |x| == |y| && v == b - b2 && u == my - a2 - Product(b2, mx)
    requires SumReal(Residuals(x, mx, y, my, b)) == 0.0 && Dot(Residuals(x, mx, y, my, b), Less(x, mx)) == 0.0
    ensures var r, e := Residuals(x, mx, y, my, b), Affine(u, v, Less(x, mx));
            SumOfSquares(x, y, a2, b2) == Dot(r, r) + Dot(e, e)
  {
    var r, w := Residuals(x, mx, y, my, b), Less(x, mx);
    AffineOrthogonal(r, u, v, w);
    Pythagoras(r, Affine(u, v, w));
    SquaresOfLine(x, mx, y, my, b, a2, b2, u, v);
  }

  lemma {:induction false} NoOffset(w: seq<real>)
    ensures Dot(Affine(0.0, 0.0, w), Affine(0.0, 0.0, w)) == 0.0
  {
    var e := Affine(0.0, 0.0, w);
    forall i | 0 <= i < |e| ensures e[i] == 0.0 { AffineAt(0.0, 0.0, w, i); }
    DotIsZeroIff(e);
  }

  lemma {:induction false} AgainstThroughMeans(x: seq<real>, y: seq<real>, b: real, a2: real, b2: real)
    requires |x| == |y| && x != []
    requires Product(b, SumOfTerms(Times, x, Mean(x), x, Mean(x))) == SumOfTerms(Times, x, Mean(x), y, Mean(y))
    ensures var e := Affine(Mean(y) - a2 - Product(b2, Mean(x)), b - b2, Less(x, Mean(x)));
            SumOfSquares(x, y, a2, b2) == SumOfSquares(x, y, Mean(y) - Product(b, Mean(x)), b) + Dot(e, e)
  {
    var mx, my := Mean(x), Mean(y);
    ResidualsCancel(x, y, b);
    SquaresSplit(x, mx, y, my, b, a2, b2, my - a2 - Product(b2, mx), b - b2);
    SquaresSplit(x, mx, y, my, b, my - Product(b, mx), b, 0.0, 0.0);
    NoOffset(Less(x, mx));
  }

  lemma {:induction false} NotBothZero(u: real, v: real, p: real, q: real)
    requires v != 0.0 && p != q
    ensures u + Product(v, p) != 0.0 || u + Product(v, q) != 0.0
  {
    assert u + v * p - (u + v * q) == v * (p - q);
  }

  lemma {:induction false} LinesDiffer(x: seq<real>, m: real, u: real, v: real, j: nat)
    requires j < |x| && x[j] != x[0] && v != 0.0
    ensures var e := Affine(u, v, Less(x, m)); 0.0 < Dot(e, e)
  {
    var w := Less(x, m);
    LessAt(x, m, 0);
    LessAt(x, m, j);
    NotBothZero(u, v, w[0], w[j]);
    AffineAt(u, v, w, 0);
    AffineAt(u, v, w, j);
    DotIsZeroIff(Affine(u, v, w));
  }

  lemma {:induction false} ThroughMeansIsBest(x: seq<real>, y: seq<real>, b: real, a2: real, b2: real)
    requires |x| == |y| && x != []
    requires Product(b, SumOfTerms(Times, x, Mean(x), x, Mean(x))) == SumOfTerms(Times, x, Mean(x), y, Mean(y))
    ensures SumOfSquares(x, y, Mean(y) - Product(b, Mean(x)), b) <= SumOfSquares(x, y, a2, b2)
    ensures b2 != b && (exists j :: 0 <= j < |x| && x[j] != x[0]) ==>
              SumOfSquares(x, y, Mean(y) - Product(b, Mean(x)), b) < SumOfSquares(x, y, a2, b2)
  {
    var u := Mean(y) - a2 - Product(b2, Mean(x));
    AgainstThroughMeans(x, y, b, a2, b2);
    DotIsZeroIff(Affine(u, b - b2, Less(x, Mean(x))));
    if b2 != b && exists j :: 0 <= j < |x| && x[j] != x[0] {
      var j :| 0 <= j < |x| && x[j] != x[0];
      LinesDiffer(x, Mean(x), u, b - b2, j);
    }
  }

  // ----- the slope ---------------------------------------------------------------

  /** Seconds since the first reading, and the measured values. */
  predicate AreCoordinates(points: seq<Reading>, q: Quantity, x: seq<real>, y: seq<real>) {
    && |x| == |y| == |points|
    && (forall i :: 0 <= i < |x| ==> x[i] == (points[i].ns - points[0].ns) as real / 1000000000.0)
    && (forall i :: 0 <= i < |y| ==> y[i] == (match q case Rss => points[i].body.rss case Vram => points[i].body.vram) as real)
  }

  lemma {:induction false} CoordinatesOf(points: seq<Reading>, q: Quantity, x: seq<real>, y: seq<real>)
    requires AreCoordinates(points, q, x, y)
    ensures x == Elapsed(points) && y == Values(points, q)
  {
  }

  /** There is no slope exactly for fewer than two readings or for one time only. */
  lemma {:induction false} SlopeIsAbsentIff(points: seq<Reading>, q: Quantity)
    ensures SlopePerHour(points, q) == Infinite <==>
            |points| < 2 || forall i :: 0 <= i < |points| ==> points[i].ns == points[0].ns
  {
    if 2 <= |points| {
      var x := Elapsed(points);
      SpreadIffTwoTimes(x);
      assert forall i :: 0 <= i < |points| ==> (x[i] == x[0] <==> points[i].ns == points[0].ns);
    }
  }

  lemma {:induction false} HourlySlope(sxx: real, sxy: real, b: real)
    requires sxx != 0.0 && b == sxy / sxx * 3600.0 / 3600.0
    ensures Product(b, sxx) == sxy
  {
    assert b == sxy / sxx;
  }

  /** No line is as close to the readings as one with the reported slope, and every
      line with another slope is farther away. */
  lemma {:induction false} SlopeIsLeastSquares(points: seq<Reading>, q: Quantity, x: seq<real>, y: seq<real>)
      returns (a: real)
    requires AreCoordinates(points, q, x, y) && SlopePerHour(points, q).Finite?
    ensures var b := SlopePerHour(points, q).perHour / 3600.0;
            forall a2, b2 {:trigger SumOfSquares(x, y, a2, b2)} ::
              && SumOfSquares(x, y, a, b) <= SumOfSquares(x, y, a2, b2)
              && (b2 != b ==> SumOfSquares(x, y, a, b) < SumOfSquares(x, y, a2, b2))
  {
    CoordinatesOf(points, q, x, y);
    var b := SlopePerHour(points, q).perHour / 3600.0;
    var sxx, sxy := SumOfTerms(Times, x, Mean(x), x, Mean(x)), SumOfTerms(Times, x, Mean(x), y, Mean(y));
    HourlySlope(sxx, sxy, b);
    SpreadIffTwoTimes(x);
    a := Mean(y) - Product(b, Mean(x));
    forall a2, b2 ensures SumOfSquares(x, y, a, b) <= SumOfSquares(x, y, a2, b2)
                          && (b2 != b ==> SumOfSquares(x, y, a, b) < SumOfSquares(x, y, a2, b2))
    {
      ThroughMeansIsBest(x, y, b, a2, b2);
    }
  }

  lemma {:induction false} OnTheLine(x: seq<real>, y: seq<real>, a: real, b: real)
    requires |x| == |y| && forall i :: 0 <= i < |x| ==> y[i] == a + b * x[i]
    ensures SumOfSquares(x, y, a, b) == 0.0
  {
    if x != [] { OnTheLine(DropLast(x), DropLast(y), a, b); }
  }

  lemma {:induction false} SquaresAreNonNegative(x: seq<real>, y: seq<real>, a: real, b: real)
    requires |x| == |y|
    ensures 0.0 <= SumOfSquares(x, y, a, b)
  {
    if x != [] {
      SquaresAreNonNegative(DropLast(x), DropLast(y), a, b);
      Square(Distance(Last(x), Last(y), a, b));
    }
  }

  /** Readings that grow by `k` units a second have the slope `3600 * k`. */
  lemma {:induction false} SteadyGrowthHasItsSlope(
      points: seq<Reading>, q: Quantity, x: seq<real>, y: seq<real>, c: real, k: real)
    requires 2 <= |points| && points[0].ns < Last(points).ns && AreCoordinates(points, q, x, y)
    requires forall i :: 0 <= i < |x| ==> y[i] == c + k * x[i]
    ensures SlopePerHour(points, q) == Finite(3600.0 * k)
  {
    SlopeIsAbsentIff(points, q);
    assert Last(points) == points[|points| - 1];
    var a := SlopeIsLeastSquares(points, q, x, y);
    OnTheLine(x, y, c, k);
    var b := SlopePerHour(points, q).perHour / 3600.0;
    SquaresAreNonNegative(x, y, a, b);
    assert b == k;
  }
}
