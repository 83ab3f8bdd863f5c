/** The collision tests and the reflection of Systems.cpp, over the reals: each test against the points the two bodies
    share. */
module Collisions {
  import opened Wrappers

  datatype Vector = Vector(x: real, y: real, z: real)

  function Sub(a: Vector, b: Vector): Vector {
    Vector(a.x - b.x, a.y - b.y, a.z - b.z)
  }

  function Plus(a: Vector, b: Vector): Vector {
    Vector(a.x + b.x, a.y + b.y, a.z + b.z)
  }

  function Scale(k: real, a: Vector): Vector {
    Vector(k * a.x, k * a.y, k * a.z)
  }

  function Dot(a: Vector, b: Vector): real {
    a.x * b.x + a.y * b.y + a.z * b.z
  }

  const ZERO := Vector(0.0, 0.0, 0.0)

  /** A box collider at a transform: the position is its lower corner. */
  datatype Box = Box(position: Vector, size: Vector, scale: Vector)

  /** Collider size times transform scale, axis by axis. */
  function Extent(b: Box): Vector {
    Vector(b.size.x * b.scale.x, b.size.y * b.scale.y, b.size.z * b.scale.z)
  }

  function Max(a: real, b: real): real {
    if a < b then b else a
  }

  function Min(a: real, b: real): real {
    if b < a then b else a
  }

  // ---------------------------------------------------------------- box against box

  predicate BoxCollisions(a: Box, b: Box) {
    var p, e, q, f := a.position, Extent(a), b.position, Extent(b);
    && p.x < q.x + f.x && p.x + e.x > q.x
    && p.y < q.y + f.y && p.y + e.y > q.y
    && p.z < q.z + f.z && p.z + e.z > q.z
  }

  predicate InOpenInterval(t: real, lo: real, extent: real) {
    lo < t < lo + extent
  }

  predicate InOpenBox(t: Vector, b: Box) {
    var p, e := b.position, Extent(b);
    InOpenInterval(t.x, p.x, e.x) && InOpenInterval(t.y, p.y, e.y) && InOpenInterval(t.z, p.z, e.z)
  }

  predicate Positive(b: Box) {
    var e := Extent(b);
    e.x > 0.0 && e.y > 0.0 && e.z > 0.0
  }

  /** The middle of the overlap of two intervals. */
  function Middle(a: real, w: real, b: real, h: real): real {
    (Max(a, b) + Min(a + w, b + h)) / 2.0
  }

  lemma IntervalsMeet(a: real, w: real, b: real, h: real)
    requires w > 0.0 && h > 0.0 && a < b + h && a + w > b
    ensures InOpenInterval(Middle(a, w, b, h), a, w) && InOpenInterval(Middle(a, w, b, h), b, h)
  {
  }

  /** The open boxes share a point exactly when the test says so and no extent is degenerate. */
  lemma BoxTestIsExact(a: Box, b: Box)
    ensures (exists t :: InOpenBox(t, a) && InOpenBox(t, b)) <==> BoxCollisions(a, b) && Positive(a) && Positive(b)
  {
    hide Extent;
    if BoxCollisions(a, b) && Positive(a) && Positive(b) {
      var p, e, q, f := a.position, Extent(a), b.position, Extent(b);
      IntervalsMeet(p.x, e.x, q.x, f.x);
      IntervalsMeet(p.y, e.y, q.y, f.y);
      IntervalsMeet(p.z, e.z, q.z, f.z);
      var t := Vector(Middle(p.x, e.x, q.x, f.x), Middle(p.y, e.y, q.y, f.y), Middle(p.z, e.z, q.z, f.z));
      assert InOpenBox(t, a) && InOpenBox(t, b);
    }
  }

  /** With a flat box the test can report a collision although nothing is shared. */
  lemma FlatBoxReported()
    ensures var unit := Vector(1.0, 1.0, 1.0);
      var flat := Box(unit, Vector(0.0, 1.0, 1.0), unit);
      var other := Box(Vector(0.0, 1.0, 1.0), Vector(2.0, 1.0, 1.0), unit);
      && BoxCollisions(flat, other) && !Positive(flat)
      && forall t :: !(InOpenBox(t, flat) && InOpenBox(t, other))
  {
    var unit := Vector(1.0, 1.0, 1.0);
    BoxTestIsExact(Box(unit, Vector(0.0, 1.0, 1.0), unit), Box(Vector(0.0, 1.0, 1.0), Vector(2.0, 1.0, 1.0), unit));
  }

  // ---------------------------------------------------------------- distances

  function Square(a: real): real {
    a * a
  }

  predicate IsSqrt(s: real, x: real) {
    s >= 0.0 && Square(s) == x
  }

  /** sqrt(x) < r, without the root. */
  predicate RootBelow(x: real, r: real) {
    r > 0.0 && x < Square(r)
  }

  lemma Product(a: real, b: real)
    requires a > 0.0 && b > 0.0
    ensures a * b > 0.0
  {
  }

  lemma ProductAtLeast(a: real, b: real)
    requires a >= 0.0 && b >= 0.0
    ensures a * b >= 0.0
  {
  }

  lemma NegativeSquare(a: real)
    ensures Square(-a) == Square(a)
  {
    var b := -a;
    assert b * b == a * a;
    assert Square(b) == b * b;
  }

  lemma SquareIsPositive(a: real)
    requires a > 0.0
    ensures Square(a) > 0.0
  {
    TimesIsPositive(a, a);
    assert Square(a) == Times(a, a);
  }

  function Times(a: real, b: real): real {
    a * b
  }

  lemma TimesIsPositive(a: real, b: real)
    requires a > 0.0 && b > 0.0
    ensures Times(a, b) > 0.0
  {
  }

  lemma SquareOfZero()
    ensures Square(0.0) == 0.0
  {
  }

  lemma SquareIsNonNegative(a: real)
    ensures Square(a) >= 0.0
    ensures Square(a) == 0.0 <==> a == 0.0
  {
    hide Square;
    SquareOfZero();
    if a > 0.0 {
      SquareIsPositive(a);
    } else if a < 0.0 {
      SquareIsPositive(-a);
      NegativeSquare(a);
    }
  }

  lemma DifferenceOfSquares(a: real, b: real)
    ensures Square(a) - Square(b) == (a - b) * (a + b)
  {
  }

  /** Squaring preserves and reflects order on non-negative numbers. */
  lemma SquareOrder(a: real, b: real)
    requires a >= 0.0 && b >= 0.0
    ensures a < b <==> Square(a) < Square(b)
  {
    hide Square;
    DifferenceOfSquares(b, a);
    if a < b {
      Product(b - a, b + a);
    } else {
      DifferenceOfSquares(a, b);
      ProductAtLeast(a - b, a + b);
    }
  }

  lemma SquareOfProduct(a: real, b: real)
    ensures Square(a * b) == Square(a) * Square(b)
  {
  }

  lemma RootBelowMeansLess(s: real, x: real, r: real)
    requires IsSqrt(s, x)
    ensures s < r <==> RootBelow(x, r)
  {
    hide Square;
    if r > 0.0 {
      SquareOrder(s, r);
    }
  }

  function DistanceSquared(a: Vector, b: Vector): real {
    Dot(Sub(a, b), Sub(a, b))
  }

  /** t lies strictly inside the sphere. */
  predicate InSphere(t: Vector, center: Vector, radius: real) {
    RootBelow(DistanceSquared(t, center), radius)
  }

  // ---------------------------------------------------------------- sphere against box

  function Clamp(lo: real, t: real, hi: real): real {
    Max(lo, Min(t, hi))
  }

  /** The point the source compares with the center. */
  function Clamped(center: Vector, b: Box): Vector {
    var p, e := b.position, Extent(b);
    Vector(Clamp(p.x, center.x, p.x + e.x), Clamp(p.y, center.y, p.y + e.y), Clamp(p.z, center.z, p.z + e.z))
  }

  predicate SphereBoxCollisions(center: Vector, radius: real, b: Box) {
    RootBelow(DistanceSquared(Clamped(center, b), center), radius)
  }

  predicate InBox(t: Vector, b: Box) {
    var p, e := b.position, Extent(b);
    p.x <= t.x <= p.x + e.x && p.y <= t.y <= p.y + e.y && p.z <= t.z <= p.z + e.z
  }

  predicate NonNegative(b: Box) {
    var e := Extent(b);
    e.x >= 0.0 && e.y >= 0.0 && e.z >= 0.0
  }

  /** The clamped coordinate is the nearest of the interval. */
  lemma ClampIsNearest(lo: real, t: real, hi: real, u: real)
    requires lo <= u <= hi
    ensures Square(Clamp(lo, t, hi) - t) <= Square(u - t)
  {
    hide Square;
    var c := Clamp(lo, t, hi);
    NegativeSquare(c - t);
    NegativeSquare(u - t);
    if c == t {
      SquareOfZero();
      SquareIsNonNegative(u - t);
    } else if c > t {
      SquareOrder(u - t, c - t);
    } else {
      SquareOrder(t - u, t - c);
    }
  }

  lemma ClampedIsNearest(center: Vector, b: Box, u: Vector)
    requires InBox(u, b)
    ensures DistanceSquared(Clamped(center, b), center) <= DistanceSquared(u, center)
  {
    hide Clamp, Extent;
    var p, e := b.position, Extent(b);
    ClampIsNearest(p.x, center.x, p.x + e.x, u.x);
    ClampIsNearest(p.y, center.y, p.y + e.y, u.y);
    ClampIsNearest(p.z, center.z, p.z + e.z, u.z);
  }

  /** Some point of the box lies strictly inside the sphere exactly when the test holds and the box is not inverted. */
  lemma SphereBoxTestIsExact(center: Vector, radius: real, b: Box)
    ensures (exists t :: InBox(t, b) && InSphere(t, center, radius)) <==>
      SphereBoxCollisions(center, radius, b) && NonNegative(b)
  {
    hide DistanceSquared, Extent;
    if SphereBoxCollisions(center, radius, b) && NonNegative(b) {
      var t := Clamped(center, b);
      assert InBox(t, b) && InSphere(t, center, radius);
    }
    forall t | InBox(t, b) && InSphere(t, center, radius)
      ensures SphereBoxCollisions(center, radius, b) && NonNegative(b)
    {
      ClampedIsNearest(center, b, t);
    }
  }

  // ---------------------------------------------------------------- sphere against sphere

  predicate SphereCollisions(c: Vector, r: real, d: Vector, s: real) {
    RootBelow(DistanceSquared(c, d), r + s)
  }

  lemma DotLinear(a: Vector, b: Vector, c: Vector, k: real)
    ensures Dot(Sub(a, b), c) == Dot(a, c) - Dot(b, c)
    ensures Dot(Plus(a, b), c) == Dot(a, c) + Dot(b, c)
    ensures Dot(Scale(k, a), c) == k * Dot(a, c)
    ensures Dot(a, b) == Dot(b, a)
  {
    assert (a.x - b.x) * c.x == a.x * c.x - b.x * c.x;
    assert (a.y - b.y) * c.y == a.y * c.y - b.y * c.y;
    assert (a.z - b.z) * c.z == a.z * c.z - b.z * c.z;
    assert (a.x + b.x) * c.x == a.x * c.x + b.x * c.x;
    assert (a.y + b.y) * c.y == a.y * c.y + b.y * c.y;
    assert (a.z + b.z) * c.z == a.z * c.z + b.z * c.z;
    assert (k * a.x) * c.x == k * (a.x * c.x);
    assert (k * a.y) * c.y == k * (a.y * c.y);
    assert (k * a.z) * c.z == k * (a.z * c.z);
    assert k * (a.x * c.x + a.y * c.y + a.z * c.z) == k * (a.x * c.x) + k * (a.y * c.y) + k * (a.z * c.z);
  }

  lemma DotIsNonNegative(a: Vector)
    ensures Dot(a, a) >= 0.0
    ensures Dot(a, a) == 0.0 <==> a == ZERO
  {
    SquareIsNonNegative(a.x);
    SquareIsNonNegative(a.y);
    SquareIsNonNegative(a.z);
  }

  function Cross(a: Vector, b: Vector): Vector {
    Vector(a.y * b.z - a.z * b.y, a.z * b.x - a.x * b.z, a.x * b.y - a.y * b.x)
  }

  /** Cauchy and Schwarz, by Lagrange's identity. */
  lemma CauchySchwarz(a: Vector, b: Vector)
    ensures Square(Dot(a, b)) <= Dot(a, a) * Dot(b, b)
  {
    hide Dot, Square, Cross;
    Lagrange(a, b);
    DotIsNonNegative(Cross(a, b));
  }

  lemma Lagrange(a: Vector, b: Vector)
    ensures Dot(a, a) * Dot(b, b) - Square(Dot(a, b)) == Dot(Cross(a, b), Cross(a, b))
  {
  }

  /** A common point brings the centers nearer than the sum of the radii. */
  lemma CommonPointMeansNear(c: Vector, r: real, d: Vector, s: real, t: Vector)
    requires InSphere(t, c, r) && InSphere(t, d, s)
    ensures SphereCollisions(c, r, d, s)
  {
    var a, b := Sub(t, c), Sub(t, d);
    assert Sub(c, d) == Sub(b, a);
    SquareOfDifference(b, a);
    CauchySchwarz(b, a);
    DotIsNonNegative(a);
    DotIsNonNegative(b);
    NearEnough(Dot(b, b), Dot(a, a), Dot(b, a), s, r);
  }

  lemma SquareOfDifference(a: Vector, b: Vector)
    ensures Dot(Sub(a, b), Sub(a, b)) == Dot(a, a) - 2.0 * Dot(a, b) + Dot(b, b)
  {
    hide Dot, Sub;
    DotLinear(a, b, Sub(a, b), 0.0);
    DotLinear(a, Sub(a, b), a, 0.0);
    DotLinear(b, Sub(a, b), b, 0.0);
    DotLinear(a, b, a, 0.0);
    DotLinear(a, b, b, 0.0);
  }

  lemma NearEnough(aa: real, bb: real, ab: real, r: real, s: real)
    requires 0.0 < r && 0.0 < s && 0.0 <= aa < Square(r) && 0.0 <= bb < Square(s) && Square(ab) <= aa * bb
    ensures aa - 2.0 * ab + bb < Square(r + s)
  {
    hide Square;
    ProductsBelow(aa, bb, Square(r), Square(s));
    Product(r, s);
    SquareOfProduct(r, s);
    NegativeSquare(ab);
    if -ab > r * s {
      SquareOrder(r * s, -ab);
    }
    SquareOfSum(r, s);
  }

  lemma SquareOfSum(r: real, s: real)
    ensures Square(r + s) == Square(r) + 2.0 * (r * s) + Square(s)
  {
  }

  lemma ProductsBelow(a: real, b: real, x: real, y: real)
    requires 0.0 <= a <= x && 0.0 <= b <= y
    ensures a * b <= x * y
  {
    ProductAtLeast(a, y - b);
    ProductAtLeast(y, x - a);
    assert a * (y - b) == a * y - a * b;
    assert y * (x - a) == x * y - a * y;
  }

  /** The point that divides the segment between the centers in the ratio of the radii. */
  function Between(c: Vector, r: real, d: Vector, s: real): Vector
    requires r + s > 0.0
  {
    Sub(c, Scale(r / (r + s), Sub(c, d)))
  }

  lemma ScaledDistance(c: Vector, d: Vector, k: real)
    ensures var t := Sub(c, Scale(k, Sub(c, d)));
      DistanceSquared(t, c) == Square(k) * DistanceSquared(c, d)
      && DistanceSquared(t, d) == Square(1.0 - k) * DistanceSquared(c, d)
  {
    var u := Sub(c, d);
    var t := Sub(c, Scale(k, u));
    assert Sub(t, c) == Scale(-k, u);
    assert Sub(t, d) == Scale(1.0 - k, u);
    hide Dot, Square, Scale, Sub;
    ScaleDot(-k, u);
    ScaleDot(1.0 - k, u);
    NegativeSquare(k);
  }

  lemma ScaleDot(k: real, u: Vector)
    ensures Dot(Scale(k, u), Scale(k, u)) == Square(k) * Dot(u, u)
  {
    ScaledSquare(k, u.x);
    ScaledSquare(k, u.y);
    ScaledSquare(k, u.z);
    assert Square(k) * Dot(u, u) == Square(k) * (u.x * u.x) + Square(k) * (u.y * u.y) + Square(k) * (u.z * u.z);
  }

  lemma ScaledSquare(k: real, a: real)
    ensures (k * a) * (k * a) == Square(k) * (a * a)
  {
  }

  lemma Larger(k: real, x: real, y: real)
    requires k > 0.0 && x < y
    ensures k * x < k * y
  {
    Product(k, y - x);
    assert k * (y - x) == k * y - k * x;
  }

  lemma Shrink(k: real, sum: real, x: real, r: real)
    requires k > 0.0 && k * sum == r && x < Square(sum)
    ensures Square(k) * x < Square(r)
  {
    hide Square;
    SquareIsPositive(k);
    Larger(Square(k), x, Square(sum));
    SquareOfProduct(k, sum);
  }

  lemma Ratio(r: real, s: real)
    requires r > 0.0 && s > 0.0
    ensures var k := r / (r + s);
      k > 0.0 && 1.0 - k > 0.0 && k * (r + s) == r && (1.0 - k) * (r + s) == s
  {
    var k := r / (r + s);
    assert k * (r + s) == r;
    assert (1.0 - k) * (r + s) == (r + s) - k * (r + s);
    assert (-k) * (r + s) == -(k * (r + s));
    assert (k - 1.0) * (r + s) == -((1.0 - k) * (r + s));
    if k <= 0.0 {
      ProductAtLeast(-k, r + s);
    } else if k >= 1.0 {
      ProductAtLeast(k - 1.0, r + s);
    }
  }

  /** Two spheres share an inner point exactly when the test holds and both radii are positive. */
  lemma SphereTestIsExact(c: Vector, r: real, d: Vector, s: real)
    ensures (exists t :: InSphere(t, c, r) && InSphere(t, d, s)) <==>
      SphereCollisions(c, r, d, s) && r > 0.0 && s > 0.0
  {
    hide DistanceSquared;
    if SphereCollisions(c, r, d, s) && r > 0.0 && s > 0.0 {
      var x, k := DistanceSquared(c, d), r / (r + s);
      Ratio(r, s);
      ScaledDistance(c, d, k);
      Shrink(k, r + s, x, r);
      Shrink(1.0 - k, r + s, x, s);
      var t := Between(c, r, d, s);
      assert InSphere(t, c, r) && InSphere(t, d, s);
    }
    forall t | InSphere(t, c, r) && InSphere(t, d, s)
      ensures SphereCollisions(c, r, d, s)
    {
      CommonPointMeansNear(c, r, d, s, t);
    }
  }

  // ---------------------------------------------------------------- reflection

  function ReflectVelocity(v: Vector, n: Vector): Vector {
    var dot := 2.0 * Dot(v, n);
    Sub(v, Scale(dot, n))
  }

  lemma ReflectDot(v: Vector, n: Vector, w: Vector)
    ensures Dot(ReflectVelocity(v, n), w) == Dot(v, w) - 2.0 * Dot(v, n) * Dot(n, w)
  {
    hide Dot, Sub, Scale;
    DotLinear(v, Scale(2.0 * Dot(v, n), n), w, 0.0);
    DotLinear(n, n, w, 2.0 * Dot(v, n));
  }

  /** How much squared speed a reflection adds. */
  lemma ReflectedSpeed(v: Vector, n: Vector)
    ensures var r := ReflectVelocity(v, n); var d := Dot(v, n);
      Dot(r, r) == Dot(v, v) + 4.0 * (d * d) * (Dot(n, n) - 1.0)
  {
    hide Dot, ReflectVelocity;
    var r, d, nn := ReflectVelocity(v, n), Dot(v, n), Dot(n, n);
    ReflectDot(v, n, r);
    ReflectDot(v, n, v);
    ReflectDot(v, n, n);
    DotLinear(v, r, v, 0.0);
    DotLinear(n, r, n, 0.0);
    DotLinear(n, v, n, 0.0);
    var rn := d - 2.0 * d * nn;
    assert Dot(r, n) == rn;
    assert Dot(r, v) == Dot(v, v) - 2.0 * d * d;
    assert Dot(r, r) == Dot(v, v) - 2.0 * d * d - 2.0 * d * rn;
    Expand(d, nn);
  }

  lemma Expand(d: real, nn: real)
    ensures 2.0 * d * d + 2.0 * d * (d - 2.0 * d * nn) == -(4.0 * (d * d) * (nn - 1.0))
  {
  }

  /** Reflection keeps the speed of every velocity exactly about unit normals, and about the zero normal. */
  lemma ReflectionKeepsSpeed(n: Vector)
    ensures (forall v :: Dot(ReflectVelocity(v, n), ReflectVelocity(v, n)) == Dot(v, v)) <==>
      Dot(n, n) == 1.0 || n == ZERO
  {
    hide Dot, ReflectVelocity;
    DotIsNonNegative(n);
    forall v
      ensures Dot(n, n) == 1.0 || n == ZERO ==> Dot(ReflectVelocity(v, n), ReflectVelocity(v, n)) == Dot(v, v)
    {
      ReflectedSpeed(v, n);
      if n == ZERO {
        DotZero(v);
      }
    }
    ReflectedSpeed(n, n);
    NonZeroProduct(Dot(n, n));
  }

  lemma DotZero(v: Vector)
    ensures Dot(v, ZERO) == 0.0
  {
  }

  lemma NonZeroProduct(a: real)
    ensures 4.0 * (a * a) * (a - 1.0) == 0.0 <==> a == 0.0 || a == 1.0
  {
    if a != 0.0 {
      SquareIsNonNegative(a);
      assert Square(a) == a * a;
      NonZeroFactor(4.0 * (a * a), a - 1.0);
    }
  }

  lemma NonZeroFactor(p: real, b: real)
    requires p > 0.0
    ensures p * b == 0.0 <==> b == 0.0
  {
    if b > 0.0 {
      Product(p, b);
    } else if b < 0.0 {
      Product(p, -b);
      assert p * -b == -(p * b);
    }
  }

  /** Reflecting twice about a unit normal gives the velocity back, and once reverses its normal component. */
  lemma ReflectionUndoesItself(v: Vector, n: Vector)
    requires Dot(n, n) == 1.0
    ensures ReflectVelocity(ReflectVelocity(v, n), n) == v
    ensures Dot(ReflectVelocity(v, n), n) == -Dot(v, n)
  {
    var r, d := ReflectVelocity(v, n), Dot(v, n);
    assert Dot(r, n) == -d by {
      hide Dot, ReflectVelocity;
      ReflectDot(v, n, n);
    }
    AddBack(v, n, 2.0 * d);
  }

  /** What is at right angles to the normal stays as it was. */
  lemma ReflectionKeepsTangents(v: Vector, n: Vector, w: Vector)
    requires Dot(n, w) == 0.0
    ensures Dot(ReflectVelocity(v, n), w) == Dot(v, w)
  {
    hide Dot, ReflectVelocity;
    ReflectDot(v, n, w);
  }

  lemma AddBack(v: Vector, n: Vector, k: real)
    ensures Sub(Sub(v, Scale(k, n)), Scale(-k, n)) == v
  {
    assert (-k) * n.x == -(k * n.x) && (-k) * n.y == -(k * n.y) && (-k) * n.z == -(k * n.z);
  }

  /** resolveSphereCollisions, given the distance it computes; at distance 0 the source divides by zero (None). */
  function ResolveSphereCollisions(c: Vector, r: real, d: Vector, s: real, distance: real): Option<Vector> {
    if distance < r + s then
      if distance == 0.0 then None
      else Some(Vector((c.x - d.x) / distance, (c.y - d.y) / distance, (c.z - d.z) / distance))
    else Some(ZERO)
  }

  lemma UnitNormal(u: Vector, distance: real)
    requires IsSqrt(distance, Dot(u, u)) && distance > 0.0
    ensures var n := Vector(u.x / distance, u.y / distance, u.z / distance); Dot(n, n) == 1.0
  {
    var n := Vector(u.x / distance, u.y / distance, u.z / distance);
    Quotient(u.x, distance);
    Quotient(u.y, distance);
    Quotient(u.z, distance);
    assert Scale(distance, n) == u;
    hide Dot, Scale, Square;
    ScaleDot(distance, n);
    SquareIsPositive(distance);
    CancelFactor(Square(distance), Dot(n, n));
  }

  /** The resolved normal is the way from the second centre to the first, cut to length one; without an overlap it is
      zero. */
  lemma NormalPointsApart(c: Vector, r: real, d: Vector, s: real, distance: real)
    requires IsSqrt(distance, DistanceSquared(c, d)) && distance > 0.0
    ensures var n := ResolveSphereCollisions(c, r, d, s, distance);
      && n.Some?
      && (if SphereCollisions(c, r, d, s) then Scale(distance, n.value) == Sub(c, d) && Dot(n.value, n.value) == 1.0
          else n.value == ZERO)
  {
    RootBelowMeansLess(distance, DistanceSquared(c, d), r + s);
    if SphereCollisions(c, r, d, s) {
      UnitNormal(Sub(c, d), distance);
      Quotient(c.x - d.x, distance);
      Quotient(c.y - d.y, distance);
      Quotient(c.z - d.z, distance);
    }
  }

  lemma Quotient(a: real, d: real)
    requires d > 0.0
    ensures d * (a / d) == a
  {
  }

  lemma CancelFactor(e: real, q: real)
    requires e > 0.0 && e * q == e
    ensures q == 1.0
  {
    assert e * (q - 1.0) == e * q - e;
    assert e * (1.0 - q) == e - e * q;
    if q > 1.0 {
      Product(e, q - 1.0);
    } else if q < 1.0 {
      Product(e, 1.0 - q);
    }
  }

  /** Two spheres that overlap at a positive distance bounce without gaining or losing speed. */
  lemma CollisionConservesSpeed(c: Vector, r: real, d: Vector, s: real, distance: real, v: Vector)
    requires IsSqrt(distance, DistanceSquared(c, d)) && distance > 0.0
    ensures var n := ResolveSphereCollisions(c, r, d, s, distance).value;
      var w := ReflectVelocity(v, n);
      Dot(w, w) == Dot(v, v) && ReflectVelocity(w, n) == v
    ensures SphereCollisions(c, r, d, s) ==> Dot(ResolveSphereCollisions(c, r, d, s, distance).value,
                                                 ResolveSphereCollisions(c, r, d, s, distance).value) == 1.0
  {
    RootBelowMeansLess(distance, DistanceSquared(c, d), r + s);
    var n := ResolveSphereCollisions(c, r, d, s, distance).value;
    if distance < r + s {
      UnitNormal(Sub(c, d), distance);
      ReflectionUndoesItself(v, n);
    } else {
      assert ReflectVelocity(v, ZERO) == v;
    }
    ReflectionKeepsSpeed(n);
  }
}
