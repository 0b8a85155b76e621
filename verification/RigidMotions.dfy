/** Rigid motions of space as matrices, and the steps they are built from. */
module RigidMotions {

  datatype Vec3 = Vec3(x: real, y: real, z: real)

  // An angle is given by its cosine and sine.
  datatype AnyAngle = Angle(c: real, s: real)
  type Angle = a: AnyAngle | a.c * a.c + a.s * a.s == 1.0 witness Angle(1.0, 0.0)

  /** The columns of the upper three rows of a 4x4 matrix whose last row is 0 0 0 1. */
  datatype Motion = Motion(c0: Vec3, c1: Vec3, c2: Vec3, p: Vec3)

  const IDENTITY := Motion(Vec3(1.0, 0.0, 0.0), Vec3(0.0, 1.0, 0.0), Vec3(0.0, 0.0, 1.0), Vec3(0.0, 0.0, 0.0))

  function Plus(a: Vec3, b: Vec3): Vec3 {
    Vec3(a.x + b.x, a.y + b.y, a.z + b.z)
  }

  function Times(k: real, a: Vec3): Vec3 {
    Vec3(k * a.x, k * a.y, k * a.z)
  }

  function Dot(a: Vec3, b: Vec3): real {
    a.x * b.x + a.y * b.y + a.z * b.z
  }

  /** k*a + l*b */
  function Mix(k: real, a: Vec3, l: real, b: Vec3): Vec3 {
    Plus(Times(k, a), Times(l, b))
  }

  // ----- The builders -----

  function Translated(m: Motion, v: Vec3): Motion {
    m.(p := Plus(m.p, Plus(Plus(Times(v.x, m.c0), Times(v.y, m.c1)), Times(v.z, m.c2))))
  }

  function RotatedX(m: Motion, a: Angle): Motion {
    m.(c1 := Mix(a.c, m.c1, a.s, m.c2), c2 := Mix(-a.s, m.c1, a.c, m.c2))
  }

  function RotatedY(m: Motion, a: Angle): Motion {
    m.(c0 := Mix(a.c, m.c0, -a.s, m.c2), c2 := Mix(a.s, m.c0, a.c, m.c2))
  }

  function RotatedZ(m: Motion, a: Angle): Motion {
    m.(c0 := Mix(a.c, m.c0, a.s, m.c1), c1 := Mix(-a.s, m.c0, a.c, m.c1))
  }

  datatype Step =
    | Translate(v: Vec3)
    | RotateX(a: Angle)
    | RotateY(a: Angle)
    | RotateZ(a: Angle)
    | DenavitHartenberg(alpha: Angle, length: real, theta: Angle, d: real)

  function Built(m: Motion, step: Step): Motion {
    match step
    case Translate(v) => Translated(m, v)
    case RotateX(a) => RotatedX(m, a)
    case RotateY(a) => RotatedY(m, a)
    case RotateZ(a) => RotatedZ(m, a)
    case DenavitHartenberg(alpha, length, theta, d) =>
      RotatedZ(Translated(RotatedX(Translated(m, Vec3(length, 0.0, 0.0)), alpha), Vec3(0.0, 0.0, d)), theta)
  }

  function BuiltBy(steps: seq<Step>): Motion {
    if steps == [] then IDENTITY else Built(BuiltBy(steps[..|steps| - 1]), steps[|steps| - 1])
  }

  // ----- Rigidity -----

  /** The columns are orthonormal. */
  ghost predicate ColumnsOrthonormal(m: Motion) {
    && Dot(m.c0, m.c0) == 1.0 && Dot(m.c1, m.c1) == 1.0 && Dot(m.c2, m.c2) == 1.0
    && Dot(m.c0, m.c1) == 0.0 && Dot(m.c0, m.c2) == 0.0 && Dot(m.c1, m.c2) == 0.0
  }

  function Row0(m: Motion): Vec3 { Vec3(m.c0.x, m.c1.x, m.c2.x) }
  function Row1(m: Motion): Vec3 { Vec3(m.c0.y, m.c1.y, m.c2.y) }
  function Row2(m: Motion): Vec3 { Vec3(m.c0.z, m.c1.z, m.c2.z) }

  ghost predicate RowsOrthonormal(m: Motion) {
    && Dot(Row0(m), Row0(m)) == 1.0 && Dot(Row1(m), Row1(m)) == 1.0 && Dot(Row2(m), Row2(m)) == 1.0
    && Dot(Row0(m), Row1(m)) == 0.0 && Dot(Row0(m), Row2(m)) == 0.0 && Dot(Row1(m), Row2(m)) == 0.0
  }

  function Cross(a: Vec3, b: Vec3): Vec3 {
    Vec3(a.y * b.z - a.z * b.y, a.z * b.x - a.x * b.z, a.x * b.y - a.y * b.x)
  }

  /** Three orthonormal vectors, right-handed. */
  ghost predicate Frame(u: Vec3, v: Vec3, w: Vec3) {
    && Dot(u, u) == 1.0 && Dot(v, v) == 1.0 && Dot(w, w) == 1.0
    && Dot(u, v) == 0.0 && Dot(u, w) == 0.0 && Dot(v, w) == 0.0
    && Cross(u, v) == w
  }

  /** Orthonormal rows and columns, and no reflection. */
  ghost predicate Rigid(m: Motion) {
    Frame(m.c0, m.c1, m.c2) && RowsOrthonormal(m)
  }

  // ----- Arithmetic -----
  // Polynomial identities, stated with names for the intermediate values.

  lemma TurnedPair(a: Angle, x: real, y: real, x': real, y': real, u: real, v: real, u': real, v': real)
    requires u == a.c * x + a.s * y && v == -a.s * x + a.c * y
    requires u' == a.c * x' + a.s * y' && v' == -a.s * x' + a.c * y'
    ensures u * u' + v * v' == x * x' + y * y'
  {
    var c, s := a.c, a.s;
    assert (c * x + s * y) * (c * x' + s * y')
           == (c * c) * (x * x') + (c * s) * (x * y') + (c * s) * (y * x') + (s * s) * (y * y');
    assert (-s * x + c * y) * (-s * x' + c * y')
           == (s * s) * (x * x') - (c * s) * (x * y') - (c * s) * (y * x') + (c * c) * (y * y');
    assert (c * c) * (x * x') + (s * s) * (x * x') == (c * c + s * s) * (x * x');
    assert (c * c) * (y * y') + (s * s) * (y * y') == (c * c + s * s) * (y * y');
  }

  lemma TwiceScaledTerm(a: Angle, x: real, y: real, z: real)
    requires y == a.c * x && z == a.s * x
    ensures a.c * y + a.s * z == x
  {
    assert a.c * (a.c * x) + a.s * (a.s * x) == (a.c * a.c + a.s * a.s) * x;
  }

  lemma MixedTerm(k: real, a: real, a': real, l: real, b: real, b': real, u: real, u': real, m: real, m': real, p: real,
                  q: real)
    requires m == k * a + l * b && m' == k * a' + l * b'
    requires p == a * u' - a' * u && q == b * u' - b' * u
    ensures m * u' - m' * u == k * p + l * q
  {
    assert (k * a + l * b) * u' == k * (a * u') + l * (b * u');
    assert (k * a' + l * b') * u == k * (a' * u) + l * (b' * u);
    assert k * (a * u' - a' * u) == k * (a * u') - k * (a' * u);
    assert l * (b * u' - b' * u) == l * (b * u') - l * (b' * u);
  }

  lemma AgainTerm(x: real, y: real, z: real, p: real, q: real, r: real, e: real, f: real, uv: real, uu: real)
    requires e == x * q - y * p && f == z * p - x * r
    requires uv == x * p + y * q + z * r && uu == x * x + y * y + z * z
    ensures y * e - z * f == uv * x - uu * p
  {
    assert y * (x * q - y * p) == x * y * q - y * y * p;
    assert z * (z * p - x * r) == z * z * p - x * z * r;
    assert (x * p + y * q + z * r) * x == x * x * p + x * y * q + x * z * r;
    assert (x * x + y * y + z * z) * p == x * x * p + y * y * p + z * z * p;
  }

  lemma BackTerm(x: real, y: real, z: real, p: real, q: real, r: real, e: real, f: real, uv: real, vv: real)
    requires e == x * q - y * p && f == z * p - x * r
    requires uv == x * p + y * q + z * r && vv == p * p + q * q + r * r
    ensures q * e - r * f == vv * x - uv * p
  {
    assert q * (x * q - y * p) == q * q * x - y * q * p;
    assert r * (z * p - x * r) == z * r * p - r * r * x;
    assert (p * p + q * q + r * r) * x == p * p * x + q * q * x + r * r * x;
    assert (x * p + y * q + z * r) * p == p * p * x + y * q * p + z * r * p;
  }

  /** A sum of nine products, summed by columns first or by rows first. */
  lemma NineTerms(a: Vec3, b: Vec3, c: Vec3, v: Vec3, m: Vec3, t: Vec3, s: Vec3)
    requires t.x == v.x * a.x + v.y * b.x + v.z * c.x
    requires t.y == v.x * a.y + v.y * b.y + v.z * c.y
    requires t.z == v.x * a.z + v.y * b.z + v.z * c.z
    requires s.x == a.x * m.x + a.y * m.y + a.z * m.z
    requires s.y == b.x * m.x + b.y * m.y + b.z * m.z
    requires s.z == c.x * m.x + c.y * m.y + c.z * m.z
    ensures t.x * m.x + t.y * m.y + t.z * m.z == v.x * s.x + v.y * s.y + v.z * s.z
  {
    ThreeTerms(v.x, v.y, v.z, a.x, b.x, c.x, m.x);
    ThreeTerms(v.x, v.y, v.z, a.y, b.y, c.y, m.y);
    ThreeTerms(v.x, v.y, v.z, a.z, b.z, c.z, m.z);
    FactorOut(v.x, a, m);
    FactorOut(v.y, b, m);
    FactorOut(v.z, c, m);
  }

  lemma ThreeTerms(x: real, y: real, z: real, a: real, b: real, c: real, m: real)
    ensures (x * a + y * b + z * c) * m == x * (a * m) + y * (b * m) + z * (c * m)
  {
  }

  lemma FactorOut(x: real, a: Vec3, m: Vec3)
    ensures x * (a.x * m.x + a.y * m.y + a.z * m.z) == x * (a.x * m.x) + x * (a.y * m.y) + x * (a.z * m.z)
  {
  }

  lemma MixDot(k: real, a: Vec3, l: real, b: Vec3, u: Vec3)
    ensures Dot(Mix(k, a, l, b), u) == k * Dot(a, u) + l * Dot(b, u)
    ensures Dot(u, Mix(k, a, l, b)) == k * Dot(u, a) + l * Dot(u, b)
  {
  }

  /** Turning two orthonormal vectors in their plane leaves them orthonormal, and orthogonal to
      whatever they were orthogonal to. */
  lemma TurnKeepsColumns(a: Angle, u: Vec3, v: Vec3, w: Vec3)
    requires Dot(u, u) == 1.0 && Dot(v, v) == 1.0 && Dot(u, v) == 0.0 && Dot(u, w) == 0.0 && Dot(v, w) == 0.0
    ensures var u', v' := Mix(a.c, u, a.s, v), Mix(-a.s, u, a.c, v);
      && Dot(u', u') == 1.0 && Dot(v', v') == 1.0 && Dot(u', v') == 0.0
      && Dot(u', w) == 0.0 && Dot(v', w) == 0.0
  {
    var u', v' := Mix(a.c, u, a.s, v), Mix(-a.s, u, a.c, v);
    MixDot(a.c, u, a.s, v, w);
    MixDot(-a.s, u, a.c, v, w);
    MixDot(a.c, u, a.s, v, u);
    MixDot(a.c, u, a.s, v, v);
    MixDot(a.c, u, a.s, v, u');
    MixDot(a.c, u, a.s, v, v');
    MixDot(-a.s, u, a.c, v, u);
    MixDot(-a.s, u, a.c, v, v);
    MixDot(-a.s, u, a.c, v, v');
  }

  /** What turning about an axis does to one row. */
  function TurnedRowX(a: Angle, r: Vec3): Vec3 { Vec3(r.x, a.c * r.y + a.s * r.z, -a.s * r.y + a.c * r.z) }
  function TurnedRowY(a: Angle, r: Vec3): Vec3 { Vec3(-a.s * r.z + a.c * r.x, r.y, a.c * r.z + a.s * r.x) }
  function TurnedRowZ(a: Angle, r: Vec3): Vec3 { Vec3(a.c * r.x + a.s * r.y, -a.s * r.x + a.c * r.y, r.z) }

  lemma TurnKeepsRowDotX(a: Angle, r: Vec3, q: Vec3)
    ensures Dot(TurnedRowX(a, r), TurnedRowX(a, q)) == Dot(r, q)
  {
    TurnedPair(a, r.y, r.z, q.y, q.z, TurnedRowX(a, r).y, TurnedRowX(a, r).z, TurnedRowX(a, q).y, TurnedRowX(a, q).z);
  }

  lemma TurnKeepsRowDotY(a: Angle, r: Vec3, q: Vec3)
    ensures Dot(TurnedRowY(a, r), TurnedRowY(a, q)) == Dot(r, q)
  {
    TurnedPair(a, r.z, r.x, q.z, q.x, TurnedRowY(a, r).z, TurnedRowY(a, r).x, TurnedRowY(a, q).z, TurnedRowY(a, q).x);
  }

  lemma TurnKeepsRowDotZ(a: Angle, r: Vec3, q: Vec3)
    ensures Dot(TurnedRowZ(a, r), TurnedRowZ(a, q)) == Dot(r, q)
  {
    TurnedPair(a, r.x, r.y, q.x, q.y, TurnedRowZ(a, r).x, TurnedRowZ(a, r).y, TurnedRowZ(a, q).x, TurnedRowZ(a, q).y);
  }

  lemma TurnKeepsRowDot(a: Angle, r: Vec3, q: Vec3)
    ensures Dot(TurnedRowX(a, r), TurnedRowX(a, q)) == Dot(r, q)
    ensures Dot(TurnedRowY(a, r), TurnedRowY(a, q)) == Dot(r, q)
    ensures Dot(TurnedRowZ(a, r), TurnedRowZ(a, q)) == Dot(r, q)
  {
    hide Dot, TurnedRowX, TurnedRowY, TurnedRowZ;
    TurnKeepsRowDotX(a, r, q);
    TurnKeepsRowDotY(a, r, q);
    TurnKeepsRowDotZ(a, r, q);
  }

  lemma TurnedRowsX(m: Motion, a: Angle)
    ensures var r := RotatedX(m, a);
      Row0(r) == TurnedRowX(a, Row0(m)) && Row1(r) == TurnedRowX(a, Row1(m)) && Row2(r) == TurnedRowX(a, Row2(m))
  {
  }

  lemma TurnedRowsY(m: Motion, a: Angle)
    ensures var r := RotatedY(m, a);
      Row0(r) == TurnedRowY(a, Row0(m)) && Row1(r) == TurnedRowY(a, Row1(m)) && Row2(r) == TurnedRowY(a, Row2(m))
  {
  }

  lemma TurnedRowsZ(m: Motion, a: Angle)
    ensures var r := RotatedZ(m, a);
      Row0(r) == TurnedRowZ(a, Row0(m)) && Row1(r) == TurnedRowZ(a, Row1(m)) && Row2(r) == TurnedRowZ(a, Row2(m))
  {
  }

  /** A turn leaves the rows orthonormal, because it turns every row alike. */
  lemma TurnKeepsRows(m: Motion, a: Angle)
    requires RowsOrthonormal(m)
    ensures RowsOrthonormal(RotatedX(m, a)) && RowsOrthonormal(RotatedY(m, a)) && RowsOrthonormal(RotatedZ(m, a))
  {
    hide Dot, Row0, Row1, Row2, RotatedX, RotatedY, RotatedZ, TurnedRowX, TurnedRowY, TurnedRowZ;
    TurnedRowsX(m, a);
    TurnedRowsY(m, a);
    TurnedRowsZ(m, a);
    TurnKeepsRowDot(a, Row0(m), Row0(m));
    TurnKeepsRowDot(a, Row1(m), Row1(m));
    TurnKeepsRowDot(a, Row2(m), Row2(m));
    TurnKeepsRowDot(a, Row0(m), Row1(m));
    TurnKeepsRowDot(a, Row0(m), Row2(m));
    TurnKeepsRowDot(a, Row1(m), Row2(m));
  }

  // ----- Orientation -----

  lemma CrossMixLeft(k: real, a: Vec3, l: real, b: Vec3, u: Vec3)
    ensures Cross(Mix(k, a, l, b), u) == Mix(k, Cross(a, u), l, Cross(b, u))
  {
    hide Cross, Mix;
    var m, p, q := Mix(k, a, l, b), Cross(a, u), Cross(b, u);
    MixIs(k, a, l, b);
    CrossIs(a, u);
    CrossIs(b, u);
    CrossIs(m, u);
    MixIs(k, p, l, q);
    MixedTerm(k, a.y, a.z, l, b.y, b.z, u.y, u.z, m.y, m.z, p.x, q.x);
    MixedTerm(k, a.z, a.x, l, b.z, b.x, u.z, u.x, m.z, m.x, p.y, q.y);
    MixedTerm(k, a.x, a.y, l, b.x, b.y, u.x, u.y, m.x, m.y, p.z, q.z);
  }

  lemma CrossIs(u: Vec3, v: Vec3)
    ensures Cross(u, v) == Vec3(u.y * v.z - u.z * v.y, u.z * v.x - u.x * v.z, u.x * v.y - u.y * v.x)
  {
  }

  lemma MixIs(k: real, a: Vec3, l: real, b: Vec3)
    ensures Mix(k, a, l, b) == Vec3(k * a.x + l * b.x, k * a.y + l * b.y, k * a.z + l * b.z)
  {
  }

  lemma CrossSwaps(u: Vec3, v: Vec3)
    ensures Cross(u, v) == Times(-1.0, Cross(v, u))
  {
  }

  lemma MixNegates(k: real, p: Vec3, l: real, q: Vec3)
    ensures Times(-1.0, Mix(k, p, l, q)) == Mix(k, Times(-1.0, p), l, Times(-1.0, q))
  {
  }

  lemma CrossMixRight(u: Vec3, k: real, a: Vec3, l: real, b: Vec3)
    ensures Cross(u, Mix(k, a, l, b)) == Mix(k, Cross(u, a), l, Cross(u, b))
  {
    hide Cross, Mix, Times;
    CrossMixLeft(k, a, l, b, u);
    CrossSwaps(u, Mix(k, a, l, b));
    CrossSwaps(u, a);
    CrossSwaps(u, b);
    MixNegates(k, Cross(a, u), l, Cross(b, u));
  }

  function Shift(v: Vec3): Vec3 {
    Vec3(v.y, v.z, v.x)
  }

  lemma ShiftKeeps(u: Vec3, v: Vec3)
    ensures Cross(Shift(u), Shift(v)) == Shift(Cross(u, v))
    ensures Dot(Shift(u), Shift(v)) == Dot(u, v)
  {
  }

  lemma CrossAgainX(u: Vec3, v: Vec3, w: Vec3)
    requires w == Cross(u, v)
    ensures Cross(u, w).x == Dot(u, v) * u.x - Dot(u, u) * v.x
  {
    AgainTerm(u.x, u.y, u.z, v.x, v.y, v.z, w.z, w.y, Dot(u, v), Dot(u, u));
  }

  lemma CrossBackX(u: Vec3, v: Vec3, w: Vec3)
    requires w == Cross(u, v)
    ensures Cross(v, w).x == Dot(v, v) * u.x - Dot(u, v) * v.x
  {
    assert w.z == u.x * v.y - u.y * v.x && w.y == u.z * v.x - u.x * v.z;
    BackTerm(u.x, u.y, u.z, v.x, v.y, v.z, w.z, w.y, Dot(u, v), Dot(v, v));
  }

  lemma CrossAgainY(u: Vec3, v: Vec3, w: Vec3)
    requires w == Cross(u, v)
    ensures Cross(u, w).y == Dot(u, v) * u.y - Dot(u, u) * v.y
    ensures Cross(v, w).y == Dot(v, v) * u.y - Dot(u, v) * v.y
  {
    ShiftKeeps(u, v);
    ShiftKeeps(u, u);
    ShiftKeeps(v, v);
    ShiftKeeps(u, w);
    ShiftKeeps(v, w);
    CrossAgainX(Shift(u), Shift(v), Shift(w));
    CrossBackX(Shift(u), Shift(v), Shift(w));
  }

  /** The double cross product, taken apart. */
  lemma CrossAgain(u: Vec3, v: Vec3, w: Vec3)
    requires w == Cross(u, v)
    ensures Cross(u, w) == Mix(Dot(u, v), u, -Dot(u, u), v)
    ensures Cross(v, w) == Mix(Dot(v, v), u, -Dot(u, v), v)
  {
    CrossAgainX(u, v, w);
    CrossBackX(u, v, w);
    CrossAgainY(u, v, w);
    ShiftKeeps(u, v);
    ShiftKeeps(u, u);
    ShiftKeeps(v, v);
    ShiftKeeps(u, w);
    ShiftKeeps(v, w);
    CrossAgainY(Shift(u), Shift(v), Shift(w));
  }

  /** In a right-handed orthonormal frame each vector is the cross product of the next two. */
  lemma FrameTurns(u: Vec3, v: Vec3, w: Vec3)
    requires Dot(u, u) == 1.0 && Dot(v, v) == 1.0 && Dot(u, v) == 0.0 && Cross(u, v) == w
    ensures Cross(v, w) == u && Cross(w, u) == v
  {
    CrossAgain(u, v, w);
    assert Mix(1.0, u, 0.0, v) == u;
    assert Mix(0.0, u, -1.0, v) == Times(-1.0, v);
    assert Cross(w, u) == Times(-1.0, Cross(u, w));
  }

  lemma TurnKeepsCross(a: Angle, u: Vec3, v: Vec3)
    ensures Cross(Mix(a.c, u, a.s, v), Mix(-a.s, u, a.c, v)) == Cross(u, v)
  {
    hide Cross, Mix, Times;
    var w, v' := Cross(u, v), Mix(-a.s, u, a.c, v);
    CrossMixLeft(a.c, u, a.s, v, v');
    CrossMixRight(u, -a.s, u, a.c, v);
    CrossMixRight(v, -a.s, u, a.c, v);
    CrossSelf(u, v);
    MixWithNone(-a.s, a.c, w);
    TwiceScaled(a, w);
  }

  lemma CrossSelf(u: Vec3, v: Vec3)
    ensures Cross(u, u) == Vec3(0.0, 0.0, 0.0) && Cross(v, v) == Vec3(0.0, 0.0, 0.0)
    ensures Cross(v, u) == Times(-1.0, Cross(u, v))
  {
  }

  lemma MixWithNone(k: real, l: real, w: Vec3)
    ensures Mix(k, Vec3(0.0, 0.0, 0.0), l, w) == Times(l, w)
    ensures Mix(k, Times(-1.0, w), l, Vec3(0.0, 0.0, 0.0)) == Times(-k, w)
  {
  }

  lemma TwiceScaled(a: Angle, w: Vec3)
    ensures Mix(a.c, Times(a.c, w), a.s, Times(a.s, w)) == w
  {
    TwiceScaledTerm(a, w.x, a.c * w.x, a.s * w.x);
    TwiceScaledTerm(a, w.y, a.c * w.y, a.s * w.y);
    TwiceScaledTerm(a, w.z, a.c * w.z, a.s * w.z);
  }

  lemma FrameCycles(u: Vec3, v: Vec3, w: Vec3)
    requires Frame(u, v, w)
    ensures Frame(v, w, u)
  {
    FrameTurns(u, v, w);
  }

  lemma TurnKeepsFrame(a: Angle, u: Vec3, v: Vec3, w: Vec3)
    requires Frame(u, v, w)
    ensures Frame(Mix(a.c, u, a.s, v), Mix(-a.s, u, a.c, v), w)
  {
    TurnKeepsColumns(a, u, v, w);
    TurnKeepsCross(a, u, v);
  }

  lemma TurnColumnsX(m: Motion, a: Angle)
    requires Frame(m.c0, m.c1, m.c2)
    ensures var r := RotatedX(m, a); Frame(r.c0, r.c1, r.c2)
  {
    hide Dot, Cross, Mix;
    var u', v' := Mix(a.c, m.c1, a.s, m.c2), Mix(-a.s, m.c1, a.c, m.c2);
    FrameCycles(m.c0, m.c1, m.c2);
    TurnKeepsFrame(a, m.c1, m.c2, m.c0);
    FrameCycles(u', v', m.c0);
    FrameCycles(v', m.c0, u');
  }

  lemma TurnColumnsY(m: Motion, a: Angle)
    requires Frame(m.c0, m.c1, m.c2)
    ensures var r := RotatedY(m, a); Frame(r.c0, r.c1, r.c2)
  {
    hide Dot, Cross, Mix;
    var u', v' := Mix(a.c, m.c2, a.s, m.c0), Mix(-a.s, m.c2, a.c, m.c0);
    FrameCycles(m.c0, m.c1, m.c2);
    FrameCycles(m.c1, m.c2, m.c0);
    TurnKeepsFrame(a, m.c2, m.c0, m.c1);
    FrameCycles(u', v', m.c1);
    MixSwaps(a, m.c2, m.c0);
  }

  lemma MixSwaps(a: Angle, u: Vec3, v: Vec3)
    ensures Mix(a.c, u, a.s, v) == Mix(a.s, v, a.c, u)
    ensures Mix(-a.s, u, a.c, v) == Mix(a.c, v, -a.s, u)
  {
  }

  lemma TurnColumnsZ(m: Motion, a: Angle)
    requires Frame(m.c0, m.c1, m.c2)
    ensures var r := RotatedZ(m, a); Frame(r.c0, r.c1, r.c2)
  {
    hide Dot, Cross, Mix;
    TurnKeepsFrame(a, m.c0, m.c1, m.c2);
  }

  lemma RotationIsRigid(m: Motion, a: Angle)
    requires Rigid(m)
    ensures Rigid(RotatedX(m, a)) && Rigid(RotatedY(m, a)) && Rigid(RotatedZ(m, a))
  {
    hide Frame, RowsOrthonormal, RotatedX, RotatedY, RotatedZ;
    TurnColumnsX(m, a);
    TurnColumnsY(m, a);
    TurnColumnsZ(m, a);
    TurnKeepsRows(m, a);
  }

  lemma TranslationIsRigid(m: Motion, v: Vec3)
    requires Rigid(m)
    ensures Rigid(Translated(m, v))
  {
    hide Frame, Dot;
    assert Row0(Translated(m, v)) == Row0(m) && Row1(Translated(m, v)) == Row1(m) && Row2(Translated(m, v)) == Row2(m);
  }

  lemma StepIsRigid(m: Motion, step: Step)
    requires Rigid(m)
    ensures Rigid(Built(m, step))
  {
    hide Rigid, Translated, RotatedX, RotatedY, RotatedZ;
    match step
    case Translate(v) => TranslationIsRigid(m, v);
    case RotateX(a) => RotationIsRigid(m, a);
    case RotateY(a) => RotationIsRigid(m, a);
    case RotateZ(a) => RotationIsRigid(m, a);
    case DenavitHartenberg(alpha, length, theta, d) =>
      var moved := Translated(m, Vec3(length, 0.0, 0.0));
      TranslationIsRigid(m, Vec3(length, 0.0, 0.0));
      RotationIsRigid(moved, alpha);
      TranslationIsRigid(RotatedX(moved, alpha), Vec3(0.0, 0.0, d));
      RotationIsRigid(Translated(RotatedX(moved, alpha), Vec3(0.0, 0.0, d)), theta);
  }

  lemma IdentityIsRigid()
    ensures Rigid(IDENTITY)
  {
  }

  /** Whatever is built from the identity is rigid. */
  lemma {:induction false} BuiltIsRigid(steps: seq<Step>)
    ensures Rigid(BuiltBy(steps))
  {
    hide Rigid, Built;
    if steps == [] {
      IdentityIsRigid();
    } else {
      BuiltIsRigid(steps[..|steps| - 1]);
      StepIsRigid(BuiltBy(steps[..|steps| - 1]), steps[|steps| - 1]);
    }
  }

  // ----- Products and inverses -----

  function Turned(m: Motion, v: Vec3): Vec3 {
    Plus(Plus(Times(v.x, m.c0), Times(v.y, m.c1)), Times(v.z, m.c2))
  }

  function Applied(m: Motion, v: Vec3): Vec3 {
    Plus(Turned(m, v), m.p)
  }

  function Product(m: Motion, n: Motion): Motion {
    Motion(Turned(m, n.c0), Turned(m, n.c1), Turned(m, n.c2), Applied(m, n.p))
  }

  function Inverse(m: Motion): Motion {
    Motion(Row0(m), Row1(m), Row2(m), Vec3(-Dot(m.c0, m.p), -Dot(m.c1, m.p), -Dot(m.c2, m.p)))
  }

  lemma TurnedDot(m: Motion, d: Vec3, c: Vec3)
    ensures Dot(Turned(m, d), c) == d.x * Dot(m.c0, c) + d.y * Dot(m.c1, c) + d.z * Dot(m.c2, c)
  {
    NineTerms(m.c0, m.c1, m.c2, d, c, Turned(m, d), Vec3(Dot(m.c0, c), Dot(m.c1, c), Dot(m.c2, c)));
  }

  lemma TurnedByRows(m: Motion, v: Vec3)
    ensures Turned(m, v) == Vec3(Dot(v, Row0(m)), Dot(v, Row1(m)), Dot(v, Row2(m)))
  {
  }

  lemma TurnedByColumns(m: Motion, v: Vec3)
    ensures Turned(m, v).x == v.x * m.c0.x + v.y * m.c1.x + v.z * m.c2.x
    ensures Turned(m, v).y == v.x * m.c0.y + v.y * m.c1.y + v.z * m.c2.y
    ensures Turned(m, v).z == v.x * m.c0.z + v.y * m.c1.z + v.z * m.c2.z
  {
  }

  lemma TurnedTwice(m: Motion, n: Motion, v: Vec3)
    ensures Turned(Product(m, n), v) == Turned(m, Turned(n, v))
  {
    hide Dot, Turned, Row0, Row1, Row2, Applied;
    TurnedByColumns(Product(m, n), v);
    TurnedByRows(m, n.c0);
    TurnedByRows(m, n.c1);
    TurnedByRows(m, n.c2);
    TurnedByRows(m, Turned(n, v));
    TurnedDot(n, v, Row0(m));
    TurnedDot(n, v, Row1(m));
    TurnedDot(n, v, Row2(m));
  }

  lemma TurnedSumTerm(a: Vec3, v: Vec3, w: Vec3, s: Vec3)
    requires s.x == v.x + w.x && s.y == v.y + w.y && s.z == v.z + w.z
    ensures s.x * a.x + s.y * a.y + s.z * a.z
            == (v.x * a.x + v.y * a.y + v.z * a.z) + (w.x * a.x + w.y * a.y + w.z * a.z)
  {
  }

  lemma TurnedSum(m: Motion, v: Vec3, w: Vec3)
    ensures Turned(m, Plus(v, w)) == Plus(Turned(m, v), Turned(m, w))
  {
    TurnedSumTerm(Row0(m), v, w, Plus(v, w));
    TurnedSumTerm(Row1(m), v, w, Plus(v, w));
    TurnedSumTerm(Row2(m), v, w, Plus(v, w));
  }

  /** A product applied is one factor applied after the other. */
  lemma ProductApplied(m: Motion, n: Motion, v: Vec3)
    ensures Turned(Product(m, n), v) == Turned(m, Turned(n, v))
    ensures Applied(Product(m, n), v) == Applied(m, Applied(n, v))
  {
    TurnedTwice(m, n, v);
    TurnedSum(m, Turned(n, v), n.p);
  }

  lemma ProductAssociates(m: Motion, n: Motion, k: Motion)
    ensures Product(Product(m, n), k) == Product(m, Product(n, k))
  {
    ProductApplied(m, n, k.c0);
    ProductApplied(m, n, k.c1);
    ProductApplied(m, n, k.c2);
    ProductApplied(m, n, k.p);
  }

  lemma TurnedInverse(m: Motion, v: Vec3)
    ensures Turned(Inverse(m), v) == Vec3(Dot(m.c0, v), Dot(m.c1, v), Dot(m.c2, v))
  {
  }

  /** The inverse undoes a motion from the left exactly when the motion's columns are orthonormal. */
  lemma InverseFromLeft(m: Motion)
    ensures Product(Inverse(m), m) == IDENTITY <==> ColumnsOrthonormal(m)
  {
    TurnedInverse(m, m.c0);
    TurnedInverse(m, m.c1);
    TurnedInverse(m, m.c2);
    TurnedInverse(m, m.p);
  }

  /** It undoes it from the right exactly when the rows are. */
  lemma InverseFromRight(m: Motion)
    ensures Product(m, Inverse(m)) == IDENTITY <==> RowsOrthonormal(m)
  {
    hide Dot, Turned, Row0, Row1, Row2, Times, Plus;
    TurnedByRows(m, Row0(m));
    TurnedByRows(m, Row1(m));
    TurnedByRows(m, Row2(m));
    DotCommutes(Row0(m), Row1(m));
    DotCommutes(Row0(m), Row2(m));
    DotCommutes(Row1(m), Row2(m));
    if RowsOrthonormal(m) {
      TurnedBack(m);
      TakenBack(m.p);
    }
  }

  lemma TakenBack(v: Vec3)
    ensures Plus(Times(-1.0, v), v) == Vec3(0.0, 0.0, 0.0)
  {
  }

  lemma TurnedBack(m: Motion)
    requires RowsOrthonormal(m)
    ensures Turned(m, Inverse(m).p) == Times(-1.0, m.p)
  {
    var r0, r1, r2, q := Row0(m), Row1(m), Row2(m), Inverse(m).p;
    var p := Times(-1.0, m.p);
    NineTerms(r0, r1, r2, p, r0, q, Vec3(Dot(r0, r0), Dot(r1, r0), Dot(r2, r0)));
    NineTerms(r0, r1, r2, p, r1, q, Vec3(Dot(r0, r1), Dot(r1, r1), Dot(r2, r1)));
    NineTerms(r0, r1, r2, p, r2, q, Vec3(Dot(r0, r2), Dot(r1, r2), Dot(r2, r2)));
  }

  lemma TimesUnits(v: Vec3)
    ensures Times(1.0, v) == v && Times(0.0, v) == Vec3(0.0, 0.0, 0.0)
  {
  }

  lemma TurnedUnits(m: Motion)
    ensures Turned(m, Vec3(1.0, 0.0, 0.0)) == m.c0 && Turned(m, Vec3(0.0, 1.0, 0.0)) == m.c1
    ensures Turned(m, Vec3(0.0, 0.0, 1.0)) == m.c2 && Turned(m, Vec3(0.0, 0.0, 0.0)) == Vec3(0.0, 0.0, 0.0)
  {
    hide Times;
    TimesUnits(m.c0);
    TimesUnits(m.c1);
    TimesUnits(m.c2);
  }

  lemma TurnedInPlane(m: Motion, k: real, l: real)
    ensures Turned(m, Vec3(0.0, k, l)) == Mix(k, m.c1, l, m.c2)
    ensures Turned(m, Vec3(k, 0.0, l)) == Mix(k, m.c0, l, m.c2)
    ensures Turned(m, Vec3(k, l, 0.0)) == Mix(k, m.c0, l, m.c1)
  {
  }

  lemma TranslateIsProduct(m: Motion, v: Vec3)
    ensures Translated(m, v) == Product(m, Translated(IDENTITY, v))
  {
    UnitTranslation(v);
    TurnedUnits(m);
    hide Times, Translated;
    TranslatedBy(m, v);
  }

  lemma TranslatedBy(m: Motion, v: Vec3)
    ensures Translated(m, v) == m.(p := Applied(m, v))
  {
    hide Times;
  }

  lemma UnitTranslation(v: Vec3)
    ensures Translated(IDENTITY, v) == IDENTITY.(p := v)
  {
  }

  lemma RotateXIsProduct(m: Motion, a: Angle)
    ensures RotatedX(m, a) == Product(m, RotatedX(IDENTITY, a))
  {
    hide Turned, Mix, RotatedX;
    ThenTurned(IDENTITY, a);
    TurnIsX(m, a);
    TurnedUnits(m);
    TurnedInPlane(m, a.c, a.s);
    TurnedInPlane(m, -a.s, a.c);
    NoShift(m);
  }

  lemma NoShift(m: Motion)
    ensures Applied(m, Vec3(0.0, 0.0, 0.0)) == m.p
  {
    TurnedUnits(m);
    hide Turned;
  }

  lemma TurnIsX(m: Motion, a: Angle)
    ensures RotatedX(m, a) == m.(c1 := Mix(a.c, m.c1, a.s, m.c2), c2 := Mix(-a.s, m.c1, a.c, m.c2))
  {
    hide Mix;
  }

  lemma TurnIsY(m: Motion, a: Angle)
    ensures RotatedY(m, a) == m.(c0 := Mix(a.c, m.c0, -a.s, m.c2), c2 := Mix(a.s, m.c0, a.c, m.c2))
  {
    hide Mix;
  }

  lemma TurnIsZ(m: Motion, a: Angle)
    ensures RotatedZ(m, a) == m.(c0 := Mix(a.c, m.c0, a.s, m.c1), c1 := Mix(-a.s, m.c0, a.c, m.c1))
  {
    hide Mix;
  }

  lemma UnitTurnY(a: Angle)
    ensures RotatedY(IDENTITY, a) == IDENTITY.(c0 := Vec3(a.c, 0.0, -a.s), c2 := Vec3(a.s, 0.0, a.c))
  {
  }

  lemma UnitTurnZ(a: Angle)
    ensures RotatedZ(IDENTITY, a) == IDENTITY.(c0 := Vec3(a.c, a.s, 0.0), c1 := Vec3(-a.s, a.c, 0.0))
  {
  }

  lemma RotateYIsProduct(m: Motion, a: Angle)
    ensures RotatedY(m, a) == Product(m, RotatedY(IDENTITY, a))
  {
    hide Turned, Mix, RotatedY;
    UnitTurnY(a);
    TurnIsY(m, a);
    TurnedUnits(m);
    TurnedInPlane(m, a.c, -a.s);
    TurnedInPlane(m, a.s, a.c);
    NoShift(m);
  }

  lemma RotateZIsProduct(m: Motion, a: Angle)
    ensures RotatedZ(m, a) == Product(m, RotatedZ(IDENTITY, a))
  {
    hide Turned, Mix, RotatedZ;
    UnitTurnZ(a);
    TurnIsZ(m, a);
    TurnedUnits(m);
    TurnedInPlane(m, a.c, a.s);
    TurnedInPlane(m, -a.s, a.c);
    NoShift(m);
  }

  /** Each builder multiplies by its own step from the right. */
  lemma StepIsProduct(m: Motion, step: Step)
    requires !step.DenavitHartenberg?
    ensures Built(m, step) == Product(m, Built(IDENTITY, step))
  {
    match step
    case Translate(v) => TranslateIsProduct(m, v);
    case RotateX(a) => RotateXIsProduct(m, a);
    case RotateY(a) => RotateYIsProduct(m, a);
    case RotateZ(a) => RotateZIsProduct(m, a);
  }

  lemma ProductWithIdentity(m: Motion)
    ensures Product(m, IDENTITY) == m
  {
    TurnedUnits(m);
    NoShift(m);
    hide Turned;
  }

  /** Building on with more steps multiplies by what those steps build on their own. */
  lemma {:induction false} StepsMultiply(a: seq<Step>, b: seq<Step>)
    ensures BuiltBy(a + b) == Product(BuiltBy(a), BuiltBy(b))
    decreases |b|
  {
    hide Product, Built;
    if b == [] {
      assert a + b == a;
      ProductWithIdentity(BuiltBy(a));
    } else {
      var front, last := b[..|b| - 1], b[|b| - 1];
      assert (a + b)[..|a + b| - 1] == a + front;
      StepsMultiply(a, front);
      AnyStepIsProduct(BuiltBy(a + front), last);
      AnyStepIsProduct(BuiltBy(front), last);
      ProductAssociates(BuiltBy(a), BuiltBy(front), Built(IDENTITY, last));
    }
  }

  lemma AnyStepIsProduct(m: Motion, step: Step)
    ensures Built(m, step) == Product(m, Built(IDENTITY, step))
  {
    if step.DenavitHartenberg? {
      var s1, s2, s3, s4 := Translate(Vec3(step.length, 0.0, 0.0)), RotateX(step.alpha),
        Translate(Vec3(0.0, 0.0, step.d)), RotateZ(step.theta);
      FourSteps(m, s1, s2, s3, s4);
      FourSteps(IDENTITY, s1, s2, s3, s4);
    } else {
      StepIsProduct(m, step);
    }
  }

  lemma FourSteps(m: Motion, s1: Step, s2: Step, s3: Step, s4: Step)
    requires !s1.DenavitHartenberg? && !s2.DenavitHartenberg? && !s3.DenavitHartenberg? && !s4.DenavitHartenberg?
    ensures Built(Built(Built(Built(m, s1), s2), s3), s4)
         == Product(m, Built(Built(Built(Built(IDENTITY, s1), s2), s3), s4))
  {
    var i1 := Built(IDENTITY, s1);
    var i2, i3 := Built(i1, s2), Built(Built(i1, s2), s3);
    StepIsProduct(m, s1);
    StepIsProduct(Built(m, s1), s2);
    StepIsProduct(i1, s2);
    ProductAssociates(m, i1, Built(IDENTITY, s2));
    StepIsProduct(Product(m, i2), s3);
    StepIsProduct(i2, s3);
    ProductAssociates(m, i2, Built(IDENTITY, s3));
    StepIsProduct(Product(m, i3), s4);
    StepIsProduct(i3, s4);
    ProductAssociates(m, i3, Built(IDENTITY, s4));
  }

  // ----- Closed forms -----

  /** The closed form of the Denavit-Hartenberg step, as the comment beside the original step gives it. */
  function DenavitHartenbergMatrix(alpha: Angle, length: real, theta: Angle, d: real): Motion {
    Motion(Vec3(theta.c, theta.s * alpha.c, theta.s * alpha.s),
           Vec3(-theta.s, theta.c * alpha.c, theta.c * alpha.s),
           Vec3(0.0, -alpha.s, alpha.c),
           Vec3(length, -alpha.s * d, alpha.c * d))
  }

  lemma DenavitHartenbergSteps(alpha: Angle, length: real, theta: Angle, d: real)
    ensures Built(IDENTITY, DenavitHartenberg(alpha, length, theta, d))
            == DenavitHartenbergMatrix(alpha, length, theta, d)
  {
    hide Translated, RotatedX, RotatedZ, DenavitHartenbergMatrix;
    var m1 := IDENTITY.(p := Vec3(length, 0.0, 0.0));
    var m2 := m1.(c1 := Vec3(0.0, alpha.c, alpha.s), c2 := Vec3(0.0, -alpha.s, alpha.c));
    var m3 := m2.(p := Vec3(length, -alpha.s * d, alpha.c * d));
    FirstShift(length);
    ThenTurned(m1, alpha);
    ThenShifted(m2, alpha, d);
    ThenMatrix(m3, alpha, length, theta, d);
  }

  lemma ThenMatrix(m: Motion, alpha: Angle, length: real, theta: Angle, d: real)
    requires m.c0 == Vec3(1.0, 0.0, 0.0) && m.c1 == Vec3(0.0, alpha.c, alpha.s)
    requires m.c2 == Vec3(0.0, -alpha.s, alpha.c) && m.p == Vec3(length, -alpha.s * d, alpha.c * d)
    ensures RotatedZ(m, theta) == DenavitHartenbergMatrix(alpha, length, theta, d)
  {
    hide RotatedZ;
    LastTurn(m, theta, alpha);
  }

  lemma FirstShift(length: real)
    ensures Translated(IDENTITY, Vec3(length, 0.0, 0.0)) == IDENTITY.(p := Vec3(length, 0.0, 0.0))
  {
  }

  lemma ThenTurned(m: Motion, alpha: Angle)
    requires m.c1 == Vec3(0.0, 1.0, 0.0) && m.c2 == Vec3(0.0, 0.0, 1.0)
    ensures RotatedX(m, alpha) == m.(c1 := Vec3(0.0, alpha.c, alpha.s), c2 := Vec3(0.0, -alpha.s, alpha.c))
  {
  }

  lemma ThenShifted(m: Motion, alpha: Angle, d: real)
    requires m.c2 == Vec3(0.0, -alpha.s, alpha.c) && m.p.y == m.p.z == 0.0
    ensures Translated(m, Vec3(0.0, 0.0, d)) == m.(p := Vec3(m.p.x, -alpha.s * d, alpha.c * d))
  {
    hide Times;
    TimesUnits(m.c0);
    TimesUnits(m.c1);
    ScaledInPlane(d, alpha);
  }

  lemma ScaledInPlane(d: real, alpha: Angle)
    ensures Times(d, Vec3(0.0, -alpha.s, alpha.c)) == Vec3(0.0, -alpha.s * d, alpha.c * d)
  {
  }

  lemma LastTurn(m: Motion, theta: Angle, alpha: Angle)
    requires m.c0 == Vec3(1.0, 0.0, 0.0) && m.c1 == Vec3(0.0, alpha.c, alpha.s)
    ensures RotatedZ(m, theta).c0 == Vec3(theta.c, theta.s * alpha.c, theta.s * alpha.s)
    ensures RotatedZ(m, theta).c1 == Vec3(-theta.s, theta.c * alpha.c, theta.c * alpha.s)
    ensures RotatedZ(m, theta).c2 == m.c2 && RotatedZ(m, theta).p == m.p
  {
  }

  /** The step multiplies by the matrix of the comment. */
  lemma DenavitHartenbergIsMatrix(m: Motion, alpha: Angle, length: real, theta: Angle, d: real)
    ensures Built(m, DenavitHartenberg(alpha, length, theta, d))
            == Product(m, DenavitHartenbergMatrix(alpha, length, theta, d))
  {
    AnyStepIsProduct(m, DenavitHartenberg(alpha, length, theta, d));
    DenavitHartenbergSteps(alpha, length, theta, d);
  }

  /** The entries transform6D fills in. */
  function SixD(p: Vec3, x: Angle, y: Angle, z: Angle): Motion {
    Motion(Vec3(y.c * z.c, y.c * z.s, -y.s),
           Vec3(x.s * y.s * z.c - x.c * z.s, x.s * y.s * z.s + x.c * z.c, x.s * y.c),
           Vec3(x.c * y.s * z.c + x.s * z.s, x.c * y.s * z.s - x.s * z.c, x.c * y.c),
           p)
  }

  /** They are those of the chain of builders it stands for. */
  lemma SixDIsChain(p: Vec3, x: Angle, y: Angle, z: Angle)
    ensures SixD(p, x, y, z) == BuiltBy([Translate(p), RotateZ(z), RotateY(y), RotateX(x)])
    ensures Rigid(SixD(p, x, y, z))
  {
    var s := [Translate(p), RotateZ(z), RotateY(y), RotateX(x)];
    assert s[..3] == [Translate(p), RotateZ(z), RotateY(y)] && s[..3][..2] == s[..2]
           && s[..2][..1] == s[..1] && s[..1][..0] == [];
    assert BuiltBy(s[..1]) == Translated(IDENTITY, p);
    assert BuiltBy(s[..2]) == RotatedZ(BuiltBy(s[..1]), z);
    assert BuiltBy(s[..3]) == RotatedY(BuiltBy(s[..2]), y);
    assert BuiltBy(s) == RotatedX(BuiltBy(s[..3]), x);
    BuiltIsRigid(s);
  }

  function Apart(v: Vec3, w: Vec3): real {
    Dot(Mix(1.0, v, -1.0, w), Mix(1.0, v, -1.0, w))
  }

  lemma TurnedKeepsLength(m: Motion, d: Vec3)
    requires ColumnsOrthonormal(m)
    ensures Dot(Turned(m, d), Turned(m, d)) == Dot(d, d)
  {
    var t := Turned(m, d);
    TurnedDot(m, d, t);
    TurnedBackDot(m, d);
  }

  lemma DotCommutes(a: Vec3, b: Vec3)
    ensures Dot(a, b) == Dot(b, a)
  {
  }

  lemma TurnedBackDot(m: Motion, d: Vec3)
    requires ColumnsOrthonormal(m)
    ensures Dot(m.c0, Turned(m, d)) == d.x && Dot(m.c1, Turned(m, d)) == d.y && Dot(m.c2, Turned(m, d)) == d.z
  {
    var t := Turned(m, d);
    TurnedDot(m, d, m.c0);
    TurnedDot(m, d, m.c1);
    TurnedDot(m, d, m.c2);
    DotCommutes(m.c0, t);
    DotCommutes(m.c1, t);
    DotCommutes(m.c2, t);
    DotCommutes(m.c0, m.c1);
    DotCommutes(m.c0, m.c2);
    DotCommutes(m.c1, m.c2);
  }

  lemma AppliedDifference(m: Motion, v: Vec3, w: Vec3)
    ensures Mix(1.0, Applied(m, v), -1.0, Applied(m, w)) == Turned(m, Mix(1.0, v, -1.0, w))
  {
    var d := Mix(1.0, v, -1.0, w);
    TurnedSum(m, d, w);
    assert Plus(d, w) == v;
  }

  /** A rigid motion keeps distances, and is undone by its inverse at every point. */
  lemma RigidKeepsDistance(m: Motion, v: Vec3, w: Vec3)
    requires Rigid(m)
    ensures Apart(Applied(m, v), Applied(m, w)) == Apart(v, w)
    ensures Applied(Inverse(m), Applied(m, v)) == v
  {
    InverseFromLeft(m);
    ProductApplied(Inverse(m), m, v);
    assert Applied(IDENTITY, v) == v;
    AppliedDifference(m, v, w);
    TurnedKeepsLength(m, Mix(1.0, v, -1.0, w));
  }
}
