/** Poses in the plane: headings reduced to one turn, and reading a pose in the frame of another. */
module Poses {
  import opened RigidMotions

  datatype Pose = Pose(x: real, y: real, a: real)

  /** What the walk engine takes from the C++ library: pi, the cosine and sine of an angle, and the
      square root. */
  datatype AnyMaths = Maths(pi: real, turn: real -> Angle, root: real -> real)
  type Maths = m: AnyMaths | m.pi > 0.0 witness Maths(1.0, (_: real) => Angle(1.0, 0.0), (v: real) => v)

  ghost predicate TakesRoots(m: Maths) {
    forall v | v >= 0.0 :: m.root(v) >= 0.0 && Product(m.root(v), m.root(v)) == v
  }

  function Product(v: real, w: real): real {
    v * w
  }

  function Min(v: real, w: real): real { if v <= w then v else w }
  function Max(v: real, w: real): real { if v >= w then v else w }
  function Abs(v: real): real { if v < 0.0 then -v else v }
  function Clamp(v: real, lo: real, hi: real): real { Min(Max(v, lo), hi) }

  /** The nearest value to v between the two, the upper one having the last word. */
  function Limit(v: real, lo: real, hi: real): real {
    if hi <= v || hi <= lo then hi else if v <= lo then lo else v
  }

  lemma ClampIsLimit(v: real, lo: real, hi: real)
    ensures Clamp(v, lo, hi) == Limit(v, lo, hi)
  {
  }

  function Scaled(k: real, p: Pose): Pose {
    Pose(k * p.x, k * p.y, k * p.a)
  }

  // ----- Headings -----

  /** The remainder of a division that truncates towards zero. */
  function FMod(v: real, m: real): real
    requires m > 0.0
  {
    if v >= 0.0 then v - m * (v / m).Floor as real else -(-v - m * (-v / m).Floor as real)
  }

  function ModAngle(v: real, pi: real): real
    requires pi > 0.0
  {
    var angle := FMod(v, 2.0 * pi);
    if angle <= -pi then angle + 2.0 * pi else if angle > pi then angle - 2.0 * pi else angle
  }

  lemma ScaledOrder(k: real, q: real, m: real)
    requires m > 0.0
    ensures k <= q ==> m * k <= m * q
    ensures k < q ==> m * k < m * q
  {
    if k < q {
      assert m * (q - k) > 0.0;
    }
  }

  lemma QuotientTimes(v: real, m: real, q: real)
    requires m > 0.0 && q == v / m
    ensures m * q == v
  {
  }

  lemma BetweenMultiples(v: real, m: real, q: real, k: real)
    requires m > 0.0 && Product(m, q) == v && k <= q < k + 1.0
    ensures 0.0 <= v - Product(m, k) < m
  {
    assert Product(m, k) + Product(m, q - k) == Product(m, q);
    assert Product(m, k + 1.0 - q) + Product(m, q) == Product(m, k) + m;
    Positive(m, q - k);
    Positive(m, k + 1.0 - q);
    hide Product;
  }

  lemma Positive(v: real, w: real)
    ensures v >= 0.0 && w >= 0.0 ==> Product(v, w) >= 0.0
    ensures v > 0.0 && w > 0.0 ==> Product(v, w) > 0.0
  {
  }

  lemma DivideBounds(v: real, m: real, q: real, k: real)
    requires m > 0.0 && q == v / m && k <= q < k + 1.0
    ensures 0.0 <= v - m * k < m
  {
    QuotientTimes(v, m, q);
    BetweenMultiples(v, m, q, k);
  }

  lemma ProductOrder(k: real, q: real, m: real)
    requires m > 0.0 && k < q
    ensures Product(m, k) < Product(m, q)
  {
    assert Product(m, k) + Product(m, q - k) == Product(m, q);
    Positive(m, q - k);
    hide Product;
  }

  lemma SmallFactor(v: real, m: real, q: real)
    requires m > 0.0 && 0.0 <= v < m && Product(m, q) == v
    ensures 0.0 <= q < 1.0
  {
    assert Product(m, 0.0) == 0.0 && Product(m, 1.0) == m;
    hide Product;
    if q < 0.0 {
      ProductOrder(q, 0.0, m);
    } else if q > 1.0 {
      ProductOrder(1.0, q, m);
    }
  }

  lemma SmallQuotient(v: real, m: real, q: real)
    requires m > 0.0 && 0.0 <= v < m && q == v / m
    ensures 0.0 <= q < 1.0
  {
    QuotientTimes(v, m, q);
    SmallFactor(v, m, q);
  }

  lemma TruncatedUp(v: real, m: real) returns (k: int)
    requires m > 0.0 && v >= 0.0
    ensures FMod(v, m) == v - m * k as real && 0.0 <= FMod(v, m) < m
    ensures v < m ==> FMod(v, m) == v
  {
    k := (v / m).Floor;
    DivideBounds(v, m, v / m, k as real);
    if v < m {
      SmallQuotient(v, m, v / m);
      assert k == 0 && m * k as real == 0.0;
    }
  }

  lemma FModIsOdd(v: real, m: real)
    requires m > 0.0 && v < 0.0
    ensures FMod(v, m) == -FMod(-v, m)
  {
  }

  lemma TruncationBounds(v: real, m: real) returns (k: int)
    requires m > 0.0
    ensures FMod(v, m) == v - m * k as real && -m < FMod(v, m) < m
  {
    hide FMod;
    if v >= 0.0 {
      k := TruncatedUp(v, m);
    } else {
      FModIsOdd(v, m);
      var l := TruncatedUp(-v, m);
      k := -l;
      assert m * k as real == -(m * l as real);
    }
  }

  /** A heading is reduced by whole turns, to more than minus half a turn and at most half a turn. */
  lemma ModAngleReduces(v: real, pi: real) returns (turns: int)
    requires pi > 0.0
    ensures -pi < ModAngle(v, pi) <= pi
    ensures ModAngle(v, pi) == v - 2.0 * pi * turns as real
  {
    hide FMod;
    turns := TruncationBounds(v, 2.0 * pi);
    var angle := FMod(v, 2.0 * pi);
    OneTurnMore(pi, turns - 1);
    OneTurnMore(pi, turns);
    if angle <= -pi {
      turns := turns - 1;
    } else if angle > pi {
      turns := turns + 1;
    }
  }

  lemma OneTurnMore(pi: real, k: int)
    ensures 2.0 * pi * (k + 1) as real == 2.0 * pi * k as real + 2.0 * pi
  {
  }

  lemma LessThanOnce(d: real, m: real)
    requires m > 0.0 && m * d < m
    ensures d < 1.0
  {
    ScaledOrder(1.0, d, m);
  }

  lemma WholeTurns(m: real, j: int, k: int, mj: real, mk: real)
    requires m > 0.0 && mj == m * j as real && mk == m * k as real && -m < mj - mk < m
    ensures j == k
  {
    assert m * (j - k) as real == mj - mk;
    assert m * (k - j) as real == mk - mj;
    LessThanOnce((j - k) as real, m);
    LessThanOnce((k - j) as real, m);
  }

  /** No other heading in that range is a whole number of turns away. */
  lemma ReducedIsUnique(v: real, w: real, k: int, pi: real)
    requires pi > 0.0 && -pi < w <= pi && w == v - 2.0 * pi * k as real
    ensures w == ModAngle(v, pi)
  {
    hide ModAngle;
    var turns := ModAngleReduces(v, pi);
    var taken, left := 2.0 * pi * turns as real, 2.0 * pi * k as real;
    assert ModAngle(v, pi) == v - taken && w == v - left;
    WholeTurns(2.0 * pi, k, turns, left, taken);
  }

  /** Exactly the headings in that range are left alone. */
  lemma ReducedStays(v: real, pi: real)
    requires pi > 0.0
    ensures ModAngle(v, pi) == v <==> -pi < v <= pi
  {
    hide ModAngle;
    var _ := ModAngleReduces(v, pi);
    if -pi < v <= pi {
      ReducedIsUnique(v, v, 0, pi);
    }
  }

  /** Reduction is odd, but for the half turn. */
  lemma ReducedIsOdd(v: real, pi: real)
    requires pi > 0.0 && ModAngle(v, pi) != pi
    ensures ModAngle(-v, pi) == -ModAngle(v, pi)
  {
    hide ModAngle;
    var turns := ModAngleReduces(v, pi);
    assert 2.0 * pi * (-turns) as real == -(2.0 * pi * turns as real);
    ReducedIsUnique(-v, -ModAngle(v, pi), -turns, pi);
  }

  // ----- Frames -----

  function Combined(k: real, x: real, l: real, y: real): real {
    k * x + l * y
  }

  /** `rel` turned by the angle with cosine c and sine s, and moved to `pose`. */
  function Placed(c: real, s: real, rel: Pose, pose: Pose): Pose {
    Pose(pose.x + Combined(c, rel.x, -s, rel.y), pose.y + Combined(s, rel.x, c, rel.y), pose.a + rel.a)
  }

  /** The pose that reads as `rel` in the frame of `pose`. */
  function PoseGlobal(m: Maths, rel: Pose, pose: Pose): Pose {
    Placed(m.turn(pose.a).c, m.turn(pose.a).s, rel, pose)
  }

  /** `glob` moved from `pose`, and turned back by the angle with cosine c and sine s. */
  function Read(c: real, s: real, glob: Pose, pose: Pose, pi: real): Pose
    requires pi > 0.0
  {
    var px, py := glob.x - pose.x, glob.y - pose.y;
    Pose(Combined(c, px, s, py), Combined(-s, px, c, py), ModAngle(glob.a - pose.a, pi))
  }

  /** `glob` as it reads in the frame of `pose`. */
  function PoseRelative(m: Maths, glob: Pose, pose: Pose): Pose
  {
    Read(m.turn(pose.a).c, m.turn(pose.a).s, glob, pose, m.pi)
  }

  function Interpolate(m: Maths, t: real, u1: Pose, u2: Pose): Pose
  {
    Pose(u1.x + t * (u2.x - u1.x), u1.y + t * (u2.y - u1.y), u1.a + t * ModAngle(u2.a - u1.a, m.pi))
  }

  /** The rigid motion to a pose, in the plane. */
  function MotionTo(m: Maths, pose: Pose): Motion {
    RotatedZ(Translated(IDENTITY, Vec3(pose.x, pose.y, 0.0)), m.turn(pose.a))
  }

  /** A point is placed in the frame of a pose by the motion to it, and the headings add up. */
  lemma PlacedByMotion(m: Maths, rel: Pose, pose: Pose)
    ensures var glob := PoseGlobal(m, rel, pose);
      && Vec3(glob.x, glob.y, 0.0) == Applied(MotionTo(m, pose), Vec3(rel.x, rel.y, 0.0))
      && glob.a == pose.a + rel.a
  {
  }

  lemma TurnedBackAndForth(t: Angle, x: real, y: real, u: real, v: real)
    requires u == Combined(t.c, x, -t.s, y) && v == Combined(t.s, x, t.c, y)
    ensures Combined(t.c, u, t.s, v) == x && Combined(-t.s, u, t.c, v) == y
  {
    assert t.c * (t.c * x - t.s * y) == (t.c * t.c) * x - (t.c * t.s) * y;
    assert t.s * (t.s * x + t.c * y) == (t.s * t.s) * x + (t.c * t.s) * y;
    assert t.s * (t.c * x - t.s * y) == (t.c * t.s) * x - (t.s * t.s) * y;
    assert t.c * (t.s * x + t.c * y) == (t.c * t.s) * x + (t.c * t.c) * y;
    assert (t.c * t.c) * x + (t.s * t.s) * x == (t.c * t.c + t.s * t.s) * x;
    assert (t.c * t.c) * y + (t.s * t.s) * y == (t.c * t.c + t.s * t.s) * y;
  }

  lemma TurnedForthAndBack(t: Angle, x: real, y: real, u: real, v: real)
    requires u == Combined(t.c, x, t.s, y) && v == Combined(-t.s, x, t.c, y)
    ensures Combined(t.c, u, -t.s, v) == x && Combined(t.s, u, t.c, v) == y
  {
    assert t.c * (t.c * x + t.s * y) == (t.c * t.c) * x + (t.c * t.s) * y;
    assert t.s * (-t.s * x + t.c * y) == -((t.s * t.s) * x) + (t.c * t.s) * y;
    assert t.s * (t.c * x + t.s * y) == (t.c * t.s) * x + (t.s * t.s) * y;
    assert t.c * (-t.s * x + t.c * y) == -((t.c * t.s) * x) + (t.c * t.c) * y;
    assert (t.c * t.c) * x + (t.s * t.s) * x == (t.c * t.c + t.s * t.s) * x;
    assert (t.c * t.c) * y + (t.s * t.s) * y == (t.c * t.c + t.s * t.s) * y;
  }

  lemma ReadUndoesPlaced(t: Angle, rel: Pose, pose: Pose, pi: real)
    requires pi > 0.0
    ensures Read(t.c, t.s, Placed(t.c, t.s, rel, pose), pose, pi) == Pose(rel.x, rel.y, ModAngle(rel.a, pi))
  {
    hide ModAngle, Combined;
    var g := Placed(t.c, t.s, rel, pose);
    TurnedBackAndForth(t, rel.x, rel.y, g.x - pose.x, g.y - pose.y);
  }

  lemma PlacedUndoesRead(t: Angle, glob: Pose, pose: Pose, pi: real)
    requires pi > 0.0
    ensures Placed(t.c, t.s, Read(t.c, t.s, glob, pose, pi), pose)
            == Pose(glob.x, glob.y, pose.a + ModAngle(glob.a - pose.a, pi))
  {
    hide ModAngle, Combined;
    var r := Read(t.c, t.s, glob, pose, pi);
    TurnedForthAndBack(t, glob.x - pose.x, glob.y - pose.y, r.x, r.y);
  }

  /** Reading a pose in a frame undoes placing it there, but for whole turns of its heading. */
  lemma RelativeUndoesGlobal(m: Maths, rel: Pose, pose: Pose)
    ensures PoseRelative(m, PoseGlobal(m, rel, pose), pose) == Pose(rel.x, rel.y, ModAngle(rel.a, m.pi))
    ensures PoseRelative(m, PoseGlobal(m, rel, pose), pose) == rel <==> -m.pi < rel.a <= m.pi
  {
    hide ModAngle, Read, Placed;
    ReadUndoesPlaced(m.turn(pose.a), rel, pose, m.pi);
    ReducedStays(rel.a, m.pi);
  }

  /** And placing undoes reading. */
  lemma GlobalUndoesRelative(m: Maths, glob: Pose, pose: Pose)
    ensures PoseGlobal(m, PoseRelative(m, glob, pose), pose)
            == Pose(glob.x, glob.y, pose.a + ModAngle(glob.a - pose.a, m.pi))
    ensures PoseGlobal(m, PoseRelative(m, glob, pose), pose) == glob <==> -m.pi < glob.a - pose.a <= m.pi
  {
    hide ModAngle, Read, Placed;
    PlacedUndoesRead(m.turn(pose.a), glob, pose, m.pi);
    ReducedStays(glob.a - pose.a, m.pi);
  }

  // ----- Mirror images -----

  /** Left and right exchanged. */
  function Mirror(p: Pose): Pose {
    Pose(p.x, -p.y, -p.a)
  }

  ghost predicate Odd(m: Maths) {
    forall a :: m.turn(-a) == Angle(m.turn(a).c, -m.turn(a).s)
  }

  lemma MirrorTerms(c: real, s: real, x: real, y: real)
    ensures Combined(c, x, -(-s), -y) == Combined(c, x, -s, y)
    ensures Combined(-s, x, c, -y) == -Combined(s, x, c, y)
    ensures Combined(c, x, -s, -y) == Combined(c, x, s, y)
    ensures Combined(-(-s), x, c, -y) == -Combined(-s, x, c, y)
  {
  }

  lemma MirrorPlaced(c: real, s: real, rel: Pose, pose: Pose)
    ensures Placed(c, -s, Mirror(rel), Mirror(pose)) == Mirror(Placed(c, s, rel, pose))
  {
    hide Combined;
    MirrorTerms(c, s, rel.x, rel.y);
  }

  lemma MirrorRead(c: real, s: real, glob: Pose, pose: Pose, pi: real)
    requires pi > 0.0 && ModAngle(glob.a - pose.a, pi) != pi
    ensures Read(c, -s, Mirror(glob), Mirror(pose), pi) == Mirror(Read(c, s, glob, pose, pi))
  {
    hide ModAngle, Combined;
    MirrorTerms(c, s, glob.x - pose.x, glob.y - pose.y);
    ReducedIsOdd(glob.a - pose.a, pi);
    assert Mirror(glob).y - Mirror(pose).y == -(glob.y - pose.y);
    assert Mirror(glob).a - Mirror(pose).a == -(glob.a - pose.a);
  }

  /** A pose placed in a mirrored frame is the mirror image of the pose placed. */
  lemma MirrorGlobal(m: Maths, rel: Pose, pose: Pose)
    requires Odd(m)
    ensures PoseGlobal(m, Mirror(rel), Mirror(pose)) == Mirror(PoseGlobal(m, rel, pose))
  {
    hide Placed;
    var t := m.turn(pose.a);
    assert m.turn(-pose.a) == Angle(t.c, -t.s);
    MirrorPlaced(t.c, t.s, rel, pose);
  }

  /** So is a pose read in one, but for the half turn. */
  lemma MirrorRelative(m: Maths, glob: Pose, pose: Pose)
    requires Odd(m) && ModAngle(glob.a - pose.a, m.pi) != m.pi
    ensures PoseRelative(m, Mirror(glob), Mirror(pose)) == Mirror(PoseRelative(m, glob, pose))
  {
    hide Read, ModAngle;
    var t := m.turn(pose.a);
    assert m.turn(-pose.a) == Angle(t.c, -t.s);
    MirrorRead(t.c, t.s, glob, pose, m.pi);
  }

  /** Half way between two poses is half way between them from the other end too. */
  lemma HalfWay(m: Maths, u: Pose, v: Pose)
    requires -m.pi < v.a - u.a < m.pi
    ensures Interpolate(m, 0.5, u, v) == Interpolate(m, 0.5, v, u)
    ensures Interpolate(m, 0.5, Mirror(u), Mirror(v)) == Mirror(Interpolate(m, 0.5, u, v))
  {
    hide ModAngle;
    ReducedStays(v.a - u.a, m.pi);
    ReducedStays(u.a - v.a, m.pi);
  }
}
