/** The commanded velocity, and the current one that follows it. */
module Velocities {
  import opened Poses
  import opened FootPlacement

  datatype Limits = Limits(x: Range, y: Range, a: Range, delta: Pose, xHigh: real, deltaXHigh: real, vaFactor: real)

  const STILL := Pose(0.0, 0.0, 0.0)

  function Filtered(l: Limits, v: Pose): Pose {
    Pose(Clamp(v.x, l.x.lo, l.x.hi), Clamp(v.y, l.y.lo, l.y.hi), Clamp(v.a, l.a.lo, l.a.hi))
  }

  /** The part of full speed left when turning. */
  function TurnFactor(l: Limits, a: real): real
    requires l.vaFactor != 0.0
  {
    1.0 - Abs(a) / l.vaFactor
  }

  function Square(v: Pose): real {
    Product(v.x, v.x) + Product(v.y, v.y)
  }

  function Speed(m: Maths, v: Pose): real {
    m.root(Square(v))
  }

  /** What a filtered velocity is multiplied by; a speed is not negative. */
  function MagFactor(most: real, speed: real): real {
    if speed + 0.000001 == 0.0 then 0.0 else Min(most, speed) / (speed + 0.000001)
  }

  function Slowed(v: Pose, k: real): Pose {
    Pose(Product(v.x, k), Product(v.y, k), v.a)
  }

  /** How much a filtered velocity is slowed down. */
  function Factor(m: Maths, l: Limits, f: Pose): real
    requires l.vaFactor != 0.0
  {
    MagFactor(Product(l.x.hi, TurnFactor(l, f.a)), Speed(m, f))
  }

  /** The velocity that is set when v is asked for. */
  function Commanded(m: Maths, l: Limits, v: Pose): Pose
    requires l.vaFactor != 0.0
  {
    var f := Filtered(l, v);
    Filtered(l, Slowed(f, Factor(m, l, f)))
  }

  function Diff(l: Limits, current: Pose, command: Pose): Pose {
    Pose(Clamp(command.x - current.x, -l.delta.x, if current.x > l.xHigh then l.deltaXHigh else l.delta.x),
         Clamp(command.y - current.y, -l.delta.y, l.delta.y),
         Clamp(command.a - current.a, -l.delta.a, l.delta.a))
  }

  function Sum(v: Pose, w: Pose): Pose {
    Pose(v.x + w.x, v.y + w.y, v.a + w.a)
  }

  // ----- The limits -----

  predicate InLimits(l: Limits, v: Pose) {
    Within(v.x, l.x) && Within(v.y, l.y) && Within(v.a, l.a)
  }

  predicate SoundLimits(l: Limits) {
    && InLimits(l, STILL) && l.vaFactor > 0.0
    && l.delta.x >= 0.0 && l.delta.y >= 0.0 && l.delta.a >= 0.0 && l.deltaXHigh >= 0.0
  }

  lemma FilteredIsInLimits(l: Limits, v: Pose)
    requires SoundLimits(l)
    ensures InLimits(l, Filtered(l, v))
    ensures Filtered(l, v) == v <==> InLimits(l, v)
  {
  }

  lemma CommandedIsInLimits(m: Maths, l: Limits, v: Pose)
    requires SoundLimits(l)
    ensures InLimits(l, Commanded(m, l, v))
  {
    hide Filtered, InLimits, Factor, Slowed;
    var f := Filtered(l, v);
    FilteredIsInLimits(l, Slowed(f, Factor(m, l, f)));
  }

  predicate Between(v: real, w: real, target: real) {
    v <= w <= target || target <= w <= v
  }

  /** No component changes by more than its step, and none passes its target. */
  predicate Eased(l: Limits, v: Pose, w: Pose, target: Pose) {
    && Between(v.x, w.x, target.x) && Between(v.y, w.y, target.y) && Between(v.a, w.a, target.a)
    && -l.delta.x <= w.x - v.x <= (if v.x > l.xHigh then l.deltaXHigh else l.delta.x)
    && -l.delta.y <= w.y - v.y <= l.delta.y
    && -l.delta.a <= w.a - v.a <= l.delta.a
  }

  lemma NextIsEased(l: Limits, current: Pose, command: Pose)
    requires SoundLimits(l)
    ensures Eased(l, current, Sum(current, Diff(l, current, command)), command)
  {
  }

  /** Each component goes as far towards its target as its step allows; at high speed the robot speeds up by
      less. */
  lemma NextExactly(l: Limits, current: Pose, command: Pose)
    ensures var w, up := Sum(current, Diff(l, current, command)), if current.x > l.xHigh then l.deltaXHigh
            else l.delta.x;
      && w.x - current.x == Limit(command.x - current.x, -l.delta.x, up)
      && w.y - current.y == Limit(command.y - current.y, -l.delta.y, l.delta.y)
      && w.a - current.a == Limit(command.a - current.a, -l.delta.a, l.delta.a)
  {
  }

  lemma EasedStaysInLimits(l: Limits, v: Pose, w: Pose, target: Pose)
    requires Eased(l, v, w, target) && InLimits(l, v) && InLimits(l, target)
    ensures InLimits(l, w)
  {
  }

  // ----- Slowing down -----

  lemma Quotient(a: real, b: real, k: real)
    requires b > 0.0 && k == a / b
    ensures Product(k, b) == a
    ensures a >= 0.0 ==> k >= 0.0
    ensures a < 0.0 ==> k < 0.0
    ensures a < b ==> k < 1.0
  {
    ScaledOrder(k, 0.0, b);
    ScaledOrder(0.0, k, b);
    ScaledOrder(1.0, k, b);
    assert b * 0.0 == 0.0 && b * 1.0 == b;
  }

  lemma LittleMore(k: real, speed: real, least: real, most: real)
    requires k >= 0.0 && speed >= 0.0 && Product(k, speed + 0.000001) == least && least <= most
    ensures Product(k, speed) <= most
  {
    ScaledUp(k, speed, speed + 0.000001);
  }

  lemma FactorBounds(most: real, speed: real, k: real)
    requires speed >= 0.0 && k == MagFactor(most, speed)
    ensures most >= 0.0 ==> 0.0 <= k < 1.0 && Product(k, speed) <= most
    ensures most < 0.0 ==> k < 0.0
  {
    Quotient(Min(most, speed), speed + 0.000001, k);
    if most >= 0.0 {
      LittleMore(k, speed, Min(most, speed), most);
    }
  }

  lemma TurnFactorSign(l: Limits, a: real)
    requires l.vaFactor > 0.0
    ensures TurnFactor(l, a) >= 0.0 <==> Abs(a) <= l.vaFactor
  {
    var q := Abs(a) / l.vaFactor;
    Quotient(Abs(a), l.vaFactor, q);
    ScaledOrder(q, 1.0, l.vaFactor);
    ScaledOrder(1.0, q, l.vaFactor);
    assert l.vaFactor * 1.0 == l.vaFactor;
  }

  lemma ProductOfPositives(v: real, w: real)
    requires v > 0.0 && w > 0.0
    ensures Product(v, w) > 0.0
  {
  }

  lemma SquareOfNegated(v: real)
    ensures Product(-v, -v) == Product(v, v)
  {
    var w := -v;
    assert w * w == w * -v == -(w * v) == -(-v * v) == v * v;
  }

  lemma ProductIsPositive(v: real)
    ensures Product(v, v) >= 0.0
    ensures v != 0.0 ==> Product(v, v) > 0.0
  {
    assert Product(0.0, 0.0) == 0.0;
    hide Product;
    if v > 0.0 {
      ProductOfPositives(v, v);
    } else if v < 0.0 {
      ProductOfPositives(-v, -v);
      SquareOfNegated(v);
    }
  }

  lemma SquareIsPositive(v: Pose)
    ensures Square(v) >= 0.0
    ensures v.x != 0.0 ==> Square(v) > 0.0
  {
    hide Product;
    ProductIsPositive(v.x);
    ProductIsPositive(v.y);
  }

  lemma SpeedIs(m: Maths, v: Pose)
    requires TakesRoots(m)
    ensures Speed(m, v) >= 0.0 && Product(Speed(m, v), Speed(m, v)) == Square(v)
    ensures v.x != 0.0 ==> Speed(m, v) > 0.0
  {
    SquareIsPositive(v);
    assert Product(0.0, 0.0) == 0.0;
    hide Square, Product;
  }

  lemma Shrinks(v: real, k: real)
    requires 0.0 <= k <= 1.0
    ensures v >= 0.0 ==> 0.0 <= Product(v, k) <= v
    ensures v <= 0.0 ==> v <= Product(v, k) <= 0.0
  {
    assert Product(v, k) + Product(v, 1.0 - k) == v;
    SignsAgree(v, k);
    SignsAgree(v, 1.0 - k);
    hide Product;
  }

  lemma SignsAgree(v: real, k: real)
    requires k >= 0.0
    ensures v >= 0.0 ==> Product(v, k) >= 0.0
    ensures v <= 0.0 ==> Product(v, k) <= 0.0
  {
  }

  lemma ShrunkSquare(x: real, y: real, k: real, s: real)
    requires Product(s, s) == Product(x, x) + Product(y, y)
    ensures Product(Product(x, k), Product(x, k)) + Product(Product(y, k), Product(y, k))
            == Product(Product(k, s), Product(k, s))
  {
    assert (x * k) * (x * k) == (x * x) * (k * k);
    assert (y * k) * (y * k) == (y * y) * (k * k);
    assert (k * s) * (k * s) == (s * s) * (k * k);
    assert (x * x) * (k * k) + (y * y) * (k * k) == (x * x + y * y) * (k * k);
  }

  lemma SlowedSquare(v: Pose, k: real, s: real)
    requires Product(s, s) == Square(v)
    ensures Square(Slowed(v, k)) == Product(Product(k, s), Product(k, s))
  {
    hide Product;
    ShrunkSquare(v.x, v.y, k, s);
  }

  lemma SlowedIsInLimits(l: Limits, f: Pose, k: real)
    requires SoundLimits(l) && InLimits(l, f) && 0.0 <= k <= 1.0
    ensures InLimits(l, Slowed(f, k))
  {
    hide Product;
    Shrinks(f.x, k);
    Shrinks(f.y, k);
  }

  /** A turn no faster than the turning factor slows the step down and keeps its direction: the
      command is the filtered velocity shrunk by a factor, and its speed, the filtered one times that
      factor, is at most the share of full speed left to it. */
  lemma TurningSlowsDown(m: Maths, l: Limits, v: Pose)
    requires TakesRoots(m) && SoundLimits(l) && Abs(Filtered(l, v).a) <= l.vaFactor
    ensures var f := Filtered(l, v); var k := Factor(m, l, f); var speed := Product(k, Speed(m, f));
      && 0.0 <= k < 1.0
      && Commanded(m, l, v) == Slowed(f, k)
      && Square(Commanded(m, l, v)) == Product(speed, speed)
      && speed <= Product(l.x.hi, TurnFactor(l, f.a))
  {
    hide TakesRoots, Speed, Square, MagFactor, TurnFactor, Filtered, Slowed, Product;
    var f := Filtered(l, v);
    var k := Factor(m, l, f);
    TurnFactorSign(l, f.a);
    ProductSign(l.x.hi, TurnFactor(l, f.a));
    SpeedIs(m, f);
    FactorBounds(Product(l.x.hi, TurnFactor(l, f.a)), Speed(m, f), k);
    FilteredIsInLimits(l, v);
    SlowedIsInLimits(l, f, k);
    FilteredIsInLimits(l, Slowed(f, k));
    SlowedSquare(f, k, Speed(m, f));
  }

  /** How the command comes about, exactly: the velocity asked for is limited, its step multiplied by k, where
      k times a little more than its speed is that speed or the share of full speed left when turning,
      whichever is less, and the result is limited again. */
  lemma CommandedExactly(m: Maths, l: Limits, v: Pose) returns (k: real, speed: real)
    requires TakesRoots(m) && l.vaFactor != 0.0
    ensures var x, y, a := Limit(v.x, l.x.lo, l.x.hi), Limit(v.y, l.y.lo, l.y.hi), Limit(v.a, l.a.lo, l.a.hi);
      var left := Product(l.x.hi, 1.0 - Abs(a) / l.vaFactor);
      && speed >= 0.0 && Product(speed, speed) == Product(x, x) + Product(y, y)
      && Product(k, speed + 0.000001) == (if left <= speed then left else speed)
      && Commanded(m, l, v) == Pose(Limit(Product(x, k), l.x.lo, l.x.hi), Limit(Product(y, k), l.y.lo, l.y.hi),
                                    Limit(a, l.a.lo, l.a.hi))
  {
    hide TakesRoots, Limit, Clamp, Product, Abs, MagFactor;
    ClampIsLimit(v.x, l.x.lo, l.x.hi);
    ClampIsLimit(v.y, l.y.lo, l.y.hi);
    ClampIsLimit(v.a, l.a.lo, l.a.hi);
    var f := Filtered(l, v);
    k, speed := Factor(m, l, f), Speed(m, f);
    SpeedIs(m, f);
    FactorTimesSpeed(Product(l.x.hi, TurnFactor(l, f.a)), speed);
    var w := Slowed(f, k);
    ClampIsLimit(w.x, l.x.lo, l.x.hi);
    ClampIsLimit(w.y, l.y.lo, l.y.hi);
    ClampIsLimit(w.a, l.a.lo, l.a.hi);
  }

  lemma FactorTimesSpeed(most: real, speed: real)
    requires speed >= 0.0
    ensures Product(MagFactor(most, speed), speed + 0.000001) == if most <= speed then most else speed
  {
    hide Product;
    Quotient(Min(most, speed), speed + 0.000001, MagFactor(most, speed));
  }

  lemma NotNothing(k: real, w: real)
    requires Product(k, w) > 0.0 && w > 0.0
    ensures k > 0.0
  {
  }

  /** Asked to go forwards without a turn, the robot is told to go forwards. */
  lemma ForwardsIsForwards(m: Maths, l: Limits, v: Pose)
    requires TakesRoots(m) && SoundLimits(l) && l.x.hi > 0.0 && v.x > 0.0 && v.a == 0.0
    ensures Commanded(m, l, v).x > 0.0 && Commanded(m, l, v).a == 0.0
  {
    hide TakesRoots, Speed, Square, MagFactor, TurnFactor, Product, Commanded, Clamp;
    var f := Filtered(l, v);
    ForwardFiltered(l, v);
    var k := Factor(m, l, f);
    NoTurnFactor(l);
    SpeedIs(m, f);
    ProductOfPositives(l.x.hi, 1.0);
    FactorIsPositive(Product(l.x.hi, 1.0), Speed(m, f), k);
    ProductOfPositives(f.x, k);
    TurningSlowsDown(m, l, v);
  }

  lemma ForwardFiltered(l: Limits, v: Pose)
    requires SoundLimits(l) && l.x.hi > 0.0 && v.x > 0.0 && v.a == 0.0
    ensures Filtered(l, v).x > 0.0 && Filtered(l, v).a == 0.0
  {
  }

  lemma NoTurnFactor(l: Limits)
    requires l.vaFactor > 0.0
    ensures TurnFactor(l, 0.0) == 1.0
  {
  }

  lemma FactorIsPositive(most: real, speed: real, k: real)
    requires most > 0.0 && speed > 0.0 && k == MagFactor(most, speed)
    ensures k > 0.0
  {
    hide Product;
    Quotient(Min(most, speed), speed + 0.000001, k);
    NotNothing(k, speed + 0.000001);
  }

  lemma ProductSign(v: real, w: real)
    ensures v >= 0.0 && w >= 0.0 ==> Product(v, w) >= 0.0
    ensures v > 0.0 && w < 0.0 ==> Product(v, w) < 0.0
  {
  }

  /** A faster turn makes the robot step backwards when it is asked to go forwards. */
  lemma FastTurnReverses(m: Maths, l: Limits, v: Pose)
    requires TakesRoots(m) && SoundLimits(l) && l.x.lo < 0.0 < l.x.hi && v.x > 0.0
    ensures Commanded(m, l, v).x < 0.0 <==> Abs(Filtered(l, v).a) > l.vaFactor
  {
    var f := Filtered(l, v);
    assert f.x > 0.0;
    hide TakesRoots, Speed, Square, MagFactor, TurnFactor, Product;
    var k := Factor(m, l, f);
    TurnFactorSign(l, f.a);
    ProductSign(l.x.hi, TurnFactor(l, f.a));
    SpeedIs(m, f);
    FactorBounds(Product(l.x.hi, TurnFactor(l, f.a)), Speed(m, f), k);
    ProductSign(f.x, k);
  }

  // Turns up to 0.9 allowed, of which 0.6 would use up all speed.
  const FAST_TURNS := Limits(Range(-0.03, 0.035), Range(-0.03, 0.03),
                             Range(-0.9, 0.9), Pose(0.02, 0.02, 0.15), 0.06, 0.01, 0.6)

  /** So a robot asked to go forwards and turn fast is told to step backwards. */
  lemma ForwardsGoesBackwards(m: Maths)
    requires TakesRoots(m)
    ensures SoundLimits(FAST_TURNS) && Commanded(m, FAST_TURNS, Pose(0.03, 0.0, 0.9)).x < 0.0
  {
    assert Filtered(FAST_TURNS, Pose(0.03, 0.0, 0.9)) == Pose(0.03, 0.0, 0.9);
    hide TakesRoots, Commanded, Filtered;
    FastTurnReverses(m, FAST_TURNS, Pose(0.03, 0.0, 0.9));
  }

  // ----- Following the command -----

  /** The current velocity after n updates towards the same command. */
  function Ramped(l: Limits, current: Pose, command: Pose, n: nat): Pose {
    if n == 0 then current
    else var v := Ramped(l, current, command, n - 1); Sum(v, Diff(l, v, command))
  }

  /** What n rounds at a rate leave of a distance. */
  function Remaining(distance: real, rate: real, n: nat): real {
    Max(0.0, distance - Product(n as real, rate))
  }

  lemma Closer(v: real, target: real, lo: real, hi: real, rate: real)
    requires 0.0 <= rate <= lo && rate <= hi
    ensures Abs(target - (v + Clamp(target - v, -lo, hi))) <= Max(0.0, Abs(target - v) - rate)
  {
  }

  lemma OneRoundMore(distance: real, n: nat, rate: real, before: real, after: real)
    requires rate >= 0.0 && before <= Remaining(distance, rate, n) && after <= Max(0.0, before - rate)
    ensures after <= Remaining(distance, rate, n + 1)
  {
    assert Product((n + 1) as real, rate) == Product(n as real, rate) + rate;
    hide Product;
  }

  predicate Near(l: Limits, v: Pose, current: Pose, command: Pose, n: nat) {
    && Abs(command.x - v.x) <= Remaining(Abs(command.x - current.x), Min(l.delta.x, l.deltaXHigh), n)
    && Abs(command.y - v.y) <= Remaining(Abs(command.y - current.y), l.delta.y, n)
    && Abs(command.a - v.a) <= Remaining(Abs(command.a - current.a), l.delta.a, n)
  }

  lemma NextIsNearer(l: Limits, v: Pose, current: Pose, command: Pose, n: nat)
    requires SoundLimits(l) && Near(l, v, current, command, n)
    ensures Near(l, Sum(v, Diff(l, v, command)), current, command, n + 1)
  {
    hide Remaining, Clamp, Abs;
    var w, rate := Sum(v, Diff(l, v, command)), Min(l.delta.x, l.deltaXHigh);
    Closer(v.x, command.x, l.delta.x, if v.x > l.xHigh then l.deltaXHigh else l.delta.x, rate);
    Closer(v.y, command.y, l.delta.y, l.delta.y, l.delta.y);
    Closer(v.a, command.a, l.delta.a, l.delta.a, l.delta.a);
    OneRoundMore(Abs(command.x - current.x), n, rate, Abs(command.x - v.x), Abs(command.x - w.x));
    OneRoundMore(Abs(command.y - current.y), n, l.delta.y, Abs(command.y - v.y), Abs(command.y - w.y));
    OneRoundMore(Abs(command.a - current.a), n, l.delta.a, Abs(command.a - v.a), Abs(command.a - w.a));
  }

  lemma NothingGained(distance: real, rate: real)
    requires distance >= 0.0
    ensures Remaining(distance, rate, 0) == distance
  {
  }

  /** Each update brings every component closer by its rate, until it is there. */
  lemma {:induction false} RampCloses(l: Limits, current: Pose, command: Pose, n: nat)
    requires SoundLimits(l)
    ensures Near(l, Ramped(l, current, command, n), current, command, n)
  {
    if n == 0 {
      NothingGained(Abs(command.x - current.x), Min(l.delta.x, l.deltaXHigh));
      NothingGained(Abs(command.y - current.y), l.delta.y);
      NothingGained(Abs(command.a - current.a), l.delta.a);
      hide Remaining;
    } else {
      RampCloses(l, current, command, n - 1);
      hide Near, Diff, Sum;
      NextIsNearer(l, Ramped(l, current, command, n - 1), current, command, n - 1);
    }
  }

  /** The current velocity reaches the command after enough updates. */
  lemma RampReaches(l: Limits, current: Pose, command: Pose, n: nat)
    requires SoundLimits(l)
    requires Product(n as real, Min(l.delta.x, l.deltaXHigh)) >= Abs(command.x - current.x)
    requires Product(n as real, l.delta.y) >= Abs(command.y - current.y)
    requires Product(n as real, l.delta.a) >= Abs(command.a - current.a)
    ensures Ramped(l, current, command, n) == command
  {
    hide Product, Ramped;
    RampCloses(l, current, command, n);
  }
}
