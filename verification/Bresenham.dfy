/** Rasterising a line with integer arithmetic only. */
module Bresenham {

  // A vector of two integers, indexed by axis.
  type IVec2 = v: seq<int> | |v| == 2 witness [0, 0]

  function Sign(x: int): int {
    if x > 0 then 1 else if x < 0 then -1 else 0
  }

  function Abs(x: int): nat {
    if x < 0 then -x else x
  }

  /** The axis the line is longer on; y when both lengths are equal. */
  function Major(start: IVec2, end: IVec2): nat {
    if Abs(end[0] - start[0]) <= Abs(end[1] - start[1]) then 1 else 0
  }

  function Minor(start: IVec2, end: IVec2): nat {
    1 - Major(start, end)
  }

  function Length(start: IVec2, end: IVec2, axis: nat): nat
    requires axis < 2
  {
    Abs(end[axis] - start[axis])
  }

  function Direction(start: IVec2, end: IVec2, axis: nat): int
    requires axis < 2
  {
    Sign(end[axis] - start[axis])
  }

  function Directions(start: IVec2, end: IVec2): IVec2 {
    [Direction(start, end, 0), Direction(start, end, 1)]
  }

  /** `y` is `n / d` rounded to the nearest integer; a tie goes up, or down. */
  ghost predicate Rounds(n: int, d: int, up: bool, y: int) {
    if up then 2 * (y * d) - d <= 2 * n < 2 * (y * d) + d
    else 2 * (y * d) - d < 2 * n <= 2 * (y * d) + d
  }

  lemma ProductIsNat(a: nat, b: nat)
    ensures a * b >= 0
  {
  }

  lemma RoundsNoHigher(n: int, d: int, up: bool, y: int, y': int)
    requires d > 0 && y < y' && Rounds(n, d, up, y)
    ensures !Rounds(n, d, up, y')
  {
    ProductIsNat(y' - y - 1, d);
    assert y' * d == y * d + d + (y' - y - 1) * d;
  }

  lemma RoundsIsUnique(n: int, d: int, up: bool, y: int, y': int)
    requires d > 0 && Rounds(n, d, up, y) && Rounds(n, d, up, y')
    ensures y == y'
  {
    if y < y' {
      RoundsNoHigher(n, d, up, y, y');
    } else if y' < y {
      RoundsNoHigher(n, d, up, y', y);
    }
  }

  lemma DivideBounds(a: int, d: int)
    requires d > 0
    ensures 2 * ((a / (2 * d)) * d) <= a < 2 * ((a / (2 * d)) * d) + 2 * d
  {
    var q := a / (2 * d);
    assert a == q * (2 * d) + a % (2 * d);
    assert q * (2 * d) == 2 * (q * d);
  }

  /** `n / d`, rounded to the nearest integer. */
  function Round(n: int, d: int, up: bool): (y: int)
    requires d > 0
    ensures Rounds(n, d, up, y)
  {
    DivideBounds(2 * n + d, d);
    DivideBounds(d - 2 * n, d);
    if up then (2 * n + d) / (2 * d) else
      assert -((d - 2 * n) / (2 * d)) * d == -(((d - 2 * n) / (2 * d)) * d);
      -((d - 2 * n) / (2 * d))
  }

  /** The steps taken along the minor axis after k steps along the major one: the ideal line's
      displacement, rounded; ties go with the direction of the line along the major axis. */
  function MinorSteps(start: IVec2, end: IVec2, k: nat): int
    requires Length(start, end, Major(start, end)) > 0
  {
    Round(k * Length(start, end, Minor(start, end)), Length(start, end, Major(start, end)),
          Direction(start, end, Major(start, end)) > 0)
  }

  /** The k-th point of the line. */
  function PointAt(start: IVec2, end: IVec2, k: nat): (p: IVec2)
    requires k <= Length(start, end, Major(start, end))
  {
    if k == 0 then start else
      Moved(start, Directions(start, end), Major(start, end), k, MinorSteps(start, end, k))
  }

  /** The error term of the method after k steps along the major axis of which y were steps along
      the minor axis too, for a line of length m by n. */
  function ErrorTerm(k: int, y: int, m: int, n: int): int {
    2 * (k * n) + 2 * n - m - 2 * (y * m)
  }

  /** p / m rounds to q / m; so after n more. */
  lemma RoundsAfter(p: int, q: int, m: int, n: int, up: bool)
    requires 0 <= n <= m && 0 < m
    requires if up then 2 * q - m <= 2 * p < 2 * q + m else 2 * q - m < 2 * p <= 2 * q + m
    ensures var error := 2 * p + 2 * n - m - 2 * q;
      var q' := if error >= 0 && (error != 0 || up) then q + m else q;
      if up then 2 * q' - m <= 2 * (p + n) < 2 * q' + m else 2 * q' - m < 2 * (p + n) <= 2 * q' + m
  {
  }

  lemma TimesOneMore(k: int, n: int)
    ensures (k + 1) * n == k * n + n
  {
  }

  /** Stepping along the minor axis exactly when the error term says so keeps the number of steps
      rounded. */
  lemma NextStepRounds(k: int, y: int, m: int, n: int, up: bool)
    requires 0 <= n <= m && 0 < m && Rounds(k * n, m, up, y)
    ensures var error := ErrorTerm(k, y, m, n);
      var y' := if error >= 0 && (error != 0 || up) then y + 1 else y;
      Rounds((k + 1) * n, m, up, y')
  {
    RoundsAfter(k * n, y * m, m, n, up);
    TimesOneMore(k, n);
    TimesOneMore(y, m);
  }

  lemma ErrorTermMoves(k: int, y: int, m: int, n: int)
    ensures ErrorTerm(k + 1, y, m, n) == ErrorTerm(k, y, m, n) + 2 * n
    ensures ErrorTerm(k, y + 1, m, n) == ErrorTerm(k, y, m, n) - 2 * m
  {
    assert (k + 1) * n == k * n + n;
    assert (y + 1) * m == y * m + m;
  }

  /** The point reached by k steps along axis `a`, y of them along the other axis as well. */
  function Moved(start: IVec2, d: IVec2, a: nat, k: int, y: int): (p: IVec2)
    requires a < 2
    ensures p[a] == start[a] + k * d[a] && p[1 - a] == start[1 - a] + y * d[1 - a]
  {
    start[a := start[a] + k * d[a]][1 - a := start[1 - a] + y * d[1 - a]]
  }

  lemma MovedOneMore(start: IVec2, d: IVec2, a: nat, k: int, y: int)
    requires a < 2
    ensures Moved(start, d, a, k + 1, y) == Moved(start, d, a, k, y)[a := Moved(start, d, a, k, y)[a] + d[a]]
    ensures Moved(start, d, a, k, y + 1)
            == Moved(start, d, a, k, y)[1 - a := Moved(start, d, a, k, y)[1 - a] + d[1 - a]]
  {
    assert (k + 1) * d[a] == k * d[a] + d[a];
    assert (y + 1) * d[1 - a] == y * d[1 - a] + d[1 - a];
  }

  lemma SignTimesAbs(x: int)
    ensures Abs(x) * Sign(x) == x
    ensures Sign(2 * x) == Sign(x) && Abs(2 * x) == 2 * Abs(x)
  {
  }

  lemma RoundZero(d: int, up: bool)
    requires d > 0
    ensures Rounds(0, d, up, 0) && Round(0, d, up) == 0
  {
    RoundsIsUnique(0, d, up, 0, Round(0, d, up));
  }

  /** The end is reached after exactly as many steps as the line is long. */
  lemma EndReached(start: IVec2, end: IVec2, a: nat, k: nat)
    requires a < 2 && k <= Length(start, end, a)
    ensures start[a] + k * Direction(start, end, a) == end[a] <==> k == Length(start, end, a)
  {
    SignTimesAbs(end[a] - start[a]);
  }

  /** After k steps, y of them along the minor axis too, the method is at `point` with `error`. */
  ghost predicate Tracing(start: IVec2, end: IVec2, d: IVec2, k: nat, y: int, point: IVec2, error: int) {
    var a, b := Major(start, end), Minor(start, end);
    var m, n := Length(start, end, a), Length(start, end, b);
    && k <= m && d == Directions(start, end)
    && point == Moved(start, d, a, k, y)
    && error == ErrorTerm(k, y, m, n)
    && (m > 0 ==> Rounds(k * n, m, d[a] > 0, y))
  }

  lemma TracingStarts(start: IVec2, end: IVec2, error: int)
    requires error == 2 * Length(start, end, Minor(start, end)) - Length(start, end, Major(start, end))
    ensures Tracing(start, end, Directions(start, end), 0, 0, start, error)
  {
    var a := Major(start, end);
    if Length(start, end, a) > 0 {
      RoundZero(Length(start, end, a), Direction(start, end, a) > 0);
    }
  }

  lemma MinorStepsAre(start: IVec2, end: IVec2, k: nat, y: int)
    requires Length(start, end, Major(start, end)) > 0
    requires Rounds(k * Length(start, end, Minor(start, end)), Length(start, end, Major(start, end)),
                    Direction(start, end, Major(start, end)) > 0, y)
    ensures y == MinorSteps(start, end, k)
    ensures k == 0 ==> y == 0
  {
    var m, up := Length(start, end, Major(start, end)), Direction(start, end, Major(start, end)) > 0;
    RoundZero(m, up);
    hide Major, Length, Direction, Rounds;
    RoundsIsUnique(k * Length(start, end, Minor(start, end)), m, up, y, MinorSteps(start, end, k));
  }

  lemma NoStepsStay(start: IVec2, d: IVec2, a: nat)
    requires a < 2
    ensures Moved(start, d, a, 0, 0) == start
  {
  }

  /** A line without length ends where it starts. */
  lemma NoLengthStays(start: IVec2, end: IVec2, y: int)
    requires Length(start, end, Major(start, end)) == 0
    ensures Moved(start, Directions(start, end), Major(start, end), 0, y) == start
  {
  }

  lemma TracingIsPointAt(start: IVec2, end: IVec2, d: IVec2, k: nat, y: int, point: IVec2, error: int)
    requires Tracing(start, end, d, k, y, point, error)
    ensures point == PointAt(start, end, k)
    ensures point[Major(start, end)] == end[Major(start, end)] <==> k == Length(start, end, Major(start, end))
  {
    var a := Major(start, end);
    assert d[a] == Direction(start, end, a);
    hide Length, Direction, Major, Rounds, Round, ErrorTerm, Directions;
    EndReached(start, end, a, k);
    if Length(start, end, a) > 0 {
      MinorStepsAre(start, end, k, y);
      NoStepsStay(start, d, a);
    } else {
      NoLengthStays(start, end, y);
    }
  }

  lemma TracingSteps(start: IVec2, end: IVec2, d: IVec2, k: nat, y: int, point: IVec2, error: int)
    requires Tracing(start, end, d, k, y, point, error) && k < Length(start, end, Major(start, end))
    ensures var a, b := Major(start, end), Minor(start, end);
      var turn := error >= 0 && (error != 0 || d[a] > 0);
      var turned := if turn then point[b := point[b] + d[b]] else point;
      Tracing(start, end, d, k + 1, if turn then y + 1 else y, turned[a := turned[a] + d[a]],
              (if turn then error - 2 * Length(start, end, a) else error) + 2 * Length(start, end, b))
  {
    var a, b := Major(start, end), Minor(start, end);
    var m, n := Length(start, end, a), Length(start, end, b);
    var turn := error >= 0 && (error != 0 || d[a] > 0);
    NextStepRounds(k, y, m, n, d[a] > 0);
    ErrorTermMoves(k, y, m, n);
    MovedOneMore(start, d, a, k, y);
    if turn {
      ErrorTermMoves(k, y + 1, m, n);
      MovedOneMore(start, d, a, k, y + 1);
    }
  }

  /** What the loop needs to know of its position. */
  ghost predicate AtStep(start: IVec2, end: IVec2, k: nat, point: IVec2, error: int) {
    && k <= Length(start, end, Major(start, end))
    && (exists y :: Tracing(start, end, Directions(start, end), k, y, point, error))
    && point == PointAt(start, end, k)
    && (point[Major(start, end)] == end[Major(start, end)] <==> k == Length(start, end, Major(start, end)))
  }

  lemma AtFirstStep(start: IVec2, end: IVec2, error: int)
    requires error == 2 * Length(start, end, Minor(start, end)) - Length(start, end, Major(start, end))
    ensures AtStep(start, end, 0, start, error)
  {
    TracingStarts(start, end, error);
    TracingIsPointAt(start, end, Directions(start, end), 0, 0, start, error);
  }

  /** One round of the loop. */
  function Turns(error: int, up: bool): bool {
    error >= 0 && (error != 0 || up)
  }

  lemma AtNextStep(start: IVec2, end: IVec2, k: nat, point: IVec2, error: int, point': IVec2, error': int)
    requires AtStep(start, end, k, point, error) && k < Length(start, end, Major(start, end))
    requires var a, b, d := Major(start, end), Minor(start, end), Directions(start, end);
      var turned := if Turns(error, d[a] > 0) then point[b := point[b] + d[b]] else point;
      && point' == turned[a := turned[a] + d[a]]
      && error' == (if Turns(error, d[a] > 0) then error - 2 * Length(start, end, a) else error)
        + 2 * Length(start, end, b)
    ensures AtStep(start, end, k + 1, point', error')
  {
    var d := Directions(start, end);
    var y :| Tracing(start, end, d, k, y, point, error);
    TracingSteps(start, end, d, k, y, point, error);
    var y' := if Turns(error, d[Major(start, end)] > 0) then y + 1 else y;
    TracingIsPointAt(start, end, d, k + 1, y', point', error');
  }

  /** The loop: moves along the axis `movement` until the end is level with the point. */
  method Trace(start: IVec2, end: IVec2, delta: IVec2, d: IVec2, movement: nat, error0: int) returns (out: seq<IVec2>)
    requires movement == Major(start, end) && d == Directions(start, end)
    requires delta[movement] == 2 * Length(start, end, movement)
    requires delta[1 - movement] == 2 * Length(start, end, 1 - movement)
    requires error0 == 2 * Length(start, end, 1 - movement) - Length(start, end, movement)
    ensures |out| == Length(start, end, movement) + 1
    ensures forall k :: 0 <= k < |out| ==> out[k] == PointAt(start, end, k)
  {
    var point, error := start, error0;
    out := [point];
    AtFirstStep(start, end, error);
    ghost var k := 0;
    while point[movement] != end[movement]
      invariant AtStep(start, end, k, point, error)
      invariant |out| == k + 1 && forall i :: 0 <= i <= k ==> out[i] == PointAt(start, end, i)
      decreases Length(start, end, movement) - k
    {
      ghost var was, wasError := point, error;
      if error >= 0 && (error != 0 || d[movement] > 0) {
        error := error - delta[movement];
        point := point[1 - movement := point[1 - movement] + d[1 - movement]];
      }
      error := error + delta[1 - movement];
      point := point[movement := point[movement] + d[movement]];
      AtNextStep(start, end, k, was, wasError, point, error);
      k := k + 1;
      out := out + [point];
    }
  }

  method BresenhamLine(start: IVec2, end: IVec2) returns (out: seq<IVec2>)
    ensures out == Line(start, end)
  {
    SignTimesAbs(end[0] - start[0]);
    SignTimesAbs(end[1] - start[1]);
    // twice the extents, so that half of one stays a whole number
    var delta: IVec2 := [(end[0] - start[0]) * 2, (end[1] - start[1]) * 2];
    var d: IVec2 := [Sign(delta[0]), Sign(delta[1])];
    delta := [Abs(delta[0]), Abs(delta[1])];
    // the axis along which every point is a step
    var movement := if delta[0] <= delta[1] then 1 else 0;
    var error := delta[1 - movement] - delta[movement] / 2;
    out := Trace(start, end, delta, d, movement, error);
  }

  // ----- What the line looks like -----

  function Line(start: IVec2, end: IVec2): (line: seq<IVec2>)
    ensures |line| == Length(start, end, Major(start, end)) + 1
    ensures forall k :: 0 <= k < |line| ==> line[k] == PointAt(start, end, k)
  {
    seq(Length(start, end, Major(start, end)) + 1,
        k requires 0 <= k < Length(start, end, Major(start, end)) + 1 => PointAt(start, end, k))
  }

  lemma Coordinates(start: IVec2, end: IVec2, k: nat)
    requires k <= Length(start, end, Major(start, end)) && 0 < Length(start, end, Major(start, end))
    ensures PointAt(start, end, k)
            == Moved(start, Directions(start, end), Major(start, end), k, MinorSteps(start, end, k))
  {
    if k == 0 {
      RoundZero(Length(start, end, Major(start, end)), Direction(start, end, Major(start, end)) > 0);
    }
  }

  lemma MinorStepsMove(n: int, m: int, k: nat, up: bool)
    requires 0 <= n <= m && 0 < m
    ensures Round((k + 1) * n, m, up) == Round(k * n, m, up) || Round((k + 1) * n, m, up) == Round(k * n, m, up) + 1
  {
    var y := Round(k * n, m, up);
    NextStepRounds(k, y, m, n, up);
    RoundsIsUnique((k + 1) * n, m, up, if Turns(ErrorTerm(k, y, m, n), up) then y + 1 else y,
                   Round((k + 1) * n, m, up));
  }

  /** Neighbouring points touch: the major coordinate moves by exactly one towards the end, and
      the minor one by at most one. */
  lemma LineIsConnected(start: IVec2, end: IVec2, k: nat)
    requires k + 1 < |Line(start, end)|
    ensures var a, b, d := Major(start, end), Minor(start, end), Directions(start, end);
      var p, q := Line(start, end)[k], Line(start, end)[k + 1];
      && q[a] == p[a] + d[a] && Abs(d[a]) == 1
      && (q[b] == p[b] || q[b] == p[b] + d[b])
  {
    var a, d := Major(start, end), Directions(start, end);
    Coordinates(start, end, k);
    Coordinates(start, end, k + 1);
    MinorStepsMove(Length(start, end, Minor(start, end)), Length(start, end, a), k, d[a] > 0);
    MovedOneMore(start, d, a, k, MinorSteps(start, end, k));
    MovedOneMore(start, d, a, k + 1, MinorSteps(start, end, k));
  }

  lemma RoundWhole(n: int, d: int, up: bool)
    requires d > 0
    ensures Round(d * n, d, up) == n
  {
    assert n * d == d * n;
    RoundsIsUnique(d * n, d, up, n, Round(d * n, d, up));
  }

  /** The line runs from its start to its end. */
  lemma LineJoinsEnds(start: IVec2, end: IVec2)
    ensures Line(start, end)[0] == start
    ensures Line(start, end)[|Line(start, end)| - 1] == end
  {
    var a, b := Major(start, end), Minor(start, end);
    var m := Length(start, end, a);
    SignTimesAbs(end[a] - start[a]);
    SignTimesAbs(end[b] - start[b]);
    if m > 0 {
      Coordinates(start, end, m);
      RoundWhole(Length(start, end, b), m, Direction(start, end, a) > 0);
    }
  }

  /** How far, in units of 1/m of a pixel, a point's minor displacement is from the ideal line's. */
  function Deviation(start: IVec2, end: IVec2, k: nat, p: IVec2): int {
    var a, b := Major(start, end), Minor(start, end);
    (p[b] - start[b]) * Direction(start, end, b) * Length(start, end, a) - k * Length(start, end, b)
  }

  /** A deviation of half a pixel is allowed on one side only, which the direction of the line
      along its major axis decides. */
  predicate WithinHalf(deviation: int, m: int, up: bool) {
    if up then -m < 2 * deviation <= m else -m <= 2 * deviation < m
  }

  /** Points in the k-th place along the major axis are told apart by their minor steps. */
  lemma SameMinorSteps(start: IVec2, d: IVec2, a: nat, k: nat, y: int, z: int)
    requires a < 2 && (d[1 - a] == 0 ==> y == z)
    ensures Moved(start, d, a, k, y) == Moved(start, d, a, k, z) <==> y == z
  {
    if y != z {
      assert (y - z) * d[1 - a] != 0;
      assert y * d[1 - a] == z * d[1 - a] + (y - z) * d[1 - a];
    }
  }

  lemma NearestSteps(k: nat, n: int, m: int, up: bool, y: int)
    requires 0 < m
    ensures y == Round(k * n, m, up) <==> WithinHalf(y * m - k * n, m, up)
  {
    if Rounds(k * n, m, up, y) {
      RoundsIsUnique(k * n, m, up, y, Round(k * n, m, up));
    }
  }

  lemma AsMoved(start: IVec2, d: IVec2, a: nat, k: nat, p: IVec2)
    requires a < 2 && p[a] == start[a] + k * d[a]
    requires d[1 - a] == 1 || d[1 - a] == -1 || (d[1 - a] == 0 && p[1 - a] == start[1 - a])
    ensures p == Moved(start, d, a, k, (p[1 - a] - start[1 - a]) * d[1 - a])
  {
    assert (p[1 - a] - start[1 - a]) * d[1 - a] * d[1 - a] == p[1 - a] - start[1 - a];
  }

  lemma StraightStays(start: IVec2, end: IVec2, k: nat)
    requires Direction(start, end, Minor(start, end)) == 0 && 0 < Length(start, end, Major(start, end))
    ensures MinorSteps(start, end, k) == 0
  {
    RoundZero(Length(start, end, Major(start, end)), Direction(start, end, Major(start, end)) > 0);
  }

  /** The k-th point is the one point in the k-th place along the major axis, and not off the
      line's own row when the line runs straight, that deviates from the ideal line by no more
      than half a pixel. */
  lemma LineIsNearest(start: IVec2, end: IVec2, k: nat, p: IVec2)
    requires 0 < k < |Line(start, end)|
    requires p[Major(start, end)] == start[Major(start, end)] + k * Direction(start, end, Major(start, end))
    requires Direction(start, end, Minor(start, end)) == 0 ==> p[Minor(start, end)] == start[Minor(start, end)]
    ensures p == Line(start, end)[k] <==>
            WithinHalf(Deviation(start, end, k, p), Length(start, end, Major(start, end)),
                       Direction(start, end, Major(start, end)) > 0)
  {
    var a, b, d := Major(start, end), Minor(start, end), Directions(start, end);
    var y := (p[b] - start[b]) * d[b];
    Coordinates(start, end, k);
    AsMoved(start, d, a, k, p);
    if d[b] == 0 {
      StraightStays(start, end, k);
    }
    SameMinorSteps(start, d, a, k, y, MinorSteps(start, end, k));
    NearestSteps(k, Length(start, end, b), Length(start, end, a), d[a] > 0, y);
  }

  // ----- Reversal -----

  /** Rounding from the other end: ties must then go the other way. */
  lemma RoundFromOtherEnd(k: nat, n: int, m: int, up: bool)
    requires k <= m && 0 < m
    ensures Round((m - k) * n, m, up) == n - Round(k * n, m, !up)
  {
    var y := Round(k * n, m, !up);
    assert (m - k) * n == m * n - k * n;
    assert (n - y) * m == m * n - y * m;
    RoundsIsUnique((m - k) * n, m, up, n - y, Round((m - k) * n, m, up));
  }

  lemma MovedFromOtherEnd(start: IVec2, end: IVec2, a: nat, k: nat, y: int)
    requires a < 2 && k <= Length(start, end, a)
    ensures Moved(end, Directions(end, start), a, k, y)
         == Moved(start, Directions(start, end), a, Length(start, end, a) - k, Length(start, end, 1 - a) - y)
  {
    var d, e := Directions(start, end), Directions(end, start);
    var m, n := Length(start, end, a), Length(start, end, 1 - a);
    SignTimesAbs(end[a] - start[a]);
    SignTimesAbs(end[1 - a] - start[1 - a]);
    assert e[a] == -d[a] && e[1 - a] == -d[1 - a];
    assert k * e[a] == -(k * d[a]) && (m - k) * d[a] == m * d[a] - k * d[a];
    assert y * e[1 - a] == -(y * d[1 - a]) && (n - y) * d[1 - a] == n * d[1 - a] - y * d[1 - a];
  }

  lemma PointFromOtherEnd(start: IVec2, end: IVec2, k: nat)
    requires k <= Length(start, end, Major(start, end))
    ensures Major(end, start) == Major(start, end)
            && Length(end, start, Major(start, end)) == Length(start, end, Major(start, end))
    ensures PointAt(end, start, k) == PointAt(start, end, Length(start, end, Major(start, end)) - k)
  {
    var a := Major(start, end);
    var m, n := Length(start, end, a), Length(start, end, 1 - a);
    if m == 0 {
      LineJoinsEnds(start, end);
      assert Line(start, end)[0] == start;
    } else {
      var up := Direction(start, end, a) > 0;
      Coordinates(end, start, k);
      Coordinates(start, end, m - k);
      RoundFromOtherEnd(k, n, m, up);
      MovedFromOtherEnd(start, end, a, k, Round(k * n, m, !up));
    }
  }

  function Reverse<T>(s: seq<T>): (r: seq<T>)
    ensures |r| == |s|
    ensures forall i :: 0 <= i < |s| ==> r[i] == s[|s| - 1 - i]
  {
    seq(|s|, i requires 0 <= i < |s| => s[|s| - 1 - i])
  }

  /** Drawing a line from its other end gives exactly the same points in the opposite order. */
  lemma LineIsReversible(start: IVec2, end: IVec2)
    ensures Line(end, start) == Reverse(Line(start, end))
  {
    forall k: nat | k <= Length(start, end, Major(start, end))
      ensures Major(end, start) == Major(start, end)
              && Length(end, start, Major(start, end)) == Length(start, end, Major(start, end))
      ensures PointAt(end, start, k) == PointAt(start, end, Length(start, end, Major(start, end)) - k)
    {
      PointFromOtherEnd(start, end, k);
    }
    PointFromOtherEnd(start, end, 0);
  }

  lemma ErrorTermIsBounded(k: int, y: int, m: int, n: int, up: bool)
    requires 0 < m && Rounds(k * n, m, up, y)
    ensures -2 * m <= ErrorTerm(k, y, m, n) - 2 * n <= 0
  {
  }

  /** The error term stays between -2m and 2n for a line of length m by n, so it needs no more
      bits than the doubled distances do. */
  lemma ErrorIsBounded(start: IVec2, end: IVec2, k: nat, point: IVec2, error: int)
    requires AtStep(start, end, k, point, error) && start != end
    ensures -2 * Length(start, end, Major(start, end)) <= error <= 2 * Length(start, end, Minor(start, end))
  {
    var d := Directions(start, end);
    var y :| Tracing(start, end, d, k, y, point, error);
    var m, n := Length(start, end, Major(start, end)), Length(start, end, Minor(start, end));
    assert m > 0;
    ErrorTermIsBounded(k, y, m, n, d[Major(start, end)] > 0);
  }
}
