/** The 4x4 matrix of the walk engine, changed in place by its builders. */
module Transforms {
  import opened RigidMotions

  /** The upper three rows decide a motion. */
  lemma SameRows(m: Motion, n: Motion)
    requires Row0(m) == Row0(n) && Row1(m) == Row1(n) && Row2(m) == Row2(n) && m.p == n.p
    ensures m == n
  {
  }

  lemma TurnedAboutX(m: Motion, n: Motion, a: Angle)
    requires Row0(n) == TurnedRowX(a, Row0(m)) && Row1(n) == TurnedRowX(a, Row1(m)) && Row2(n) == TurnedRowX(a, Row2(m))
    requires n.p == m.p
    ensures n == RotatedX(m, a)
  {
    TurnedRowsX(m, a);
    hide TurnedRowX, Mix;
    SameRows(n, RotatedX(m, a));
  }

  lemma TurnedAboutY(m: Motion, n: Motion, a: Angle)
    requires Row0(n) == TurnedRowY(a, Row0(m)) && Row1(n) == TurnedRowY(a, Row1(m)) && Row2(n) == TurnedRowY(a, Row2(m))
    requires n.p == m.p
    ensures n == RotatedY(m, a)
  {
    TurnedRowsY(m, a);
    hide TurnedRowY, Mix;
    SameRows(n, RotatedY(m, a));
  }

  lemma TurnedAboutZ(m: Motion, n: Motion, a: Angle)
    requires Row0(n) == TurnedRowZ(a, Row0(m)) && Row1(n) == TurnedRowZ(a, Row1(m)) && Row2(n) == TurnedRowZ(a, Row2(m))
    requires n.p == m.p
    ensures n == RotatedZ(m, a)
  {
    TurnedRowsZ(m, a);
    hide TurnedRowZ, Mix;
    SameRows(n, RotatedZ(m, a));
  }

  /** A coordinate moved by v in a row with the given entries. */
  function Shifted(p: real, row: Vec3, v: Vec3): real {
    p + (row.x * v.x + row.y * v.y + row.z * v.z)
  }

  lemma TranslatedRows(m: Motion, v: Vec3)
    ensures Translated(m, v)
         == m.(p := Vec3(Shifted(m.p.x, Row0(m), v), Shifted(m.p.y, Row1(m), v), Shifted(m.p.z, Row2(m), v)))
  {
  }

  lemma AlongX(m: Motion, k: real)
    ensures Translated(m, Vec3(k, 0.0, 0.0)) == m.(p := Plus(m.p, Times(k, m.c0)))
  {
    hide Times;
    TimesUnits(m.c0);
    TimesUnits(m.c1);
    TimesUnits(m.c2);
  }

  lemma AlongY(m: Motion, k: real)
    ensures Translated(m, Vec3(0.0, k, 0.0)) == m.(p := Plus(m.p, Times(k, m.c1)))
  {
    hide Times;
    TimesUnits(m.c0);
    TimesUnits(m.c1);
    TimesUnits(m.c2);
  }

  lemma AlongZ(m: Motion, k: real)
    ensures Translated(m, Vec3(0.0, 0.0, k)) == m.(p := Plus(m.p, Times(k, m.c2)))
  {
    hide Times;
    TimesUnits(m.c0);
    TimesUnits(m.c1);
    TimesUnits(m.c2);
  }

  lemma AnotherBuilder(m: Motion, steps: seq<Step>, step: Step)
    ensures Built(Product(m, BuiltBy(steps)), step) == Product(m, Built(BuiltBy(steps), step))
  {
    hide Built, Product, BuiltBy;
    AnyStepIsProduct(Product(m, BuiltBy(steps)), step);
    AnyStepIsProduct(BuiltBy(steps), step);
    ProductAssociates(m, BuiltBy(steps), Built(IDENTITY, step));
  }

  class Transform {
    const t: array2<real>

    ghost predicate Valid()
      reads this, t
    {
      && t.Length0 == 4 && t.Length1 == 4
      && t[3, 0] == 0.0 && t[3, 1] == 0.0 && t[3, 2] == 0.0 && t[3, 3] == 1.0
    }

    ghost function Column(j: nat): Vec3
      requires t.Length0 == 4 && t.Length1 == 4 && j < 4
      reads this, t
    {
      Vec3(t[0, j], t[1, j], t[2, j])
    }

    ghost function Row(i: nat): Vec3
      requires t.Length0 == 4 && t.Length1 == 4 && i < 4
      reads this, t
    {
      Vec3(t[i, 0], t[i, 1], t[i, 2])
    }

    /** The motion the matrix stands for. */
    ghost function Now(): Motion
      requires t.Length0 == 4 && t.Length1 == 4
      reads this, t
    {
      Motion(Column(0), Column(1), Column(2), Column(3))
    }

    constructor ()
      ensures Valid() && fresh(t) && Now() == IDENTITY
    {
      t := new real[4, 4];
      new;
      Clear();
    }

    method Clear()
      requires t.Length0 == 4 && t.Length1 == 4
      modifies t
      ensures Valid() && Now() == IDENTITY
    {
      for i := 0 to 4
        invariant forall k, j | 0 <= k < i && 0 <= j < 4 :: t[k, j] == 0.0
      {
        for j := 0 to 4
          invariant forall k, l | 0 <= k < i && 0 <= l < 4 :: t[k, l] == 0.0
          invariant forall l | 0 <= l < j :: t[i, l] == 0.0
        {
          t[i, j] := 0.0;
        }
      }
      t[0, 0] := 1.0;
      t[1, 1] := 1.0;
      t[2, 2] := 1.0;
      t[3, 3] := 1.0;
    }

    /** Fills in the upper three rows. */
    method Fill(m: Motion)
      requires Valid()
      modifies t
      ensures Valid() && Now() == m
    {
      t[0, 0], t[0, 1], t[0, 2], t[0, 3] := m.c0.x, m.c1.x, m.c2.x, m.p.x;
      t[1, 0], t[1, 1], t[1, 2], t[1, 3] := m.c0.y, m.c1.y, m.c2.y, m.p.y;
      t[2, 0], t[2, 1], t[2, 2], t[2, 3] := m.c0.z, m.c1.z, m.c2.z, m.p.z;
    }

    method Translate(x: real, y: real, z: real)
      requires Valid()
      modifies t
      ensures Valid() && Now() == Translated(old(Now()), Vec3(x, y, z))
    {
      hide Translated, Shifted;
      var v := Vec3(x, y, z);
      TranslatedRows(Now(), v);
      t[0, 3] := Shifted(t[0, 3], Vec3(t[0, 0], t[0, 1], t[0, 2]), v);
      t[1, 3] := Shifted(t[1, 3], Vec3(t[1, 0], t[1, 1], t[1, 2]), v);
      t[2, 3] := Shifted(t[2, 3], Vec3(t[2, 0], t[2, 1], t[2, 2]), v);
    }

    method TranslateX(x: real)
      requires Valid()
      modifies t
      ensures Valid() && Now() == Translated(old(Now()), Vec3(x, 0.0, 0.0))
    {
      hide Translated;
      AlongX(Now(), x);
      t[0, 3] := t[0, 3] + t[0, 0] * x;
      t[1, 3] := t[1, 3] + t[1, 0] * x;
      t[2, 3] := t[2, 3] + t[2, 0] * x;
    }

    method TranslateY(y: real)
      requires Valid()
      modifies t
      ensures Valid() && Now() == Translated(old(Now()), Vec3(0.0, y, 0.0))
    {
      hide Translated;
      AlongY(Now(), y);
      t[0, 3] := t[0, 3] + t[0, 1] * y;
      t[1, 3] := t[1, 3] + t[1, 1] * y;
      t[2, 3] := t[2, 3] + t[2, 1] * y;
    }

    method TranslateZ(z: real)
      requires Valid()
      modifies t
      ensures Valid() && Now() == Translated(old(Now()), Vec3(0.0, 0.0, z))
    {
      hide Translated;
      AlongZ(Now(), z);
      t[0, 3] := t[0, 3] + t[0, 2] * z;
      t[1, 3] := t[1, 3] + t[1, 2] * z;
      t[2, 3] := t[2, 3] + t[2, 2] * z;
    }

    method RotateX(a: Angle)
      requires Valid()
      modifies t
      ensures Valid() && Now() == RotatedX(old(Now()), a)
    {
      hide RotatedX, TurnedRowX;
      for i := 0 to 3
        invariant Valid() && Column(3) == old(Column(3))
        invariant forall k | 0 <= k < i :: Row(k) == TurnedRowX(a, old(Row(k)))
        invariant forall k | i <= k < 3 :: Row(k) == old(Row(k))
      {
        RotateRowX(i, a);
      }
      assert Row(0) == TurnedRowX(a, old(Row(0))) && Row(1) == TurnedRowX(a, old(Row(1)))
             && Row(2) == TurnedRowX(a, old(Row(2)));
      TurnedAboutX(old(Now()), Now(), a);
    }

    method RotateRowX(i: nat, a: Angle)
      requires Valid() && i < 3
      modifies t
      ensures Valid() && Column(3) == old(Column(3))
      ensures Row(i) == TurnedRowX(a, old(Row(i)))
      ensures forall k | 0 <= k < 3 && k != i :: Row(k) == old(Row(k))
    {
      var ty := t[i, 1];
      var tz := t[i, 2];
      t[i, 1] := a.c * ty + a.s * tz;
      t[i, 2] := -a.s * ty + a.c * tz;
    }

    method RotateY(a: Angle)
      requires Valid()
      modifies t
      ensures Valid() && Now() == RotatedY(old(Now()), a)
    {
      hide RotatedY, TurnedRowY;
      for i := 0 to 3
        invariant Valid() && Column(3) == old(Column(3))
        invariant forall k | 0 <= k < i :: Row(k) == TurnedRowY(a, old(Row(k)))
        invariant forall k | i <= k < 3 :: Row(k) == old(Row(k))
      {
        RotateRowY(i, a);
      }
      assert Row(0) == TurnedRowY(a, old(Row(0))) && Row(1) == TurnedRowY(a, old(Row(1)))
             && Row(2) == TurnedRowY(a, old(Row(2)));
      TurnedAboutY(old(Now()), Now(), a);
    }

    method RotateRowY(i: nat, a: Angle)
      requires Valid() && i < 3
      modifies t
      ensures Valid() && Column(3) == old(Column(3))
      ensures Row(i) == TurnedRowY(a, old(Row(i)))
      ensures forall k | 0 <= k < 3 && k != i :: Row(k) == old(Row(k))
    {
      var tx := t[i, 0];
      var tz := t[i, 2];
      t[i, 0] := a.c * tx - a.s * tz;
      t[i, 2] := a.s * tx + a.c * tz;
    }

    method RotateZ(a: Angle)
      requires Valid()
      modifies t
      ensures Valid() && Now() == RotatedZ(old(Now()), a)
    {
      hide RotatedZ, TurnedRowZ;
      for i := 0 to 3
        invariant Valid() && Column(3) == old(Column(3))
        invariant forall k | 0 <= k < i :: Row(k) == TurnedRowZ(a, old(Row(k)))
        invariant forall k | i <= k < 3 :: Row(k) == old(Row(k))
      {
        RotateRowZ(i, a);
      }
      assert Row(0) == TurnedRowZ(a, old(Row(0))) && Row(1) == TurnedRowZ(a, old(Row(1)))
             && Row(2) == TurnedRowZ(a, old(Row(2)));
      TurnedAboutZ(old(Now()), Now(), a);
    }

    method RotateRowZ(i: nat, a: Angle)
      requires Valid() && i < 3
      modifies t
      ensures Valid() && Column(3) == old(Column(3))
      ensures Row(i) == TurnedRowZ(a, old(Row(i)))
      ensures forall k | 0 <= k < 3 && k != i :: Row(k) == old(Row(k))
    {
      var tx := t[i, 0];
      var ty := t[i, 1];
      t[i, 0] := a.c * tx + a.s * ty;
      t[i, 1] := -a.s * tx + a.c * ty;
    }

    method MDH(alpha: Angle, a: real, theta: Angle, d: real)
      requires Valid()
      modifies t
      ensures Valid() && Now() == Product(old(Now()), DenavitHartenbergMatrix(alpha, a, theta, d))
    {
      hide Translated, RotatedX, RotatedZ, Product, DenavitHartenbergMatrix, Now;
      DenavitHartenbergIsMatrix(Now(), alpha, a, theta, d);
      TranslateX(a);
      RotateX(alpha);
      TranslateZ(d);
      RotateZ(theta);
    }

    method Build(step: Step)
      requires Valid()
      modifies t
      ensures Valid() && Now() == Built(old(Now()), step)
    {
      hide Translated, RotatedX, RotatedY, RotatedZ, Product, DenavitHartenbergMatrix, Now;
      match step
      case Translate(v) => Translate(v.x, v.y, v.z);
      case RotateX(a) => RotateX(a);
      case RotateY(a) => RotateY(a);
      case RotateZ(a) => RotateZ(a);
      case DenavitHartenberg(alpha, a, theta, d) =>
        DenavitHartenbergIsMatrix(Now(), alpha, a, theta, d);
        MDH(alpha, a, theta, d);
    }

    /** A chain of builders, one after the other, multiplies by what it builds on its own. */
    method BuildAll(steps: seq<Step>)
      requires Valid()
      modifies t
      ensures Valid() && Now() == Product(old(Now()), BuiltBy(steps))
    {
      hide Built, Product, Now;
      ProductWithIdentity(Now());
      for i := 0 to |steps|
        invariant Valid() && Now() == Product(old(Now()), BuiltBy(steps[..i]))
      {
        assert steps[..i + 1][..i] == steps[..i];
        AnotherBuilder(old(Now()), steps[..i], steps[i]);
        Build(steps[i]);
      }
      assert steps[..|steps|] == steps;
    }

    /** Moves a point, in place. */
    method Apply(x: array<real>)
      requires Valid() && x.Length == 3
      modifies x
      ensures Vec3(x[0], x[1], x[2]) == Applied(Now(), Vec3(old(x[0]), old(x[1]), old(x[2])))
    {
      hide MovedAt, Applied;
      var x0 := new real[3];
      for i := 0 to 3
        invariant forall k | 0 <= k < i :: x0[k] == x[k]
        invariant x[..] == old(x[..])
      {
        x0[i] := x[i];
      }
      ghost var v := Vec3(x0[0], x0[1], x0[2]);
      for i := 0 to 3
        invariant v == Vec3(x0[0], x0[1], x0[2])
        invariant forall k | 0 <= k < i :: x[k] == MovedAt(k, 3, v)
      {
        ApplyRow(i, x, x0);
      }
      MovedTells(v);
    }

    method ApplyRow(i: nat, x: array<real>, x0: array<real>)
      requires Valid() && i < 3 && x.Length == 3 && x0.Length == 3 && x0 != x
      modifies x
      ensures x[i] == MovedAt(i, 3, Vec3(x0[0], x0[1], x0[2]))
      ensures forall k | 0 <= k < 3 && k != i :: x[k] == old(x[k])
    {
      x[i] := t[i, 3];
      for j := 0 to 3
        invariant x[i] == MovedAt(i, j, Vec3(x0[0], x0[1], x0[2]))
        invariant forall k | 0 <= k < 3 && k != i :: x[k] == old(x[k])
      {
        x[i] := x[i] + t[i, j] * x0[j];
      }
    }

    /** What row i makes of a point, as far as its first j terms. */
    ghost function MovedAt(i: nat, j: nat, v: Vec3): real
      requires t.Length0 == 4 && t.Length1 == 4 && i < 3 && j <= 3
      reads this, t
    {
      match j
      case 0 => t[i, 3]
      case 1 => t[i, 3] + t[i, 0] * v.x
      case 2 => t[i, 3] + t[i, 0] * v.x + t[i, 1] * v.y
      case _ => t[i, 3] + t[i, 0] * v.x + t[i, 1] * v.y + t[i, 2] * v.z
    }

    lemma MovedTells(v: Vec3)
      requires Valid()
      ensures Applied(Now(), v) == Vec3(MovedAt(0, 3, v), MovedAt(1, 3, v), MovedAt(2, 3, v))
    {
    }
  }
  // ----- Products, inverses and the six-dimensional pose -----

  ghost function Entry(t1: Transform, t2: Transform, i: nat, j: nat): real
    requires t1.Valid() && t2.Valid() && i < 4 && j < 4
    reads t1, t1.t, t2, t2.t
  {
    t1.t[i, 0] * t2.t[0, j] + t1.t[i, 1] * t2.t[1, j] + t1.t[i, 2] * t2.t[2, j] + t1.t[i, 3] * t2.t[3, j]
  }

  lemma EntriesTurn(t1: Transform, t2: Transform, j: nat)
    requires t1.Valid() && t2.Valid() && j < 3
    ensures Vec3(Entry(t1, t2, 0, j), Entry(t1, t2, 1, j), Entry(t1, t2, 2, j)) == Turned(t1.Now(), t2.Column(j))
  {
  }

  lemma EntriesMove(t1: Transform, t2: Transform)
    requires t1.Valid() && t2.Valid()
    ensures Vec3(Entry(t1, t2, 0, 3), Entry(t1, t2, 1, 3), Entry(t1, t2, 2, 3)) == Applied(t1.Now(), t2.Column(3))
  {
  }

  lemma EntriesMultiply(t1: Transform, t2: Transform, m: Motion)
    requires t1.Valid() && t2.Valid()
    requires m.c0 == Vec3(Entry(t1, t2, 0, 0), Entry(t1, t2, 1, 0), Entry(t1, t2, 2, 0))
    requires m.c1 == Vec3(Entry(t1, t2, 0, 1), Entry(t1, t2, 1, 1), Entry(t1, t2, 2, 1))
    requires m.c2 == Vec3(Entry(t1, t2, 0, 2), Entry(t1, t2, 1, 2), Entry(t1, t2, 2, 2))
    requires m.p == Vec3(Entry(t1, t2, 0, 3), Entry(t1, t2, 1, 3), Entry(t1, t2, 2, 3))
    ensures m == Product(t1.Now(), t2.Now())
  {
    hide Entry, Turned, Applied;
    EntriesTurn(t1, t2, 0);
    EntriesTurn(t1, t2, 1);
    EntriesTurn(t1, t2, 2);
    EntriesMove(t1, t2);
  }

  /** The operator `*` on transforms. */
  method Multiply(t1: Transform, t2: Transform) returns (t: Transform)
    requires t1.Valid() && t2.Valid()
    ensures fresh(t) && fresh(t.t) && t.Valid() && t.Now() == Product(t1.Now(), t2.Now())
  {
    hide Entry, Product;
    t := new Transform();
    for i := 0 to 3
      invariant t.Valid()
      invariant forall k, l | 0 <= k < i && 0 <= l < 4 :: t.t[k, l] == Entry(t1, t2, k, l)
    {
      for j := 0 to 4
        invariant t.Valid()
        invariant forall k, l | 0 <= k < i && 0 <= l < 4 :: t.t[k, l] == Entry(t1, t2, k, l)
        invariant forall l | 0 <= l < j :: t.t[i, l] == Entry(t1, t2, i, l)
      {
        var e := EntryOf(t1, t2, i, j);
        t.t[i, j] := e;
      }
    }
    EntriesMultiply(t1, t2, t.Now());
  }

  method EntryOf(t1: Transform, t2: Transform, i: nat, j: nat) returns (e: real)
    requires t1.Valid() && t2.Valid() && i < 4 && j < 4
    ensures e == Entry(t1, t2, i, j)
  {
    e := t1.t[i, 0] * t2.t[0, j] + t1.t[i, 1] * t2.t[1, j] + t1.t[i, 2] * t2.t[2, j] + t1.t[i, 3] * t2.t[3, j];
  }

  /** What the first j rows of column i take from the translation, moved back. */
  ghost function Back(t: Transform, i: nat, j: nat): real
    requires t.Valid() && i < 3 && j <= 3
    reads t, t.t
  {
    match j
    case 0 => 0.0
    case 1 => 0.0 - t.t[0, i] * t.t[0, 3]
    case 2 => 0.0 - t.t[0, i] * t.t[0, 3] - t.t[1, i] * t.t[1, 3]
    case _ => 0.0 - t.t[0, i] * t.t[0, 3] - t.t[1, i] * t.t[1, 3] - t.t[2, i] * t.t[2, 3]
  }

  lemma BackStarts(t: Transform, i: nat)
    requires t.Valid() && i < 3
    ensures Back(t, i, 0) == 0.0
  {
  }

  lemma BackStep(t: Transform, i: nat, j: nat)
    requires t.Valid() && i < 3 && j < 3
    ensures Back(t, i, j + 1) == Back(t, i, j) - t.t[j, i] * t.t[j, 3]
  {
  }

  lemma BackTells(t: Transform, m: Motion)
    requires t.Valid()
    requires m.c0 == t.Row(0) && m.c1 == t.Row(1) && m.c2 == t.Row(2)
    requires m.p == Vec3(Back(t, 0, 3), Back(t, 1, 3), Back(t, 2, 3))
    ensures m == Inverse(t.Now())
  {
  }

  /** The inverse the walk engine takes: the rotation transposed, the translation turned back. */
  method Inv(t1: Transform) returns (t: Transform)
    requires t1.Valid()
    ensures fresh(t) && fresh(t.t) && t.Valid() && t.Now() == Inverse(t1.Now())
  {
    hide Back, Inverse;
    t := new Transform();
    assert t.t[0, 3] == t.t[1, 3] == t.t[2, 3] == 0.0 by { assert t.Now().p == IDENTITY.p; }
    for i := 0 to 3
      invariant t.Valid()
      invariant forall k, l | 0 <= k < i && 0 <= l < 3 :: t.t[k, l] == t1.t[l, k]
      invariant forall k | 0 <= k < i :: t.t[k, 3] == Back(t1, k, 3)
      invariant forall k | i <= k < 3 :: t.t[k, 3] == 0.0
    {
      InvRow(t1, t, i);
    }
    BackTells(t1, t.Now());
  }

  method InvRow(t1: Transform, t: Transform, i: nat)
    requires t1.Valid() && t.Valid() && t.t != t1.t && i < 3 && t.t[i, 3] == 0.0
    modifies t.t
    ensures t.Valid()
    ensures forall l | 0 <= l < 3 :: t.t[i, l] == t1.t[l, i]
    ensures t.t[i, 3] == Back(t1, i, 3)
    ensures forall k, l | 0 <= k < 3 && 0 <= l < 4 && k != i :: t.t[k, l] == old(t.t[k, l])
  {
    hide Back;
    BackStarts(t1, i);
    for j := 0 to 3
      invariant t.Valid()
      invariant forall l | 0 <= l < j :: t.t[i, l] == t1.t[l, i]
      invariant t.t[i, 3] == Back(t1, i, j)
      invariant forall k, l | 0 <= k < 3 && 0 <= l < 4 && k != i :: t.t[k, l] == old(t.t[k, l])
    {
      BackStep(t1, i, j);
      t.t[i, j] := t1.t[j, i];
      t.t[i, 3] := t.t[i, 3] - t1.t[j, i] * t1.t[j, 3];
    }
  }

  /** The pose at position (x, y, z) turned by three angles, filled in entry by entry from `SixD`: the motion that
      moving there and turning about z, y and x in that order builds. */
  method Transform6D(x: real, y: real, z: real, wx: Angle, wy: Angle, wz: Angle) returns (t: Transform)
    ensures fresh(t) && fresh(t.t) && t.Valid()
    ensures t.Now() == BuiltBy([RigidMotions.Translate(Vec3(x, y, z)), RigidMotions.RotateZ(wz),
                               RigidMotions.RotateY(wy), RigidMotions.RotateX(wx)])
  {
    hide BuiltBy, SixD, Rigid;
    t := new Transform();
    t.Fill(SixD(Vec3(x, y, z), wx, wy, wz));
    SixDIsChain(Vec3(x, y, z), wx, wy, wz);
  }
}
