/** Collision-test records of the renderer: the shared query context
    (result sink, collision-type tag, struck render object) and the swept
    axis-aligned and oriented box tests with their broad-phase `Cull`
    rejection test against a candidate axis-aligned box. */
module ColTest {

  /** A 3D vector; float coordinates are modelled as reals. */
  datatype Vector3 = Vector3(x: real, y: real, z: real)

  datatype Axis = X | Y | Z

  function Component(v: Vector3, a: Axis): real
  {
    match a
    case X => v.x
    case Y => v.y
    case Z => v.z
  }

  /** An axis-aligned box: center and half-extents. */
  datatype AABox = AABox(center: Vector3, extent: Vector3)

  /** A 3x3 rotation, row by row. */
  datatype Matrix3 = Matrix3(row0: Vector3, row1: Vector3, row2: Vector3)

  /** An oriented box: basis, center and half-extents. */
  datatype OBBox = OBBox(basis: Matrix3, center: Vector3, extent: Vector3)

  function BoxMin(b: AABox): Vector3
  {
    Vector3(b.center.x - b.extent.x, b.center.y - b.extent.y, b.center.z - b.extent.z)
  }

  function BoxMax(b: AABox): Vector3
  {
    Vector3(b.center.x + b.extent.x, b.center.y + b.extent.y, b.center.z + b.extent.z)
  }

  function Translate(v: Vector3, d: Vector3): Vector3
  {
    Vector3(v.x + d.x, v.y + d.y, v.z + d.z)
  }

  /** The signed 32-bit `int` of the collision-type tag. */
  newtype int32 = x: int | -0x8000_0000 <= x < 0x8000_0000

  /** The caller-owned cast result; the tests only hold a non-owning handle. */
  class CastResult { }

  /** A render object that a test may record as struck. */
  class RenderObj { }

  /** The base record: result handle, collision-type tag and struck object. */
  class CollisionTest {
    var result: CastResult?
    var collisionType: int32
    var collidedRenderObj: RenderObj?

    constructor (res: CastResult?, collisionType: int32)
      ensures result == res && this.collisionType == collisionType
      ensures collidedRenderObj == null
    {
      result := res;
      this.collisionType := collisionType;
      collidedRenderObj := null;
    }

    /** The copy constructor: every field, including a struck object already recorded. */
    constructor Copy(that: CollisionTest)
      ensures result == that.result && collisionType == that.collisionType
      ensures collidedRenderObj == that.collidedRenderObj
    {
      result := that.result;
      collisionType := that.collisionType;
      collidedRenderObj := that.collidedRenderObj;
    }
  }

  /** The point p lies in the closed box [lo, hi] on every axis. */
  ghost predicate InBox(p: Vector3, lo: Vector3, hi: Vector3)
  {
    forall a: Axis :: Component(lo, a) <= Component(p, a) <= Component(hi, a)
  }

  /** lo is below hi on every axis, so [lo, hi] holds at least one point. */
  predicate Ordered(lo: Vector3, hi: Vector3)
  {
    lo.x <= hi.x && lo.y <= hi.y && lo.z <= hi.z
  }

  /** On axis a the sweep interval lies wholly above or wholly below the candidate's. */
  predicate SeparatedOn(a: Axis, sweepMin: Vector3, sweepMax: Vector3, min: Vector3, max: Vector3)
  {
    Component(sweepMin, a) > Component(max, a) || Component(sweepMax, a) < Component(min, a)
  }

  /** The early-return test both box-test classes run on their sweep bounds. */
  function SweepCull(sweepMin: Vector3, sweepMax: Vector3, min: Vector3, max: Vector3): bool
  {
    if sweepMin.x > max.x || sweepMax.x < min.x then
      true
    else if sweepMin.y > max.y || sweepMax.y < min.y then
      true
    else if sweepMin.z > max.z || sweepMax.z < min.z then
      true
    else
      false
  }

  /** Swept axis-aligned box test. The base-class fields are held directly. */
  class AABoxCollisionTest {
    var result: CastResult?
    var collisionType: int32
    var collidedRenderObj: RenderObj?
    var box: AABox
    var move: Vector3
    var sweepMin: Vector3
    var sweepMax: Vector3

    /** Rejects a candidate box [min, max] from the cached sweep bounds alone. */
    function Cull(min: Vector3, max: Vector3): (culled: bool)
      reads this`sweepMin, this`sweepMax
      ensures culled <==>
        SeparatedOn(X, sweepMin, sweepMax, min, max) ||
        SeparatedOn(Y, sweepMin, sweepMax, min, max) ||
        SeparatedOn(Z, sweepMin, sweepMax, min, max)
    {
      SweepCull(sweepMin, sweepMax, min, max)
    }
  }

  /** Swept oriented box test. The base-class fields are held directly. */
  class OBBoxCollisionTest {
    var result: CastResult?
    var collisionType: int32
    var collidedRenderObj: RenderObj?
    var box: OBBox
    var move: Vector3
    var sweepMin: Vector3
    var sweepMax: Vector3

    /** Rejects a candidate box [min, max] from the cached sweep bounds alone. */
    function Cull(min: Vector3, max: Vector3): (culled: bool)
      reads this`sweepMin, this`sweepMax
      ensures culled <==>
        SeparatedOn(X, sweepMin, sweepMax, min, max) ||
        SeparatedOn(Y, sweepMin, sweepMax, min, max) ||
        SeparatedOn(Z, sweepMin, sweepMax, min, max)
    {
      SweepCull(sweepMin, sweepMax, min, max)
    }
  }

  /** Cull never rejects a candidate that shares a point with the sweep bounds. */
  lemma CullConservative(sweepMin: Vector3, sweepMax: Vector3, min: Vector3, max: Vector3, p: Vector3)
    requires InBox(p, sweepMin, sweepMax) && InBox(p, min, max)
    ensures !SweepCull(sweepMin, sweepMax, min, max)
  {
    assert Component(p, X) == p.x && Component(p, Y) == p.y && Component(p, Z) == p.z;
  }

  /** For well-formed boxes, Cull rejects exactly the candidates that share no point with the sweep bounds. */
  lemma CullExact(sweepMin: Vector3, sweepMax: Vector3, min: Vector3, max: Vector3)
    requires Ordered(sweepMin, sweepMax) && Ordered(min, max)
    ensures SweepCull(sweepMin, sweepMax, min, max) <==>
      !exists p :: InBox(p, sweepMin, sweepMax) && InBox(p, min, max)
  {
    if !SweepCull(sweepMin, sweepMax, min, max) {
      var p := Vector3(Max(sweepMin.x, min.x), Max(sweepMin.y, min.y), Max(sweepMin.z, min.z));
      assert InBox(p, sweepMin, sweepMax) && InBox(p, min, max) by {
        forall a: Axis
          ensures Component(sweepMin, a) <= Component(p, a) <= Component(sweepMax, a)
          ensures Component(min, a) <= Component(p, a) <= Component(max, a)
        {
        }
      }
    } else {
      forall p | InBox(p, sweepMin, sweepMax)
        ensures !InBox(p, min, max)
      {
        if InBox(p, min, max) {
          CullConservative(sweepMin, sweepMax, min, max, p);
        }
      }
    }
  }

  function Max(a: real, b: real): real
  {
    if a < b then b else a
  }

  /** The comparisons are strict: boxes that only touch on the X face are not culled. */
  lemma CullKeepsTouchingBoxes(sweepMin: Vector3, sweepMax: Vector3, min: Vector3, max: Vector3)
    requires Ordered(sweepMin, sweepMax) && Ordered(min, max)
    requires sweepMax.x == min.x
    requires sweepMin.y <= max.y && min.y <= sweepMax.y
    requires sweepMin.z <= max.z && min.z <= sweepMax.z
    ensures !SweepCull(sweepMin, sweepMax, min, max)
    ensures forall p :: InBox(p, sweepMin, sweepMax) && InBox(p, min, max) ==> p.x == min.x
  {
    forall p | InBox(p, sweepMin, sweepMax) && InBox(p, min, max)
      ensures p.x == min.x
    {
      assert Component(sweepMax, X) == sweepMax.x && Component(min, X) == min.x;
    }
  }

  /** Reorders the coordinates of v: the new x, y, z are its a, b, c components. */
  function Swizzle(v: Vector3, a: Axis, b: Axis, c: Axis): Vector3
  {
    Vector3(Component(v, a), Component(v, b), Component(v, c))
  }

  /** The order in which the three axes are checked does not matter. */
  lemma CullAxisOrderIrrelevant(sweepMin: Vector3, sweepMax: Vector3, min: Vector3, max: Vector3, a: Axis, b: Axis, c: Axis)
    requires a != b && b != c && a != c
    ensures SweepCull(Swizzle(sweepMin, a, b, c), Swizzle(sweepMax, a, b, c), Swizzle(min, a, b, c), Swizzle(max, a, b, c))
         == SweepCull(sweepMin, sweepMax, min, max)
  {
  }

  /** The two box tests give the same answer for equal sweep bounds and the same candidate. */
  lemma CullVariantsAgree(aa: AABoxCollisionTest, ob: OBBoxCollisionTest, min: Vector3, max: Vector3)
    requires aa.sweepMin == ob.sweepMin && aa.sweepMax == ob.sweepMax
    ensures aa.Cull(min, max) == ob.Cull(min, max)
  {
  }

  /** Changing any field other than the sweep bounds leaves every Cull answer as it was. */
  twostate lemma CullIgnoresOtherFields(t: AABoxCollisionTest, min: Vector3, max: Vector3)
    requires unchanged(t`sweepMin, t`sweepMax)
    ensures t.Cull(min, max) == old(t.Cull(min, max))
  {
  }

  /** The sweep bounds enclose the box at the start and at the end of the move. */
  ghost predicate SweepEnclosesMove(t: AABoxCollisionTest)
    reads t
  {
    InBox(BoxMin(t.box), t.sweepMin, t.sweepMax) && InBox(BoxMax(t.box), t.sweepMin, t.sweepMax) &&
    InBox(Translate(BoxMin(t.box), t.move), t.sweepMin, t.sweepMax) &&
    InBox(Translate(BoxMax(t.box), t.move), t.sweepMin, t.sweepMax)
  }

  function Scale(s: real, v: Vector3): Vector3
  {
    Vector3(s * v.x, s * v.y, s * v.z)
  }

  /** On one axis, a fraction s of the move m lies between no move and the whole move. */
  lemma ScaledBetween(m: Vector3, s: real, a: Axis)
    requires 0.0 <= s <= 1.0
    ensures Component(m, a) >= 0.0 ==> 0.0 <= Component(Scale(s, m), a) <= Component(m, a)
    ensures Component(m, a) < 0.0 ==> Component(m, a) <= Component(Scale(s, m), a) <= 0.0
  {
    var c := Component(m, a);
    assert Component(Scale(s, m), a) == s * c;
    assert c - s * c == (1.0 - s) * c;
  }

  lemma ComponentTranslate(v: Vector3, d: Vector3, a: Axis)
    ensures Component(Translate(v, d), a) == Component(v, a) + Component(d, a)
  {
  }

  /** Where the sweep bounds enclose the box before and after the move, a candidate that
      touches the box at any point of the move (a fraction s of it) is never culled:
      the sweep bounds are conservative against the whole swept volume. */
  lemma CullKeepsBoxesOnPath(t: AABoxCollisionTest, min: Vector3, max: Vector3, s: real, p: Vector3)
    requires SweepEnclosesMove(t)
    requires 0.0 <= s <= 1.0
    requires InBox(p, Translate(BoxMin(t.box), Scale(s, t.move)), Translate(BoxMax(t.box), Scale(s, t.move)))
    requires InBox(p, min, max)
    ensures !t.Cull(min, max)
  {
    var lo, hi := BoxMin(t.box), BoxMax(t.box);
    assert InBox(p, t.sweepMin, t.sweepMax) by {
      forall a: Axis
        ensures Component(t.sweepMin, a) <= Component(p, a) <= Component(t.sweepMax, a)
      {
        var d := Scale(s, t.move);
        ScaledBetween(t.move, s, a);
        ComponentTranslate(lo, d, a);
        ComponentTranslate(hi, d, a);
        ComponentTranslate(lo, t.move, a);
        ComponentTranslate(hi, t.move, a);
        assert Component(t.sweepMin, a) <= Component(lo, a) <= Component(t.sweepMax, a);
        assert Component(t.sweepMin, a) <= Component(hi, a) <= Component(t.sweepMax, a);
        assert Component(t.sweepMin, a) <= Component(Translate(lo, t.move), a) <= Component(t.sweepMax, a);
        assert Component(t.sweepMin, a) <= Component(Translate(hi, t.move), a) <= Component(t.sweepMax, a);
      }
    }
    CullConservative(t.sweepMin, t.sweepMax, min, max, p);
  }
}
