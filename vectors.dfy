/**
 * Three-component real vectors, used by the renderer both as points and
 * directions and as RGB radiance, together with the largest finite double,
 * which several scans of the renderer use as their starting minimum.
 */
module Vectors {

  /** `Double.MAX_VALUE`, (2 - 2^-52) * 2^1023, written out exactly. */
  const MaxDouble: real := 179769313486231570814527423731704356798070567525844996598917476803157260780028538760589558632766878171540458953514382464234321326889464182768467546703537516986049910576551282076245490090389328944075868508455133942304583236903222948165808559332123348274797826204144723168738177180919299881250404026184124858368.0

  datatype Vec3 = Vec3(x: real, y: real, z: real) {

    /** Component-wise sum. */
    function Plus(o: Vec3): Vec3 {
      Vec3(x + o.x, y + o.y, z + o.z)
    }

    /** Scaling by a scalar. */
    function Times(k: real): Vec3 {
      Vec3(x * k, y * k, z * k)
    }

    /** Component-wise product, used to tint radiance by a surface color. */
    function Mul(o: Vec3): Vec3 {
      Vec3(x * o.x, y * o.y, z * o.z)
    }

    /** Division of every component by the same scalar. */
    function Div(k: real): Vec3
      requires k != 0.0
    {
      Vec3(x / k, y / k, z / k)
    }

    function Dot(o: Vec3): real {
      x * o.x + y * o.y + z * o.z
    }

    /** Component 0, 1 or 2 (red, green, blue when the vector is a color). */
    function Channel(c: nat): real
      requires c < 3
    {
      if c == 0 then x else if c == 1 then y else z
    }
  }

  const Zero: Vec3 := Vec3(0.0, 0.0, 0.0)

  /** Adding to a zero accumulator yields the added vector. */
  lemma ZeroPlus(v: Vec3)
    ensures Zero.Plus(v) == v && v.Plus(Zero) == v
  {
  }

  lemma PlusAssociative(a: Vec3, b: Vec3, c: Vec3)
    ensures a.Plus(b).Plus(c) == a.Plus(b.Plus(c))
  {
  }

  function Max(a: real, b: real): real {
    if a >= b then a else b
  }

  function Min(a: real, b: real): real {
    if a <= b then a else b
  }
}
