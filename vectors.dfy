/** The arcade body's velocity, a Phaser Vector2 of two reals.

    A square root cannot be computed exactly, so a vector is held in an
    equivalent form: each component by its sign and its square.  The real
    vector (x, y) is Vec(SignOf(x), SignOf(y), x * x, y * y), and Denotes below
    ties the two; every real vector has exactly one such form
    (DenotesUnique), so nothing is lost.  In this form normalize() and
    scale() are exact rational arithmetic. */
module Vectors {

  datatype Sign = Negative | Zero | Positive

  datatype Vec = Vec(sx: Sign, sy: Sign, x2: real, y2: real)

  function SignOf(r: real): (s: Sign)
    ensures s == Negative <==> r < 0.0
    ensures s == Positive <==> r > 0.0
  {
    if r < 0.0 then Negative else if r > 0.0 then Positive else Zero
  }

  /** v is the form of the real vector (x, y). */
  predicate Denotes(v: Vec, x: real, y: real) {
    v.sx == SignOf(x) && v.x2 == x * x && v.sy == SignOf(y) && v.y2 == y * y
  }

  /** What every form of a real vector satisfies: squares are not negative,
      and a component of sign Zero has square 0. */
  predicate WellFormed(v: Vec) {
    v.x2 >= 0.0 && v.y2 >= 0.0
    && (v.sx == Zero ==> v.x2 == 0.0) && (v.sy == Zero ==> v.y2 == 0.0)
  }

  const Origin := Vec(Zero, Zero, 0.0, 0.0)

  /** The squared length x * x + y * y. */
  function LengthSq(v: Vec): real {
    v.x2 + v.y2
  }

  lemma ScaleByPositive(k: real, a: real)
    requires k > 0.0 && a >= 0.0
    ensures k * k * a >= 0.0
  {
    assert k * k > 0.0;
  }

  lemma DivideByPositive(a: real, b: real, len: real)
    requires a >= 0.0 && b >= 0.0 && len == a + b && len > 0.0
    ensures a / len >= 0.0 && (a / len == 0.0 <==> a == 0.0) && (a / len) * len == a
    ensures a / len + b / len == 1.0
  {
    assert a / len + b / len == (a + b) / len;
    if a > 0.0 {
      assert a / len > 0.0;
    }
  }

  /** The form loses nothing: a form denotes at most one real vector. */
  lemma DenotesUnique(v: Vec, x: real, y: real, x': real, y': real)
    requires Denotes(v, x, y) && Denotes(v, x', y')
    ensures x == x' && y == y'
  {
  }

  /** Vector2.set(x, y), which Body.setVelocity(x, y) calls: the form of
      (x, y), and of no other real vector. */
  function Of(x: real, y: real): (v: Vec)
    ensures WellFormed(v)
    ensures forall x', y' :: Denotes(v, x', y') <==> x' == x && y' == y
  {
    var v := Vec(SignOf(x), SignOf(y), x * x, y * y);
    assert Denotes(v, x, y);
    v
  }

  /** Assigning the x component, as Body.setVelocityX(x) does. */
  function WithX(v: Vec, x: real): (r: Vec)
    requires WellFormed(v)
    ensures WellFormed(r)
    ensures r.sx == SignOf(x) && r.x2 == x * x
    ensures r.sy == v.sy && r.y2 == v.y2
  {
    Vec(SignOf(x), v.sy, x * x, v.y2)
  }

  /** Assigning the y component, as Body.setVelocityY(y) does. */
  function WithY(v: Vec, y: real): (r: Vec)
    requires WellFormed(v)
    ensures WellFormed(r)
    ensures r.sx == v.sx && r.x2 == v.x2
    ensures r.sy == SignOf(y) && r.y2 == y * y
  {
    Vec(v.sx, SignOf(y), v.x2, y * y)
  }

  /** Vector2.normalize(): a non-zero vector is divided by its length,
      the zero vector is left alone. */
  function Normalize(v: Vec): (r: Vec)
    requires WellFormed(v)
    ensures WellFormed(r)
    ensures r.sx == v.sx && r.sy == v.sy
    ensures LengthSq(v) == 0.0 ==> r == v
    ensures LengthSq(v) > 0.0 ==> LengthSq(r) == 1.0
  {
    var len := LengthSq(v);
    if len > 0.0 then
      DivideByPositive(v.x2, v.y2, len);
      DivideByPositive(v.y2, v.x2, len);
      Vec(v.sx, v.sy, v.x2 / len, v.y2 / len)
    else v
  }

  /** Vector2.scale(k) by a positive factor: each component times k. */
  function Scale(v: Vec, k: real): (r: Vec)
    requires WellFormed(v) && k > 0.0
    ensures WellFormed(r)
    ensures r.sx == v.sx && r.sy == v.sy
    ensures r.x2 == k * k * v.x2 && r.y2 == k * k * v.y2
  {
    ScaleByPositive(k, v.x2);
    ScaleByPositive(k, v.y2);
    Vec(v.sx, v.sy, k * k * v.x2, k * k * v.y2)
  }

  /** Normalising divides each square by the squared length, so the
      direction is kept. */
  lemma NormalizeKeepsDirection(v: Vec)
    requires WellFormed(v) && LengthSq(v) > 0.0
    ensures Normalize(v).x2 * LengthSq(v) == v.x2
    ensures Normalize(v).y2 * LengthSq(v) == v.y2
  {
  }

  /** Scaling by k multiplies the squared length by k * k. */
  lemma ScaleLength(v: Vec, k: real)
    requires WellFormed(v) && k > 0.0
    ensures LengthSq(Scale(v, k)) == k * k * LengthSq(v)
  {
    assert k * k * v.x2 + k * k * v.y2 == k * k * (v.x2 + v.y2);
  }

  /** Scaling the form scales the vector it denotes. */
  lemma ScaleDenotes(v: Vec, k: real, x: real, y: real)
    requires WellFormed(v) && k > 0.0 && Denotes(v, x, y)
    ensures Denotes(Scale(v, k), k * x, k * y)
  {
  }

  /** Assigning a component changes that component of the denoted vector
      and keeps the other. */
  lemma AssignDenotes(v: Vec, x: real, y: real, a: real)
    requires WellFormed(v) && Denotes(v, x, y)
    ensures Denotes(WithX(v, a), a, y)
    ensures Denotes(WithY(v, a), x, a)
  {
  }
}
