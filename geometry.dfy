/** Real-valued 2D vectors, 2x2 matrices, affine maps and RGB colours: the
    value types a flame transform is built from (V2f, M22f, AffineMap, C3f).
    Floating point is modelled by exact real arithmetic. */
module Geometry {

  datatype Vec2 = Vec2(x: real, y: real)

  const Origin := Vec2(0.0, 0.0)

  function Add(u: Vec2, v: Vec2): Vec2 { Vec2(u.x + v.x, u.y + v.y) }

  function Sub(u: Vec2, v: Vec2): Vec2 { Vec2(u.x - v.x, u.y - v.y) }

  function ScaleVec(k: real, v: Vec2): Vec2 { Vec2(k * v.x, k * v.y) }

  /** Squared Euclidean length; V2f::length() is its square root. */
  function LengthSq(v: Vec2): real { v.x * v.x + v.y * v.y }

  /** M22f(a, b, c, d) packs rows: applied to (x, y) it gives (a x + b y, c x + d y). */
  datatype Mat2 = Mat2(a: real, b: real, c: real, d: real)

  const Identity := Mat2(1.0, 0.0, 0.0, 1.0)

  function Apply(m: Mat2, v: Vec2): Vec2 { Vec2(m.a * v.x + m.b * v.y, m.c * v.x + m.d * v.y) }

  function Mul(m: Mat2, n: Mat2): Mat2 {
    Mat2(m.a * n.a + m.b * n.c, m.a * n.b + m.b * n.d,
         m.c * n.a + m.d * n.c, m.c * n.b + m.d * n.d)
  }

  function ScaleMat(k: real, m: Mat2): Mat2 { Mat2(k * m.a, k * m.b, k * m.c, k * m.d) }

  function Det(m: Mat2): real { m.a * m.d - m.b * m.c }

  /** The determinant is multiplicative, so a product of matrices scales areas
      by the product of their factors. */
  lemma DetMul(m: Mat2, n: Mat2)
    ensures Det(Mul(m, n)) == Det(m) * Det(n)
  {
    calc {
      Det(Mul(m, n));
      (m.a * n.a + m.b * n.c) * (m.c * n.b + m.d * n.d) - (m.a * n.b + m.b * n.d) * (m.c * n.a + m.d * n.c);
      m.a * m.d * (n.a * n.d - n.b * n.c) + m.b * m.c * (n.b * n.c - n.a * n.d);
      Det(m) * Det(n);
    }
  }

  /** Multiplying every entry by k multiplies the determinant by k squared. */
  lemma DetScale(k: real, m: Mat2)
    ensures Det(ScaleMat(k, m)) == k * k * Det(m)
  {
    calc {
      Det(ScaleMat(k, m));
      (k * m.a) * (k * m.d) - (k * m.b) * (k * m.c);
      k * k * (m.a * m.d - m.b * m.c);
    }
  }

  /** An affine map x -> m x + c. */
  datatype AffineMap = AffineMap(m: Mat2, c: Vec2)

  function MapPoint(f: AffineMap, p: Vec2): Vec2 { Add(Apply(f.m, p), f.c) }

  /** An RGB colour (C3f); C3f(1) is white. */
  datatype Color = Color(r: real, g: real, b: real)

  const White := Color(1.0, 1.0, 1.0)

  /** s * mine + (1 - s) * current: the running colour pulled towards a map's own
      colour with that map's blend weight s. */
  function Blend(s: real, mine: Color, current: Color): (r: Color)
    ensures 0.0 <= s <= 1.0 ==> Between(r.r, mine.r, current.r) && Between(r.g, mine.g, current.g)
                                 && Between(r.b, mine.b, current.b)
    ensures s == 1.0 ==> r == mine
    ensures s == 0.0 ==> r == current
  {
    BlendBetween(s, mine.r, current.r);
    BlendBetween(s, mine.g, current.g);
    BlendBetween(s, mine.b, current.b);
    Color(s * mine.r + (1.0 - s) * current.r,
          s * mine.g + (1.0 - s) * current.g,
          s * mine.b + (1.0 - s) * current.b)
  }

  /** v lies between u and w (in either order). */
  predicate Between(v: real, u: real, w: real) {
    (u <= v <= w) || (w <= v <= u)
  }

  lemma BlendBetween(s: real, u: real, w: real)
    ensures 0.0 <= s <= 1.0 ==> Between(s * u + (1.0 - s) * w, u, w)
  {
    if !(0.0 <= s <= 1.0) {
    } else if u <= w {
      assert s * u <= s * w;
      assert (1.0 - s) * u <= (1.0 - s) * w;
    } else {
      assert s * w <= s * u;
      assert (1.0 - s) * w <= (1.0 - s) * u;
    }
  }
}
