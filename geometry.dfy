/**
 * Points, the 2D DOMMatrix in the forms the canvas uses (translate · rotate · scale),
 * and the host's math library.
 *
 * Numbers are exact reals. `Math.cos`, `Math.sin`, `Math.atan2`, `Math.hypot` and
 * `Math.PI` are not computed: they are the fields of a `HostMath` value, and a
 * lemma that needs one of their identities asks for it at the point where it is
 * used (`RotationIdentitiesAt`, `HypotAt`).
 */
module Geometry {

  datatype Vec2 = Vec2(x: real, y: real) {
    function Add(o: Vec2): Vec2 { Vec2(x + o.x, y + o.y) }
    function Sub(o: Vec2): Vec2 { Vec2(x - o.x, y - o.y) }
    /** Component-wise product (the ⊙ of a scale applied to a local offset). */
    function Mul(o: Vec2): Vec2 { Vec2(x * o.x, y * o.y) }
    function Dot(o: Vec2): real { x * o.x + y * o.y }
    function NormSq(): real { x * x + y * y }
  }

  function Abs(r: real): real { if r < 0.0 then -r else r }
  function Max(a: real, b: real): real { if a < b then b else a }
  function Min(a: real, b: real): real { if a < b then a else b }

  /** `(a + b) / 2` component-wise: calculateMiddlePoint. */
  function Midpoint(p: Vec2, q: Vec2): (m: Vec2)
    ensures m.Sub(p) == q.Sub(m)
  {
    Vec2((p.x + q.x) / 2.0, (p.y + q.y) / 2.0)
  }

  /**
   * A DOMMatrix restricted to 2D: the point (x, y) goes to
   * (a x + c y + e, b x + d y + f).
   */
  datatype Affine = Affine(a: real, b: real, c: real, d: real, e: real, f: real) {

    function Apply(p: Vec2): Vec2 {
      Vec2(a * p.x + c * p.y + e, b * p.x + d * p.y + f)
    }

    function Det(): real { a * d - b * c }

    /** `this.multiply(m)`: the transform that applies `m` first, then `this`. */
    function Multiply(m: Affine): (r: Affine)
      ensures forall p: Vec2 {:trigger r.Apply(p)} :: r.Apply(p) == Apply(m.Apply(p))
    {
      var r := Affine(a * m.a + c * m.b, b * m.a + d * m.b,
                      a * m.c + c * m.d, b * m.c + d * m.d,
                      a * m.e + c * m.f + e, b * m.e + d * m.f + f);
      forall p: Vec2 ensures r.Apply(p) == Apply(m.Apply(p)) {
        MultiplyApply(this, m, p);
      }
      r
    }

    /**
     * `inverse()`; DOMMatrix yields NaN coefficients when the determinant is 0. That it
     * undoes the map, in both orders, is `InverseRoundTrips`.
     */
    function Inverse(): (r: Affine)
      requires Det() != 0.0
      ensures r.Det() != 0.0
    {
      InverseDet(this, 1.0 / Det());
      InverseWith(1.0 / Det())
    }

    /** The adjugate scaled by `ik`, the reciprocal of the determinant. */
    function InverseWith(ik: real): Affine {
      Affine(d * ik, -b * ik, -c * ik, a * ik, (c * f - d * e) * ik, (b * e - a * f) * ik)
    }
  }

  /** One coordinate of a composition: a·(n applied) + c·(n applied) + e, regrouped. */
  lemma ComposeRow(a: real, c: real, e: real, na: real, nb: real, nc: real, nd: real, ne: real, nf: real, x: real, y: real)
    ensures a * (na * x + nc * y + ne) + c * (nb * x + nd * y + nf) + e
         == (a * na + c * nb) * x + (a * nc + c * nd) * y + (a * ne + c * nf + e)
  {
  }

  lemma MultiplyApply(m: Affine, n: Affine, p: Vec2)
    ensures Affine(m.a * n.a + m.c * n.b, m.b * n.a + m.d * n.b,
                   m.a * n.c + m.c * n.d, m.b * n.c + m.d * n.d,
                   m.a * n.e + m.c * n.f + m.e, m.b * n.e + m.d * n.f + m.f).Apply(p)
            == m.Apply(n.Apply(p))
  {
    var r := Affine(m.a * n.a + m.c * n.b, m.b * n.a + m.d * n.b,
                    m.a * n.c + m.c * n.d, m.b * n.c + m.d * n.d,
                    m.a * n.e + m.c * n.f + m.e, m.b * n.e + m.d * n.f + m.f);
    var q := n.Apply(p);
    ComposeRow(m.a, m.c, m.e, n.a, n.b, n.c, n.d, n.e, n.f, p.x, p.y);
    ComposeRow(m.b, m.d, m.f, n.a, n.b, n.c, n.d, n.e, n.f, p.x, p.y);
    assert r.Apply(p).x == m.Apply(q).x;
    assert r.Apply(p).y == m.Apply(q).y;
  }

  /** Cramer's rule for the 2×2 linear part, with `ik` the reciprocal of the determinant. */
  lemma Cramer(a: real, b: real, c: real, d: real, ik: real, x: real, y: real)
    requires ik * (a * d - b * c) == 1.0
    ensures d * ik * (a * x + c * y) - c * ik * (b * x + d * y) == x
    ensures -b * ik * (a * x + c * y) + a * ik * (b * x + d * y) == y
    ensures a * (d * ik * x - c * ik * y) + c * (-b * ik * x + a * ik * y) == x
    ensures b * (d * ik * x - c * ik * y) + d * (-b * ik * x + a * ik * y) == y
  {
    var k := a * d - b * c;
    assert d * ik * (a * x + c * y) - c * ik * (b * x + d * y) == (ik * k) * x;
    assert -b * ik * (a * x + c * y) + a * ik * (b * x + d * y) == (ik * k) * y;
    assert a * (d * ik * x - c * ik * y) + c * (-b * ik * x + a * ik * y) == (ik * k) * x;
    assert b * (d * ik * x - c * ik * y) + d * (-b * ik * x + a * ik * y) == (ik * k) * y;
  }

  /** The scaled adjugate applied to q acts on q minus the translation. */
  lemma InverseWithApply(m: Affine, ik: real, q: Vec2)
    ensures var u, v := q.x - m.e, q.y - m.f;
            m.InverseWith(ik).Apply(q) == Vec2(m.d * ik * u - m.c * ik * v, -m.b * ik * u + m.a * ik * v)
  {
    var u, v := q.x - m.e, q.y - m.f;
    assert m.d * ik * q.x + (-m.c * ik) * q.y + (m.c * m.f - m.d * m.e) * ik == m.d * ik * u - m.c * ik * v;
    assert (-m.b * ik) * q.x + m.a * ik * q.y + (m.b * m.e - m.a * m.f) * ik == -m.b * ik * u + m.a * ik * v;
  }

  lemma InverseUndoes(m: Affine, ik: real, p: Vec2)
    requires ik * m.Det() == 1.0
    ensures m.InverseWith(ik).Apply(m.Apply(p)) == p
  {
    var q := m.Apply(p);
    var u, v := q.x - m.e, q.y - m.f;
    InverseWithApply(m, ik, q);
    CramerSolves(m.a, m.b, m.c, m.d, ik, p.x, p.y, u, v);
    assert m.InverseWith(ik).Apply(q).x == p.x;
    assert m.InverseWith(ik).Apply(q).y == p.y;
  }

  lemma CramerSolves(a: real, b: real, c: real, d: real, ik: real, x: real, y: real, u: real, v: real)
    requires ik * (a * d - b * c) == 1.0
    requires u == a * x + c * y && v == b * x + d * y
    ensures d * ik * u - c * ik * v == x && -b * ik * u + a * ik * v == y
  {
    Cramer(a, b, c, d, ik, x, y);
  }

  lemma InverseRedoes(m: Affine, ik: real, q: Vec2)
    requires ik * m.Det() == 1.0
    ensures m.Apply(m.InverseWith(ik).Apply(q)) == q
  {
    var u, v := q.x - m.e, q.y - m.f;
    var w := m.InverseWith(ik).Apply(q);
    InverseWithApply(m, ik, q);
    Cramer(m.a, m.b, m.c, m.d, ik, u, v);
    assert m.a * w.x + m.c * w.y == u && m.b * w.x + m.d * w.y == v;
    assert m.Apply(w).x == q.x;
    assert m.Apply(w).y == q.y;
  }

  lemma InverseDet(m: Affine, ik: real)
    requires ik * m.Det() == 1.0
    ensures m.InverseWith(ik).Det() != 0.0
  {
    var k := m.Det();
    assert m.InverseWith(ik).Det() == ik * (ik * k);
  }

  /** One coordinate of an affine map commutes with halving a sum. */
  lemma MidRow(a: real, c: real, e: real, x1: real, y1: real, x2: real, y2: real)
    ensures a * ((x1 + x2) / 2.0) + c * ((y1 + y2) / 2.0) + e
         == ((a * x1 + c * y1 + e) + (a * x2 + c * y2 + e)) / 2.0
  {
  }

  /** An affine map sends the midpoint of two points to the midpoint of their images. */
  lemma {:induction false} MidpointCommutes(m: Affine, p: Vec2, q: Vec2)
    ensures m.Apply(Midpoint(p, q)) == Midpoint(m.Apply(p), m.Apply(q))
  {
    var mid, mp, mq := Midpoint(p, q), m.Apply(p), m.Apply(q);
    MidRow(m.a, m.c, m.e, p.x, p.y, q.x, q.y);
    MidRow(m.b, m.d, m.f, p.x, p.y, q.x, q.y);
    assert m.Apply(mid).x == Midpoint(mp, mq).x;
    assert m.Apply(mid).y == Midpoint(mp, mq).y;
  }

  /** The host's `Math`: the functions the canvas code calls, left uninterpreted. */
  datatype MathLibrary = MathLibrary(
    cos: real -> real,
    sin: real -> real,
    atan2: (real, real) -> real,
    hypot: (real, real) -> real,
    pi: real)

  /** Only its constant is pinned down: `Math.PI` is positive. */
  type HostMath = m: MathLibrary | m.pi > 0.0
    witness MathLibrary(t => t, t => t, (y, x) => y, (x, y) => x, 3.0)

  /** cos² + sin² = 1 at `t`, cos(-t) = cos t and sin(-t) = -sin t. */
  predicate RotationIdentitiesAt(math: HostMath, t: real) {
    && math.cos(t) * math.cos(t) + math.sin(t) * math.sin(t) == 1.0
    && math.cos(-t) == math.cos(t)
    && math.sin(-t) == -math.sin(t)
  }

  /** `Math.hypot(x, y)` is the non-negative square root of x² + y². */
  predicate HypotAt(math: HostMath, x: real, y: real) {
    math.hypot(x, y) >= 0.0 && math.hypot(x, y) * math.hypot(x, y) == x * x + y * y
  }

  /** degToRad: `deg * Math.PI / 180`. */
  function DegToRad(math: HostMath, deg: real): real {
    deg * math.pi / 180.0
  }

  /** 180 degrees is π radians, the conversion is linear, and it keeps the sign. */
  lemma DegToRadScales(math: HostMath, deg: real)
    ensures DegToRad(math, 180.0) == math.pi
    ensures DegToRad(math, deg) * 180.0 == deg * math.pi
    ensures deg > 0.0 ==> DegToRad(math, deg) > 0.0
    ensures deg < 0.0 ==> DegToRad(math, deg) < 0.0
    ensures deg == 0.0 ==> DegToRad(math, deg) == 0.0
  {
  }

  /** rotateVec: the vector turned by `angleRad` about the origin. */
  function RotateVec(math: HostMath, v: Vec2, angleRad: real): Vec2 {
    var cos := math.cos(angleRad);
    var sin := math.sin(angleRad);
    Vec2(v.x * cos - v.y * sin, v.x * sin + v.y * cos)
  }

  /** A turn by (c, s) multiplies the squared length by c² + s². */
  lemma RotationScalesLength(c: real, s: real, x: real, y: real)
    ensures (x * c - y * s) * (x * c - y * s) + (x * s + y * c) * (x * s + y * c)
         == (x * x + y * y) * (c * c + s * s)
  {
  }

  /** inverseRotateVec: rotateVec by the negated angle, the transposed rotation. */
  function InverseRotateVec(math: HostMath, v: Vec2, angleRad: real): Vec2 {
    RotateVec(math, v, -angleRad)
  }

  /**
   * Under the rotation identities at `t`, both turns keep lengths, and turning back is the
   * transposed rotation.
   */
  lemma {:induction false} RotationKeepsLength(math: HostMath, v: Vec2, t: real)
    requires RotationIdentitiesAt(math, t)
    ensures RotateVec(math, v, t).NormSq() == v.NormSq()
    ensures InverseRotateVec(math, v, t).NormSq() == v.NormSq()
    ensures InverseRotateVec(math, v, t)
         == Vec2(v.x * math.cos(t) + v.y * math.sin(t), -v.x * math.sin(t) + v.y * math.cos(t))
  {
    var c, s := math.cos(t), math.sin(t);
    RotationScalesLength(c, s, v.x, v.y);
    RotationScalesLength(c, -s, v.x, v.y);
    var back := InverseRotateVec(math, v, t);
    assert back == Vec2(v.x * c - v.y * -s, v.x * -s + v.y * c);
    assert back.NormSq() == (v.x * v.x + v.y * v.y) * (c * c + -s * -s);
  }

  /** Rotating (x, y) by (c, s) and then by (c, -s) scales it by c² + s². */
  lemma TurnBack(c: real, s: real, x: real, y: real)
    ensures (x * c + y * s) * c - (-x * s + y * c) * s == x * (c * c + s * s)
    ensures (x * c + y * s) * s + (-x * s + y * c) * c == y * (c * c + s * s)
    ensures (x * c - y * s) * c + (x * s + y * c) * s == x * (c * c + s * s)
    ensures -(x * c - y * s) * s + (x * s + y * c) * c == y * (c * c + s * s)
  {
  }

  /** Under the rotation identities at `t`, turning back by `t` undoes turning by `t`, in both orders. */
  lemma {:induction false} RotateUndoesInverseRotate(math: HostMath, v: Vec2, t: real)
    requires RotationIdentitiesAt(math, t)
    ensures RotateVec(math, InverseRotateVec(math, v, t), t) == v
    ensures InverseRotateVec(math, RotateVec(math, v, t), t) == v
  {
    var c, s := math.cos(t), math.sin(t);
    assert math.cos(-t) == c && math.sin(-t) == -s;
    TurnBack(c, s, v.x, v.y);
  }

  /** Rotating a scaled vector, coordinate by coordinate, is the linear part of translate · rotate · scale. */
  lemma RotateScaleRows(c: real, s: real, sx: real, sy: real, x: real, y: real)
    ensures c * sx * x + (-s * sy) * y == (x * sx) * c - (y * sy) * s
    ensures s * sx * x + c * sy * y == (x * sx) * s + (y * sy) * c
  {
  }

  /**
   * `new DOMMatrix().translateSelf(p).rotateSelf(0, 0, deg).scaleSelf(s.x, s.y)` with the
   * rotation's cosine and sine taken from the host.
   */
  function TranslateRotateScale(math: HostMath, position: Vec2, rotationDeg: real, scale: Vec2): (m: Affine)
    ensures forall v: Vec2 {:trigger m.Apply(v)} ::
      m.Apply(v) == position.Add(RotateVec(math, scale.Mul(v), DegToRad(math, rotationDeg)))
  {
    var cos := math.cos(DegToRad(math, rotationDeg));
    var sin := math.sin(DegToRad(math, rotationDeg));
    var m := Affine(cos * scale.x, sin * scale.x, -sin * scale.y, cos * scale.y, position.x, position.y);
    forall v: Vec2 ensures m.Apply(v) == position.Add(RotateVec(math, scale.Mul(v), DegToRad(math, rotationDeg))) {
      var w := RotateVec(math, scale.Mul(v), DegToRad(math, rotationDeg));
      RotateScaleRows(cos, sin, scale.x, scale.y, v.x, v.y);
      assert m.Apply(v).x == position.Add(w).x;
      assert m.Apply(v).y == position.Add(w).y;
    }
    m
  }

  /** Axis-aligned containment in the origin-centred box of the given size, edges included. */
  predicate InsideLocalBox(q: Vec2, size: Vec2) {
    -size.x / 2.0 <= q.x <= size.x / 2.0 && -size.y / 2.0 <= q.y <= size.y / 2.0
  }

  /**
   * contains: the world point is taken back to local space through the inverse of `m`
   * and tested against the box; a singular `m` inverts to NaN, which no comparison accepts.
   */
  function ContainsIn(m: Affine, size: Vec2, p: Vec2): bool {
    m.Det() != 0.0 && InsideLocalBox(m.Inverse().Apply(p), size)
  }

  /**
   * A singular matrix contains nothing; a point it contains is the image of the local
   * point the test examined.
   */
  lemma ContainsNeedsInverse(m: Affine, size: Vec2, p: Vec2)
    ensures m.Det() == 0.0 ==> !ContainsIn(m, size, p)
    ensures ContainsIn(m, size, p) ==> InsideLocalBox(m.Inverse().Apply(p), size) && m.Apply(m.Inverse().Apply(p)) == p
  {
    if m.Det() != 0.0 {
      InverseRoundTrips(m, p);
    }
  }

  /** Containment holds exactly for the images of the points of the local box. */
  lemma ContainsIffImageOfBox(m: Affine, size: Vec2, p: Vec2)
    requires m.Det() != 0.0
    ensures ContainsIn(m, size, p) <==> exists q: Vec2 {:trigger m.Apply(q)} :: InsideLocalBox(q, size) && m.Apply(q) == p
  {
    var q := m.Inverse().Apply(p);
    InverseRoundTrips(m, p);
    forall q': Vec2 | m.Apply(q') == p ensures q' == q {
      InverseRoundTrips(m, q');
    }
  }

  /** Containment of an image point is containment of its preimage in the local box. */
  lemma ContainsAtPreimage(m: Affine, size: Vec2, q: Vec2)
    requires m.Det() != 0.0
    ensures ContainsIn(m, size, m.Apply(q)) <==> InsideLocalBox(q, size)
  {
    InverseRoundTrips(m, q);
  }

  /** The inverse undoes the map and the map undoes the inverse. */
  lemma InverseRoundTrips(m: Affine, p: Vec2)
    requires m.Det() != 0.0
    ensures m.Inverse().Apply(m.Apply(p)) == p
    ensures m.Apply(m.Inverse().Apply(p)) == p
  {
    InverseUndoes(m, 1.0 / m.Det(), p);
    InverseRedoes(m, 1.0 / m.Det(), p);
  }
}
