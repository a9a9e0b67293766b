/**
 * The transformation tool's handles as values: the ten handle kinds and their tables
 * (cursor, hit radius, opposite handle, place in the element's box), the screen layout
 * computed from the camera-times-element transform, the hit test, and the three drag
 * rules: rotate (with the angle normalised into [-180, 180)), translate and scale about
 * the opposite handle.
 */
module Handles {
  import opened Wrappers
  import opened Geometry
  import opened SceneElements

  datatype HandleType =
    | TopLeft | TopCenter | TopRight | RightCenter
    | BottomRight | BottomCenter | BottomLeft | LeftCenter
    | Rotate | Translate
  {
    /** The eight handles that scale the element. */
    predicate IsScale() { !Rotate? && !Translate? }

    predicate IsCorner() { TopLeft? || TopRight? || BottomRight? || BottomLeft? }
  }

  /** The CSS cursor shown over a handle. */
  datatype Cursor = NwseResize | NeswResize | NsResize | EwResize | Grab | Move

  function CursorOf(t: HandleType): Cursor {
    match t
    case TopLeft | BottomRight => NwseResize
    case TopRight | BottomLeft => NeswResize
    case TopCenter | BottomCenter => NsResize
    case RightCenter | LeftCenter => EwResize
    case Rotate => Grab
    case Translate => Move
  }

  const ProportionalScaleHandleSize := 8.0
  const FreeScaleHandleSize := 6.0
  const RotationHandleSize := 16.0
  /** How far, in screen units, the rotate handle sits beyond the bottom edge's midpoint. */
  const RotationHandleOffset := 32.0

  /** The hit radius, in screen units. */
  function Radius(t: HandleType): real {
    match t
    case TopLeft | TopRight | BottomRight | BottomLeft => ProportionalScaleHandleSize
    case TopCenter | RightCenter | BottomCenter | LeftCenter => FreeScaleHandleSize
    case Rotate | Translate => RotationHandleSize
  }

  /** The handle that stays put while this one is dragged. */
  function Opposite(t: HandleType): HandleType {
    match t
    case TopLeft => BottomRight
    case TopCenter => BottomCenter
    case TopRight => BottomLeft
    case RightCenter => LeftCenter
    case BottomRight => TopLeft
    case BottomCenter => TopCenter
    case BottomLeft => TopRight
    case LeftCenter => RightCenter
    case Rotate => Rotate
    case Translate => Translate
  }

  /** The handle's place in the element's box, as fractions of its size about the centre. */
  function LocalPosition(t: HandleType): Vec2 {
    match t
    case TopLeft => Vec2(-0.5, -0.5)
    case TopCenter => Vec2(0.0, -0.5)
    case TopRight => Vec2(0.5, -0.5)
    case RightCenter => Vec2(0.5, 0.0)
    case BottomRight => Vec2(0.5, 0.5)
    case BottomCenter => Vec2(0.0, 0.5)
    case BottomLeft => Vec2(-0.5, 0.5)
    case LeftCenter => Vec2(-0.5, 0.0)
    case Rotate => Vec2(0.0, 0.0)
    case Translate => Vec2(0.0, 0.0)
  }

  /**
   * The tables agree: opposition is an involution that moves exactly the scale handles,
   * sends a handle to the point reflected through the centre, and keeps its cursor and
   * radius.
   */
  lemma HandleTablesAgree(t: HandleType)
    ensures Opposite(Opposite(t)) == t
    ensures t.IsScale() <==> Opposite(t) != t
    ensures Opposite(t).IsScale() <==> t.IsScale()
    ensures Opposite(t).IsCorner() <==> t.IsCorner()
    ensures CursorOf(Opposite(t)) == CursorOf(t)
    ensures Radius(Opposite(t)) == Radius(t) && Radius(t) > 0.0
  {
  }

  /**
   * Each cursor names the direction its handle drags along: ↕ for the top and bottom
   * midpoints, ↔ for the left and right ones, the diagonals for the corners, grab for
   * the rotate handle and move for the translate handle.
   */
  lemma CursorFollowsPlace(t: HandleType)
    ensures CursorOf(t) == Grab <==> t == Rotate
    ensures CursorOf(t) == Move <==> t == Translate
    ensures CursorOf(t) == NsResize <==> t.IsScale() && LocalPosition(t).x == 0.0
    ensures CursorOf(t) == EwResize <==> t.IsScale() && LocalPosition(t).y == 0.0
    ensures CursorOf(t) == NwseResize <==> t.IsCorner() && LocalPosition(t).x == LocalPosition(t).y
    ensures CursorOf(t) == NeswResize <==> t.IsCorner() && LocalPosition(t).x == -LocalPosition(t).y
  {
  }

  /** Corners are the larger proportional handles, midpoints the smaller free ones, rotate and translate the largest. */
  lemma RadiusByKind(t: HandleType)
    ensures Radius(t) > 0.0
    ensures Radius(t) == ProportionalScaleHandleSize <==> t.IsCorner()
    ensures Radius(t) == FreeScaleHandleSize <==> t.IsScale() && !t.IsCorner()
    ensures Radius(t) == RotationHandleSize <==> !t.IsScale()
  {
  }

  /**
   * Every place lies in the unit box; the scale handles sit on its border, the corners
   * off both axes, and rotate and translate at the centre.
   */
  lemma LocalPositionOnBorder(t: HandleType)
    ensures InsideLocalBox(LocalPosition(t), Vec2(1.0, 1.0))
    ensures t.IsScale() <==> LocalPosition(t) != Vec2(0.0, 0.0)
    ensures t.IsScale() ==> LocalPosition(t).x * LocalPosition(t).x == 0.25 || LocalPosition(t).y * LocalPosition(t).y == 0.25
    ensures t.IsCorner() <==> LocalPosition(t).x != 0.0 && LocalPosition(t).y != 0.0
  {
  }

  /** The opposite handle sits at the point reflected through the box's centre. */
  lemma OppositeReflects(t: HandleType)
    ensures LocalPosition(Opposite(t)) == Vec2(-LocalPosition(t).x, -LocalPosition(t).y)
  {
  }

  datatype Handle = Handle(kind: HandleType, position: Vec2)

  /** The order of the handle list, which is the order the hit test tries them in. */
  const HandleOrder: seq<HandleType> :=
    [TopLeft, TopCenter, TopRight, RightCenter, BottomRight, BottomCenter, BottomLeft, LeftCenter, Rotate, Translate]

  /** Where each kind sits in `HandleOrder`; every kind sits there exactly once. */
  function IndexOf(t: HandleType): (i: nat)
    ensures i < |HandleOrder| && HandleOrder[i] == t
    ensures forall j :: 0 <= j < |HandleOrder| && HandleOrder[j] == t ==> j == i
  {
    match t
    case TopLeft => 0
    case TopCenter => 1
    case TopRight => 2
    case RightCenter => 3
    case BottomRight => 4
    case BottomCenter => 5
    case BottomLeft => 6
    case LeftCenter => 7
    case Rotate => 8
    case Translate => 9
  }

  /** A handle list in the layout's order. */
  predicate InLayoutOrder(handles: seq<Handle>) {
    |handles| == |HandleOrder| && forall i :: 0 <= i < |handles| ==> handles[i].kind == HandleOrder[i]
  }

  /**
   * The unit normal of the bottom edge that points away from the centre (or, for an edge
   * of length 0, straight down the screen's y axis unless that points inwards).
   */
  function OutwardNormal(math: HostMath, center: Vec2, bottomLeft: Vec2, bottomCenter: Vec2, bottomRight: Vec2): (n: Vec2)
    ensures n.Dot(bottomCenter.Sub(center)) >= 0.0
  {
    var edge := bottomRight.Sub(bottomLeft);
    var unit := EdgeNormal(edge, math.hypot(-edge.y, edge.x));
    if unit.Dot(bottomCenter.Sub(center)) < 0.0 then Vec2(-unit.x, -unit.y) else unit
  }

  /** The normal (-y, x) of the edge divided by its length, or (0, 1) for a length of 0. */
  function EdgeNormal(edge: Vec2, length: real): Vec2 {
    if length != 0.0 then Vec2(-edge.y / length, edge.x / length) else Vec2(0.0, 1.0)
  }

  /** Given the true length, the edge normal is a unit vector perpendicular to the edge. */
  lemma EdgeNormalIsUnit(edge: Vec2, length: real)
    requires length >= 0.0 && length * length == (-edge.y) * (-edge.y) + edge.x * edge.x
    ensures EdgeNormal(edge, length).NormSq() == 1.0 && EdgeNormal(edge, length).Dot(edge) == 0.0
  {
    if length != 0.0 {
      UnitLength(-edge.y, edge.x, length);
      PerpendicularDot(edge.x, edge.y, length);
    } else {
      SquaresVanish(-edge.y, edge.x);
    }
  }

  /** Reversing a vector keeps its length and negates its dot products. */
  lemma Reversed(u: Vec2, e: Vec2)
    ensures Vec2(-u.x, -u.y).NormSq() == u.NormSq()
    ensures Vec2(-u.x, -u.y).Dot(e) == -u.Dot(e)
  {
  }

  /** calculateRotationHandlePosition: the offset along the outward normal of the bottom edge. */
  function RotationHandlePosition(math: HostMath, center: Vec2, bottomLeft: Vec2, bottomCenter: Vec2, bottomRight: Vec2): (p: Vec2)
    ensures p.Sub(bottomCenter).Dot(bottomCenter.Sub(center)) >= 0.0
  {
    var n := OutwardNormal(math, center, bottomLeft, bottomCenter, bottomRight);
    var p := Vec2(bottomCenter.x + RotationHandleOffset * n.x, bottomCenter.y + RotationHandleOffset * n.y);
    assert p.Sub(bottomCenter).Dot(bottomCenter.Sub(center)) == RotationHandleOffset * n.Dot(bottomCenter.Sub(center));
    p
  }

  /** (x / l)² + (y / l)² = 1 when l² = x² + y² and l is positive. */
  lemma UnitLength(x: real, y: real, l: real)
    requires l > 0.0 && l * l == x * x + y * y
    ensures (x / l) * (x / l) + (y / l) * (y / l) == 1.0
  {
    ProductOfQuotients(x, x, l, l);
    ProductOfQuotients(y, y, l, l);
    SumOverProduct(x * x, y * y, l, l);
    SelfQuotient(l, l);
  }

  // The solver handles products of distinct variables far better than squares, so the
  // helpers below are stated for two factors and used with both set to the same value.

  lemma SameProduct(u: real, v: real, u': real, v': real)
    requires u == v && u' == v'
    ensures u * u' == v * v'
  {
  }

  lemma QuotientByProduct(q: real, p: real, a: real, b: real)
    requires a > 0.0 && b > 0.0 && q * (a * b) == p
    ensures q == p / (a * b)
  {
    assert a * b > 0.0;
  }

  lemma RegroupProduct(u: real, v: real, a: real, b: real)
    ensures (u * v) * (a * b) == (u * a) * (v * b)
  {
  }

  lemma ProductOfQuotients(x: real, y: real, a: real, b: real)
    requires a > 0.0 && b > 0.0
    ensures (x / a) * (y / b) == (x * y) / (a * b)
  {
    RegroupProduct(x / a, y / b, a, b);
    SameProduct((x / a) * a, x, (y / b) * b, y);
    QuotientByProduct((x / a) * (y / b), x * y, a, b);
  }

  lemma SumOverProduct(p: real, q: real, a: real, b: real)
    requires a > 0.0 && b > 0.0
    ensures p / (a * b) + q / (a * b) == (p + q) / (a * b)
  {
    assert a * b > 0.0;
  }

  lemma SelfQuotient(a: real, b: real)
    requires a > 0.0 && b > 0.0
    ensures (a * b) / (a * b) == 1.0
  {
    assert a * b > 0.0;
  }

  /** A sum of two squares is 0 only at 0. */
  lemma SquaresVanish(x: real, y: real)
    requires x * x + y * y == 0.0
    ensures x == 0.0 && y == 0.0
  {
    Square(x);
    Square(y);
  }

  /** A square is never negative, and is 0 only at 0. */
  lemma Square(x: real)
    ensures x * x >= 0.0
    ensures x * x == 0.0 ==> x == 0.0
  {
    if x * x == 0.0 {
      ZeroProduct(x, x);
    }
  }

  /** (-y / l, x / l) is perpendicular to (x, y). */
  lemma PerpendicularDot(x: real, y: real, l: real)
    requires l != 0.0
    ensures (-y / l) * x + (x / l) * y == 0.0
  {
    var a, b := x / l, y / l;
    assert x == a * l && y == b * l;
    assert (-b) * (a * l) + a * (b * l) == 0.0;
  }

  /** Given `Math.hypot` at the edge's normal, the outward normal is a unit vector perpendicular to the edge. */
  lemma {:induction false} OutwardNormalIsUnit(math: HostMath, center: Vec2, bottomLeft: Vec2, bottomCenter: Vec2, bottomRight: Vec2)
    requires var edge := bottomRight.Sub(bottomLeft); HypotAt(math, -edge.y, edge.x)
    ensures var n := OutwardNormal(math, center, bottomLeft, bottomCenter, bottomRight);
            n.NormSq() == 1.0 && n.Dot(bottomRight.Sub(bottomLeft)) == 0.0
  {
    var edge := bottomRight.Sub(bottomLeft);
    var unit := EdgeNormal(edge, math.hypot(-edge.y, edge.x));
    EdgeNormalIsUnit(edge, math.hypot(-edge.y, edge.x));
    Reversed(unit, edge);
  }

  /**
   * Given `Math.hypot` at the edge's normal, the rotate handle sits exactly
   * `RotationHandleOffset` screen units from the bottom edge's midpoint, along a direction
   * perpendicular to the bottom edge.
   */
  lemma {:induction false} RotationHandleOnNormal(math: HostMath, center: Vec2, bottomLeft: Vec2, bottomCenter: Vec2, bottomRight: Vec2)
    requires var edge := bottomRight.Sub(bottomLeft); HypotAt(math, -edge.y, edge.x)
    ensures var p := RotationHandlePosition(math, center, bottomLeft, bottomCenter, bottomRight);
            && p.Sub(bottomCenter).NormSq() == RotationHandleOffset * RotationHandleOffset
            && p.Sub(bottomCenter).Dot(bottomRight.Sub(bottomLeft)) == 0.0
  {
    var edge := bottomRight.Sub(bottomLeft);
    var n := OutwardNormal(math, center, bottomLeft, bottomCenter, bottomRight);
    OutwardNormalIsUnit(math, center, bottomLeft, bottomCenter, bottomRight);
    var p := RotationHandlePosition(math, center, bottomLeft, bottomCenter, bottomRight);
    assert p.Sub(bottomCenter) == Vec2(RotationHandleOffset * n.x, RotationHandleOffset * n.y);
    ScaledVector(RotationHandleOffset, n, edge);
  }

  /** |k n|² = k² |n|² and (k n) · e = k (n · e). */
  lemma ScaledVector(k: real, n: Vec2, e: Vec2)
    ensures Vec2(k * n.x, k * n.y).NormSq() == k * k * n.NormSq()
    ensures Vec2(k * n.x, k * n.y).Dot(e) == k * n.Dot(e)
  {
  }

  /**
   * updateHandles: the four corners of the box and its centre through `ctm` (the camera
   * matrix times the element matrix), the edge handles at the midpoints of the image
   * corners, the rotate handle beyond the bottom edge, and the translate handle at the centre.
   */
  function HandleLayout(math: HostMath, ctm: Affine, size: Vec2): (handles: seq<Handle>)
    ensures InLayoutOrder(handles)
    ensures handles[IndexOf(Translate)].position == ctm.Apply(Vec2(0.0, 0.0))
  {
    var scale := ScaleHandleLayout(ctm, size);
    var center := ctm.Apply(Vec2(0.0, 0.0));
    scale + [ Handle(Rotate, RotationHandlePosition(math, center, scale[6].position, scale[5].position, scale[4].position)),
              Handle(Translate, center) ]
  }

  /** The eight scale handles of updateHandles, corners and edge midpoints in list order. */
  function ScaleHandleLayout(ctm: Affine, size: Vec2): (handles: seq<Handle>)
    ensures |handles| == 8 && forall i :: 0 <= i < 8 ==> handles[i].kind == HandleOrder[i]
  {
    var corners := LocalCorners(size);
    var topLeft, topRight := ctm.Apply(corners[0]), ctm.Apply(corners[1]);
    var bottomRight, bottomLeft := ctm.Apply(corners[2]), ctm.Apply(corners[3]);
    [ Handle(TopLeft, topLeft),
      Handle(TopCenter, Midpoint(topLeft, topRight)),
      Handle(TopRight, topRight),
      Handle(RightCenter, Midpoint(topRight, bottomRight)),
      Handle(BottomRight, bottomRight),
      Handle(BottomCenter, Midpoint(bottomRight, bottomLeft)),
      Handle(BottomLeft, bottomLeft),
      Handle(LeftCenter, Midpoint(bottomLeft, topLeft)) ]
  }

  /**
   * Every scale handle of the layout is the image under `ctm` of its place in the box,
   * `LocalPosition` scaled by the size: the two tables describe the same handles.
   */
  lemma {:induction false} LayoutMatchesLocalPositions(math: HostMath, ctm: Affine, size: Vec2)
    ensures var handles := HandleLayout(math, ctm, size);
      forall i :: 0 <= i < |handles| && handles[i].kind.IsScale() ==>
        handles[i].position == ctm.Apply(LocalPosition(handles[i].kind).Mul(size))
  {
    var handles := HandleLayout(math, ctm, size);
    forall i | 0 <= i < |handles| && handles[i].kind.IsScale()
      ensures handles[i].position == ctm.Apply(LocalPosition(handles[i].kind).Mul(size))
    {
      LayoutScaleHandle(math, ctm, size, i);
    }
  }

  /** The scale handle at index `i` of the layout is the image of its place in the box. */
  lemma LayoutScaleHandle(math: HostMath, ctm: Affine, size: Vec2, i: nat)
    requires i < 8
    ensures HandleLayout(math, ctm, size)[i].position
         == ctm.Apply(LocalPosition(HandleLayout(math, ctm, size)[i].kind).Mul(size))
  {
    assert HandleLayout(math, ctm, size)[i] == ScaleHandleLayout(ctm, size)[i];
    ScaleHandleImage(ctm, size, i);
    ScalePointIsPlace(size, i);
  }

  /**
   * The point of the origin-centred box that scale handle `i` is computed from: a corner,
   * or the midpoint of the two corners beside it.
   */
  function ScalePoint(size: Vec2, i: nat): Vec2
    requires i < 8
  {
    var c := LocalCorners(size);
    if i == 0 then c[0] else if i == 1 then Midpoint(c[0], c[1])
    else if i == 2 then c[1] else if i == 3 then Midpoint(c[1], c[2])
    else if i == 4 then c[2] else if i == 5 then Midpoint(c[2], c[3])
    else if i == 6 then c[3] else Midpoint(c[3], c[0])
  }

  /** Each scale handle of the layout is the image of its box point, midpoints included. */
  lemma ScaleHandleImage(ctm: Affine, size: Vec2, i: nat)
    requires i < 8
    ensures ScaleHandleLayout(ctm, size)[i].position == ctm.Apply(ScalePoint(size, i))
  {
    var c := LocalCorners(size);
    if i == 1 {
      MidpointCommutes(ctm, c[0], c[1]);
    } else if i == 3 {
      MidpointCommutes(ctm, c[1], c[2]);
    } else if i == 5 {
      MidpointCommutes(ctm, c[2], c[3]);
    } else if i == 7 {
      MidpointCommutes(ctm, c[3], c[0]);
    }
  }

  /** The box point of scale handle `i` is its `LocalPosition` scaled by the size. */
  lemma ScalePointIsPlace(size: Vec2, i: nat)
    requires i < 8
    ensures ScalePoint(size, i) == LocalPosition(HandleOrder[i]).Mul(size)
  {
  }

  /** `Array.prototype.find` on the handle list by kind. */
  function FindHandle(handles: seq<Handle>, t: HandleType): (r: Option<Handle>)
    ensures r.None? <==> forall i :: 0 <= i < |handles| ==> handles[i].kind != t
    ensures r.Some? ==> exists i :: 0 <= i < |handles| && handles[i] == r.value && r.value.kind == t
                               && forall j :: 0 <= j < i ==> handles[j].kind != t
  {
    if |handles| == 0 then None
    else if handles[0].kind == t then Some(handles[0])
    else
      var r := FindHandle(handles[1..], t);
      if r.Some? then
        var i :| 0 <= i < |handles[1..]| && handles[1..][i] == r.value && r.value.kind == t
                 && forall j :: 0 <= j < i ==> handles[1..][j].kind != t;
        assert handles[i + 1] == r.value && forall j :: 0 <= j < i + 1 ==> handles[j].kind != t;
        r
      else
        r
  }

  /** In a list in layout order every kind is found, at its own index: 'Handle not found.' is never thrown. */
  lemma {:induction false} LayoutFindsEveryHandle(handles: seq<Handle>, t: HandleType)
    requires InLayoutOrder(handles)
    ensures FindHandle(handles, t) == Some(handles[IndexOf(t)])
  {
    var r := FindHandle(handles, t);
    assert handles[IndexOf(t)].kind == t;
    var i :| 0 <= i < |handles| && handles[i] == r.value && r.value.kind == t;
    assert HandleOrder[i] == t;
  }

  /**
   * Whether the screen point is on the handle: the translate handle whenever the point is
   * inside the element, any other handle within its radius.
   */
  predicate Hits(math: HostMath, h: Handle, screen: Vec2, insideElement: bool) {
    if h.kind == Translate then insideElement else WithinRadius(math, h, screen)
  }

  /** `Math.hypot` of the offset from the handle is at most the handle's radius. */
  predicate WithinRadius(math: HostMath, h: Handle, screen: Vec2) {
    math.hypot(screen.x - h.position.x, screen.y - h.position.y) <= Radius(h.kind)
  }

  /** Given `Math.hypot` at the offset, a handle other than translate is hit within a disc. */
  lemma HitWithinDisc(math: HostMath, h: Handle, screen: Vec2, insideElement: bool)
    requires h.kind != Translate
    requires HypotAt(math, screen.x - h.position.x, screen.y - h.position.y)
    ensures Hits(math, h, screen, insideElement) <==> screen.Sub(h.position).NormSq() <= Radius(h.kind) * Radius(h.kind)
  {
    var d := math.hypot(screen.x - h.position.x, screen.y - h.position.y);
    var r := Radius(h.kind);
    HandleTablesAgree(h.kind);
    assert screen.Sub(h.position).NormSq() == d * d;
    SquaresOrdered(d, r);
  }

  /** For non-negative d and r, d ≤ r exactly when d² ≤ r². */
  lemma SquaresOrdered(d: real, r: real)
    requires d >= 0.0 && r >= 0.0
    ensures d <= r <==> d * d <= r * r
  {
    assert r * r - d * d == (r - d) * (r + d);
    if d <= r {
      NonnegativeProduct(r - d, r + d);
    } else {
      PositiveProduct(d - r, d + r);
    }
  }

  lemma NonnegativeProduct(a: real, b: real)
    requires a >= 0.0 && b >= 0.0
    ensures a * b >= 0.0
  {
  }

  lemma PositiveProduct(a: real, b: real)
    requires a > 0.0 && b > 0.0
    ensures a * b > 0.0
  {
  }

  /** hitTestHandles: the first handle of the list, in list order, that the point hits. */
  function FirstHit(math: HostMath, handles: seq<Handle>, screen: Vec2, insideElement: bool): (r: Option<Handle>)
    ensures r.Some? ==> r.value in handles && Hits(math, r.value, screen, insideElement)
  {
    if |handles| == 0 then None
    else if Hits(math, handles[0], screen, insideElement) then Some(handles[0])
    else FirstHit(math, handles[1..], screen, insideElement)
  }

  /**
   * The scan finds nothing exactly when no handle is hit, and otherwise a handle that is
   * hit with none before it hit.
   */
  lemma {:induction false} FirstHitIsFirst(math: HostMath, handles: seq<Handle>, screen: Vec2, insideElement: bool)
    ensures var r := FirstHit(math, handles, screen, insideElement);
      && (r.None? <==> forall i :: 0 <= i < |handles| ==> !Hits(math, handles[i], screen, insideElement))
      && (r.Some? ==>
           exists i :: 0 <= i < |handles| && handles[i] == r.value && Hits(math, r.value, screen, insideElement)
                       && forall j :: 0 <= j < i ==> !Hits(math, handles[j], screen, insideElement))
    decreases |handles|
  {
    if |handles| > 0 && !Hits(math, handles[0], screen, insideElement) {
      FirstHitIsFirst(math, handles[1..], screen, insideElement);
      FirstHitShift(math, handles, screen, insideElement, FirstHit(math, handles[1..], screen, insideElement));
    }
  }

  /** Scanning the list: the first hit from `i` on is handle `i` if it hits, else the first hit after it. */
  lemma FirstHitStep(math: HostMath, handles: seq<Handle>, i: nat, screen: Vec2, insideElement: bool)
    requires i < |handles|
    ensures FirstHit(math, handles[i..], screen, insideElement)
         == if Hits(math, handles[i], screen, insideElement) then Some(handles[i])
            else FirstHit(math, handles[i + 1..], screen, insideElement)
  {
    assert handles[i..][0] == handles[i] && handles[i..][1..] == handles[i + 1..];
  }

  /** A first hit in the tail, behind a head that misses, is a first hit in the whole list. */
  lemma FirstHitShift(math: HostMath, handles: seq<Handle>, screen: Vec2, insideElement: bool, r: Option<Handle>)
    requires |handles| > 0 && !Hits(math, handles[0], screen, insideElement)
    requires r.None? <==> forall i :: 0 <= i < |handles[1..]| ==> !Hits(math, handles[1..][i], screen, insideElement)
    requires r.Some? ==>
      exists i :: 0 <= i < |handles[1..]| && handles[1..][i] == r.value && Hits(math, r.value, screen, insideElement)
                  && forall j :: 0 <= j < i ==> !Hits(math, handles[1..][j], screen, insideElement)
    ensures r.None? <==> forall i :: 0 <= i < |handles| ==> !Hits(math, handles[i], screen, insideElement)
    ensures r.Some? ==>
      exists i :: 0 <= i < |handles| && handles[i] == r.value && Hits(math, r.value, screen, insideElement)
                  && forall j :: 0 <= j < i ==> !Hits(math, handles[j], screen, insideElement)
  {
    var tail := handles[1..];
    if r.None? {
      forall i | 0 <= i < |handles| ensures !Hits(math, handles[i], screen, insideElement) {
        if i > 0 {
          assert handles[i] == tail[i - 1];
        }
      }
    } else {
      var i :| 0 <= i < |tail| && tail[i] == r.value && Hits(math, r.value, screen, insideElement)
               && forall j :: 0 <= j < i ==> !Hits(math, tail[j], screen, insideElement);
      assert handles[i + 1] == r.value;
      forall j | 0 <= j < i + 1 ensures !Hits(math, handles[j], screen, insideElement) {
        if j > 0 {
          assert handles[j] == tail[j - 1];
        }
      }
    }
  }

  /**
   * The translate handle is last, so a point inside the element always hits a handle,
   * and a scale or rotate handle under the point wins over it.
   */
  lemma {:induction false} LayoutHitInsideElement(math: HostMath, handles: seq<Handle>, screen: Vec2)
    requires InLayoutOrder(handles)
    ensures FirstHit(math, handles, screen, true).Some?
    ensures forall i :: 0 <= i < IndexOf(Translate) && Hits(math, handles[i], screen, true) ==>
              FirstHit(math, handles, screen, true).value.kind != Translate
  {
    assert Hits(math, handles[IndexOf(Translate)], screen, true);
    FirstHitIsFirst(math, handles, screen, true);
    var r := FirstHit(math, handles, screen, true);
    forall i | 0 <= i < IndexOf(Translate) && Hits(math, handles[i], screen, true)
      ensures r.value.kind != Translate
    {
      var k :| 0 <= k < |handles| && handles[k] == r.value && Hits(math, r.value, screen, true)
               && forall j :: 0 <= j < k ==> !Hits(math, handles[j], screen, true);
      assert k <= i;
    }
  }

  /** JavaScript's truncation toward zero of a number to an integer. */
  function Trunc(r: real): int {
    if r >= 0.0 then r.Floor else -((-r).Floor)
  }

  /**
   * JavaScript's `x % 360` on numbers: the remainder of the truncated quotient, which
   * carries the dividend's sign.
   */
  function Rem360(x: real): (r: real)
    ensures x >= 0.0 ==> 0.0 <= r < 360.0
    ensures x < 0.0 ==> -360.0 < r <= 0.0
  {
    var q := x / 360.0;
    if q >= 0.0 then
      FloorFraction(q);
      x - Trunc(q) as real * 360.0
    else
      FloorFraction(-q);
      x - Trunc(q) as real * 360.0
  }

  /** What is left above the floor is a fraction in [0, 1). */
  lemma FloorFraction(q: real)
    ensures 0.0 <= q - q.Floor as real < 1.0
  {
  }

  /** normalizeAngle: `((((angle + 180) % 360) + 360) % 360) - 180`, always in [-180, 180). */
  function NormalizeAngle(angle: real): (r: real)
    ensures -180.0 <= r < 180.0
  {
    Rem360(Rem360(angle + 180.0) + 360.0) - 180.0
  }

  /** `Rem360` differs from its dividend by a whole number of turns. */
  lemma Rem360Turns(x: real) returns (k: int)
    ensures x - Rem360(x) == k as real * 360.0
  {
    k := Trunc(x / 360.0);
  }

  /** Two residues in [0, 360) that differ by a whole multiple of 360 are equal. */
  lemma SameResidue(u: real, v: real, k: int)
    requires 0.0 <= u < 360.0 && 0.0 <= v < 360.0
    requires u - v == k as real * 360.0
    ensures u == v
  {
    assert -1.0 < k as real < 1.0;
  }

  /**
   * The truncating remainders compute the floored remainder: the angle is reduced by the
   * whole turns below (angle + 180) / 360.
   */
  lemma {:induction false} NormalizeAngleIsFloorMod(angle: real)
    ensures NormalizeAngle(angle) == angle - 360.0 * ((angle + 180.0) / 360.0).Floor as real
  {
    var x := angle + 180.0;
    var r1 := Rem360(x);
    var k1 := Rem360Turns(x);
    var r2 := Rem360(r1 + 360.0);
    var k2 := Rem360Turns(r1 + 360.0);
    var f := (x / 360.0).Floor;
    var v := x - 360.0 * f as real;
    FloorFraction(x / 360.0);
    assert r2 - v == (f - k1 - k2 + 1) as real * 360.0;
    SameResidue(r2, v, f - k1 - k2 + 1);
  }

  /** Angles already in [-180, 180) are left as they are. */
  lemma {:induction false} NormalizeAngleFixesRange(angle: real)
    requires -180.0 <= angle < 180.0
    ensures NormalizeAngle(angle) == angle
  {
    NormalizeAngleIsFloorMod(angle);
    assert ((angle + 180.0) / 360.0).Floor == 0;
  }

  /** Whole turns make no difference. */
  lemma {:induction false} NormalizeAngleWholeTurns(angle: real, turns: int)
    ensures NormalizeAngle(angle + turns as real * 360.0) == NormalizeAngle(angle)
  {
    NormalizeAngleIsFloorMod(angle);
    NormalizeAngleIsFloorMod(angle + turns as real * 360.0);
    assert (angle + turns as real * 360.0 + 180.0) / 360.0 == (angle + 180.0) / 360.0 + turns as real;
    FloorShift((angle + 180.0) / 360.0, turns);
  }

  /** The result is the angle less a whole number of turns. */
  lemma {:induction false} NormalizeAngleTurnsAway(angle: real) returns (turns: int)
    ensures angle - NormalizeAngle(angle) == turns as real * 360.0
  {
    NormalizeAngleIsFloorMod(angle);
    turns := ((angle + 180.0) / 360.0).Floor;
  }

  /** Adding a whole number adds it to the floor. */
  lemma FloorShift(q: real, k: int)
    ensures (q + k as real).Floor == q.Floor + k
  {
    var f, g := q.Floor, (q + k as real).Floor;
    assert f as real <= q < f as real + 1.0;
    assert g as real <= q + k as real < g as real + 1.0;
  }

  /** Normalising twice is normalising once. */
  lemma NormalizeAngleIdempotent(angle: real)
    ensures NormalizeAngle(NormalizeAngle(angle)) == NormalizeAngle(angle)
  {
    NormalizeAngleFixesRange(NormalizeAngle(angle));
  }

  /** 190 degrees is normalised to -170. */
  lemma NormalizeAngleOf190()
    ensures NormalizeAngle(190.0) == -170.0
  {
    NormalizeAngleIsFloorMod(190.0);
  }

  /** 180 degrees is normalised to -180: the range is closed below and open above. */
  lemma NormalizeAngleOf180()
    ensures NormalizeAngle(180.0) == -180.0
  {
    NormalizeAngleIsFloorMod(180.0);
  }

  /** -540 degrees is normalised to -180. */
  lemma NormalizeAngleOfMinus540()
    ensures NormalizeAngle(-540.0) == -180.0
  {
    NormalizeAngleIsFloorMod(-540.0);
  }

  /** What a rotate drag remembers from the pointer-down. */
  datatype RotationDrag = RotationDrag(
    centerWorld: Vec2, initialPointerWorld: Vec2, initialAngle: real, initialRotation: real)

  /** The angle, by `Math.atan2`, of the pointer as seen from the centre. */
  function PointerAngle(math: HostMath, center: Vec2, pointer: Vec2): real {
    math.atan2(pointer.y - center.y, pointer.x - center.x)
  }

  /** How far, in degrees, the pointer has turned about the centre since the pointer-down. */
  function TurnDegrees(math: HostMath, drag: RotationDrag, pointerWorld: Vec2): real {
    (PointerAngle(math, drag.centerWorld, pointerWorld) - drag.initialAngle) * (180.0 / math.pi)
  }

  /**
   * The rotate drag: the starting rotation plus the turn of the pointer about the centre
   * since the pointer-down, converted to degrees and normalised.
   */
  function DraggedRotation(math: HostMath, drag: RotationDrag, pointerWorld: Vec2): (deg: real)
    ensures -180.0 <= deg < 180.0
  {
    NormalizeAngle(drag.initialRotation + TurnDegrees(math, drag, pointerWorld))
  }

  /**
   * A rotate drag whose pointer has not turned about the centre since the pointer-down
   * keeps the element's rotation, up to whole turns; a rotation in [-180, 180) exactly.
   */
  lemma {:induction false} UnturnedDragKeepsRotation(math: HostMath, drag: RotationDrag, pointerWorld: Vec2)
    requires PointerAngle(math, drag.centerWorld, pointerWorld) == drag.initialAngle
    ensures DraggedRotation(math, drag, pointerWorld) == NormalizeAngle(drag.initialRotation)
    ensures -180.0 <= drag.initialRotation < 180.0 ==> DraggedRotation(math, drag, pointerWorld) == drag.initialRotation
  {
    NoTurn(PointerAngle(math, drag.centerWorld, pointerWorld), drag.initialAngle, 180.0 / math.pi);
    assert drag.initialRotation + TurnDegrees(math, drag, pointerWorld) == drag.initialRotation;
    if -180.0 <= drag.initialRotation < 180.0 {
      NormalizeAngleFixesRange(drag.initialRotation);
    }
  }

  lemma NoTurn(a: real, b: real, k: real)
    requires a == b
    ensures (a - b) * k == 0.0
  {
  }

  /** The translate drag: the pointer less the offset it had from the centre at the pointer-down. */
  function DraggedPosition(pointerWorld: Vec2, pointerOffset: Vec2): (position: Vec2)
    ensures position.Add(pointerOffset) == pointerWorld
  {
    pointerWorld.Sub(pointerOffset)
  }

  /**
   * With the offset taken at the pointer-down, the element follows the pointer: back at the
   * grab point it is back at its centre, and a pointer moved by d moves it by d.
   */
  lemma {:induction false} TranslateFollowsPointer(grabWorld: Vec2, centerWorld: Vec2, pointerWorld: Vec2)
    ensures DraggedPosition(grabWorld, grabWorld.Sub(centerWorld)) == centerWorld
    ensures DraggedPosition(pointerWorld, grabWorld.Sub(centerWorld)).Sub(centerWorld) == pointerWorld.Sub(grabWorld)
  {
    assert DraggedPosition(grabWorld, grabWorld.Sub(centerWorld)).x == centerWorld.x;
    assert DraggedPosition(grabWorld, grabWorld.Sub(centerWorld)).y == centerWorld.y;
  }

  const MinScale := 0.01
  /** Below this a box offset counts as zero and its axis keeps its scale. */
  const ScaleEpsilon := 0.000001

  datatype ScaleResult = ScaleResult(newScale: Vec2, newPosition: Vec2)

  /**
   * scaleObjectWithHandle: the pointer's offset from the stationary handle, turned back
   * into the element's frame, divided by the box offset between the two handles gives the
   * new scale on each axis whose box offset is not (nearly) zero; the scale is clamped at
   * `MinScale`; the position is then chosen so that the stationary handle stays in place.
   */
  function ScaleObjectWithHandle(math: HostMath, t: HandleType, pointerWorld: Vec2, stationaryWorld: Vec2,
                                 size: Vec2, scale: Vec2, rotationDeg: real): (r: ScaleResult)
    ensures r.newScale.x >= MinScale && r.newScale.y >= MinScale
    ensures (t.TopCenter? || t.BottomCenter?) ==> r.newScale.x == Max(scale.x, MinScale)
    ensures (t.LeftCenter? || t.RightCenter?) ==> r.newScale.y == Max(scale.y, MinScale)
  {
    var pDrag := LocalPosition(t).Mul(size);
    var pFixed := LocalPosition(Opposite(t)).Mul(size);
    var dLocal := pDrag.Sub(pFixed);
    var dWorld := pointerWorld.Sub(stationaryWorld);
    var angle := DegToRad(math, rotationDeg);
    var dLocalNew := InverseRotateVec(math, dWorld, angle);
    var newScale := ScaleFromOffsets(dLocal, dLocalNew, scale);
    ScaleResult(newScale, stationaryWorld.Sub(RotateVec(math, newScale.Mul(pFixed), angle)))
  }

  /**
   * The new scale: on each axis whose box offset is not (nearly) zero, the turned-back
   * pointer offset over the box offset; on the others the old scale; then clamped.
   */
  function ScaleFromOffsets(dLocal: Vec2, dLocalNew: Vec2, scale: Vec2): (s: Vec2)
    ensures s.x >= MinScale && s.y >= MinScale
    ensures Abs(dLocal.x) <= ScaleEpsilon ==> s.x == Max(scale.x, MinScale)
    ensures Abs(dLocal.y) <= ScaleEpsilon ==> s.y == Max(scale.y, MinScale)
  {
    var sx := if Abs(dLocal.x) > ScaleEpsilon then dLocalNew.x / dLocal.x else scale.x;
    var sy := if Abs(dLocal.y) > ScaleEpsilon then dLocalNew.y / dLocal.y else scale.y;
    Vec2(Max(sx, MinScale), Max(sy, MinScale))
  }

  /** Unclamped on both axes, the new scale stretches the box offset onto the turned-back pointer offset. */
  lemma UnclampedScale(dLocal: Vec2, dLocalNew: Vec2, scale: Vec2)
    requires Abs(dLocal.x) > ScaleEpsilon && Abs(dLocal.y) > ScaleEpsilon
    requires dLocalNew.x / dLocal.x >= MinScale && dLocalNew.y / dLocal.y >= MinScale
    ensures ScaleFromOffsets(dLocal, dLocalNew, scale).Mul(dLocal) == dLocalNew
  {
    RatioTimes(dLocalNew.x, dLocal.x);
    RatioTimes(dLocalNew.y, dLocal.y);
  }

  /** A corner and its opposite span the whole box on both axes. */
  lemma CornerOffsetSpansBox(t: HandleType, size: Vec2)
    requires t.IsCorner()
    ensures var dLocal := LocalPosition(t).Mul(size).Sub(LocalPosition(Opposite(t)).Mul(size));
            Abs(dLocal.x) == Abs(size.x) && Abs(dLocal.y) == Abs(size.y)
  {
  }

  /**
   * The stationary handle stays where it was: the element's new matrix maps the opposite
   * handle's box point onto the stationary handle's world point, whatever the host's
   * trigonometry.
   */
  lemma {:induction false} ScaleKeepsStationaryHandle(math: HostMath, t: HandleType, pointerWorld: Vec2, stationaryWorld: Vec2,
                                                    size: Vec2, scale: Vec2, rotationDeg: real)
    ensures var r := ScaleObjectWithHandle(math, t, pointerWorld, stationaryWorld, size, scale, rotationDeg);
      TranslateRotateScale(math, r.newPosition, rotationDeg, r.newScale).Apply(LocalPosition(Opposite(t)).Mul(size))
        == stationaryWorld
  {
    var r := ScaleObjectWithHandle(math, t, pointerWorld, stationaryWorld, size, scale, rotationDeg);
    var pFixed := LocalPosition(Opposite(t)).Mul(size);
    var turned := RotateVec(math, r.newScale.Mul(pFixed), DegToRad(math, rotationDeg));
    var m := TranslateRotateScale(math, r.newPosition, rotationDeg, r.newScale);
    assert m.Apply(pFixed) == r.newPosition.Add(turned);
    assert r.newPosition.Add(turned).x == stationaryWorld.x;
    assert r.newPosition.Add(turned).y == stationaryWorld.y;
  }

  /** Rotation is linear: turning a difference is the difference of the turned vectors. */
  lemma RotateSub(math: HostMath, u: Vec2, v: Vec2, t: real)
    ensures RotateVec(math, u, t).Sub(RotateVec(math, v, t)) == RotateVec(math, u.Sub(v), t)
  {
    var c, s := math.cos(t), math.sin(t);
    assert (u.x * c - u.y * s) - (v.x * c - v.y * s) == (u.x - v.x) * c - (u.y - v.y) * s;
    assert (u.x * s + u.y * c) - (v.x * s + v.y * c) == (u.x - v.x) * s + (u.y - v.y) * c;
  }

  /** (n / d) · d = n for d not 0. */
  lemma RatioTimes(n: real, d: real)
    requires d != 0.0
    ensures (n / d) * d == n
  {
  }

  /**
   * A corner drag whose scale is not clamped puts the dragged corner exactly under the
   * pointer, given the rotation identities at the element's angle and a box that is not
   * flat on either axis.
   */
  lemma {:induction false} CornerDragFollowsPointer(math: HostMath, t: HandleType, pointerWorld: Vec2, stationaryWorld: Vec2,
                                                  size: Vec2, scale: Vec2, rotationDeg: real)
    requires t.IsCorner()
    requires Abs(size.x) > ScaleEpsilon && Abs(size.y) > ScaleEpsilon
    requires RotationIdentitiesAt(math, DegToRad(math, rotationDeg))
    requires var d := InverseRotateVec(math, pointerWorld.Sub(stationaryWorld), DegToRad(math, rotationDeg));
             var dLocal := LocalPosition(t).Mul(size).Sub(LocalPosition(Opposite(t)).Mul(size));
             d.x / dLocal.x >= MinScale && d.y / dLocal.y >= MinScale
    ensures var r := ScaleObjectWithHandle(math, t, pointerWorld, stationaryWorld, size, scale, rotationDeg);
      TranslateRotateScale(math, r.newPosition, rotationDeg, r.newScale).Apply(LocalPosition(t).Mul(size)) == pointerWorld
  {
    var angle := DegToRad(math, rotationDeg);
    var r := ScaleObjectWithHandle(math, t, pointerWorld, stationaryWorld, size, scale, rotationDeg);
    var pDrag := LocalPosition(t).Mul(size);
    var pFixed := LocalPosition(Opposite(t)).Mul(size);
    CornerOffsetSpansBox(t, size);
    UnclampedScale(pDrag.Sub(pFixed), InverseRotateVec(math, pointerWorld.Sub(stationaryWorld), angle), scale);
    CornerLands(math, angle, r.newScale, pDrag, pFixed, stationaryWorld, pointerWorld);
    var m := TranslateRotateScale(math, r.newPosition, rotationDeg, r.newScale);
    assert m.Apply(pDrag) == r.newPosition.Add(RotateVec(math, r.newScale.Mul(pDrag), angle));
  }

  /**
   * Placing the stationary point and then turning the scaled offset lands on the pointer,
   * when the scaled offset is the turned-back pointer offset.
   */
  lemma CornerLands(math: HostMath, angle: real, newScale: Vec2, pDrag: Vec2, pFixed: Vec2, stationaryWorld: Vec2, pointerWorld: Vec2)
    requires RotationIdentitiesAt(math, angle)
    requires newScale.Mul(pDrag.Sub(pFixed)) == InverseRotateVec(math, pointerWorld.Sub(stationaryWorld), angle)
    ensures stationaryWorld.Sub(RotateVec(math, newScale.Mul(pFixed), angle)).Add(RotateVec(math, newScale.Mul(pDrag), angle))
         == pointerWorld
  {
    var dWorld := pointerWorld.Sub(stationaryWorld);
    assert newScale.Mul(pDrag).Sub(newScale.Mul(pFixed)) == newScale.Mul(pDrag.Sub(pFixed)) by {
      assert newScale.x * pDrag.x - newScale.x * pFixed.x == newScale.x * (pDrag.x - pFixed.x);
      assert newScale.y * pDrag.y - newScale.y * pFixed.y == newScale.y * (pDrag.y - pFixed.y);
    }
    RotateSub(math, newScale.Mul(pDrag), newScale.Mul(pFixed), angle);
    RotateUndoesInverseRotate(math, dWorld, angle);
    var turnedDrag := RotateVec(math, newScale.Mul(pDrag), angle);
    var turnedFixed := RotateVec(math, newScale.Mul(pFixed), angle);
    assert turnedDrag.Sub(turnedFixed) == dWorld;
    assert stationaryWorld.Sub(turnedFixed).Add(turnedDrag).x == pointerWorld.x;
    assert stationaryWorld.Sub(turnedFixed).Add(turnedDrag).y == pointerWorld.y;
  }
}
