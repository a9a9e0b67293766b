/**
 * Scene elements: the base element (id, zIndex, selection and hover flags), its
 * geometry API (position, size, scale, rotation, local corners, a lazily
 * recomputed world matrix, containment), and the two variants, Rectangle (with a
 * colour) and Image (with a source and a loaded flag), as one class whose variant
 * is a closed tag.
 */
module SceneElements {
  import opened Geometry

  /** The fields every element record carries. */
  datatype BaseConfig = BaseConfig(
    id: real, position: Vec2, size: Vec2, scale: Vec2, rotation: real, zIndex: real)

  /** An element record as the host hands it over; its `type` tag decides its extra field. */
  datatype ConfigRecord =
    | RectangleConfig(base: BaseConfig, color: string)
    | ImageConfig(base: BaseConfig, src: string)
    | OtherConfig(base: BaseConfig, tag: string)

  /** A record whose tag agrees with its shape: only rectangles say "rectangle", only images say "image". */
  type SceneConfig = c: ConfigRecord | c.OtherConfig? ==> c.tag != "rectangle" && c.tag != "image"
    witness RectangleConfig(BaseConfig(0.0, Vec2(0.0, 0.0), Vec2(0.0, 0.0), Vec2(1.0, 1.0), 0.0, 0.0), "white")

  /** The record's `type` field. */
  function TypeTag(c: ConfigRecord): (tag: string)
  {
    match c
    case RectangleConfig(_, _) => "rectangle"
    case ImageConfig(_, _) => "image"
    case OtherConfig(_, t) => t
  }

  /**
   * On a well-formed record the tag names its shape: "rectangle" exactly for rectangles,
   * "image" exactly for images, and any other record carries its own tag.
   */
  lemma TagNamesShape(c: SceneConfig)
    ensures TypeTag(c) == "rectangle" <==> c.RectangleConfig?
    ensures TypeTag(c) == "image" <==> c.ImageConfig?
    ensures c.OtherConfig? ==> TypeTag(c) == c.tag
  {
  }

  datatype ElementKind = Rectangle(color: string) | Image(src: string)

  /** The record an element with these base fields and this variant serialises to. */
  function ConfigOf(base: BaseConfig, kind: ElementKind): (c: SceneConfig)
    ensures c.base == base
    ensures TypeTag(c) == (if kind.Rectangle? then "rectangle" else "image")
    ensures kind.Rectangle? ==> c.RectangleConfig? && c.color == kind.color
    ensures kind.Image? ==> c.ImageConfig? && c.src == kind.src
  {
    match kind
    case Rectangle(color) => RectangleConfig(base, color)
    case Image(src) => ImageConfig(base, src)
  }

  /** What drawSelf puts on the canvas, in the element's local frame centred on the origin. */
  datatype DrawCall = FillRect(color: string, size: Vec2) | DrawImage(src: string, size: Vec2) | NoDraw

  /** Everything about an element that can change after construction, apart from its matrix cache. */
  datatype ElementState = ElementState(
    position: Vec2, scale: Vec2, rotation: real,
    isSelected: bool, isHovered: bool, isImageLoaded: bool)

  /** getLocalCorners: top-left, top-right, bottom-right, bottom-left of the origin-centred box. */
  function LocalCorners(size: Vec2): (corners: seq<Vec2>)
    ensures |corners| == 4
    ensures forall i :: 0 <= i < 4 ==> InsideLocalBox(corners[i], size) || size.x < 0.0 || size.y < 0.0
    ensures corners[2] == Vec2(0.0, 0.0).Sub(corners[0]) && corners[3] == Vec2(0.0, 0.0).Sub(corners[1])
    ensures corners[0].x == corners[3].x && corners[1].x == corners[2].x
    ensures corners[0].y == corners[1].y && corners[2].y == corners[3].y
    ensures corners[1].Sub(corners[0]) == Vec2(size.x, 0.0) && corners[3].Sub(corners[0]) == Vec2(0.0, size.y)
  {
    var hw, hh := size.x / 2.0, size.y / 2.0;
    [Vec2(-hw, -hh), Vec2(hw, -hh), Vec2(hw, hh), Vec2(-hw, hh)]
  }

  class SceneElement {
    const id: real
    const zIndex: real
    const size: Vec2
    const kind: ElementKind
    /** The host math the matrix's rotation uses. */
    const math: HostMath
    var position: Vec2
    var scale: Vec2
    /** Degrees. */
    var rotation: real
    var isSelected: bool
    var isHovered: bool
    /** Meaningful for images only: set by the image's load callback. */
    var isImageLoaded: bool
    var cachedMatrix: Affine
    var matrixNeedsUpdate: bool

    /** The cache agrees with the geometry whenever it is not marked stale; rectangles never load. */
    ghost predicate Valid()
      reads this
    {
      && (!matrixNeedsUpdate ==> cachedMatrix == WorldTransform())
      && (kind.Rectangle? ==> !isImageLoaded)
    }

    /** translate(position) · rotate(rotation) · scale(scale). */
    function WorldTransform(): Affine
      reads this`position, this`scale, this`rotation
    {
      TranslateRotateScale(math, position, rotation, scale)
    }

    function State(): ElementState
      reads this`position, this`scale, this`rotation, this`isSelected, this`isHovered, this`isImageLoaded
    {
      ElementState(position, scale, rotation, isSelected, isHovered, isImageLoaded)
    }

    constructor (config: BaseConfig, kind: ElementKind, math: HostMath)
      ensures Valid()
      ensures id == config.id && zIndex == config.zIndex && size == config.size && this.kind == kind
      ensures this.math == math
      ensures State() == ElementState(config.position, config.scale, config.rotation, false, false, false)
    {
      id := config.id;
      zIndex := config.zIndex;
      size := config.size;
      this.kind := kind;
      this.math := math;
      position := config.position;
      scale := config.scale;
      rotation := config.rotation;
      isSelected := false;
      isHovered := false;
      isImageLoaded := false;
      cachedMatrix := Affine(1.0, 0.0, 0.0, 1.0, 0.0, 0.0);
      matrixNeedsUpdate := true;
    }

    method SetIsSelected(b: bool)
      requires Valid()
      modifies this`isSelected
      ensures Valid()
      ensures State() == old(State()).(isSelected := b)
    {
      isSelected := b;
    }

    method SetIsHovered(b: bool)
      requires Valid()
      modifies this`isHovered
      ensures Valid()
      ensures State() == old(State()).(isHovered := b)
    {
      isHovered := b;
    }

    method SetPosition(p: Vec2)
      requires Valid()
      modifies this`position, this`matrixNeedsUpdate
      ensures Valid() && matrixNeedsUpdate
      ensures State() == old(State()).(position := p)
    {
      position := p;
      matrixNeedsUpdate := true;
    }

    method SetScale(s: Vec2)
      requires Valid()
      modifies this`scale, this`matrixNeedsUpdate
      ensures Valid() && matrixNeedsUpdate
      ensures State() == old(State()).(scale := s)
    {
      scale := s;
      matrixNeedsUpdate := true;
    }

    method SetRotation(deg: real)
      requires Valid()
      modifies this`rotation, this`matrixNeedsUpdate
      ensures Valid() && matrixNeedsUpdate
      ensures State() == old(State()).(rotation := deg)
    {
      rotation := deg;
      matrixNeedsUpdate := true;
    }

    /** The `matrix` getter: recomputed only when marked stale, otherwise the cached value. */
    method Matrix() returns (m: Affine)
      requires Valid()
      modifies this`cachedMatrix, this`matrixNeedsUpdate
      ensures Valid() && !matrixNeedsUpdate
      ensures m == WorldTransform() && m == cachedMatrix
      ensures !old(matrixNeedsUpdate) ==> m == old(cachedMatrix)
    {
      if matrixNeedsUpdate {
        cachedMatrix := TranslateRotateScale(math, position, rotation, scale);
        matrixNeedsUpdate := false;
      }
      m := cachedMatrix;
    }

    /** contains(x, y): the world point lies in the element's box, rotation and scale included. */
    method Contains(x: real, y: real) returns (r: bool)
      requires Valid()
      modifies this`cachedMatrix, this`matrixNeedsUpdate
      ensures Valid()
      ensures r == ContainsIn(WorldTransform(), size, Vec2(x, y))
    {
      var m := Matrix();
      if m.Det() == 0.0 {
        r := false;
      } else {
        var local := m.Inverse().Apply(Vec2(x, y));
        r := InsideLocalBox(local, size);
      }
    }

    /** toSceneConfig: the current geometry with the constructor's id, zIndex, size and variant. */
    function ToSceneConfig(): (c: SceneConfig)
      reads this
      ensures c.base.id == id && c.base.zIndex == zIndex && c.base.size == size
      ensures c.base.position == position && c.base.scale == scale && c.base.rotation == rotation
      ensures TypeTag(c) == "rectangle" <==> kind.Rectangle?
      ensures TypeTag(c) == "image" <==> kind.Image?
      ensures kind.Rectangle? ==> c.RectangleConfig? && c.color == kind.color
      ensures kind.Image? ==> c.ImageConfig? && c.src == kind.src
    {
      ConfigOf(BaseConfig(id, position, size, scale, rotation, zIndex), kind)
    }

    /** The image's load callback: the flag only ever goes from false to true. */
    method OnImageLoad()
      requires Valid() && kind.Image?
      modifies this`isImageLoaded
      ensures Valid()
      ensures State() == old(State()).(isImageLoaded := true)
    {
      isImageLoaded := true;
    }

    /** drawSelf: a rectangle always fills its box; an image blits exactly when it has loaded. */
    function DrawSelf(): (call: DrawCall)
      reads this
      ensures call.DrawImage? <==> kind.Image? && isImageLoaded
      ensures call.FillRect? <==> kind.Rectangle?
      ensures call.FillRect? ==> call == FillRect(kind.color, size)
      ensures call.DrawImage? ==> call == DrawImage(kind.src, size)
    {
      match kind
      case Rectangle(color) => FillRect(color, size)
      case Image(src) => if isImageLoaded then DrawImage(src, size) else NoDraw
    }
  }

  lemma ZeroProduct(a: real, b: real)
    requires a * b == 0.0
    ensures a == 0.0 || b == 0.0
  {
    if a != 0.0 {
      assert b == (a * b) / a;
    }
  }

  /** getLocalCorners for a 100 × 100 element. */
  lemma LocalCornersOf100()
    ensures LocalCorners(Vec2(100.0, 100.0))
         == [Vec2(-50.0, -50.0), Vec2(50.0, -50.0), Vec2(50.0, 50.0), Vec2(-50.0, 50.0)]
  {
  }

  /**
   * A 100 × 100 element at the origin with unit scale and no rotation contains (0, 0) and
   * (50, 0) on its edge but not (51, 0). Only the identities at angle 0 are needed: they
   * leave cos 0 = ±1, and the square is symmetric under a half turn.
   */
  lemma ContainsOfUnitSquare(math: HostMath)
    requires RotationIdentitiesAt(math, 0.0)
    ensures var m := TranslateRotateScale(math, Vec2(0.0, 0.0), 0.0, Vec2(1.0, 1.0));
            && ContainsIn(m, Vec2(100.0, 100.0), Vec2(0.0, 0.0))
            && ContainsIn(m, Vec2(100.0, 100.0), Vec2(50.0, 0.0))
            && !ContainsIn(m, Vec2(100.0, 100.0), Vec2(51.0, 0.0))
  {
    var c := UnrotatedUnitTransform(math);
    if c == 1.0 {
      UnturnedSquare();
    } else {
      HalfTurnedSquare();
    }
  }

  /** At angle 0 the identities force sin 0 = 0 and cos 0 = ±1. */
  lemma UnrotatedUnitTransform(math: HostMath) returns (c: real)
    requires RotationIdentitiesAt(math, 0.0)
    ensures c == 1.0 || c == -1.0
    ensures TranslateRotateScale(math, Vec2(0.0, 0.0), 0.0, Vec2(1.0, 1.0)) == Affine(c, 0.0, 0.0, c, 0.0, 0.0)
  {
    assert DegToRad(math, 0.0) == 0.0;
    c := math.cos(0.0);
    var s := math.sin(0.0);
    assert s == 0.0 by {
      assert -0.0 == 0.0;
      assert math.sin(-0.0) == -s;
    }
    assert c * c == 1.0;
    assert c == 1.0 || c == -1.0 by {
      assert (c - 1.0) * (c + 1.0) == c * c - 1.0;
      ZeroProduct(c - 1.0, c + 1.0);
    }
  }

  /** The 100 × 100 box under the identity. */
  lemma UnturnedSquare()
    ensures var m := Affine(1.0, 0.0, 0.0, 1.0, 0.0, 0.0);
            && ContainsIn(m, Vec2(100.0, 100.0), Vec2(0.0, 0.0))
            && ContainsIn(m, Vec2(100.0, 100.0), Vec2(50.0, 0.0))
            && !ContainsIn(m, Vec2(100.0, 100.0), Vec2(51.0, 0.0))
  {
    var m := Affine(1.0, 0.0, 0.0, 1.0, 0.0, 0.0);
    ContainsAtPreimage(m, Vec2(100.0, 100.0), Vec2(0.0, 0.0));
    ContainsAtPreimage(m, Vec2(100.0, 100.0), Vec2(50.0, 0.0));
    ContainsAtPreimage(m, Vec2(100.0, 100.0), Vec2(51.0, 0.0));
  }

  /** The 100 × 100 box under the half turn, which maps it onto itself. */
  lemma HalfTurnedSquare()
    ensures var m := Affine(-1.0, 0.0, 0.0, -1.0, 0.0, 0.0);
            && ContainsIn(m, Vec2(100.0, 100.0), Vec2(0.0, 0.0))
            && ContainsIn(m, Vec2(100.0, 100.0), Vec2(50.0, 0.0))
            && !ContainsIn(m, Vec2(100.0, 100.0), Vec2(51.0, 0.0))
  {
    var m := Affine(-1.0, 0.0, 0.0, -1.0, 0.0, 0.0);
    ContainsAtPreimage(m, Vec2(100.0, 100.0), Vec2(0.0, 0.0));
    ContainsAtPreimage(m, Vec2(100.0, 100.0), Vec2(-50.0, 0.0));
    ContainsAtPreimage(m, Vec2(100.0, 100.0), Vec2(-51.0, 0.0));
  }
}
