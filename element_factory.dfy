/**
 * The element factory: a switch on the record's `type` tag that builds the matching
 * variant and throws for any other tag.
 */
module ElementFactory {
  import opened Wrappers
  import opened Geometry
  import opened SceneElements

  /** The message of the error thrown for an unknown tag. */
  const NotSupported := "SceneElement is not supported."

  /** Which variant a record builds, or the error the factory throws. */
  function VariantFor(c: SceneConfig): (r: Result<ElementKind, string>)
    ensures r.Success? <==> TypeTag(c) == "rectangle" || TypeTag(c) == "image"
    ensures r.Success? ==> ConfigOf(c.base, r.value) == c
    ensures TypeTag(c) == "rectangle" ==> r.Success? && r.value.Rectangle?
    ensures TypeTag(c) == "image" ==> r.Success? && r.value.Image?
    ensures r.Failure? ==> r.error == NotSupported
  {
    if TypeTag(c) == "rectangle" then Success(Rectangle(c.color))
    else if TypeTag(c) == "image" then Success(Image(c.src))
    else Failure(NotSupported)
  }

  /**
   * createSceneElement: a fresh element in its initial state whose record is the input
   * record, or the error for an unknown tag and no element at all.
   */
  method CreateSceneElement(c: SceneConfig, math: HostMath) returns (r: Result<SceneElement, string>)
    ensures r.Success? <==> VariantFor(c).Success?
    ensures r.Failure? ==> r.error == NotSupported
    ensures r.Success? ==>
      && fresh(r.value) && r.value.Valid()
      && r.value.kind == VariantFor(c).value && r.value.math == math
      && r.value.id == c.base.id && r.value.zIndex == c.base.zIndex
      && r.value.ToSceneConfig() == c
      && !r.value.isSelected && !r.value.isHovered && !r.value.isImageLoaded
  {
    var kind := VariantFor(c);
    if kind.Failure? {
      return Failure(kind.error);
    }
    var e := new SceneElement(c.base, kind.value, math);
    r := Success(e);
  }
}
