/**
 * The factory at its older location, the one the preview canvas manager calls. It is
 * the same switch; its contract ties it to the element factory's.
 */
module CanvasFactory {
  import opened Wrappers
  import opened Geometry
  import opened SceneElements
  import ElementFactory

  /** createSceneElement, older location: it behaves exactly as the element factory does. */
  method CreateSceneElement(c: SceneConfig, math: HostMath) returns (r: Result<SceneElement, string>)
    ensures r.Success? <==> ElementFactory.VariantFor(c).Success?
    ensures r.Failure? ==> r.error == ElementFactory.NotSupported
    ensures r.Success? ==>
      && fresh(r.value) && r.value.Valid()
      && r.value.kind == ElementFactory.VariantFor(c).value && r.value.math == math
      && r.value.id == c.base.id && r.value.zIndex == c.base.zIndex
      && r.value.ToSceneConfig() == c
      && !r.value.isSelected && !r.value.isHovered && !r.value.isImageLoaded
  {
    var tag := TypeTag(c);
    if tag == "rectangle" {
      var e := new SceneElement(c.base, Rectangle(c.color), math);
      r := Success(e);
    } else if tag == "image" {
      var e := new SceneElement(c.base, Image(c.src), math);
      r := Success(e);
    } else {
      r := Failure("SceneElement is not supported.");
    }
  }
}
