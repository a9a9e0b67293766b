/**
 * The scene's publish/subscribe hub: one listener set per scene event kind, and
 * notification of one kind's listeners in the order they were added.
 */
module SceneEvents {
  import opened Wrappers
  import opened SceneElements
  import opened ListenerSets

  datatype SceneEvent = ElementHover | ElementSelect | ElementTransform | ZoomChange

  /** The arguments a notification hands to the listeners of each kind. */
  datatype SceneEventArgs =
    | HoverArgs(hoveredId: Option<real>)
    | SelectArgs(selectedId: Option<real>)
    | TransformArgs(config: SceneConfig)
    | ZoomChangeArgs(zoom: real)

  /** The arguments match the kind's listener signature. */
  predicate ArgsFit(kind: SceneEvent, args: SceneEventArgs) {
    match kind
    case ElementHover => args.HoverArgs?
    case ElementSelect => args.SelectArgs?
    case ElementTransform => args.TransformArgs?
    case ZoomChange => args.ZoomChangeArgs?
  }

  class SceneEventManager {
    var listeners: map<SceneEvent, seq<Listener>>

    /** Every kind has a listener set. */
    ghost predicate Valid()
      reads this
    {
      forall kind: SceneEvent :: kind in listeners && NoDuplicates(listeners[kind])
    }

    /** An empty listener set for each of the four kinds. */
    constructor ()
      ensures Valid()
      ensures forall kind: SceneEvent :: listeners[kind] == []
    {
      listeners := map[ElementHover := [], ElementSelect := [], ElementTransform := [], ZoomChange := []];
      new;
      forall kind: SceneEvent ensures kind in listeners && listeners[kind] == [] {
        match kind
        case ElementHover =>
        case ElementSelect =>
        case ElementTransform =>
        case ZoomChange =>
      }
    }

    /** addEventListener: the listener joins its kind's set; the other kinds are untouched. */
    method AddEventListener(kind: SceneEvent, l: Listener)
      requires Valid()
      modifies this
      ensures Valid()
      ensures listeners == old(listeners)[kind := Insert(old(listeners)[kind], l)]
    {
      listeners := listeners[kind := Insert(listeners[kind], l)];
    }

    /** removeEventListener: the listener leaves its kind's set; the other kinds are untouched. */
    method RemoveEventListener(kind: SceneEvent, l: Listener)
      requires Valid()
      modifies this
      ensures Valid()
      ensures listeners == old(listeners)[kind := Delete(old(listeners)[kind], l)]
    {
      listeners := listeners[kind := Delete(listeners[kind], l)];
    }

    /** notifyListeners: every listener of the kind, once each, in the order they were added. */
    method NotifyListeners(kind: SceneEvent, args: SceneEventArgs) returns (calls: seq<Invocation<SceneEventArgs>>)
      requires Valid() && ArgsFit(kind, args)
      ensures calls == Notified(listeners[kind], args)
    {
      var registered := listeners[kind];
      calls := [];
      var i := 0;
      while i < |registered|
        invariant 0 <= i <= |registered|
        invariant calls == Notified(registered[..i], args)
      {
        assert registered[..i + 1][..i] == registered[..i];
        calls := calls + [Invocation(registered[i], args)];
        i := i + 1;
      }
      assert registered[..i] == registered;
    }
  }
}
