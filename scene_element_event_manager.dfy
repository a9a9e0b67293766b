/**
 * The scene elements' publish/subscribe hub: one listener set per element event kind,
 * and notification of one kind's listeners in the order they were added.
 */
module SceneElementEvents {
  import opened Wrappers
  import opened SceneElements
  import opened ListenerSets

  datatype SceneElementEvent = Hover | Select | Transform

  /** The arguments a notification hands to the listeners of each kind. */
  datatype SceneElementEventArgs =
    | HoverArgs(hoveredId: Option<real>)
    | SelectArgs(selectedId: Option<real>)
    | TransformArgs(config: SceneConfig)

  /** The arguments match the kind's listener signature. */
  predicate ArgsFit(kind: SceneElementEvent, args: SceneElementEventArgs) {
    match kind
    case Hover => args.HoverArgs?
    case Select => args.SelectArgs?
    case Transform => args.TransformArgs?
  }

  class SceneElementEventManager {
    var listeners: map<SceneElementEvent, seq<Listener>>

    /** Every kind has a listener set. */
    ghost predicate Valid()
      reads this
    {
      forall kind: SceneElementEvent :: kind in listeners && NoDuplicates(listeners[kind])
    }

    /** An empty listener set for each of the three kinds. */
    constructor ()
      ensures Valid()
      ensures forall kind: SceneElementEvent :: listeners[kind] == []
    {
      listeners := map[Hover := [], Select := [], Transform := []];
      new;
      forall kind: SceneElementEvent ensures kind in listeners && listeners[kind] == [] {
        match kind
        case Hover =>
        case Select =>
        case Transform =>
      }
    }

    /** addEventListener: the listener joins its kind's set; the other kinds are untouched. */
    method AddEventListener(kind: SceneElementEvent, l: Listener)
      requires Valid()
      modifies this
      ensures Valid()
      ensures listeners == old(listeners)[kind := Insert(old(listeners)[kind], l)]
    {
      listeners := listeners[kind := Insert(listeners[kind], l)];
    }

    /** removeEventListener: the listener leaves its kind's set; the other kinds are untouched. */
    method RemoveEventListener(kind: SceneElementEvent, l: Listener)
      requires Valid()
      modifies this
      ensures Valid()
      ensures listeners == old(listeners)[kind := Delete(old(listeners)[kind], l)]
    {
      listeners := listeners[kind := Delete(listeners[kind], l)];
    }

    /** notifyListeners: every listener of the kind, once each, in the order they were added. */
    method NotifyListeners(kind: SceneElementEvent, args: SceneElementEventArgs) returns (calls: seq<Invocation<SceneElementEventArgs>>)
      requires Valid() && ArgsFit(kind, args)
      ensures calls == Notified(listeners[kind], args)
    {
      var registered := listeners[kind];
      calls := [];
      var i := 0;
      while i < |registered|
        invariant 0 <= i <= |registered|
        invariant calls == Notified(registered[..i], args)
      {
        assert registered[..i + 1][..i] == registered[..i];
        calls := calls + [Invocation(registered[i], args)];
        i := i + 1;
      }
      assert registered[..i] == registered;
    }
  }
}
