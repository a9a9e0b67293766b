/**
 * The preview canvas manager: the id → element map rebuilt wholesale from the scene
 * records, the hover and selection flags flipped by id, the paint order of a frame, and
 * the camera moves it forwards.
 */
module PreviewCanvas {
  import opened Wrappers
  import opened Geometry
  import opened SceneElements
  import opened Cameras
  import ElementFactory
  import CanvasFactory

  /* ---------- The map a list of records describes ---------- */

  /** The ids of the records, as a set. */
  function IdsOf(configs: seq<SceneConfig>): set<real> {
    set i | 0 <= i < |configs| :: configs[i].base.id
  }

  /** `Map.set` for every record in turn: a later record with the same id replaces an earlier one. */
  function ConfigMap(configs: seq<SceneConfig>): map<real, SceneConfig>
    decreases |configs|
  {
    if |configs| == 0 then map[]
    else ConfigMap(configs[..|configs| - 1])[configs[|configs| - 1].base.id := configs[|configs| - 1]]
  }

  /** Every entry is one of the records, filed under that record's own id. */
  lemma {:induction false} ConfigMapFilesById(configs: seq<SceneConfig>)
    ensures forall k :: k in ConfigMap(configs) ==> ConfigMap(configs)[k].base.id == k && ConfigMap(configs)[k] in configs
    decreases |configs|
  {
    if |configs| > 0 {
      ConfigMapFilesById(configs[..|configs| - 1]);
    }
  }

  /** The ids of all records but the last, and the last one's. */
  lemma IdsOfSnoc(configs: seq<SceneConfig>)
    requires |configs| > 0
    ensures IdsOf(configs) == IdsOf(configs[..|configs| - 1]) + {configs[|configs| - 1].base.id}
  {
    var init := configs[..|configs| - 1];
    forall k | k in IdsOf(configs) ensures k in IdsOf(init) + {configs[|configs| - 1].base.id} {
      var i :| 0 <= i < |configs| && configs[i].base.id == k;
      if i < |configs| - 1 {
        assert init[i] == configs[i];
      }
    }
    forall k | k in IdsOf(init) ensures k in IdsOf(configs) {
      var i :| 0 <= i < |init| && init[i].base.id == k;
      assert configs[i] == init[i];
    }
  }

  /** The map holds exactly the records' ids. */
  lemma {:induction false} ConfigMapKeys(configs: seq<SceneConfig>)
    ensures ConfigMap(configs).Keys == IdsOf(configs)
    decreases |configs|
  {
    if |configs| > 0 {
      ConfigMapKeys(configs[..|configs| - 1]);
      IdsOfSnoc(configs);
    }
  }

  /** Each id maps to its LAST record: the later duplicate wins. */
  lemma {:induction false} ConfigMapLaterWins(configs: seq<SceneConfig>, i: nat)
    requires i < |configs|
    requires forall j :: i < j < |configs| ==> configs[j].base.id != configs[i].base.id
    ensures configs[i].base.id in ConfigMap(configs) && ConfigMap(configs)[configs[i].base.id] == configs[i]
    decreases |configs|
  {
    if i < |configs| - 1 {
      var init := configs[..|configs| - 1];
      ConfigMapLaterWins(init, i);
    }
  }

  /** The order in which a JavaScript Map built by `set` lists its keys: first appearance. */
  function KeyOrder(configs: seq<SceneConfig>): (ks: seq<real>)
    ensures |ks| <= |configs|
    ensures |configs| > 0 ==> |ks| > 0 && ks[0] == configs[0].base.id
    decreases |configs|
  {
    if |configs| == 0 then []
    else
      var prefix := KeyOrder(configs[..|configs| - 1]);
      var id := configs[|configs| - 1].base.id;
      if id in prefix then prefix else prefix + [id]
  }

  /** The key order lists every id of the records, and each only once. */
  lemma {:induction false} KeyOrderListsIds(configs: seq<SceneConfig>)
    ensures forall k :: k in KeyOrder(configs) <==> k in IdsOf(configs)
    ensures forall i, j :: 0 <= i < j < |KeyOrder(configs)| ==> KeyOrder(configs)[i] != KeyOrder(configs)[j]
    decreases |configs|
  {
    if |configs| > 0 {
      KeyOrderListsIds(configs[..|configs| - 1]);
      IdsOfSnoc(configs);
    }
  }

  /** The factory accepts exactly the records shaped as a rectangle or an image. */
  lemma KnownShapeSupported(c: SceneConfig)
    ensures ElementFactory.VariantFor(c).Success? <==> !c.OtherConfig?
  {
  }

  /** Every record's tag is one the factory accepts. */
  predicate AllSupported(configs: seq<SceneConfig>) {
    forall i :: 0 <= i < |configs| ==> ElementFactory.VariantFor(configs[i]).Success?
  }

  /** A supported record appended to supported records. */
  lemma AllSupportedSnoc(configs: seq<SceneConfig>, c: SceneConfig)
    requires AllSupported(configs) && ElementFactory.VariantFor(c).Success?
    ensures AllSupported(configs + [c])
  {
    forall i | 0 <= i < |configs + [c]| ensures ElementFactory.VariantFor((configs + [c])[i]).Success? {
      if i < |configs| {
        assert (configs + [c])[i] == configs[i];
      }
    }
  }

  /* ---------- Paint order ---------- */

  predicate SortedByZIndex(s: seq<SceneElement>) {
    forall i, j :: 0 <= i < j < |s| ==> s[i].zIndex <= s[j].zIndex
  }

  /** The elements of `s` with the given zIndex, in their order in `s`. */
  function WithZIndex(s: seq<SceneElement>, z: real): seq<SceneElement>
    decreases |s|
  {
    if |s| == 0 then []
    else WithZIndex(s[..|s| - 1], z) + (if s[|s| - 1].zIndex == z then [s[|s| - 1]] else [])
  }

  /** Filtering an appended element. */
  lemma WithZIndexSnoc(s: seq<SceneElement>, x: SceneElement, z: real)
    ensures WithZIndex(s + [x], z) == WithZIndex(s, z) + (if x.zIndex == z then [x] else [])
  {
    assert (s + [x])[..|s|] == s;
  }

  /**
   * `x` placed after every element of `s` whose zIndex is not above its own, scanning
   * from the end: one step of a stable insertion sort.
   */
  function InsertByZIndex(x: SceneElement, s: seq<SceneElement>): (r: seq<SceneElement>)
    ensures |r| == |s| + 1
    decreases |s|
  {
    if |s| == 0 then [x]
    else if s[|s| - 1].zIndex > x.zIndex then InsertByZIndex(x, s[..|s| - 1]) + [s[|s| - 1]]
    else s + [x]
  }

  /** Inserting keeps every zIndex under a bound that `x` and all of `s` respect. */
  lemma {:induction false} InsertBounded(x: SceneElement, s: seq<SceneElement>, bound: real)
    requires x.zIndex <= bound && forall i :: 0 <= i < |s| ==> s[i].zIndex <= bound
    ensures forall i :: 0 <= i < |InsertByZIndex(x, s)| ==> InsertByZIndex(x, s)[i].zIndex <= bound
    decreases |s|
  {
    if |s| > 0 && s[|s| - 1].zIndex > x.zIndex {
      InsertBounded(x, s[..|s| - 1], bound);
    }
  }

  /** Inserting into a sorted sequence keeps it sorted. */
  lemma {:induction false} InsertSorted(x: SceneElement, s: seq<SceneElement>)
    requires SortedByZIndex(s)
    ensures SortedByZIndex(InsertByZIndex(x, s))
    decreases |s|
  {
    if |s| > 0 && s[|s| - 1].zIndex > x.zIndex {
      var init, last := s[..|s| - 1], s[|s| - 1];
      InsertSorted(x, init);
      InsertBounded(x, init, last.zIndex);
    }
  }

  /** Inserting adds `x` and loses nothing. */
  lemma {:induction false} InsertPermutes(x: SceneElement, s: seq<SceneElement>)
    ensures multiset(InsertByZIndex(x, s)) == multiset(s) + multiset{x}
    decreases |s|
  {
    if |s| > 0 && s[|s| - 1].zIndex > x.zIndex {
      var init, last := s[..|s| - 1], s[|s| - 1];
      assert s == init + [last];
      InsertPermutes(x, init);
    }
  }

  /** Inserting `x` adds it at the end of its own zIndex class and leaves the other classes alone. */
  lemma {:induction false} InsertKeepsTies(x: SceneElement, s: seq<SceneElement>, z: real)
    ensures WithZIndex(InsertByZIndex(x, s), z) == WithZIndex(s, z) + (if x.zIndex == z then [x] else [])
    decreases |s|
  {
    if |s| == 0 {
      WithZIndexSnoc([], x, z);
    } else if s[|s| - 1].zIndex > x.zIndex {
      var init, last := s[..|s| - 1], s[|s| - 1];
      assert s == init + [last];
      InsertKeepsTies(x, init, z);
      WithZIndexSnoc(InsertByZIndex(x, init), last, z);
      WithZIndexSnoc(init, last, z);
    } else {
      WithZIndexSnoc(s, x, z);
    }
  }

  /**
   * `Array.prototype.sort` with the comparator `a.zIndex - b.zIndex`, as the insertion
   * sort of the elements in turn.
   */
  function SortByZIndex(s: seq<SceneElement>): (r: seq<SceneElement>)
    ensures |r| == |s|
    decreases |s|
  {
    if |s| == 0 then [] else InsertByZIndex(s[|s| - 1], SortByZIndex(s[..|s| - 1]))
  }

  /** The sort orders by ascending zIndex. */
  lemma {:induction false} SortSorts(s: seq<SceneElement>)
    ensures SortedByZIndex(SortByZIndex(s))
    decreases |s|
  {
    if |s| > 0 {
      SortSorts(s[..|s| - 1]);
      InsertSorted(s[|s| - 1], SortByZIndex(s[..|s| - 1]));
    }
  }

  /** The sort is a permutation of its input. */
  lemma {:induction false} SortPermutes(s: seq<SceneElement>)
    ensures multiset(SortByZIndex(s)) == multiset(s)
    decreases |s|
  {
    if |s| > 0 {
      var init, last := s[..|s| - 1], s[|s| - 1];
      assert s == init + [last];
      SortPermutes(init);
      InsertPermutes(last, SortByZIndex(init));
    }
  }

  /** The sort is stable: the elements of each zIndex keep their relative order. */
  lemma {:induction false} SortIsStable(s: seq<SceneElement>, z: real)
    ensures WithZIndex(SortByZIndex(s), z) == WithZIndex(s, z)
    decreases |s|
  {
    if |s| > 0 {
      var init, last := s[..|s| - 1], s[|s| - 1];
      assert s == init + [last];
      SortIsStable(init, z);
      InsertKeepsTies(last, SortByZIndex(init), z);
      WithZIndexSnoc(init, last, z);
    }
  }

  /** The map's values in key order: `Array.from(map.values())`. */
  function ValuesInOrder(m: map<real, SceneElement>, keys: seq<real>): (vs: seq<SceneElement>)
    requires forall i :: 0 <= i < |keys| ==> keys[i] in m
    ensures |vs| == |keys| && forall i :: 0 <= i < |keys| ==> vs[i] == m[keys[i]]
    decreases |keys|
  {
    if |keys| == 0 then [] else ValuesInOrder(m, keys[..|keys| - 1]) + [m[keys[|keys| - 1]]]
  }

  /* ---------- Hover and selection ---------- */

  /** JavaScript truthiness of an id: `null` and `0` are falsy. */
  predicate Truthy(id: Option<real>) {
    id.Some? && id.value != 0.0
  }

  /**
   * The flag of the element with id `k` after clearing it on `prevId` and then setting
   * it on `newId`, each only when the id is truthy.
   */
  function FlagAfter(k: real, newId: Option<real>, prevId: Option<real>, before: bool): (after: bool)
    ensures Truthy(newId) && newId.value == k ==> after
    ensures !(Truthy(newId) && newId.value == k) && Truthy(prevId) && prevId.value == k ==> !after
    ensures after != before ==> (Truthy(newId) && newId.value == k) || (Truthy(prevId) && prevId.value == k)
    ensures k == 0.0 ==> after == before
  {
    if Truthy(newId) && newId.value == k then true
    else if Truthy(prevId) && prevId.value == k then false
    else before
  }

  /* ---------- Building the map ---------- */

  /** A map of elements by id and the order its keys were inserted in. */
  datatype Scene = Scene(elements: map<real, SceneElement>, order: seq<real>)

  function ElementsOf(scene: Scene): set<SceneElement> {
    set k | k in scene.elements :: scene.elements[k]
  }

  /** `e` is a valid element in its initial state whose record is `c`. */
  ghost predicate BuiltFromRecord(e: SceneElement, c: SceneConfig)
    reads e
  {
    e.Valid() && e.ToSceneConfig() == c && !e.isSelected && !e.isHovered
  }

  /**
   * `scene` holds, under each key of `cm`, a valid element with that id built from the
   * record `cm` maps it to and neither hovered nor selected; its order lists the keys
   * once each, and distinct keys hold distinct elements.
   */
  ghost predicate Holds(scene: Scene, cm: map<real, SceneConfig>)
    reads ElementsOf(scene)
  {
    && scene.elements.Keys == cm.Keys
    && (forall k :: k in scene.order <==> k in scene.elements)
    && (forall i, j :: 0 <= i < j < |scene.order| ==> scene.order[i] != scene.order[j])
    && (forall k :: k in scene.elements ==> scene.elements[k].id == k && BuiltFromRecord(scene.elements[k], cm[k]))
    && (forall k, l :: k in scene.elements && l in scene.elements && k != l ==> scene.elements[k] != scene.elements[l])
  }

  /** `scene` is what setting a new element for each of `configs` in turn yields. */
  ghost predicate BuiltFrom(scene: Scene, configs: seq<SceneConfig>)
    reads ElementsOf(scene)
  {
    Holds(scene, ConfigMap(configs)) && scene.order == KeyOrder(configs)
  }

  /** One more record: its record replaces any earlier one under its id, and a new id goes last. */
  lemma ConfigsStep(configs: seq<SceneConfig>, i: nat)
    requires i < |configs|
    ensures var id := configs[i].base.id;
      && ConfigMap(configs[..i + 1]) == ConfigMap(configs[..i])[id := configs[i]]
      && KeyOrder(configs[..i + 1]) == if id in KeyOrder(configs[..i]) then KeyOrder(configs[..i]) else KeyOrder(configs[..i]) + [id]
  {
    assert configs[..i + 1][..i] == configs[..i];
  }

  /**
   * The loop of onElementsChange: one element per record through the factory, stopping at
   * the first record the factory rejects.
   */
  method BuildScene(configs: seq<SceneConfig>, math: HostMath) returns (r: Result<Scene, string>)
    ensures r.Success? <==> AllSupported(configs)
    ensures r.Failure? ==> r.error == ElementFactory.NotSupported
    ensures r.Success? ==> BuiltFrom(r.value, configs)
    ensures r.Success? ==> forall k :: k in r.value.elements ==> fresh(r.value.elements[k])
  {
    var scene := Scene(map[], []);
    var i := 0;
    while i < |configs|
      invariant 0 <= i <= |configs|
      invariant AllSupported(configs[..i])
      invariant BuiltFrom(scene, configs[..i])
      invariant forall k :: k in scene.elements ==> fresh(scene.elements[k])
    {
      var step := BuildStep(scene, configs, i, math);
      if step.Failure? {
        return Failure(step.error);
      }
      assert configs[..i + 1] == configs[..i] + [configs[i]];
      AllSupportedSnoc(configs[..i], configs[i]);
      scene := step.value;
      i := i + 1;
    }
    assert configs[..i] == configs;
    return Success(scene);
  }

  /** `Map.set` of a new element built from record `c`: the scene now holds it under its id. */
  method AddElement(scene: Scene, e: SceneElement, cm: map<real, SceneConfig>, c: SceneConfig) returns (r: Scene)
    requires Holds(scene, cm)
    requires forall k :: k in scene.elements ==> scene.elements[k] != e
    requires e.id == c.base.id && BuiltFromRecord(e, c)
    ensures Holds(r, cm[c.base.id := c])
    ensures r.elements == scene.elements[e.id := e]
    ensures r.order == if e.id in scene.order then scene.order else scene.order + [e.id]
  {
    var order := if e.id in scene.order then scene.order else scene.order + [e.id];
    r := Scene(scene.elements[e.id := e], order);
    var cm' := cm[c.base.id := c];
    forall k | k in r.elements ensures r.elements[k].id == k && BuiltFromRecord(r.elements[k], cm'[k]) {
      if k != e.id {
        assert r.elements[k] == scene.elements[k] && cm'[k] == cm[k];
      }
    }
  }

  /**
   * One turn of the loop: the element built from record i, set into the scene the records
   * before it built, or the factory's error.
   */
  method BuildStep(scene: Scene, configs: seq<SceneConfig>, i: nat, math: HostMath) returns (r: Result<Scene, string>)
    requires i < |configs| && BuiltFrom(scene, configs[..i])
    ensures r.Success? <==> ElementFactory.VariantFor(configs[i]).Success?
    ensures r.Failure? ==> r.error == ElementFactory.NotSupported
    ensures r.Success? ==> BuiltFrom(r.value, configs[..i + 1])
    ensures r.Success? ==> forall k :: k in r.value.elements ==>
      (k in scene.elements && r.value.elements[k] == scene.elements[k]) || fresh(r.value.elements[k])
  {
    var created := CanvasFactory.CreateSceneElement(configs[i], math);
    if created.Failure? {
      return Failure(created.error);
    }
    var e := created.value;
    ConfigsStep(configs, i);
    var next := AddElement(scene, e, ConfigMap(configs[..i]), configs[i]);
    return Success(next);
  }

  class PreviewCanvasManager {
    const camera: Camera
    /** The host math every element the manager creates uses. */
    const math: HostMath
    var sceneElements: map<real, SceneElement>
    /** The map's insertion order, which `values()` follows. */
    var keyOrder: seq<real>

    function Elements(): set<SceneElement>
      reads this
    {
      sceneElements.Values
    }

    /**
     * The keys are listed once each in insertion order, every element sits under its own
     * id, and distinct ids hold distinct elements.
     */
    ghost predicate Valid()
      reads this, camera, Elements()
    {
      && camera.Valid()
      && (forall k :: k in sceneElements <==> k in keyOrder)
      && (forall i, j :: 0 <= i < j < |keyOrder| ==> keyOrder[i] != keyOrder[j])
      && (forall k :: k in sceneElements ==> sceneElements[k].Valid() && sceneElements[k].id == k)
      && (forall k, l :: k in sceneElements && l in sceneElements && k != l ==> sceneElements[k] != sceneElements[l])
    }

    /** A fresh camera at (0, 0) with zoom 1 and an empty scene. */
    constructor (math: HostMath)
      ensures Valid() && fresh(camera)
      ensures this.math == math
      ensures sceneElements == map[] && keyOrder == []
      ensures camera.View() == CameraView(Vec2(0.0, 0.0), 1.0, false, None, true)
      ensures camera.minZoom == 0.1 && camera.maxZoom == 10.0
    {
      this.math := math;
      camera := new Camera(Vec2(0.0, 0.0), 1.0);
      sceneElements := map[];
      keyOrder := [];
    }

    /**
     * onElementsChange: a new map is filled from the records in order and only then
     * replaces the old one, so a record the factory rejects leaves the old map in place.
     * On success the map holds, under each id of the records, a fresh element built from
     * the last record with that id, with keys in order of first appearance.
     */
    method OnElementsChange(configs: seq<SceneConfig>) returns (r: Result<(), string>)
      requires Valid()
      modifies this`sceneElements, this`keyOrder
      ensures Valid()
      ensures r.Success? <==> AllSupported(configs)
      ensures r.Failure? ==> r.error == ElementFactory.NotSupported
      ensures r.Failure? ==> sceneElements == old(sceneElements) && keyOrder == old(keyOrder)
      ensures r.Success? ==>
        && sceneElements.Keys == IdsOf(configs)
        && keyOrder == KeyOrder(configs)
        && (forall k :: k in sceneElements ==>
              && fresh(sceneElements[k])
              && k in ConfigMap(configs)
              && sceneElements[k].ToSceneConfig() == ConfigMap(configs)[k]
              && !sceneElements[k].isSelected && !sceneElements[k].isHovered)
    {
      var built := BuildScene(configs, math);
      if built.Failure? {
        return Failure(built.error);
      }
      ConfigMapKeys(configs);
      sceneElements := built.value.elements;
      keyOrder := built.value.order;
      return Success(());
    }

    /**
     * onHoverElement: clears the hover flag of the element under a truthy `prevId`, then
     * sets it on the element under a truthy `newId`; ids missing from the map are
     * skipped, and no other element changes.
     */
    method OnHoverElement(newId: Option<real>, prevId: Option<real>)
      requires Valid()
      modifies Elements()`isHovered
      ensures Valid()
      ensures sceneElements == old(sceneElements) && keyOrder == old(keyOrder)
      ensures forall k :: k in sceneElements ==>
        sceneElements[k].State() == old(sceneElements[k].State()).(
          isHovered := FlagAfter(k, newId, prevId, old(sceneElements[k].isHovered)))
    {
      if Truthy(prevId) && prevId.value in sceneElements {
        SetHoveredAt(prevId.value, false);
      }
      if Truthy(newId) && newId.value in sceneElements {
        SetHoveredAt(newId.value, true);
      }
    }

    /** The flag of the element under `id` set to `b`; no other element changes. */
    method SetHoveredAt(id: real, b: bool)
      requires Valid() && id in sceneElements
      modifies Elements()`isHovered
      ensures Valid()
      ensures sceneElements == old(sceneElements) && keyOrder == old(keyOrder)
      ensures forall k :: k in sceneElements ==>
        sceneElements[k].State() == old(sceneElements[k].State()).(isHovered := if k == id then b else old(sceneElements[k].isHovered))
    {
      sceneElements[id].SetIsHovered(b);
    }

    /** onSelectElement: the same flag flipping for the selection flag. */
    method OnSelectElement(newId: Option<real>, prevId: Option<real>)
      requires Valid()
      modifies Elements()`isSelected
      ensures Valid()
      ensures sceneElements == old(sceneElements) && keyOrder == old(keyOrder)
      ensures forall k :: k in sceneElements ==>
        sceneElements[k].State() == old(sceneElements[k].State()).(
          isSelected := FlagAfter(k, newId, prevId, old(sceneElements[k].isSelected)))
    {
      if Truthy(prevId) && prevId.value in sceneElements {
        SetSelectedAt(prevId.value, false);
      }
      if Truthy(newId) && newId.value in sceneElements {
        SetSelectedAt(newId.value, true);
      }
    }

    /** The flag of the element under `id` set to `b`; no other element changes. */
    method SetSelectedAt(id: real, b: bool)
      requires Valid() && id in sceneElements
      modifies Elements()`isSelected
      ensures Valid()
      ensures sceneElements == old(sceneElements) && keyOrder == old(keyOrder)
      ensures forall k :: k in sceneElements ==>
        sceneElements[k].State() == old(sceneElements[k].State()).(isSelected := if k == id then b else old(sceneElements[k].isSelected))
    {
      sceneElements[id].SetIsSelected(b);
    }

    /**
     * The order in which render paints the elements: the map's values sorted by
     * ascending zIndex, ties in insertion order.
     */
    function PaintOrder(): (order: seq<SceneElement>)
      reads this
      requires forall i :: 0 <= i < |keyOrder| ==> keyOrder[i] in sceneElements
      ensures SortedByZIndex(order)
      ensures multiset(order) == multiset(ValuesInOrder(sceneElements, keyOrder))
      ensures forall z :: WithZIndex(order, z) == WithZIndex(ValuesInOrder(sceneElements, keyOrder), z)
    {
      var values := ValuesInOrder(sceneElements, keyOrder);
      SortSorts(values);
      SortPermutes(values);
      forall z ensures WithZIndex(SortByZIndex(values), z) == WithZIndex(values, z) {
        SortIsStable(values, z);
      }
      SortByZIndex(values)
    }

    /** onPanning: the camera moves by the screen delta; the event is always handled. */
    method OnPanning(screenDX: real, screenDY: real) returns (handled: bool)
      requires Valid()
      modifies camera`position, camera`matrixNeedsUpdate
      ensures Valid() && handled
      ensures camera.View() == old(camera.View()).(position := old(camera.position).Add(Vec2(screenDX, screenDY)),
                                                   matrixNeedsUpdate := true)
    {
      camera.MoveBy(Vec2(screenDX, screenDY));
      return true;
    }

    /** onZoomChange: the zoom is stored as given, without clamping. */
    method OnZoomChange(zoom: real)
      requires Valid()
      modifies camera`zoom, camera`matrixNeedsUpdate
      ensures Valid()
      ensures camera.View() == old(camera.View()).(zoom := zoom, matrixNeedsUpdate := true)
    {
      camera.SetZoom(zoom);
    }
  }
}
