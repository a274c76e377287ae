/** The map as the controller sees it: sources by id, layers in draw order
    (each with its visibility and filter), registered images and the open
    popup. The operations follow the map library's documented behaviour:
    adding a source whose id exists fails; adding a layer whose id exists, or
    below a layer that does not exist, changes nothing; setting a property or
    a filter on a layer that does not exist changes nothing. */
module MapSurface {
  import opened Base
  import opened Catalog
  import opened Filters
  import opened FloorStyle

  /** The `visibility` layout property: `'visible'` or `'none'`. */
  datatype Visibility = Visible | Hidden

  /** What a layer draws: the POI symbols, a floor's ground fill, a floor's
      extrusions, or a layer of the basemap style. */
  datatype Paint = Symbols | GroundFill | Extrusion | Basemap(kind: string)

  datatype Layer = Layer(id: string, source: string, paint: Paint, visibility: Visibility, filter: Option<Filter>)

  datatype Source =
    | PoiCollection(pois: seq<Poi>)
    | FloorPlan(floor: seq<FloorFeature>)
    | VectorTiles(url: string)

  datatype Popup = Popup(at: LngLat, html: string)

  datatype MapState = MapState(
    sources: map<string, Source>,
    layers: seq<Layer>,
    images: set<string>,
    popup: Option<Popup>)

  // Ids of what the page registers on the map.

  const PoiSourceId := "eap-source-poi"
  const PoiLayerId := "eap-layer-poi"

  function LevelSourceId(levelId: string): string { "eap-source-level" + levelId }
  function GroundLayerId(levelId: string): string { "eap-layer-level" + levelId }
  function ExtrusionLayerId(levelId: string): string { GroundLayerId(levelId) + "-extrusion" }
  function ImageId(categoryId: string): string { "eap-" + categoryId }

  /** Distinct levels get distinct sources, and no level's source or layer
      can be taken for the POI source or layer. */
  lemma IdsDistinct(a: string, b: string)
    ensures LevelSourceId(a) == LevelSourceId(b) ==> a == b
    ensures LevelSourceId(a) != PoiSourceId
    ensures GroundLayerId(a) != PoiLayerId && ExtrusionLayerId(a) != PoiLayerId
  {
    assert LevelSourceId(a)[16..] == a && LevelSourceId(b)[16..] == b;
    assert LevelSourceId(a)[11] == 'l' && PoiSourceId[11] == 'p';
    assert GroundLayerId(a)[10] == 'l' && PoiLayerId[10] == 'p';
    assert ExtrusionLayerId(a)[10] == GroundLayerId(a)[10];
  }

  // Layer lookups.

  /** The layer ids in draw order. */
  function LayerIds(layers: seq<Layer>): (r: seq<string>)
    ensures |r| == |layers| && forall i :: 0 <= i < |layers| ==> r[i] == layers[i].id
  {
    seq(|layers|, i requires 0 <= i < |layers| => layers[i].id)
  }

  predicate HasLayer(m: MapState, id: string)
  {
    id in LayerIds(m.layers)
  }

  predicate UniqueLayerIds(layers: seq<Layer>)
  {
    NoDuplicates(LayerIds(layers))
  }

  function IndexOfLayer(layers: seq<Layer>, id: string): (r: Option<nat>)
    ensures r.None? <==> forall i :: 0 <= i < |layers| ==> layers[i].id != id
    ensures r.Some? ==> r.value < |layers| && layers[r.value].id == id
                        && forall i :: 0 <= i < r.value ==> layers[i].id != id
  {
    if layers == [] then None
    else if layers[0].id == id then Some(0)
    else
      var r := IndexOfLayer(layers[1..], id);
      assert forall i :: 1 <= i < |layers| ==> layers[i] == layers[1..][i - 1];
      if r.None? then None else Some(r.value + 1)
  }

  // The map operations.

  /** `map.addSource(id, source)`; `None` when the id is taken (the call throws). */
  function AddSource(m: MapState, id: string, s: Source): (r: Option<MapState>)
    ensures r.None? <==> id in m.sources
    ensures r.Some? ==> r.value.sources == m.sources[id := s]
                        && r.value.layers == m.layers && r.value.images == m.images && r.value.popup == m.popup
  {
    if id in m.sources then None else Some(m.(sources := m.sources[id := s]))
  }

  /** `map.addLayer(layer, before)`: the layer goes directly below `before`,
      or on top when no `before` is given. */
  function AddLayer(m: MapState, l: Layer, before: Option<string>): (r: MapState)
    ensures r.sources == m.sources && r.images == m.images && r.popup == m.popup
    ensures HasLayer(m, l.id) || (before.Some? && !HasLayer(m, before.value)) ==> r == m
    ensures !HasLayer(m, l.id) && before.None? ==> r.layers == m.layers + [l]
    ensures !HasLayer(m, l.id) && before.Some? && HasLayer(m, before.value) ==>
      var k := IndexOfLayer(m.layers, before.value).value;
      r.layers == m.layers[..k] + [l] + m.layers[k..]
      && r.layers[k] == l && r.layers[k + 1].id == before.value
  {
    if HasLayer(m, l.id) then m
    else if before.None? then m.(layers := m.layers + [l])
    else match IndexOfLayer(m.layers, before.value)
      case None => m
      case Some(k) => m.(layers := m.layers[..k] + [l] + m.layers[k..])
  }

  /** Adding a layer keeps every layer id there was, adds the new layer's id
      exactly when the layer is added, and keeps the ids unique. */
  lemma AddLayerIds(m: MapState, l: Layer, before: Option<string>)
    ensures var r := AddLayer(m, l, before);
      && (r.layers != m.layers ==> !HasLayer(m, l.id))
      && (forall id :: HasLayer(r, id) <==> HasLayer(m, id) || (id == l.id && r.layers != m.layers))
      && (UniqueLayerIds(m.layers) ==> UniqueLayerIds(r.layers))
  {
    var r := AddLayer(m, l, before);
    if r.layers != m.layers {
      var k := if before.None? then |m.layers| else IndexOfLayer(m.layers, before.value).value;
      assert m.layers[..|m.layers|] == m.layers;
      assert r.layers == m.layers[..k] + [l] + m.layers[k..];
      LayerIdsInsert(m.layers, k, l);
      InsertNoDuplicates(LayerIds(m.layers), k, l.id);
    }
  }

  lemma LayerIdsInsert(layers: seq<Layer>, k: nat, l: Layer)
    requires k <= |layers|
    ensures LayerIds(layers[..k] + [l] + layers[k..]) == LayerIds(layers)[..k] + [l.id] + LayerIds(layers)[k..]
  {
  }

  /** Inserting a value a sequence lacks adds just that value, and keeps a
      duplicate-free sequence duplicate-free. */
  lemma InsertNoDuplicates<T>(a: seq<T>, k: nat, x: T)
    requires k <= |a| && x !in a
    ensures forall y :: y in a[..k] + [x] + a[k..] <==> y in a || y == x
    ensures NoDuplicates(a) ==> NoDuplicates(a[..k] + [x] + a[k..])
  {
    var r := a[..k] + [x] + a[k..];
    assert a == a[..k] + a[k..];
    if NoDuplicates(a) {
      forall i, j | 0 <= i < j < |r| ensures r[i] != r[j] {
        if j > k {
          assert r[j] == a[j - 1];
        }
        if i > k {
          assert r[i] == a[i - 1];
        } else if i < k {
          assert r[i] == a[i];
        }
      }
    }
  }

  /** Adding a layer brings no layer but the new one. */
  lemma AddLayerElements(m: MapState, l: Layer, before: Option<string>)
    ensures forall x :: x in AddLayer(m, l, before).layers ==> x == l || x in m.layers
  {
    var r := AddLayer(m, l, before);
    if r.layers != m.layers && before.Some? {
      var k := IndexOfLayer(m.layers, before.value).value;
      assert m.layers == m.layers[..k] + m.layers[k..];
    }
  }

  /** `map.setLayoutProperty(id, 'visibility', v)` */
  function SetVisibility(m: MapState, id: string, v: Visibility): (r: MapState)
    ensures r.sources == m.sources && r.images == m.images && r.popup == m.popup
    ensures |r.layers| == |m.layers| && LayerIds(r.layers) == LayerIds(m.layers)
    ensures forall i :: 0 <= i < |m.layers| ==>
      r.layers[i] == if m.layers[i].id == id then m.layers[i].(visibility := v) else m.layers[i]
  {
    m.(layers := seq(|m.layers|, i requires 0 <= i < |m.layers| =>
      if m.layers[i].id == id then m.layers[i].(visibility := v) else m.layers[i]))
  }

  /** `map.setFilter(id, f)` */
  function SetFilter(m: MapState, id: string, f: Option<Filter>): (r: MapState)
    ensures r.sources == m.sources && r.images == m.images && r.popup == m.popup
    ensures |r.layers| == |m.layers| && LayerIds(r.layers) == LayerIds(m.layers)
    ensures forall i :: 0 <= i < |m.layers| ==>
      r.layers[i] == if m.layers[i].id == id then m.layers[i].(filter := f) else m.layers[i]
  {
    m.(layers := seq(|m.layers|, i requires 0 <= i < |m.layers| =>
      if m.layers[i].id == id then m.layers[i].(filter := f) else m.layers[i]))
  }

  /** `map.addImage(id, image)`; an id already registered is left alone. */
  function AddImage(m: MapState, id: string): (r: MapState)
    ensures r.images == m.images + {id}
    ensures r.sources == m.sources && r.layers == m.layers && r.popup == m.popup
  {
    m.(images := m.images + {id})
  }

  // The layers of a floor overlay and of the POIs.

  function GroundLayer(levelId: string): Layer
  {
    Layer(GroundLayerId(levelId), LevelSourceId(levelId), GroundFill, Visible, Some(GroundFilter))
  }

  function ExtrusionLayer(levelId: string): Layer
  {
    Layer(ExtrusionLayerId(levelId), LevelSourceId(levelId), Extrusion, Visible, Some(ExtrusionFilter))
  }

  const PoiLayer := Layer(PoiLayerId, PoiSourceId, Symbols, Visible, None)

  // What one reconciliation does to the layers.

  /** The layer ids of the floors already requested. */
  function OverlayLayerIds(levelIds: seq<string>): set<string>
  {
    if levelIds == [] then {}
    else
      var last := levelIds[|levelIds| - 1];
      OverlayLayerIds(levelIds[..|levelIds| - 1]) + {GroundLayerId(last), ExtrusionLayerId(last)}
  }

  /** A layer id is an overlay id exactly when it is the ground or the
      extrusion layer of one of the requested floors. */
  lemma {:induction false} OverlayLayerIdsMeaning(levelIds: seq<string>, id: string)
    ensures id in OverlayLayerIds(levelIds) <==>
      exists k :: 0 <= k < |levelIds| && (id == GroundLayerId(levelIds[k]) || id == ExtrusionLayerId(levelIds[k]))
  {
    if levelIds != [] {
      var n := |levelIds| - 1;
      var front := levelIds[..n];
      OverlayLayerIdsMeaning(front, id);
      assert forall k :: 0 <= k < n ==> front[k] == levelIds[k];
      if id in OverlayLayerIds(front) {
        var k :| 0 <= k < n && (id == GroundLayerId(front[k]) || id == ExtrusionLayerId(front[k]));
        assert id == GroundLayerId(levelIds[k]) || id == ExtrusionLayerId(levelIds[k]);
      }
    }
  }

  /** The layer ids of the selected floor, if any. */
  function ShownLayerIds(levelId: Option<string>): set<string>
  {
    if levelId.Some? then {GroundLayerId(levelId.value), ExtrusionLayerId(levelId.value)} else {}
  }

  /** A layer after one reconciliation: the POI layer becomes visible with the
      given filter; the selected floor's layers become visible; the other
      requested floors' layers are hidden; every other layer is untouched. */
  function ReconciledLayer(l: Layer, hidden: set<string>, shown: set<string>, f: Option<Filter>): Layer
  {
    if l.id == PoiLayerId then l.(visibility := Visible, filter := f)
    else if l.id in shown then l.(visibility := Visible)
    else if l.id in hidden then l.(visibility := Hidden)
    else l
  }

  function Reconciled(layers: seq<Layer>, hidden: set<string>, shown: set<string>, f: Option<Filter>): (r: seq<Layer>)
    ensures |r| == |layers| && LayerIds(r) == LayerIds(layers)
    ensures forall i :: 0 <= i < |layers| ==> r[i] == ReconciledLayer(layers[i], hidden, shown, f)
  {
    seq(|layers|, i requires 0 <= i < |layers| => ReconciledLayer(layers[i], hidden, shown, f))
  }

  /** After a reconciliation the POI layer, if present, is visible and filtered
      by the given expression; the selected floor's layers are visible; every
      other requested floor's layers are hidden; the order and ids of all
      layers, and everything about a layer outside these, are unchanged. */
  lemma ReconciledMeaning(layers: seq<Layer>, levelIds: seq<string>, levelId: Option<string>, f: Option<Filter>, i: nat)
    requires i < |layers|
    ensures var r := Reconciled(layers, OverlayLayerIds(levelIds), ShownLayerIds(levelId), f);
      && r[i].id == layers[i].id && r[i].source == layers[i].source && r[i].paint == layers[i].paint
      && (layers[i].id == PoiLayerId ==> r[i].visibility == Visible && r[i].filter == f)
      && (layers[i].id != PoiLayerId ==> r[i].filter == layers[i].filter)
      && (levelId.Some? && layers[i].id in {GroundLayerId(levelId.value), ExtrusionLayerId(levelId.value)} ==>
            r[i].visibility == Visible)
      && (forall k :: 0 <= k < |levelIds| ==>
            (layers[i].id in {GroundLayerId(levelIds[k]), ExtrusionLayerId(levelIds[k])}
             && layers[i].id !in ShownLayerIds(levelId)) ==> r[i].visibility == Hidden)
      && (layers[i].id != PoiLayerId && layers[i].id !in OverlayLayerIds(levelIds) + ShownLayerIds(levelId) ==>
            r[i] == layers[i])
  {
    var id := layers[i].id;
    if levelId.Some? {
      IdsDistinct(levelId.value, levelId.value);
    }
    OverlayLayerIdsMeaning(levelIds, id);
    forall k | 0 <= k < |levelIds| && id in {GroundLayerId(levelIds[k]), ExtrusionLayerId(levelIds[k])}
      ensures id in OverlayLayerIds(levelIds) && id != PoiLayerId
    {
      IdsDistinct(levelIds[k], levelIds[k]);
    }
  }

  /** Reconciling twice from the same selection gives what reconciling once
      gives, even when the second pass hides the floor the first one
      requested: a floor the second pass adds to the hidden ones is the shown
      floor. */
  lemma ReconcileIdempotent(layers: seq<Layer>, hidden: set<string>, hidden': set<string>, shown: set<string>, f: Option<Filter>)
    requires hidden' - hidden <= shown
    ensures Reconciled(Reconciled(layers, hidden, shown, f), hidden', shown, f) == Reconciled(layers, hidden, shown, f)
  {
  }

  // The steps of one reconciliation, as the controller performs them.

  /** The layers after `visibility` is set to `'none'` on each layer whose id
      is in `ids`. */
  function Hide(layers: seq<Layer>, ids: set<string>): (r: seq<Layer>)
    ensures |r| == |layers| && LayerIds(r) == LayerIds(layers)
    ensures forall i :: 0 <= i < |layers| ==>
      r[i] == if layers[i].id in ids then layers[i].(visibility := Hidden) else layers[i]
  {
    seq(|layers|, i requires 0 <= i < |layers| =>
      if layers[i].id in ids then layers[i].(visibility := Hidden) else layers[i])
  }

  /** Hiding two floors' layers one after the other hides both sets. */
  lemma HideTwice(layers: seq<Layer>, a: set<string>, b: set<string>)
    ensures Hide(Hide(layers, a), b) == Hide(layers, a + b)
  {
  }

  /** Hiding the requested floors, then showing the selected floor, then
      showing the POI layer and setting its filter, is one reconciliation:
      later steps win over earlier ones on the same layer. */
  lemma ShowAndFilter(m: MapState, layers: seq<Layer>, hidden: set<string>, levelId: Option<string>, f: Option<Filter>)
    requires m.layers == Hide(layers, hidden)
    ensures var shown :=
        if levelId.Some? then SetVisibility(SetVisibility(m, GroundLayerId(levelId.value), Visible), ExtrusionLayerId(levelId.value), Visible)
        else m;
      SetFilter(SetVisibility(shown, PoiLayerId, Visible), PoiLayerId, f).layers
        == Reconciled(layers, hidden, ShownLayerIds(levelId), f)
  {
    if levelId.Some? {
      IdsDistinct(levelId.value, levelId.value);
    }
  }

  /** A floor's layers never share the other's id. */
  lemma FloorLayerIdsDiffer(levelId: string)
    ensures GroundLayerId(levelId) != ExtrusionLayerId(levelId)
  {
    assert |GroundLayerId(levelId)| < |ExtrusionLayerId(levelId)|;
  }

  /** Adding a new layer below an existing one inserts it at that layer's
      index, which moves the existing layer one place up. */
  lemma AddBelow(m: MapState, l: Layer, below: string)
    requires !HasLayer(m, l.id) && HasLayer(m, below) && l.id != below
    ensures var k := IndexOfLayer(m.layers, below).value;
      var r := AddLayer(m, l, Some(below));
      && r.layers == m.layers[..k] + [l] + m.layers[k..]
      && IndexOfLayer(r.layers, below) == Some(k + 1)
      && HasLayer(r, below)
  {
    var k := IndexOfLayer(m.layers, below).value;
    var r := AddLayer(m, l, Some(below));
    assert r.layers[k + 1].id == below;
    forall i | 0 <= i < k + 1 ensures r.layers[i].id != below {
      if i < k {
        assert r.layers[i] == m.layers[i];
      }
    }
    var j := IndexOfLayer(r.layers, below);
    assert j.Some?;
    assert j.value == k + 1;
  }

  /** When the POI layer is on the map and the floor's layer ids are free,
      adding the ground layer and then the extrusion layer below the POI
      layer puts them, in that order, directly beneath it. */
  lemma FloorLayersPlaced(m: MapState, levelId: string)
    requires HasLayer(m, PoiLayerId)
    requires !HasLayer(m, GroundLayerId(levelId)) && !HasLayer(m, ExtrusionLayerId(levelId))
    ensures var k := IndexOfLayer(m.layers, PoiLayerId).value;
      AddLayer(AddLayer(m, GroundLayer(levelId), Some(PoiLayerId)), ExtrusionLayer(levelId), Some(PoiLayerId)).layers
        == m.layers[..k] + [GroundLayer(levelId), ExtrusionLayer(levelId)] + m.layers[k..]
  {
    var k := IndexOfLayer(m.layers, PoiLayerId).value;
    var g := GroundLayer(levelId);
    var e := ExtrusionLayer(levelId);
    IdsDistinct(levelId, levelId);
    FloorLayerIdsDiffer(levelId);
    AddBelow(m, g, PoiLayerId);
    var m1 := AddLayer(m, g, Some(PoiLayerId));
    AddLayerIds(m, g, Some(PoiLayerId));
    AddBelow(m1, e, PoiLayerId);
    var m2 := AddLayer(m1, e, Some(PoiLayerId));
    assert m2.layers == m1.layers[..k + 1] + [e] + m1.layers[k + 1..];
    assert m1.layers[..k + 1] == m.layers[..k] + [g];
    assert m1.layers[k + 1..] == m.layers[k..];
    Regroup(m.layers[..k], g, e, m.layers[k..]);
  }

  lemma Regroup<T>(a: seq<T>, x: T, y: T, b: seq<T>)
    ensures (a + [x]) + [y] + b == a + [x, y] + b
  {
    assert (a + [x]) + [y] == a + [x, y];
  }
}
