/** The page's selection controller: the selected floor and category, the
    load-once guards, the map it drives and the sidebar it rebuilds. Every
    user action updates the selection and then reconciles the map with it.
    A download is split in two: the request, which the action sends
    synchronously, and its completion, a separate step that may come later
    and in any order. */
module Controller {
  import opened Base
  import opened Catalog
  import opened Filters
  import opened FloorStyle
  import opened MapSurface
  import opened Sidebar
  import opened Popups

  /** A download the page has started: the POI dataset, or a floor's GeoJSON. */
  datatype Fetch = PoiDataset | FloorOverlay(levelId: string, url: string)

  /** The floor ids of the floor downloads, in the order they were started. */
  function FloorFetchIds(fetches: seq<Fetch>): seq<string>
  {
    if fetches == [] then []
    else
      var n := |fetches| - 1;
      FloorFetchIds(fetches[..n]) + (if fetches[n].FloorOverlay? then [fetches[n].levelId] else [])
  }

  lemma FloorFetchIdsSnoc(fetches: seq<Fetch>, f: Fetch)
    ensures FloorFetchIds(fetches + [f]) == FloorFetchIds(fetches) + (if f.FloorOverlay? then [f.levelId] else [])
  {
    assert (fetches + [f])[..|fetches|] == fetches;
  }

  lemma {:induction false} FloorFetchIdsHas(fetches: seq<Fetch>, i: nat)
    requires i < |fetches| && fetches[i].FloorOverlay?
    ensures fetches[i].levelId in FloorFetchIds(fetches)
  {
    var n := |fetches| - 1;
    if i < n {
      assert fetches[..n][i] == fetches[i];
      FloorFetchIdsHas(fetches[..n], i);
    }
  }

  /** While the recorded floor ids are distinct, no floor has been
      downloaded twice. */
  lemma {:induction false} FloorFetchedOnce(fetches: seq<Fetch>)
    requires NoDuplicates(FloorFetchIds(fetches))
    ensures forall i, j :: 0 <= i < j < |fetches| && fetches[i].FloorOverlay? && fetches[j].FloorOverlay? ==>
      fetches[i].levelId != fetches[j].levelId
  {
    if fetches != [] {
      var n := |fetches| - 1;
      var front := fetches[..n];
      var ids := FloorFetchIds(front);
      assert FloorFetchIds(fetches) == ids + (if fetches[n].FloorOverlay? then [fetches[n].levelId] else []);
      assert NoDuplicates(ids) by {
        forall a, b | 0 <= a < b < |ids| ensures ids[a] != ids[b] {
          assert FloorFetchIds(fetches)[a] == ids[a] && FloorFetchIds(fetches)[b] == ids[b];
        }
      }
      FloorFetchedOnce(front);
      forall i, j | 0 <= i < j < |fetches| && fetches[i].FloorOverlay? && fetches[j].FloorOverlay?
        ensures fetches[i].levelId != fetches[j].levelId
      {
        if j == n {
          assert front[i] == fetches[i];
          FloorFetchIdsHas(front, i);
          var a :| 0 <= a < |ids| && ids[a] == fetches[i].levelId;
          assert FloorFetchIds(fetches)[a] == fetches[i].levelId;
          assert FloorFetchIds(fetches)[|ids|] == fetches[n].levelId;
        } else {
          assert front[i] == fetches[i] && front[j] == fetches[j];
        }
      }
    }
  }

  // Registering the POI icons.

  /** The image ids registered so far, and whether every icon loaded. */
  datatype IconLoad = IconLoad(images: seq<string>, ok: bool)

  lemma ImageIdInjective(a: string, b: string)
    ensures ImageId(a) == ImageId(b) ==> a == b
  {
    assert ImageId(a)[4..] == a && ImageId(b)[4..] == b;
  }

  /** One POI of the icon loop: a POI whose category is not in the catalog is
      skipped; an icon already registered is not loaded again; otherwise the
      category's icon is loaded and registered as `'eap-' + category`, and a
      failing load abandons the dataset. */
  function IconStep(categories: seq<Category>, p: Poi, images: seq<string>, broken: set<string>): IconLoad
  {
    match FindCategory(categories, p.category)
    case None => IconLoad(images, true)
    case Some(c) =>
      if ImageId(p.category) in images then IconLoad(images, true)
      else if c.icon in broken then IconLoad(images, false)
      else IconLoad(images + [ImageId(p.category)], true)
  }

  /** The icon loop over a dataset, from the image ids already registered;
      `broken` holds the icon URLs whose load fails. */
  function RegisterIcons(categories: seq<Category>, ps: seq<Poi>, images: seq<string>, broken: set<string>): IconLoad
  {
    if ps == [] then IconLoad(images, true)
    else
      var n := |ps| - 1;
      var prev := RegisterIcons(categories, ps[..n], images, broken);
      if !prev.ok then prev else IconStep(categories, ps[n], prev.images, broken)
  }

  /** The POI `p` needs an icon that is not registered and fails to load. */
  predicate IconFails(categories: seq<Category>, p: Poi, images: seq<string>, broken: set<string>)
  {
    match FindCategory(categories, p.category)
    case None => false
    case Some(c) => ImageId(p.category) !in images && c.icon in broken
  }

  /** `id` is the image id of a POI of `ps` whose category the catalog knows. */
  predicate FromCatalog(categories: seq<Category>, ps: seq<Poi>, id: string)
  {
    exists p :: p in ps && FindCategory(categories, p.category).Some? && id == ImageId(p.category)
  }

  /** The loop only appends: it keeps the ids already registered, registers
      each id at most once, and registers only ids of POIs whose category
      the catalog knows. */
  lemma {:induction false} RegisterIconsGrows(categories: seq<Category>, ps: seq<Poi>, images: seq<string>, broken: set<string>)
    ensures var r := RegisterIcons(categories, ps, images, broken);
      && |images| <= |r.images| && r.images[..|images|] == images
      && (NoDuplicates(images) ==> NoDuplicates(r.images))
      && (forall k :: |images| <= k < |r.images| ==> FromCatalog(categories, ps, r.images[k]))
  {
    if ps != [] {
      var n := |ps| - 1;
      var prev := RegisterIcons(categories, ps[..n], images, broken);
      RegisterIconsGrows(categories, ps[..n], images, broken);
      var r := RegisterIcons(categories, ps, images, broken);
      assert r.images == prev.images || r.images == prev.images + [ImageId(ps[n].category)];
      forall k | |images| <= k < |r.images| ensures FromCatalog(categories, ps, r.images[k]) {
        if k < |prev.images| {
          assert FromCatalog(categories, ps[..n], prev.images[k]);
          var p :| p in ps[..n] && FindCategory(categories, p.category).Some? && prev.images[k] == ImageId(p.category);
          var j :| 0 <= j < n && ps[..n][j] == p;
          assert ps[j] == p;
          assert r.images[k] == prev.images[k];
        } else {
          assert ps[n] in ps;
        }
      }
      if r.images != prev.images {
        assert r.images[..|images|] == prev.images[..|images|];
      }
    }
  }

  /** The loop succeeds exactly when no POI needs an unregistered icon that
      fails to load, and then every POI whose category the catalog knows has
      its category's image registered. */
  lemma {:induction false} RegisterIconsOutcome(categories: seq<Category>, ps: seq<Poi>, images: seq<string>, broken: set<string>)
    ensures var r := RegisterIcons(categories, ps, images, broken);
      && (!r.ok <==> exists p :: p in ps && IconFails(categories, p, images, broken))
      && (r.ok ==> forall p :: p in ps && FindCategory(categories, p.category).Some? ==> ImageId(p.category) in r.images)
  {
    if ps != [] {
      var n := |ps| - 1;
      var front := ps[..n];
      var last := ps[n];
      assert ps == front + [last];
      var prev := RegisterIcons(categories, front, images, broken);
      var r := RegisterIcons(categories, ps, images, broken);
      RegisterIconsOutcome(categories, front, images, broken);
      RegisterIconsGrows(categories, front, images, broken);
      if prev.ok {
        assert forall x :: x in images ==> x in prev.images by {
          forall x | x in images ensures x in prev.images {
            var k :| 0 <= k < |images| && images[k] == x;
            assert prev.images[k] == x;
          }
        }
        if !r.ok {
          assert IconFails(categories, last, images, broken);
        } else {
          forall p | p in ps ensures !IconFails(categories, p, images, broken) {
            if p != last {
              var j :| 0 <= j < |ps| && ps[j] == p;
              assert front[j] == p;
            } else if FindCategory(categories, last.category).Some? && ImageId(last.category) !in images {
              if ImageId(last.category) in prev.images {
                forall j | 0 <= j < |images| ensures prev.images[j] != ImageId(last.category) {
                  assert prev.images[j] == images[j];
                }
                var k :| |images| <= k < |prev.images| && prev.images[k] == ImageId(last.category);
                assert FromCatalog(categories, front, prev.images[k]);
                var q :| q in front && FindCategory(categories, q.category).Some? && prev.images[k] == ImageId(q.category);
                ImageIdInjective(q.category, last.category);
                assert !IconFails(categories, q, images, broken);
              }
            }
          }
        }
      }
    }
  }

  /** Once an icon has failed, the rest of the dataset is not looked at. */
  lemma {:induction false} RegisterIconsStops(categories: seq<Category>, ps: seq<Poi>, k: nat, images: seq<string>, broken: set<string>)
    requires k <= |ps| && !RegisterIcons(categories, ps[..k], images, broken).ok
    ensures RegisterIcons(categories, ps, images, broken) == RegisterIcons(categories, ps[..k], images, broken)
  {
    if k == |ps| {
      assert ps[..k] == ps;
    } else {
      var n := |ps| - 1;
      assert ps[..n][..k] == ps[..k];
      RegisterIconsStops(categories, ps[..n], k, images, broken);
    }
  }

  lemma RegisterIconsStep(categories: seq<Category>, ps: seq<Poi>, i: nat, images: seq<string>, broken: set<string>)
    requires i < |ps| && RegisterIcons(categories, ps[..i], images, broken).ok
    ensures RegisterIcons(categories, ps[..i + 1], images, broken)
      == IconStep(categories, ps[i], RegisterIcons(categories, ps[..i], images, broken).images, broken)
  {
    assert ps[..i + 1][..i] == ps[..i];
  }

  // Popups from the POI list.

  /** The popup a POI button opens: none when the dataset has not arrived, no
      POI has the id, or the first POI with the id has no geometry (the
      handler throws before opening it). */
  function PoiPopup(pois: Option<seq<Poi>>, fid: string): Option<Popup>
  {
    if pois.None? then None
    else match FindPoi(pois.value, fid)
      case None => None
      case Some(p) => if p.geometry.None? then None else Some(Popup(p.geometry.value, PopupContent(p)))
  }

  /** When POI ids are unique, the button listed for a POI opens that POI's
      popup, at its position; with a duplicated id it may open another. */
  lemma PoiButtonOpensItsPopup(pois: seq<Poi>, q: Poi)
    requires q in pois && q.geometry.Some?
    requires forall k :: 0 <= k < |pois| && pois[k].fid == q.fid ==> pois[k] == q
    ensures PoiEntry(q).PoiButton?
    ensures PoiPopup(Some(pois), PoiEntry(q).fid) == Some(Popup(q.geometry.value, PopupContent(q)))
  {
    var found := FindPoi(pois, q.fid);
    assert found.Some? by {
      var k :| 0 <= k < |pois| && pois[k] == q;
    }
    var i :| 0 <= i < |pois| && pois[i] == found.value;
  }

  /** Neither the POI source nor a floor source is a basemap source. */
  lemma PageIdsPrefixed(levelId: string)
    ensures HasPrefix("eap-", LevelSourceId(levelId)) && HasPrefix("eap-", PoiSourceId) && HasPrefix("eap-", PoiLayerId)
  {
    assert LevelSourceId(levelId)[..4] == "eap-";
  }

  // The page's downloads and map, as one value.

  /** What the page knows about its downloads, and the map: the POI dataset
      and its guard, the registered image ids, the floors requested, every
      download started and those not completed yet. */
  datatype LoadState = LoadState(
    pois: Option<seq<Poi>>,
    poiLoaded: bool,
    images: seq<string>,
    loadedLevels: seq<string>,
    fetches: seq<Fetch>,
    pendingPoi: nat,
    pendingLevels: set<string>,
    surface: MapState)

  /** Every floor layer on the map belongs to a floor already requested. */
  ghost predicate FloorLayersRequested(s: LoadState)
  {
    forall l :: l in s.surface.layers && (l.paint.GroundFill? || l.paint.Extrusion?) ==>
      l.id in OverlayLayerIds(s.loadedLevels)
  }

  /** The guards agree with the map and with the downloads: each floor's
      download is started at most once and its source added only when it
      completes; the POI guard is set exactly when the POI source and layer
      are on the map; every image is registered once; layer ids are unique
      and every floor layer belongs to a requested floor. */
  ghost predicate Consistent(s: LoadState)
  {
    && NoDuplicates(s.loadedLevels)
    && FloorFetchIds(s.fetches) == s.loadedLevels
    && s.pendingLevels <= Elements(s.loadedLevels)
    && (forall x :: LevelSourceId(x) in s.surface.sources ==> x in s.loadedLevels && x !in s.pendingLevels)
    && (s.poiLoaded <==> PoiSourceId in s.surface.sources)
    && (s.poiLoaded <==> HasLayer(s.surface, PoiLayerId))
    && (s.poiLoaded ==> s.pois.Some?)
    && NoDuplicates(s.images) && s.surface.images == Elements(s.images)
    && UniqueLayerIds(s.surface.layers)
    && FloorLayersRequested(s)
  }

  /** `loadPOIGeoJSON` up to its download: the dataset is requested only
      while the POI guard is unset. */
  function PoiRequested(s: LoadState): LoadState
  {
    if s.poiLoaded then s
    else s.(fetches := s.fetches + [PoiDataset], pendingPoi := s.pendingPoi + 1)
  }

  /** `loadLevelGeoJSON` up to its download: the floor's id is recorded
      before the download starts, so a floor is requested once, and never
      again even when its download fails. */
  function LevelRequested(s: LoadState, level: Level): LoadState
  {
    if level.id in s.loadedLevels then s
    else s.(loadedLevels := s.loadedLevels + [level.id],
            fetches := s.fetches + [FloorOverlay(level.id, level.geojson)],
            pendingLevels := s.pendingLevels + {level.id})
  }

  /** `applyFilters` for a selection: the popup is closed, the POI dataset
      and the selected floor are requested, and the layers are reconciled
      with the selection, every floor requested before the call being
      hidden unless it is the selected one. */
  function Applied(s: LoadState, level: Option<Level>, category: Option<Category>): LoadState
  {
    var levelId := LevelId(level);
    var requested := if level.Some? then LevelRequested(PoiRequested(s), level.value) else PoiRequested(s);
    requested.(surface := s.surface.(
      layers := Reconciled(s.surface.layers, OverlayLayerIds(s.loadedLevels), ShownLayerIds(levelId),
                           SelectionFilter(levelId, CategoryId(category))),
      popup := None))
  }

  lemma OverlayLayerIdsSnoc(levelIds: seq<string>, x: string)
    ensures OverlayLayerIds(levelIds + [x]) == OverlayLayerIds(levelIds) + {GroundLayerId(x), ExtrusionLayerId(x)}
  {
    assert (levelIds + [x])[..|levelIds|] == levelIds;
  }

  /** A floor's own layer ids are overlay ids once it is requested. */
  lemma OverlayLayerIdsHas(levelIds: seq<string>, x: string)
    requires x in levelIds
    ensures GroundLayerId(x) in OverlayLayerIds(levelIds) && ExtrusionLayerId(x) in OverlayLayerIds(levelIds)
  {
    var k :| 0 <= k < |levelIds| && levelIds[k] == x;
    OverlayLayerIdsMeaning(levelIds, GroundLayerId(x));
    OverlayLayerIdsMeaning(levelIds, ExtrusionLayerId(x));
  }

  /** Requesting downloads keeps the state consistent. */
  lemma {:induction false} RequestsConsistent(s: LoadState, level: Level)
    requires Consistent(s)
    ensures Consistent(PoiRequested(s))
    ensures Consistent(LevelRequested(s, level))
  {
    FloorFetchIdsSnoc(s.fetches, PoiDataset);
    var r := LevelRequested(s, level);
    if level.id !in s.loadedLevels {
      FloorFetchIdsSnoc(s.fetches, FloorOverlay(level.id, level.geojson));
      OverlayLayerIdsSnoc(s.loadedLevels, level.id);
      assert NoDuplicates(r.loadedLevels) by {
        forall i, j | 0 <= i < j < |r.loadedLevels| ensures r.loadedLevels[i] != r.loadedLevels[j] {
          if j == |s.loadedLevels| {
            assert r.loadedLevels[i] == s.loadedLevels[i];
          }
        }
      }
    }
  }

  /** A map with the same sources, images, layer ids and layer kinds keeps
      the state consistent: reconciling only changes visibility and filters. */
  lemma ReconciledConsistent(s: LoadState, m: MapState)
    requires Consistent(s)
    requires m.sources == s.surface.sources && m.images == s.surface.images
    requires |m.layers| == |s.surface.layers|
    requires forall i :: 0 <= i < |m.layers| ==> m.layers[i].id == s.surface.layers[i].id && m.layers[i].paint == s.surface.layers[i].paint
    ensures Consistent(s.(surface := m))
  {
    assert LayerIds(m.layers) == LayerIds(s.surface.layers);
    forall l | l in m.layers && (l.paint.GroundFill? || l.paint.Extrusion?)
      ensures l.id in OverlayLayerIds(s.loadedLevels)
    {
      var i :| 0 <= i < |m.layers| && m.layers[i] == l;
      assert s.surface.layers[i] in s.surface.layers;
    }
  }

  /** The requests leave the map alone. */
  lemma RequestedSurface(s: LoadState, level: Option<Level>)
    ensures PoiRequested(s).surface == s.surface && PoiRequested(s).loadedLevels == s.loadedLevels
    ensures level.Some? ==> LevelRequested(PoiRequested(s), level.value).surface == s.surface
  {
  }

  /** `applyFilters` keeps the state consistent. */
  lemma AppliedConsistent(s: LoadState, level: Option<Level>, category: Option<Category>)
    requires Consistent(s)
    ensures Consistent(Applied(s, level, category))
  {
    var levelId := LevelId(level);
    var p := PoiRequested(s);
    RequestsConsistent(s, Level("", "", ""));
    var requested := if level.Some? then LevelRequested(p, level.value) else p;
    if level.Some? {
      RequestsConsistent(p, level.value);
    }
    RequestedSurface(s, level);
    var m := s.surface.(
      layers := Reconciled(s.surface.layers, OverlayLayerIds(s.loadedLevels), ShownLayerIds(levelId),
                           SelectionFilter(levelId, CategoryId(category))),
      popup := None);
    ReconciledKeepsKinds(s.surface.layers, OverlayLayerIds(s.loadedLevels), ShownLayerIds(levelId),
                         SelectionFilter(levelId, CategoryId(category)));
    ReconciledConsistent(requested, m);
    assert Applied(s, level, category) == requested.(surface := m);
  }

  /** Reconciling changes no layer's id or kind. */
  lemma ReconciledKeepsKinds(layers: seq<Layer>, hidden: set<string>, shown: set<string>, f: Option<Filter>)
    ensures var r := Reconciled(layers, hidden, shown, f);
      |r| == |layers| && forall i :: 0 <= i < |r| ==> r[i].id == layers[i].id && r[i].paint == layers[i].paint
  {
    var r := Reconciled(layers, hidden, shown, f);
    forall i | 0 <= i < |r| ensures r[i].id == layers[i].id && r[i].paint == layers[i].paint {
      assert r[i] == ReconciledLayer(layers[i], hidden, shown, f);
    }
  }

  /** The steps of `applyFilters` in the order it takes them (close the
      popup, request the dataset, hide the requested floors, request and show
      the selected one, show and filter the POI layer) make one `Applied`. */
  lemma AppliedInSteps(s: LoadState, level: Option<Level>, category: Option<Category>)
    ensures var r0 := PoiRequested(s.(surface := s.surface.(popup := None)));
      var r1 := r0.(surface := r0.surface.(layers := Hide(r0.surface.layers, OverlayLayerIds(r0.loadedLevels))));
      var r2 := if level.Some? then LevelRequested(r1, level.value) else r1;
      var shown :=
        if level.Some? then SetVisibility(SetVisibility(r2.surface, GroundLayerId(level.value.id), Visible), ExtrusionLayerId(level.value.id), Visible)
        else r2.surface;
      var f := SelectionFilter(LevelId(level), CategoryId(category));
      r2.(surface := SetFilter(SetVisibility(shown, PoiLayerId, Visible), PoiLayerId, f)) == Applied(s, level, category)
  {
    var r0 := PoiRequested(s.(surface := s.surface.(popup := None)));
    var r1 := r0.(surface := r0.surface.(layers := Hide(r0.surface.layers, OverlayLayerIds(r0.loadedLevels))));
    var r2 := if level.Some? then LevelRequested(r1, level.value) else r1;
    assert r0.loadedLevels == s.loadedLevels && r0.surface.layers == s.surface.layers;
    assert r2.surface == r1.surface;
    ShowAndFilter(r1.surface, s.surface.layers, OverlayLayerIds(s.loadedLevels), LevelId(level),
                  SelectionFilter(LevelId(level), CategoryId(category)));
  }

  /** Right after `applyFilters`, the only floor drawn is the selected one:
      a floor layer is visible exactly when it belongs to the selected
      floor, and the POI layer is visible with the selection's filter. */
  lemma AppliedShowsSelection(s: LoadState, level: Option<Level>, category: Option<Category>, i: nat)
    requires Consistent(s) && i < |s.surface.layers|
    ensures var l := Applied(s, level, category).surface.layers[i];
      && (l.paint.GroundFill? || l.paint.Extrusion? ==>
            (l.visibility == Visible <==> l.id in ShownLayerIds(LevelId(level))))
      && (l.id == PoiLayerId ==>
            l.visibility == Visible && l.filter == SelectionFilter(LevelId(level), CategoryId(category)))
  {
    var levelId := LevelId(level);
    var old_ := s.surface.layers[i];
    assert old_ in s.surface.layers;
    ReconciledMeaning(s.surface.layers, s.loadedLevels, levelId, SelectionFilter(levelId, CategoryId(category)), i);
    if old_.paint.GroundFill? || old_.paint.Extrusion? {
      OverlayLayerIdsMeaning(s.loadedLevels, old_.id);
      var k :| 0 <= k < |s.loadedLevels| && (old_.id == GroundLayerId(s.loadedLevels[k]) || old_.id == ExtrusionLayerId(s.loadedLevels[k]));
      IdsDistinct(s.loadedLevels[k], s.loadedLevels[k]);
    }
  }

  /** Applying the same selection twice changes the map no further, and
      requests no floor again; only the POI dataset is requested again while
      it has not arrived. */
  lemma ApplyFiltersStable(s: LoadState, level: Option<Level>, category: Option<Category>)
    ensures var once := Applied(s, level, category);
      var twice := Applied(once, level, category);
      && twice.surface == once.surface
      && twice.loadedLevels == once.loadedLevels && twice.pendingLevels == once.pendingLevels
      && twice.fetches == once.fetches + (if once.poiLoaded then [] else [PoiDataset])
  {
    var levelId := LevelId(level);
    var once := Applied(s, level, category);
    var f := SelectionFilter(levelId, CategoryId(category));
    if level.Some? && level.value.id !in s.loadedLevels {
      OverlayLayerIdsSnoc(s.loadedLevels, level.value.id);
    }
    assert level.Some? ==> level.value.id in once.loadedLevels;
    ReconcileIdempotent(s.surface.layers, OverlayLayerIds(s.loadedLevels), OverlayLayerIds(once.loadedLevels),
                        ShownLayerIds(levelId), f);
  }

  /** A completed floor download keeps the state consistent: its source is
      not on the map yet, and its layers belong to a requested floor. */
  lemma LevelCompletedConsistent(s: LoadState, levelId: string, floor: seq<FloorFeature>)
    requires Consistent(s) && levelId in s.pendingLevels
    ensures LevelSourceId(levelId) !in s.surface.sources
    ensures Consistent(s.(pendingLevels := s.pendingLevels - {levelId}))
    ensures var m := s.surface.(sources := s.surface.sources[LevelSourceId(levelId) := FloorPlan(floor)]);
      var m2 := AddLayer(AddLayer(m, GroundLayer(levelId), Some(PoiLayerId)), ExtrusionLayer(levelId), Some(PoiLayerId));
      Consistent(s.(pendingLevels := s.pendingLevels - {levelId}, surface := m2))
  {
    var t := s.(pendingLevels := s.pendingLevels - {levelId},
                surface := s.surface.(sources := s.surface.sources[LevelSourceId(levelId) := FloorPlan(floor)]));
    FloorSourceAdded(s, levelId, floor);
    FloorLayerAdded(t, GroundLayer(levelId), levelId);
    var t1 := t.(surface := AddLayer(t.surface, GroundLayer(levelId), Some(PoiLayerId)));
    FloorLayerAdded(t1, ExtrusionLayer(levelId), levelId);
  }

  /** Adding a completed floor's source keeps the state consistent. */
  lemma FloorSourceAdded(s: LoadState, levelId: string, floor: seq<FloorFeature>)
    requires Consistent(s) && levelId in s.pendingLevels
    ensures LevelSourceId(levelId) !in s.surface.sources
    ensures Consistent(s.(pendingLevels := s.pendingLevels - {levelId}))
    ensures Consistent(s.(pendingLevels := s.pendingLevels - {levelId},
                          surface := s.surface.(sources := s.surface.sources[LevelSourceId(levelId) := FloorPlan(floor)])))
  {
    var sources := s.surface.sources[LevelSourceId(levelId) := FloorPlan(floor)];
    IdsDistinct(levelId, levelId);
    forall x | LevelSourceId(x) in sources ensures x in s.loadedLevels && x !in s.pendingLevels - {levelId} {
      IdsDistinct(x, levelId);
    }
  }

  /** Adding a requested floor's layer below the POI layer keeps the state
      consistent. */
  lemma FloorLayerAdded(s: LoadState, l: Layer, levelId: string)
    requires Consistent(s) && levelId in s.loadedLevels
    requires l == GroundLayer(levelId) || l == ExtrusionLayer(levelId)
    ensures Consistent(s.(surface := AddLayer(s.surface, l, Some(PoiLayerId))))
  {
    IdsDistinct(levelId, levelId);
    AddLayerIds(s.surface, l, Some(PoiLayerId));
    AddLayerElements(s.surface, l, Some(PoiLayerId));
    OverlayLayerIdsHas(s.loadedLevels, levelId);
  }

  /** A completed POI download keeps the state consistent, whether or not
      its source and layer get added. */
  lemma PoiCompletedConsistent(s: LoadState, categories: seq<Category>, ps: seq<Poi>, broken: set<string>, pending: nat)
    requires Consistent(s)
    ensures Consistent(s.(pendingPoi := pending))
    ensures var icons := RegisterIcons(categories, ps, s.images, broken);
      var t := s.(pois := Some(ps), images := icons.images, pendingPoi := pending, surface := s.surface.(images := Elements(icons.images)));
      && Consistent(t)
      && (!s.poiLoaded ==>
            && PoiSourceId !in s.surface.sources
            && Consistent(t.(poiLoaded := true, surface := AddLayer(t.surface.(sources := t.surface.sources[PoiSourceId := PoiCollection(ps)]), PoiLayer, None))))
  {
    var icons := RegisterIcons(categories, ps, s.images, broken);
    RegisterIconsGrows(categories, ps, s.images, broken);
    var t := s.(pois := Some(ps), images := icons.images, pendingPoi := pending, surface := s.surface.(images := Elements(icons.images)));
    if !s.poiLoaded {
      var withSource := t.surface.(sources := t.surface.sources[PoiSourceId := PoiCollection(ps)]);
      AddLayerIds(withSource, PoiLayer, None);
      AddLayerElements(withSource, PoiLayer, None);
      forall x | LevelSourceId(x) in withSource.sources ensures x in s.loadedLevels && x !in s.pendingLevels {
        IdsDistinct(x, x);
      }
    }
  }

  /** The icon loop of `loadPOIGeoJSON`: POI by POI, the icon of a category
      the catalog knows is loaded and registered unless already registered;
      the loop stops at the first icon that fails to load. */
  method LoadIcons(categories: seq<Category>, ps: seq<Poi>, images: seq<string>, m: MapState, broken: set<string>)
    returns (loaded: IconLoad, r: MapState)
    requires m.images == Elements(images)
    ensures loaded == RegisterIcons(categories, ps, images, broken)
    ensures r == m.(images := Elements(loaded.images))
  {
    var registered := images;
    var ok := true;
    r := m;
    var i := 0;
    while i < |ps| && ok
      invariant 0 <= i <= |ps|
      invariant RegisterIcons(categories, ps[..i], images, broken) == IconLoad(registered, ok)
      invariant r == m.(images := Elements(registered))
    {
      RegisterIconsStep(categories, ps, i, images, broken);
      var category := FindCategory(categories, ps[i].category);
      if category.Some? {
        var imageId := ImageId(ps[i].category);
        if imageId !in registered {
          if category.value.icon in broken {
            ok := false;
          } else {
            r := AddImage(r, imageId);
            registered := registered + [imageId];
          }
        }
      }
      i := i + 1;
    }
    if ok {
      assert ps[..i] == ps;
    } else {
      RegisterIconsStops(categories, ps, i, images, broken);
    }
    loaded := IconLoad(registered, ok);
  }

  /** The loop of `hideAllLevels`: `visibility` is set to `'none'` on both
      layers of every floor requested so far. */
  method HideLevels(m: MapState, levelIds: seq<string>) returns (r: MapState)
    ensures r == m.(layers := Hide(m.layers, OverlayLayerIds(levelIds)))
  {
    r := m;
    assert Hide(m.layers, {}) == m.layers;
    for k := 0 to |levelIds|
      invariant r == m.(layers := Hide(m.layers, OverlayLayerIds(levelIds[..k])))
    {
      var levelId := levelIds[k];
      r := SetVisibility(r, GroundLayerId(levelId), Hidden);
      r := SetVisibility(r, ExtrusionLayerId(levelId), Hidden);
      assert levelIds[..k + 1][..k] == levelIds[..k];
      HideTwice(m.layers, OverlayLayerIds(levelIds[..k]), {GroundLayerId(levelId), ExtrusionLayerId(levelId)});
    }
    assert levelIds[..|levelIds|] == levelIds;
  }

  class FilterController {
    const levels: seq<Level>
    const categories: seq<Category>
    var currentLevel: Option<Level>
    var currentCategory: Option<Category>
    /** The downloads, their guards and the map. */
    var loads: LoadState
    var sidebar: seq<Entry>
    /** The `level` parameter of the page URL. */
    var urlLevel: Option<string>

    ghost predicate Valid()
      reads this`loads
    {
      Consistent(loads)
    }

    /** The page at start-up: nothing selected, nothing downloaded, the
        basemap's sources and layers on the map, the sidebar listing the
        root categories. */
    constructor (levels: seq<Level>, categories: seq<Category>, baseSources: map<string, Source>, baseLayers: seq<Layer>, url: Option<string>)
      requires forall k :: k in baseSources ==> !HasPrefix("eap-", k)
      requires forall i :: 0 <= i < |baseLayers| ==> !HasPrefix("eap-", baseLayers[i].id)
      requires forall i :: 0 <= i < |baseLayers| ==> baseLayers[i].paint.Basemap?
      requires UniqueLayerIds(baseLayers)
      ensures Valid()
      ensures this.levels == levels && this.categories == categories
      ensures loads == LoadState(None, false, [], [], [], 0, {}, MapState(baseSources, baseLayers, {}, None))
      ensures currentLevel == None && currentCategory == None
      ensures sidebar == CategoryList(categories, None, None, levels)
      ensures urlLevel == url
    {
      var entries := BuildCategoryList(categories, None, None, levels);
      this.levels := levels;
      this.categories := categories;
      currentLevel := None;
      currentCategory := None;
      loads := LoadState(None, false, [], [], [], 0, {}, MapState(baseSources, baseLayers, {}, None));
      sidebar := entries;
      urlLevel := url;
      new;
      PageIdsPrefixed("");
      forall x ensures LevelSourceId(x) !in baseSources {
        PageIdsPrefixed(x);
      }
      forall i | 0 <= i < |baseLayers| ensures LayerIds(baseLayers)[i] != PoiLayerId {
        assert !HasPrefix("eap-", baseLayers[i].id);
      }
      assert !HasLayer(loads.surface, PoiLayerId);
    }

    /** `loadPOIGeoJSON`, up to the download. */
    method LoadPoiGeoJSON()
      requires Valid()
      modifies this`loads
      ensures Valid()
      ensures loads == PoiRequested(old(loads))
    {
      RequestsConsistent(loads, Level("", "", ""));
      if !loads.poiLoaded {
        loads := loads.(fetches := loads.fetches + [PoiDataset], pendingPoi := loads.pendingPoi + 1);
      }
    }

    /** `loadLevelGeoJSON`, up to the download. */
    method LoadLevelGeoJSON(level: Level)
      requires Valid()
      modifies this`loads
      ensures Valid()
      ensures loads == LevelRequested(old(loads), level)
    {
      RequestsConsistent(loads, level);
      if level.id !in loads.loadedLevels {
        loads := loads.(loadedLevels := loads.loadedLevels + [level.id],
                        fetches := loads.fetches + [FloorOverlay(level.id, level.geojson)],
                        pendingLevels := loads.pendingLevels + {level.id});
      }
    }

    /** `hideAllLevels` */
    method HideAllLevels()
      requires Valid()
      modifies this`loads
      ensures Valid()
      ensures loads == old(loads).(surface := old(loads.surface).(
        layers := Hide(old(loads.surface.layers), OverlayLayerIds(old(loads.loadedLevels)))))
    {
      var m := HideLevels(loads.surface, loads.loadedLevels);
      ReconciledConsistent(loads, m);
      loads := loads.(surface := m);
    }

    /** `applyFilters`: closes the popup, requests the POI dataset, hides
        every requested floor, requests and shows the selected one, and shows
        the POI layer filtered by the selection. */
    method ApplyFilters()
      requires Valid()
      modifies this`loads
      ensures Valid()
      ensures loads == Applied(old(loads), currentLevel, currentCategory)
    {
      ghost var s := loads;
      ReconciledConsistent(s, s.surface.(popup := None));
      loads := loads.(surface := loads.surface.(popup := None));
      LoadPoiGeoJSON();
      HideAllLevels();
      if currentLevel.Some? {
        LoadLevelGeoJSON(currentLevel.value);
        var m := SetVisibility(loads.surface, GroundLayerId(currentLevel.value.id), Visible);
        loads := loads.(surface := SetVisibility(m, ExtrusionLayerId(currentLevel.value.id), Visible));
      }
      var f := SelectionFilter(LevelId(currentLevel), CategoryId(currentCategory));
      loads := loads.(surface := SetFilter(SetVisibility(loads.surface, PoiLayerId, Visible), PoiLayerId, f));
      AppliedInSteps(s, currentLevel, currentCategory);
      AppliedConsistent(s, currentLevel, currentCategory);
    }

    /** Completion of a floor download started by `LoadLevelGeoJSON`;
        `response` is the floor's features, or `None` when the download or
        its decoding failed (the error is logged and nothing else happens).
        The floor's source is added, then its ground and extrusion layers,
        each directly below the POI layer; when the POI layer is not on the
        map yet, the map refuses both layers. */
    method CompleteLevelLoad(levelId: string, response: Option<seq<FloorFeature>>)
      requires Valid() && levelId in loads.pendingLevels
      modifies this`loads
      ensures Valid()
      ensures response.None? ==> loads == old(loads).(pendingLevels := old(loads.pendingLevels) - {levelId})
      ensures response.Some? ==> loads == old(loads).(
        pendingLevels := old(loads.pendingLevels) - {levelId},
        surface := AddLayer(AddLayer(old(loads.surface).(sources := old(loads.surface.sources)[LevelSourceId(levelId) := FloorPlan(response.value)]),
                                     GroundLayer(levelId), Some(PoiLayerId)),
                            ExtrusionLayer(levelId), Some(PoiLayerId)))
      ensures response.Some? && !HasLayer(old(loads.surface), PoiLayerId) ==> loads.surface.layers == old(loads.surface.layers)
      ensures response.Some? && HasLayer(old(loads.surface), PoiLayerId)
              && !HasLayer(old(loads.surface), GroundLayerId(levelId)) && !HasLayer(old(loads.surface), ExtrusionLayerId(levelId)) ==>
        var k := IndexOfLayer(old(loads.surface.layers), PoiLayerId).value;
        loads.surface.layers == old(loads.surface.layers)[..k] + [GroundLayer(levelId), ExtrusionLayer(levelId)] + old(loads.surface.layers)[k..]
    {
      LevelCompletedConsistent(loads, levelId, if response.Some? then response.value else []);
      var s := loads.(pendingLevels := loads.pendingLevels - {levelId});
      if response.None? {
        loads := s;
        return;
      }
      var m := AddSource(s.surface, LevelSourceId(levelId), FloorPlan(response.value)).value;
      var m1 := AddLayer(m, GroundLayer(levelId), Some(PoiLayerId));
      var m2 := AddLayer(m1, ExtrusionLayer(levelId), Some(PoiLayerId));
      if HasLayer(s.surface, PoiLayerId) && !HasLayer(s.surface, GroundLayerId(levelId)) && !HasLayer(s.surface, ExtrusionLayerId(levelId)) {
        FloorLayersPlaced(s.surface, levelId);
      }
      loads := s.(surface := m2);
    }

    /** Completion of a POI download started by `LoadPoiGeoJSON`; `response`
        is the dataset, or `None` when the download or its decoding failed;
        `brokenIcons` holds the icon URLs whose image fails to load. The
        dataset is kept, the icons are registered POI by POI, and then the
        POI source and the POI layer, on top, are added and the guard set;
        an icon failure abandons the rest, and so does a POI source that is
        already on the map, which leaves the guard as it was. */
    method CompletePoiLoad(response: Option<seq<Poi>>, brokenIcons: set<string>)
      requires Valid() && loads.pendingPoi > 0
      modifies this`loads
      ensures Valid()
      ensures response.None? ==> loads == old(loads).(pendingPoi := old(loads.pendingPoi) - 1)
      ensures response.Some? ==>
        var icons := RegisterIcons(categories, response.value, old(loads.images), brokenIcons);
        var added := !old(loads.poiLoaded) && icons.ok;
        var sources := old(loads.surface.sources);
        var layers := old(loads.surface.layers);
        loads == old(loads).(
          pois := response,
          poiLoaded := old(loads.poiLoaded) || icons.ok,
          images := icons.images,
          pendingPoi := old(loads.pendingPoi) - 1,
          surface := old(loads.surface).(
            sources := if added then sources[PoiSourceId := PoiCollection(response.value)] else sources,
            layers := if added then layers + [PoiLayer] else layers,
            images := Elements(icons.images)))
    {
      PoiCompletedConsistent(loads, categories, if response.Some? then response.value else [], brokenIcons, loads.pendingPoi - 1);
      var s := loads.(pendingPoi := loads.pendingPoi - 1);
      if response.None? {
        loads := s;
        return;
      }
      var icons, m := LoadIcons(categories, response.value, s.images, s.surface, brokenIcons);
      s := s.(pois := response, images := icons.images, surface := m);
      if icons.ok {
        match AddSource(m, PoiSourceId, PoiCollection(response.value)) {
          case None =>
          case Some(withSource) =>
            s := s.(surface := AddLayer(withSource, PoiLayer, None), poiLoaded := true);
        }
      }
      loads := s;
    }

    /** The level switcher's click handler; `attr` is the clicked element's
        `data-level`, absent when the click is not on a level button. The
        selected floor becomes the catalog's level with that id (none when
        no level has it), the map is reconciled, and the URL's `level`
        parameter is set to the floor's id or deleted. */
    method LevelClick(attr: Option<string>)
      requires Valid()
      modifies this`currentLevel, this`loads, this`urlLevel
      ensures Valid()
      ensures attr.None? ==> unchanged(this)
      ensures attr.Some? ==>
        && currentLevel == FindLevel(levels, attr.value)
        && loads == Applied(old(loads), currentLevel, currentCategory)
        && urlLevel == LevelId(currentLevel)
    {
      if attr.None? {
        return;
      }
      currentLevel := FindLevel(levels, attr.value);
      ApplyFilters();
      urlLevel := LevelId(currentLevel);
    }

    /** `handleCategoryButtonClick`; `attr` is the `data-category` of the
        clicked element, which is absent when the click lands on the icon or
        the label inside the button. A truthy id selects the catalog's category with that id (none when
        no category has it) and keeps the floor; a missing or empty id clears
        both the category and the floor. The map is reconciled and the
        sidebar rebuilt for the new selection. */
    method CategoryClick(attr: Option<string>)
      requires Valid()
      modifies this`currentLevel, this`currentCategory, this`loads, this`sidebar
      ensures Valid()
      ensures Truthy(attr) ==> currentCategory == FindCategory(categories, attr.value) && currentLevel == old(currentLevel)
      ensures !Truthy(attr) ==> currentCategory == None && currentLevel == None
      ensures loads == Applied(old(loads), currentLevel, currentCategory)
      ensures sidebar == CategoryList(categories, currentCategory, loads.pois, levels)
    {
      ghost var before := loads;
      SelectCategory(attr);
      assert loads == before;
      ApplyFilters();
      assert loads == Applied(before, currentLevel, currentCategory);
      UpdateCategorySwitcher();
    }

    /** The selection `handleCategoryButtonClick` makes before reconciling. */
    method SelectCategory(attr: Option<string>)
      modifies this`currentLevel, this`currentCategory
      ensures Truthy(attr) ==> currentCategory == FindCategory(categories, attr.value) && currentLevel == old(currentLevel)
      ensures !Truthy(attr) ==> currentCategory == None && currentLevel == None
    {
      if Truthy(attr) {
        currentCategory := FindCategory(categories, attr.value);
      } else {
        currentCategory, currentLevel := None, None;
      }
    }

    /** `updateCategorySwitcherControl`: the sidebar is rebuilt for the
        current category from the POIs downloaded so far. */
    method UpdateCategorySwitcher()
      modifies this`sidebar
      ensures sidebar == CategoryList(categories, currentCategory, loads.pois, levels)
    {
      sidebar := BuildCategoryList(categories, currentCategory, loads.pois, levels);
    }

    /** `handlePOIButtonClick`; `fid` and `levelAttr` are the clicked element's
        `data-fid` and `data-level`. The floor becomes the POI's floor, the
        category stays, the map is reconciled, and the popup of the first POI
        with that id opens at its position. */
    method PoiButtonClick(fid: string, levelAttr: Option<string>)
      requires Valid()
      modifies this`currentLevel, this`loads
      ensures Valid()
      ensures currentLevel == (if levelAttr.Some? then FindLevel(levels, levelAttr.value) else None)
      ensures var applied := Applied(old(loads), currentLevel, currentCategory);
        loads == applied.(surface := applied.surface.(popup := PoiPopup(applied.pois, fid)))
    {
      currentLevel := if levelAttr.Some? then FindLevel(levels, levelAttr.value) else None;
      ApplyFilters();
      var popup := PoiPopup(loads.pois, fid);
      ReconciledConsistent(loads, loads.surface.(popup := popup));
      loads := loads.(surface := loads.surface.(popup := popup));
    }

    /** The POI layer's click handler, registered once the layer is on the
        map: the popup of the clicked feature opens at its position. */
    method MapPoiClick(feature: Poi)
      requires Valid() && loads.poiLoaded && feature.geometry.Some?
      modifies this`loads
      ensures Valid()
      ensures loads == old(loads).(surface := old(loads.surface).(popup := Some(Popup(feature.geometry.value, PopupContent(feature)))))
    {
      var m := loads.surface.(popup := Some(Popup(feature.geometry.value, PopupContent(feature))));
      ReconciledConsistent(loads, m);
      loads := loads.(surface := m);
    }
  }
}
