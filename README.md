# Airport interactive plan: the selection controller

This project models the core of the airport's interactive plan, `src/main.js`: the controller that turns the visitor's selection into what the map shows and what the sidebar lists.

**Selection.** The visitor picks a floor (a *level*) and a POI *category*.

**Map and downloads.**
- The page overlays the selected floor's GeoJSON on a vector basemap. Each floor is drawn as a ground fill layer and an extrusion layer.
- It draws every POI as a symbol, in a layer whose filter follows the selection.
- It downloads each floor once, the POI dataset until it arrives, and each category icon once.

**Sidebar.** It lists, for the selected category:
- a back entry;
- the sub-categories;
- the POIs filed under the category, grouped by floor and sorted by lower-cased name.

**Theme.** A light/dark switch replaces the basemap style and carries the page's own (`eap-`) layers and sources over to the new style. The two theme styles share one `sources` table, and the merge writes the page's sources into it, so from the second switch on the next theme already holds them.

**How the map is modelled.** The map is an abstract surface (`MapSurface.MapState`) holding:
- sources by id;
- layers in drawing order, each with its visibility and filter;
- registered images;
- the open popup.

Its operations follow the map library's documented behaviour:
- `addSource` throws on a taken id;
- `addLayer` does nothing for a taken id or a missing `before` layer;
- setting a property or a filter on a missing layer does nothing.

**How downloads are modelled.** A download is split in two:
- a *request*, made synchronously inside `applyFilters` and recorded in the state;
- a *completion*, a separate step that may come later and in any order.

**The controller.** `Controller.FilterController` is a class holding:
- the selection;
- the sidebar;
- the `level` URL parameter;
- one `LoadState` value. This groups the load-once guards (`poiLoaded`, `levelGeoJSONloaded`, `poiLoadedImages`), the downloads in flight and the map.

Each handler is a method whose postcondition gives its new state in terms of a specification function (`Applied`, `PoiRequested`, `LevelRequested`, `RegisterIcons`, `CategoryList`). Lemmas prove what the page promises about those functions. Every method keeps the invariant `Consistent`, which says:
- a floor is downloaded at most once;
- its source appears only after its download completed;
- the POI guard is set exactly when the POI source and layer are on the map;
- images are registered once;
- layer ids stay unique;
- every floor layer on the map belongs to a requested floor.

Modules, one file each:
- `Base`: options, truthiness, prefixes.
- `Catalog`: levels, categories, POIs and the `find` lookups.
- `Filters`: filter expressions and the POI filter.
- `FloorStyle`: the floor `match` tables and filters.
- `MapSurface`: the map.
- `Sidebar`: the category list.
- `Popups`: the popup HTML.
- `Theme`: the style merge.
- `Controller`: the class.

## Model

| member | source | states |
|---|---|---|
| Catalog.FindLevel | src/main.js:664 | `levels.find` by id: `None` exactly when no level has the id, otherwise the first catalog level with that id |
| Catalog.FindCategory | src/main.js:718 | `categories.find` by id: `None` exactly when no category has the id, otherwise the first catalog category with that id |
| Catalog.FindPoi | src/main.js:763 | `pois.features.find` by `fid`: `None` exactly when no POI has the id, otherwise the first POI of the dataset with that id |
| Filters.SelectionFilter | src/main.js:396-413 | the POI filter is `null` exactly when neither level nor category is selected; a feature passes it exactly when it has the selected level (if any) and the selected category (if any); with both selected it is `all` of the level test then the category test |
| FloorStyle.MatchMeaning | src/main.js:459-486 | a `match` expression gives the fallback for a missing or unlisted input, and otherwise the value of an arm labelled with the input |
| FloorStyle.Match | src/main.js:459-486 | the `match` expression over `['get', 'type']`: the value of the first arm labelled with the input, or the fallback |
| FloorStyle.ExtrusionColor | src/main.js:459-472 | `fill-extrusion-color`: the colour table with fallback `#ccc` |
| FloorStyle.ExtrusionHeight | src/main.js:473-486 | `fill-extrusion-height`: the height table with fallback 0 |
| FloorStyle.CoalesceMeaning | src/main.js:447 | `coalesce` is `null` exactly when every argument is, and otherwise the value of the first argument that is not |
| FloorStyle.FeatureProperties | src/main.js:447 | `['get', 'type']` and `['get', 'color']` read back a floor feature's type and colour, `null` when absent (also the input of the `match` tables, lines 461 and 475) |
| FloorStyle.GroundColorCoalesce | src/main.js:447 | the ground layer's `coalesce` expression is never `null` on a floor feature and gives its `color` when it has one, `#aaaaaa` otherwise |
| FloorStyle.TablesAgree | src/main.js:459-505 | the colour table, the height table and the extrusion filter list the same eight types in the same order |
| FloorStyle.FloorFiltersAdmit | src/main.js:450 | the extrusion layer admits exactly the features whose `type` is one of the eight listed types; the ground layer admits exactly `type == 'ground'`; no feature is on both (filter at lines 490-505) |
| FloorStyle.ExtrusionDefaults | src/main.js:471-485 | a missing or unlisted type is extruded in `#ccc` with height 0 |
| FloorStyle.HeightsPositive | src/main.js:477-484 | every height of the table is positive |
| FloorStyle.ExtrusionColorArm | src/main.js:459-472 | every admitted type takes its colour from its own arm of the colour table |
| FloorStyle.ExtrusionHeightArm | src/main.js:473-486 | every admitted type takes its height from its own arm of the height table, so it is extruded with a positive height |
| MapSurface.IdsDistinct | src/main.js:432-433 | distinct floors get distinct source ids, and no floor source or floor layer id equals the POI source or layer id (lines 552-553) |
| MapSurface.IndexOfLayer | src/main.js:451 | the position of the first layer with the id that `addLayer`'s `before` names, `None` exactly when there is none |
| MapSurface.AddSource | src/main.js:434-437 | adding a source fails exactly when the id is taken; otherwise only that source is added |
| MapSurface.AddLayer | src/main.js:441-451 | a new layer goes directly below its `before` layer, or on top without one; a taken id or a missing `before` changes nothing; sources, images and popup are untouched |
| MapSurface.AddLayerIds | src/main.js:441-506 | adding a layer adds exactly the new layer's id when it is added, keeps every other id, and keeps ids unique |
| MapSurface.AddLayerElements | src/main.js:454-506 | adding a layer brings in no layer but the new one |
| MapSurface.SetVisibility | src/main.js:367-368 | `setLayoutProperty(id, 'visibility', v)` changes the visibility of the layers with that id only, and nothing else |
| MapSurface.SetFilter | src/main.js:398 | `setFilter(id, f)` changes the filter of the layers with that id only, and nothing else |
| MapSurface.AddImage | src/main.js:544 | `addImage` registers the id and changes nothing else |
| MapSurface.OverlayLayerIdsMeaning | src/main.js:364-368 | the ids `hideAllLevels` hides are exactly the ground and extrusion layer ids of the requested floors |
| MapSurface.Reconciled | src/main.js:385-413 | one reconciliation keeps the layer count and ids, and rewrites each layer independently |
| MapSurface.ReconciledMeaning | src/main.js:385-413 | after one reconciliation: the POI layer is visible with the selection's filter; the selected floor's layers are visible; every other requested floor's layers are hidden; ids, sources and kinds never change; any other layer is untouched |
| MapSurface.ReconcileIdempotent | src/main.js:372-414 | reconciling again with the same selection changes nothing, even though the second pass also hides the floor the first one requested |
| MapSurface.Hide | src/main.js:363-370 | hiding sets `visibility: none` on exactly the layers whose id is listed, and keeps every layer's id |
| MapSurface.HideTwice | src/main.js:364-369 | hiding two sets of layers in turn hides their union |
| MapSurface.ShowAndFilter | src/main.js:385-413 | hiding the requested floors, then showing the selected floor, then showing and filtering the POI layer is one reconciliation |
| MapSurface.FloorLayerIdsDiffer | src/main.js:433-455 | a floor's ground and extrusion layers never share an id |
| MapSurface.AddBelow | src/main.js:451 | a layer added below an existing layer takes that layer's place, and the existing layer moves up one |
| MapSurface.FloorLayersPlaced | src/main.js:441-506 | with the POI layer on the map, a floor's ground and extrusion layers end up directly beneath it, in that order |
| Sidebar.Select | src/main.js:120 | `filter` keeps exactly the elements that pass the test, and is never longer than its input |
| Sidebar.SelectAppend | src/main.js:206 | `filter` keeps the input order: filtering a concatenation concatenates the filtered parts |
| Sidebar.NameLeqTotal | src/main.js:235 | the name order used by the sort is total |
| Sidebar.NameLeqTransitive | src/main.js:235 | the name order used by the sort is transitive |
| Sidebar.InsertByNamePermutes | src/main.js:235 | inserting one POI adds exactly that POI to the multiset |
| Sidebar.InsertByNameMembers | src/main.js:235 | inserting one POI brings in no other POI |
| Sidebar.InsertByNameSorted | src/main.js:235 | inserting into a list sorted by lower-cased name keeps it sorted |
| Sidebar.SortByName | src/main.js:235 | the sort by lower-cased name, by stable insertion |
| Sidebar.SortByNameCorrect | src/main.js:235 | the sort yields a permutation of its input, ordered by lower-cased name |
| Sidebar.SortByNameStable | src/main.js:235 | the sort is stable: the POIs sharing a lower-cased name keep their input order |
| Sidebar.FirstOccurrencesCorrect | src/main.js:215 | keeping first occurrences leaves no duplicate and loses no value |
| Sidebar.FirstIndex | src/main.js:215 | `indexOf` of a value of the array: a position holding it, with no earlier one |
| Sidebar.FirstOccurrencesOrder | src/main.js:215 | the kept values are in the order of their first occurrence in the input |
| Sidebar.LevelIdsOf | src/main.js:210-214 | the level id of each selected POI, position by position |
| Sidebar.SelectNoDuplicates | src/main.js:215 | filtering a duplicate-free list leaves it duplicate-free |
| Sidebar.LevelsOf | src/main.js:210-214 | each id is mapped to the catalog level with that id, position by position |
| Sidebar.GroupLevels | src/main.js:210-216 | the floors of the selected POIs, each once, in first-occurrence order, unknown floors left out |
| Sidebar.GroupLevelsMeaning | src/main.js:210-216 | the floor groups have distinct levels; every selected POI on a known floor has its floor's group; every group is the floor of a selected POI |
| Sidebar.CategoryEntries | src/main.js:121-145 | one category button per category, in order |
| Sidebar.AppendCategoryButtons | src/main.js:121-145 | the loop appends one category button per category, in order |
| Sidebar.AppendGroup | src/main.js:227-263 | the loop appends the floor heading, then a button for each POI of the floor that has a geometry, in sorted order |
| Sidebar.AppendGroups | src/main.js:226-264 | the loop appends the groups one after the other |
| Sidebar.BuildCategoryList | src/main.js:114-267 | the nested loops build exactly `CategoryList` for the selection |
| Sidebar.BuildCategoryPage | src/main.js:146-266 | for a selected category the loops build the head, then, once the dataset is there, the POI part |
| Sidebar.BuildCategoryHead | src/main.js:149-204 | the back entry, then the sub-category heading and buttons when there are children |
| Sidebar.AppendPoiSection | src/main.js:206-265 | the POI heading and groups are appended only when some POI is filed under the category |
| Sidebar.PoiEntriesMeaning | src/main.js:237-262 | the POI buttons are exactly those of the POIs that have a geometry |
| Sidebar.GroupMeaning | src/main.js:226-263 | a group is its floor heading followed by the buttons of a list sorted by lower-cased name that is a permutation of the selected POIs on that floor |
| Sidebar.GroupButtons | src/main.js:234-263 | a group's POI buttons are exactly those of the selected POIs on its floor that have a geometry |
| Sidebar.GroupsEntriesSound | src/main.js:226-264 | every POI button of the groups is that of a selected POI with a geometry |
| Sidebar.GroupsEntriesComplete | src/main.js:226-264 | every selected POI with a geometry on a group's floor has its button in the groups |
| Sidebar.GroupsEntriesKinds | src/main.js:226-264 | the groups hold only floor headings and POI buttons |
| Sidebar.RootListing | src/main.js:118-145 | with no category selected, the list is one button per root category (no truthy parent), in catalog order |
| Sidebar.CategoryEntriesMembers | src/main.js:179-203 | the buttons of a category list are exactly those of its members |
| Sidebar.SubCategoryEntriesMeaning | src/main.js:171-204 | the sub-category part holds a button for exactly the children, and no POI button |
| Sidebar.HeadMeaning | src/main.js:147-204 | the head starts with the back entry, then holds a button for exactly the categories whose parent is the current one, and no POI button |
| Sidebar.CategoryList | src/main.js:114-267 | the sidebar list: the root categories with nothing selected; otherwise the back entry and the children, then, once the POIs are loaded, the POI heading and one group per floor |
| Sidebar.PoiSectionMeaning | src/main.js:206-265 | the POI part holds a button for every selected POI with a geometry on a known floor, for no other POI, and no category button |
| Sidebar.ListedPois | src/main.js:206-265 | with a category selected and the POIs loaded, the list holds a button for every POI filed directly under the category that has a geometry and a known floor, and for no other POI |
| Sidebar.ListedCategories | src/main.js:146-204 | the list starts with the back entry, which leads to the parent, or nowhere exactly when the category is a root; it holds a button for exactly the children |
| Sidebar.ListAfterHead | src/main.js:146-265 | the list is the head followed by a part without category buttons |
| Popups.PopupContentParts | src/main.js:779-793 | the popup is the header followed by one paragraph: the description when it is truthy, `Pas de description` otherwise |
| Popups.PopupContentDetermines | src/main.js:785-790 | for the same name and floor, two popups are equal exactly when they show the same description text |
| Theme.CustomLayers | src/main.js:307-309 | the `eap-` layer filter is never longer than its input |
| Theme.CustomLayersMembers | src/main.js:307-309 | the filter keeps exactly the `eap-` layers |
| Theme.CustomLayersAreCustom | src/main.js:307-309 | every layer the filter keeps is an `eap-` layer |
| Theme.CopyStep | src/main.js:313-317 | one step of the source copy loop adds the key's source exactly when the key is an `eap-` key |
| Theme.Transformed | src/main.js:306-323 | the merged style: the next style's settings, its sources overridden by the previous `eap-` sources, its layers followed by the previous `eap-` layers |
| Theme.TransformStyle | src/main.js:306-323 | the loop computes `Transformed`, writing the previous `eap-` sources into the next style's own sources table, which ends up holding the merged sources |
| Theme.CustomLayersAppend | src/main.js:307-310 | filtering a concatenation concatenates the filtered parts |
| Theme.CustomLayersOfCustom | src/main.js:307-309 | filtering keeps a list of `eap-` layers whole |
| Theme.CustomLayersOfBasemap | src/main.js:307-309 | filtering empties a list without `eap-` layers |
| Theme.TransformedLayers | src/main.js:307-310 | the basemap's layers come first, then the kept `eap-` layers in their order, and the filter gives the kept layers back |
| Theme.TransformedSources | src/main.js:312-317 | when every `eap-` source the next style already holds is also a previous one, the merged `eap-` sources are exactly the previous ones; every other source is the next style's |
| Theme.TransformKeepsOverlay | src/main.js:306-323 | switching to a basemap whose `eap-` sources (left in the shared table by earlier switches) are all still on the map keeps the page's overlay exactly, above all of the basemap's layers, with the basemap's settings and other sources |
| Theme.SwitchAll | src/main.js:303-325 | a sequence of switches, each theme reading its sources from the table both themes share (lines 38-72), which each merge leaves equal to the merged sources |
| Theme.SwitchAllKeepsOverlay | src/main.js:303-325 | any sequence of switches keeps the page's `eap-` layers in order on top of the last theme's layers, and the page's `eap-` sources, when the shared table starts with no `eap-` source the map lacks |
| Theme.ThemeRoundTrip | src/main.js:303-325 | switching to the other theme and back gives the same style again, whatever the shared sources table holds |
| Controller.Consistent | src/main.js:417-631 | the invariant of the loaders: each floor downloaded at most once and its source added only on completion; the POI guard set exactly when the POI source and layer are on the map; every image registered once; unique layer ids |
| Controller.PoiRequested | src/main.js:513-519 | `loadPOIGeoJSON` up to its download: requested only while the guard is unset |
| Controller.LevelRequested | src/main.js:416-425 | `loadLevelGeoJSON` up to its download: the floor id is recorded first, so a floor is requested once |
| Controller.Applied | src/main.js:372-414 | `applyFilters`: popup closed, POI dataset and selected floor requested, floor layers hidden except the selected floor's, POI layer shown with the selection filter |
| Controller.RegisterIcons | src/main.js:525-550 | the icon loop: the ids registered and whether every needed icon loaded |
| Controller.PoiPopup | src/main.js:763-776 | the popup a POI button opens: none when the dataset is missing, no POI has the id or the first POI with it has no geometry |
| Controller.FloorFetchedOnce | src/main.js:422-423 | while the recorded floor ids are distinct, no floor download was started twice |
| Controller.ImageIdInjective | src/main.js:527 | distinct categories get distinct image ids |
| Controller.RegisterIconsGrows | src/main.js:525-550 | the icon loop only appends, registers each image id at most once, and registers only ids of POIs whose category the catalog knows |
| Controller.RegisterIconsOutcome | src/main.js:525-550 | the icon loop succeeds exactly when no POI needs an unregistered icon that fails to load; on success every POI of a known category has its image |
| Controller.RegisterIconsStops | src/main.js:543 | after a failing icon load, the rest of the dataset is not looked at |
| Controller.PoiButtonOpensItsPopup | src/main.js:747-777 | with unique POI ids, the button listed for a POI opens that POI's popup, at its position |
| Controller.PageIdsPrefixed | src/main.js:432 | the floor sources, the POI source and the POI layer all carry the `eap-` prefix the theme switch keeps (lines 552-553) |
| Controller.RequestsConsistent | src/main.js:417-423 | requesting the POI dataset or a floor keeps the state consistent (POI guard at line 516) |
| Controller.ReconciledConsistent | src/main.js:372-414 | a map with the same sources, images, layer ids and layer kinds keeps the state consistent |
| Controller.AppliedConsistent | src/main.js:372-414 | `applyFilters` keeps the state consistent |
| Controller.ReconciledKeepsKinds | src/main.js:385-413 | reconciling changes no layer's id or kind |
| Controller.AppliedInSteps | src/main.js:372-414 | the steps of `applyFilters`, in their order, compose to `Applied` |
| Controller.AppliedShowsSelection | src/main.js:385-413 | right after `applyFilters`, a floor layer is visible exactly when it belongs to the selected floor, and the POI layer is visible with the selection's filter |
| Controller.ApplyFiltersStable | src/main.js:372-414 | applying the same selection twice changes the map no further and requests no floor again; only the POI dataset is requested again while it has not arrived |
| Controller.LevelCompletedConsistent | src/main.js:424-509 | a completed floor download finds its source id free, and adding its source and both layers keeps the state consistent |
| Controller.FloorSourceAdded | src/main.js:432-437 | adding a completed floor's source keeps the state consistent |
| Controller.FloorLayerAdded | src/main.js:441-506 | adding a requested floor's layer below the POI layer keeps the state consistent |
| Controller.PoiCompletedConsistent | src/main.js:517-631 | a completed POI download keeps the state consistent whether or not the POI source and layer get added, and finds the POI source id free while the guard is unset |
| Controller.LoadIcons | src/main.js:525-550 | the icon loop computes `RegisterIcons` and registers exactly its image ids on the map |
| Controller.HideLevels | src/main.js:363-370 | the `hideAllLevels` loop hides exactly the two layers of every requested floor |
| Controller.FilterController.constructor | src/main.js:19-32 | the start state: nothing selected, downloaded or registered; the basemap on the map; the sidebar listing the root categories (line 340) |
| Controller.FilterController.LoadPoiGeoJSON | src/main.js:513-519 | the POI dataset is requested only while `poiLoaded` is unset |
| Controller.FilterController.LoadLevelGeoJSON | src/main.js:417-425 | a floor's id is recorded and its download started only when the id is not recorded yet |
| Controller.FilterController.HideAllLevels | src/main.js:363-370 | the layers of every requested floor are hidden; nothing else changes |
| Controller.FilterController.ApplyFilters | src/main.js:372-414 | the new state is `Applied` of the old state and the selection, and stays consistent |
| Controller.FilterController.CompleteLevelLoad | src/main.js:424-510 | a failed download changes nothing but the pending set; a completed one adds the floor source and both layers directly below the POI layer, or no layer when the POI layer is missing |
| Controller.FilterController.CompletePoiLoad | src/main.js:519-631 | the dataset is kept and its icons registered; the POI source, the POI layer on top and the guard follow only when every icon loaded and the guard was unset; a failed download changes nothing |
| Controller.FilterController.LevelClick | src/main.js:656-676 | a click off a level button changes nothing; otherwise the floor becomes the catalog's level with that id, the map is reconciled, and the URL's `level` is the floor's id or deleted |
| Controller.FilterController.CategoryClick | src/main.js:714-745 | a truthy id selects that category and keeps the floor; a missing or empty one clears both; the map is reconciled and the sidebar rebuilt for the new selection |
| Controller.FilterController.SelectCategory | src/main.js:715-742 | the selection change of a category click |
| Controller.FilterController.UpdateCategorySwitcher | src/main.js:114-267 | the sidebar becomes `CategoryList` of the current category and the POIs downloaded so far (called at line 744) |
| Controller.FilterController.PoiButtonClick | src/main.js:747-777 | the floor becomes the POI's floor, the category stays, the map is reconciled, and the popup of the first POI with that id opens, or none when the dataset or the POI is missing or has no geometry |
| Controller.FilterController.MapPoiClick | src/main.js:604-626 | clicking a POI on the map opens its popup at its position; nothing else changes |

## Left out

- I/O is not modelled. A response is a parameter of the completion step, with `None` standing for a failed download or parse. This covers `fetch`, `response.json`, `map.loadImage` (`brokenIcons` holds the icon URLs that fail), logging, the DOM, `history.replaceState` (the URL parameter is a field) and `matchMedia`.
- The map library's construction, the PMTiles protocol, the Protomaps style building, cursor changes, `flyTo` and `querySourceFeatures` (whose result is unused) are foreign calls. `createLevelSwitcherControl` and `loadCategories` are left out too: the level and category catalogs are constructor parameters.
- Longitudes and latitudes are opaque; no arithmetic is done on them.
- Controller.FilterController.CompletePoiLoad: the `await map.loadImage` inside the icon loop is taken as atomic, so no other handler runs between two icons.
- Sidebar.SortByNameCorrect: `localeCompare` is modelled as ordinal order and `toLowerCase` as ASCII lower-casing, because locale collation and Unicode case mapping are not available.
- Sidebar.GroupLevelsMeaning: the `.sort()` on level objects compares them all as the same string and so keeps their order. The groups are therefore in first-occurrence order.
- Sidebar.GroupLevelsMeaning: a POI whose floor is not in the catalog makes the page throw after the known floors' groups are listed. The model lists those groups and nothing more, instead of the exception.
- Theme.TransformStyle: applying the merged style to the live map, and the images it loses, are not modelled. The shared sources table is modelled as one object written by the merge; the style values themselves are copies, so other aliasing between the map's style and the theme styles is not captured.
- Controller.AppliedShowsSelection holds right after `applyFilters`. A floor download completing later adds visible layers, so the "only the selected floor is drawn" property does not hold between reconciliations, and the model does not claim it there.
- Controller.FilterController.CompleteLevelLoad: when the POI layer is not on the map yet, the map refuses the floor layers. The floor stays recorded, so it is never downloaded again. The model keeps this behaviour.
- Controller.FilterController.PoiButtonClick: the popup is modelled as a field of the map; `currentPopup.remove()` on an already removed popup is not distinguished.
- The commented-out code (`applyURLParams`, `fitBounds`, the category URL parameter) is dead and is left out.
