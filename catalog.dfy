/** The session's catalog: levels (floors), POI categories and the POI
    features of the GeoJSON dataset, with the `find` lookups the page uses. */
module Catalog {
  import opened Base

  /** A longitude/latitude pair; opaque, no arithmetic is done on it. */
  datatype LngLat = LngLat(lng: real, lat: real)

  /** An entry of the levels JSON: `{ id, name, geojson }`. */
  datatype Level = Level(id: string, name: string, geojson: string)

  /** An entry of the categories JSON: `{ id, name, icon, parent }`.
      `name` and `parent` may be absent. */
  datatype Category = Category(id: string, name: Option<string>, icon: string, parent: Option<string>)

  /** A feature of the POI GeoJSON: its properties and its point geometry,
      which a damaged dataset may leave `null`. */
  datatype Poi = Poi(
    fid: string,
    name: string,
    level: string,
    category: string,
    description: Option<string>,
    geometry: Option<LngLat>)

  /** `levels.find(l => l.id == id)` */
  function FindLevel(levels: seq<Level>, id: string): (r: Option<Level>)
    ensures r.None? <==> forall k :: 0 <= k < |levels| ==> levels[k].id != id
    ensures r.Some? ==> r.value in levels && r.value.id == id
    ensures r.Some? ==>
      exists k :: 0 <= k < |levels| && levels[k] == r.value
        && forall j :: 0 <= j < k ==> levels[j].id != id
  {
    if levels == [] then None
    else if levels[0].id == id then Some(levels[0])
    else
      var r := FindLevel(levels[1..], id);
      assert r.None? ==> forall k :: 0 <= k < |levels| ==> levels[k].id != id by {
        if r.None? {
          forall k | 0 <= k < |levels| ensures levels[k].id != id {
            if k > 0 { assert levels[k] == levels[1..][k - 1]; }
          }
        }
      }
      assert r.Some? ==>
        exists k :: 0 <= k < |levels| && levels[k] == r.value
          && forall j :: 0 <= j < k ==> levels[j].id != id by {
        if r.Some? {
          var k :| 0 <= k < |levels[1..]| && levels[1..][k] == r.value
                   && forall j :: 0 <= j < k ==> levels[1..][j].id != id;
          forall j | 0 <= j < k + 1 ensures levels[j].id != id {
            if j > 0 { assert levels[j] == levels[1..][j - 1]; }
          }
        }
      }
      r
  }

  /** `categories.find(c => c.id === id)` */
  function FindCategory(categories: seq<Category>, id: string): (r: Option<Category>)
    ensures r.None? <==> forall k :: 0 <= k < |categories| ==> categories[k].id != id
    ensures r.Some? ==> r.value in categories && r.value.id == id
    ensures r.Some? ==>
      exists k :: 0 <= k < |categories| && categories[k] == r.value
        && forall j :: 0 <= j < k ==> categories[j].id != id
  {
    if categories == [] then None
    else if categories[0].id == id then Some(categories[0])
    else
      var r := FindCategory(categories[1..], id);
      assert r.None? ==> forall k :: 0 <= k < |categories| ==> categories[k].id != id by {
        if r.None? {
          forall k | 0 <= k < |categories| ensures categories[k].id != id {
            if k > 0 { assert categories[k] == categories[1..][k - 1]; }
          }
        }
      }
      assert r.Some? ==>
        exists k :: 0 <= k < |categories| && categories[k] == r.value
          && forall j :: 0 <= j < k ==> categories[j].id != id by {
        if r.Some? {
          var k :| 0 <= k < |categories[1..]| && categories[1..][k] == r.value
                   && forall j :: 0 <= j < k ==> categories[1..][j].id != id;
          forall j | 0 <= j < k + 1 ensures categories[j].id != id {
            if j > 0 { assert categories[j] == categories[1..][j - 1]; }
          }
        }
      }
      r
  }

  /** `pois.features.find(poi => poi.properties.fid == fid)` */
  function FindPoi(pois: seq<Poi>, fid: string): (r: Option<Poi>)
    ensures r.None? <==> forall k :: 0 <= k < |pois| ==> pois[k].fid != fid
    ensures r.Some? ==> r.value in pois && r.value.fid == fid
    ensures r.Some? ==>
      exists k :: 0 <= k < |pois| && pois[k] == r.value
        && forall j :: 0 <= j < k ==> pois[j].fid != fid
  {
    if pois == [] then None
    else if pois[0].fid == fid then Some(pois[0])
    else
      var r := FindPoi(pois[1..], fid);
      assert r.None? ==> forall k :: 0 <= k < |pois| ==> pois[k].fid != fid by {
        if r.None? {
          forall k | 0 <= k < |pois| ensures pois[k].fid != fid {
            if k > 0 { assert pois[k] == pois[1..][k - 1]; }
          }
        }
      }
      assert r.Some? ==>
        exists k :: 0 <= k < |pois| && pois[k] == r.value
          && forall j :: 0 <= j < k ==> pois[j].fid != fid by {
        if r.Some? {
          var k :| 0 <= k < |pois[1..]| && pois[1..][k] == r.value
                   && forall j :: 0 <= j < k ==> pois[1..][j].fid != fid;
          forall j | 0 <= j < k + 1 ensures pois[j].fid != fid {
            if j > 0 { assert pois[j] == pois[1..][j - 1]; }
          }
        }
      }
      r
  }

  /** The id of an optional level or category, as `currentLevel?.id`. */
  function LevelId(l: Option<Level>): (r: Option<string>)
    ensures r.Some? <==> l.Some?
    ensures l.Some? ==> r.value == l.value.id
  {
    if l.Some? then Some(l.value.id) else None
  }

  function CategoryId(c: Option<Category>): (r: Option<string>)
    ensures r.Some? <==> c.Some?
    ensures c.Some? ==> r.value == c.value.id
  {
    if c.Some? then Some(c.value.id) else None
  }
}
