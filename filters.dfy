/** The declarative filter expressions the page hands to the map
    (`['==', p, v]`, `['in', ['get', p], ['literal', vs]]`, `['all', ...]`),
    what they admit, and the POI-layer filter chosen from the selection. */
module Filters {
  import opened Base

  datatype Filter =
    | Eq(property: string, value: string)
    | In(property: string, values: seq<string>)
    | All(operands: seq<Filter>)

  /** A feature's properties; a missing key reads as `null`. */
  type Properties = map<string, string>

  /** Whether a feature with these properties passes the filter. */
  predicate Matches(f: Filter, props: Properties)
  {
    match f
    case Eq(p, v) => p in props && props[p] == v
    case In(p, vs) => p in props && props[p] in vs
    case All(ops) => forall i :: 0 <= i < |ops| ==> Matches(ops[i], props)
  }

  /** A layer's filter; `null` admits every feature. */
  predicate Passes(f: Option<Filter>, props: Properties)
  {
    f.None? || Matches(f.value, props)
  }

  /** The POI-layer filter as a function of the selected level and category
      ids: no filter, a category test, a level test, or both with the level
      test first. */
  function SelectionFilter(levelId: Option<string>, categoryId: Option<string>): (r: Option<Filter>)
    ensures r.None? <==> levelId.None? && categoryId.None?
    ensures forall props :: Passes(r, props) <==>
      && (levelId.Some? ==> "level" in props && props["level"] == levelId.value)
      && (categoryId.Some? ==> "category" in props && props["category"] == categoryId.value)
    ensures levelId.Some? && categoryId.Some? ==>
      r.value.All? && |r.value.operands| == 2
      && r.value.operands[0] == Eq("level", levelId.value)
      && r.value.operands[1] == Eq("category", categoryId.value)
  {
    if categoryId.Some? && levelId.None? then
      Some(Eq("category", categoryId.value))
    else if categoryId.None? && levelId.Some? then
      Some(Eq("level", levelId.value))
    else if categoryId.Some? && levelId.Some? then
      var both := [Eq("level", levelId.value), Eq("category", categoryId.value)];
      assert forall props :: Matches(All(both), props) <==> Matches(both[0], props) && Matches(both[1], props);
      Some(All(both))
    else
      None
  }
}
