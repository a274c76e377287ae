/** Switching between the light and dark basemaps: the new style is the next
    theme's style with the page's own layers and sources (ids starting with
    `eap-`) carried over from the previous one. Both theme styles spread one
    common style object and so share one `sources` table, which the merge
    writes into. */
module Theme {
  import opened Base
  import opened MapSurface

  /** A style document: its sources, its layers in drawing order, and every
      other top-level property (version, glyphs, sprite, ...) by name. */
  datatype Style = Style(settings: map<string, string>, sources: map<string, Source>, layers: seq<Layer>)

  /** The page names everything it adds to the map with this prefix. */
  predicate IsCustom(id: string)
  {
    HasPrefix("eap-", id)
  }

  /** `layers.filter(layer => layer.id.startsWith('eap-'))` */
  function CustomLayers(layers: seq<Layer>): (r: seq<Layer>)
    ensures |r| <= |layers|
  {
    if layers == [] then []
    else
      var n := |layers| - 1;
      CustomLayers(layers[..n]) + (if IsCustom(layers[n].id) then [layers[n]] else [])
  }

  /** The filter keeps exactly the `eap-` layers. */
  lemma {:induction false} CustomLayersMembers(layers: seq<Layer>)
    ensures forall l :: l in CustomLayers(layers) <==> l in layers && IsCustom(l.id)
  {
    if layers != [] {
      var n := |layers| - 1;
      assert layers == layers[..n] + [layers[n]];
      CustomLayersMembers(layers[..n]);
    }
  }

  /** Every layer the filter keeps is an `eap-` layer, position by position. */
  lemma {:induction false} CustomLayersAreCustom(layers: seq<Layer>)
    ensures forall k :: 0 <= k < |CustomLayers(layers)| ==> IsCustom(CustomLayers(layers)[k].id)
  {
    if layers != [] {
      var n := |layers| - 1;
      CustomLayersAreCustom(layers[..n]);
    }
  }

  /** The `eap-` entries of a source table. */
  function CustomSources(sources: map<string, Source>): map<string, Source>
  {
    map k | k in sources && IsCustom(k) :: sources[k]
  }

  /** A basemap style's layers, none of which is one of the page's. */
  predicate BasemapLayers(s: Style)
  {
    forall l :: l in s.layers ==> !IsCustom(l.id)
  }

  /** Every `eap-` key of `table` is also a key of `sources`. */
  predicate CustomKeysIn(table: map<string, Source>, sources: map<string, Source>)
  {
    forall k :: k in table && IsCustom(k) ==> k in sources
  }

  /** The style `transformStyle` returns: the next style's properties, its
      sources overridden by the previous style's `eap-` sources, and its
      layers followed by the previous style's `eap-` layers in their order. */
  function Transformed(prev: Style, next: Style): Style
  {
    Style(next.settings, next.sources + CustomSources(prev.sources), next.layers + CustomLayers(prev.layers))
  }

  /** The `eap-` sources of `sources` outside `todo`: what the copy loop
      has carried over so far. */
  function CopiedSources(sources: map<string, Source>, todo: set<string>): map<string, Source>
  {
    map k | k in sources && k !in todo && IsCustom(k) :: sources[k]
  }

  lemma CopyStep(next: map<string, Source>, sources: map<string, Source>, todo: set<string>, key: string)
    requires key in todo && key in sources
    ensures next + CopiedSources(sources, todo - {key})
      == if IsCustom(key) then (next + CopiedSources(sources, todo))[key := sources[key]]
         else next + CopiedSources(sources, todo)
  {
  }

  /** The `sources` object the two theme styles share. */
  class SourceTable {
    var entries: map<string, Source>

    constructor (entries: map<string, Source>)
      ensures this.entries == entries
    {
      this.entries := entries;
    }
  }

  /** `transformStyle(previousStyle, nextStyle)`, copying the `eap-` sources
      key by key into `nextStyle.sources`, which is the shared `table`: the
      table ends up holding the merged style's sources. */
  method TransformStyle(prev: Style, next: Style, table: SourceTable) returns (r: Style)
    requires table.entries == next.sources
    modifies table
    ensures r == Transformed(prev, next)
    ensures table.entries == r.sources
  {
    var layers := next.layers + CustomLayers(prev.layers);
    var todo := prev.sources.Keys;
    assert CopiedSources(prev.sources, todo) == map[];
    while todo != {}
      invariant todo <= prev.sources.Keys
      invariant table.entries == next.sources + CopiedSources(prev.sources, todo)
      decreases todo
    {
      var key :| key in todo;
      CopyStep(next.sources, prev.sources, todo, key);
      if IsCustom(key) {
        table.entries := table.entries[key := prev.sources[key]];
      }
      todo := todo - {key};
    }
    assert CopiedSources(prev.sources, {}) == CustomSources(prev.sources);
    r := Style(next.settings, table.entries, layers);
  }

  /** Filtering a concatenation concatenates the filtered parts. */
  lemma {:induction false} CustomLayersAppend(a: seq<Layer>, b: seq<Layer>)
    ensures CustomLayers(a + b) == CustomLayers(a) + CustomLayers(b)
  {
    if b == [] {
      assert a + b == a;
    } else {
      var n := |b| - 1;
      assert (a + b)[..|a + b| - 1] == a + b[..n];
      assert (a + b)[|a + b| - 1] == b[n];
      CustomLayersAppend(a, b[..n]);
    }
  }

  /** Filtering keeps every layer of an all-`eap-` list. */
  lemma {:induction false} CustomLayersOfCustom(layers: seq<Layer>)
    requires forall k :: 0 <= k < |layers| ==> IsCustom(layers[k].id)
    ensures CustomLayers(layers) == layers
  {
    if layers != [] {
      var n := |layers| - 1;
      var init := layers[..n];
      assert IsCustom(layers[n].id);
      assert CustomLayers(layers) == CustomLayers(init) + [layers[n]];
      CustomLayersOfCustom(init);
      assert layers == init + [layers[n]];
    }
  }

  /** Filtering drops every layer of a list without `eap-` layers. */
  lemma {:induction false} CustomLayersOfBasemap(layers: seq<Layer>)
    requires forall l :: l in layers ==> !IsCustom(l.id)
    ensures CustomLayers(layers) == []
  {
    if layers != [] {
      var n := |layers| - 1;
      assert layers[n] in layers;
      CustomLayersOfBasemap(layers[..n]);
    }
  }

  /** Appending the previous `eap-` layers to a basemap's layers: the
      basemap's layers come first, then the kept layers, and filtering the
      result gives the kept layers back. */
  lemma TransformedLayers(prev: seq<Layer>, next: seq<Layer>)
    requires forall l :: l in next ==> !IsCustom(l.id)
    ensures var r := next + CustomLayers(prev);
      && r[..|next|] == next
      && r[|next|..] == CustomLayers(prev)
      && CustomLayers(r) == CustomLayers(prev)
  {
    var kept := CustomLayers(prev);
    CustomLayersAppend(next, kept);
    CustomLayersOfBasemap(next);
    CustomLayersAreCustom(prev);
    CustomLayersOfCustom(kept);
    assert (next + kept)[..|next|] == next;
    assert (next + kept)[|next|..] == kept;
  }

  /** Overriding a theme's sources with the previous `eap-` sources, when
      every `eap-` source the theme already holds is also a previous one:
      the merged `eap-` entries are exactly the previous ones, the others the
      theme's. */
  lemma TransformedSources(prev: map<string, Source>, next: map<string, Source>)
    requires CustomKeysIn(next, prev)
    ensures var r := next + CustomSources(prev);
      && CustomSources(r) == CustomSources(prev)
      && (forall k :: k in r && !IsCustom(k) ==> k in next && r[k] == next[k])
  {
  }

  /** Switching to a basemap keeps the page's overlay exactly: the same `eap-`
      layers in the same order above all of the basemap's layers, the same
      `eap-` sources, and otherwise only the basemap's sources and settings. */
  lemma TransformKeepsOverlay(prev: Style, next: Style)
    requires BasemapLayers(next)
    requires CustomKeysIn(next.sources, prev.sources)
    ensures var r := Transformed(prev, next);
      && r.settings == next.settings
      && r.layers[..|next.layers|] == next.layers
      && r.layers[|next.layers|..] == CustomLayers(prev.layers)
      && CustomLayers(r.layers) == CustomLayers(prev.layers)
      && CustomSources(r.sources) == CustomSources(prev.sources)
      && (forall k :: k in r.sources && !IsCustom(k) ==> k in next.sources && r.sources[k] == next.sources[k])
  {
    TransformedLayers(prev.layers, next.layers);
    TransformedSources(prev.sources, next.sources);
  }

  /** The map's style after switching to each theme of `themes` in turn.
      Every theme reads its sources from the shared table, and each merge
      leaves that table equal to the merged style's sources. */
  function SwitchAll(current: Style, themes: seq<Style>, table: map<string, Source>): Style
    decreases |themes|
  {
    if themes == [] then current
    else
      var r := Transformed(current, themes[0].(sources := table));
      SwitchAll(r, themes[1..], r.sources)
  }

  /** Any sequence of switches keeps the page's overlay, provided the shared
      table starts with no `eap-` source the map lacks (it starts with the
      basemap's source only, and the map never drops a source): the final
      style is the last theme's layers followed by the original `eap-`
      layers, with the original `eap-` sources. */
  lemma {:induction false} SwitchAllKeepsOverlay(current: Style, themes: seq<Style>, table: map<string, Source>)
    requires forall i :: 0 <= i < |themes| ==> BasemapLayers(themes[i])
    requires CustomKeysIn(table, current.sources)
    ensures var r := SwitchAll(current, themes, table);
      && CustomLayers(r.layers) == CustomLayers(current.layers)
      && CustomSources(r.sources) == CustomSources(current.sources)
      && (themes != [] ==>
            && r.settings == themes[|themes| - 1].settings
            && r.layers == themes[|themes| - 1].layers + CustomLayers(current.layers))
    decreases |themes|
  {
    if themes != [] {
      var next := themes[0].(sources := table);
      var r := Transformed(current, next);
      TransformKeepsOverlay(current, next);
      assert CustomKeysIn(r.sources, r.sources);
      var rest := themes[1..];
      assert forall i :: 0 <= i < |rest| ==> rest[i] == themes[i + 1];
      SwitchAllKeepsOverlay(r, rest, r.sources);
      if rest == [] {
        assert r.layers == next.layers + CustomLayers(current.layers);
      }
    }
  }

  /** Switching to the other theme and back gives the same style again, with
      the shared table in whatever state the first switch left it. */
  lemma ThemeRoundTrip(s: Style, light: Style, dark: Style, table: map<string, Source>)
    requires BasemapLayers(light) && BasemapLayers(dark)
    ensures var s1 := Transformed(s, light.(sources := table));
      var s2 := Transformed(s1, dark.(sources := s1.sources));
      Transformed(s2, light.(sources := s2.sources)) == s1
  {
    var s1 := Transformed(s, light.(sources := table));
    var s2 := Transformed(s1, dark.(sources := s1.sources));
    TransformedLayers(s.layers, light.layers);
    TransformedLayers(s1.layers, dark.layers);
    assert s2.sources == s1.sources;
    assert Transformed(s2, light.(sources := s2.sources)).layers == s1.layers;
  }
}
