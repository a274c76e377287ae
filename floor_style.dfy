/** How a floor overlay is drawn: the ground fill layer and the extrusion
    layer, their filters on the feature `type`, and the `match` tables that
    give each extruded type its colour and height. */
module FloorStyle {
  import opened Base
  import opened Filters

  /** A feature of a floor's GeoJSON: its `type` and `color` properties,
      either of which may be absent. */
  datatype FloorFeature = FloorFeature(kind: Option<string>, color: Option<string>)

  function FloorProps(f: FloorFeature): Properties
  {
    var withType := if f.kind.Some? then map["type" := f.kind.value] else map[];
    if f.color.Some? then withType["color" := f.color.value] else withType
  }

  /** The types the extrusion layer admits, in the order of its `literal` list. */
  const ExtrudedTypes: seq<string> :=
    ["building", "shop", "bar", "belt", "check", "gate", "toilets", "stairs"]

  /** The arms of the `fill-extrusion-color` match expression. */
  const ColorArms: seq<(string, string)> :=
    [("building", "#ccc"), ("shop", "#d8256e"), ("bar", "#2535f4"), ("belt", "#555"),
     ("check", "#555"), ("gate", "#050"), ("toilets", "#ffc000"), ("stairs", "#111")]

  /** The arms of the `fill-extrusion-height` match expression. */
  const HeightArms: seq<(string, int)> :=
    [("building", 4), ("shop", 4), ("bar", 4), ("belt", 1),
     ("check", 2), ("gate", 2), ("toilets", 4), ("stairs", 2)]

  const DefaultExtrusionColor := "#ccc"
  const DefaultExtrusionHeight := 0
  const DefaultGroundColor := "#aaaaaa"

  /** `['==', 'type', 'ground']` */
  const GroundFilter := Eq("type", "ground")

  /** `['in', ['get', 'type'], ['literal', ExtrudedTypes]]` */
  const ExtrusionFilter := In("type", ExtrudedTypes)

  function Labels<V>(arms: seq<(string, V)>): seq<string>
  {
    if arms == [] then [] else [arms[0].0] + Labels(arms[1..])
  }

  /** A `match` expression: the value of the first arm whose label equals the
      input, or the fallback when none does or the input is `null`. */
  function Match<V>(input: Option<string>, arms: seq<(string, V)>, fallback: V): V
  {
    if input.None? || arms == [] then fallback
    else if arms[0].0 == input.value then arms[0].1
    else Match(input, arms[1..], fallback)
  }

  lemma {:induction false} MatchMeaning<V>(input: Option<string>, arms: seq<(string, V)>, fallback: V)
    ensures input.None? || input.value !in Labels(arms) ==> Match(input, arms, fallback) == fallback
    ensures input.Some? && input.value in Labels(arms) ==>
      exists k :: 0 <= k < |arms| && arms[k].0 == input.value && Match(input, arms, fallback) == arms[k].1
  {
    if input.Some? && arms != [] && arms[0].0 != input.value {
      MatchMeaning(input, arms[1..], fallback);
      if input.value in Labels(arms) {
        var k :| 0 <= k < |arms[1..]| && arms[1..][k].0 == input.value
                 && Match(input, arms[1..], fallback) == arms[1..][k].1;
        assert arms[k + 1] == arms[1..][k];
      }
    }
  }

  /** `fill-extrusion-color` of a feature of the given type. */
  function ExtrusionColor(kind: Option<string>): string
  {
    Match(kind, ColorArms, DefaultExtrusionColor)
  }

  /** `fill-extrusion-height` of a feature of the given type. */
  function ExtrusionHeight(kind: Option<string>): int
  {
    Match(kind, HeightArms, DefaultExtrusionHeight)
  }

  /** A string-valued style expression: `['get', key]`, a literal, or
      `['coalesce', ...]`. */
  datatype StringExpr = Get(key: string) | Literal(value: string) | Coalesce(args: seq<StringExpr>)

  /** The value of an expression over a feature's properties; `None` is the
      expression language's `null`. */
  function Eval(e: StringExpr, props: Properties): Option<string>
    decreases e, 1
  {
    match e
    case Get(key) => if key in props then Some(props[key]) else None
    case Literal(v) => Some(v)
    case Coalesce(args) => FirstNonNull(e, args, props)
  }

  /** The first argument, in order, whose value is not `null`. */
  function FirstNonNull(e: StringExpr, args: seq<StringExpr>, props: Properties): Option<string>
    requires forall a :: a in args ==> a < e
    decreases e, 0, |args|
  {
    if args == [] then None
    else
      assert args[0] in args;
      var v := Eval(args[0], props);
      assert forall a :: a in args[1..] ==> a in args;
      if v.Some? then v else FirstNonNull(e, args[1..], props)
  }

  /** `coalesce` is `null` exactly when every argument is, and otherwise the
      value of the first argument that is not. */
  lemma {:induction false} CoalesceMeaning(args: seq<StringExpr>, props: Properties)
    ensures Eval(Coalesce(args), props).None? <==> forall i :: 0 <= i < |args| ==> Eval(args[i], props).None?
    ensures Eval(Coalesce(args), props).Some? ==>
      exists i :: 0 <= i < |args| && Eval(args[i], props) == Eval(Coalesce(args), props)
        && forall j :: 0 <= j < i ==> Eval(args[j], props).None?
  {
    FirstNonNullMeaning(Coalesce(args), args, props);
  }

  lemma {:induction false} FirstNonNullMeaning(e: StringExpr, args: seq<StringExpr>, props: Properties)
    requires forall a :: a in args ==> a < e
    ensures FirstNonNull(e, args, props).None? <==> forall i :: 0 <= i < |args| ==> Eval(args[i], props).None?
    ensures FirstNonNull(e, args, props).Some? ==>
      exists i :: 0 <= i < |args| && Eval(args[i], props) == FirstNonNull(e, args, props)
        && forall j :: 0 <= j < i ==> Eval(args[j], props).None?
    decreases |args|
  {
    if args != [] && Eval(args[0], props).None? {
      var rest := args[1..];
      assert forall a :: a in rest ==> a in args;
      FirstNonNullMeaning(e, rest, props);
      forall i | 0 <= i < |rest| ensures Eval(args[i + 1], props) == Eval(rest[i], props) {
        assert args[i + 1] == rest[i];
      }
      if FirstNonNull(e, rest, props).Some? {
        var i :| 0 <= i < |rest| && Eval(rest[i], props) == FirstNonNull(e, rest, props)
                 && forall j :: 0 <= j < i ==> Eval(rest[j], props).None?;
        assert Eval(args[i + 1], props) == FirstNonNull(e, args, props);
      }
    }
  }

  /** `['get', 'type']` and `['get', 'color']` read back a floor feature's
      `type` and `color`, `null` when absent: the input of the `match`
      tables is the feature's own type. */
  lemma FeatureProperties(f: FloorFeature)
    ensures Eval(Get("type"), FloorProps(f)) == f.kind
    ensures Eval(Get("color"), FloorProps(f)) == f.color
  {
    var props := FloorProps(f);
    assert "type" in props <==> f.kind.Some?;
    assert "color" in props <==> f.color.Some?;
  }

  /** `fill-color` of the ground layer. */
  const GroundColorExpr := Coalesce([Get("color"), Literal(DefaultGroundColor)])

  /** The ground fill colour: the feature's `color`, or the default grey. */
  function GroundColor(f: FloorFeature): (r: string)
    ensures f.color.Some? ==> r == f.color.value
    ensures f.color.None? ==> r == DefaultGroundColor
  {
    if f.color.Some? then f.color.value else DefaultGroundColor
  }

  /** The ground layer's `coalesce` expression, evaluated on a floor feature's
      properties, is never `null` and gives the feature's `color` when it has
      one and `#aaaaaa` otherwise. */
  lemma GroundColorCoalesce(f: FloorFeature)
    ensures Eval(GroundColorExpr, FloorProps(f)) == Some(GroundColor(f))
  {
    var props := FloorProps(f);
    assert "color" in props <==> f.color.Some?;
    assert f.color.Some? ==> props["color"] == f.color.value;
    var args := [Get("color"), Literal(DefaultGroundColor)];
    assert Eval(args[0], props) == (if f.color.Some? then Some(f.color.value) else None);
    assert args[1..] == [Literal(DefaultGroundColor)];
    assert FirstNonNull(GroundColorExpr, args[1..], props) == Some(DefaultGroundColor);
  }

  /** The colour tables, the height table and the extrusion filter all list
      the same eight types, so every extruded feature finds its arm in both
      tables. */
  lemma TablesAgree()
    ensures Labels(ColorArms) == ExtrudedTypes
    ensures Labels(HeightArms) == ExtrudedTypes
  {
    assert Labels(ColorArms) == ["building"] + Labels(ColorArms[1..]);
    assert Labels(HeightArms) == ["building"] + Labels(HeightArms[1..]);
  }

  /** The extrusion layer admits exactly the eight listed types; the ground
      layer admits exactly `type == 'ground'`; no feature is on both. */
  lemma FloorFiltersAdmit(f: FloorFeature)
    ensures Matches(ExtrusionFilter, FloorProps(f)) <==> f.kind.Some? && f.kind.value in ExtrudedTypes
    ensures Matches(GroundFilter, FloorProps(f)) <==> f.kind == Some("ground")
    ensures !(Matches(ExtrusionFilter, FloorProps(f)) && Matches(GroundFilter, FloorProps(f)))
  {
    var props := FloorProps(f);
    assert "type" in props <==> f.kind.Some?;
    assert f.kind.Some? ==> props["type"] == f.kind.value;
  }

  /** An unlisted or missing type gets the default colour `#ccc` and
      height 0. */
  lemma ExtrusionDefaults(kind: Option<string>)
    ensures kind.None? || kind.value !in ExtrudedTypes ==>
      ExtrusionColor(kind) == DefaultExtrusionColor && ExtrusionHeight(kind) == DefaultExtrusionHeight
  {
    TablesAgree();
    MatchMeaning(kind, ColorArms, DefaultExtrusionColor);
    MatchMeaning(kind, HeightArms, DefaultExtrusionHeight);
  }

  /** Every height in the table is positive. */
  lemma HeightsPositive()
    ensures forall k :: 0 <= k < |HeightArms| ==> HeightArms[k].1 > 0
  {
  }

  /** Every type the extrusion layer admits takes its colour from its own
      arm of the colour table. */
  lemma ExtrusionColorArm(kind: Option<string>)
    ensures kind.Some? && kind.value in ExtrudedTypes ==>
      exists k :: 0 <= k < |ColorArms| && ColorArms[k] == (kind.value, ExtrusionColor(kind))
  {
    if kind.Some? && kind.value in ExtrudedTypes {
      TablesAgree();
      MatchMeaning(kind, ColorArms, DefaultExtrusionColor);
      var j :| 0 <= j < |ColorArms| && ColorArms[j].0 == kind.value
               && ExtrusionColor(kind) == ColorArms[j].1;
      assert ColorArms[j] == (kind.value, ExtrusionColor(kind));
    }
  }

  /** Every type the extrusion layer admits takes its height from its own
      arm of the height table, and so is drawn with a positive height. */
  lemma ExtrusionHeightArm(kind: Option<string>)
    ensures kind.Some? && kind.value in ExtrudedTypes ==>
      && ExtrusionHeight(kind) > 0
      && exists k :: 0 <= k < |HeightArms| && HeightArms[k] == (kind.value, ExtrusionHeight(kind))
  {
    if kind.Some? && kind.value in ExtrudedTypes {
      TablesAgree();
      HeightsPositive();
      MatchMeaning(kind, HeightArms, DefaultExtrusionHeight);
      var k :| 0 <= k < |HeightArms| && HeightArms[k].0 == kind.value
               && ExtrusionHeight(kind) == HeightArms[k].1;
      assert HeightArms[k] == (kind.value, ExtrusionHeight(kind));
    }
  }
}
