/** The category sidebar: with no category selected, the root categories;
    with one selected, a back entry, its sub-categories and the POIs filed
    directly under it, one group per floor, each group sorted by lower-cased
    name, POIs without a geometry left out. */
module Sidebar {
  import opened Base
  import opened Catalog

  /** One item of the sidebar list. */
  datatype Entry =
    | CategoryButton(target: Option<string>, text: string, icon: string)  // `data-category`, text, icon
    | Heading(title: string)                                              // an `h3`
    | LevelHeading(title: string)                                         // an `h4` opening a floor group
    | PoiButton(fid: string, text: string, at: LngLat, level: string)    // `data-fid`, text, position, `data-level`

  // Array `filter`, and the selections the sidebar makes with it.

  /** `s.filter(keep)` */
  function Select<T(!new)>(s: seq<T>, keep: T -> bool): (r: seq<T>)
    ensures |r| <= |s|
    ensures forall x :: x in r <==> x in s && keep(x)
  {
    if s == [] then []
    else
      var n := |s| - 1;
      assert s == s[..n] + [s[n]];
      Select(s[..n], keep) + (if keep(s[n]) then [s[n]] else [])
  }

  /** Filtering keeps the order of the input: filtering a concatenation
      concatenates the filtered parts. */
  lemma {:induction false} SelectAppend<T(!new)>(a: seq<T>, b: seq<T>, keep: T -> bool)
    ensures Select(a + b, keep) == Select(a, keep) + Select(b, keep)
  {
    if b == [] {
      assert a + b == a;
    } else {
      var n := |b| - 1;
      assert (a + b)[..|a + b| - 1] == a + b[..n];
      assert (a + b)[|a + b| - 1] == b[n];
      SelectAppend(a, b[..n], keep);
    }
  }

  /** `!c.parent` */
  predicate IsRoot(c: Category)
  {
    !Truthy(c.parent)
  }

  function RootCategories(categories: seq<Category>): seq<Category>
  {
    Select(categories, IsRoot)
  }

  /** `categories.filter(c => c.parent === id)` */
  function ChildCategories(categories: seq<Category>, id: string): seq<Category>
  {
    Select(categories, (c: Category) => c.parent == Some(id))
  }

  /** `pois.features.filter(poi => poi.properties.category === id)` */
  function OfCategory(pois: seq<Poi>, id: string): seq<Poi>
  {
    Select(pois, (p: Poi) => p.category == id)
  }

  /** `selectedPOIs.filter(poi => poi.properties.level === id)` */
  function OnLevel(pois: seq<Poi>, id: string): seq<Poi>
  {
    Select(pois, (p: Poi) => p.level == id)
  }

  // Sorting by lower-cased name.

  /** Ordinal order on strings, standing for `localeCompare`. */
  predicate NameLeq(a: string, b: string)
  {
    a == [] || (b != [] && (a[0] < b[0] || (a[0] == b[0] && NameLeq(a[1..], b[1..]))))
  }

  lemma {:induction false} NameLeqTotal(a: string, b: string)
    ensures NameLeq(a, b) || NameLeq(b, a)
  {
    if a != [] && b != [] && a[0] == b[0] {
      NameLeqTotal(a[1..], b[1..]);
    }
  }

  lemma {:induction false} NameLeqTransitive(a: string, b: string, c: string)
    requires NameLeq(a, b) && NameLeq(b, c)
    ensures NameLeq(a, c)
  {
    if a != [] && b != [] && c != [] && a[0] == b[0] && b[0] == c[0] {
      NameLeqTransitive(a[1..], b[1..], c[1..]);
    }
  }

  function SortKey(p: Poi): string
  {
    Lower(p.name)
  }

  predicate SortedByName(s: seq<Poi>)
  {
    forall i, j :: 0 <= i < j < |s| ==> NameLeq(SortKey(s[i]), SortKey(s[j]))
  }

  /** Inserts `p` before the first element whose key is not below its own, so
      that equal keys keep their input order (the sort is stable). */
  function InsertByName(p: Poi, s: seq<Poi>): seq<Poi>
  {
    if s == [] then [p]
    else if NameLeq(SortKey(p), SortKey(s[0])) then [p] + s
    else [s[0]] + InsertByName(p, s[1..])
  }

  /** `pois.sort((a, b) => a.name.toLowerCase().localeCompare(b.name.toLowerCase()))` */
  function SortByName(s: seq<Poi>): seq<Poi>
  {
    if s == [] then [] else InsertByName(s[0], SortByName(s[1..]))
  }

  /** Inserting adds `p` and keeps every other element. */
  lemma {:induction false} InsertByNamePermutes(p: Poi, s: seq<Poi>)
    ensures multiset(InsertByName(p, s)) == multiset(s) + multiset{p}
  {
    if s != [] && !NameLeq(SortKey(p), SortKey(s[0])) {
      var rest := InsertByName(p, s[1..]);
      InsertByNamePermutes(p, s[1..]);
      assert InsertByName(p, s) == [s[0]] + rest;
      assert multiset([s[0]] + rest) == multiset{s[0]} + multiset(rest);
      assert multiset(s) == multiset{s[0]} + multiset(s[1..]) by {
        assert s == [s[0]] + s[1..];
      }
    }
  }

  /** Inserting brings no element but `p`. */
  lemma {:induction false} InsertByNameMembers(p: Poi, s: seq<Poi>)
    ensures forall x :: x in InsertByName(p, s) ==> x == p || x in s
  {
    if s != [] && !NameLeq(SortKey(p), SortKey(s[0])) {
      InsertByNameMembers(p, s[1..]);
    }
  }

  /** Inserting into a sorted sequence keeps it sorted. */
  lemma {:induction false} InsertByNameSorted(p: Poi, s: seq<Poi>)
    requires SortedByName(s)
    ensures SortedByName(InsertByName(p, s))
  {
    if s == [] {
    } else if NameLeq(SortKey(p), SortKey(s[0])) {
      var r := [p] + s;
      forall i, j | 0 <= i < j < |r| ensures NameLeq(SortKey(r[i]), SortKey(r[j])) {
        if i == 0 && j > 1 {
          NameLeqTransitive(SortKey(p), SortKey(s[0]), SortKey(s[j - 1]));
        }
      }
    } else {
      NameLeqTotal(SortKey(p), SortKey(s[0]));
      var tail := s[1..];
      assert SortedByName(tail) by {
        forall i, j | 0 <= i < j < |tail| ensures NameLeq(SortKey(tail[i]), SortKey(tail[j])) {
          assert tail[i] == s[i + 1] && tail[j] == s[j + 1];
        }
      }
      var rest := InsertByName(p, tail);
      InsertByNameSorted(p, tail);
      InsertByNameMembers(p, tail);
      forall x | x in rest ensures NameLeq(SortKey(s[0]), SortKey(x)) {
        if x != p {
          var k :| 0 <= k < |tail| && tail[k] == x;
          assert s[k + 1] == x;
        }
      }
      var r := [s[0]] + rest;
      forall i, j | 0 <= i < j < |r| ensures NameLeq(SortKey(r[i]), SortKey(r[j])) {
        if i == 0 {
          assert r[j] in rest;
        } else {
          assert r[i] == rest[i - 1] && r[j] == rest[j - 1];
        }
      }
    }
  }

  /** The sort yields the same POIs, in order of lower-cased name. */
  lemma {:induction false} SortByNameCorrect(s: seq<Poi>)
    ensures SortedByName(SortByName(s))
    ensures multiset(SortByName(s)) == multiset(s)
  {
    if s != [] {
      SortByNameCorrect(s[1..]);
      InsertByNameSorted(s[0], SortByName(s[1..]));
      InsertByNamePermutes(s[0], SortByName(s[1..]));
      assert s == [s[0]] + s[1..];
    }
  }

  lemma {:induction false} NameLeqReflexive(a: string)
    ensures NameLeq(a, a)
  {
    if a != [] {
      NameLeqReflexive(a[1..]);
    }
  }

  /** The POIs whose lower-cased name is `key`. */
  function WithKey(s: seq<Poi>, key: string): seq<Poi>
  {
    Select(s, (p: Poi) => SortKey(p) == key)
  }

  /** Inserting `p` puts it in front of every POI with the same key. */
  lemma {:induction false} InsertByNameStable(p: Poi, s: seq<Poi>, key: string)
    ensures WithKey(InsertByName(p, s), key) == WithKey([p], key) + WithKey(s, key)
  {
    var keep := (q: Poi) => SortKey(q) == key;
    if s == [] {
      assert [p] + s == [p];
    } else if NameLeq(SortKey(p), SortKey(s[0])) {
      SelectAppend([p], s, keep);
    } else {
      var tail := s[1..];
      assert s == [s[0]] + tail;
      InsertByNameStable(p, tail, key);
      SelectAppend([s[0]], InsertByName(p, tail), keep);
      SelectAppend([s[0]], tail, keep);
      NameLeqReflexive(SortKey(p));
      assert WithKey([s[0]], key) == [] || WithKey([p], key) == [];
    }
  }

  /** The sort is stable: the POIs sharing a lower-cased name keep their
      input order. */
  lemma {:induction false} SortByNameStable(s: seq<Poi>, key: string)
    ensures WithKey(SortByName(s), key) == WithKey(s, key)
  {
    if s != [] {
      var keep := (q: Poi) => SortKey(q) == key;
      SortByNameStable(s[1..], key);
      InsertByNameStable(s[0], SortByName(s[1..]), key);
      assert s == [s[0]] + s[1..];
      SelectAppend([s[0]], s[1..], keep);
    }
  }

  // Floor groups.

  /** `array.filter((v, i, a) => a.indexOf(v) === i)`: the first occurrence
      of each value, in input order. */
  function FirstOccurrences(s: seq<string>): seq<string>
  {
    if s == [] then []
    else
      var n := |s| - 1;
      if s[n] in s[..n] then FirstOccurrences(s[..n]) else FirstOccurrences(s[..n]) + [s[n]]
  }

  lemma {:induction false} FirstOccurrencesCorrect(s: seq<string>)
    ensures NoDuplicates(FirstOccurrences(s))
    ensures forall x :: x in FirstOccurrences(s) <==> x in s
  {
    if s != [] {
      var n := |s| - 1;
      FirstOccurrencesCorrect(s[..n]);
      assert s == s[..n] + [s[n]];
    }
  }

  /** `s.indexOf(x)` for a value of `s`. */
  function FirstIndex(s: seq<string>, x: string): (r: nat)
    requires x in s
    ensures r < |s| && s[r] == x && x !in s[..r]
  {
    if s[0] == x then 0
    else
      var r := FirstIndex(s[1..], x);
      assert s[..r + 1] == [s[0]] + s[1..][..r];
      1 + r
  }

  lemma FirstIndexPrefix(s: seq<string>, n: nat, x: string)
    requires n <= |s| && x in s[..n]
    ensures FirstIndex(s, x) == FirstIndex(s[..n], x)
  {
    var i := FirstIndex(s[..n], x);
    var k := FirstIndex(s, x);
    assert s[..n][..i] == s[..i];
  }

  /** The kept values are in the order of their first occurrence. */
  lemma {:induction false} FirstOccurrencesOrder(s: seq<string>)
    ensures forall i, j :: 0 <= i < j < |FirstOccurrences(s)| ==>
      && FirstOccurrences(s)[i] in s && FirstOccurrences(s)[j] in s
      && FirstIndex(s, FirstOccurrences(s)[i]) < FirstIndex(s, FirstOccurrences(s)[j])
  {
    if s != [] {
      var n := |s| - 1;
      var t := s[..n];
      var r := FirstOccurrences(t);
      FirstOccurrencesOrder(t);
      FirstOccurrencesCorrect(t);
      assert s == t + [s[n]];
      forall x | x in r ensures x in s && FirstIndex(s, x) == FirstIndex(t, x) {
        FirstIndexPrefix(s, n, x);
      }
      assert FirstOccurrences(s) == if s[n] in t then r else r + [s[n]];
      if s[n] !in t {
        assert FirstIndex(s, s[n]) == n;
        var q := r + [s[n]];
        forall i, j | 0 <= i < j < |q|
          ensures q[i] in s && q[j] in s && FirstIndex(s, q[i]) < FirstIndex(s, q[j])
        {
          assert q[i] == r[i] && r[i] in r;
          if j < |r| {
            assert r[j] in r;
            assert q[j] == r[j];
          }
        }
        assert FirstOccurrences(s) == q;
      } else {
        forall i, j | 0 <= i < j < |r|
          ensures r[i] in s && r[j] in s && FirstIndex(s, r[i]) < FirstIndex(s, r[j])
        {
          assert r[i] in r && r[j] in r;
          assert FirstIndex(t, r[i]) < FirstIndex(t, r[j]);
        }
        assert FirstOccurrences(s) == r;
      }
    } else {
      assert FirstOccurrences(s) == [];
    }
  }

  function LevelIdsOf(pois: seq<Poi>): (r: seq<string>)
    ensures |r| == |pois| && forall i :: 0 <= i < |pois| ==> r[i] == pois[i].level
  {
    seq(|pois|, i requires 0 <= i < |pois| => pois[i].level)
  }

  /** The ids the level catalog knows, in their order. */
  function KnownLevelIds(ids: seq<string>, levels: seq<Level>): seq<string>
  {
    Select(ids, (id: string) => FindLevel(levels, id).Some?)
  }

  /** Filtering a duplicate-free sequence leaves it duplicate-free. */
  lemma {:induction false} SelectNoDuplicates<T(!new)>(s: seq<T>, keep: T -> bool)
    requires NoDuplicates(s)
    ensures NoDuplicates(Select(s, keep))
  {
    if s != [] {
      var n := |s| - 1;
      SelectNoDuplicates(s[..n], keep);
      assert s[n] !in s[..n];
    }
  }

  function LevelsOf(ids: seq<string>, levels: seq<Level>): (r: seq<Level>)
    requires forall id :: id in ids ==> FindLevel(levels, id).Some?
    ensures |r| == |ids| && forall i :: 0 <= i < |ids| ==> r[i] == FindLevel(levels, ids[i]).value
  {
    seq(|ids|, i requires 0 <= i < |ids| => FindLevel(levels, ids[i]).value)
  }

  /** The floors listed for the selected POIs. The page maps each POI to the
      level object `find` returns for its level id and keeps the first
      occurrence of each object; `find` returns the same object for the same
      id, so this is deduplication by id, and a level id missing from the
      catalog yields `undefined`. The `.sort()` that follows compares every
      level object as the same string, so it keeps their order, and moves
      `undefined` to the end, where reading its `name` throws and ends the
      listing: only the known floors get a group. */
  function GroupLevels(selected: seq<Poi>, levels: seq<Level>): seq<Level>
  {
    LevelsOf(KnownLevelIds(FirstOccurrences(LevelIdsOf(selected)), levels), levels)
  }

  /** Each floor heads one group: the groups' levels are distinct, every
      selected POI whose floor the catalog knows has its floor's group, and
      every group is the floor of some selected POI. */
  lemma GroupLevelsMeaning(selected: seq<Poi>, levels: seq<Level>)
    ensures var groups := GroupLevels(selected, levels);
      && (forall i, j :: 0 <= i < j < |groups| ==> groups[i].id != groups[j].id)
      && (forall p :: p in selected && FindLevel(levels, p.level).Some? ==>
            exists i :: 0 <= i < |groups| && groups[i].id == p.level)
      && (forall i :: 0 <= i < |groups| ==>
            exists p :: p in selected && FindLevel(levels, p.level) == Some(groups[i]))
  {
    var firsts := FirstOccurrences(LevelIdsOf(selected));
    FirstOccurrencesCorrect(LevelIdsOf(selected));
    var ids := KnownLevelIds(firsts, levels);
    SelectNoDuplicates(firsts, (id: string) => FindLevel(levels, id).Some?);
    var groups := GroupLevels(selected, levels);
    assert groups == LevelsOf(ids, levels);
    forall i | 0 <= i < |groups|
      ensures groups[i].id == ids[i]
      ensures exists p :: p in selected && FindLevel(levels, p.level) == Some(groups[i])
    {
      var p := PoiOfGroup(selected, ids, i);
      assert ids[i] in ids;
      assert FindLevel(levels, ids[i]) == Some(groups[i]);
    }
    forall p | p in selected && FindLevel(levels, p.level).Some?
      ensures exists i :: 0 <= i < |groups| && groups[i].id == p.level
    {
      GroupOfPoi(selected, levels, ids, p);
    }
  }

  lemma GroupOfPoi(selected: seq<Poi>, levels: seq<Level>, ids: seq<string>, p: Poi)
    requires forall x :: x in LevelIdsOf(selected) && FindLevel(levels, x).Some? ==> x in ids
    requires p in selected && FindLevel(levels, p.level).Some?
    ensures exists i :: 0 <= i < |ids| && ids[i] == p.level
  {
    var k :| 0 <= k < |selected| && selected[k] == p;
    assert LevelIdsOf(selected)[k] == p.level;
    assert p.level in ids;
  }

  lemma PoiOfGroup(selected: seq<Poi>, ids: seq<string>, i: nat) returns (p: Poi)
    requires forall x :: x in ids ==> x in LevelIdsOf(selected)
    requires i < |ids|
    ensures p in selected && p.level == ids[i]
  {
    assert ids[i] in LevelIdsOf(selected);
    var k :| 0 <= k < |selected| && LevelIdsOf(selected)[k] == ids[i];
    p := selected[k];
  }

  // The entries.

  /** `category.name ?? 'Unknown'` */
  function CategoryLabel(c: Category): string
  {
    if c.name.Some? then c.name.value else "Unknown"
  }

  function CategoryEntry(c: Category): Entry
  {
    CategoryButton(Some(c.id), CategoryLabel(c), c.icon)
  }

  function CategoryEntries(cs: seq<Category>): (r: seq<Entry>)
    ensures |r| == |cs| && forall i :: 0 <= i < |cs| ==> r[i] == CategoryEntry(cs[i])
  {
    seq(|cs|, i requires 0 <= i < |cs| => CategoryEntry(cs[i]))
  }

  /** The back entry: it leads to the parent, or carries no target (which
      resets the selection) when the current category is a root. Its text is
      the name followed by " (retour)", with a missing name printed as
      JavaScript prints it. */
  function BackEntry(current: Category): Entry
  {
    var name := if current.name.Some? then current.name.value else "undefined";
    var target := if Truthy(current.parent) then Some(current.parent.value) else None;
    CategoryButton(target, name + " (retour)", current.icon)
  }

  function PoiEntry(p: Poi): Entry
    requires p.geometry.Some?
  {
    PoiButton(p.fid, p.name + " => étage " + p.level, p.geometry.value, p.level)
  }

  /** One button per POI that has a geometry, in order; the others are
      skipped with a warning. */
  function PoiEntries(ps: seq<Poi>): seq<Entry>
  {
    if ps == [] then []
    else
      var n := |ps| - 1;
      PoiEntries(ps[..n]) + (if ps[n].geometry.Some? then [PoiEntry(ps[n])] else [])
  }

  function GroupEntries(level: Level, selected: seq<Poi>): seq<Entry>
  {
    [LevelHeading("Etage " + level.name)] + PoiEntries(SortByName(OnLevel(selected, level.id)))
  }

  function GroupsEntries(groups: seq<Level>, selected: seq<Poi>): seq<Entry>
  {
    if groups == [] then []
    else
      var n := |groups| - 1;
      GroupsEntries(groups[..n], selected) + GroupEntries(groups[n], selected)
  }

  /** The entries above the POI list when a category is selected. */
  function CategoryHead(categories: seq<Category>, current: Category): seq<Entry>
  {
    [BackEntry(current)] + SubCategoryEntries(ChildCategories(categories, current.id))
  }

  /** The POI part of the list: a heading, then one group per floor, or
      nothing when no POI is filed under the category. */
  function PoiSection(selected: seq<Poi>, levels: seq<Level>): seq<Entry>
  {
    if selected == [] then []
    else [Heading("Liste des POIs")] + GroupsEntries(GroupLevels(selected, levels), selected)
  }

  /** The whole sidebar list for a selection. While the POI dataset has not
      arrived, `pois.features` is undefined and building the list stops after
      the sub-categories. */
  function CategoryList(categories: seq<Category>, current: Option<Category>, pois: Option<seq<Poi>>, levels: seq<Level>): seq<Entry>
  {
    if current.None? then CategoryEntries(RootCategories(categories))
    else if pois.None? then CategoryHead(categories, current.value)
    else CategoryHead(categories, current.value) + PoiSection(OfCategory(pois.value, current.value.id), levels)
  }

  /** Appends one category button per category, in order. */
  method AppendCategoryButtons(entries: seq<Entry>, cs: seq<Category>) returns (r: seq<Entry>)
    ensures r == entries + CategoryEntries(cs)
  {
    r := entries;
    for i := 0 to |cs|
      invariant r == entries + CategoryEntries(cs[..i])
    {
      r := r + [CategoryEntry(cs[i])];
    }
    assert cs[..|cs|] == cs;
  }

  /** Appends one floor group: its heading, then a button for each of its
      POIs that has a geometry, in order of lower-cased name. */
  method AppendGroup(entries: seq<Entry>, level: Level, selected: seq<Poi>) returns (r: seq<Entry>)
    ensures r == entries + GroupEntries(level, selected)
  {
    r := entries + [LevelHeading("Etage " + level.name)];
    var sorted := SortByName(OnLevel(selected, level.id));
    for j := 0 to |sorted|
      invariant r == entries + [LevelHeading("Etage " + level.name)] + PoiEntries(sorted[..j])
    {
      if sorted[j].geometry.Some? {
        r := r + [PoiEntry(sorted[j])];
      }
      assert sorted[..j + 1][..j] == sorted[..j];
    }
    assert sorted[..|sorted|] == sorted;
  }

  lemma GroupsEntriesStep(groups: seq<Level>, g: nat, selected: seq<Poi>)
    requires g < |groups|
    ensures GroupsEntries(groups[..g + 1], selected) == GroupsEntries(groups[..g], selected) + GroupEntries(groups[g], selected)
  {
    assert groups[..g + 1][..g] == groups[..g];
  }

  /** Appends the floor groups, one after the other. */
  method AppendGroups(entries: seq<Entry>, groups: seq<Level>, selected: seq<Poi>) returns (r: seq<Entry>)
    ensures r == entries + GroupsEntries(groups, selected)
  {
    r := entries;
    for g := 0 to |groups|
      invariant r == entries + GroupsEntries(groups[..g], selected)
    {
      GroupsEntriesStep(groups, g, selected);
      r := AppendGroup(r, groups[g], selected);
    }
    assert groups[..|groups|] == groups;
  }

  /** Builds the sidebar list entry by entry, as the page appends its
      elements in nested loops. */
  method BuildCategoryList(categories: seq<Category>, current: Option<Category>, pois: Option<seq<Poi>>, levels: seq<Level>)
    returns (entries: seq<Entry>)
    ensures entries == CategoryList(categories, current, pois, levels)
  {
    if current.None? {
      entries := AppendCategoryButtons([], RootCategories(categories));
      assert [] + CategoryEntries(RootCategories(categories)) == CategoryEntries(RootCategories(categories));
    } else {
      entries := BuildCategoryPage(categories, current.value, pois, levels);
    }
  }

  /** The list for a selected category: the back entry, the sub-categories,
      then the POIs grouped by floor once the dataset is there. */
  method BuildCategoryPage(categories: seq<Category>, cur: Category, pois: Option<seq<Poi>>, levels: seq<Level>)
    returns (entries: seq<Entry>)
    ensures entries == CategoryList(categories, Some(cur), pois, levels)
  {
    entries := BuildCategoryHead(categories, cur);
    if pois.Some? {
      entries := AppendPoiSection(entries, OfCategory(pois.value, cur.id), levels);
    }
  }

  /** Appends the POI heading and the floor groups, when any POI is selected. */
  method AppendPoiSection(entries: seq<Entry>, selected: seq<Poi>, levels: seq<Level>) returns (r: seq<Entry>)
    ensures r == entries + PoiSection(selected, levels)
  {
    if |selected| > 0 {
      var groups := GroupLevels(selected, levels);
      var heading := entries + [Heading("Liste des POIs")];
      r := AppendGroups(heading, groups, selected);
      AppendAssoc(entries, [Heading("Liste des POIs")], GroupsEntries(groups, selected));
    } else {
      r := entries;
      assert entries + [] == entries;
    }
  }

  lemma AppendAssoc<T>(a: seq<T>, b: seq<T>, c: seq<T>)
    ensures (a + b) + c == a + (b + c)
  {
  }

  /** The back entry, then the sub-category heading and buttons when the
      category has children. */
  method BuildCategoryHead(categories: seq<Category>, cur: Category) returns (entries: seq<Entry>)
    ensures entries == CategoryHead(categories, cur)
  {
    entries := [BackEntry(cur)];
    var children := ChildCategories(categories, cur.id);
    if |children| > 0 {
      entries := AppendCategoryButtons(entries + [Heading("Sous catégories")], children);
      assert SubCategoryEntries(children) == [Heading("Sous catégories")] + CategoryEntries(children);
    } else {
      assert SubCategoryEntries(children) == [];
    }
  }

  // What the list shows.

  lemma {:induction false} PoiEntriesMeaning(ps: seq<Poi>)
    ensures forall e :: e in PoiEntries(ps) ==> exists q :: q in ps && q.geometry.Some? && e == PoiEntry(q)
    ensures forall q :: q in ps && q.geometry.Some? ==> PoiEntry(q) in PoiEntries(ps)
  {
    if ps != [] {
      var n := |ps| - 1;
      PoiEntriesMeaning(ps[..n]);
      assert ps == ps[..n] + [ps[n]];
    }
  }

  /** A floor group is its heading followed by the buttons of the group's POIs
      that have a geometry, sorted by lower-cased name; the group's POIs are
      exactly the selected POIs on that floor. */
  lemma GroupMeaning(level: Level, selected: seq<Poi>)
    ensures exists sorted: seq<Poi> ::
      && GroupEntries(level, selected) == [LevelHeading("Etage " + level.name)] + PoiEntries(sorted)
      && SortedByName(sorted)
      && multiset(sorted) == multiset(OnLevel(selected, level.id))
  {
    var sorted := SortByName(OnLevel(selected, level.id));
    SortByNameCorrect(OnLevel(selected, level.id));
    assert GroupEntries(level, selected) == [LevelHeading("Etage " + level.name)] + PoiEntries(sorted);
  }

  /** The buttons of a floor group are those of the selected POIs on that
      floor that have a geometry. */
  lemma GroupButtons(level: Level, selected: seq<Poi>)
    ensures forall e :: e in GroupEntries(level, selected) && e.PoiButton? ==>
      exists q :: q in selected && q.level == level.id && q.geometry.Some? && e == PoiEntry(q)
    ensures forall q :: q in selected && q.level == level.id && q.geometry.Some? ==>
      PoiEntry(q) in GroupEntries(level, selected)
  {
    var on := OnLevel(selected, level.id);
    var sorted := SortByName(on);
    SortByNameCorrect(on);
    PoiEntriesMeaning(sorted);
    assert forall q :: q in sorted <==> q in multiset(on);
    assert forall q :: q in on <==> q in selected && q.level == level.id;
  }

  /** Every POI button of the floor groups is the button of a selected POI
      with a geometry. */
  lemma {:induction false} GroupsEntriesSound(groups: seq<Level>, selected: seq<Poi>)
    ensures forall e :: e in GroupsEntries(groups, selected) && e.PoiButton? ==>
      exists q :: q in selected && q.geometry.Some? && e == PoiEntry(q)
  {
    if groups != [] {
      var n := |groups| - 1;
      var front := GroupsEntries(groups[..n], selected);
      var last := GroupEntries(groups[n], selected);
      assert GroupsEntries(groups, selected) == front + last;
      GroupsEntriesSound(groups[..n], selected);
      GroupButtons(groups[n], selected);
      forall e: Entry | e in front + last && e.PoiButton?
        ensures exists q :: q in selected && q.geometry.Some? && e == PoiEntry(q)
      {
        if e !in front {
          assert e in last;
        }
      }
    }
  }

  /** Every selected POI with a geometry on one of the groups' floors has
      its button in the groups. */
  lemma {:induction false} GroupsEntriesComplete(groups: seq<Level>, selected: seq<Poi>)
    ensures forall q, i :: 0 <= i < |groups| && q in selected && q.level == groups[i].id && q.geometry.Some? ==>
      PoiEntry(q) in GroupsEntries(groups, selected)
  {
    if groups != [] {
      var n := |groups| - 1;
      var front := GroupsEntries(groups[..n], selected);
      var last := GroupEntries(groups[n], selected);
      assert GroupsEntries(groups, selected) == front + last;
      GroupsEntriesComplete(groups[..n], selected);
      GroupButtons(groups[n], selected);
      forall q, i | 0 <= i < |groups| && q in selected && q.level == groups[i].id && q.geometry.Some?
        ensures PoiEntry(q) in front + last
      {
        if i < n {
          assert groups[..n][i] == groups[i];
          assert PoiEntry(q) in front;
        } else {
          assert PoiEntry(q) in last;
        }
      }
    }
  }

  /** With no category selected, the list is one button per root category
      (no truthy parent), in catalog order, each leading to its category. */
  lemma RootListing(categories: seq<Category>, pois: Option<seq<Poi>>, levels: seq<Level>)
    ensures var list := CategoryList(categories, None, pois, levels);
      && |list| == |RootCategories(categories)|
      && (forall i :: 0 <= i < |list| ==> list[i] == CategoryEntry(RootCategories(categories)[i]))
      && (forall c :: c in RootCategories(categories) <==> c in categories && IsRoot(c))
  {
  }

  /** The category buttons of a list of categories are exactly the buttons
      of its members. */
  lemma CategoryEntriesMembers(cs: seq<Category>)
    ensures forall c :: c in cs ==> CategoryEntry(c) in CategoryEntries(cs)
    ensures forall e :: e in CategoryEntries(cs) ==> exists c :: c in cs && e == CategoryEntry(c)
  {
    var es := CategoryEntries(cs);
    forall c | c in cs ensures CategoryEntry(c) in es {
      var k :| 0 <= k < |cs| && cs[k] == c;
      assert es[k] == CategoryEntry(c);
    }
    forall e | e in es ensures exists c :: c in cs && e == CategoryEntry(c) {
      var k :| 0 <= k < |es| && es[k] == e;
      assert cs[k] in cs;
    }
  }

  /** The sub-category part of the head, as `CategoryHead` lays it out. */
  function SubCategoryEntries(children: seq<Category>): seq<Entry>
  {
    if children == [] then [] else [Heading("Sous catégories")] + CategoryEntries(children)
  }

  /** The sub-category part holds a button for exactly the given children,
      and no POI button. */
  lemma SubCategoryEntriesMeaning(children: seq<Category>)
    ensures forall c :: c in children ==> CategoryEntry(c) in SubCategoryEntries(children)
    ensures forall e :: e in SubCategoryEntries(children) && e.CategoryButton? ==>
      exists c :: c in children && e == CategoryEntry(c)
    ensures forall e :: e in SubCategoryEntries(children) ==> !e.PoiButton?
  {
    var buttons := CategoryEntries(children);
    CategoryEntriesMembers(children);
    assert forall e :: e in SubCategoryEntries(children) ==> e == Heading("Sous catégories") || e in buttons;
  }

  /** Above the POIs: the back entry, then a button for exactly the
      categories whose parent is the current one, and no POI button. */
  lemma HeadMeaning(categories: seq<Category>, current: Category)
    ensures var head := CategoryHead(categories, current);
      && |head| >= 1 && head[0] == BackEntry(current)
      && (forall c :: c in categories && c.parent == Some(current.id) ==> CategoryEntry(c) in head)
      && (forall e :: e in head[1..] && e.CategoryButton? ==>
            exists c :: c in categories && c.parent == Some(current.id) && e == CategoryEntry(c))
      && (forall e :: e in head ==> !e.PoiButton?)
  {
    var head := CategoryHead(categories, current);
    var children := ChildCategories(categories, current.id);
    var rest := SubCategoryEntries(children);
    assert head == [BackEntry(current)] + rest;
    assert head[1..] == rest;
    assert forall c :: c in children <==> c in categories && c.parent == Some(current.id);
    SubCategoryEntriesMeaning(children);
    assert forall e :: e in head ==> e == BackEntry(current) || e in rest;
  }

  /** The POI part holds a button for every selected POI that has a
      geometry and a floor the catalog knows, for no other POI, and no
      category button. */
  lemma PoiSectionMeaning(selected: seq<Poi>, levels: seq<Level>)
    ensures forall q :: q in selected && q.geometry.Some? && FindLevel(levels, q.level).Some? ==>
      PoiEntry(q) in PoiSection(selected, levels)
    ensures forall e :: e in PoiSection(selected, levels) && e.PoiButton? ==>
      exists q :: q in selected && q.geometry.Some? && e == PoiEntry(q)
    ensures forall e :: e in PoiSection(selected, levels) ==> !e.CategoryButton?
  {
    if selected != [] {
      var groups := GroupLevels(selected, levels);
      var entries := GroupsEntries(groups, selected);
      assert PoiSection(selected, levels) == [Heading("Liste des POIs")] + entries;
      GroupLevelsMeaning(selected, levels);
      GroupsEntriesSound(groups, selected);
      GroupsEntriesComplete(groups, selected);
      GroupsEntriesKinds(groups, selected);
      forall q | q in selected && q.geometry.Some? && FindLevel(levels, q.level).Some?
        ensures PoiEntry(q) in entries
      {
        var i :| 0 <= i < |groups| && groups[i].id == q.level;
      }
    }
  }

  /** With a category selected and the POIs loaded, the list holds a button
      for every POI filed directly under the category that has a geometry
      and a floor the catalog knows, and for no other POI. */
  lemma ListedPois(categories: seq<Category>, current: Category, pois: seq<Poi>, levels: seq<Level>)
    ensures var list := CategoryList(categories, Some(current), Some(pois), levels);
      && (forall q :: q in pois && q.category == current.id && q.geometry.Some? && FindLevel(levels, q.level).Some? ==>
            PoiEntry(q) in list)
      && (forall e :: e in list && e.PoiButton? ==>
            exists q :: q in pois && q.category == current.id && q.geometry.Some? && e == PoiEntry(q))
  {
    var head := CategoryHead(categories, current);
    var selected := OfCategory(pois, current.id);
    var tail := PoiSection(selected, levels);
    assert CategoryList(categories, Some(current), Some(pois), levels) == head + tail;
    HeadMeaning(categories, current);
    PoiSectionMeaning(selected, levels);
    assert forall q :: q in selected <==> q in pois && q.category == current.id;
  }

  /** With a category selected and the POIs loaded, the list starts with the
      back entry (leading to the parent, or nowhere for a root) and holds a
      button for exactly the categories whose parent is the selected one. */
  lemma ListedCategories(categories: seq<Category>, current: Category, pois: seq<Poi>, levels: seq<Level>)
    ensures var list := CategoryList(categories, Some(current), Some(pois), levels);
      && |list| >= 1 && list[0].CategoryButton?
      && (list[0].target.None? <==> IsRoot(current))
      && (!IsRoot(current) ==> list[0].target == current.parent)
      && (forall c :: c in categories && c.parent == Some(current.id) ==> CategoryEntry(c) in list)
      && (forall e :: e in list[1..] && e.CategoryButton? ==>
            exists c :: c in categories && c.parent == Some(current.id) && e == CategoryEntry(c))
  {
    HeadMeaning(categories, current);
    ListAfterHead(categories, current, pois, levels);
  }

  /** The list is the head, possibly followed by the POI heading and floor
      groups, which hold no category button. */
  lemma ListAfterHead(categories: seq<Category>, current: Category, pois: seq<Poi>, levels: seq<Level>)
    ensures var list := CategoryList(categories, Some(current), Some(pois), levels);
      var head := CategoryHead(categories, current);
      && |head| <= |list| && list[..|head|] == head
      && forall e :: e in list[|head|..] ==> !e.CategoryButton?
  {
    var list := CategoryList(categories, Some(current), Some(pois), levels);
    var head := CategoryHead(categories, current);
    var tail := PoiSection(OfCategory(pois, current.id), levels);
    assert list == head + tail;
    assert list[..|head|] == head;
    assert list[|head|..] == tail;
    PoiSectionMeaning(OfCategory(pois, current.id), levels);
  }

  /** The floor groups hold only floor headings and POI buttons. */
  lemma {:induction false} GroupsEntriesKinds(groups: seq<Level>, selected: seq<Poi>)
    ensures forall e :: e in GroupsEntries(groups, selected) ==> e.LevelHeading? || e.PoiButton?
  {
    if groups != [] {
      var n := |groups| - 1;
      GroupsEntriesKinds(groups[..n], selected);
      PoiEntriesMeaning(SortByName(OnLevel(selected, groups[n].id)));
    }
  }
}
