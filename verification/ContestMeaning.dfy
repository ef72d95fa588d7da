/**
 What the rules of a contest say in the end: at each place of a document, whether a merge has the value of the
 overlay or of the base, and so which of a contest, its parents, its profiles and its presets has the last word.
 */
module ContestMeaning {
  import opened Sums
  import opened ContestYaml
  import opened ContestLists
  import opened ContestPresets
  import opened ContestCompose

  /** A place in a document, by the keys of mappings that lead to it. */
  type Path = seq<Key>

  function At(y: Yaml, p: Path): Option<Yaml> {
    if p == [] then Some(y)
    else if y.Map? && p[0] in y.entries then At(y.entries[p[0]], p[1..])
    else None
  }

  predicate Scalar(y: Yaml) {
    y.Str? || y.Bool? || y.Plain?
  }

  /** Two lists of which one has items with ids. They merge item by item. */
  predicate KeyedLists(base: Yaml, overlay: Yaml) {
    base.Seq? && overlay.Seq? && (Keyed(base.items) || Keyed(overlay.items))
  }

  predicate Keyed(items: seq<Yaml>) {
    items != [] && forall i :: 0 <= i < |items| ==>
      items[i].Map? && Name("id") in items[i].entries && items[i].entries[Name("id")].Str?
  }

  lemma KeyedIffIds(items: seq<Yaml>)
    ensures Keyed(items) <==> IsKeyedCollection(items)
  {
    assert forall i :: 0 <= i < |items| ==>
      (ItemId(items[i]).Some? <==> items[i].Map? && Name("id") in items[i].entries && items[i].entries[Name("id")].Str?);
  }

  /** An item's id is the text under its key `id`. */
  lemma ItemIdIs(y: Yaml, id: string)
    ensures ItemId(y) == Some(id) <==> y.Map? && Name("id") in y.entries && y.entries[Name("id")] == Str(id)
  {
  }

  /** The overlay says nothing about a place, but perhaps about others next to it. */
  predicate Untouched(overlay: Yaml, p: Path)
    decreases |p|
  {
    p != [] && overlay.Map? && (p[0] in overlay.entries ==> Untouched(overlay.entries[p[0]], p[1..]))
  }

  /** What a merge has at a place. */
  ghost predicate MergedAt(base: Yaml, overlay: Yaml, r: Yaml, p: Path) {
    match (At(base, p), At(overlay, p))
    case (b, None) => At(r, p) == if Untouched(overlay, p) then b else None
    case (None, Some(o)) => At(r, p) == Some(o)
    case (Some(b), Some(o)) =>
      if b.Map? && o.Map? then
        At(r, p).Some? && At(r, p).value.Map? && At(r, p).value.entries.Keys == b.entries.Keys + o.entries.Keys
      else if KeyedLists(b, o) then
        At(r, p).Some? && At(r, p).value.Seq? && MergeKeyed(b.items, o) == Ok(At(r, p).value.items)
      else At(r, p) == Some(o)
  }

  /**
   A deep merge. At every place the result has the overlay's value if the overlay has one, and the base's if the
   overlay does not touch the place. Only mappings are merged entry by entry, and lists with ids item by item.
   */
  lemma {:induction false} MergeIs(base: Yaml, overlay: Yaml, p: Path)
    requires Merge(base, overlay).Ok?
    ensures MergedAt(base, overlay, Merge(base, overlay).value, p)
    decreases |p|
  {
    hide MergeBut, MergedAt;
    if base.Map? && overlay.Map? {
      MergedEntries(base, overlay, {});
      if p != [] && p[0] in base.entries && p[0] in overlay.entries {
        MergeIs(base.entries[p[0]], overlay.entries[p[0]], p[1..]);
      }
      MapsAt(base, overlay, Merge(base, overlay).value, p);
    } else {
      MergeReplaces(base, overlay, p);
    }
  }

  lemma MapsAt(base: Yaml, overlay: Yaml, r: Yaml, p: Path)
    requires base.Map? && overlay.Map? && r.Map? && r.entries.Keys == base.entries.Keys + overlay.entries.Keys
    requires forall k :: k in r.entries ==>
               if k !in overlay.entries then r.entries[k] == base.entries[k]
               else if k !in base.entries then r.entries[k] == overlay.entries[k]
               else p != [] && k == p[0] ==> MergedAt(base.entries[k], overlay.entries[k], r.entries[k], p[1..])
    ensures MergedAt(base, overlay, r, p)
  {
    hide MergeKeyed, KeyedLists;
  }

  lemma MergeReplaces(base: Yaml, overlay: Yaml, p: Path)
    requires Merge(base, overlay).Ok? && !(base.Map? && overlay.Map?)
    ensures MergedAt(base, overlay, Merge(base, overlay).value, p)
  {
    if base.Seq? && overlay.Seq? { KeyedIffIds(base.items); KeyedIffIds(overlay.items); }
    hide MergeKeyed, IsKeyedCollection, Keyed;
    var r := Merge(base, overlay).value;
    if KeyedLists(base, overlay) {
    } else {
      assert r == overlay;
      hide MergeBut;
      if p != [] && At(overlay, p).None? && overlay.Map? { NothingUnder(base, overlay, p); }
    }
  }

  lemma NothingUnder(base: Yaml, overlay: Yaml, p: Path)
    requires p != [] && !base.Map?
    ensures At(base, p) == None
  {
  }

  /** A list without items wipes out a list of items with ids. */
  lemma EmptyListWins(base: Yaml, overlay: Yaml)
    requires base.Seq? && overlay == Seq([]) && AllHaveIds(base.items) && UniqueIds(base.items)
    ensures Merge(base, overlay) == Ok(Seq([]))
  {
    assert MergeKeyed(base.items, overlay) == Ok([]);
  }

  /** What becomes of each entry of an overlay mapping. */
  function EntriesMerged(base: map<Key, Yaml>, overlay: map<Key, Yaml>): map<Key, Result<Yaml>> {
    map k | k in overlay :: if k in base then Merge(base[k], overlay[k]) else Ok(overlay[k])
  }

  lemma MapsMerge(base: Yaml, overlay: Yaml, skip: set<Key>)
    requires base.Map? && overlay.Map?
    ensures var done := EntriesMerged(base.entries, overlay.entries - skip);
            MergeBut(base, overlay, skip) ==
            if exists k :: k in done && done[k].Err? then Err
            else Ok(Map(base.entries + map k | k in done :: done[k].value))
  {
    var done := EntriesMerged(base.entries, overlay.entries - skip);
    var merged := map k | k in overlay.entries && k !in skip ::
      if k in base.entries then MergeBut(base.entries[k], overlay.entries[k], {}) else Ok(overlay.entries[k]);
    assert merged == done;
  }

  /** Keys that tell a merge what to do with an item are as good as absent from it. */
  lemma ControlIsLeftOut(base: Yaml, item: Yaml, skip: set<Key>)
    ensures MergeBut(base, item, skip) == Merge(base, WithoutKeys(item, skip))
  {
    if base.Map? && item.Map? {
      hide MergeBut, EntriesMerged;
      MapsMerge(base, item, skip);
      MapsMerge(base, WithoutKeys(item, skip), {});
      assert item.entries - skip - {} == item.entries - skip;
    } else if item.Map? {
      assert item.entries - skip - {} == item.entries - skip;
    }
  }

  // ----- when documents do not merge -----

  ghost predicate ListsBreak(base: Yaml, overlay: Yaml, p: Path) {
    && At(base, p).Some? && At(overlay, p).Some?
    && KeyedLists(At(base, p).value, At(overlay, p).value)
    && MergeKeyed(At(base, p).value.items, At(overlay, p).value).Err?
  }

  lemma {:induction false} BrokenLists(base: Yaml, overlay: Yaml) returns (p: Path)
    requires Merge(base, overlay).Err?
    ensures ListsBreak(base, overlay, p)
    decreases overlay
  {
    p := [];
    if base.Seq? && overlay.Seq? { KeyedIffIds(base.items); KeyedIffIds(overlay.items); }
    hide Keyed;
    if base.Map? && overlay.Map? {
      MapsMerge(base, overlay, {});
      hide MergeBut, MergeKeyed, IsKeyedCollection;
      var done := EntriesMerged(base.entries, overlay.entries - {});
      var k :| k in done && done[k].Err?;
      var rest := BrokenLists(base.entries[k], overlay.entries[k]);
      p := [k] + rest;
      assert p[1..] == rest;
    }
  }

  /** Two documents fail to merge if and only if at some place two lists with ids do. */
  lemma MergeFailsIff(base: Yaml, overlay: Yaml)
    ensures Merge(base, overlay).Err? <==> exists p :: ListsBreak(base, overlay, p)
  {
    hide Merge, MergeKeyed;
    if Merge(base, overlay).Err? {
      var p := BrokenLists(base, overlay);
    } else {
      forall p ensures !ListsBreak(base, overlay, p) { MergeIs(base, overlay, p); }
    }
  }

  predicate WordOrNone(item: Yaml, key: Key) {
    item.Map? && (key in item.entries ==> item.entries[key].Str?)
  }

  /** The item that an overlay item is to stand next to is there: in the list as it is then, without the item itself. */
  predicate NeighbourThere(base: seq<Yaml>, items: seq<Yaml>, i: nat, key: Key)
    requires i < |items|
  {
    items[i].Map? && key in items[i].entries && items[i].entries[key].Str? ==>
      && items[i].entries[key].text in Ids(base) + Ids(items[..i]) - RemovedIds(items, i)
      && Some(items[i].entries[key].text) != ItemId(items[i])
  }

  predicate AsksRemoval(item: Yaml) {
    item.Map? && Name("remove") in item.entries && item.entries[Name("remove")] == Bool(true)
  }

  /** An overlay item can be taken in. */
  predicate CanTakeIn(base: seq<Yaml>, items: seq<Yaml>, i: nat)
    requires i < |items|
  {
    if ItemId(items[i]).None? then false
    else if AsksRemoval(items[i]) then ItemId(items[i]).value in Ids(base)
    else
      && WordOrNone(items[i], Name("before")) && WordOrNone(items[i], Name("after"))
      && !(Name("before") in items[i].entries && Name("after") in items[i].entries)
      && NeighbourThere(base, items, i, Name("before")) && NeighbourThere(base, items, i, Name("after"))
      && Amounts(base, items[i]).Ok?
  }

  lemma PositionIff(items: seq<Yaml>, id: string)
    ensures Position(items, id).Some? <==> id in Ids(items)
  {
  }

  /** One overlay item is taken in exactly if what it asks for can be done. */
  lemma SettlesIff(items: seq<Yaml>, item: Yaml, merged: Result<Yaml>)
    requires ItemId(item).Some? && AllHaveIds(items) && UniqueIds(items)
    ensures var id := ItemId(item).value;
            var there := (key: Key) => item.Map? && key in item.entries && item.entries[key].Str? ==>
                           item.entries[key].text in Ids(items) && item.entries[key].text != id;
            Settle(items, item, merged).Ok? <==>
              if AsksRemoval(item) then id in Ids(items)
              else
                && WordOrNone(item, Name("before")) && WordOrNone(item, Name("after"))
                && !(Name("before") in item.entries && Name("after") in item.entries)
                && there(Name("before")) && there(Name("after")) && merged.Ok?
  {
    var id := ItemId(item).value;
    var position := Position(items, id);
    PositionIff(items, id);
    var rest := if position.Some? then TakeOut(items, position.value) else items;
    if position.Some? { TakeOutIds(items, position.value); }
    hide TakeOut, PutIn, AllHaveIds, UniqueIds, Position, Ids;
    forall key | item.Map? && key in item.entries && item.entries[key].Str?
      ensures Position(rest, item.entries[key].text).Some? <==>
                item.entries[key].text in Ids(items) && item.entries[key].text != id
    {
      PositionIff(rest, item.entries[key].text);
    }
  }

  lemma TakesInNext(base: seq<Yaml>, items: seq<Yaml>, i: nat, now: seq<Yaml>)
    requires i < |items| && AllHaveIds(items) && UniqueIds(items) && AllHaveIds(now) && UniqueIds(now)
    requires Ids(now) == Ids(base) + Ids(items[..i]) - RemovedIds(items, i) && Amounts(now, items[i]) == Amounts(base, items[i])
    ensures Settle(now, items[i], Amounts(now, items[i])).Ok? <==> CanTakeIn(base, items, i)
  {
    IdFresh(items, i);
    FoundIn(base, items, i, now);
    hide Settle, UniqueIds, RemovedIds, AllHaveIds, Amounts, Ids, Removes;
    SettlesIff(now, items[i], Amounts(now, items[i]));
  }

  lemma {:induction false} TakenInIff(base: seq<Yaml>, overlay: Yaml, n: nat)
    requires overlay.Seq? && n <= |overlay.items|
    requires AllHaveIds(base) && UniqueIds(base) && AllHaveIds(overlay.items) && UniqueIds(overlay.items)
    ensures MergeItems(base, overlay, n).Ok? <==> forall i :: 0 <= i < n ==> CanTakeIn(base, overlay.items, i)
  {
    hide MergeItems, Settle, Others, UniqueIds, RemovedIds, AllHaveIds, Amounts, Ids, CanTakeIn, ItemId;
    if n > 0 {
      HasId(overlay.items, n - 1);
      TakenInIff(base, overlay, n - 1);
      MergeItemsKeeps(base, overlay, n - 1);
      OwnIsUntouched(base, overlay, n);
      MergeItemsStep(base, overlay, n);
      var before := MergeItems(base, overlay, n - 1);
      if before.Ok? { TakesInNext(base, overlay.items, n - 1, before.value); }
    } else {
      assert MergeItems(base, overlay, 0).Ok? by { NoItems(base, overlay); }
    }
  }

  lemma NoItems(base: seq<Yaml>, overlay: Yaml)
    requires overlay.Seq?
    ensures MergeItems(base, overlay, 0) == Ok(base)
  {
  }

  lemma FoundIn(base: seq<Yaml>, items: seq<Yaml>, i: nat, now: seq<Yaml>)
    requires i < |items| && ItemId(items[i]).Some?
    requires Ids(now) == Ids(base) + Ids(items[..i]) - RemovedIds(items, i)
    requires ItemId(items[i]).value !in Ids(items[..i]) && ItemId(items[i]).value !in RemovedIds(items, i)
    ensures ItemId(items[i]).value in Ids(now) <==> ItemId(items[i]).value in Ids(base)
  {
  }

  /**
   Exactly when two lists with ids merge: both have ids throughout, each once, and every overlay item can be taken in,
   that is, what it removes is there, and it names at most one neighbour, which is there in its turn.
   */
  lemma KeyedListsMergeIff(base: seq<Yaml>, overlay: Yaml)
    requires overlay.Seq?
    ensures MergeKeyed(base, overlay).Ok? <==>
              && AllHaveIds(base) && UniqueIds(base)
              && AllHaveIds(overlay.items) && UniqueIds(overlay.items)
              && forall i :: 0 <= i < |overlay.items| ==> CanTakeIn(base, overlay.items, i)
  {
    hide CanTakeIn;
    if AllHaveIds(base) && UniqueIds(base) && AllHaveIds(overlay.items) && UniqueIds(overlay.items) {
      TakenInIff(base, overlay, |overlay.items|);
      if overlay.items != [] { MergeKeyedIsExact(base, overlay); }
    }
  }

  // ----- compositions -----

  /** The entries of a node that are its own: all but those that say what it refers to. */
  predicate OwnKey(n: Node, k: Key) {
    k != Name("profiles") && (n.ContestNode? ==> k != Name("extends"))
  }

  lemma OwnEntriesAre(cat: Catalog, n: Node)
    requires Body(cat, n).Ok?
    ensures var own, body := OwnEntries(cat, n), Body(cat, n).value;
            && own.Map? && (forall k :: k in own.entries <==> k in body && OwnKey(n, k))
            && forall k :: k in own.entries ==> own.entries[k] == body[k]
  {
  }

  /** A list of names, or no list. */
  predicate NamesOnly(entries: map<Key, Yaml>, key: Key) {
    key in entries ==> entries[key].Seq? && forall i :: 0 <= i < |entries[key].items| ==> entries[key].items[i].Str?
  }

  /** A node is in order if the catalog has it as a mapping whose profiles are a list of names, and whose parent is a name. */
  lemma RefsAre(cat: Catalog, n: Node)
    ensures Refs(cat, n).Ok? <==>
              && (match n
                  case ContestNode(id) => id in cat.contests && cat.contests[id].Map?
                  case ProfileNode(id) => id in cat.profiles && cat.profiles[id].Map?)
              && NamesOnly(Body(cat, n).value, Name("profiles"))
              && (n.ContestNode? && Name("extends") in Body(cat, n).value ==> Body(cat, n).value[Name("extends")].Str?)
    ensures Refs(cat, n).Ok? ==>
              var refs, body := Refs(cat, n).value, Body(cat, n).value;
              var names := if Name("profiles") in body then body[Name("profiles")].items else [];
              var parents := if n.ContestNode? && Name("extends") in body then 1 else 0;
              && |refs| == |names| + parents
              && (forall i :: 0 <= i < |names| ==> names[i].Str? && refs[i] == ProfileNode(names[i].text))
              && (parents == 1 ==> refs[|names|] == ContestNode(body[Name("extends")].text))
  {
  }

  /** What a node says itself about a place, in a word, is what it has there. */
  lemma OwnWordWins(cat: Catalog, n: Node, stack: set<Node>, p: Path)
    requires Compose(cat, n, stack).Ok? && Body(cat, n).Ok?
    requires At(OwnEntries(cat, n), p).Some? && Scalar(At(OwnEntries(cat, n), p).value)
    ensures At(Compose(cat, n, stack).value, p) == At(OwnEntries(cat, n), p)
  {
    RefsInCatalog(cat, n);
    var inherited := ComposeRefs(cat, Refs(cat, n).value, |Refs(cat, n).value|, stack + {n}).value;
    hide Merge;
    MergeIs(inherited, OwnEntries(cat, n), p);
  }

  /** Of documents merged one over another, the last that says a word about a place has it there. */
  lemma {:induction false} LastWordWins(parts: seq<Yaml>, i: nat, p: Path)
    requires i < |parts| && Overlaid(parts).Ok?
    requires At(parts[i], p).Some? && Scalar(At(parts[i], p).value)
    requires forall j :: i < j < |parts| ==> Untouched(parts[j], p)
    ensures At(Overlaid(parts).value, p) == At(parts[i], p)
    decreases |parts|
  {
    hide Merge;
    var n := |parts| - 1;
    var below := Overlaid(parts[..n]).value;
    MergeIs(below, parts[n], p);
    if i < n {
      LastWordWins(parts[..n], i, p);
      UntouchedIsAbsent(parts[n], p);
    }
  }

  lemma {:induction false} UntouchedIsAbsent(y: Yaml, p: Path)
    requires Untouched(y, p)
    ensures At(y, p) == None
    decreases |p|
  {
    if p[0] in y.entries { UntouchedIsAbsent(y.entries[p[0]], p[1..]); }
  }

  /**
   What a node does not touch it has from the nodes it refers to: from the last of them that says a word about the
   place, a parent before the profiles, and later profiles before earlier ones.
   */
  lemma InheritedWord(cat: Catalog, n: Node, i: nat, p: Path)
    requires Compose(cat, n, {}).Ok? && Refs(cat, n).Ok? && Body(cat, n).Ok? && Untouched(OwnEntries(cat, n), p)
    requires i < |Refs(cat, n).value| && AllCompose(cat, Refs(cat, n).value)
    requires var values := Values(cat, Refs(cat, n).value);
             && At(values[i], p).Some? && Scalar(At(values[i], p).value)
             && forall j :: i < j < |values| ==> Untouched(values[j], p)
    ensures At(Compose(cat, n, {}).value, p) == At(Values(cat, Refs(cat, n).value)[i], p)
  {
    hide Refs, Merge, OwnEntries, Body, Compose, Untouched;
    var values := Values(cat, Refs(cat, n).value);
    forall m | m in Refs(cat, n).value ensures Compose(cat, m, {} + {n}).Ok? {
      assert {} + {n} == {n};
      var k :| 0 <= k < |Refs(cat, n).value| && Refs(cat, n).value[k] == m;
      ReferenceComposes(cat, n, m);
    }
    ComposeOverlays(cat, n, {});
    LastWordWins(values + [OwnEntries(cat, n)], i, p);
  }

  // ----- presets -----

  lemma GatheredAt(m: map<Key, Yaml>, presets: map<string, Yaml>, stack: set<string>, k: Key)
    requires ExpandEntries(m, presets, stack).Ok? && k in m
    ensures Expand(m[k], presets, stack).Ok?
    ensures var v := ExpandEntries(m, presets, stack).value;
            v.Map? && k in v.entries && v.entries[k] == Expand(m[k], presets, stack).value
  {
    hide Expand;
    var done := map k | k in m :: Expand(m[k], presets, stack);
    assert done[k].Ok?;
  }

  /**
   A word of a document stays where it is when presets are expanded, whatever the presets on the way to it say. Only
   the names of presets themselves disappear.
   */
  lemma {:induction false} ExpandKeepsWords(y: Yaml, presets: map<string, Yaml>, stack: set<string>, p: Path)
    requires Expand(y, presets, stack).Ok? && Name("preset") !in p
    requires At(y, p).Some? && Scalar(At(y, p).value)
    ensures At(Expand(y, presets, stack).value, p) == At(y, p)
    decreases |p|
  {
    if p == [] {
    } else {
      assert PRESET !in p[1..] && p[0] in p;
      ExpandOfMap(y.entries, presets, stack);
      hide Expand, Merge, Gathered, ExpandEntries;
      var whole := y;
      if NamesPreset(y) {
        var name := y.entries[PRESET].text;
        var preset := Expand(presets[name], presets, stack + {name}).value;
        var rest := Map(y.entries - {PRESET});
        whole := Merge(preset, rest).value;
        assert At(rest, p) == At(y, p);
        MergeIs(preset, rest, p);
      }
      GatheredAt(whole.entries, presets, stack, p[0]);
      ExpandKeepsWords(whole.entries[p[0]], presets, stack, p[1..]);
    }
  }

  /** What a mapping does not touch it has from the preset it names. */
  lemma PresetWord(y: Yaml, presets: map<string, Yaml>, stack: set<string>, p: Path)
    requires NamesPreset(y) && Expand(y, presets, stack).Ok? && Name("preset") !in p && Untouched(y, p)
    ensures var name := y.entries[PRESET].text;
            name !in stack && name in presets && Expand(presets[name], presets, stack + {name}).Ok?
    ensures var preset := Expand(presets[y.entries[PRESET].text], presets, stack + {y.entries[PRESET].text}).value;
            At(preset, p).Some? && Scalar(At(preset, p).value) ==>
              At(Expand(y, presets, stack).value, p) == At(preset, p)
  {
    ExpandOfMap(y.entries, presets, stack);
    hide Expand, Merge, Gathered, ExpandEntries;
    assert p[0] in p && PRESET !in p[1..];
    var name := y.entries[PRESET].text;
    var preset := Expand(presets[name], presets, stack + {name}).value;
    var rest := Map(y.entries - {PRESET});
    var whole := Merge(preset, rest).value;
    assert Untouched(rest, p);
    UntouchedIsAbsent(rest, p);
    MergeIs(preset, rest, p);
    if At(preset, p).Some? && Scalar(At(preset, p).value) {
      assert At(whole, p) == At(preset, p);
      GatheredAt(whole.entries, presets, stack, p[0]);
      ExpandKeepsWords(whole.entries[p[0]], presets, stack, p[1..]);
    }
  }

  // ----- why an expansion fails -----

  /** A document that is to be expanded, and the presets under expansion then. */
  datatype Visit = Visit(doc: Yaml, stack: set<string>)

  predicate Opens(presets: map<string, Yaml>, v: Visit) {
    NamesPreset(v.doc) && v.doc.entries[PRESET].text in presets && v.doc.entries[PRESET].text !in v.stack
  }

  /** The preset that a mapping names, expanded, and the rest of the mapping over it. */
  function PresetMerge(presets: map<string, Yaml>, v: Visit): Result<Yaml>
    requires Opens(presets, v)
  {
    var name := v.doc.entries[PRESET].text;
    match Expand(presets[name], presets, v.stack + {name})
    case Err => Err
    case Ok(preset) => Merge(preset, Map(v.doc.entries - {PRESET}))
  }

  predicate HasEntry(y: Yaml, part: Yaml) {
    y.Map? && exists k :: k in y.entries && y.entries[k] == part
  }

  /** Expanding the one document asks for expanding the other. */
  ghost predicate Leads(presets: map<string, Yaml>, a: Visit, b: Visit) {
    || (!NamesPreset(a.doc) && b.stack == a.stack && HasEntry(a.doc, b.doc))
    || (a.doc.Seq? && b.stack == a.stack && b.doc in a.doc.items)
    || (Opens(presets, a) &&
          var name := a.doc.entries[PRESET].text;
          b == Visit(presets[name], a.stack + {name}))
    || (Opens(presets, a) && b.stack == a.stack && PresetMerge(presets, a).Ok? && HasEntry(PresetMerge(presets, a).value, b.doc))
  }

  /** A mapping names a preset that is unknown, or under expansion, or cannot be merged with the rest of the mapping. */
  ghost predicate Stuck(presets: map<string, Yaml>, v: Visit) {
    && NamesPreset(v.doc)
    && var name := v.doc.entries[PRESET].text;
       || name in v.stack || name !in presets
       || (Expand(presets[name], presets, v.stack + {name}).Ok? && PresetMerge(presets, v).Err?)
  }

  ghost predicate IsTour(presets: map<string, Yaml>, p: seq<Visit>) {
    p != [] && forall i :: 0 <= i < |p| - 1 ==> Leads(presets, p[i], p[i + 1])
  }

  lemma TourFrom(presets: map<string, Yaml>, v: Visit, p: seq<Visit>) returns (q: seq<Visit>)
    requires IsTour(presets, p) && Leads(presets, v, p[0])
    ensures IsTour(presets, q) && q[0] == v && q[|q| - 1] == p[|p| - 1]
  {
    hide Leads;
    q := [v] + p;
    forall i | 0 <= i < |q| - 1 ensures Leads(presets, q[i], q[i + 1]) {
      if i > 0 { assert Leads(presets, p[i - 1], p[i]); }
    }
  }

  lemma FailingEntry(m: map<Key, Yaml>, presets: map<string, Yaml>, stack: set<string>) returns (k: Key)
    requires ExpandEntries(m, presets, stack).Err?
    ensures k in m && Expand(m[k], presets, stack).Err?
  {
    hide Expand;
    var done := map k | k in m :: Expand(m[k], presets, stack);
    k :| k in done && done[k].Err?;
  }

  lemma FailingItem(s: seq<Yaml>, presets: map<string, Yaml>, stack: set<string>) returns (i: nat)
    requires Expand(Seq(s), presets, stack).Err?
    ensures i < |s| && Expand(s[i], presets, stack).Err?
  {
    ExpandOfSeq(s, presets, stack);
    hide Expand;
    var done := seq(|s|, i requires 0 <= i < |s| => Expand(s[i], presets, stack));
    i :| 0 <= i < |done| && done[i].Err?;
  }

  lemma {:induction false} FailureIsStuck(y: Yaml, presets: map<string, Yaml>, stack: set<string>) returns (p: seq<Visit>)
    requires Expand(y, presets, stack).Err?
    ensures IsTour(presets, p) && p[0] == Visit(y, stack) && Stuck(presets, p[|p| - 1])
    decreases presets.Keys - stack, Depth(y), y
  {
    var v := Visit(y, stack);
    if y.Map? { ExpandOfMap(y.entries, presets, stack); }
    if y.Seq? {
      var i := FailingItem(y.items, presets, stack);
      DepthOfSeq(y, Depth(y));
      hide Expand, Depth;
      var q := FailureIsStuck(y.items[i], presets, stack);
      p := TourFrom(presets, v, q);
    } else if Stuck(presets, v) {
      p := [v];
    } else if y.Map? && !NamesPreset(y) {
      var k := FailingEntry(y.entries, presets, stack);
      DepthOfMap(y, Depth(y));
      hide Expand, Depth;
      var q := FailureIsStuck(y.entries[k], presets, stack);
      p := TourFrom(presets, v, q);
    } else {
      assert Opens(presets, v);
      var name := y.entries[PRESET].text;
      hide Depth, Merge;
      if Expand(presets[name], presets, stack + {name}).Err? {
        hide Expand;
        var q := FailureIsStuck(presets[name], presets, stack + {name});
        p := TourFrom(presets, v, q);
      } else {
        var preset := Expand(presets[name], presets, stack + {name}).value;
        var whole := Merge(preset, Map(y.entries - {PRESET})).value;
        WholeIsShallower(y, preset, whole);
        hide Expand;
        var k := FailingEntry(whole.entries, presets, stack);
        var q := FailureIsStuck(whole.entries[k], presets, stack);
        assert PresetMerge(presets, v) == Ok(whole);
        p := TourFrom(presets, v, q);
      }
    }
  }

  lemma LeadFails(presets: map<string, Yaml>, a: Visit, b: Visit)
    requires Leads(presets, a, b) && Expand(b.doc, presets, b.stack).Err?
    ensures Expand(a.doc, presets, a.stack).Err?
  {
    if a.doc.Map? { ExpandOfMap(a.doc.entries, presets, a.stack); }
    hide Expand, Merge;
    if a.doc.Seq? {
      ItemFails(a.doc.items, presets, a.stack, b.doc);
    } else {
      if !NamesPreset(a.doc) {
        EntryFails(a.doc.entries, presets, a.stack, b.doc);
      } else if PresetMerge(presets, a).Ok? && HasEntry(PresetMerge(presets, a).value, b.doc) && b.stack == a.stack {
        EntryFails(PresetMerge(presets, a).value.entries, presets, a.stack, b.doc);
      }
    }
  }

  lemma ItemFails(s: seq<Yaml>, presets: map<string, Yaml>, stack: set<string>, part: Yaml)
    requires part in s && Expand(part, presets, stack).Err?
    ensures Expand(Seq(s), presets, stack).Err?
  {
    ExpandOfSeq(s, presets, stack);
    hide Expand;
    var done := seq(|s|, i requires 0 <= i < |s| => Expand(s[i], presets, stack));
    var i :| 0 <= i < |s| && s[i] == part;
    assert done[i].Err?;
  }

  lemma EntryFails(m: map<Key, Yaml>, presets: map<string, Yaml>, stack: set<string>, part: Yaml)
    requires HasEntry(Map(m), part) && Expand(part, presets, stack).Err?
    ensures ExpandEntries(m, presets, stack).Err?
  {
    hide Expand;
    var k :| k in m && m[k] == part;
    var done := map k | k in m :: Expand(m[k], presets, stack);
    assert done[k].Err?;
  }

  lemma {:induction false} StuckTourFails(presets: map<string, Yaml>, p: seq<Visit>)
    requires IsTour(presets, p) && Stuck(presets, p[|p| - 1])
    ensures Expand(p[0].doc, presets, p[0].stack).Err?
    decreases |p|
  {
    if |p| == 1 {
      ExpandOfMap(p[0].doc.entries, presets, p[0].stack);
    } else {
      hide Leads, Stuck, Expand;
      var q := p[1..];
      forall i | 0 <= i < |q| - 1 ensures Leads(presets, q[i], q[i + 1]) {
        assert Leads(presets, p[i + 1], p[i + 2]);
      }
      StuckTourFails(presets, q);
      assert Leads(presets, p[0], p[1]);
      LeadFails(presets, p[0], p[1]);
    }
  }

  /**
   A document expands exactly if nothing it leads to is stuck: no mapping names a preset that is unknown or already
   under expansion, or whose expansion does not merge with the rest of the mapping.
   */
  lemma ExpandsIffNotStuck(y: Yaml, presets: map<string, Yaml>, stack: set<string>)
    ensures Expand(y, presets, stack).Ok? <==>
              !exists p :: IsTour(presets, p) && p[0] == Visit(y, stack) && Stuck(presets, p[|p| - 1])
  {
    hide Expand, Stuck, Leads;
    if Expand(y, presets, stack).Err? {
      var p := FailureIsStuck(y, presets, stack);
    } else {
      forall p | IsTour(presets, p) && p[0] == Visit(y, stack) ensures !Stuck(presets, p[|p| - 1]) {
        if Stuck(presets, p[|p| - 1]) { StuckTourFails(presets, p); }
      }
    }
  }
}
