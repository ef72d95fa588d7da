/**
 Expanding presets: a mapping that names a preset becomes the preset with the rest of the mapping merged
 over it. The result of a merge is not a part of the document, so termination needs a measure of its own.
 */
module ContestPresets {
  import opened Sums
  import opened ContestYaml
  import opened ContestLists

  const PRESET := Name("preset")

  predicate NamesPreset(y: Yaml) {
    y.Map? && PRESET in y.entries && y.entries[PRESET].Str?
  }

  /** No mapping, however deep, names a preset. */
  predicate Settled(y: Yaml) {
    match y
    case Map(m) => !NamesPreset(y) && forall k :: k in m ==> Settled(m[k])
    case Seq(s) => forall i :: 0 <= i < |s| ==> Settled(s[i])
    case _ => true
  }

  // ----- the measure -----

  ghost function MaxOf(s: set<nat>): nat {
    if s == {} then 0 else
      var x :| x in s;
      var m := MaxOf(s - {x});
      if x > m then x else m
  }

  lemma {:induction false} MaxBounds(s: set<nat>, n: nat)
    ensures MaxOf(s) <= n <==> forall x :: x in s ==> x <= n
    decreases s
  {
    if s != {} {
      var x :| x in s && MaxOf(s) == if x > MaxOf(s - {x}) then x else MaxOf(s - {x});
      MaxBounds(s - {x}, n);
      assert forall y :: y in s <==> y == x || y in s - {x};
    }
  }

  function OwnDepth(y: Yaml): nat {
    if NamesPreset(y) then 1 else 0
  }

  /** How many mappings on one path of a document name a preset, at most. */
  ghost function Depth(y: Yaml): nat {
    match y
    case Map(m) => OwnDepth(y) + MaxOf(set k | k in m :: Depth(m[k]))
    case Seq(s) => MaxOf(set i | 0 <= i < |s| :: Depth(s[i]))
    case _ => 0
  }

  ghost predicate EntriesWithin(entries: map<Key, Yaml>, n: int) {
    forall k :: k in entries ==> Depth(entries[k]) <= n
  }

  lemma DepthOfMap(y: Yaml, n: nat)
    requires y.Map?
    ensures Depth(y) <= n <==> OwnDepth(y) <= n && EntriesWithin(y.entries, n - OwnDepth(y))
  {
    var all := set k | k in y.entries :: Depth(y.entries[k]);
    if n >= OwnDepth(y) {
      MaxBounds(all, n - OwnDepth(y));
      hide NamesPreset;
      forall k | k in y.entries ensures Depth(y.entries[k]) in all {}
    }
  }

  lemma DepthOfSeq(y: Yaml, n: nat)
    requires y.Seq?
    ensures (forall i :: 0 <= i < |y.items| ==> Depth(y.items[i]) <= n) <==> Depth(y) <= n
  {
    var all := set i | 0 <= i < |y.items| :: Depth(y.items[i]);
    MaxBounds(all, n);
    assert Depth(y) == MaxOf(all);
    if Depth(y) <= n {
      forall i | 0 <= i < |y.items| ensures Depth(y.items[i]) <= n {
        assert Depth(y.items[i]) in all;
      }
    }
  }

  lemma {:induction false} SettledIsFlat(y: Yaml)
    ensures Settled(y) <==> Depth(y) == 0
  {
    match y
    case Map(m) =>
      DepthOfMap(y, 0);
      forall k | k in m ensures Settled(m[k]) <==> Depth(m[k]) == 0 { SettledIsFlat(m[k]); }
    case Seq(s) =>
      DepthOfSeq(y, 0);
      forall i | 0 <= i < |s| ensures Settled(s[i]) <==> Depth(s[i]) == 0 { SettledIsFlat(s[i]); }
    case _ =>
  }

  // ----- merging adds no depth but that of its parts -----

  ghost predicate Shallow(items: seq<Yaml>, n: nat) {
    forall i :: 0 <= i < |items| ==> Depth(items[i]) <= n
  }

  lemma DepthWithout(y: Yaml, skip: set<Key>)
    ensures Depth(WithoutKeys(y, skip)) <= Depth(y)
  {
    if y.Map? {
      DepthOfMap(y, Depth(y));
      DepthOfMap(WithoutKeys(y, skip), Depth(y));
    }
  }

  lemma MergedString(base: Yaml, overlay: Yaml)
    ensures Merge(base, overlay).Ok? && Merge(base, overlay).value.Str? ==> overlay.Str?
  {
  }

  lemma {:induction false} MergeDepth(base: Yaml, overlay: Yaml, skip: set<Key>)
    ensures var r := MergeBut(base, overlay, skip);
            r.Ok? ==> Depth(r.value) <= Depth(base) + Depth(overlay)
    decreases overlay, 2, 0
  {
    hide Depth, MergeBut;
    if base.Map? && overlay.Map? {
      forall k | k in base.entries && k in overlay.entries
        ensures MergeWithin(base.entries[k], overlay.entries[k])
      {
        MergeDepth(base.entries[k], overlay.entries[k], {});
      }
      if MergeBut(base, overlay, skip).Ok? {
        MapDepth(base, overlay, skip, MergeBut(base, overlay, skip).value);
      }
    } else if base.Seq? && overlay.Seq? && (IsKeyedCollection(base.items) || IsKeyedCollection(overlay.items)) {
      DepthOfSeq(base, Depth(base));
      ListDepth(base.items, overlay, Depth(base));
      ListedDepth(base, overlay, skip);
    } else {
      ReplacedDepth(base, overlay, skip);
    }
  }

  lemma ReplacedDepth(base: Yaml, overlay: Yaml, skip: set<Key>)
    requires !(base.Map? && overlay.Map?)
    requires !(base.Seq? && overlay.Seq? && (IsKeyedCollection(base.items) || IsKeyedCollection(overlay.items)))
    ensures var r := MergeBut(base, overlay, skip);
            r.Ok? && Depth(r.value) <= Depth(base) + Depth(overlay)
  {
    DepthWithout(overlay, skip);
  }

  lemma ListedDepth(base: Yaml, overlay: Yaml, skip: set<Key>)
    requires base.Seq? && overlay.Seq? && (IsKeyedCollection(base.items) || IsKeyedCollection(overlay.items))
    requires var r := MergeKeyed(base.items, overlay);
             r.Ok? ==> Shallow(r.value, Depth(base) + Depth(overlay))
    ensures var r := MergeBut(base, overlay, skip);
            r.Ok? ==> Depth(r.value) <= Depth(base) + Depth(overlay)
  {
    hide MergeKeyed, IsKeyedCollection, Depth;
    var r := MergeKeyed(base.items, overlay);
    if r.Ok? {
      DepthOfSeq(Seq(r.value), Depth(base) + Depth(overlay));
    }
  }

  ghost predicate MergeWithin(base: Yaml, overlay: Yaml) {
    var m := MergeBut(base, overlay, {});
    m.Ok? ==> Depth(m.value) <= Depth(base) + Depth(overlay)
  }

  lemma {:induction false} ListDepth(base: seq<Yaml>, overlay: Yaml, b: nat)
    requires overlay.Seq? && Shallow(base, b)
    ensures var r := MergeKeyed(base, overlay);
            r.Ok? ==> Shallow(r.value, b + Depth(overlay))
    decreases overlay, 1, 0
  {
    hide Depth, MergeItems;
    if MergeKeyed(base, overlay).Ok? && overlay.items != [] {
      ItemsDepth(base, overlay, |overlay.items|, b);
    }
  }

  lemma MapDepth(base: Yaml, overlay: Yaml, skip: set<Key>, r: Yaml)
    requires base.Map? && overlay.Map? && MergeBut(base, overlay, skip) == Ok(r)
    requires forall k :: k in base.entries && k in overlay.entries ==> MergeWithin(base.entries[k], overlay.entries[k])
    ensures Depth(r) <= Depth(base) + Depth(overlay)
  {
    DepthOfMap(base, Depth(base));
    DepthOfMap(overlay, Depth(overlay));
    MergedEntries(base, overlay, skip);
    hide Depth, MergeBut;
    DepthOfMap(r, Depth(base) + Depth(overlay));
    if NamesPreset(r) && PRESET in base.entries && PRESET in overlay.entries && PRESET !in skip {
      MergedString(base.entries[PRESET], overlay.entries[PRESET]);
    }
  }

  /** A merged mapping has the keys of both sides; each entry comes from one of them or merges both. */
  lemma MergedEntries(base: Yaml, overlay: Yaml, skip: set<Key>)
    requires base.Map? && overlay.Map? && MergeBut(base, overlay, skip).Ok?
    ensures var r := MergeBut(base, overlay, skip).value;
            && r.Map? && r.entries.Keys == base.entries.Keys + (overlay.entries.Keys - skip)
            && forall k :: k in r.entries ==>
                 if k !in overlay.entries || k in skip then r.entries[k] == base.entries[k]
                 else if k !in base.entries then r.entries[k] == overlay.entries[k]
                 else MergeBut(base.entries[k], overlay.entries[k], {}) == Ok(r.entries[k])
  {
  }

  lemma {:induction false} ItemsDepth(base: seq<Yaml>, overlay: Yaml, n: nat, b: nat)
    requires overlay.Seq? && n <= |overlay.items| && Shallow(base, b)
    requires AllHaveIds(base) && UniqueIds(base) && AllHaveIds(overlay.items) && UniqueIds(overlay.items)
    ensures var r := MergeItems(base, overlay, n);
            r.Ok? ==> Shallow(r.value, b + Depth(overlay))
    decreases overlay, 0, n
  {
    hide Depth, AllHaveIds, UniqueIds, MergeItems, Settle, Amounts, Shallow, ItemId;
    if n == 0 {
      NothingMerged(base, overlay, b);
    } else {
      HasId(overlay.items, n - 1);
      ItemsDepth(base, overlay, n - 1, b);
      OwnIsUntouched(base, overlay, n);
      var before := MergeItems(base, overlay, n - 1);
      var item := overlay.items[n - 1];
      AmountsDepth(base, overlay, n, b);
      MergeItemsStep(base, overlay, n);
      if before.Ok? {
        SettleDepth(before.value, item, Amounts(before.value, item), b + Depth(overlay));
      }
    }
  }

  lemma HasId(items: seq<Yaml>, i: nat)
    requires AllHaveIds(items) && i < |items|
    ensures ItemId(items[i]).Some?
  {
  }

  lemma NothingMerged(base: seq<Yaml>, overlay: Yaml, b: nat)
    requires overlay.Seq? && Shallow(base, b)
    ensures MergeItems(base, overlay, 0) == Ok(base) && Shallow(base, b + Depth(overlay))
  {
    hide Depth;
  }

  lemma {:induction false} AmountsDepth(base: seq<Yaml>, overlay: Yaml, n: nat, b: nat)
    requires overlay.Seq? && 0 < n <= |overlay.items| && Shallow(base, b) && AllHaveIds(overlay.items)
    ensures var r := Amounts(base, overlay.items[n - 1]);
            r.Ok? ==> Depth(r.value) <= b + Depth(overlay)
    decreases overlay, 0, n, 0
  {
    var item := overlay.items[n - 1];
    DepthOfSeq(overlay, Depth(overlay));
    hide Depth, MergeBut;
    var found := Lookup(base, ItemId(item).value);
    if found.Some? {
      assert found.value == base[Position(base, ItemId(item).value).value];
      MergeDepth(found.value, item, CONTROL);
    } else {
      DepthWithout(item, CONTROL);
    }
  }

  lemma SettleDepth(items: seq<Yaml>, item: Yaml, merged: Result<Yaml>, n: nat)
    requires ItemId(item).Some? && Shallow(items, n) && (merged.Ok? ==> Depth(merged.value) <= n)
    ensures var r := Settle(items, item, merged);
            r.Ok? ==> Shallow(r.value, n)
  {
    hide Depth;
  }

  // ----- expanding -----

  /** One failing part fails the whole. */
  function Gathered(done: map<Key, Result<Yaml>>): Result<Yaml> {
    if exists k :: k in done && done[k].Err? then Err
    else Ok(Map(map k | k in done :: done[k].value))
  }

  function GatheredItems(done: seq<Result<Yaml>>): Result<Yaml> {
    if exists i :: 0 <= i < |done| && done[i].Err? then Err
    else Ok(Seq(seq(|done|, i requires 0 <= i < |done| => done[i].value)))
  }

  /** Expands the presets of a document; `stack` holds the presets under expansion. */
  function Expand(y: Yaml, presets: map<string, Yaml>, stack: set<string>): (r: Result<Yaml>)
    ensures r.Ok? ==> Settled(r.value)
    ensures r.Ok? && y.Map? ==> r.value.Map?
    ensures r.Ok? && !y.Str? ==> !r.value.Str?
    decreases presets.Keys - stack, Depth(y), y
  {
    match y
    case Map(m) =>
      if NamesPreset(y) then
        var name := m[PRESET].text;
        if name in stack || name !in presets then Err else
          match Expand(presets[name], presets, stack + {name})
          case Err => Err
          case Ok(preset) =>
            match Merge(preset, Map(m - {PRESET}))
            case Err => Err
            case Ok(whole) =>
              WholeIsShallower(y, preset, whole);
              var done := map k | k in whole.entries :: Expand(whole.entries[k], presets, stack);
              Gathered(done)
      else
        DepthOfMap(y, Depth(y));
        var done := map k | k in m :: Expand(m[k], presets, stack);
        Gathered(done)
    case Seq(s) =>
      DepthOfSeq(y, Depth(y));
      var done := seq(|s|, i requires 0 <= i < |s| => Expand(s[i], presets, stack));
      GatheredItems(done)
    case _ => Ok(y)
  }

  /** Merging a mapping, without the preset it names, over the expanded preset leaves less depth. */
  lemma WholeIsShallower(y: Yaml, preset: Yaml, whole: Yaml)
    requires NamesPreset(y) && Settled(preset) && Merge(preset, Map(y.entries - {PRESET})) == Ok(whole)
    ensures whole.Map? && !NamesPreset(whole)
    ensures forall k :: k in whole.entries ==> Depth(whole.entries[k]) < Depth(y)
  {
    var rest := Map(y.entries - {PRESET});
    SettledIsFlat(preset);
    MergeDepth(preset, rest, {});
    WholeMap(preset, rest, whole);
    hide Depth, MergeBut, Settled;
    DepthOfMap(y, Depth(y));
    DepthOfMap(rest, Depth(y) - 1);
    DepthOfMap(whole, Depth(y) - 1);
  }

  lemma WholeMap(preset: Yaml, rest: Yaml, whole: Yaml)
    requires rest.Map? && PRESET !in rest.entries && Settled(preset) && Merge(preset, rest) == Ok(whole)
    ensures whole.Map? && !NamesPreset(whole)
  {
    if preset.Map? {
      MergedEntries(preset, rest, {});
    }
  }

  /** A document without preset names is its own expansion. */
  lemma {:induction false} SettledStays(y: Yaml, presets: map<string, Yaml>, stack: set<string>)
    requires Settled(y)
    ensures Expand(y, presets, stack) == Ok(y)
    decreases y
  {
    match y
    case Map(m) =>
      forall k | k in m ensures Expand(m[k], presets, stack) == Ok(m[k]) {
        SettledStays(m[k], presets, stack);
      }
      MapStays(m, presets, stack);
    case Seq(s) =>
      forall i | 0 <= i < |s| ensures Expand(s[i], presets, stack) == Ok(s[i]) {
        SettledStays(s[i], presets, stack);
      }
      SeqStays(s, presets, stack);
    case _ =>
  }

  lemma MapStays(m: map<Key, Yaml>, presets: map<string, Yaml>, stack: set<string>)
    requires !NamesPreset(Map(m)) && forall k :: k in m ==> Expand(m[k], presets, stack) == Ok(m[k])
    ensures Expand(Map(m), presets, stack) == Ok(Map(m))
  {
    hide Settled, Depth;
    var done := map k | k in m :: Expand(m[k], presets, stack);
    assert (map k | k in done :: done[k].value) == m;
  }

  lemma SeqStays(s: seq<Yaml>, presets: map<string, Yaml>, stack: set<string>)
    requires forall i :: 0 <= i < |s| ==> Expand(s[i], presets, stack) == Ok(s[i])
    ensures Expand(Seq(s), presets, stack) == Ok(Seq(s))
  {
    hide Settled, Depth;
    var done := seq(|s|, i requires 0 <= i < |s| => Expand(s[i], presets, stack));
    assert seq(|s|, i requires 0 <= i < |s| => done[i].value) == s;
  }

  /** A successful expansion names no preset any more, and expanding it again changes nothing. */
  lemma ExpandIsFinal(y: Yaml, presets: map<string, Yaml>, stack: set<string>, again: set<string>)
    ensures var r := Expand(y, presets, stack);
            r.Ok? ==> Settled(r.value) && Expand(r.value, presets, again) == r
  {
    if Expand(y, presets, stack).Ok? {
      SettledStays(Expand(y, presets, stack).value, presets, again);
    }
  }

  /** The entries of a mapping, each expanded. */
  function ExpandEntries(m: map<Key, Yaml>, presets: map<string, Yaml>, stack: set<string>): Result<Yaml> {
    Gathered(map k | k in m :: Expand(m[k], presets, stack))
  }

  lemma ExpandOfMap(m: map<Key, Yaml>, presets: map<string, Yaml>, stack: set<string>)
    ensures Expand(Map(m), presets, stack) ==
            if !NamesPreset(Map(m)) then ExpandEntries(m, presets, stack)
            else if m[PRESET].text in stack || m[PRESET].text !in presets then Err
            else match Expand(presets[m[PRESET].text], presets, stack + {m[PRESET].text})
                 case Err => Err
                 case Ok(preset) =>
                   (match Merge(preset, Map(m - {PRESET}))
                    case Err => Err
                    case Ok(whole) => if whole.Map? then ExpandEntries(whole.entries, presets, stack) else Err)
  {
    hide Settled, Depth, Merge, Gathered;
    if NamesPreset(Map(m)) && m[PRESET].text !in stack && m[PRESET].text in presets {
      var preset := Expand(presets[m[PRESET].text], presets, stack + {m[PRESET].text});
      if preset.Ok? && Merge(preset.value, Map(m - {PRESET})).Ok? {
        WholeIsShallower(Map(m), preset.value, Merge(preset.value, Map(m - {PRESET})).value);
      }
    }
  }

  lemma ExpandOfSeq(s: seq<Yaml>, presets: map<string, Yaml>, stack: set<string>)
    ensures Expand(Seq(s), presets, stack) ==
            GatheredItems(seq(|s|, i requires 0 <= i < |s| => Expand(s[i], presets, stack)))
  {
    hide Settled, Depth, GatheredItems;
    var done := seq(|s|, i requires 0 <= i < |s| => Expand(s[i], presets, stack));
    assert Expand(Seq(s), presets, stack) == GatheredItems(done);
  }

  /** Being under fewer presets changes nothing about a document that expands. */
  lemma {:induction false} FewerPresets(y: Yaml, presets: map<string, Yaml>, stack: set<string>, fewer: set<string>)
    requires fewer <= stack && Expand(y, presets, stack).Ok?
    ensures Expand(y, presets, fewer) == Expand(y, presets, stack)
    decreases presets.Keys - stack, Depth(y), y
  {
    PartsExpand(y, presets, stack);
    hide Expand, Merge, Settled, Gathered;
    match y
    case Map(m) =>
      ExpandOfMap(m, presets, stack);
      ExpandOfMap(m, presets, fewer);
      if NamesPreset(y) {
        var name := m[PRESET].text;
        FewerPresets(presets[name], presets, stack + {name}, fewer + {name});
        var preset := Expand(presets[name], presets, stack + {name}).value;
        var whole := Merge(preset, Map(m - {PRESET})).value;
        WholeIsShallower(y, preset, whole);
        forall k | k in whole.entries ensures Expand(whole.entries[k], presets, fewer) == Expand(whole.entries[k], presets, stack) {
          FewerPresets(whole.entries[k], presets, stack, fewer);
        }
        SameEntries(whole.entries, presets, stack, fewer);
      } else {
        DepthOfMap(y, Depth(y));
        forall k | k in m ensures Expand(m[k], presets, fewer) == Expand(m[k], presets, stack) {
          FewerPresets(m[k], presets, stack, fewer);
        }
        SameEntries(m, presets, stack, fewer);
      }
    case Seq(s) =>
      DepthOfSeq(y, Depth(y));
      forall i | 0 <= i < |s| ensures Expand(s[i], presets, fewer) == Expand(s[i], presets, stack) {
        FewerPresets(s[i], presets, stack, fewer);
      }
      SameItems(s, presets, stack, fewer);
    case _ => ScalarsStay(y, presets, stack, fewer);
  }

  lemma ScalarsStay(y: Yaml, presets: map<string, Yaml>, stack: set<string>, fewer: set<string>)
    requires !y.Map? && !y.Seq?
    ensures Expand(y, presets, fewer) == Expand(y, presets, stack)
  {
  }

  lemma PartsExpand(y: Yaml, presets: map<string, Yaml>, stack: set<string>)
    requires Expand(y, presets, stack).Ok?
    ensures y.Seq? ==> forall i :: 0 <= i < |y.items| ==> Expand(y.items[i], presets, stack).Ok?
    ensures y.Map? && !NamesPreset(y) ==> EntriesExpand(y.entries, presets, stack)
    ensures NamesPreset(y) ==>
              var name := y.entries[PRESET].text;
              && name !in stack && name in presets && Expand(presets[name], presets, stack + {name}).Ok?
              && var merged := Merge(Expand(presets[name], presets, stack + {name}).value, Map(y.entries - {PRESET}));
                 merged.Ok? && merged.value.Map? && EntriesExpand(merged.value.entries, presets, stack)
  {
    hide Settled, Depth, Merge;
    if y.Seq? {
      ExpandOfSeq(y.items, presets, stack);
      var done := seq(|y.items|, i requires 0 <= i < |y.items| => Expand(y.items[i], presets, stack));
      forall i | 0 <= i < |y.items| ensures Expand(y.items[i], presets, stack).Ok? {
        assert done[i].Ok?;
      }
    } else if y.Map? {
      ExpandOfMap(y.entries, presets, stack);
      hide Expand, EntriesExpand, ExpandEntries;
      if NamesPreset(y) {
        var name := y.entries[PRESET].text;
        var merged := Merge(Expand(presets[name], presets, stack + {name}).value, Map(y.entries - {PRESET}));
        AllExpand(merged.value.entries, presets, stack);
      } else {
        AllExpand(y.entries, presets, stack);
      }
    }
  }

  lemma AllExpand(m: map<Key, Yaml>, presets: map<string, Yaml>, stack: set<string>)
    requires ExpandEntries(m, presets, stack).Ok?
    ensures EntriesExpand(m, presets, stack)
  {
    hide Expand;
    var done := map k | k in m :: Expand(m[k], presets, stack);
    forall k | k in m ensures Expand(m[k], presets, stack).Ok? {
      assert done[k].Ok?;
    }
  }

  predicate EntriesExpand(m: map<Key, Yaml>, presets: map<string, Yaml>, stack: set<string>) {
    forall k :: k in m ==> Expand(m[k], presets, stack).Ok?
  }

  lemma SameEntries(m: map<Key, Yaml>, presets: map<string, Yaml>, stack: set<string>, fewer: set<string>)
    requires forall k :: k in m ==> Expand(m[k], presets, fewer) == Expand(m[k], presets, stack)
    ensures ExpandEntries(m, presets, fewer) == ExpandEntries(m, presets, stack)
  {
    hide Expand, Gathered;
    assert (map k | k in m :: Expand(m[k], presets, fewer)) == (map k | k in m :: Expand(m[k], presets, stack));
  }

  lemma SameItems(s: seq<Yaml>, presets: map<string, Yaml>, stack: set<string>, fewer: set<string>)
    requires forall i :: 0 <= i < |s| ==> Expand(s[i], presets, fewer) == Expand(s[i], presets, stack)
    ensures Expand(Seq(s), presets, fewer) == Expand(Seq(s), presets, stack)
  {
    ExpandOfSeq(s, presets, stack);
    ExpandOfSeq(s, presets, fewer);
    hide Expand, GatheredItems;
    assert seq(|s|, i requires 0 <= i < |s| => Expand(s[i], presets, fewer)) ==
           seq(|s|, i requires 0 <= i < |s| => Expand(s[i], presets, stack));
  }
}
