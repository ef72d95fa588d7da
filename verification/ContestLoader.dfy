/** Composing all contests with a memory of finished values, and the loop that merges keyed lists. */
module ContestLoader {
  import opened Sums
  import opened ContestYaml
  import opened ContestLists
  import opened ContestPresets
  import opened ContestCompose

  // ----- keyed lists -----

  /** Takes the overlay items into the base list one by one. */
  method MergeKeyedCollection(base: seq<Yaml>, overlay: Yaml) returns (r: Result<seq<Yaml>>)
    requires overlay.Seq?
    ensures r == MergeKeyed(base, overlay)
  {
    hide MergeBut, Settle;
    if !AllHaveIds(base) || !AllHaveIds(overlay.items) {
      return Err;
    }
    if !UniqueIds(base) || !UniqueIds(overlay.items) {
      return Err;
    }
    if overlay.items == [] {
      return Ok([]);
    }
    var items := base;
    for n := 0 to |overlay.items|
      invariant MergeItems(base, overlay, n) == Ok(items)
    {
      var item := overlay.items[n];
      MergeItemsStep(base, overlay, n + 1);
      FailureStays(base, overlay, n + 1, |overlay.items|);
      var next := TakeIn(items, item);
      if next.Err? {
        return Err;
      }
      items := next.value;
    }
    if !UniqueIds(items) {
      return Err;
    }
    return Ok(items);
  }

  lemma {:induction false} FailureStays(base: seq<Yaml>, overlay: Yaml, n: nat, m: nat)
    requires overlay.Seq? && n <= m <= |overlay.items|
    ensures MergeItems(base, overlay, n).Err? ==> MergeItems(base, overlay, m).Err?
    decreases m
  {
    hide MergeBut, Settle;
    if n < m {
      FailureStays(base, overlay, n, m - 1);
    }
  }

  /** Removes, replaces or adds one item, in the place it asks for. */
  method TakeIn(base: seq<Yaml>, item: Yaml) returns (r: Result<seq<Yaml>>)
    requires ItemId(item).Some?
    ensures r == Settle(base, item, Amounts(base, item))
  {
    hide MergeBut;
    var items := base;
    var position := Position(items, ItemId(item).value);
    if Removes(item) {
      if position.None? {
        return Err;
      }
      items := items[..position.value] + items[position.value + 1..];
      return Ok(items);
    }
    var before := OptionalString(item.entries, BEFORE);
    var after := OptionalString(item.entries, AFTER);
    if before.Err? || after.Err? || (before.value.Some? && after.value.Some?) {
      return Err;
    }
    var merged := Ok(WithoutKeys(item, CONTROL));
    if position.Some? {
      merged := MergeBut(items[position.value], item, CONTROL);
      if merged.Err? {
        return Err;
      }
      items := items[..position.value] + items[position.value + 1..];
    }
    var target;
    if before.value.Some? {
      var found := Position(items, before.value.value);
      if found.None? {
        return Err;
      }
      target := found.value;
    } else if after.value.Some? {
      var found := Position(items, after.value.value);
      if found.None? {
        return Err;
      }
      target := found.value + 1;
    } else if position.Some? && position.value < |items| {
      target := position.value;
    } else {
      target := |items|;
    }
    items := items[..target] + [merged.value] + items[target..];
    return Ok(items);
  }

  // ----- composition with memory -----

  /** Only finished values are remembered. */
  ghost predicate ContestsOk(cat: Catalog, cache: map<string, Yaml>) {
    forall id :: id in cache ==> Compose(cat, ContestNode(id), {}) == Ok(cache[id])
  }

  ghost predicate ProfilesOk(cat: Catalog, cache: map<string, Yaml>) {
    forall id :: id in cache ==> Compose(cat, ProfileNode(id), {}) == Ok(cache[id])
  }

  /** A result that memory may have helped with says the same as composing afresh. */
  ghost predicate Agrees(cat: Catalog, n: Node, stack: seq<Node>, r: Result<Yaml>) {
    && (r.Ok? ==> Compose(cat, n, {}) == r)
    && (r.Err? ==> Compose(cat, n, SetOf(stack)).Err?)
  }

  /** The value merged from the first k references, alone under n and under the whole stack. */
  ghost predicate Inherits(cat: Catalog, n: Node, refs: seq<Node>, k: nat, stack: seq<Node>, value: Yaml)
    requires k <= |refs|
  {
    && ComposeRefs(cat, refs, k, {n}) == Ok(value)
    && (ComposeRefs(cat, refs, k, SetOf(stack) + {n}).Ok? ==> ComposeRefs(cat, refs, k, SetOf(stack) + {n}) == Ok(value))
  }

  lemma InheritsNothing(cat: Catalog, n: Node, refs: seq<Node>, stack: seq<Node>)
    ensures Inherits(cat, n, refs, 0, stack, Map(map[]))
  {
  }

  /** One more reference, resolved with the help of memory. */
  lemma InheritsNext(cat: Catalog, n: Node, refs: seq<Node>, k: nat, stack: seq<Node>, value: Yaml, r: Result<Yaml>)
    requires Refs(cat, n) == Ok(refs) && k < |refs|
    requires Inherits(cat, n, refs, k, stack, value) && Agrees(cat, refs[k], stack + [n], r)
    ensures r.Err? || Merge(value, r.value).Err? ==> ComposeRefs(cat, refs, k + 1, SetOf(stack) + {n}).Err?
    ensures r.Ok? && Merge(value, r.value).Ok? ==> Inherits(cat, n, refs, k + 1, stack, Merge(value, r.value).value)
  {
    var all := SetOf(stack) + {n};
    assert SetOf(stack + [n]) == all;
    assert RefersTo(cat, n, refs[k]);
    hide Compose, Merge, RefersTo, Refs;
    if r.Ok? {
      ReferenceComposes(cat, n, refs[k]);
      if Compose(cat, refs[k], all).Ok? {
        FewerNodes(cat, refs[k], all, {});
      }
    }
  }

  lemma {:induction false} FailedReference(cat: Catalog, refs: seq<Node>, k: nat, m: nat, stack: set<Node>)
    requires k <= m <= |refs| && ComposeRefs(cat, refs, k, stack).Err?
    ensures ComposeRefs(cat, refs, m, stack).Err?
    decreases m
  {
    hide Compose, Merge;
    if k < m {
      FailedReference(cat, refs, k, m - 1, stack);
    }
  }

  lemma FailedNode(cat: Catalog, n: Node, refs: seq<Node>, k: nat, stack: seq<Node>)
    requires Refs(cat, n) == Ok(refs) && k <= |refs| && ComposeRefs(cat, refs, k, SetOf(stack) + {n}).Err?
    ensures Compose(cat, n, SetOf(stack)).Err?
  {
    FailedReference(cat, refs, k, |refs|, SetOf(stack) + {n});
    hide Merge;
  }

  lemma FinishedNode(cat: Catalog, n: Node, refs: seq<Node>, stack: seq<Node>, value: Yaml)
    requires Refs(cat, n) == Ok(refs) && Inherits(cat, n, refs, |refs|, stack, value) && Body(cat, n).Ok?
    ensures Agrees(cat, n, stack, Merge(value, OwnEntries(cat, n)))
  {
    hide Merge, Refs, ComposeRefs;
    assert {} + {n} == {n};
  }

  /** Composes a profile; the values of finished profiles are kept in the cache. */
  method ComposeProfile(cat: Catalog, id: string, cache: map<string, Yaml>, stack: seq<Node>)
    returns (r: Result<Yaml>, after: map<string, Yaml>)
    requires ProfilesOk(cat, cache)
    ensures ProfilesOk(cat, after) && Agrees(cat, ProfileNode(id), stack, r)
    decreases Nodes(cat) - SetOf(stack)
  {
    hide Compose, Merge, Inherits, ComposeRefs;
    after := cache;
    if id in cache {
      return Ok(cache[id]), after;
    }
    var n := ProfileNode(id);
    Rejection(cat, n, stack);
    if n in stack || Refs(cat, n).Err? {
      return Err, after;
    }
    RefsInCatalog(cat, n);
    Pushed(stack, n);
    var refs := Refs(cat, n).value;
    ProfileRefs(cat, id);
    hide Refs, Agrees, ProfilesOk;
    var value := Map(map[]);
    InheritsNothing(cat, n, refs, stack);
    for k := 0 to |refs|
      invariant ProfilesOk(cat, after) && Inherits(cat, n, refs, k, stack, value)
    {
      var resolved;
      resolved, after := ComposeProfile(cat, refs[k].id, after, stack + [n]);
      InheritsNext(cat, n, refs, k, stack, value, resolved);
      var merged := if resolved.Ok? then Merge(value, resolved.value) else Err;
      if merged.Err? {
        FailedNode(cat, n, refs, k + 1, stack);
        AgreesOnFailure(cat, n, stack);
        return Err, after;
      }
      value := merged.value;
    }
    FinishedNode(cat, n, refs, stack, value);
    r := Merge(value, OwnEntries(cat, n));
    if r.Ok? {
      RememberProfile(cat, after, id, stack, r);
      after := after[id := r.value];
    }
  }

  lemma RememberProfile(cat: Catalog, cache: map<string, Yaml>, id: string, stack: seq<Node>, r: Result<Yaml>)
    requires ProfilesOk(cat, cache) && r.Ok? && Agrees(cat, ProfileNode(id), stack, r)
    ensures ProfilesOk(cat, cache[id := r.value])
  {
    hide Compose;
  }

  lemma RememberContest(cat: Catalog, cache: map<string, Yaml>, id: string, stack: seq<Node>, r: Result<Yaml>)
    requires ContestsOk(cat, cache) && r.Ok? && Agrees(cat, ContestNode(id), stack, r)
    ensures ContestsOk(cat, cache[id := r.value])
  {
    hide Compose;
  }

  lemma AgreesOnFailure(cat: Catalog, n: Node, stack: seq<Node>)
    requires Compose(cat, n, SetOf(stack)).Err?
    ensures Agrees(cat, n, stack, Err)
  {
  }

  lemma Rejection(cat: Catalog, n: Node, stack: seq<Node>)
    ensures n in stack || Refs(cat, n).Err? ==> Compose(cat, n, SetOf(stack)).Err?
  {
  }

  lemma Pushed(stack: seq<Node>, n: Node)
    ensures SetOf(stack + [n]) == SetOf(stack) + {n}
  {
  }

  lemma ProfileRefs(cat: Catalog, id: string)
    requires Refs(cat, ProfileNode(id)).Ok?
    ensures forall i :: 0 <= i < |Refs(cat, ProfileNode(id)).value| ==> Refs(cat, ProfileNode(id)).value[i].ProfileNode?
  {
  }

  /** Composes a contest. Each of its profiles is composed with a memory of its own. */
  method ComposeContest(cat: Catalog, id: string, cache: map<string, Yaml>, stack: seq<Node>)
    returns (r: Result<Yaml>, after: map<string, Yaml>)
    requires ContestsOk(cat, cache)
    ensures ContestsOk(cat, after) && Agrees(cat, ContestNode(id), stack, r)
    ensures cache.Keys <= after.Keys <= cache.Keys + cat.contests.Keys
    decreases Nodes(cat) - SetOf(stack)
  {
    hide Compose, Merge, Inherits, ComposeRefs, ProfilesOk;
    after := cache;
    if id in cache {
      return Ok(cache[id]), after;
    }
    var n := ContestNode(id);
    Rejection(cat, n, stack);
    if n in stack || Refs(cat, n).Err? {
      return Err, after;
    }
    RefsInCatalog(cat, n);
    Pushed(stack, n);
    var refs := Refs(cat, n).value;
    assert id in cat.contests;
    NoProfiles(cat);
    hide Refs, Agrees, ContestsOk;
    var value := Map(map[]);
    InheritsNothing(cat, n, refs, stack);
    for k := 0 to |refs|
      invariant ContestsOk(cat, after) && Inherits(cat, n, refs, k, stack, value)
      invariant cache.Keys <= after.Keys <= cache.Keys + cat.contests.Keys
    {
      var resolved;
      if refs[k].ProfileNode? {
        var own;
        resolved, own := ComposeProfile(cat, refs[k].id, map[], stack + [n]);
      } else {
        resolved, after := ComposeContest(cat, refs[k].id, after, stack + [n]);
      }
      InheritsNext(cat, n, refs, k, stack, value, resolved);
      var merged := if resolved.Ok? then Merge(value, resolved.value) else Err;
      if merged.Err? {
        FailedNode(cat, n, refs, k + 1, stack);
        AgreesOnFailure(cat, n, stack);
        return Err, after;
      }
      value := merged.value;
    }
    FinishedNode(cat, n, refs, stack, value);
    r := Merge(value, OwnEntries(cat, n));
    if r.Ok? {
      RememberContest(cat, after, id, stack, r);
      after := after[id := r.value];
    }
  }

  lemma NoProfiles(cat: Catalog)
    ensures ProfilesOk(cat, map[])
  {
  }

  /**
   Composes the contests of a catalog in any order with one memory: each gets the value it has by
   itself, and the whole fails exactly if one of them does.
   */
  method ComposeContests(cat: Catalog, order: seq<string>) returns (r: Result<map<string, Yaml>>)
    requires forall id :: id in order <==> id in cat.contests
    ensures r.Ok? <==> forall id :: id in cat.contests ==> Compose(cat, ContestNode(id), {}).Ok?
    ensures r.Ok? ==> r.value.Keys == cat.contests.Keys
                      && forall id :: id in r.value ==> Compose(cat, ContestNode(id), {}) == Ok(r.value[id])
  {
    hide Compose;
    var composed: map<string, Yaml> := map[];
    for i := 0 to |order|
      invariant ContestsOk(cat, composed) && composed.Keys <= cat.contests.Keys
      invariant forall j :: 0 <= j < i ==> order[j] in composed
    {
      var value;
      value, composed := ComposeContest(cat, order[i], composed, []);
      assert SetOf([]) == {};
      if value.Err? {
        assert order[i] in cat.contests;
        return Err;
      }
      composed := composed[order[i] := value.value];
    }
    return Ok(composed);
  }

  predicate Unresolvable(cat: Catalog, presets: map<string, Yaml>, id: string) {
    var composed := Compose(cat, ContestNode(id), {});
    composed.Err? || Expand(composed.value, presets, {}).Err?
  }

  /** Composes every contest and then expands the presets of each. */
  method ResolveContests(cat: Catalog, presets: map<string, Yaml>, order: seq<string>)
    returns (r: Result<map<string, Yaml>>)
    requires forall id :: id in order <==> id in cat.contests
    ensures r.Ok? ==> r.value.Keys == cat.contests.Keys
    ensures r.Ok? ==> forall id :: id in r.value ==>
              var composed := Compose(cat, ContestNode(id), {});
              && composed.Ok? && Expand(composed.value, presets, {}) == Ok(r.value[id])
    ensures r.Err? ==> exists id :: id in cat.contests && Unresolvable(cat, presets, id)
  {
    hide Compose, Expand;
    var composed := ComposeContests(cat, order);
    if composed.Err? {
      return Err;
    }
    var contests: map<string, Yaml> := map[];
    for i := 0 to |order|
      invariant contests.Keys <= cat.contests.Keys
      invariant forall j :: 0 <= j < i ==> order[j] in contests
      invariant forall id :: id in contests ==> Expand(composed.value[id], presets, {}) == Ok(contests[id])
    {
      var id := order[i];
      assert id in order;
      var expanded := Expand(composed.value[id], presets, {});
      if expanded.Err? {
        return Err;
      }
      contests := contests[id := expanded.value];
    }
    return Ok(contests);
  }
}
