/** Deep merging of contest-rules documents, and merging of lists whose items carry ids. */
module ContestYaml {
  import opened Sums

  datatype Key = Name(text: string) | OtherKey(text: string)

  /** A document. Plain stands for the numbers and nulls that composition only passes on. */
  datatype Yaml =
    | Str(text: string)
    | Bool(value: bool)
    | Plain(text: string)
    | Seq(items: seq<Yaml>)
    | Map(entries: map<Key, Yaml>)

  datatype Result<+T> = Ok(value: T) | Err

  const ID := Name("id")
  const REMOVE := Name("remove")
  const BEFORE := Name("before")
  const AFTER := Name("after")

  /** The keys that tell a merge what to do with an item, and do not belong to the item. */
  const CONTROL: set<Key> := {REMOVE, BEFORE, AFTER}

  function ItemId(y: Yaml): Option<string> {
    if y.Map? && ID in y.entries && y.entries[ID].Str? then Some(y.entries[ID].text) else None
  }

  predicate AllHaveIds(items: seq<Yaml>) {
    forall i :: 0 <= i < |items| ==> ItemId(items[i]).Some?
  }

  predicate IsKeyedCollection(items: seq<Yaml>) {
    items != [] && AllHaveIds(items)
  }

  predicate UniqueIds(items: seq<Yaml>) {
    forall i, j :: 0 <= i < j < |items| && ItemId(items[i]).Some? ==> ItemId(items[i]) != ItemId(items[j])
  }

  function Position(items: seq<Yaml>, id: string): (r: Option<nat>)
    ensures r.Some? ==> r.value < |items| && ItemId(items[r.value]) == Some(id)
                        && forall j :: 0 <= j < r.value ==> ItemId(items[j]) != Some(id)
    ensures r.None? ==> forall j :: 0 <= j < |items| ==> ItemId(items[j]) != Some(id)
  {
    if items == [] then None else
      match Position(items[..|items| - 1], id)
      case Some(p) => Some(p)
      case None => if ItemId(items[|items| - 1]) == Some(id) then Some(|items| - 1) else None
  }

  function OptionalString(entries: map<Key, Yaml>, key: Key): Result<Option<string>> {
    if key !in entries then Ok(None)
    else if entries[key].Str? then Ok(Some(entries[key].text))
    else Err
  }

  predicate Removes(item: Yaml) {
    item.Map? && REMOVE in item.entries && item.entries[REMOVE] == Bool(true)
  }

  function WithoutKeys(y: Yaml, skip: set<Key>): Yaml {
    if y.Map? then Map(y.entries - skip) else y
  }

  function TakeOut(items: seq<Yaml>, at: nat): seq<Yaml>
    requires at < |items|
  {
    items[..at] + items[at + 1..]
  }

  function PutIn(items: seq<Yaml>, at: nat, item: Yaml): seq<Yaml>
    requires at <= |items|
  {
    items[..at] + [item] + items[at..]
  }

  /** Where an item goes among the others; nowhere if the named neighbour is unknown. */
  function Target(rest: seq<Yaml>, before: Option<string>, after: Option<string>, position: Option<nat>): (r: Option<nat>)
    ensures r.Some? ==> r.value <= |rest|
  {
    if before.Some? then Position(rest, before.value)
    else if after.Some? then
      (match Position(rest, after.value)
       case None => None
       case Some(p) => Some(p + 1))
    else if position.Some? then Some(if position.value < |rest| then position.value else |rest|)
    else Some(|rest|)
  }

  /** Takes one overlay item into a list; `merged` is what the item amounts to there. */
  function Settle(items: seq<Yaml>, item: Yaml, merged: Result<Yaml>): Result<seq<Yaml>>
    requires ItemId(item).Some?
  {
    var position := Position(items, ItemId(item).value);
    if Removes(item) then
      if position.None? then Err else Ok(TakeOut(items, position.value))
    else
      var before := OptionalString(item.entries, BEFORE);
      var after := OptionalString(item.entries, AFTER);
      if before.Err? || after.Err? || (before.value.Some? && after.value.Some?) || merged.Err? then Err else
        var rest := if position.Some? then TakeOut(items, position.value) else items;
        match Target(rest, before.value, after.value, position)
        case None => Err
        case Some(at) => Ok(PutIn(rest, at, merged.value))
  }

  /** Merges a document over another; keys in `skip` of the overlay do not count. */
  function MergeBut(base: Yaml, overlay: Yaml, skip: set<Key>): Result<Yaml>
    decreases overlay, 2, 0
  {
    if base.Map? && overlay.Map? then
      var merged := map k | k in overlay.entries && k !in skip ::
        if k in base.entries then MergeBut(base.entries[k], overlay.entries[k], {}) else Ok(overlay.entries[k]);
      if exists k :: k in merged && merged[k].Err? then Err
      else Ok(Map(base.entries + map k | k in merged :: merged[k].value))
    else if base.Seq? && overlay.Seq? && (IsKeyedCollection(base.items) || IsKeyedCollection(overlay.items)) then
      match MergeKeyed(base.items, overlay)
      case Err => Err
      case Ok(items) => Ok(Seq(items))
    else Ok(WithoutKeys(overlay, skip))
  }

  function Merge(base: Yaml, overlay: Yaml): Result<Yaml> {
    MergeBut(base, overlay, {})
  }

  function MergeKeyed(base: seq<Yaml>, overlay: Yaml): Result<seq<Yaml>>
    requires overlay.Seq?
    decreases overlay, 1, 0
  {
    if !AllHaveIds(base) || !AllHaveIds(overlay.items) then Err
    else if !UniqueIds(base) || !UniqueIds(overlay.items) then Err
    else if overlay.items == [] then Ok([])
    else match MergeItems(base, overlay, |overlay.items|)
         case Err => Err
         case Ok(items) => if UniqueIds(items) then Ok(items) else Err
  }

  /** The list after the first n overlay items. */
  function MergeItems(base: seq<Yaml>, overlay: Yaml, n: nat): Result<seq<Yaml>>
    requires overlay.Seq? && n <= |overlay.items|
    decreases overlay, 0, n
  {
    if n == 0 then Ok(base) else
      match MergeItems(base, overlay, n - 1)
      case Err => Err
      case Ok(items) =>
        var item := overlay.items[n - 1];
        if ItemId(item).None? then Err else
          var position := Position(items, ItemId(item).value);
          Settle(items, item, if position.Some? then MergeBut(items[position.value], item, CONTROL)
                              else Ok(WithoutKeys(item, CONTROL)))
  }
}

/** What merging keyed lists preserves. */
module ContestLists {
  import opened Sums
  import opened ContestYaml

  function Ids(items: seq<Yaml>): set<string> {
    set i | 0 <= i < |items| && ItemId(items[i]).Some? :: ItemId(items[i]).value
  }

  /** The ids of the first n overlay items that ask for removal. */
  function RemovedIds(items: seq<Yaml>, n: nat): set<string>
    requires n <= |items|
  {
    set i | 0 <= i < n && ItemId(items[i]).Some? && Removes(items[i]) :: ItemId(items[i]).value
  }

  /** The items whose id is not among the named ones, in their order. */
  function Others(items: seq<Yaml>, named: set<string>): seq<Yaml> {
    if items == [] then []
    else Others(items[..|items| - 1], named)
         + (if ItemId(items[|items| - 1]).Some? && ItemId(items[|items| - 1]).value in named then []
            else [items[|items| - 1]])
  }

  lemma {:induction false} OthersJoin(a: seq<Yaml>, b: seq<Yaml>, named: set<string>)
    ensures Others(a + b, named) == Others(a, named) + Others(b, named)
    decreases |b|
  {
    if b == [] {
      assert a + b == a;
    } else {
      OthersJoin(a, b[..|b| - 1], named);
      assert (a + b)[..|a + b| - 1] == a + b[..|b| - 1];
    }
  }

  lemma NamedAlone(item: Yaml, named: set<string>)
    requires ItemId(item).Some? && ItemId(item).value in named
    ensures Others([item], named) == []
  {
    assert [item][..0] == [];
  }

  lemma OthersWithout(items: seq<Yaml>, at: nat, named: set<string>)
    requires at < |items| && ItemId(items[at]).Some? && ItemId(items[at]).value in named
    ensures Others(TakeOut(items, at), named) == Others(items, named)
  {
    NamedAlone(items[at], named);
    hide Others, ItemId;
    assert items == items[..at] + [items[at]] + items[at + 1..];
    OthersJoin(items[..at] + [items[at]], items[at + 1..], named);
    OthersJoin(items[..at], [items[at]], named);
    OthersJoin(items[..at], items[at + 1..], named);
  }

  lemma OthersWith(items: seq<Yaml>, at: nat, item: Yaml, named: set<string>)
    requires at <= |items| && ItemId(item).Some? && ItemId(item).value in named
    ensures Others(PutIn(items, at, item), named) == Others(items, named)
  {
    NamedAlone(item, named);
    hide Others, ItemId;
    var a, c := items[..at], items[at..];
    OthersJoin(a + [item], c, named);
    OthersJoin(a, [item], named);
    OthersJoin(a, c, named);
    assert Others(a + [item], named) == Others(a, named);
    assert items == a + c;
  }

  lemma TakeOutIds(items: seq<Yaml>, at: nat)
    requires at < |items| && AllHaveIds(items) && UniqueIds(items)
    ensures var rest := TakeOut(items, at);
            AllHaveIds(rest) && UniqueIds(rest) && Ids(rest) == Ids(items) - {ItemId(items[at]).value}
  {
    var rest := TakeOut(items, at);
    forall id | id in Ids(items) - {ItemId(items[at]).value} ensures id in Ids(rest) {
      var i :| 0 <= i < |items| && ItemId(items[i]) == Some(id);
      assert rest[if i < at then i else i - 1] == items[i];
    }
  }

  lemma PutInIds(items: seq<Yaml>, at: nat, item: Yaml)
    requires at <= |items| && AllHaveIds(items) && UniqueIds(items)
    requires ItemId(item).Some? && ItemId(item).value !in Ids(items)
    ensures var more := PutIn(items, at, item);
            AllHaveIds(more) && UniqueIds(more) && Ids(more) == Ids(items) + {ItemId(item).value}
  {
    var more := PutIn(items, at, item);
    assert more[at] == item;
    forall i | 0 <= i < |items| ensures items[i] == more[if i < at then i else i + 1] {}
    forall id | id in Ids(items) ensures id in Ids(more) {
      var i :| 0 <= i < |items| && ItemId(items[i]) == Some(id);
      assert more[if i < at then i else i + 1] == items[i];
    }
    forall i | 0 <= i < |items| ensures ItemId(items[i]) != ItemId(item) {
      assert ItemId(items[i]).value in Ids(items);
    }
  }

  /** An item keeps its id when it is merged. */
  lemma MergedId(base: Yaml, item: Yaml)
    requires ItemId(item).Some? && ItemId(base) == ItemId(item)
    ensures MergeBut(base, item, CONTROL).Ok? ==> ItemId(MergeBut(base, item, CONTROL).value) == ItemId(item)
    ensures ItemId(WithoutKeys(item, CONTROL)) == ItemId(item)
  {
    assert ID !in CONTROL by { assert |"id"| != |"remove"| && |"id"| != |"before"| && |"id"| != |"after"|; }
  }

  lemma CleanId(item: Yaml)
    requires ItemId(item).Some?
    ensures ItemId(WithoutKeys(item, CONTROL)) == ItemId(item)
  {
    assert ID !in CONTROL by { assert |"id"| != |"remove"| && |"id"| != |"before"| && |"id"| != |"after"|; }
  }

  /** Every id of the overlay is its own. */
  lemma IdFresh(items: seq<Yaml>, n: nat)
    requires n < |items| && AllHaveIds(items) && UniqueIds(items)
    ensures Ids(items[..n + 1]) == Ids(items[..n]) + {ItemId(items[n]).value}
    ensures ItemId(items[n]).value !in Ids(items[..n])
    ensures RemovedIds(items, n + 1) ==
            RemovedIds(items, n) + if Removes(items[n]) then {ItemId(items[n]).value} else {}
    ensures ItemId(items[n]).value !in RemovedIds(items, n)
  {
    assert items[..n + 1] == items[..n] + [items[n]];
    forall id | id in Ids(items[..n]) + {ItemId(items[n]).value} ensures id in Ids(items[..n + 1]) {
      if id in Ids(items[..n]) {
        var i :| 0 <= i < n && ItemId(items[..n][i]) == Some(id);
        assert items[..n + 1][i] == items[i];
      } else {
        assert items[..n + 1][n] == items[n];
      }
    }
  }

  /** What one overlay item does to the ids and to the other items. */
  lemma SettleKeeps(items: seq<Yaml>, item: Yaml, merged: Result<Yaml>, named: set<string>)
    requires ItemId(item).Some? && ItemId(item).value in named
    requires AllHaveIds(items) && UniqueIds(items)
    requires merged.Ok? ==> ItemId(merged.value) == ItemId(item)
    ensures var r := Settle(items, item, merged);
            var id := ItemId(item).value;
            r.Ok? ==>
              && AllHaveIds(r.value) && UniqueIds(r.value)
              && Ids(r.value) == (if Removes(item) then Ids(items) - {id} else Ids(items) + {id})
              && Others(r.value, named) == Others(items, named)
              && (Removes(item) ==> id in Ids(items))
  {
    hide Others, AllHaveIds, UniqueIds, TakeOut, PutIn;
    var id := ItemId(item).value;
    var position := Position(items, id);
    var rest := if position.Some? then TakeOut(items, position.value) else items;
    if position.Some? {
      TakeOutIds(items, position.value);
      OthersWithout(items, position.value, named);
      assert Ids(items) - {id} + {id} == Ids(items) + {id};
    }
    var r := Settle(items, item, merged);
    if r.Ok? && !Removes(item) {
      var at := Target(rest, OptionalString(item.entries, BEFORE).value, OptionalString(item.entries, AFTER).value, position).value;
      PutInIds(rest, at, merged.value);
      OthersWith(rest, at, merged.value, named);
    }
  }

  lemma SetStep(base: set<string>, overlay: set<string>, removed: set<string>, id: string)
    requires id !in removed
    ensures base + overlay - removed - {id} == base + (overlay + {id}) - (removed + {id})
    ensures base + overlay - removed + {id} == base + (overlay + {id}) - (removed + {})
  {
  }

  lemma {:induction false} MergeItemsKeeps(base: seq<Yaml>, overlay: Yaml, n: nat)
    requires overlay.Seq? && n <= |overlay.items|
    requires AllHaveIds(base) && UniqueIds(base) && AllHaveIds(overlay.items) && UniqueIds(overlay.items)
    ensures var r := MergeItems(base, overlay, n);
            r.Ok? ==>
              && AllHaveIds(r.value) && UniqueIds(r.value)
              && Ids(r.value) == Ids(base) + Ids(overlay.items[..n]) - RemovedIds(overlay.items, n)
              && Others(r.value, Ids(overlay.items)) == Others(base, Ids(overlay.items))
  {
    hide MergeBut, Settle, Others, UniqueIds, RemovedIds, Position, AllHaveIds, Ids, WithoutKeys, ItemId;
    if n == 0 {
      NothingNamed(overlay.items);
      assert Ids(base) + {} - {} == Ids(base);
    } else {
      MergeItemsKeeps(base, overlay, n - 1);
      var before := MergeItems(base, overlay, n - 1);
      var item := overlay.items[n - 1];
      OverlayId(overlay.items, n - 1);
      IdFresh(overlay.items, n - 1);
      if before.Ok? {
        ItemKeeps(before.value, item, Ids(overlay.items));
        SetStep(Ids(base), Ids(overlay.items[..n - 1]), RemovedIds(overlay.items, n - 1), ItemId(item).value);
      }
    }
  }

  lemma NothingNamed(items: seq<Yaml>)
    ensures Ids(items[..0]) == {} && RemovedIds(items, 0) == {}
  {
  }

  lemma OverlayId(items: seq<Yaml>, i: nat)
    requires i < |items| && AllHaveIds(items)
    ensures ItemId(items[i]).Some? && ItemId(items[i]).value in Ids(items)
  {
  }

  /** As SettleKeeps, for what merging makes of the item. */
  lemma ItemKeeps(items: seq<Yaml>, item: Yaml, named: set<string>)
    requires ItemId(item).Some? && ItemId(item).value in named
    requires AllHaveIds(items) && UniqueIds(items)
    ensures var id := ItemId(item).value;
            var position := Position(items, id);
            var r := Settle(items, item, if position.Some? then MergeBut(items[position.value], item, CONTROL)
                                         else Ok(WithoutKeys(item, CONTROL)));
            r.Ok? ==>
              && AllHaveIds(r.value) && UniqueIds(r.value)
              && Ids(r.value) == (if Removes(item) then Ids(items) - {id} else Ids(items) + {id})
              && Others(r.value, named) == Others(items, named)
              && (Removes(item) ==> id in Ids(items))
  {
    var position := Position(items, ItemId(item).value);
    CleanId(item);
    if position.Some? { MergedId(items[position.value], item); }
    hide MergeBut, Settle, Others, UniqueIds, Position, AllHaveIds, Ids;
    SettleKeeps(items, item, if position.Some? then MergeBut(items[position.value], item, CONTROL)
                             else Ok(WithoutKeys(item, CONTROL)), named);
  }

  /**
   A successful merge over a keyed list has exactly the ids of both sides without the removed ones, each
   once; the items that the overlay does not name keep their values and their order. The check for
   duplicate ids at the end never fails.
   */
  lemma MergeKeyedIsExact(base: seq<Yaml>, overlay: Yaml)
    requires overlay.Seq? && overlay.items != []
    ensures var r := MergeKeyed(base, overlay);
            r.Ok? ==>
              && UniqueIds(r.value) && AllHaveIds(r.value)
              && Ids(r.value) == Ids(base) + Ids(overlay.items) - RemovedIds(overlay.items, |overlay.items|)
              && Others(r.value, Ids(overlay.items)) == Others(base, Ids(overlay.items))
    ensures AllHaveIds(base) && UniqueIds(base) && AllHaveIds(overlay.items) && UniqueIds(overlay.items) ==>
              MergeKeyed(base, overlay) == MergeItems(base, overlay, |overlay.items|)
  {
    hide Others, UniqueIds, RemovedIds, AllHaveIds, MergeItems;
    if AllHaveIds(base) && UniqueIds(base) && AllHaveIds(overlay.items) && UniqueIds(overlay.items) {
      MergeItemsKeeps(base, overlay, |overlay.items|);
      assert overlay.items[..|overlay.items|] == overlay.items;
    }
  }

  // ----- values and places -----

  function Lookup(items: seq<Yaml>, id: string): Option<Yaml> {
    match Position(items, id)
    case None => None
    case Some(p) => Some(items[p])
  }

  lemma LookupAt(items: seq<Yaml>, i: nat, id: string)
    requires i < |items| && UniqueIds(items) && ItemId(items[i]) == Some(id)
    ensures Lookup(items, id) == Some(items[i])
  {
  }

  lemma LookupSame(a: seq<Yaml>, b: seq<Yaml>, id: string)
    requires UniqueIds(a) && UniqueIds(b)
    requires forall x :: ItemId(x) == Some(id) ==> (x in a <==> x in b)
    ensures Lookup(a, id) == Lookup(b, id)
  {
    assert forall j :: 0 <= j < |b| && ItemId(b[j]) == Some(id) ==> b[j] in a;
    if Position(a, id).Some? {
      var x := a[Position(a, id).value];
      var j :| 0 <= j < |b| && b[j] == x;
      LookupAt(b, j, id);
    }
  }

  lemma TakeOutHolds(items: seq<Yaml>, at: nat, x: Yaml)
    requires at < |items|
    ensures x in TakeOut(items, at) || x == items[at] <==> x in items
  {
    assert items == items[..at] + [items[at]] + items[at + 1..];
  }

  lemma PutInHolds(items: seq<Yaml>, at: nat, item: Yaml, x: Yaml)
    requires at <= |items|
    ensures x in PutIn(items, at, item) <==> x == item || x in items
  {
    assert items == items[..at] + items[at..];
  }

  lemma AbsentId(items: seq<Yaml>, id: string)
    requires id !in Ids(items)
    ensures Lookup(items, id) == None
  {
  }

  /** One overlay item replaces, adds or removes its own id, and no other. */
  lemma SettleLookup(items: seq<Yaml>, item: Yaml, merged: Result<Yaml>, other: string)
    requires ItemId(item).Some? && AllHaveIds(items) && UniqueIds(items)
    requires merged.Ok? ==> ItemId(merged.value) == ItemId(item)
    ensures var r := Settle(items, item, merged);
            r.Ok? ==> Lookup(r.value, other) ==
                      if Some(other) != ItemId(item) then Lookup(items, other)
                      else if Removes(item) then None else Some(merged.value)
  {
    hide Lookup, AllHaveIds, UniqueIds, TakeOut, PutIn, Ids;
    var id := ItemId(item).value;
    var r := Settle(items, item, merged);
    SettleKeeps(items, item, merged, {id});
    if r.Ok? {
      var position := Position(items, id);
      forall x | ItemId(x) == Some(other) && other != id ensures x in items <==> x in r.value {
        if position.Some? { TakeOutHolds(items, position.value, x); }
        if !Removes(item) {
          var rest := if position.Some? then TakeOut(items, position.value) else items;
          var at := Target(rest, OptionalString(item.entries, BEFORE).value, OptionalString(item.entries, AFTER).value, position).value;
          PutInHolds(rest, at, merged.value, x);
        }
      }
      if other != id {
        LookupSame(items, r.value, other);
      } else if Removes(item) {
        AbsentId(r.value, id);
      } else {
        var rest := if position.Some? then TakeOut(items, position.value) else items;
        var at := Target(rest, OptionalString(item.entries, BEFORE).value, OptionalString(item.entries, AFTER).value, position).value;
        PutInHolds(rest, at, merged.value, merged.value);
        var i :| 0 <= i < |r.value| && r.value[i] == merged.value;
        LookupAt(r.value, i, id);
      }
    }
  }

  /** What an overlay item amounts to over a list, if it stays in. */
  function Amounts(base: seq<Yaml>, item: Yaml): Result<Yaml>
    requires ItemId(item).Some?
  {
    match Lookup(base, ItemId(item).value)
    case Some(existing) => MergeBut(existing, item, CONTROL)
    case None => Ok(WithoutKeys(item, CONTROL))
  }

  lemma MergeItemsStep(base: seq<Yaml>, overlay: Yaml, n: nat)
    requires overlay.Seq? && 0 < n <= |overlay.items| && ItemId(overlay.items[n - 1]).Some?
    ensures var before := MergeItems(base, overlay, n - 1);
            var item := overlay.items[n - 1];
            MergeItems(base, overlay, n) == if before.Err? then Err else Settle(before.value, item, Amounts(before.value, item))
  {
  }

  /** Before its turn, an overlay item finds what the base list holds under its id. */
  lemma {:induction false} OwnIsUntouched(base: seq<Yaml>, overlay: Yaml, n: nat)
    requires overlay.Seq? && 0 < n <= |overlay.items|
    requires AllHaveIds(base) && UniqueIds(base) && AllHaveIds(overlay.items) && UniqueIds(overlay.items)
    ensures var r := MergeItems(base, overlay, n - 1);
            r.Ok? ==> Amounts(r.value, overlay.items[n - 1]) == Amounts(base, overlay.items[n - 1])
  {
    hide MergeItems, MergeBut, Lookup, Position, WithoutKeys, ItemId;
    var id := ItemId(overlay.items[n - 1]).value;
    assert forall i :: 0 <= i < n - 1 ==> ItemId(overlay.items[i]) != Some(id);
    MergeItemsSpares(base, overlay, n - 1, id);
  }

  lemma {:induction false} MergeItemsSpares(base: seq<Yaml>, overlay: Yaml, n: nat, id: string)
    requires overlay.Seq? && n <= |overlay.items|
    requires AllHaveIds(base) && UniqueIds(base) && AllHaveIds(overlay.items) && UniqueIds(overlay.items)
    requires forall i :: 0 <= i < n ==> ItemId(overlay.items[i]) != Some(id)
    ensures var r := MergeItems(base, overlay, n);
            r.Ok? ==> Lookup(r.value, id) == Lookup(base, id)
  {
    if n > 0 {
      MergeItemsSpares(base, overlay, n - 1, id);
      MergeItemsKeeps(base, overlay, n - 1);
      var before := MergeItems(base, overlay, n - 1);
      if before.Ok? {
        SettleAmounts(before.value, overlay.items[n - 1], id);
        hide MergeBut, Settle, Others, UniqueIds, RemovedIds, AllHaveIds, WithoutKeys, Removes;
      }
    }
  }

  /** Each overlay item leaves the item of its id merged, added or gone; other ids keep theirs. */
  lemma {:induction false} MergeItemsLookup(base: seq<Yaml>, overlay: Yaml, n: nat, id: string)
    requires overlay.Seq? && n <= |overlay.items|
    requires AllHaveIds(base) && UniqueIds(base) && AllHaveIds(overlay.items) && UniqueIds(overlay.items)
    ensures var r := MergeItems(base, overlay, n);
            r.Ok? ==>
              match Position(overlay.items[..n], id)
              case None => Lookup(r.value, id) == Lookup(base, id)
              case Some(i) =>
                if Removes(overlay.items[i]) then Lookup(r.value, id) == None
                else Amounts(base, overlay.items[i]).Ok? && Lookup(r.value, id) == Some(Amounts(base, overlay.items[i]).value)
  {
    if n > 0 {
      MergeItemsLookup(base, overlay, n - 1, id);
      OwnIsUntouched(base, overlay, n);
      MergeItemsKeeps(base, overlay, n - 1);
      var item := overlay.items[n - 1];
      assert overlay.items[..n][..n - 1] == overlay.items[..n - 1];
      var before := MergeItems(base, overlay, n - 1);
      if before.Ok? {
        hide MergeBut, Settle, Others, UniqueIds, RemovedIds, AllHaveIds, WithoutKeys, Removes;
        SettleAmounts(before.value, item, id);
      }
    }
  }

  lemma SettleAmounts(items: seq<Yaml>, item: Yaml, id: string)
    requires ItemId(item).Some? && AllHaveIds(items) && UniqueIds(items)
    ensures var r := Settle(items, item, Amounts(items, item));
            r.Ok? && !Removes(item) ==> Amounts(items, item).Ok?
    ensures var r := Settle(items, item, Amounts(items, item));
            r.Ok? ==> Lookup(r.value, id) ==
                      if Some(id) != ItemId(item) then Lookup(items, id)
                      else if Removes(item) then None else Some(Amounts(items, item).value)
  {
    CleanId(item);
    if Lookup(items, ItemId(item).value).Some? { MergedId(Lookup(items, ItemId(item).value).value, item); }
    hide MergeBut, AllHaveIds, UniqueIds, WithoutKeys, Lookup;
    SettleLookup(items, item, Amounts(items, item), id);
  }

  /** Index p obeys the neighbour an item names; without one, the item keeps its index or comes last. */
  ghost predicate PlacedAt(r: seq<Yaml>, p: nat, before: Option<string>, after: Option<string>, position: Option<nat>) {
    && (before.Some? ==> p + 1 < |r| && ItemId(r[p + 1]) == before)
    && (after.Some? ==> 0 < p <= |r| && ItemId(r[p - 1]) == after)
    && (before.None? && after.None? ==> p == if position.Some? then position.value else |r| - 1)
  }

  lemma SettlePlaces(items: seq<Yaml>, item: Yaml, merged: Result<Yaml>)
    requires ItemId(item).Some? && !Removes(item) && Settle(items, item, merged).Ok?
    ensures var before := OptionalString(item.entries, BEFORE);
            var after := OptionalString(item.entries, AFTER);
            var r := Settle(items, item, merged).value;
            && before.Ok? && after.Ok? && (before.value.None? || after.value.None?)
            && exists p :: 0 <= p < |r| && r[p] == merged.value
                 && PlacedAt(r, p, before.value, after.value, Position(items, ItemId(item).value))
  {
    var position := Position(items, ItemId(item).value);
    var rest := if position.Some? then TakeOut(items, position.value) else items;
    var before := OptionalString(item.entries, BEFORE).value;
    var after := OptionalString(item.entries, AFTER).value;
    var at := Target(rest, before, after, position).value;
    var r := Settle(items, item, merged).value;
    assert r == PutIn(rest, at, merged.value) && r[at] == merged.value;
    assert before.Some? ==> r[at + 1] == rest[at];
    assert after.Some? ==> r[at - 1] == rest[at - 1];
    assert PlacedAt(r, at, before, after, position);
  }
}
