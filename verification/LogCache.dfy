/** The cached copy of one log, kept in display order and indexed by id and by callsign, in place. */
module LogCache {
  import opened Sums
  import opened LogOrder
  import opened LogPages

  /** The first of some strings in lexicographic order. */
  method Least(keys: set<string>) returns (least: string)
    requires keys != {}
    ensures least in keys && forall k :: k in keys ==> AtMost(least, k)
  {
    least :| least in keys;
    AtMostTotal(least, least);
    var left := keys - {least};
    while left != {}
      invariant left <= keys && least in keys
      invariant forall k :: k in keys && k !in left ==> AtMost(least, k)
      decreases |left|
    {
      var k :| k in left;
      AtMostTotal(k, least);
      AtMostTotal(k, k);
      if !AtMost(least, k) {
        forall j | j in keys && j !in left ensures AtMost(k, j) {
          AtMostTransitive(k, least, j);
        }
        least := k;
      }
      left := left - {k};
    }
  }

  /** The smallest of some numbers. */
  method Smallest(s: set<nat>) returns (least: nat)
    requires s != {}
    ensures least in s && forall x :: x in s ==> least <= x
  {
    least :| least in s;
    var left := s;
    while left != {}
      invariant left <= s && least in s
      invariant forall x :: x in s && x !in left ==> least <= x
      decreases |left|
    {
      var x :| x in left;
      if x < least {
        least := x;
      }
      left := left - {x};
    }
  }

  lemma IncreasingMore(xs: seq<nat>, x: nat)
    requires Increasing(xs) && forall y :: y in xs ==> y < x
    ensures Increasing(xs + [x])
  {
    assert forall i :: 0 <= i < |xs| ==> xs[i] in xs;
  }

  /** The numbers of a set in increasing order. */
  method Ascending(s: set<nat>) returns (xs: seq<nat>)
    ensures Increasing(xs) && forall x :: x in xs <==> x in s
  {
    hide Increasing;
    xs := [];
    assert Increasing(xs) by { EmptyIncreasing(); }
    var left := s;
    while left != {}
      invariant left <= s && Increasing(xs)
      invariant forall x :: x in xs <==> x in s - left
      invariant forall x, y :: x in xs && y in left ==> x < y
      decreases |left|
    {
      var x := Smallest(left);
      IncreasingMore(xs, x);
      xs := xs + [x];
      left := left - {x};
    }
  }

  lemma EmptyIncreasing()
    ensures Increasing([])
  {
  }

  function IdsUnder(index: map<string, seq<int>>, keys: set<string>): set<int> {
    set k, id | k in keys && k in index && id in index[k] :: id
  }

  lemma IdsUnderMore(index: map<string, seq<int>>, keys: set<string>, k: string)
    requires k in index
    ensures IdsUnder(index, keys + {k}) == IdsUnder(index, keys) + IdSet(index[k])
  {
    forall id | id in IdSet(index[k]) ensures id in IdsUnder(index, keys + {k}) {
      assert k in keys + {k};
    }
    forall id | id in IdsUnder(index, keys) ensures id in IdsUnder(index, keys + {k}) {
      var j :| j in keys && j in index && id in index[j];
      assert j in keys + {k};
    }
  }

  /** Skipping and taking positions is skipping and taking the contacts there. */
  lemma SliceOfPositions(cs: seq<LogContact>, xs: seq<nat>, offset: nat, limit: nat)
    requires forall i :: 0 <= i < |xs| ==> xs[i] < |cs|
    ensures var skipped := if offset <= |xs| then xs[offset..] else [];
            var taken := if limit <= |skipped| then skipped[..limit] else skipped;
            && (forall i :: 0 <= i < |taken| ==> taken[i] < |cs|)
            && At(cs, taken) == Slice(At(cs, xs), offset, limit)
  {
  }

  class CachedLog {
    var revision: nat
    var contacts: seq<LogContact>
    var callsignIndex: map<string, seq<int>>
    var contactPositions: map<int, nat>

    ghost predicate Exact()
      reads this
    {
      PositionsOk(contacts, contactPositions) && IndexOk(contacts, callsignIndex)
    }

    ghost predicate Valid()
      reads this
    {
      Sorted(contacts) && UniqueIds(contacts) && Exact()
    }

    constructor (contacts: seq<LogContact>)
      requires UniqueIds(contacts)
      ensures this.contacts == contacts && revision == 0 && Exact()
    {
      this.contacts, revision := contacts, 0;
      callsignIndex, contactPositions := map[], map[];
      new;
      RebuildIndexes();
    }

    method RebuildIndexes()
      requires UniqueIds(contacts)
      modifies this`callsignIndex, this`contactPositions
      ensures Exact()
    {
      callsignIndex, contactPositions := map[], map[];
      for i := 0 to |contacts|
        invariant PositionsOk(contacts[..i], contactPositions) && IndexOk(contacts[..i], callsignIndex)
      {
        assert contacts[..i + 1] == contacts[..i] + [contacts[i]];
        ghost var positions, index := contactPositions, callsignIndex;
        contactPositions := contactPositions[contacts[i].id := i];
        PositionsNext(contacts, i, positions);
        AddToCallsignIndex(contacts[i]);
        IndexNext(contacts[..i], contacts[i], index);
      }
      assert contacts[..|contacts|] == contacts;
    }

    lemma PositionsNext(cs: seq<LogContact>, i: nat, positions: map<int, nat>)
      requires i < |cs| && UniqueIds(cs) && PositionsOk(cs[..i], positions)
      ensures PositionsOk(cs[..i + 1], positions[cs[i].id := i])
    {
    }

    lemma IndexNext(cs: seq<LogContact>, c: LogContact, index: map<string, seq<int>>)
      requires UniqueIds(cs + [c]) && IndexOk(cs, index)
      ensures IndexOk(cs + [c], Indexed(index, c))
    {
      forall i | 0 <= i < |cs| ensures cs[i].id != c.id {
        assert (cs + [c])[i] == cs[i] && (cs + [c])[|cs|] == c;
      }
      IndexAdds(cs, c, index, cs + [c]);
    }

    /** The same step when the contact goes anywhere into the list. */
    lemma IndexAdds(cs: seq<LogContact>, c: LogContact, index: map<string, seq<int>>, more: seq<LogContact>)
      requires IndexOk(cs, index) && forall i :: 0 <= i < |cs| ==> cs[i].id != c.id
      requires forall d :: d in more <==> d == c || d in cs
      ensures IndexOk(more, Indexed(index, c))
    {
      var next := Indexed(index, c);
      forall k, id ensures Listed(next, k, id) <==> Listed(index, k, id) || (c.callsign == Some(k) && id == c.id) {}
      forall k, id | Listed(next, k, id) ensures exists i :: 0 <= i < |more| && more[i].id == id && more[i].callsign == Some(k) {
        if Listed(index, k, id) {
          var i :| 0 <= i < |cs| && cs[i].id == id && cs[i].callsign == Some(k);
          assert cs[i] in more;
        } else {
          assert c in more;
        }
      }
      if c.callsign.Some? && c.callsign.value in index {
        forall i | 0 <= i < |index[c.callsign.value]| ensures index[c.callsign.value][i] != c.id {
          assert Listed(index, c.callsign.value, index[c.callsign.value][i]);
        }
      }
      forall i | 0 <= i < |more| && more[i].callsign.Some? ensures Listed(next, more[i].callsign.value, more[i].id) {
        assert more[i] in more;
      }
    }

    function Indexed(index: map<string, seq<int>>, c: LogContact): map<string, seq<int>> {
      if c.callsign.None? then index
      else index[c.callsign.value := (if c.callsign.value in index then index[c.callsign.value] else []) + [c.id]]
    }

    method AddToCallsignIndex(c: LogContact)
      modifies this`callsignIndex
      ensures callsignIndex == Indexed(old(callsignIndex), c)
    {
      if c.callsign.None? {
        return;
      }
      var ids := if c.callsign.value in callsignIndex then callsignIndex[c.callsign.value] else [];
      callsignIndex := callsignIndex[c.callsign.value := ids + [c.id]];
    }

    /** The place of a new contact: at either end without a search, otherwise by halving. */
    method SortedInsertPosition(c: LogContact) returns (at: nat)
      requires Sorted(contacts)
      ensures IsPlace(contacts, c, at)
    {
      if contacts == [] {
        return 0;
      }
      if !NotBelow(contacts[0], c) {
        return 0;
      }
      if NotBelow(contacts[|contacts| - 1], c) {
        return |contacts|;
      }
      at := 0;
      var high := |contacts|;
      while at < high
        invariant at <= high <= |contacts|
        invariant forall i :: 0 <= i < at ==> NotBelow(contacts[i], c)
        invariant forall i :: high <= i < |contacts| ==> !NotBelow(contacts[i], c)
      {
        var middle := (at + high) / 2;
        if NotBelow(contacts[middle], c) {
          at := middle + 1;
        } else {
          high := middle;
        }
      }
    }

    method RefreshContactPositionsFrom(start: nat)
      requires start <= |contacts| && UniqueIds(contacts)
      requires forall i :: 0 <= i < start ==> contacts[i].id in contactPositions && contactPositions[contacts[i].id] == i
      requires forall id :: id in contactPositions ==> HasId(SetOf(contacts), id)
      modifies this`contactPositions
      ensures PositionsOk(contacts, contactPositions)
    {
      for i := start to |contacts|
        invariant forall j :: 0 <= j < i ==> contacts[j].id in contactPositions && contactPositions[contacts[j].id] == j
        invariant forall id :: id in contactPositions ==> HasId(SetOf(contacts), id)
      {
        assert contacts[i] in SetOf(contacts);
        contactPositions := contactPositions[contacts[i].id := i];
      }
      forall id | id in contactPositions
        ensures contactPositions[id] < |contacts| && contacts[contactPositions[id]].id == id
      {
        var c :| c in SetOf(contacts) && c.id == id;
        var i :| 0 <= i < |contacts| && contacts[i] == c;
      }
    }

    /** Puts a new contact in its place and keeps the indexes exact. */
    method InsertNewContactSorted(c: LogContact)
      requires Valid() && !HasId(SetOf(contacts), c.id)
      modifies this`contacts, this`callsignIndex, this`contactPositions
      ensures Valid() && SetOf(contacts) == Put(SetOf(old(contacts)), c)
    {
      var at := SortedInsertPosition(c);
      ghost var before, index := contacts, callsignIndex;
      InsertDisplays(contacts, at, c, SetOf(contacts));
      contacts := contacts[..at] + [c] + contacts[at..];
      assert contacts == InsertAt(before, at, c);
      Inserted(before, at, c, contactPositions);
      RefreshContactPositionsFrom(at);
      AddToCallsignIndex(c);
      IndexAdds(before, c, index, contacts);
    }

    lemma Inserted(cs: seq<LogContact>, at: nat, c: LogContact, positions: map<int, nat>)
      requires at <= |cs| && PositionsOk(cs, positions) && !HasId(SetOf(cs), c.id)
      ensures var r := InsertAt(cs, at, c);
              && (forall i :: 0 <= i < at ==> r[i].id in positions && positions[r[i].id] == i)
              && (forall id :: id in positions ==> HasId(SetOf(r), id))
              && (forall d :: d in r <==> d == c || d in cs)
              && (forall i :: 0 <= i < |cs| ==> cs[i].id != c.id)
    {
      var r := InsertAt(cs, at, c);
      assert cs == cs[..at] + cs[at..];
      forall i | 0 <= i < |cs| ensures cs[i].id != c.id {
        assert cs[i] in SetOf(cs);
      }
      forall id | id in positions ensures HasId(SetOf(r), id) {
        var d := cs[positions[id]];
        assert d in cs && d in r && d in SetOf(r);
      }
    }

    /** Replaces the contact with the same id, or adds one at the end. */
    method MergeContact(c: LogContact)
      modifies this`contacts
      ensures contacts == LogOrder.MergeContact(old(contacts), c)
    {
      var i := 0;
      while i < |contacts| && contacts[i].id != c.id
        invariant i <= |contacts| && forall j :: 0 <= j < i ==> contacts[j].id != c.id
      {
        i := i + 1;
      }
      MergeContactAt(contacts, c, i);
      if i < |contacts| {
        contacts := contacts[i := c];
      } else {
        contacts := contacts + [c];
      }
    }

    /** Sorts into display order. */
    method SortContactsDesc()
      requires UniqueIds(contacts)
      modifies this`contacts
      ensures Displays(contacts, SetOf(old(contacts)))
    {
      var given := contacts;
      contacts := [];
      for i := 0 to |given|
        invariant Displays(contacts, SetOf(given[..i]))
      {
        assert given[..i + 1] == given[..i] + [given[i]];
        assert SetOf(given[..i + 1]) == Put(SetOf(given[..i]), given[i]);
        var at := SortedInsertPosition(given[i]);
        InsertDisplays(contacts, at, given[i], SetOf(given[..i]));
        contacts := contacts[..at] + [given[i]] + contacts[at..];
      }
      assert given[..|given|] == given;
    }

    method MergeBatch(batch: seq<LogContact>)
      requires UniqueIds(contacts)
      modifies this`contacts
      ensures UniqueIds(contacts) && SetOf(contacts) == Updated(SetOf(old(contacts)), batch)
    {
      for i := 0 to |batch|
        invariant UniqueIds(contacts) && SetOf(contacts) == Updated(SetOf(old(contacts)), batch[..i])
      {
        assert batch[..i + 1][..i] == batch[..i];
        MergeContactSet(contacts, batch[i]);
        MergeContact(batch[i]);
      }
      assert batch[..|batch|] == batch;
    }

    /**
     Takes a batch in. New contacts go straight to their places; as soon as one is known already, the
     rest is merged and sorted, and the indexes are left to be rebuilt.
     */
    method ApplyUpsertedContacts(batch: seq<LogContact>, previous: seq<Option<LogContact>>) returns (dirty: bool)
      requires Valid()
      modifies this`contacts, this`callsignIndex, this`contactPositions
      ensures Displays(contacts, Updated(SetOf(old(contacts)), batch))
      ensures !dirty ==> Valid()
    {
      if exists i :: 0 <= i < |previous| && previous[i].Some? {
        MergeBatch(batch);
        SortContactsDesc();
        return true;
      }
      dirty := false;
      for i := 0 to |batch|
        invariant UniqueIds(contacts) && SetOf(contacts) == Updated(SetOf(old(contacts)), batch[..i])
        invariant !dirty ==> Valid()
      {
        assert batch[..i + 1][..i] == batch[..i];
        if dirty || batch[i].id in contactPositions {
          MergeContactSet(contacts, batch[i]);
          MergeContact(batch[i]);
          dirty := true;
        } else {
          NotHeld(contacts, contactPositions, batch[i].id);
          InsertNewContactSorted(batch[i]);
        }
      }
      assert batch[..|batch|] == batch;
      if dirty {
        SortContactsDesc();
      }
    }

    lemma NotHeld(cs: seq<LogContact>, positions: map<int, nat>, id: int)
      requires PositionsOk(cs, positions) && id !in positions
      ensures !HasId(SetOf(cs), id)
    {
    }

    /** Keeps the last contact of each id. */
    static method Deduplicated(batch: seq<LogContact>) returns (kept: seq<LogContact>)
      ensures kept == LastOfEach(batch, {})
    {
      kept := [];
      var seen: set<int> := {};
      var i := |batch|;
      assert batch[..i] == batch;
      while i > 0
        invariant 0 <= i <= |batch|
        invariant LastOfEach(batch[..i], seen) + kept == LastOfEach(batch, {})
      {
        i := i - 1;
        assert batch[..i + 1][..i] == batch[..i];
        var c := batch[i];
        if c.id !in seen {
          kept := [c] + kept;
        } else {
          assert seen + {c.id} == seen;
        }
        seen := seen + {c.id};
      }
    }

    /** The cached copy after a batch: its contacts are the updated ones in display order, its indexes exact. */
    method Upsert(batch: seq<LogContact>, previous: seq<Option<LogContact>>)
      requires Valid()
      modifies this`contacts, this`callsignIndex, this`contactPositions
      ensures Valid() && Displays(contacts, Updated(SetOf(old(contacts)), batch))
    {
      var dirty := ApplyUpsertedContacts(batch, previous);
      if dirty {
        RebuildIndexes();
      }
    }

    /** Removes a contact by id, if the log has it. */
    method DeleteContact(id: int) returns (deleted: Option<LogContact>)
      requires Valid()
      modifies this`contacts, this`callsignIndex, this`contactPositions
      ensures Valid()
      ensures deleted.None? ==> contacts == old(contacts) && !HasId(SetOf(contacts), id)
      ensures deleted.Some? ==> deleted.value.id == id && deleted.value in old(contacts)
                                && SetOf(contacts) == SetOf(old(contacts)) - {deleted.value}
    {
      var i := 0;
      while i < |contacts| && contacts[i].id != id
        invariant i <= |contacts| && forall j :: 0 <= j < i ==> contacts[j].id != id
      {
        i := i + 1;
      }
      if i == |contacts| {
        return None;
      }
      deleted := Some(contacts[i]);
      ghost var before := contacts;
      contacts := contacts[..i] + contacts[i + 1..];
      assert before == before[..i] + [before[i]] + before[i + 1..];
      assert forall j :: 0 <= j < |contacts| ==> contacts[j] == before[if j < i then j else j + 1];
      RebuildIndexes();
    }

    method ContactById(id: int) returns (found: Option<LogContact>)
      requires Valid()
      ensures found.Some? ==> found.value in contacts && found.value.id == id
      ensures found.None? ==> !HasId(SetOf(contacts), id)
    {
      if id !in contactPositions {
        NotHeld(contacts, contactPositions, id);
        return None;
      }
      return Some(contacts[contactPositions[id]]);
    }

    /** Walks the index from the prefix on, and stops at the first callsign without it. */
    method MatchingContactIdsForPrefix(prefix: string) returns (ids: set<int>)
      ensures ids == IdsUnder(callsignIndex, set k | k in callsignIndex && StartsWith(k, prefix))
    {
      ids := {};
      var range := set k | k in callsignIndex && AtMost(prefix, k);
      var left := range;
      while left != {}
        invariant left <= range
        invariant forall k :: k in range - left ==> StartsWith(k, prefix)
        invariant ids == IdsUnder(callsignIndex, range - left)
        decreases |left|
      {
        var k := Least(left);
        if !StartsWith(k, prefix) {
          forall j | j in left ensures !StartsWith(j, prefix) {
            if StartsWith(j, prefix) { PrefixRun(prefix, k, j); }
          }
          break;
        }
        IdsUnderMore(callsignIndex, range - left, k);
        ids := ids + IdSet(callsignIndex[k]);
        assert range - (left - {k}) == range - left + {k};
        left := left - {k};
      }
      forall k | k in callsignIndex && StartsWith(k, prefix) ensures k in range {
        PrefixIsLeast(k, prefix);
      }
      assert range - left == set k | k in callsignIndex && StartsWith(k, prefix);
    }

    method MatchingPage(offset: nat, limit: nat, prefix: string) returns (page: seq<LogContact>)
      requires Valid()
      ensures page == Page(contacts, offset, limit, Some(prefix))
    {
      var ids := MatchingContactIdsForPrefix(prefix);
      var positions := set id | id in ids && id in contactPositions :: contactPositions[id];
      var xs := Ascending(positions);
      PositionsMatch(contacts, contactPositions, callsignIndex, prefix, positions);
      hide Matches, Matching, IndexOk, Slice, Increasing, Sorted, UniqueIds;
      assert ListsMatches(contacts, prefix, xs) by {
        assert forall i :: 0 <= i < |xs| ==> xs[i] in xs;
      }
      PositionsList(contacts, prefix, xs);
      SliceOfPositions(contacts, xs, offset, limit);
      var skipped := if offset <= |xs| then xs[offset..] else [];
      var taken := if limit <= |skipped| then skipped[..limit] else skipped;
      page := At(contacts, taken);
    }

    /** A page of the log as displayed, restricted to a callsign prefix if one is given. */
    method ContactsDisplayPage(offset: nat, limit: nat, prefix: Option<string>) returns (page: seq<LogContact>)
      requires Valid()
      ensures page == Page(contacts, offset, limit, prefix)
    {
      if limit == 0 {
        return [];
      }
      if prefix.Some? {
        page := MatchingPage(offset, limit, prefix.value);
        return page;
      }
      if offset >= |contacts| {
        return [];
      }
      var end := if offset + limit <= |contacts| then offset + limit else |contacts|;
      return contacts[offset..end];
    }

    /** The index and the positions together find exactly the matching places. */
    lemma PositionsMatch(cs: seq<LogContact>, positions: map<int, nat>, index: map<string, seq<int>>, prefix: string,
                         found: set<nat>)
      requires UniqueIds(cs) && PositionsOk(cs, positions) && IndexOk(cs, index)
      requires found == set id | id in IdsUnder(index, set k | k in index && StartsWith(k, prefix)) && id in positions :: positions[id]
      ensures forall p: nat :: p in found <==> p < |cs| && Matches(cs[p], prefix)
    {
      var keys := set k | k in index && StartsWith(k, prefix);
      forall p: nat | p < |cs| && Matches(cs[p], prefix) ensures p in found {
        assert Listed(index, cs[p].callsign.value, cs[p].id);
        assert cs[p].callsign.value in keys;
        assert cs[p].id in IdsUnder(index, keys) && positions[cs[p].id] == p;
      }
      forall p | p in found ensures p < |cs| && Matches(cs[p], prefix) {
        var id :| id in IdsUnder(index, keys) && id in positions && positions[id] == p;
        var k :| k in keys && k in index && id in index[k];
        assert Listed(index, k, id);
        var i :| 0 <= i < |cs| && cs[i].id == id && cs[i].callsign == Some(k);
        assert positions[cs[i].id] == i;
      }
    }
  }

  /** Two copies that hold the same contacts are the same, however they came about. */
  lemma CopiesAgree(a: CachedLog, b: CachedLog)
    requires a.Valid() && b.Valid() && SetOf(a.contacts) == SetOf(b.contacts)
    ensures a.contacts == b.contacts && a.contactPositions == b.contactPositions
    ensures a.callsignIndex.Keys == b.callsignIndex.Keys
    ensures forall k :: k in a.callsignIndex && k in b.callsignIndex ==> IdSet(a.callsignIndex[k]) == IdSet(b.callsignIndex[k])
  {
    OneDisplay(a.contacts, b.contacts);
    IndexesAgree(a.contacts, a.contactPositions, b.contactPositions, a.callsignIndex, b.callsignIndex);
  }
}
