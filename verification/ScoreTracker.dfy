/**
 Contest scoring in the form it runs: objects whose tables, counters and contact marks are updated
 in place. Every method is proved equal to the function of the same operation in ScoringSpec.
 */
module ScoreTracker {
  import opened Sums
  import opened ScoringSpec
  import opened ScoringLedger
  import opened ScoringBatches
  import opened ScoringRuns

  /** The index of the first contact that passes a test. */
  method Position(contacts: array<Contact>, test: Contact -> bool) returns (found: Option<nat>)
    ensures found == FirstIndex(contacts[..], test)
  {
    for i := 0 to contacts.Length
      invariant forall j :: 0 <= j < i ==> !test(contacts[j])
    {
      if test(contacts[i]) {
        return Some(i);
      }
    }
    return None;
  }

  // ----- the left-to-right scorer -----

  class ContestScorer {
    const rules: Rules
    var totals: Totals
    var dupeKeys: map<string, nat>
    var rawMultiplierCount: int
    var multiplierKeys: set<string>
    var multiplierCounts: map<string, nat>
    var bonusKeys: set<string>
    var qsoCountBonusCounts: map<string, nat>
    var directBonusPoints: int

    constructor (rules: Rules)
      ensures this.rules == rules && Value() == NEW_SCORER
    {
      this.rules := rules;
      totals, rawMultiplierCount, directBonusPoints := NO_TOTALS, 0, 0;
      dupeKeys, multiplierKeys, multiplierCounts := map[], {}, map[];
      bonusKeys, qsoCountBonusCounts := {}, map[];
    }

    function Value(): Scorer
      reads this
    {
      Scorer(totals, dupeKeys, rawMultiplierCount, multiplierKeys, multiplierCounts, bonusKeys,
             qsoCountBonusCounts, directBonusPoints)
    }

    method Reset()
      modifies this
      ensures Value() == NEW_SCORER
    {
      dupeKeys := map[];
      rawMultiplierCount := 0;
      multiplierKeys := {};
      multiplierCounts := map[];
      bonusKeys := {};
      qsoCountBonusCounts := map[];
      directBonusPoints := 0;
      totals := NO_TOTALS;
    }

    method IsDupe(c: Contact) returns (dupe: bool)
      modifies this`dupeKeys
      ensures dupe == (c.facts.dupeKey.Some? && Get(old(dupeKeys), c.facts.dupeKey.value) > 0)
      ensures dupeKeys == if c.facts.dupeKey.Some? then Bump(old(dupeKeys), c.facts.dupeKey.value) else old(dupeKeys)
    {
      if c.facts.dupeKey.None? {
        return false;
      }
      var key := c.facts.dupeKey.value;
      dupe := Get(dupeKeys, key) > 0;
      dupeKeys := Bump(dupeKeys, key);
    }

    method Multipliers(cands: seq<Candidate>) returns (taken: int)
      modifies this`multiplierKeys, this`multiplierCounts
      ensures (multiplierKeys, multiplierCounts, taken) ==
              TakeMultipliers(old(multiplierKeys), old(multiplierCounts), cands)
    {
      taken := 0;
      for i := 0 to |cands|
        invariant (multiplierKeys, multiplierCounts, taken) ==
                  TakeMultipliers(old(multiplierKeys), old(multiplierCounts), cands[..i])
      {
        var cand := cands[i];
        assert cands[..i + 1][..i] == cands[..i];
        if cand.key !in multiplierKeys && !CapReached(multiplierCounts, cand) {
          multiplierKeys := multiplierKeys + {cand.key};
          multiplierCounts := Bump(multiplierCounts, cand.Group());
          taken := taken + 1;
        }
      }
      assert cands[..|cands|] == cands;
    }

    method BonusPoints(offers: seq<(string, int)>) returns (points: int)
      modifies this`bonusKeys
      ensures (bonusKeys, points) == TakeBonuses(old(bonusKeys), offers)
    {
      points := 0;
      for i := 0 to |offers|
        invariant (bonusKeys, points) == TakeBonuses(old(bonusKeys), offers[..i])
      {
        assert offers[..i + 1][..i] == offers[..i];
        if offers[i].0 !in bonusKeys {
          bonusKeys := bonusKeys + {offers[i].0};
          points := points + offers[i].1;
        }
      }
      assert offers[..|offers|] == offers;
    }

    method CountKeys(keys: seq<string>)
      modifies this`qsoCountBonusCounts
      ensures qsoCountBonusCounts == BumpAll(old(qsoCountBonusCounts), keys)
    {
      for i := 0 to |keys|
        invariant qsoCountBonusCounts == BumpAll(old(qsoCountBonusCounts), keys[..i])
      {
        assert keys[..i + 1][..i] == keys[..i];
        qsoCountBonusCounts := Bump(qsoCountBonusCounts, keys[i]);
      }
      assert keys[..|keys|] == keys;
    }

    method RecalculateScore()
      modifies this`totals
      ensures Value() == TalliedScorer(rules, old(Value()))
    {
      totals := Tally(rules, totals.qsoCount, totals.qsoPoints, rawMultiplierCount, directBonusPoints,
                      multiplierKeys, qsoCountBonusCounts);
    }

    method AddQso(c: Contact) returns (scored: Contact)
      modifies this
      ensures (Value(), scored) == ScoringSpec.AddQso(rules, old(Value()), c)
    {
      hide Tally, TakeMultipliers, TakeBonuses, BumpAll, Get, Bump;
      totals := totals.(qsoCount := totals.qsoCount + 1);
      var dupe := IsDupe(c);
      var points, mults, bonus := 0, 0, 0;
      if !dupe {
        points := c.facts.points;
        mults := Multipliers(c.facts.multipliers);
        bonus := BonusPoints(c.facts.bonuses);
      }
      totals := totals.(qsoPoints := totals.qsoPoints + points);
      rawMultiplierCount := rawMultiplierCount + mults;
      directBonusPoints := directBonusPoints + bonus;
      if !dupe && points > 0 {
        CountKeys(c.facts.countKeys);
      }
      RecalculateScore();
      scored := c.(marks := Marks(points, mults, bonus, dupe));
    }
  }

  /** Marks every contact of a log in place, and returns its totals. */
  method ScoreAll(rules: Rules, contacts: array<Contact>) returns (totals: Totals)
    modifies contacts
    ensures totals == ScoreContacts(rules, old(contacts[..])).0.totals
    ensures contacts[..] == ScoreContacts(rules, old(contacts[..])).1
  {
    var scorer := new ContestScorer(rules);
    scorer.Reset();
    ghost var given := contacts[..];
    for i := 0 to contacts.Length
      invariant scorer.rules == rules && fresh(scorer)
      invariant (scorer.Value(), contacts[..i]) == ScoreContacts(rules, given[..i])
      invariant contacts[i..] == given[i..]
    {
      assert given[..i + 1][..i] == given[..i];
      assert contacts[i] == contacts[i..][0] == given[i..][0];
      var scored := scorer.AddQso(contacts[i]);
      contacts[i] := scored;
      assert contacts[..i + 1] == contacts[..i] + [scored];
      assert contacts[i + 1..] == given[i + 1..];
    }
    assert contacts[..contacts.Length] == contacts[..] && given[..contacts.Length] == given;
    totals := scorer.totals;
  }

  // ----- the incremental state -----

  /** The contacts to report: those that changed, in order, without the excluded ones. */
  function CollectChanged(cs: seq<Contact>, changed: set<int>, excluded: set<int>): seq<Contact> {
    if cs == [] then []
    else CollectChanged(cs[..|cs| - 1], changed, excluded) +
         (if cs[|cs| - 1].id in changed && cs[|cs| - 1].id !in excluded then [cs[|cs| - 1]] else [])
  }

  /** The places of the contacts to report, in the order of the log. */
  lemma {:induction false} CollectedIs(cs: seq<Contact>, changed: set<int>, excluded: set<int>) returns (places: seq<nat>)
    ensures forall i, j :: 0 <= i < j < |places| ==> places[i] < places[j]
    ensures forall p: nat :: p in places <==> p < |cs| && cs[p].id in changed && cs[p].id !in excluded
    ensures var reported := CollectChanged(cs, changed, excluded);
            |reported| == |places| && forall i :: 0 <= i < |places| ==> places[i] < |cs| && reported[i] == cs[places[i]]
  {
    places := [];
    if cs != [] {
      var n := |cs| - 1;
      places := CollectedIs(cs[..n], changed, excluded);
      assert forall p :: 0 <= p < n ==> cs[..n][p] == cs[p];
      if cs[n].id in changed && cs[n].id !in excluded {
        assert forall p: nat :: p in places + [n] <==> p in places || p == n;
        places := places + [n];
      }
    }
  }

  lemma EnumeratesOneMore(keys: seq<string>, all: set<string>, key: string)
    requires Enumerates(keys, all) && key !in all
    ensures Enumerates(keys + [key], all + {key})
  {
    assert key !in keys;
  }

  /** The keys of one owner, in the order in which the table happens to hold them. */
  method KeysOwnedBy(owners: map<string, int>, id: int) returns (keys: seq<string>)
    ensures Enumerates(keys, Owned(owners, id))
  {
    keys := [];
    var unseen := owners.Keys;
    assert Enumerates(keys, Owned(owners, id) - unseen);
    while unseen != {}
      invariant unseen <= owners.Keys
      invariant Enumerates(keys, Owned(owners, id) - unseen)
      decreases |unseen|
    {
      hide Enumerates;
      var k :| k in unseen;
      if owners[k] == id {
        EnumeratesOneMore(keys, Owned(owners, id) - unseen, k);
        assert Owned(owners, id) - (unseen - {k}) == Owned(owners, id) - unseen + {k};
        keys := keys + [k];
      } else {
        assert Owned(owners, id) - (unseen - {k}) == Owned(owners, id) - unseen;
      }
      unseen := unseen - {k};
    }
    assert Owned(owners, id) - unseen == Owned(owners, id);
  }

  function KeySet(keys: seq<string>): set<string> {
    set k | k in keys
  }

  /** Takes the keys of one owner out of a table. */
  method RemoveOwnedKeys(owners: map<string, int>, id: int) returns (rest: map<string, int>, keys: seq<string>)
    ensures Enumerates(keys, Owned(owners, id))
    ensures rest == owners - Owned(owners, id)
  {
    keys := KeysOwnedBy(owners, id);
    rest := owners;
    for i := 0 to |keys|
      invariant rest == owners - KeySet(keys[..i])
    {
      assert keys[..i + 1] == keys[..i] + [keys[i]];
      assert KeySet(keys[..i + 1]) == KeySet(keys[..i]) + {keys[i]};
      rest := rest - {keys[i]};
    }
    assert keys[..|keys|] == keys;
    assert KeySet(keys) == Owned(owners, id);
  }

  class IncrementalLogState {
    const rules: Rules
    var totals: Totals
    var rawMultiplierCount: int
    var directBonusPoints: int
    var dupeCounts: map<string, nat>
    var dupeOwners: map<string, int>
    var multiplierOwners: map<string, int>
    var multiplierCounts: map<string, nat>
    var bonusOwners: map<string, int>
    var qsoCountBonusCounts: map<string, nat>

    constructor (rules: Rules)
      ensures this.rules == rules && Value() == NEW_LEDGER
    {
      this.rules := rules;
      totals, rawMultiplierCount, directBonusPoints := NO_TOTALS, 0, 0;
      dupeCounts, dupeOwners := map[], map[];
      multiplierOwners, multiplierCounts := map[], map[];
      bonusOwners, qsoCountBonusCounts := map[], map[];
    }

    function Value(): Ledger
      reads this
    {
      Ledger(totals, rawMultiplierCount, directBonusPoints, dupeCounts, dupeOwners, multiplierOwners,
             multiplierCounts, bonusOwners, qsoCountBonusCounts)
    }

    method RecalculateScore()
      modifies this`totals
      ensures Value() == Tallied(rules, old(Value()))
    {
      totals := Tally(rules, totals.qsoCount, totals.qsoPoints, rawMultiplierCount, directBonusPoints,
                      multiplierOwners.Keys, qsoCountBonusCounts);
    }

    method CountKeys(keys: seq<string>)
      modifies this`qsoCountBonusCounts
      ensures qsoCountBonusCounts == BumpAll(old(qsoCountBonusCounts), keys)
    {
      for i := 0 to |keys|
        invariant qsoCountBonusCounts == BumpAll(old(qsoCountBonusCounts), keys[..i])
      {
        assert keys[..i + 1][..i] == keys[..i];
        qsoCountBonusCounts := Bump(qsoCountBonusCounts, keys[i]);
      }
      assert keys[..|keys|] == keys;
    }

    method UncountKeys(keys: seq<string>)
      modifies this`qsoCountBonusCounts
      ensures qsoCountBonusCounts == DropAll(old(qsoCountBonusCounts), keys)
    {
      for i := 0 to |keys|
        invariant qsoCountBonusCounts == DropAll(old(qsoCountBonusCounts), keys[..i])
      {
        assert keys[..i + 1][..i] == keys[..i];
        qsoCountBonusCounts := Drop(qsoCountBonusCounts, keys[i]);
      }
      assert keys[..|keys|] == keys;
    }

    /** Claims every key nobody owns yet. The caller books the points. */
    method ScoreNonDupeContact(c: Contact) returns (points: int, mults: int, bonus: int)
      modifies this`multiplierOwners, this`multiplierCounts, this`bonusOwners
      ensures points == c.facts.points
      ensures (multiplierOwners, multiplierCounts, mults) ==
              ClaimMultipliers(old(multiplierOwners), old(multiplierCounts), c.facts.multipliers, c.id)
      ensures (bonusOwners, bonus) == ClaimBonuses(old(bonusOwners), c.facts.bonuses, c.id)
    {
      points, mults, bonus := c.facts.points, 0, 0;
      var cands, offers := c.facts.multipliers, c.facts.bonuses;
      for i := 0 to |cands|
        invariant bonusOwners == old(bonusOwners)
        invariant (multiplierOwners, multiplierCounts, mults) ==
                  ClaimMultipliers(old(multiplierOwners), old(multiplierCounts), cands[..i], c.id)
      {
        assert cands[..i + 1][..i] == cands[..i];
        var cand := cands[i];
        if cand.key !in multiplierOwners && !CapReached(multiplierCounts, cand) {
          multiplierOwners := multiplierOwners[cand.key := c.id];
          multiplierCounts := Bump(multiplierCounts, cand.Group());
          mults := mults + 1;
        }
      }
      assert cands[..|cands|] == cands;
      for i := 0 to |offers|
        invariant (multiplierOwners, multiplierCounts, mults) ==
                  ClaimMultipliers(old(multiplierOwners), old(multiplierCounts), cands, c.id)
        invariant (bonusOwners, bonus) == ClaimBonuses(old(bonusOwners), offers[..i], c.id)
      {
        assert offers[..i + 1][..i] == offers[..i];
        if offers[i].0 !in bonusOwners {
          bonusOwners := bonusOwners[offers[i].0 := c.id];
          bonus := bonus + offers[i].1;
        }
      }
      assert offers[..|offers|] == offers;
    }

    /** Scores a contact that counts, and books what it earns. */
    method Book(c: Contact) returns (scored: Contact)
      modifies this
      ensures (Value(), scored) == ScoreNonDupe(old(Value()), c)
    {
      var points, mults, bonus := ScoreNonDupeContact(c);
      totals := totals.(qsoPoints := totals.qsoPoints + points);
      rawMultiplierCount := rawMultiplierCount + mults;
      directBonusPoints := directBonusPoints + bonus;
      if points > 0 {
        CountKeys(c.facts.countKeys);
      }
      scored := c.(marks := Marks(points, mults, bonus, false));
    }

    method AddContact(contacts: array<Contact>, i: nat)
      requires i < contacts.Length
      modifies this, contacts
      ensures (Value(), contacts[i]) == Add(rules, old(Value()), old(contacts[i]))
      ensures contacts[..] == old(contacts[..])[i := contacts[i]]
    {
      hide Tally, ScoreNonDupe;
      var c := contacts[i];
      totals := totals.(qsoCount := totals.qsoCount + 1);
      var dupe := false;
      if c.facts.dupeKey.Some? {
        var key := c.facts.dupeKey.value;
        dupe := Get(dupeCounts, key) > 0;
        dupeCounts := Bump(dupeCounts, key);
        if !dupe && key !in dupeOwners {
          dupeOwners := dupeOwners[key := c.id];
        }
      }
      if dupe {
        contacts[i] := c.(marks := Marks(0, 0, 0, true));
      } else {
        var scored := Book(c);
        contacts[i] := scored;
      }
      RecalculateScore();
    }

    lemma Advanced(before: seq<Contact>, given: seq<Contact>, after: seq<Contact>, i: nat)
      requires i < |before| == |given| == |after| && before[i..] == given[i..] && after == before[i := after[i]]
      ensures after[..i + 1] == before[..i] + [after[i]]
      ensures after[i + 1..] == given[i + 1..]
    {
      assert before[i + 1..] == before[i..][1..] && given[i + 1..] == given[i..][1..];
    }

    /** Scores a whole log from nothing. */
    method Reset(contacts: array<Contact>)
      modifies this, contacts
      ensures (Value(), contacts[..]) == ScoringSpec.Reset(rules, old(contacts[..]))
    {
      totals, rawMultiplierCount, directBonusPoints := NO_TOTALS, 0, 0;
      dupeCounts, dupeOwners := map[], map[];
      multiplierOwners, multiplierCounts := map[], map[];
      bonusOwners, qsoCountBonusCounts := map[], map[];
      ghost var given := contacts[..];
      for i := 0 to contacts.Length
        invariant (Value(), contacts[..i]) == ScoringSpec.Reset(rules, given[..i])
        invariant contacts[i..] == given[i..]
      {
        assert given[..i + 1][..i] == given[..i];
        assert contacts[i] == contacts[i..][0] == given[i..][0];
        ghost var before := contacts[..];
        AddContact(contacts, i);
        Advanced(before, given, contacts[..], i);
        assert contacts[..i] == before[..i];
      }
      assert contacts[..contacts.Length] == contacts[..] && given[..contacts.Length] == given;
    }

    method PromoteContact(contacts: array<Contact>, i: nat) returns (changed: set<int>)
      requires i < contacts.Length
      modifies this, contacts
      ensures Outcome(Value(), contacts[..], changed) == Promote(old(Value()), old(contacts[..]), i)
    {
      hide ScoreNonDupe;
      if !contacts[i].marks.dupe {
        return {};
      }
      var scored := Book(contacts[i]);
      changed := {scored.id};
      assert scored.id == contacts[i].id by { BookedId(old(Value()), contacts[i]); }
      contacts[i] := scored;
    }

    lemma BookedId(st: Ledger, c: Contact)
      ensures ScoreNonDupe(st, c).1.id == c.id
    {
    }

    /** Gives a freed multiplier key to the first contact that can take it. */
    method InheritMultiplier(contacts: array<Contact>, key: string, skip: Option<int>, before: set<int>)
      returns (changed: set<int>)
      modifies this`multiplierOwners, this`rawMultiplierCount, contacts
      ensures Hands(multiplierOwners, rawMultiplierCount, contacts[..], changed) ==
              HandOne(Multiplier, Hands(old(multiplierOwners), old(rawMultiplierCount), old(contacts[..]), before), key, skip)
    {
      hide CanInherit, FirstIndex;
      changed := before;
      if key in multiplierOwners {
        return;
      }
      var found := Position(contacts, CanInherit(Multiplier, key, skip));
      if found.None? {
        return;
      }
      var c := contacts[found.value];
      CanInheritHas(Multiplier, key, skip, contacts[..], found.value);
      EveryMultiplierIsWorthOne(Offers(Multiplier, c.facts), key);
      hide Has, Worth, Offers;
      multiplierOwners := multiplierOwners[key := c.id];
      contacts[found.value] := c.(marks := c.marks.(mult := c.marks.mult + 1));
      rawMultiplierCount := rawMultiplierCount + 1;
      changed := changed + {c.id};
    }

    lemma CanInheritHas(kind: Kind, key: string, skip: Option<int>, cs: seq<Contact>, i: nat)
      requires FirstIndex(cs, CanInherit(kind, key, skip)) == Some(i)
      ensures i < |cs| && Has(Offers(kind, cs[i].facts), key)
    {
    }

    /** Gives each freed multiplier key to the first contact that can take it. */
    method HandOnMultipliers(contacts: array<Contact>, keys: seq<string>, skip: Option<int>, before: set<int>)
      returns (changed: set<int>)
      modifies this`multiplierOwners, this`rawMultiplierCount, contacts
      ensures Hands(multiplierOwners, rawMultiplierCount, contacts[..], changed) ==
              HandOn(Multiplier, Hands(old(multiplierOwners), old(rawMultiplierCount), old(contacts[..]), before), keys, skip)
    {
      hide HandOne;
      changed := before;
      ghost var start := Hands(multiplierOwners, rawMultiplierCount, contacts[..], before);
      for i := 0 to |keys|
        invariant Hands(multiplierOwners, rawMultiplierCount, contacts[..], changed) ==
                  HandOn(Multiplier, start, keys[..i], skip)
      {
        assert keys[..i + 1][..i] == keys[..i];
        changed := InheritMultiplier(contacts, keys[i], skip, changed);
      }
      assert keys[..|keys|] == keys;
    }

    lemma EveryMultiplierIsWorthOne(offers: seq<(string, int)>, key: string)
      requires Has(offers, key) && forall i :: 0 <= i < |offers| ==> offers[i].1 == 1
      ensures Worth(offers, key) == 1
    {
    }

    /** Gives a freed bonus key, and its points, to the first contact that can take it. */
    method InheritBonus(contacts: array<Contact>, key: string, skip: Option<int>, before: set<int>)
      returns (changed: set<int>)
      modifies this`bonusOwners, this`directBonusPoints, contacts
      ensures Hands(bonusOwners, directBonusPoints, contacts[..], changed) ==
              HandOne(Bonus, Hands(old(bonusOwners), old(directBonusPoints), old(contacts[..]), before), key, skip)
    {
      hide CanInherit, FirstIndex;
      changed := before;
      if key in bonusOwners {
        return;
      }
      var found := Position(contacts, CanInherit(Bonus, key, skip));
      if found.None? {
        return;
      }
      var c := contacts[found.value];
      CanInheritHas(Bonus, key, skip, contacts[..], found.value);
      hide Has, Worth;
      var points := Worth(c.facts.bonuses, key);
      bonusOwners := bonusOwners[key := c.id];
      contacts[found.value] := c.(marks := c.marks.(bonus := c.marks.bonus + points));
      directBonusPoints := directBonusPoints + points;
      changed := changed + {c.id};
    }

    /** Gives each freed bonus key to the first contact that can take it. */
    method HandOnBonuses(contacts: array<Contact>, keys: seq<string>, skip: Option<int>, before: set<int>)
      returns (changed: set<int>)
      modifies this`bonusOwners, this`directBonusPoints, contacts
      ensures Hands(bonusOwners, directBonusPoints, contacts[..], changed) ==
              HandOn(Bonus, Hands(old(bonusOwners), old(directBonusPoints), old(contacts[..]), before), keys, skip)
    {
      hide HandOne;
      changed := before;
      ghost var start := Hands(bonusOwners, directBonusPoints, contacts[..], before);
      for i := 0 to |keys|
        invariant Hands(bonusOwners, directBonusPoints, contacts[..], changed) ==
                  HandOn(Bonus, start, keys[..i], skip)
      {
        assert keys[..i + 1][..i] == keys[..i];
        changed := InheritBonus(contacts, keys[i], skip, changed);
      }
      assert keys[..|keys|] == keys;
    }

    /** Takes the marks of a contact out of the counters. */
    method Debit(gone: Contact)
      modifies this
      ensures Value() == Debited(old(Value()), gone)
    {
      hide DropAll, Drop;
      totals := totals.(qsoCount := if totals.qsoCount == 0 then 0 else totals.qsoCount - 1,
                        qsoPoints := totals.qsoPoints - gone.marks.pts);
      rawMultiplierCount := rawMultiplierCount - gone.marks.mult;
      directBonusPoints := directBonusPoints - gone.marks.bonus;
      if !gone.marks.dupe && gone.marks.pts > 0 {
        UncountKeys(gone.facts.countKeys);
      }
      if gone.facts.dupeKey.Some? {
        dupeCounts := Drop(dupeCounts, gone.facts.dupeKey.value);
      }
    }

    /** Passes a dupe key that a contact owned to the next contact that shares it. */
    method PassDupeKey(gone: Contact, contacts: array<Contact>, skip: Option<int>) returns (heir: Option<nat>)
      modifies this`dupeOwners
      ensures heir == if OwnsDupeKey(old(Value()), gone)
                      then FirstIndex(contacts[..], SharesDupeKey(gone.facts.dupeKey.value, skip)) else None
      ensures dupeOwners == if !OwnsDupeKey(old(Value()), gone) then old(dupeOwners)
                else if heir.Some? then old(dupeOwners)[gone.facts.dupeKey.value := contacts[heir.value].id]
                else old(dupeOwners) - {gone.facts.dupeKey.value}
    {
      hide SharesDupeKey;
      heir := None;
      if gone.facts.dupeKey.Some? {
        var key := gone.facts.dupeKey.value;
        if key in dupeOwners && dupeOwners[key] == gone.id {
          dupeOwners := dupeOwners - {key};
          heir := Position(contacts, SharesDupeKey(key, skip));
          if heir.Some? {
            dupeOwners := dupeOwners[key := contacts[heir.value].id];
          }
        }
      }
    }

    /** Frees the keys of a contact and lets the next contact with its dupe key count instead. */
    method Replace(gone: Contact, contacts: array<Contact>, skip: Option<int>)
      returns (changed: set<int>, freedMultipliers: seq<string>, freedBonuses: seq<string>)
      modifies this, contacts
      ensures FreedOrder(old(Value()), gone, Order(freedMultipliers, freedBonuses))
      ensures Outcome(Value(), contacts[..], changed) == Replaced(old(Value()), gone, old(contacts[..]), skip)
    {
      hide Promote, SharesDupeKey, FirstIndex, DropAll, Drop;
      Debit(gone);
      var heir := PassDupeKey(gone, contacts, skip);
      multiplierOwners, freedMultipliers := RemoveOwnedKeys(multiplierOwners, gone.id);
      bonusOwners, freedBonuses := RemoveOwnedKeys(bonusOwners, gone.id);
      changed := {};
      if heir.Some? {
        changed := PromoteContact(contacts, heir.value);
      }
    }

    /** Takes a contact out of the state, and lets the others inherit what it owned. */
    method RemoveContact(gone: Contact, contacts: array<Contact>, skip: Option<int>)
      returns (changed: set<int>, ghost order: Order)
      modifies this, contacts
      ensures FreedOrder(old(Value()), gone, order)
      ensures Outcome(Value(), contacts[..], changed) ==
              Remove(rules, old(Value()), gone, old(contacts[..]), skip, order)
    {
      hide Replaced, HandOn, Tally, FreedOrder;
      var freedMultipliers, freedBonuses;
      changed, freedMultipliers, freedBonuses := Replace(gone, contacts, skip);
      order := Order(freedMultipliers, freedBonuses);
      changed := HandOnMultipliers(contacts, freedMultipliers, skip, changed);
      changed := HandOnBonuses(contacts, freedBonuses, skip, changed);
      RecalculateScore();
    }

    method RemoveAll(previous: seq<Contact>, contacts: array<Contact>)
      returns (changed: set<int>, ghost orders: seq<Order>)
      modifies this, contacts
      ensures |orders| == |previous|
      ensures FreedOrders(rules, Outcome(old(Value()), old(contacts[..]), {}), previous, orders)
      ensures Outcome(Value(), contacts[..], changed) ==
              RemoveEach(rules, Outcome(old(Value()), old(contacts[..]), {}), previous, orders)
    {
      hide Remove, FreedOrder;
      changed, orders := {}, [];
      ghost var start := Outcome(Value(), contacts[..], {});
      for i := 0 to |previous|
        invariant |orders| == i
        invariant FreedOrders(rules, start, previous[..i], orders)
        invariant Outcome(Value(), contacts[..], changed) == RemoveEach(rules, start, previous[..i], orders)
      {
        assert previous[..i + 1][..i] == previous[..i];
        ghost var before := orders;
        var more, order := RemoveContact(previous[i], contacts, Some(previous[i].id));
        changed := changed + more;
        orders := orders + [order];
        assert orders[..i] == before;
      }
      assert previous[..|previous|] == previous;
    }

    method AddAll(committed: seq<Contact>, contacts: array<Contact>)
      modifies this, contacts
      ensures (Value(), contacts[..]) == AddEach(rules, old(Value()), old(contacts[..]), committed)
    {
      hide Add;
      ghost var start, given := Value(), contacts[..];
      for i := 0 to |committed|
        invariant (Value(), contacts[..]) == AddEach(rules, start, given, committed[..i])
      {
        assert committed[..i + 1][..i] == committed[..i];
        var found := Position(contacts, WithId(committed[i].id));
        if found.Some? {
          AddContact(contacts, found.value);
        }
      }
      assert committed[..|committed|] == committed;
    }

    method Collect(contacts: array<Contact>, changed: set<int>, excluded: set<int>) returns (reported: seq<Contact>)
      ensures reported == CollectChanged(contacts[..], changed, excluded)
    {
      reported := [];
      for i := 0 to contacts.Length
        invariant reported == CollectChanged(contacts[..i], changed, excluded)
      {
        assert contacts[..i + 1][..i] == contacts[..i];
        if contacts[i].id in changed && contacts[i].id !in excluded {
          reported := reported + [contacts[i]];
        }
      }
      assert contacts[..contacts.Length] == contacts[..];
    }

    /** `contacts` already holds the committed contacts; `previous` their earlier versions. */
    method OnContactsUpserted(contacts: array<Contact>, committed: seq<Contact>, previous: seq<Contact>)
      returns (reported: seq<Contact>, ghost orders: seq<Order>)
      modifies this, contacts
      ensures |orders| == |previous|
      ensures !rules.capped ==>
                FreedOrders(rules, Outcome(old(Value()), old(contacts[..]), {}), previous, orders)
      ensures var o := OnUpserted(rules, old(Value()), old(contacts[..]), committed, previous, orders);
              && Value() == o.ledger && contacts[..] == o.contacts
              && reported == CollectChanged(o.contacts, o.changed, Ids(committed))
    {
      hide RemoveEach, AddEach, FreedOrders, ScoringSpec.Reset;
      var changed: set<int>;
      if rules.capped {
        orders := seq(|previous|, i => Order([], []));
        Reset(contacts);
        changed := set c | c in contacts[..] :: c.id;
      } else {
        changed, orders := RemoveAll(previous, contacts);
        AddAll(committed, contacts);
      }
      reported := Collect(contacts, changed, set c | c in committed :: c.id);
    }

    /** `contacts` no longer holds the deleted contact. */
    method OnContactDeleted(contacts: array<Contact>, gone: Contact)
      returns (reported: seq<Contact>, ghost order: Order)
      modifies this, contacts
      ensures !rules.capped ==> FreedOrder(old(Value()), gone, order)
      ensures var o := OnDeleted(rules, old(Value()), old(contacts[..]), gone, order);
              && Value() == o.ledger && contacts[..] == o.contacts
              && reported == if rules.capped then o.contacts else CollectChanged(o.contacts, o.changed, {})
    {
      hide Remove, FreedOrder, ScoringSpec.Reset;
      order := Order([], []);
      if rules.capped {
        Reset(contacts);
        reported := contacts[..];
      } else {
        var changed;
        changed, order := RemoveContact(gone, contacts, None);
        reported := Collect(contacts, changed, {});
      }
    }
  }
}
