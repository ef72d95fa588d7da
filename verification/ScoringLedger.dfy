/**
 What the incremental ledger keeps: the relation between its counters and owner tables on one
 side and the set of live contacts with their marks on the other, and that every operation on
 the ledger re-establishes it.
 */
module ScoringLedger {
  import opened Sums
  import opened ScoringSpec

  const ONE: string -> int := k => 1

  function OfferKeys(kind: Kind, f: Facts): set<string> {
    KeysOf(Offers(kind, f))
  }

  function KeysOf(offers: seq<(string, int)>): set<string> {
    set i | 0 <= i < |offers| :: offers[i].0
  }

  function Mark(kind: Kind, c: Contact): int {
    match kind
    case Multiplier => c.marks.mult
    case Bonus => c.marks.bonus
  }

  function WorthOf(kind: Kind, pts: string -> int): string -> int {
    match kind
    case Multiplier => ONE
    case Bonus => pts
  }

  ghost predicate FairOffers(offers: seq<(string, int)>, worth: string -> int) {
    forall i :: 0 <= i < |offers| ==> offers[i].1 == worth(offers[i].0)
  }

  /** No multiplier has a cap, and what a bonus key is worth depends on the key alone. */
  ghost predicate Admissible(pts: string -> int, f: Facts) {
    && (forall i :: 0 <= i < |f.multipliers| ==> f.multipliers[i].maxCount.None?)
    && FairOffers(f.bonuses, pts)
  }

  ghost predicate UniqueIds(live: set<Contact>) {
    forall c, d :: c in live && d in live && c.id == d.id ==> c == d
  }

  predicate Distinct(cs: seq<Contact>) {
    forall i, j :: 0 <= i < j < |cs| ==> cs[i].id != cs[j].id
  }

  /** The contacts of a log that are in the ledger; those with an id in `out` are not yet. */
  function Live(cs: seq<Contact>, out: set<int>): set<Contact> {
    set c | c in cs && c.id !in out
  }

  function SetOf(cs: seq<Contact>): set<Contact> {
    set c | c in cs
  }

  function Ids(cs: seq<Contact>): set<int> {
    set c | c in cs :: c.id
  }

  function Weight(b: bool): int {
    if b then 1 else 0
  }

  function KeyWeight(key: string): Contact -> int {
    (c: Contact) => Weight(c.facts.dupeKey == Some(key))
  }

  function PointWeight(): Contact -> int {
    (c: Contact) => if c.marks.dupe then 0 else c.facts.points
  }

  function CountWeight(key: string): Contact -> int {
    (c: Contact) => if c.marks.dupe || c.facts.points <= 0 then 0 else multiset(c.facts.countKeys)[key]
  }

  ghost predicate KeyCountsOk(dupeCounts: map<string, nat>, live: set<Contact>) {
    && (forall k :: Get(dupeCounts, k) == Sum(live, KeyWeight(k)))
    && (forall k :: k in dupeCounts ==> dupeCounts[k] > 0)
  }

  /** Exactly one contact per dupe key counts, and it is the recorded owner of the key. */
  ghost predicate DupesOk(dupeCounts: map<string, nat>, dupeOwners: map<string, int>, live: set<Contact>) {
    && (forall c :: c in live && c.facts.dupeKey.None? ==> !c.marks.dupe)
    && (forall c :: c in live && c.facts.dupeKey.Some? ==>
          && c.facts.dupeKey.value in dupeOwners
          && (c.marks.dupe <==> dupeOwners[c.facts.dupeKey.value] != c.id))
    && (forall k :: k in dupeOwners ==> exists c :: c in live && c.facts.dupeKey == Some(k) && c.id == dupeOwners[k])
    && KeyCountsOk(dupeCounts, live)
  }

  ghost predicate Holds(kind: Kind, c: Contact, key: string, live: set<Contact>) {
    c in live && !c.marks.dupe && key in OfferKeys(kind, c.facts)
  }

  /** Every owned key is owned by a counting contact that offers it. */
  ghost predicate Held(kind: Kind, owners: map<string, int>, live: set<Contact>) {
    forall k :: k in owners ==> exists c :: Holds(kind, c, k, live) && c.id == owners[k]
  }

  /** Every key that a counting contact offers is owned, or still waits to be handed on. */
  ghost predicate Covered(kind: Kind, owned: set<string>, live: set<Contact>, pending: set<string>) {
    forall c, k :: Holds(kind, c, k, live) ==> k in owned || k in pending
  }

  /** The mark of each contact is what the keys it owns are worth. */
  ghost predicate Booked(kind: Kind, worth: string -> int, owners: map<string, int>, live: set<Contact>) {
    forall c :: c in live ==> Mark(kind, c) == Sum(Owned(owners, c.id), worth)
  }

  ghost predicate ClaimsOk(kind: Kind, worth: string -> int, owners: map<string, int>, total: int,
                           live: set<Contact>, pending: set<string>)
  {
    && Held(kind, owners, live)
    && Covered(kind, owners.Keys, live, pending)
    && Booked(kind, worth, owners, live)
    && total == Sum(owners.Keys, worth)
  }

  ghost predicate SumsOk(qsoCount: nat, qsoPoints: int, counts: map<string, nat>, live: set<Contact>) {
    && qsoCount == |live|
    && qsoPoints == Sum(live, PointWeight())
    && (forall k :: Get(counts, k) == Sum(live, CountWeight(k)))
    && (forall k :: k in counts ==> counts[k] > 0)
    && (forall c :: c in live ==> c.marks.pts == if c.marks.dupe then 0 else c.facts.points)
  }

  /** The freed keys of either kind that still wait to be handed on. */
  datatype Pending = Pending(mults: set<string>, bonuses: set<string>)
  {
    function Less(kind: Kind, keys: set<string>): Pending {
      match kind
      case Multiplier => Pending(mults - keys, bonuses)
      case Bonus => Pending(mults, bonuses - keys)
    }
  }

  const NOTHING_PENDING := Pending({}, {})

  /** The counters and claims of a ledger, without its dupe tables. */
  ghost predicate BooksOk(pts: string -> int, st: Ledger, live: set<Contact>, p: Pending) {
    && UniqueIds(live)
    && (forall c :: c in live ==> Admissible(pts, c.facts))
    && ClaimsOk(Multiplier, ONE, st.multOwners, st.raw, live, p.mults)
    && ClaimsOk(Bonus, pts, st.bonusOwners, st.direct, live, p.bonuses)
    && SumsOk(st.totals.qsoCount, st.totals.qsoPoints, st.counts, live)
  }

  ghost predicate LedgerOk(pts: string -> int, st: Ledger, live: set<Contact>, p: Pending) {
    BooksOk(pts, st, live, p) && DupesOk(st.dupeCounts, st.dupeOwners, live)
  }

  /** The invariant between operations. The headline totals of an untouched ledger are all zero. */
  ghost predicate Inv(r: Rules, pts: string -> int, st: Ledger, live: set<Contact>) {
    && LedgerOk(pts, st, live, NOTHING_PENDING)
    && (st.totals == Tallied(r, st).totals || (live == {} && st.totals == NO_TOTALS))
  }

  // ----- sums when one contact changes -----

  lemma SumGrow(live: set<Contact>, c: Contact)
    requires c !in live
    ensures forall w: Contact -> int :: Sum(live + {c}, w) == Sum(live, w) + w(c)
    ensures |live + {c}| == |live| + 1
  {
    forall w: Contact -> int { SumAdd(live, w, c); }
  }

  lemma SumShrink(live: set<Contact>, c: Contact)
    requires c in live
    ensures forall w: Contact -> int :: Sum(live - {c}, w) == Sum(live, w) - w(c)
    ensures |live - {c}| == |live| - 1
  {
    forall w: Contact -> int { SumPick(live, w, c); }
  }

  /** A count is positive exactly when some live contact has the key. */
  lemma KeyPresent(live: set<Contact>, key: string)
    ensures Sum(live, KeyWeight(key)) > 0 <==> exists c :: c in live && c.facts.dupeKey == Some(key)
  {
    SumNonNegative(live, KeyWeight(key));
    if c :| c in live && c.facts.dupeKey == Some(key) {
      assert KeyWeight(key)(c) == 1;
    } else {
      SumSame(live, KeyWeight(key), c => 0);
      SumZero(live);
    }
  }

  lemma {:induction false} SumZero(live: set<Contact>)
    ensures Sum(live, c => 0) == 0
    decreases live
  {
    var zero: Contact -> int := c => 0;
    if live != {} {
      var x :| x in live;
      SumPick(live, zero, x);
      SumZero(live - {x});
      SumSame(live - {x}, zero, c => 0);
      SumSame(live, zero, c => 0);
    }
    SumSame(live, zero, c => 0);
  }

  // ----- claiming -----

  lemma {:induction false} UncappedClaims(owners: map<string, int>, counts: map<string, nat>, f: Facts,
                                          n: nat, id: int)
    requires n <= |f.multipliers|
    requires forall i :: 0 <= i < |f.multipliers| ==> f.multipliers[i].maxCount.None?
    ensures var (os, cs, k) := ClaimMultipliers(owners, counts, f.multipliers[..n], id);
            (os, k) == ClaimBonuses(owners, Offers(Multiplier, f)[..n], id)
  {
    if n > 0 {
      UncappedClaims(owners, counts, f, n - 1, id);
      assert f.multipliers[..n][..n - 1] == f.multipliers[..n - 1];
      assert Offers(Multiplier, f)[..n][..n - 1] == Offers(Multiplier, f)[..n - 1];
    }
  }

  lemma {:induction false} ClaimEffect(owners: map<string, int>, offers: seq<(string, int)>, id: int, worth: string -> int)
    requires FairOffers(offers, worth)
    ensures var (os, n) := ClaimBonuses(owners, offers, id);
            && os.Keys == owners.Keys + KeysOf(offers)
            && (forall k :: k in os ==> os[k] == if k in owners then owners[k] else id)
            && n == Sum(KeysOf(offers) - owners.Keys, worth)
  {
    if offers == [] {
    } else {
      var init := offers[..|offers| - 1];
      var key := offers[|offers| - 1].0;
      ClaimEffect(owners, init, id, worth);
      assert KeysOf(offers) == KeysOf(init) + {key} by {
        forall k | k in KeysOf(offers) ensures k in KeysOf(init) + {key} {
          var i :| 0 <= i < |offers| && offers[i].0 == k;
          assert i < |init| ==> init[i].0 == k;
        }
        assert forall i :: 0 <= i < |init| ==> init[i] == offers[i];
      }
      var newKeys := KeysOf(init) - owners.Keys;
      if key in owners.Keys + KeysOf(init) {
        assert KeysOf(offers) - owners.Keys == newKeys;
      } else {
        assert KeysOf(offers) - owners.Keys == newKeys + {key};
        SumAdd(newKeys, worth, key);
      }
    }
  }

  lemma HeldBy(kind: Kind, owners: map<string, int>, live: set<Contact>, os: map<string, int>, next: set<Contact>)
    requires Held(kind, owners, live)
    requires forall k :: k in os ==>
               || (k in owners && os[k] == owners[k])
               || (exists c :: Holds(kind, c, k, next) && c.id == os[k])
    requires forall c, k :: Holds(kind, c, k, live) && k in os && k in owners && os[k] == owners[k] && c.id == os[k]
               ==> exists d :: Holds(kind, d, k, next) && d.id == c.id
    ensures Held(kind, os, next)
  {
    forall k | k in os ensures exists c :: Holds(kind, c, k, next) && c.id == os[k] {
      if k in owners && os[k] == owners[k] {
        var c :| Holds(kind, c, k, live) && c.id == owners[k];
        var d :| Holds(kind, d, k, next) && d.id == c.id;
      }
    }
  }

  lemma NobodyOwns(kind: Kind, owners: map<string, int>, live: set<Contact>, id: int)
    requires Held(kind, owners, live)
    requires forall d :: d in live && d.id == id ==> d.marks.dupe
    ensures Owned(owners, id) == {}
  {
    forall k | k in owners ensures owners[k] != id {
      var c :| Holds(kind, c, k, live) && c.id == owners[k];
    }
  }

  lemma BookedJoin(kind: Kind, worth: string -> int, owners: map<string, int>, live: set<Contact>,
                   os: map<string, int>, c: Contact)
    requires Booked(kind, worth, owners, live)
    requires forall d :: d in live ==> Owned(os, d.id) == Owned(owners, d.id)
    requires Mark(kind, c) == Sum(Owned(os, c.id), worth)
    ensures Booked(kind, worth, os, live + {c})
  {
  }

  /** What a claim does to an owner table: new keys go to one owner, old ones keep theirs. */
  ghost predicate Claimed(owners: map<string, int>, os: map<string, int>, newKeys: set<string>, id: int) {
    && newKeys !! owners.Keys
    && os.Keys == owners.Keys + newKeys
    && forall k :: k in os ==> os[k] == if k in owners then owners[k] else id
  }

  lemma ClaimHeld(kind: Kind, owners: map<string, int>, os: map<string, int>, newKeys: set<string>,
                  live: set<Contact>, c: Contact)
    requires Held(kind, owners, live) && Claimed(owners, os, newKeys, c.id)
    requires !c.marks.dupe && newKeys <= OfferKeys(kind, c.facts)
    ensures Held(kind, os, live + {c})
  {
    forall k | k in os && k !in owners ensures Holds(kind, c, k, live + {c}) && c.id == os[k] { }
    forall d, k | Holds(kind, d, k, live) ensures Holds(kind, d, k, live + {c}) { }
    HeldBy(kind, owners, live, os, live + {c});
  }

  lemma ClaimCovered(kind: Kind, owners: map<string, int>, os: map<string, int>, newKeys: set<string>,
                     live: set<Contact>, pending: set<string>, c: Contact)
    requires Covered(kind, owners.Keys, live, pending) && Claimed(owners, os, newKeys, c.id)
    requires OfferKeys(kind, c.facts) <= os.Keys
    ensures Covered(kind, os.Keys, live + {c}, pending)
  {
    forall d, k | Holds(kind, d, k, live + {c}) ensures k in os.Keys || k in pending {
      if d != c { assert Holds(kind, d, k, live); }
    }
  }

  lemma ClaimBooked(kind: Kind, worth: string -> int, owners: map<string, int>, os: map<string, int>,
                    newKeys: set<string>, live: set<Contact>, c: Contact)
    requires Booked(kind, worth, owners, live) && Claimed(owners, os, newKeys, c.id)
    requires forall d :: d in live ==> d.id != c.id
    requires Owned(owners, c.id) == {}
    requires Mark(kind, c) == Sum(newKeys, worth)
    ensures Booked(kind, worth, os, live + {c})
  {
    assert Owned(os, c.id) == newKeys by {
      assert forall k :: k in owners ==> k !in Owned(owners, c.id);
    }
    forall d | d in live ensures Owned(os, d.id) == Owned(owners, d.id) { }
    BookedJoin(kind, worth, owners, live, os, c);
  }

  /** A counting contact that claims every free key it offers keeps the claims consistent. */
  lemma ClaimKeeps(kind: Kind, worth: string -> int, owners: map<string, int>, total: int,
                   live: set<Contact>, pending: set<string>, c: Contact)
    requires ClaimsOk(kind, worth, owners, total, live, pending)
    requires FairOffers(Offers(kind, c.facts), worth)
    requires forall d :: d in live ==> d.id != c.id
    requires !c.marks.dupe
    requires Mark(kind, c) == ClaimBonuses(owners, Offers(kind, c.facts), c.id).1
    ensures var (os, n) := ClaimBonuses(owners, Offers(kind, c.facts), c.id);
            ClaimsOk(kind, worth, os, total + n, live + {c}, pending)
  {
    var (os, n) := ClaimBonuses(owners, Offers(kind, c.facts), c.id);
    var newKeys := OfferKeys(kind, c.facts) - owners.Keys;
    ClaimEffect(owners, Offers(kind, c.facts), c.id, worth);
    assert Claimed(owners, os, newKeys, c.id);
    SumUnion(owners.Keys, newKeys, worth);
    NobodyOwns(kind, owners, live, c.id);
    ClaimHeld(kind, owners, os, newKeys, live, c);
    ClaimCovered(kind, owners, os, newKeys, live, pending, c);
    ClaimBooked(kind, worth, owners, os, newKeys, live, c);
  }

  /** A dupe owns nothing and may come and go. */
  lemma DupeJoins(kind: Kind, worth: string -> int, owners: map<string, int>, total: int,
                  live: set<Contact>, pending: set<string>, c: Contact)
    requires ClaimsOk(kind, worth, owners, total, live, pending)
    requires forall d :: d in live ==> d.id != c.id
    requires c.marks.dupe && Mark(kind, c) == 0
    ensures ClaimsOk(kind, worth, owners, total, live + {c}, pending)
  {
    var next := live + {c};
    assert Booked(kind, worth, owners, next) by {
      NobodyOwns(kind, owners, live, c.id);
      BookedJoin(kind, worth, owners, live, owners, c);
    }
    assert Held(kind, owners, next) by {
      forall d, k | Holds(kind, d, k, live) ensures Holds(kind, d, k, next) { }
      HeldBy(kind, owners, live, owners, next);
    }
    assert Covered(kind, owners.Keys, next, pending) by {
      forall d, k | Holds(kind, d, k, next) ensures Holds(kind, d, k, live) { }
    }
  }

  lemma DupeLeaves(kind: Kind, worth: string -> int, owners: map<string, int>, total: int,
                   live: set<Contact>, pending: set<string>, c: Contact)
    requires ClaimsOk(kind, worth, owners, total, live, pending)
    requires c.marks.dupe
    ensures ClaimsOk(kind, worth, owners, total, live - {c}, pending)
  {
    var next := live - {c};
    assert Held(kind, owners, next) by {
      forall d, k | Holds(kind, d, k, live) ensures Holds(kind, d, k, next) { }
      HeldBy(kind, owners, live, owners, next);
    }
    assert Covered(kind, owners.Keys, next, pending) by {
      forall d, k | Holds(kind, d, k, next) ensures Holds(kind, d, k, live) { }
    }
  }

  /** Freeing what a leaving contact owned leaves exactly those keys to be handed on. */
  lemma FreeKeeps(kind: Kind, worth: string -> int, owners: map<string, int>, total: int,
                  live: set<Contact>, gone: Contact)
    requires ClaimsOk(kind, worth, owners, total, live, {})
    requires UniqueIds(live) && gone in live
    ensures ClaimsOk(kind, worth, owners - Owned(owners, gone.id), total - Mark(kind, gone), live - {gone},
                     Owned(owners, gone.id))
  {
    hide Sum;
    var freed := Owned(owners, gone.id);
    var os := owners - freed;
    var next := live - {gone};
    assert total - Mark(kind, gone) == Sum(os.Keys, worth) by {
      assert owners.Keys == os.Keys + freed;
      SumUnion(os.Keys, freed, worth);
    }
    assert Booked(kind, worth, os, next) by {
      forall d | d in next ensures Owned(os, d.id) == Owned(owners, d.id) { }
    }
    assert Held(kind, os, next) by {
      forall d, k | Holds(kind, d, k, live) && k in os && d.id == os[k] ensures Holds(kind, d, k, next) { }
      HeldBy(kind, owners, live, os, next);
    }
    assert Covered(kind, os.Keys, next, freed) by {
      forall d, k | Holds(kind, d, k, next) ensures k in os.Keys || k in freed {
        assert Holds(kind, d, k, live);
      }
    }
  }

  // ----- handing freed keys on -----

  /** Two versions of one contact that differ at most in their marks of one kind. */
  predicate Remarked(kind: Kind, c: Contact, d: Contact) {
    && d.id == c.id && d.facts == c.facts
    && d.marks.pts == c.marks.pts && d.marks.dupe == c.marks.dupe
    && (kind == Bonus ==> d.marks.mult == c.marks.mult)
    && (kind == Multiplier ==> d.marks.bonus == c.marks.bonus)
  }

  function Swapped(live: set<Contact>, c: Contact, d: Contact): set<Contact> {
    live - {c} + {d}
  }

  /** Two versions of a contact that score the same points. */
  predicate SamePoints(c: Contact, d: Contact) {
    && d.id == c.id && d.marks.pts == c.marks.pts && d.marks.dupe == c.marks.dupe
    && d.facts.points == c.facts.points && d.facts.countKeys == c.facts.countKeys
  }

  lemma SwapKeepsSums(qsoCount: nat, qsoPoints: int, counts: map<string, nat>, live: set<Contact>,
                      c: Contact, d: Contact)
    requires UniqueIds(live) && c in live && SamePoints(c, d)
    requires SumsOk(qsoCount, qsoPoints, counts, live)
    ensures SumsOk(qsoCount, qsoPoints, counts, Swapped(live, c, d))
  {
    hide Sum;
    SumShrink(live, c);
    SumGrow(live - {c}, d);
    var next := Swapped(live, c, d);
    assert PointWeight()(c) == PointWeight()(d);
    forall k ensures Sum(next, CountWeight(k)) == Sum(live, CountWeight(k)) {
      assert CountWeight(k)(c) == CountWeight(k)(d);
    }
  }

  lemma RemarkHolds(kind: Kind, other: Kind, live: set<Contact>, c: Contact, d: Contact)
    requires c in live && Remarked(kind, c, d)
    ensures forall e, k :: Holds(other, e, k, live) ==>
              Holds(other, if e == c then d else e, k, Swapped(live, c, d)) && (if e == c then d else e).id == e.id
    ensures forall e, k :: Holds(other, e, k, Swapped(live, c, d)) ==>
              Holds(other, if e == d then c else e, k, live)
  {
  }

  lemma RemarkHeld(kind: Kind, other: Kind, owners: map<string, int>, live: set<Contact>, c: Contact, d: Contact)
    requires c in live && Remarked(kind, c, d)
    requires Held(other, owners, live)
    ensures Held(other, owners, Swapped(live, c, d))
  {
    RemarkHolds(kind, other, live, c, d);
    HeldBy(other, owners, live, owners, Swapped(live, c, d));
  }

  lemma RemarkCovered(kind: Kind, other: Kind, owned: set<string>, live: set<Contact>, pending: set<string>,
                      c: Contact, d: Contact)
    requires c in live && Remarked(kind, c, d)
    requires Covered(other, owned, live, pending)
    ensures Covered(other, owned, Swapped(live, c, d), pending)
  {
    RemarkHolds(kind, other, live, c, d);
    forall e, k | Holds(other, e, k, Swapped(live, c, d)) ensures k in owned || k in pending {
      assert Holds(other, if e == d then c else e, k, live);
    }
  }

  lemma RemarkKeepsOtherClaims(kind: Kind, other: Kind, worth: string -> int, owners: map<string, int>, total: int,
                               live: set<Contact>, pending: set<string>, c: Contact, d: Contact)
    requires c in live && Remarked(kind, c, d) && other != kind
    requires ClaimsOk(other, worth, owners, total, live, pending)
    ensures ClaimsOk(other, worth, owners, total, Swapped(live, c, d), pending)
  {
    RemarkHeld(kind, other, owners, live, c, d);
    RemarkCovered(kind, other, owners.Keys, live, pending, c, d);
    RemarkBooked(other, worth, owners, live, c, d);
  }

  lemma RemarkBooked(other: Kind, worth: string -> int, owners: map<string, int>,
                     live: set<Contact>, c: Contact, d: Contact)
    requires c in live && d.id == c.id && Mark(other, d) == Mark(other, c)
    requires Booked(other, worth, owners, live)
    ensures Booked(other, worth, owners, Swapped(live, c, d))
  {
  }

  lemma GrantHeld(kind: Kind, owners: map<string, int>, live: set<Contact>, c: Contact, d: Contact, key: string)
    requires Holds(kind, c, key, live) && key !in owners && Remarked(kind, c, d)
    requires Held(kind, owners, live)
    ensures Held(kind, owners[key := c.id], Swapped(live, c, d))
  {
    var os, next := owners[key := c.id], Swapped(live, c, d);
    forall k | k in os ensures exists e :: Holds(kind, e, k, next) && e.id == os[k] {
      if k == key {
        assert Holds(kind, d, k, next);
      } else {
        var e :| Holds(kind, e, k, live) && e.id == owners[k];
        assert Holds(kind, if e == c then d else e, k, next);
      }
    }
  }

  lemma GrantBooked(kind: Kind, worth: string -> int, owners: map<string, int>, live: set<Contact>, c: Contact,
                    d: Contact, key: string)
    requires UniqueIds(live) && c in live && key !in owners && d.id == c.id
    requires Mark(kind, d) == Mark(kind, c) + worth(key)
    requires Booked(kind, worth, owners, live)
    ensures Booked(kind, worth, owners[key := c.id], Swapped(live, c, d))
  {
    var os := owners[key := c.id];
    assert Owned(os, c.id) == Owned(owners, c.id) + {key};
    SumAdd(Owned(owners, c.id), worth, key);
    forall e | e in live - {c} ensures Owned(os, e.id) == Owned(owners, e.id) { }
    BookedJoin(kind, worth, owners, live - {c}, os, d);
  }

  lemma GrantKeeps(kind: Kind, worth: string -> int, owners: map<string, int>, total: int,
                   live: set<Contact>, pending: set<string>, c: Contact, key: string)
    requires UniqueIds(live) && Holds(kind, c, key, live) && key !in owners
    requires ClaimsOk(kind, worth, owners, total, live, pending)
    ensures ClaimsOk(kind, worth, owners[key := c.id], total + worth(key),
                     Swapped(live, c, AddToMark(kind, c, worth(key))), pending - {key})
  {
    var d := AddToMark(kind, c, worth(key));
    assert owners[key := c.id].Keys == owners.Keys + {key};
    SumAdd(owners.Keys, worth, key);
    GrantBooked(kind, worth, owners, live, c, d, key);
    GrantHeld(kind, owners, live, c, d, key);
    RemarkCovered(kind, kind, owners.Keys, live, pending, c, d);
  }

  lemma NoHeirKeeps(kind: Kind, worth: string -> int, owners: map<string, int>, total: int,
                    live: set<Contact>, pending: set<string>, key: string)
    requires ClaimsOk(kind, worth, owners, total, live, pending)
    requires key in owners || forall c :: c in live ==> !Holds(kind, c, key, live)
    ensures ClaimsOk(kind, worth, owners, total, live, pending - {key})
  {
  }

  /** Same contacts in the same places; only marks differ, and only those of changed contacts. */
  ghost predicate Relabelled(cs: seq<Contact>, ds: seq<Contact>, changed: set<int>) {
    && |ds| == |cs|
    && forall i :: 0 <= i < |cs| ==>
         && ds[i].id == cs[i].id && ds[i].facts == cs[i].facts
         && (ds[i] != cs[i] ==> cs[i].id in changed)
  }

  lemma {:induction false} HandOnRelabels(kind: Kind, h: Hands, keys: seq<string>, skip: Option<int>)
    ensures var g := HandOn(kind, h, keys, skip);
            Relabelled(h.contacts, g.contacts, g.changed) && h.changed <= g.changed
  {
    if keys != [] {
      HandOnRelabels(kind, h, keys[..|keys| - 1], skip);
    }
  }

  lemma {:induction false} HandOnKeepsDupes(kind: Kind, h: Hands, keys: seq<string>, skip: Option<int>)
    ensures var g := HandOn(kind, h, keys, skip);
            forall i :: 0 <= i < |h.contacts| ==> g.contacts[i].marks.dupe == h.contacts[i].marks.dupe
  {
    if keys != [] {
      HandOnKeepsDupes(kind, h, keys[..|keys| - 1], skip);
    }
  }

  /**
   Where heirs are looked for. Contacts in the list with an id in `out` are not in the ledger, and
   the one with id `skip` is passed over; those in `leaving` are in the ledger but not in the list.
   */
  datatype Scene = Scene(skip: Option<int>, out: set<int>, leaving: set<Contact>)

  ghost predicate SceneOk(s: Scene) {
    && (s.skip.Some? ==> s.skip.value in s.out)
    && forall c :: c in s.leaving ==> c.id in s.out
  }

  /** The contacts in the ledger. */
  function Present(cs: seq<Contact>, s: Scene): set<Contact> {
    Live(cs, s.out) + s.leaving
  }

  /** No contact that is listed without being in the ledger offers a key. */
  ghost predicate Uncontested(kind: Kind, key: string, cs: seq<Contact>, s: Scene) {
    forall c :: c in cs && c.id in s.out && !Skips(s.skip, c) ==> key !in OfferKeys(kind, c.facts)
  }

  /** No contact that is in the ledger without being listed offers a key. */
  ghost predicate LeftAlone(kind: Kind, key: string, s: Scene) {
    forall c :: c in s.leaving ==> key !in OfferKeys(kind, c.facts)
  }

  lemma StaysUncontested(kind: Kind, cs: seq<Contact>, ds: seq<Contact>, changed: set<int>, s: Scene)
    requires Relabelled(cs, ds, changed)
    ensures forall key :: Uncontested(kind, key, cs, s) ==> Uncontested(kind, key, ds, s)
  {
    forall key, d | Uncontested(kind, key, cs, s) && d in ds && d.id in s.out && !Skips(s.skip, d)
      ensures key !in OfferKeys(kind, d.facts)
    {
      var i :| 0 <= i < |ds| && ds[i] == d;
      assert cs[i] in cs;
    }
  }

  lemma LiveUpdate(cs: seq<Contact>, out: set<int>, i: nat, d: Contact)
    requires Distinct(cs) && i < |cs| && d.id == cs[i].id && d.id !in out
    ensures Distinct(cs[i := d])
    ensures Live(cs[i := d], out) == Swapped(Live(cs, out), cs[i], d)
    ensures cs[i] in Live(cs, out) && UniqueIds(Live(cs, out))
  {
    var ds := cs[i := d];
    forall c | c in Swapped(Live(cs, out), cs[i], d) ensures c in Live(ds, out) {
      if c == d { assert ds[i] == d; } else {
        var j :| 0 <= j < |cs| && cs[j] == c;
        assert ds[j] == c;
      }
    }
  }

  lemma PresentUpdate(cs: seq<Contact>, s: Scene, i: nat, d: Contact)
    requires Distinct(cs) && SceneOk(s) && i < |cs| && d.id == cs[i].id && d.id !in s.out
    ensures Distinct(cs[i := d])
    ensures Present(cs[i := d], s) == Swapped(Present(cs, s), cs[i], d)
    ensures cs[i] in Present(cs, s)
  {
    LiveUpdate(cs, s.out, i, d);
  }

  lemma {:induction false} WorthIsFair(offers: seq<(string, int)>, key: string, worth: string -> int)
    requires Has(offers, key) && FairOffers(offers, worth)
    ensures Worth(offers, key) == worth(key)
  {
    if offers[0].0 != key {
      assert Has(offers[1..], key) by {
        var i :| 0 <= i < |offers| && offers[i].0 == key;
        assert offers[1..][i - 1].0 == key;
      }
      WorthIsFair(offers[1..], key, worth);
    }
  }

  lemma AdmissibleIsFair(kind: Kind, pts: string -> int, f: Facts)
    requires Admissible(pts, f)
    ensures FairOffers(Offers(kind, f), WorthOf(kind, pts))
  {
  }

  /** The ledger with the owner table and total of one kind as they stand while handing on. */
  function With(kind: Kind, st: Ledger, h: Hands): Ledger {
    match kind
    case Multiplier => st.(multOwners := h.owners, raw := h.total)
    case Bonus => st.(bonusOwners := h.owners, direct := h.total)
  }

  ghost predicate HandsOk(kind: Kind, pts: string -> int, st: Ledger, h: Hands, s: Scene, p: Pending) {
    Distinct(h.contacts) && SceneOk(s) && BooksOk(pts, With(kind, st, h), Present(h.contacts, s), p)
  }

  lemma GrantMultiplier(pts: string -> int, st: Ledger, live: set<Contact>, p: Pending, c: Contact, key: string)
    requires BooksOk(pts, st, live, p) && Holds(Multiplier, c, key, live) && key !in st.multOwners
    ensures BooksOk(pts, st.(multOwners := st.multOwners[key := c.id], raw := st.raw + 1),
                     Swapped(live, c, AddToMark(Multiplier, c, 1)), p.Less(Multiplier, {key}))
  {
    hide Sum, ClaimsOk, SumsOk;
    var d := AddToMark(Multiplier, c, 1);
    SwapKeepsSums(st.totals.qsoCount, st.totals.qsoPoints, st.counts, live, c, d);
    GrantKeeps(Multiplier, ONE, st.multOwners, st.raw, live, p.mults, c, key);
    RemarkKeepsOtherClaims(Multiplier, Bonus, pts, st.bonusOwners, st.direct, live, p.bonuses, c, d);
  }

  lemma GrantBonus(pts: string -> int, st: Ledger, live: set<Contact>, p: Pending, c: Contact, key: string)
    requires BooksOk(pts, st, live, p) && Holds(Bonus, c, key, live) && key !in st.bonusOwners
    ensures BooksOk(pts, st.(bonusOwners := st.bonusOwners[key := c.id], direct := st.direct + pts(key)),
                     Swapped(live, c, AddToMark(Bonus, c, pts(key))), p.Less(Bonus, {key}))
  {
    hide Sum, ClaimsOk, SumsOk;
    var d := AddToMark(Bonus, c, pts(key));
    SwapKeepsSums(st.totals.qsoCount, st.totals.qsoPoints, st.counts, live, c, d);
    GrantKeeps(Bonus, pts, st.bonusOwners, st.direct, live, p.bonuses, c, key);
    RemarkKeepsOtherClaims(Bonus, Multiplier, ONE, st.multOwners, st.raw, live, p.mults, c, d);
  }

  lemma SkipKey(kind: Kind, pts: string -> int, st: Ledger, h: Hands, live: set<Contact>, p: Pending, key: string)
    requires BooksOk(pts, With(kind, st, h), live, p)
    requires key in h.owners || forall c :: c in live ==> !Holds(kind, c, key, live)
    ensures BooksOk(pts, With(kind, st, h), live, p.Less(kind, {key}))
  {
    match kind
    case Multiplier => NoHeirKeeps(Multiplier, ONE, h.owners, h.total, live, p.mults, key);
    case Bonus => NoHeirKeeps(Bonus, pts, h.owners, h.total, live, p.bonuses, key);
  }

  lemma GrantKey(kind: Kind, pts: string -> int, st: Ledger, h: Hands, s: Scene, p: Pending, key: string, i: nat)
    requires HandsOk(kind, pts, st, h, s, p)
    requires key !in h.owners && i < |h.contacts| && CanInherit(kind, key, s.skip)(h.contacts[i])
    requires h.contacts[i].id !in s.out
    ensures var c := h.contacts[i];
            var worth := Worth(Offers(kind, c.facts), key);
            HandsOk(kind, pts, st, Hands(h.owners[key := c.id], h.total + worth,
                                         h.contacts[i := AddToMark(kind, c, worth)], h.changed + {c.id}),
                    s, p.Less(kind, {key}))
  {
    hide Sum, SumsOk, ClaimsOk;
    var live := Present(h.contacts, s);
    var c := h.contacts[i];
    assert Holds(kind, c, key, live);
    AdmissibleIsFair(kind, pts, c.facts);
    WorthIsFair(Offers(kind, c.facts), key, WorthOf(kind, pts));
    PresentUpdate(h.contacts, s, i, AddToMark(kind, c, WorthOf(kind, pts)(key)));
    match kind
    case Multiplier => GrantMultiplier(pts, With(kind, st, h), live, p, c, key);
    case Bonus => GrantBonus(pts, With(kind, st, h), live, p, c, key);
  }

  lemma NobodyInherits(kind: Kind, cs: seq<Contact>, key: string, s: Scene)
    requires SceneOk(s) && LeftAlone(kind, key, s)
    requires FirstIndex(cs, CanInherit(kind, key, s.skip)).None?
    ensures forall c :: c in Present(cs, s) ==> !Holds(kind, c, key, Present(cs, s))
  {
    forall c | c in Live(cs, s.out) ensures !Holds(kind, c, key, Present(cs, s)) {
      var j :| 0 <= j < |cs| && cs[j] == c;
      assert !CanInherit(kind, key, s.skip)(cs[j]);
    }
  }

  /** A key that is handed on goes to a contact in the ledger. */
  ghost predicate HeirPresent(kind: Kind, h: Hands, key: string, s: Scene) {
    var heir := FirstIndex(h.contacts, CanInherit(kind, key, s.skip));
    key !in h.owners && heir.Some? ==> h.contacts[heir.value].id !in s.out
  }

  lemma HandOneKeeps(kind: Kind, pts: string -> int, st: Ledger, h: Hands, key: string, s: Scene, p: Pending)
    requires HandsOk(kind, pts, st, h, s, p) && HeirPresent(kind, h, key, s) && LeftAlone(kind, key, s)
    ensures HandsOk(kind, pts, st, HandOne(kind, h, key, s.skip), s, p.Less(kind, {key}))
  {
    hide Sum, SumsOk, ClaimsOk, LeftAlone;
    var heir := FirstIndex(h.contacts, CanInherit(kind, key, s.skip));
    if key !in h.owners && heir.Some? {
      GrantKey(kind, pts, st, h, s, p, key, heir.value);
    } else {
      if key !in h.owners { NobodyInherits(kind, h.contacts, key, s); }
      hide Holds, Present, FirstIndex, CanInherit;
      SkipKey(kind, pts, st, h, Present(h.contacts, s), p, key);
    }
  }

  /** Handing on takes no key from anybody. */
  lemma {:induction false} HandOnGrows(kind: Kind, h: Hands, keys: seq<string>, skip: Option<int>)
    ensures forall k :: k in h.owners ==>
              k in HandOn(kind, h, keys, skip).owners && HandOn(kind, h, keys, skip).owners[k] == h.owners[k]
  {
    if keys != [] { HandOnGrows(kind, h, keys[..|keys| - 1], skip); }
  }

  /** Handing on gives nothing to contacts that are not in the ledger. */
  ghost predicate Spares(kind: Kind, h: Hands, keys: seq<string>, s: Scene) {
    forall id :: id in s.out ==> Owned(HandOn(kind, h, keys, s.skip).owners, id) <= Owned(h.owners, id)
  }

  lemma SparesBefore(kind: Kind, h: Hands, keys: seq<string>, s: Scene)
    requires keys != [] && Spares(kind, h, keys, s)
    ensures Spares(kind, h, keys[..|keys| - 1], s)
    ensures HeirPresent(kind, HandOn(kind, h, keys[..|keys| - 1], s.skip), keys[|keys| - 1], s)
  {
    var init, key := keys[..|keys| - 1], keys[|keys| - 1];
    var g := HandOn(kind, h, init, s.skip);
    HandOnGrows(kind, h, init, s.skip);
    var all := HandOn(kind, h, keys, s.skip);
    assert forall k :: k in g.owners ==> k in all.owners && all.owners[k] == g.owners[k];
    forall id | id in s.out ensures Owned(g.owners, id) <= Owned(h.owners, id) {
      assert Owned(g.owners, id) <= Owned(all.owners, id);
    }
    var heir := FirstIndex(g.contacts, CanInherit(kind, key, s.skip));
    if key !in g.owners && heir.Some? {
      var id := g.contacts[heir.value].id;
      assert key in Owned(all.owners, id);
      assert key !in h.owners;
    }
  }

  lemma {:induction false} HandOnKeeps(kind: Kind, pts: string -> int, st: Ledger, h: Hands, keys: seq<string>,
                                       s: Scene, p: Pending)
    requires HandsOk(kind, pts, st, h, s, p) && Spares(kind, h, keys, s)
    requires forall k :: k in keys ==> LeftAlone(kind, k, s)
    ensures HandsOk(kind, pts, st, HandOn(kind, h, keys, s.skip), s, p.Less(kind, set k | k in keys))
  {
    hide HandsOk, LeftAlone, Spares, HeirPresent;
    if keys == [] {
      assert p.Less(kind, set k: string | k in keys) == p;
    } else {
      var init := keys[..|keys| - 1];
      var key := keys[|keys| - 1];
      var q := p.Less(kind, set k | k in init);
      SparesBefore(kind, h, keys, s);
      HandOnKeeps(kind, pts, st, h, init, s, p);
      HandOneKeeps(kind, pts, st, HandOn(kind, h, init, s.skip), key, s, q);
      assert keys == init + [key];
      assert q.Less(kind, {key}) == p.Less(kind, set k | k in keys);
    }
  }

  /** The first contact that can inherit an uncontested key is in the ledger. */
  lemma HeirIsPresent(kind: Kind, cs: seq<Contact>, key: string, s: Scene)
    requires Uncontested(kind, key, cs, s)
    ensures var heir := FirstIndex(cs, CanInherit(kind, key, s.skip));
            heir.Some? ==> CanInherit(kind, key, s.skip)(cs[heir.value]) && cs[heir.value].id !in s.out
  {
  }

  /** Handing on uncontested keys gives nothing to contacts that are not in the ledger. */
  lemma {:induction false} HandOnSpares(kind: Kind, h: Hands, keys: seq<string>, s: Scene, id: int)
    requires id in s.out
    requires forall k :: k in keys ==> Uncontested(kind, k, h.contacts, s)
    ensures Owned(HandOn(kind, h, keys, s.skip).owners, id) == Owned(h.owners, id)
  {
    if keys != [] {
      var init, key := keys[..|keys| - 1], keys[|keys| - 1];
      HandOnSpares(kind, h, init, s, id);
      HandOnRelabels(kind, h, init, s.skip);
      var g := HandOn(kind, h, init, s.skip);
      StaysUncontested(kind, h.contacts, g.contacts, g.changed, s);
      hide HandOn, Uncontested;
      HeirIsPresent(kind, g.contacts, key, s);
    }
  }
}
