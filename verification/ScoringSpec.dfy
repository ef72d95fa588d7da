/**
 What contest scoring computes, as functions over immutable values: the left-to-right scorer,
 and the incremental ledger that follows inserts, edits and deletes without rescoring the log.
 */
module ScoringSpec {
  import opened Sums

  /** One multiplier a contact may earn. A cap bounds how many keys its group may award. */
  datatype Candidate = Candidate(id: string, capGroup: Option<string>, key: string, maxCount: Option<nat>)
  {
    function Group(): string {
      if capGroup.Some? then capGroup.value else id
    }
  }

  /** What the contest rules make of the logged part of a contact. */
  datatype Facts = Facts(
    dupeKey: Option<string>,
    points: int,
    multipliers: seq<Candidate>,
    bonuses: seq<(string, int)>,
    countKeys: seq<string>)

  datatype Marks = Marks(pts: int, mult: int, bonus: int, dupe: bool)

  datatype Contact = Contact(id: int, facts: Facts, marks: Marks)

  datatype Rules = Rules(
    capped: bool,
    hasMultipliers: bool,
    minimumMultipliers: int,
    scoreFactor: int,
    multiplierCountBonus: set<string> -> int,
    qsoCountBonus: map<string, nat> -> int)

  datatype Totals = Totals(qsoCount: nat, qsoPoints: int, multipliers: int, bonusPoints: int, score: int)

  const NO_TOTALS := Totals(0, 0, 0, 0, 0)

  /** The headline numbers that follow from the running counters. */
  function Tally(r: Rules, qsoCount: nat, qsoPoints: int, raw: int, direct: int,
                 multKeys: set<string>, counts: map<string, nat>): Totals
  {
    var factor := if !r.hasMultipliers then 1 else if raw < r.minimumMultipliers then r.minimumMultipliers else raw;
    var bonus := direct + r.multiplierCountBonus(multKeys) + r.qsoCountBonus(counts);
    Totals(qsoCount, qsoPoints, if r.hasMultipliers then factor else 0, bonus,
           Score(qsoPoints, factor, r.scoreFactor, bonus))
  }

  function Score(qsoPoints: int, multipliers: int, scoreFactor: int, bonus: int): int {
    qsoPoints * multipliers * scoreFactor + bonus
  }

  // ----- counting tables -----

  function Get(m: map<string, nat>, k: string): nat {
    if k in m then m[k] else 0
  }

  function Bump(m: map<string, nat>, k: string): map<string, nat> {
    m[k := Get(m, k) + 1]
  }

  function BumpAll(m: map<string, nat>, keys: seq<string>): map<string, nat> {
    if keys == [] then m else Bump(BumpAll(m, keys[..|keys| - 1]), keys[|keys| - 1])
  }

  function Drop(m: map<string, nat>, k: string): map<string, nat> {
    if k !in m then m else if m[k] <= 1 then m - {k} else m[k := m[k] - 1]
  }

  function DropAll(m: map<string, nat>, keys: seq<string>): map<string, nat> {
    if keys == [] then m else Drop(DropAll(m, keys[..|keys| - 1]), keys[|keys| - 1])
  }

  // ----- the left-to-right scorer -----

  datatype Scorer = Scorer(
    totals: Totals,
    dupeKeys: map<string, nat>,
    raw: int,
    multKeys: set<string>,
    multCounts: map<string, nat>,
    bonusKeys: set<string>,
    counts: map<string, nat>,
    direct: int)

  const NEW_SCORER := Scorer(NO_TOTALS, map[], 0, {}, map[], {}, map[], 0)

  predicate CapReached(counts: map<string, nat>, cand: Candidate) {
    cand.maxCount.Some? && Get(counts, cand.Group()) >= cand.maxCount.value
  }

  function TakeMultipliers(keys: set<string>, counts: map<string, nat>, cands: seq<Candidate>)
    : (set<string>, map<string, nat>, int)
  {
    if cands == [] then (keys, counts, 0) else
      var cand := cands[|cands| - 1];
      var (ks, cs, n) := TakeMultipliers(keys, counts, cands[..|cands| - 1]);
      if cand.key in ks || CapReached(cs, cand) then (ks, cs, n)
      else (ks + {cand.key}, Bump(cs, cand.Group()), n + 1)
  }

  function TakeBonuses(keys: set<string>, offers: seq<(string, int)>): (set<string>, int) {
    if offers == [] then (keys, 0) else
      var (key, points) := offers[|offers| - 1];
      var (ks, n) := TakeBonuses(keys, offers[..|offers| - 1]);
      if key in ks then (ks, n) else (ks + {key}, n + points)
  }

  function TalliedScorer(r: Rules, s: Scorer): Scorer {
    s.(totals := Tally(r, s.totals.qsoCount, s.totals.qsoPoints, s.raw, s.direct, s.multKeys, s.counts))
  }

  /** Scores one more contact; the second component is the contact with its marks. */
  function AddQso(r: Rules, s: Scorer, c: Contact): (Scorer, Contact) {
    var key := c.facts.dupeKey;
    var dupe := key.Some? && Get(s.dupeKeys, key.value) > 0;
    var dupeKeys := if key.Some? then Bump(s.dupeKeys, key.value) else s.dupeKeys;
    var s1 := s.(dupeKeys := dupeKeys, totals := s.totals.(qsoCount := s.totals.qsoCount + 1));
    if dupe then
      (TalliedScorer(r, s1), c.(marks := Marks(0, 0, 0, true)))
    else
      var points := c.facts.points;
      var (mk, mc, mults) := TakeMultipliers(s.multKeys, s.multCounts, c.facts.multipliers);
      var (bk, bonus) := TakeBonuses(s.bonusKeys, c.facts.bonuses);
      var counts := if points > 0 then BumpAll(s.counts, c.facts.countKeys) else s.counts;
      var s2 := s1.(totals := s1.totals.(qsoPoints := s1.totals.qsoPoints + points),
                    raw := s.raw + mults, multKeys := mk, multCounts := mc,
                    bonusKeys := bk, direct := s.direct + bonus, counts := counts);
      (TalliedScorer(r, s2), c.(marks := Marks(points, mults, bonus, false)))
  }

  /** Scores a whole sequence from nothing, in order. */
  function ScoreContacts(r: Rules, cs: seq<Contact>): (Scorer, seq<Contact>) {
    if cs == [] then (NEW_SCORER, []) else
      var (s, done) := ScoreContacts(r, cs[..|cs| - 1]);
      var (s', c) := AddQso(r, s, cs[|cs| - 1]);
      (s', done + [c])
  }

  // ----- the incremental ledger -----

  datatype Ledger = Ledger(
    totals: Totals,
    raw: int,
    direct: int,
    dupeCounts: map<string, nat>,
    dupeOwners: map<string, int>,
    multOwners: map<string, int>,
    multCounts: map<string, nat>,
    bonusOwners: map<string, int>,
    counts: map<string, nat>)

  const NEW_LEDGER := Ledger(NO_TOTALS, 0, 0, map[], map[], map[], map[], map[], map[])

  function Tallied(r: Rules, st: Ledger): Ledger {
    st.(totals := Tally(r, st.totals.qsoCount, st.totals.qsoPoints, st.raw, st.direct, st.multOwners.Keys, st.counts))
  }

  function ClaimMultipliers(owners: map<string, int>, counts: map<string, nat>, cands: seq<Candidate>, id: int)
    : (map<string, int>, map<string, nat>, int)
  {
    if cands == [] then (owners, counts, 0) else
      var cand := cands[|cands| - 1];
      var (os, cs, n) := ClaimMultipliers(owners, counts, cands[..|cands| - 1], id);
      if cand.key in os || CapReached(cs, cand) then (os, cs, n)
      else (os[cand.key := id], Bump(cs, cand.Group()), n + 1)
  }

  function ClaimBonuses(owners: map<string, int>, offers: seq<(string, int)>, id: int): (map<string, int>, int) {
    if offers == [] then (owners, 0) else
      var (key, points) := offers[|offers| - 1];
      var (os, n) := ClaimBonuses(owners, offers[..|offers| - 1], id);
      if key in os then (os, n) else (os[key := id], n + points)
  }

  /** Scores a contact that is not a dupe: it claims every key nobody owns yet. */
  function ScoreNonDupe(st: Ledger, c: Contact): (Ledger, Contact) {
    var points := c.facts.points;
    var (mo, mc, mults) := ClaimMultipliers(st.multOwners, st.multCounts, c.facts.multipliers, c.id);
    var (bo, bonus) := ClaimBonuses(st.bonusOwners, c.facts.bonuses, c.id);
    var counts := if points > 0 then BumpAll(st.counts, c.facts.countKeys) else st.counts;
    (st.(totals := st.totals.(qsoPoints := st.totals.qsoPoints + points),
         raw := st.raw + mults, multOwners := mo, multCounts := mc,
         bonusOwners := bo, direct := st.direct + bonus, counts := counts),
     c.(marks := Marks(points, mults, bonus, false)))
  }

  function Add(r: Rules, st: Ledger, c: Contact): (Ledger, Contact) {
    var key := c.facts.dupeKey;
    var dupe := key.Some? && Get(st.dupeCounts, key.value) > 0;
    var st1 := st.(totals := st.totals.(qsoCount := st.totals.qsoCount + 1),
                   dupeCounts := if key.Some? then Bump(st.dupeCounts, key.value) else st.dupeCounts,
                   dupeOwners := if key.Some? && !dupe && key.value !in st.dupeOwners
                                 then st.dupeOwners[key.value := c.id] else st.dupeOwners);
    if dupe then
      (Tallied(r, st1), c.(marks := Marks(0, 0, 0, true)))
    else
      var (st2, c') := ScoreNonDupe(st1, c);
      (Tallied(r, st2), c')
  }

  function Reset(r: Rules, cs: seq<Contact>): (Ledger, seq<Contact>) {
    if cs == [] then (NEW_LEDGER, []) else
      var (st, done) := Reset(r, cs[..|cs| - 1]);
      var (st', c) := Add(r, st, cs[|cs| - 1]);
      (st', done + [c])
  }

  /** The first contact that satisfies a test. */
  function FirstIndex(cs: seq<Contact>, test: Contact -> bool): (r: Option<nat>)
    ensures r.Some? ==> r.value < |cs| && test(cs[r.value]) && forall j :: 0 <= j < r.value ==> !test(cs[j])
    ensures r.None? ==> forall j :: 0 <= j < |cs| ==> !test(cs[j])
  {
    if cs == [] then None
    else if test(cs[0]) then Some(0)
    else match FirstIndex(cs[1..], test)
         case None =>
           assert forall j :: 0 < j < |cs| ==> cs[j] == cs[1..][j - 1];
           None
         case Some(i) =>
           assert forall j :: 0 < j <= i + 1 ==> cs[j] == cs[1..][j - 1];
           Some(i + 1)
  }

  /** Multipliers and direct bonuses are owned, freed and handed on in the same way. */
  datatype Kind = Multiplier | Bonus

  function Offers(kind: Kind, f: Facts): seq<(string, int)> {
    match kind
    case Multiplier => seq(|f.multipliers|, i requires 0 <= i < |f.multipliers| => (f.multipliers[i].key, 1))
    case Bonus => f.bonuses
  }

  predicate Has(offers: seq<(string, int)>, key: string) {
    exists i :: 0 <= i < |offers| && offers[i].0 == key
  }

  /** The worth of the first offer for a key. */
  function Worth(offers: seq<(string, int)>, key: string): int
    requires Has(offers, key)
  {
    if offers[0].0 == key then offers[0].1
    else
      assert exists i :: 0 <= i < |offers[1..]| && offers[1..][i].0 == key by {
        var i :| 0 <= i < |offers| && offers[i].0 == key;
        assert offers[1..][i - 1].0 == key;
      }
      Worth(offers[1..], key)
  }

  function AddToMark(kind: Kind, c: Contact, delta: int): Contact {
    match kind
    case Multiplier => c.(marks := c.marks.(mult := c.marks.mult + delta))
    case Bonus => c.(marks := c.marks.(bonus := c.marks.bonus + delta))
  }

  function Skips(skip: Option<int>, c: Contact): bool {
    skip == Some(c.id)
  }

  function CanInherit(kind: Kind, key: string, skip: Option<int>): Contact -> bool {
    (c: Contact) => !Skips(skip, c) && !c.marks.dupe && Has(Offers(kind, c.facts), key)
  }

  function SharesDupeKey(key: string, skip: Option<int>): Contact -> bool {
    (c: Contact) => !Skips(skip, c) && c.facts.dupeKey == Some(key)
  }

  function Owned(owners: map<string, int>, id: int): set<string> {
    set k | k in owners && owners[k] == id
  }

  datatype Hands = Hands(owners: map<string, int>, total: int, contacts: seq<Contact>, changed: set<int>)

  /** Gives each freed key to the first contact that can take it. */
  function HandOn(kind: Kind, h: Hands, keys: seq<string>, skip: Option<int>): (r: Hands)
    ensures |r.contacts| == |h.contacts|
  {
    if keys == [] then h else
      var key := keys[|keys| - 1];
      HandOne(kind, HandOn(kind, h, keys[..|keys| - 1], skip), key, skip)
  }

  function HandOne(kind: Kind, h: Hands, key: string, skip: Option<int>): (r: Hands)
    ensures |r.contacts| == |h.contacts|
  {
    if key in h.owners then h else
      match FirstIndex(h.contacts, CanInherit(kind, key, skip))
      case None => h
      case Some(i) =>
        var c := h.contacts[i];
        var worth := Worth(Offers(kind, c.facts), key);
        Hands(h.owners[key := c.id], h.total + worth,
              h.contacts[i := AddToMark(kind, c, worth)], h.changed + {c.id})
  }

  /** The order in which the freed keys happen to be visited. */
  datatype Order = Order(mults: seq<string>, bonuses: seq<string>)

  predicate Enumerates(keys: seq<string>, all: set<string>) {
    && (forall i :: 0 <= i < |keys| ==> keys[i] in all)
    && (forall k :: k in all ==> k in keys)
    && (forall i, j :: 0 <= i < j < |keys| ==> keys[i] != keys[j])
  }

  predicate FreedOrder(st: Ledger, gone: Contact, order: Order) {
    && Enumerates(order.mults, Owned(st.multOwners, gone.id))
    && Enumerates(order.bonuses, Owned(st.bonusOwners, gone.id))
  }

  datatype Outcome = Outcome(ledger: Ledger, contacts: seq<Contact>, changed: set<int>)

  /** Takes the marks of a contact that is going away out of the counters. */
  function Debited(st: Ledger, gone: Contact): Ledger {
    var key := gone.facts.dupeKey;
    st.(totals := st.totals.(qsoCount := if st.totals.qsoCount == 0 then 0 else st.totals.qsoCount - 1,
                             qsoPoints := st.totals.qsoPoints - gone.marks.pts),
        raw := st.raw - gone.marks.mult,
        direct := st.direct - gone.marks.bonus,
        counts := if !gone.marks.dupe && gone.marks.pts > 0 then DropAll(st.counts, gone.facts.countKeys) else st.counts,
        dupeCounts := if key.Some? then Drop(st.dupeCounts, key.value) else st.dupeCounts)
  }

  /** Makes a dupe count after all. */
  function Promote(st: Ledger, cs: seq<Contact>, i: nat): Outcome
    requires i < |cs|
  {
    if !cs[i].marks.dupe then Outcome(st, cs, {}) else
      var (st', c) := ScoreNonDupe(st, cs[i]);
      Outcome(st', cs[i := c], {c.id})
  }

  predicate OwnsDupeKey(st: Ledger, gone: Contact) {
    && gone.facts.dupeKey.Some?
    && gone.facts.dupeKey.value in st.dupeOwners
    && st.dupeOwners[gone.facts.dupeKey.value] == gone.id
  }

  /** Frees what a contact owned, and lets the next contact with its dupe key count instead. */
  function Replaced(st: Ledger, gone: Contact, cs: seq<Contact>, skip: Option<int>): Outcome {
    var st1 := Debited(st, gone);
    var heir := if OwnsDupeKey(st, gone)
                then FirstIndex(cs, SharesDupeKey(gone.facts.dupeKey.value, skip)) else None;
    var dupeOwners :=
      if !OwnsDupeKey(st, gone) then st.dupeOwners
      else if heir.Some? then st.dupeOwners[gone.facts.dupeKey.value := cs[heir.value].id]
      else st.dupeOwners - {gone.facts.dupeKey.value};
    var st2 := st1.(dupeOwners := dupeOwners,
                    multOwners := st.multOwners - Owned(st.multOwners, gone.id),
                    bonusOwners := st.bonusOwners - Owned(st.bonusOwners, gone.id));
    if heir.Some? then Promote(st2, cs, heir.value) else Outcome(st2, cs, {})
  }

  /** Takes a contact out of the ledger; `cs` are the contacts that may inherit from it. */
  function Remove(r: Rules, st: Ledger, gone: Contact, cs: seq<Contact>, skip: Option<int>, order: Order): Outcome {
    var o := Replaced(st, gone, cs, skip);
    var m := HandOn(Multiplier, Hands(o.ledger.multOwners, o.ledger.raw, o.contacts, o.changed), order.mults, skip);
    var b := HandOn(Bonus, Hands(o.ledger.bonusOwners, o.ledger.direct, m.contacts, m.changed), order.bonuses, skip);
    Outcome(Tallied(r, o.ledger.(multOwners := m.owners, raw := m.total, bonusOwners := b.owners, direct := b.total)),
            b.contacts, b.changed)
  }

  // ----- the callbacks of the score tracker -----

  function WithId(id: int): Contact -> bool {
    (c: Contact) => c.id == id
  }

  function AddEach(r: Rules, st: Ledger, cs: seq<Contact>, committed: seq<Contact>): (res: (Ledger, seq<Contact>))
    ensures |res.1| == |cs|
  {
    if committed == [] then (st, cs) else
      var (st1, cs1) := AddEach(r, st, cs, committed[..|committed| - 1]);
      match FirstIndex(cs1, WithId(committed[|committed| - 1].id))
      case None => (st1, cs1)
      case Some(i) =>
        var (st2, c) := Add(r, st1, cs1[i]);
        (st2, cs1[i := c])
  }

  function RemoveEach(r: Rules, o: Outcome, previous: seq<Contact>, orders: seq<Order>): Outcome
    requires |orders| == |previous|
  {
    if previous == [] then o else
      var n := |previous| - 1;
      var o1 := RemoveEach(r, o, previous[..n], orders[..n]);
      var o2 := Remove(r, o1.ledger, previous[n], o1.contacts, Some(previous[n].id), orders[n]);
      Outcome(o2.ledger, o2.contacts, o1.changed + o2.changed)
  }

  /** `cs` already holds the committed contacts, whose previous versions are in `previous`. */
  function OnUpserted(r: Rules, st: Ledger, cs: seq<Contact>, committed: seq<Contact>,
                      previous: seq<Contact>, orders: seq<Order>): Outcome
    requires |orders| == |previous|
  {
    if r.capped then
      var (st', cs') := Reset(r, cs);
      Outcome(st', cs', set c | c in cs' :: c.id)
    else
      var o := RemoveEach(r, Outcome(st, cs, {}), previous, orders);
      var (st', cs') := AddEach(r, o.ledger, o.contacts, committed);
      Outcome(st', cs', o.changed)
  }

  function OnDeleted(r: Rules, st: Ledger, cs: seq<Contact>, gone: Contact, order: Order): Outcome {
    if r.capped then
      var (st', cs') := Reset(r, cs);
      Outcome(st', cs', set c | c in cs' :: c.id)
    else
      Remove(r, st, gone, cs, None, order)
  }
}
