/**
 The band map: spots by id, a key that says which spot a report is about, a list of ids by time, and
 numbered events from which every client rebuilds the map.
 */
module BandMapSpec {
  import opened Sums

  datatype SpotType = Dx | Rbn | Local | InUse | Cq

  datatype RbnReport = RbnReport(mode: string, db: int, speed: Option<nat>, speedUnit: Option<string>,
                                 info: string, loc: Option<string>)

  /** What a client sees of a spot. */
  datatype Shown = Shown(
    spotType: SpotType,
    source: string,
    callDe: string,
    callDx: string,
    frequencyHz: nat,
    utc: nat,
    loc: Option<string>,
    comment: Option<string>,
    rbn: Option<RbnReport>,
    bandName: Option<string>,
    radioId: Option<int>,
    radioName: Option<string>,
    logId: Option<int>,
    exchangeFields: Option<map<string, string>>)

  datatype Spot = Spot(id: nat, receivedAt: nat, shown: Shown)

  datatype Candidate = Candidate(receivedAt: nat, shown: Shown)

  datatype Key =
    | ClusterKey(sourceId: nat)
    | LocalKey(logId: Option<int>, bandName: string, callDx: string)
    | LocalUnknownBandKey(logId: Option<int>, frequencyTenthKhz: nat, callDx: string)
    | InUseKey(frequencyTenthKhz: nat)
    | CqKey(radioId: int, bandName: string)

  datatype Event = Upserted(sequence: nat, spot: Spot) | Deleted(sequence: nat, id: nat)

  function FrequencyTenthKhz(frequencyHz: nat): nat {
    (frequencyHz + 50) / 100
  }

  function LocalKeyOf(shown: Shown): Key {
    match shown.bandName
    case Some(band) => LocalKey(shown.logId, band, shown.callDx)
    case None => LocalUnknownBandKey(shown.logId, FrequencyTenthKhz(shown.frequencyHz), shown.callDx)
  }

  /** Every entry point builds its key and its candidate together, so that they match in this way. */
  predicate Fits(key: Key, shown: Shown) {
    match key
    case ClusterKey(_) => shown.spotType in {Dx, Rbn} && shown.logId.None?
    case LocalKey(_, _, _) => shown.spotType.Local? && key == LocalKeyOf(shown)
    case LocalUnknownBandKey(_, _, _) => shown.spotType.Local? && key == LocalKeyOf(shown)
    case InUseKey(tenth) => shown.spotType.InUse? && tenth == FrequencyTenthKhz(shown.frequencyHz)
    case CqKey(radio, band) => shown.spotType.Cq? && shown.radioId == Some(radio) && shown.bandName == Some(band)
  }

  datatype Store = Store(
    nextId: nat,
    nextSequence: nat,
    idsByTime: seq<nat>,
    spots: map<nat, Spot>,
    idByKey: map<Key, nat>,
    keyById: map<nat, Key>)

  const EMPTY_STORE := Store(0, 0, [], map[], map[], map[])

  // ----- the list of ids by time -----

  function Without(ids: seq<nat>, id: nat): (r: seq<nat>)
    ensures id !in r
    ensures forall x :: x != id ==> (x in r <==> x in ids)
  {
    if ids == [] then []
    else
      assert ids == [ids[0]] + ids[1..];
      (if ids[0] == id then [] else [ids[0]]) + Without(ids[1..], id)
  }

  function InsertAt(ids: seq<nat>, at: nat, id: nat): seq<nat>
    requires at <= |ids|
  {
    ids[..at] + [id] + ids[at..]
  }

  /** The spot of an id is live and no later than the given moment; ids break ties. */
  predicate NotAfter(spots: map<nat, Spot>, x: nat, receivedAt: nat, id: nat) {
    x in spots && (spots[x].receivedAt < receivedAt || (spots[x].receivedAt == receivedAt && x <= id))
  }

  /**
   What a partition point promises: on a list whose ids not after the new one come first, the place
   behind them; on any other list, some place.
   */
  predicate PartitionPoint(spots: map<nat, Spot>, ids: seq<nat>, receivedAt: nat, id: nat, at: nat) {
    && at <= |ids|
    && forall p :: 0 <= p <= |ids| && Splits(spots, ids, receivedAt, id, p) ==> at == p
  }

  predicate Splits(spots: map<nat, Spot>, ids: seq<nat>, receivedAt: nat, id: nat, p: int)
    requires 0 <= p <= |ids|
  {
    && (forall i :: 0 <= i < p ==> NotAfter(spots, ids[i], receivedAt, id))
    && (forall i :: p <= i < |ids| ==> !NotAfter(spots, ids[i], receivedAt, id))
  }

  /** The place that a search by halving finds between two places, on a list that need not be in order. */
  function HalvedPlace(spots: map<nat, Spot>, ids: seq<nat>, receivedAt: nat, id: nat, low: nat, high: nat): nat
    requires high <= |ids|
    decreases high - low
  {
    if low >= high then low else
      var middle := (low + high) / 2;
      if NotAfter(spots, ids[middle], receivedAt, id) then HalvedPlace(spots, ids, receivedAt, id, middle + 1, high)
      else HalvedPlace(spots, ids, receivedAt, id, low, middle)
  }

  // ----- one spot -----

  /** The store after a report, whether clients will notice, and the spot. */
  function Upsert(s: Store, key: Key, c: Candidate, at: nat): (Store, bool, Spot)
    requires key in s.idByKey ==> s.idByKey[key] in s.spots
    requires at <= |Without(s.idsByTime, UpsertId(s, key))|
  {
    var id := UpsertId(s, key);
    var spot := Spot(id, c.receivedAt, c.shown);
    if key in s.idByKey then
      (s.(spots := s.spots[id := spot], idsByTime := InsertAt(Without(s.idsByTime, id), at, id)),
       s.spots[id].shown != c.shown, spot)
    else
      (s.(nextId := id, spots := s.spots[id := spot], idByKey := s.idByKey[key := id],
          keyById := s.keyById[id := key], idsByTime := InsertAt(Without(s.idsByTime, id), at, id)),
       true, spot)
  }

  function UpsertId(s: Store, key: Key): nat {
    if key in s.idByKey then s.idByKey[key] else s.nextId + 1
  }

  /** A report together with the event it causes. */
  function Report(s: Store, key: Key, c: Candidate, at: nat): (Store, seq<Event>)
    requires key in s.idByKey ==> s.idByKey[key] in s.spots
    requires at <= |Without(s.idsByTime, UpsertId(s, key))|
  {
    var (t, noticed, spot) := Upsert(s, key, c, at);
    if noticed then (t.(nextSequence := t.nextSequence + 1), [Upserted(t.nextSequence + 1, spot)]) else (t, [])
  }

  /** Forgets a spot. Its id may stay behind in the list by time. */
  function RemoveById(s: Store, id: nat): (Store, seq<Event>) {
    if id !in s.spots then (s, []) else
      (s.(spots := s.spots - {id},
          keyById := s.keyById - {id},
          idByKey := if id in s.keyById then s.idByKey - {s.keyById[id]} else s.idByKey,
          nextSequence := s.nextSequence + 1),
       [Deleted(s.nextSequence + 1, id)])
  }

  function Remove(s: Store, id: nat): (Store, seq<Event>) {
    RemoveById(s.(idsByTime := Without(s.idsByTime, id)), id)
  }

  function RemoveCluster(s: Store, sourceId: nat): (Store, seq<Event>) {
    if ClusterKey(sourceId) !in s.idByKey then (s, []) else Remove(s, s.idByKey[ClusterKey(sourceId)])
  }

  /** Takes ids from the front of the list until the first spot that has not expired. */
  function Prune(s: Store, cutoff: nat): (Store, seq<Event>)
    decreases |s.idsByTime|
  {
    if s.idsByTime == [] then (s, []) else
      var id := s.idsByTime[0];
      var rest := s.(idsByTime := s.idsByTime[1..]);
      if id !in s.spots then Prune(rest, cutoff)
      else if s.spots[id].receivedAt >= cutoff then (s, [])
      else
        var (t, e) := RemoveById(rest, id);
        var (u, f) := Prune(t, cutoff);
        (u, e + f)
  }

  // ----- a log -----

  /** The newest unexpired candidate of each key; the first of several equally new ones. */
  function Desired(cands: seq<Candidate>, cutoff: nat): map<Key, Candidate> {
    if cands == [] then map[] else
      var wanted := Desired(cands[..|cands| - 1], cutoff);
      var c := cands[|cands| - 1];
      var key := LocalKeyOf(c.shown);
      if c.receivedAt < cutoff || (key in wanted && wanted[key].receivedAt >= c.receivedAt) then wanted
      else wanted[key := c]
  }

  predicate LocalTo(key: Key, logId: int) {
    (key.LocalKey? || key.LocalUnknownBandKey?) && key.logId == Some(logId)
  }

  function LocalKeys(s: Store, logId: int): set<Key> {
    set k | k in s.idByKey && LocalTo(k, logId)
  }

  datatype Placed = Placed(key: Key, at: nat)

  /**
   Reports the wanted candidates in some order, at some places of the list by time. A place that does
   not exist is skipped; WellPlaced excludes those.
   */
  function ReportEach(s: Store, wanted: map<Key, Candidate>, order: seq<Placed>): (Store, seq<Event>) {
    if order == [] then (s, []) else
      var (t, e) := ReportEach(s, wanted, order[..|order| - 1]);
      var p := order[|order| - 1];
      if p.key !in wanted || (p.key in t.idByKey && t.idByKey[p.key] !in t.spots)
         || p.at > |Without(t.idsByTime, UpsertId(t, p.key))| then (t, e)
      else
        var (u, f) := Report(t, p.key, wanted[p.key], p.at);
        (u, e + f)
  }

  function RemoveKeys(s: Store, keys: seq<Key>): (Store, seq<Event>) {
    if keys == [] then (s, []) else
      var (t, e) := RemoveKeys(s, keys[..|keys| - 1]);
      var key := keys[|keys| - 1];
      if key !in t.idByKey then (t, e) else
        var (u, f) := RemoveById(t, t.idByKey[key]);
        (u, e + f)
  }

  /** Makes the local spots of a log those of its unexpired contacts. */
  function Sync(s: Store, cands: seq<Candidate>, cutoff: nat, pruneCutoff: nat,
                order: seq<Placed>, stale: seq<Key>): (Store, seq<Event>)
  {
    var (t, e) := Prune(s, pruneCutoff);
    var (u, f) := ReportEach(t, Desired(cands, cutoff), order);
    var (v, g) := RemoveKeys(u, stale);
    (v, e + f + g)
  }

  /** A list that names each element of a set once. */
  predicate Lists<T(==)>(xs: seq<T>, all: set<T>) {
    && (forall i :: 0 <= i < |xs| ==> xs[i] in all)
    && (forall x :: x in all ==> x in xs)
    && (forall i, j :: 0 <= i < j < |xs| ==> xs[i] != xs[j])
  }

  function KeysOf(order: seq<Placed>): (keys: seq<Key>)
    ensures |keys| == |order| && forall i :: 0 <= i < |keys| ==> keys[i] == order[i].key
  {
    seq(|order|, i requires 0 <= i < |order| => order[i].key)
  }

  /** Each report goes to a partition point of the list as it is then. */
  ghost predicate WellPlaced(s: Store, wanted: map<Key, Candidate>, order: seq<Placed>) {
    order != [] ==>
      var t := ReportEach(s, wanted, order[..|order| - 1]).0;
      var p := order[|order| - 1];
      && WellPlaced(s, wanted, order[..|order| - 1])
      && p.key in wanted
      && PartitionPoint(Upserting(t, p.key, wanted[p.key]), Without(t.idsByTime, UpsertId(t, p.key)),
                        wanted[p.key].receivedAt, UpsertId(t, p.key), p.at)
  }

  function Upserting(s: Store, key: Key, c: Candidate): map<nat, Spot> {
    s.spots[UpsertId(s, key) := Spot(UpsertId(s, key), c.receivedAt, c.shown)]
  }

  // ----- what clients see -----

  /** Who listens: everyone sees every spot, a session only the local spots of its own log. */
  datatype Audience = Everyone | Session(logId: Option<int>)

  predicate Visible(shown: Shown, a: Audience) {
    || a.Everyone?
    || !shown.spotType.Local?
    || shown.logId.None?
    || shown.logId == a.logId
  }

  function View(s: Store, a: Audience): map<nat, Shown> {
    map id | id in s.spots && Visible(s.spots[id].shown, a) :: s.spots[id].shown
  }

  /** The listing that a snapshot sends. */
  function Listing(s: Store, a: Audience): seq<Spot> {
    ListingOf(s.spots, s.idsByTime, a)
  }

  function ListingOf(spots: map<nat, Spot>, ids: seq<nat>, a: Audience): seq<Spot> {
    if ids == [] then []
    else (if ids[0] in spots && Visible(spots[ids[0]].shown, a) then [spots[ids[0]]] else [])
         + ListingOf(spots, ids[1..], a)
  }

  datatype Message =
    | SpotMessage(sequence: nat, spot: Spot)
    | DeletedMessage(sequence: nat, id: nat)
    | SequenceMessage(sequence: nat)

  function ToMessage(e: Event, a: Audience): Message {
    match e
    case Upserted(n, spot) => if Visible(spot.shown, a) then SpotMessage(n, spot) else SequenceMessage(n)
    case Deleted(n, id) => DeletedMessage(n, id)
  }

  function ApplyMessage(view: map<nat, Shown>, m: Message): map<nat, Shown> {
    match m
    case SpotMessage(_, spot) => view[spot.id := spot.shown]
    case DeletedMessage(_, id) => view - {id}
    case SequenceMessage(_) => view
  }

  function Rebuild(view: map<nat, Shown>, a: Audience, events: seq<Event>): map<nat, Shown> {
    if events == [] then view
    else ApplyMessage(Rebuild(view, a, events[..|events| - 1]), ToMessage(events[|events| - 1], a))
  }

  // ----- the invariant -----

  predicate NoDuplicates<T(==)>(xs: seq<T>) {
    forall i, j :: 0 <= i < j < |xs| ==> xs[i] != xs[j]
  }

  /** Keys and ids of live spots correspond one-to-one. */
  ghost predicate Linked(s: Store) {
    && s.keyById.Keys == s.spots.Keys
    && (forall k :: k in s.idByKey ==> s.idByKey[k] in s.keyById && s.keyById[s.idByKey[k]] == k)
    && (forall id :: id in s.keyById ==> s.keyById[id] in s.idByKey && s.idByKey[s.keyById[id]] == id)
  }

  ghost predicate SpotsOk(s: Store) {
    forall id :: id in s.spots ==> s.spots[id].id == id && id <= s.nextId && id in s.keyById && Fits(s.keyById[id], s.spots[id].shown)
  }

  /** Every live id is in the list by time, and no id is there twice. */
  ghost predicate Timed(s: Store) {
    && NoDuplicates(s.idsByTime)
    && (forall id :: id in s.spots ==> id in s.idsByTime)
    && (forall id :: id in s.idsByTime ==> id <= s.nextId)
  }

  ghost predicate Inv(s: Store) {
    Linked(s) && SpotsOk(s) && Timed(s)
  }

  /** The events between two stores: numbered without a gap, and enough to rebuild every view. */
  ghost predicate Follows(s: Store, t: Store, events: seq<Event>) {
    && t.nextSequence == s.nextSequence + |events|
    && (forall i :: 0 <= i < |events| ==> events[i].sequence == s.nextSequence + 1 + i)
    && forall a :: Rebuild(View(s, a), a, events) == View(t, a)
  }
}
