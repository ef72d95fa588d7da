/** Clients that rebuild the band map from snapshots and numbered messages. */
module BandMapClients {
  import opened Sums
  import opened BandMapSpec
  import opened BandMapEvents

  // ----- the life of a store -----

  ghost predicate CanRun(s: Store, actions: seq<Action>)
    decreases |actions|
  {
    actions != [] ==> Inv(s) && CanDo(s, actions[0]) && CanRun(Do(s, actions[0]).0, actions[1..])
  }

  ghost function Run(s: Store, actions: seq<Action>): (Store, seq<Event>)
    requires CanRun(s, actions)
    decreases |actions|
  {
    if actions == [] then (s, []) else
      var (t, e) := Do(s, actions[0]);
      var (u, f) := Run(t, actions[1..]);
      (u, e + f)
  }

  lemma EmptyIsOk()
    ensures Inv(EMPTY_STORE)
  {
  }

  /** Over any run the events number on without a gap and carry every view from the first store to the last. */
  lemma {:induction false} RunFollows(s: Store, actions: seq<Action>)
    requires Inv(s) && CanRun(s, actions)
    ensures var (t, e) := Run(s, actions);
            Inv(t) && Follows(s, t, e)
    decreases |actions|
  {
    hide Inv, Follows, Do;
    if actions == [] {
      assert forall a :: View(s, a) == View(s, a);
      FollowsNone(s, s);
    } else {
      DoKeeps(s, actions[0]);
      var (t, e) := Do(s, actions[0]);
      RunFollows(t, actions[1..]);
      FollowsJoin(s, t, Run(t, actions[1..]).0, e, Run(t, actions[1..]).1);
    }
  }

  /** The events of the first actions of a run are the first events of the run. */
  lemma {:induction false} RunSplits(s: Store, actions: seq<Action>, n: nat)
    requires CanRun(s, actions) && n <= |actions|
    ensures CanRun(s, actions[..n])
    ensures Run(s, actions[..n]).1 <= Run(s, actions).1
    decreases |actions|
  {
    hide Inv, Do, CanDo;
    if n > 0 {
      var (t, e) := Do(s, actions[0]);
      assert actions[..n][1..] == actions[1..][..n - 1];
      RunSplits(t, actions[1..], n - 1);
      var f, g := Run(t, actions[1..][..n - 1]).1, Run(t, actions[1..]).1;
      assert e + f <= e + g;
    }
  }

  // ----- snapshots -----

  function SpotTable(listing: seq<Spot>): map<nat, Shown> {
    if listing == [] then map[]
    else SpotTable(listing[..|listing| - 1])[listing[|listing| - 1].id := listing[|listing| - 1].shown]
  }

  predicate Shows(s: Store, a: Audience, id: nat) {
    id in s.spots && Visible(s.spots[id].shown, a)
  }

  lemma {:induction false} ListingHolds(spots: map<nat, Spot>, ids: seq<nat>, a: Audience, x: Spot)
    requires forall id :: id in spots ==> spots[id].id == id
    ensures x in ListingOf(spots, ids, a) <==>
            x.id in ids && x.id in spots && spots[x.id] == x && Visible(x.shown, a)
  {
    if ids != [] {
      ListingHolds(spots, ids[1..], a, x);
      assert ids == [ids[0]] + ids[1..];
    }
  }

  predicate DistinctIds(l: seq<Spot>) {
    forall i, j :: 0 <= i < j < |l| ==> l[i].id != l[j].id
  }

  lemma {:induction false} ListingOnce(spots: map<nat, Spot>, ids: seq<nat>, a: Audience)
    requires NoDuplicates(ids) && forall id :: id in spots ==> spots[id].id == id
    ensures DistinctIds(ListingOf(spots, ids, a))
  {
    if ids != [] {
      hide Visible;
      ListingOnce(spots, ids[1..], a);
      var rest := ListingOf(spots, ids[1..], a);
      assert forall i :: 0 <= i < |ids[1..]| ==> ids[1..][i] == ids[i + 1];
      forall i | 0 <= i < |rest| ensures rest[i].id != ids[0] {
        ListingHolds(spots, ids[1..], a, rest[i]);
        assert rest[i].id in ids[1..];
      }
    }
  }

  /** A listing shows each visible live spot exactly once. */
  lemma ListingIsExact(s: Store, a: Audience)
    requires Inv(s)
    ensures forall x :: x in Listing(s, a) <==> Shows(s, a, x.id) && s.spots[x.id] == x
    ensures DistinctIds(Listing(s, a))
  {
    hide Visible, Fits;
    forall x ensures x in Listing(s, a) <==> Shows(s, a, x.id) && s.spots[x.id] == x {
      ListingHolds(s.spots, s.idsByTime, a, x);
    }
    ListingOnce(s.spots, s.idsByTime, a);
  }

  lemma {:induction false} TableHolds(l: seq<Spot>, id: nat)
    requires DistinctIds(l)
    ensures id in SpotTable(l) <==> exists x :: x in l && x.id == id
    ensures forall x :: x in l && x.id == id ==> SpotTable(l)[id] == x.shown
  {
    if l != [] {
      var init, last := l[..|l| - 1], l[|l| - 1];
      TableHolds(init, id);
      assert l == init + [last];
      assert forall x :: x in init ==> x.id != last.id;
    }
  }

  lemma TableAt(s: Store, a: Audience, id: nat)
    requires Inv(s)
    ensures id in SpotTable(Listing(s, a)) <==> id in View(s, a)
    ensures id in View(s, a) ==> SpotTable(Listing(s, a))[id] == View(s, a)[id]
  {
    hide Visible, Listing, SpotTable, Linked, Timed, Fits;
    var l := Listing(s, a);
    ListingIsExact(s, a);
    TableHolds(l, id);
    if id in s.spots {
      assert Shows(s, a, id) ==> s.spots[id] in l;
    }
  }

  /** The table a client makes of a snapshot is the view of the store. */
  lemma SnapshotIsView(s: Store, a: Audience)
    requires Inv(s)
    ensures SpotTable(Listing(s, a)) == View(s, a)
  {
    hide Inv, View, Listing, SpotTable;
    forall id ensures id in SpotTable(Listing(s, a)) <==> id in View(s, a) {
      TableAt(s, a, id);
    }
    forall id | id in View(s, a) ensures SpotTable(Listing(s, a))[id] == View(s, a)[id] {
      TableAt(s, a, id);
    }
  }

  // ----- clients -----

  datatype Client = Client(view: map<nat, Shown>, sequence: nat)

  /** A message is taken only if it carries the next number. */
  function Receive(c: Client, m: Message): Client {
    if m.sequence != c.sequence + 1 then c else Client(ApplyMessage(c.view, m), m.sequence)
  }

  /** A client hears the messages of any events, in any order, lost or repeated, or asks for a snapshot. */
  datatype Input = Hear(event: nat) | Adopt(actions: nat)

  ghost function After(c: Client, a: Audience, actions: seq<Action>, inputs: seq<Input>): Client
    requires CanRun(EMPTY_STORE, actions)
    requires forall i :: 0 <= i < |inputs| ==> Meets(actions, inputs[i])
    decreases |inputs|
  {
    if inputs == [] then c else
      var before := After(c, a, actions, inputs[..|inputs| - 1]);
      match inputs[|inputs| - 1]
      case Hear(i) =>
        assert Meets(actions, inputs[|inputs| - 1]);
        Receive(before, ToMessage(Run(EMPTY_STORE, actions).1[i], a))
      case Adopt(n) =>
        assert Meets(actions, inputs[|inputs| - 1]);
        RunSplits(EMPTY_STORE, actions, n);
        var s := Run(EMPTY_STORE, actions[..n]).0;
        Client(SpotTable(Listing(s, a)), s.nextSequence)
  }

  /** The event, or the moment of the snapshot, lies within the run. */
  ghost predicate Meets(actions: seq<Action>, input: Input)
    requires CanRun(EMPTY_STORE, actions)
  {
    match input
    case Hear(i) => i < |Run(EMPTY_STORE, actions).1|
    case Adopt(n) => n <= |actions|
  }

  /** The client shows what the first `sequence` events amount to. */
  ghost predicate Faithful(c: Client, a: Audience, events: seq<Event>) {
    c.sequence <= |events| && c.view == Rebuild(map[], a, events[..c.sequence])
  }

  lemma HearingKeeps(c: Client, a: Audience, events: seq<Event>, i: nat)
    requires Faithful(c, a, events) && i < |events|
    requires forall k :: 0 <= k < |events| ==> events[k].sequence == 1 + k
    ensures Faithful(Receive(c, ToMessage(events[i], a)), a, events)
  {
    if i == c.sequence {
      assert events[..i + 1][..i] == events[..i];
    }
  }

  lemma FollowersAreFaithful(s: Store, a: Audience, e: seq<Event>, events: seq<Event>)
    requires Follows(EMPTY_STORE, s, e) && e <= events
    ensures Faithful(Client(View(s, a), s.nextSequence), a, events)
  {
    assert View(EMPTY_STORE, a) == map[];
    assert events[..|e|] == e;
  }

  lemma AdoptingKeeps(a: Audience, actions: seq<Action>, n: nat)
    requires CanRun(EMPTY_STORE, actions) && n <= |actions|
    ensures CanRun(EMPTY_STORE, actions[..n])
    ensures var s := Run(EMPTY_STORE, actions[..n]).0;
            Faithful(Client(SpotTable(Listing(s, a)), s.nextSequence), a, Run(EMPTY_STORE, actions).1)
  {
    EmptyIsOk();
    RunSplits(EMPTY_STORE, actions, n);
    RunFollows(EMPTY_STORE, actions[..n]);
    var (s, e) := Run(EMPTY_STORE, actions[..n]);
    hide Inv, Run, CanRun, Listing, SpotTable, Rebuild, Faithful, Follows;
    SnapshotIsView(s, a);
    hide View;
    FollowersAreFaithful(s, a, e, Run(EMPTY_STORE, actions).1);
  }

  /**
   Whatever messages reach a client, in whatever order, and however often it asks for a snapshot, it
   always shows a state the server has been in; once it has reached the last number, the current one.
   */
  lemma {:induction false} ClientsAreFaithful(a: Audience, actions: seq<Action>, inputs: seq<Input>)
    requires CanRun(EMPTY_STORE, actions)
    requires forall i :: 0 <= i < |inputs| ==> Meets(actions, inputs[i])
    ensures var c := After(Client(map[], 0), a, actions, inputs);
            var (s, events) := Run(EMPTY_STORE, actions);
            && Faithful(c, a, events)
            && s.nextSequence == |events|
            && (c.sequence == s.nextSequence ==> c.view == View(s, a))
  {
    var (s, events) := Run(EMPTY_STORE, actions);
    var c := After(Client(map[], 0), a, actions, inputs);
    EmptyIsOk();
    RunFollows(EMPTY_STORE, actions);
    hide Inv, Run, CanRun, Listing, SpotTable;
    if inputs != [] {
      ClientsAreFaithful(a, actions, inputs[..|inputs| - 1]);
      assert Meets(actions, inputs[|inputs| - 1]);
      match inputs[|inputs| - 1]
      case Hear(i) => HearingKeeps(After(Client(map[], 0), a, actions, inputs[..|inputs| - 1]), a, events, i);
      case Adopt(n) => AdoptingKeeps(a, actions, n);
    }
    assert View(EMPTY_STORE, a) == map[];
    assert events[..|events|] == events;
  }

  function HearAll(c: Client, a: Audience, events: seq<Event>): Client
    decreases |events|
  {
    if events == [] then c else HearAll(Receive(c, ToMessage(events[0], a)), a, events[1..])
  }

  /** A client that hears every event from its own number on, in order, catches up with the store. */
  lemma {:induction false} InOrderCatchesUp(c: Client, a: Audience, events: seq<Event>, from: nat)
    requires Faithful(c, a, events) && from <= c.sequence
    requires forall k :: 0 <= k < |events| ==> events[k].sequence == 1 + k
    ensures HearAll(c, a, events[from..]) == Client(Rebuild(map[], a, events), |events|)
    decreases |events| - from
  {
    if from == |events| {
      assert events[..|events|] == events;
    } else {
      HearingKeeps(c, a, events, from);
      assert events[from..][1..] == events[from + 1..];
      InOrderCatchesUp(Receive(c, ToMessage(events[from], a)), a, events, from + 1);
    }
  }
}
