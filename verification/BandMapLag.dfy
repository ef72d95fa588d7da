/**
 Notices of lost messages. The events of the map go through a channel that keeps the latest ones for
 each subscription. A subscription that has fallen further behind is told so; it sends its client the
 current number without an event, and goes on with the oldest event that is kept.
 */
module BandMapLag {
  import opened Sums
  import opened BandMapSpec
  import opened BandMapEvents
  import opened BandMapClients
  import opened BandMapHidden

  const EVENT_BUFFER: nat := 512

  /**
   What a subscription sends next, and how much it has read then, when `sent` of the events of the
   store have gone through the channel and it has read some of them.
   */
  function Next(events: seq<Event>, sent: nat, read: nat, a: Audience): (Message, nat)
    requires read < sent <= |events|
  {
    if sent - read > EVENT_BUFFER then (SequenceMessage(|events|), sent - EVENT_BUFFER)
    else (ToMessage(events[read], a), read + 1)
  }

  /** The event changes nothing in what a client shows. */
  predicate MeansNothing(view: map<nat, Shown>, a: Audience, e: Event) {
    match e
    case Upserted(_, spot) => !Visible(spot.shown, a) || (spot.id in view && view[spot.id] == spot.shown)
    case Deleted(_, id) => id !in view
  }

  lemma NothingMeant(view: map<nat, Shown>, a: Audience, e: Event)
    ensures MeansNothing(view, a, e) <==> ApplyMessage(view, ToMessage(e, a)) == view
  {
    if e.Upserted? && MeansNothing(view, a, e) {
      assert e.spot.id in view ==> view[e.spot.id := view[e.spot.id]] == view;
    }
    if e.Upserted? && Visible(e.spot.shown, a) {
      assert view[e.spot.id := e.spot.shown][e.spot.id] == e.spot.shown;
    }
  }

  /**
   A client stays faithful under the notice of a subscription that has fallen behind exactly if it does
   not expect the current number next, or the event of that number means nothing to it.
   */
  lemma LagNotice(c: Client, a: Audience, events: seq<Event>, sent: nat, read: nat)
    requires read < sent <= |events| && sent - read > EVENT_BUFFER && Faithful(c, a, events)
    ensures Faithful(Receive(c, Next(events, sent, read, a).0), a, events) <==>
            (c.sequence + 1 != |events| || MeansNothing(c.view, a, events[|events| - 1]))
  {
    var n := |events|;
    if n == c.sequence + 1 {
      assert events[..n][..n - 1] == events[..n - 1];
      NothingMeant(c.view, a, events[n - 1]);
    }
  }

  // ----- a spot that is lost stays lost -----

  predicate About(e: Event, id: nat) {
    match e
    case Upserted(_, spot) => spot.id == id
    case Deleted(_, other) => other == id
  }

  predicate Numbered(events: seq<Event>) {
    forall k :: 0 <= k < |events| ==> events[k].sequence == 1 + k
  }

  /** What may reach a client without a snapshot: the message of any event, or another notice. */
  datatype Told = Event(event: nat) | Notice(number: nat)

  predicate Tells(events: seq<Event>, told: Told) {
    match told
    case Event(i) => i < |events|
    case Notice(n) => n <= |events|
  }

  function ToldAll(c: Client, a: Audience, events: seq<Event>, told: seq<Told>): Client
    requires forall i :: 0 <= i < |told| ==> Tells(events, told[i])
  {
    if told == [] then c else
      var before := ToldAll(c, a, events, told[..|told| - 1]);
      match told[|told| - 1]
      case Event(i) =>
        assert Tells(events, told[|told| - 1]);
        Receive(before, ToMessage(events[i], a))
      case Notice(n) => Receive(before, SequenceMessage(n))
  }

  predicate SameAt(view: map<nat, Shown>, other: map<nat, Shown>, id: nat) {
    (id in view <==> id in other) && (id in view ==> view[id] == other[id])
  }

  lemma {:induction false} ToldKeepsLoss(c: Client, a: Audience, events: seq<Event>, told: seq<Told>, id: nat)
    requires Numbered(events) && c.sequence <= |events|
    requires forall k :: c.sequence <= k < |events| ==> !About(events[k], id)
    requires forall i :: 0 <= i < |told| ==> Tells(events, told[i])
    ensures var d := ToldAll(c, a, events, told);
            c.sequence <= d.sequence <= |events| && SameAt(d.view, c.view, id)
  {
    if told != [] {
      hide Visible;
      ToldKeepsLoss(c, a, events, told[..|told| - 1], id);
      assert Tells(events, told[|told| - 1]);
    }
  }

  lemma {:induction false} RebuiltShows(a: Audience, events: seq<Event>, n: nat, m: nat, spot: Spot)
    requires 0 < n <= m <= |events|
    requires events[n - 1].Upserted? && events[n - 1].spot == spot && Visible(spot.shown, a)
    requires forall k :: n <= k < m ==> !About(events[k], spot.id)
    ensures var view := Rebuild(map[], a, events[..m]);
            spot.id in view && view[spot.id] == spot.shown
    decreases m
  {
    hide Visible;
    assert events[..m][..m - 1] == events[..m - 1];
    if m > n {
      RebuiltShows(a, events, n, m - 1, spot);
      assert !About(events[m - 1], spot.id);
    }
  }

  /**
   A client whose snapshot is one event old takes the notice for that event. If the event was a spot that
   is news to it, it does not show the spot until it takes a snapshot or another event is about the spot,
   whatever it is told.
   */
  lemma LagNoticeLosesSpot(c: Client, a: Audience, all: seq<Event>, n: nat, sent: nat, read: nat, told: seq<Told>)
    requires read < sent <= n <= |all| && sent - read > EVENT_BUFFER && Numbered(all)
    requires Faithful(c, a, all[..n]) && c.sequence == n - 1
    requires all[n - 1].Upserted? && !MeansNothing(c.view, a, all[n - 1])
    requires forall k :: n <= k < |all| ==> !About(all[k], all[n - 1].spot.id)
    requires forall i :: 0 <= i < |told| ==> Tells(all, told[i])
    ensures var noticed := Receive(c, Next(all[..n], sent, read, a).0);
            !Faithful(ToldAll(noticed, a, all, told), a, all)
  {
    hide Rebuild, ToldAll, MeansNothing, Visible, Faithful, Next, About, Receive, Numbered, Tells;
    var spot := all[n - 1].spot;
    var noticed := Receive(c, Next(all[..n], sent, read, a).0);
    NoticeTaken(c, a, all[..n], sent, read);
    ToldKeepsLoss(noticed, a, all, told, spot.id);
    var d := ToldAll(noticed, a, all, told);
    NewsIsVisible(c.view, a, all[n - 1]);
    RebuiltShows(a, all, n, d.sequence, spot);
    NotFaithful(d, a, all, spot);
  }

  lemma NoticeTaken(c: Client, a: Audience, events: seq<Event>, sent: nat, read: nat)
    requires read < sent <= |events| && sent - read > EVENT_BUFFER && c.sequence == |events| - 1
    ensures Receive(c, Next(events, sent, read, a).0) == Client(c.view, |events|)
  {
  }

  lemma NewsIsVisible(view: map<nat, Shown>, a: Audience, e: Event)
    requires e.Upserted? && !MeansNothing(view, a, e)
    ensures Visible(e.spot.shown, a) && !(e.spot.id in view && view[e.spot.id] == e.spot.shown)
  {
  }

  lemma NotFaithful(d: Client, a: Audience, events: seq<Event>, spot: Spot)
    requires d.sequence <= |events|
    requires var view := Rebuild(map[], a, events[..d.sequence]); spot.id in view && view[spot.id] == spot.shown
    requires !(spot.id in d.view && d.view[spot.id] == spot.shown)
    ensures !Faithful(d, a, events)
  {
  }

  // ----- a run in which that happens -----

  /** One cluster report after the other. */
  function Reporting(n: nat, shown: Shown): (actions: seq<Action>)
    ensures |actions| == n
  {
    seq(n, i requires 0 <= i < n => ReportSpot(0, ClusterKey(i), Candidate(0, shown), i))
  }

  function Reported(n: nat, shown: Shown): Store {
    if n == 0 then EMPTY_STORE else Appended(Reported(n - 1, shown), ClusterKey(n - 1), Candidate(0, shown))
  }

  lemma {:induction false} ReportedIs(n: nat, shown: Shown)
    ensures var s := Reported(n, shown);
            && s.nextId == s.nextSequence == |s.idsByTime| == n && Before(s, 0)
            && (forall i :: n <= i ==> ClusterKey(i) !in s.idByKey)
            && Prune(s, 0) == (s, [])
  {
    if n > 0 { ReportedIs(n - 1, shown); }
  }

  lemma {:induction false} RunAppend(s: Store, actions: seq<Action>, a: Action)
    requires Inv(s) && CanRun(s, actions) && Inv(Run(s, actions).0) && CanDo(Run(s, actions).0, a)
    ensures CanRun(s, actions + [a])
    ensures var (t, e) := Run(s, actions);
            Run(s, actions + [a]) == (Do(t, a).0, e + Do(t, a).1)
    decreases |actions|
  {
    hide Inv, CanDo, Do;
    if actions == [] {
      var e := Do(s, a).1;
      assert [] + [a] == [a] && [a][1..] == [] && [] + e == e + [];
    } else {
      assert (actions + [a])[1..] == actions[1..] + [a];
      var t := Do(s, actions[0]).0;
      RunAppend(t, actions[1..], a);
      var (u, e) := Run(t, actions[1..]);
      assert Do(s, actions[0]).1 + (e + Do(u, a).1) == Do(s, actions[0]).1 + e + Do(u, a).1;
    }
  }

  lemma {:induction false} ReportingRuns(n: nat, shown: Shown)
    requires shown.spotType.Dx? && shown.logId.None?
    ensures CanRun(EMPTY_STORE, Reporting(n, shown))
    ensures var (s, events) := Run(EMPTY_STORE, Reporting(n, shown));
            && s == Reported(n, shown) && Inv(s) && |events| == n
            && (n > 0 ==> events[n - 1] == Upserted(n, Spot(n, 0, shown)))
  {
    hide Inv, CanDo, Do, Appended, Report, PartitionPoint, Upserting, Without, Prune, Follows, Before;
    EmptyIsOk();
    if n > 0 {
      ReportingRuns(n - 1, shown);
      ReportedIs(n - 1, shown);
      var s := Reported(n - 1, shown);
      var a := ReportSpot(0, ClusterKey(n - 1), Candidate(0, shown), n - 1);
      ReportAppends(s, ClusterKey(n - 1), Candidate(0, shown));
      assert Reporting(n, shown) == Reporting(n - 1, shown) + [a];
      ReportDone(s, a);
      DoKeeps(s, a);
      hide Run, CanRun;
      RunAppend(EMPTY_STORE, Reporting(n - 1, shown), a);
    }
  }

  lemma ReportDone(s: Store, a: Action)
    requires a.ReportSpot? && Fits(a.key, a.candidate.shown) && Prune(s, a.cutoff) == (s, [])
    requires PartitionPoint(Upserting(s, a.key, a.candidate), Without(s.idsByTime, UpsertId(s, a.key)),
                            a.candidate.receivedAt, UpsertId(s, a.key), a.at)
    requires a.key in s.idByKey ==> s.idByKey[a.key] in s.spots
    ensures CanDo(s, a)
    ensures Inv(s) ==> Do(s, a) == Report(s, a.key, a.candidate, a.at)
  {
    hide Inv, Prune, Report, Upserting, Without, Fits;
    if Inv(s) {
      var (u, f) := Report(s, a.key, a.candidate, a.at);
      assert [] + f == f;
    }
  }

  /**
   513 reports reach the store while a subscription has read none of them, and its client has taken a
   snapshot after the 512th: the notice makes the client miss the last spot.
   */
  lemma LagNoticeCanLoseASpot(shown: Shown)
    requires shown.spotType.Dx? && shown.logId.None?
    ensures var actions := Reporting(EVENT_BUFFER + 1, shown);
            && CanRun(EMPTY_STORE, actions) && Meets(actions, Adopt(EVENT_BUFFER))
            && var events := Run(EMPTY_STORE, actions).1;
               var c := After(Client(map[], 0), Session(None), actions, [Adopt(EVENT_BUFFER)]);
               && |events| == EVENT_BUFFER + 1
               && Faithful(c, Session(None), events)
               && !Faithful(Receive(c, Next(events, |events|, 0, Session(None)).0), Session(None), events)
  {
    var actions := Reporting(EVENT_BUFFER + 1, shown);
    var a := Session(None);
    ReportingRuns(EVENT_BUFFER + 1, shown);
    ReportingRuns(EVENT_BUFFER, shown);
    assert actions[..EVENT_BUFFER] == Reporting(EVENT_BUFFER, shown);
    hide Reporting, Run, CanRun, Inv, Reported;
    var events := Run(EMPTY_STORE, actions).1;
    AdoptedOnce(a, actions, EVENT_BUFFER);
    ReportedIs(EVENT_BUFFER, shown);
    var c := After(Client(map[], 0), a, actions, [Adopt(EVENT_BUFFER)]);
    ClientsAreFaithful(a, actions, [Adopt(EVENT_BUFFER)]);
    NotYetShown(EVENT_BUFFER, shown, a);
    LagNotice(c, a, events, |events|, 0);
  }

  lemma AdoptedOnce(a: Audience, actions: seq<Action>, n: nat)
    requires CanRun(EMPTY_STORE, actions) && n <= |actions| && CanRun(EMPTY_STORE, actions[..n])
    requires Inv(Run(EMPTY_STORE, actions[..n]).0)
    ensures Meets(actions, Adopt(n))
    ensures var s := Run(EMPTY_STORE, actions[..n]).0;
            After(Client(map[], 0), a, actions, [Adopt(n)]) == Client(View(s, a), s.nextSequence)
  {
    hide Run, CanRun, Inv, View;
    SnapshotIsView(Run(EMPTY_STORE, actions[..n]).0, a);
    assert [Adopt(n)][..0] == [];
  }

  lemma {:induction false} NotYetShown(n: nat, shown: Shown, a: Audience)
    ensures forall id :: id in Reported(n, shown).spots ==> id <= n
    ensures forall id :: id in View(Reported(n, shown), a) ==> id <= n
  {
    hide Visible;
    if n > 0 {
      NotYetShown(n - 1, shown, a);
      ReportedIs(n - 1, shown);
    }
  }
}
