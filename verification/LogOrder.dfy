/** The display order of a log, and what merging a batch of contacts into it means. */
module LogOrder {
  import opened Sums

  /** The parts of a contact that the cache looks at; `callsign` is trimmed and in upper case. */
  datatype LogContact = LogContact(id: int, time: int, callsign: Option<string>, body: string)

  /** Contact a comes no later in the log than b: newest first, larger ids first among equal times. */
  predicate NotBelow(a: LogContact, b: LogContact) {
    a.time > b.time || (a.time == b.time && a.id >= b.id)
  }

  predicate Sorted(cs: seq<LogContact>) {
    forall i, j :: 0 <= i < j < |cs| ==> NotBelow(cs[i], cs[j])
  }

  predicate UniqueIds(cs: seq<LogContact>) {
    forall i, j :: 0 <= i < j < |cs| ==> cs[i].id != cs[j].id
  }

  function SetOf(cs: seq<LogContact>): set<LogContact> {
    set c | c in cs
  }

  predicate HasId(held: set<LogContact>, id: int) {
    exists c :: c in held && c.id == id
  }

  /** A contact takes the place of the one with its id. */
  function Put(held: set<LogContact>, c: LogContact): set<LogContact> {
    (set d | d in held && d.id != c.id) + {c}
  }

  /** What a log holds after a batch. */
  function Updated(held: set<LogContact>, batch: seq<LogContact>): set<LogContact> {
    if batch == [] then held else Put(Updated(held, batch[..|batch| - 1]), batch[|batch| - 1])
  }

  /** The list shows exactly these contacts, each once, in display order. */
  ghost predicate Displays(cs: seq<LogContact>, held: set<LogContact>) {
    Sorted(cs) && UniqueIds(cs) && SetOf(cs) == held
  }

  lemma FirstIsGreatest(a: seq<LogContact>, b: seq<LogContact>)
    requires a != [] && Sorted(a) && Sorted(b) && UniqueIds(a) && UniqueIds(b) && SetOf(a) == SetOf(b)
    ensures b != [] && a[0] == b[0]
  {
    assert a[0] in SetOf(b);
    var j :| 0 <= j < |b| && b[j] == a[0];
    assert b[0] in SetOf(a);
    var i :| 0 <= i < |a| && a[i] == b[0];
    hide SetOf;
    assert NotBelow(b[0], b[j]) && NotBelow(a[0], a[i]);
  }

  lemma RestSet(cs: seq<LogContact>)
    requires cs != [] && UniqueIds(cs)
    ensures UniqueIds(cs[1..]) && SetOf(cs[1..]) == SetOf(cs) - {cs[0]}
  {
    assert cs == [cs[0]] + cs[1..];
    assert forall i :: 0 <= i < |cs[1..]| ==> cs[1..][i] == cs[i + 1];
  }

  /** There is only one way to display a set of contacts. */
  lemma {:induction false} OneDisplay(a: seq<LogContact>, b: seq<LogContact>)
    requires Sorted(a) && Sorted(b) && UniqueIds(a) && UniqueIds(b) && SetOf(a) == SetOf(b)
    ensures a == b
    decreases |a|
  {
    if a != [] {
      FirstIsGreatest(a, b);
      RestSet(a);
      RestSet(b);
      OneDisplay(a[1..], b[1..]);
      assert a == [a[0]] + a[1..] && b == [b[0]] + b[1..];
    } else if b != [] {
      FirstIsGreatest(b, a);
    }
  }

  // ----- placing a new contact -----

  function InsertAt(cs: seq<LogContact>, at: nat, c: LogContact): seq<LogContact>
    requires at <= |cs|
  {
    cs[..at] + [c] + cs[at..]
  }

  /** The contacts before `at` are not below the new one, the others are. */
  predicate IsPlace(cs: seq<LogContact>, c: LogContact, at: nat) {
    && at <= |cs|
    && (forall i :: 0 <= i < at ==> NotBelow(cs[i], c))
    && (forall i :: at <= i < |cs| ==> !NotBelow(cs[i], c))
  }

  lemma InsertSet(cs: seq<LogContact>, at: nat, c: LogContact)
    requires at <= |cs| && UniqueIds(cs) && !HasId(SetOf(cs), c.id)
    ensures UniqueIds(InsertAt(cs, at, c)) && SetOf(InsertAt(cs, at, c)) == Put(SetOf(cs), c)
  {
    var r := InsertAt(cs, at, c);
    assert cs == cs[..at] + cs[at..];
    forall i | 0 <= i < |cs| ensures cs[i].id != c.id {
      assert cs[i] in SetOf(cs);
    }
  }

  lemma InsertSorted(cs: seq<LogContact>, at: nat, c: LogContact)
    requires Sorted(cs) && IsPlace(cs, c, at)
    ensures Sorted(InsertAt(cs, at, c))
  {
    var r := InsertAt(cs, at, c);
    forall i, j | 0 <= i < j < |r| ensures NotBelow(r[i], r[j]) {
      if i == at {
        assert r[j] == cs[j - 1];
      } else if j == at {
        assert r[i] == cs[i];
      } else {
        assert r[i] == cs[if i < at then i else i - 1] && r[j] == cs[if j < at then j else j - 1];
      }
    }
  }

  lemma InsertDisplays(cs: seq<LogContact>, at: nat, c: LogContact, held: set<LogContact>)
    requires Displays(cs, held) && !HasId(held, c.id) && IsPlace(cs, c, at)
    ensures Displays(InsertAt(cs, at, c), Put(held, c))
  {
    InsertSet(cs, at, c);
    InsertSorted(cs, at, c);
    hide Sorted, UniqueIds, SetOf, Put, InsertAt;
  }

  // ----- merging -----

  /** Replaces the contact with the same id, or adds one at the end. */
  function MergeContact(cs: seq<LogContact>, c: LogContact): seq<LogContact> {
    if cs == [] then [c]
    else if cs[0].id == c.id then [c] + cs[1..]
    else [cs[0]] + MergeContact(cs[1..], c)
  }

  /** Merging acts at the first contact with the id, or behind all others. */
  lemma {:induction false} MergeContactAt(cs: seq<LogContact>, c: LogContact, i: nat)
    requires i <= |cs| && (forall j :: 0 <= j < i ==> cs[j].id != c.id) && (i < |cs| ==> cs[i].id == c.id)
    ensures MergeContact(cs, c) == if i < |cs| then cs[i := c] else cs + [c]
  {
    if i > 0 {
      MergeContactAt(cs[1..], c, i - 1);
      assert cs == [cs[0]] + cs[1..];
    }
  }

  lemma {:induction false} MergeContactSet(cs: seq<LogContact>, c: LogContact)
    requires UniqueIds(cs)
    ensures UniqueIds(MergeContact(cs, c)) && SetOf(MergeContact(cs, c)) == Put(SetOf(cs), c)
  {
    if cs != [] {
      var rest := cs[1..];
      RestSet(cs);
      assert cs == [cs[0]] + rest;
      assert forall d :: d in rest ==> d.id != cs[0].id;
      if cs[0].id != c.id {
        MergeContactSet(rest, c);
        var merged := MergeContact(rest, c);
        hide MergeContact;
        forall i | 0 <= i < |merged| ensures merged[i].id != cs[0].id {
          assert merged[i] in SetOf(merged);
        }
        assert SetOf([cs[0]] + merged) == SetOf(merged) + {cs[0]};
      } else {
        assert SetOf([c] + rest) == SetOf(rest) + {c};
      }
    }
  }

  // ----- several changes to one contact -----

  /** The last contact of each id that has not been seen further back, in the order of the batch. */
  function LastOfEach(batch: seq<LogContact>, seen: set<int>): seq<LogContact> {
    if batch == [] then [] else
      var last := batch[|batch| - 1];
      LastOfEach(batch[..|batch| - 1], seen + {last.id}) + if last.id in seen then [] else [last]
  }

  function Unseen(held: set<LogContact>, seen: set<int>): set<LogContact> {
    set c | c in held && c.id !in seen
  }

  lemma {:induction false} LastOfEachUnseen(held: set<LogContact>, batch: seq<LogContact>, seen: set<int>)
    ensures Unseen(Updated(held, LastOfEach(batch, seen)), seen) == Unseen(Updated(held, batch), seen)
  {
    if batch != [] {
      var init, last := batch[..|batch| - 1], batch[|batch| - 1];
      LastOfEachUnseen(held, init, seen + {last.id});
      var kept := LastOfEach(init, seen + {last.id});
      if last.id in seen {
        assert seen + {last.id} == seen;
        UnseenPut(Updated(held, init), last, seen);
        assert kept + [] == kept;
      } else {
        assert (kept + [last])[..|kept + [last]| - 1] == kept;
        UnseenPut(Updated(held, init), last, seen);
        UnseenPut(Updated(held, kept), last, seen);
      }
    }
  }

  lemma UnseenPut(held: set<LogContact>, c: LogContact, seen: set<int>)
    ensures Unseen(Put(held, c), seen) == if c.id in seen then Unseen(held, seen) else Unseen(held, seen + {c.id}) + {c}
  {
  }

  lemma {:induction false} LastOfEachOnce(batch: seq<LogContact>, seen: set<int>)
    ensures UniqueIds(LastOfEach(batch, seen))
    ensures forall c :: c in LastOfEach(batch, seen) ==> c.id !in seen && c in batch
  {
    if batch != [] {
      LastOfEachOnce(batch[..|batch| - 1], seen + {batch[|batch| - 1].id});
      assert batch == batch[..|batch| - 1] + [batch[|batch| - 1]];
      var kept := LastOfEach(batch[..|batch| - 1], seen + {batch[|batch| - 1].id});
      assert forall i :: 0 <= i < |kept| ==> kept[i] in kept;
    }
  }

  /** Dropping all but the last change of each contact from a batch leaves each id once, and the same outcome. */
  lemma DedupedBatch(held: set<LogContact>, batch: seq<LogContact>)
    ensures UniqueIds(LastOfEach(batch, {}))
    ensures Updated(held, LastOfEach(batch, {})) == Updated(held, batch)
  {
    LastOfEachOnce(batch, {});
    LastOfEachUnseen(held, batch, {});
    assert Unseen(Updated(held, batch), {}) == Updated(held, batch);
    assert Unseen(Updated(held, LastOfEach(batch, {})), {}) == Updated(held, LastOfEach(batch, {}));
  }

  // ----- what is shown -----

  /** A batch leaves the last version of each contact in it, and the contacts it does not mention. */
  lemma {:induction false} BatchLeaves(held: set<LogContact>, batch: seq<LogContact>, c: LogContact)
    ensures c in Updated(held, batch) <==>
            || (c in held && forall i :: 0 <= i < |batch| ==> batch[i].id != c.id)
            || exists i :: 0 <= i < |batch| && batch[i] == c && forall j :: i < j < |batch| ==> batch[j].id != c.id
  {
    if batch != [] {
      var n := |batch| - 1;
      var init := batch[..n];
      BatchLeaves(held, init, c);
      assert forall i :: 0 <= i < n ==> init[i] == batch[i];
      if batch[n].id != c.id && c in Updated(held, batch) && !(c in held && forall i :: 0 <= i < n ==> batch[i].id != c.id) {
        var i :| 0 <= i < n && init[i] == c && forall j :: i < j < n ==> init[j].id != c.id;
        assert batch[i] == c;
      }
      if i :| 0 <= i < |batch| && batch[i] == c && forall j :: i < j < |batch| ==> batch[j].id != c.id {
        if i < n {
          assert init[i] == c && batch[n].id != c.id;
        }
      }
    }
  }

  /** The newest contact comes first, and of two at the same time the one with the larger id. */
  lemma NewestFirst(cs: seq<LogContact>, held: set<LogContact>)
    requires Displays(cs, held)
    ensures forall c :: c in held <==> c in cs
    ensures forall i, j :: 0 <= i < j < |cs| ==>
              cs[i].time > cs[j].time || (cs[i].time == cs[j].time && cs[i].id > cs[j].id)
  {
    forall i, j | 0 <= i < j < |cs| ensures cs[i].time > cs[j].time || (cs[i].time == cs[j].time && cs[i].id > cs[j].id) {
      assert NotBelow(cs[i], cs[j]) && cs[i].id != cs[j].id;
    }
    forall c ensures c in held <==> c in cs {
      assert c in SetOf(cs) <==> c in cs;
    }
  }
}
