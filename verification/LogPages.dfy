/** Paging through a log by callsign prefix: an ordered index finds what a scan of the whole log would. */
module LogPages {
  import opened Sums
  import opened LogOrder

  // ----- lexicographic order -----

  predicate AtMost(a: string, b: string) {
    a == "" || (b != "" && (a[0] < b[0] || (a[0] == b[0] && AtMost(a[1..], b[1..]))))
  }

  lemma {:induction false} AtMostTransitive(a: string, b: string, c: string)
    requires AtMost(a, b) && AtMost(b, c)
    ensures AtMost(a, c)
  {
    if a != "" && a[0] == b[0] && b[0] == c[0] {
      AtMostTransitive(a[1..], b[1..], c[1..]);
    }
  }

  lemma {:induction false} AtMostTotal(a: string, b: string)
    ensures AtMost(a, b) || AtMost(b, a)
    ensures AtMost(a, a)
  {
    if a != "" {
      if b != "" { AtMostTotal(a[1..], b[1..]); } else { AtMostTotal(a[1..], ""); }
    }
  }

  predicate StartsWith(s: string, prefix: string) {
    prefix <= s
  }

  /** A prefix comes before everything that starts with it. */
  lemma {:induction false} PrefixIsLeast(s: string, prefix: string)
    requires StartsWith(s, prefix)
    ensures AtMost(prefix, s)
  {
    if prefix != "" {
      PrefixIsLeast(s[1..], prefix[1..]);
    }
  }

  /** The strings with a prefix form one run of the order, beginning at the prefix. */
  lemma {:induction false} PrefixRun(prefix: string, a: string, b: string)
    requires AtMost(prefix, a) && AtMost(a, b) && StartsWith(b, prefix)
    ensures StartsWith(a, prefix)
  {
    if prefix != "" {
      assert b[0] == prefix[0] && a[0] == prefix[0];
      PrefixRun(prefix[1..], a[1..], b[1..]);
      assert a == [a[0]] + a[1..] && prefix == [prefix[0]] + prefix[1..];
    }
  }

  // ----- pages -----

  predicate Matches(c: LogContact, prefix: string) {
    c.callsign.Some? && StartsWith(c.callsign.value, prefix)
  }

  /** The contacts that match a prefix, in display order. */
  function Matching(cs: seq<LogContact>, prefix: string): seq<LogContact> {
    if cs == [] then []
    else Matching(cs[..|cs| - 1], prefix) + (if Matches(cs[|cs| - 1], prefix) then [cs[|cs| - 1]] else [])
  }

  function Slice(cs: seq<LogContact>, offset: nat, limit: nat): seq<LogContact> {
    if offset >= |cs| then []
    else if offset + limit <= |cs| then cs[offset..offset + limit]
    else cs[offset..]
  }

  function Page(cs: seq<LogContact>, offset: nat, limit: nat, prefix: Option<string>): seq<LogContact> {
    Slice(if prefix.None? then cs else Matching(cs, prefix.value), offset, limit)
  }

  predicate Increasing(xs: seq<nat>) {
    forall i, j :: 0 <= i < j < |xs| ==> xs[i] < xs[j]
  }

  function At(cs: seq<LogContact>, xs: seq<nat>): seq<LogContact>
    requires forall i :: 0 <= i < |xs| ==> xs[i] < |cs|
  {
    seq(|xs|, i requires 0 <= i < |xs| => cs[xs[i]])
  }

  lemma {:induction false} FewPositions(xs: seq<nat>, n: nat)
    requires Increasing(xs) && forall i :: 0 <= i < |xs| ==> xs[i] < n
    ensures |xs| <= n
    decreases |xs|
  {
    if xs != [] {
      FewPositions(xs[..|xs| - 1], xs[|xs| - 1]);
    }
  }

  /** Exactly the matching positions, in order. */
  ghost predicate ListsMatches(cs: seq<LogContact>, prefix: string, xs: seq<nat>) {
    && Increasing(xs)
    && (forall i :: 0 <= i < |xs| ==> xs[i] < |cs| && Matches(cs[xs[i]], prefix))
    && (forall p :: 0 <= p < |cs| && Matches(cs[p], prefix) ==> p in xs)
  }

  lemma ListsBut(cs: seq<LogContact>, prefix: string, xs: seq<nat>)
    requires cs != [] && ListsMatches(cs, prefix, xs) && Matches(cs[|cs| - 1], prefix)
    ensures xs != [] && xs[|xs| - 1] == |cs| - 1
    ensures ListsMatches(cs[..|cs| - 1], prefix, xs[..|xs| - 1])
  {
    hide Matches;
    LastIsGreatest(xs, |cs| - 1);
    assert xs == xs[..|xs| - 1] + [|cs| - 1];
  }

  lemma ListsSame(cs: seq<LogContact>, prefix: string, xs: seq<nat>)
    requires cs != [] && ListsMatches(cs, prefix, xs) && !Matches(cs[|cs| - 1], prefix)
    ensures ListsMatches(cs[..|cs| - 1], prefix, xs)
  {
    hide Matches;
    forall i | 0 <= i < |xs| ensures xs[i] != |cs| - 1 {
      assert Matches(cs[xs[i]], prefix);
    }
  }

  /** Listing the matching positions in order lists the matching contacts. */
  lemma {:induction false} PositionsList(cs: seq<LogContact>, prefix: string, xs: seq<nat>)
    requires ListsMatches(cs, prefix, xs)
    ensures (forall i :: 0 <= i < |xs| ==> xs[i] < |cs|) && At(cs, xs) == Matching(cs, prefix)
    decreases |cs|
  {
    FewPositions(xs, |cs|);
    hide Matches, ListsMatches;
    if cs == [] {
      assert At(cs, xs) == [];
    } else {
      var init := cs[..|cs| - 1];
      if Matches(cs[|cs| - 1], prefix) {
        ListsBut(cs, prefix, xs);
        var ys := xs[..|xs| - 1];
        PositionsList(init, prefix, ys);
        AtInit(cs, ys);
        assert At(cs, xs) == At(cs, ys) + [cs[|cs| - 1]];
      } else {
        ListsSame(cs, prefix, xs);
        PositionsList(init, prefix, xs);
        AtInit(cs, xs);
      }
    }
  }

  lemma {:induction false} MatchingPlaces(cs: seq<LogContact>, prefix: string) returns (xs: seq<nat>)
    ensures ListsMatches(cs, prefix, xs)
    decreases |cs|
  {
    hide Matches;
    xs := [];
    if cs != [] {
      var n := |cs| - 1;
      xs := MatchingPlaces(cs[..n], prefix);
      assert forall i :: 0 <= i < |xs| ==> cs[xs[i]] == cs[..n][xs[i]];
      assert forall p :: 0 <= p < n && Matches(cs[p], prefix) ==> Matches(cs[..n][p], prefix);
      if Matches(cs[n], prefix) {
        xs := xs + [n];
      }
    }
  }

  /** The contact has a callsign, and the first letters of it are these. */
  predicate HasPrefix(c: LogContact, prefix: string) {
    match c.callsign
    case None => false
    case Some(callsign) => |prefix| <= |callsign| && forall i :: 0 <= i < |prefix| ==> callsign[i] == prefix[i]
  }

  lemma MatchIs(c: LogContact, prefix: string)
    ensures Matches(c, prefix) <==> HasPrefix(c, prefix)
  {
    if HasPrefix(c, prefix) {
      assert prefix == c.callsign.value[..|prefix|];
    }
  }

  /**
   A page consists of the contacts whose callsign begins with the prefix, or of all of them, in display
   order: the first `offset` of them are left out, and so are those beyond the limit.
   */
  lemma PageIs(cs: seq<LogContact>, offset: nat, limit: nat, prefix: Option<string>) returns (xs: seq<nat>)
    ensures forall i, j :: 0 <= i < j < |xs| ==> xs[i] < xs[j] < |cs|
    ensures forall p: nat :: p in xs <==>
              p < |cs| && (prefix.Some? ==> HasPrefix(cs[p], prefix.value))
    ensures var page := Page(cs, offset, limit, prefix);
            && |page| == (if |xs| <= offset then 0 else if |xs| - offset <= limit then |xs| - offset else limit)
            && forall i :: 0 <= i < |page| ==> xs[offset + i] < |cs| && page[i] == cs[xs[offset + i]]
  {
    hide Matching;
    if prefix.None? {
      xs := seq(|cs|, i => i);
      forall p: nat ensures p in xs <==> p < |cs| {
        if p < |cs| { assert xs[p] == p; }
      }
    } else {
      xs := MatchingPlaces(cs, prefix.value);
      PositionsList(cs, prefix.value, xs);
      forall p: nat ensures p in xs <==> p < |cs| && HasPrefix(cs[p], prefix.value) {
        if p < |cs| { MatchIs(cs[p], prefix.value); }
        if p in xs {
          var i :| 0 <= i < |xs| && xs[i] == p;
          assert Matches(cs[xs[i]], prefix.value);
        }
      }
    }
  }

  lemma AtInit(cs: seq<LogContact>, xs: seq<nat>)
    requires cs != [] && forall i :: 0 <= i < |xs| ==> xs[i] < |cs| - 1
    ensures At(cs, xs) == At(cs[..|cs| - 1], xs)
  {
  }

  lemma InOrder(xs: seq<nat>, k: nat, l: nat)
    requires Increasing(xs) && k <= l < |xs|
    ensures xs[k] < xs[l] <==> k < l
  {
  }

  lemma LastIsGreatest(xs: seq<nat>, n: nat)
    requires Increasing(xs) && n in xs && forall i :: 0 <= i < |xs| ==> xs[i] <= n
    ensures xs != [] && xs[|xs| - 1] == n && forall i :: 0 <= i < |xs| - 1 ==> xs[i] < n
  {
    var k :| 0 <= k < |xs| && xs[k] == n;
    InOrder(xs, k, |xs| - 1);
  }

  // ----- indexes -----

  /** Every contact has its index, and every entry is that of a contact. */
  ghost predicate PositionsOk(cs: seq<LogContact>, positions: map<int, nat>) {
    && (forall i :: 0 <= i < |cs| ==> cs[i].id in positions && positions[cs[i].id] == i)
    && (forall id :: id in positions ==> positions[id] < |cs| && cs[positions[id]].id == id)
  }

  predicate Listed(index: map<string, seq<int>>, callsign: string, id: int) {
    callsign in index && id in index[callsign]
  }

  /** Each callsign lists the ids of its contacts, once each, and no callsign lists none. */
  ghost predicate IndexOk(cs: seq<LogContact>, index: map<string, seq<int>>) {
    && (forall i :: 0 <= i < |cs| && cs[i].callsign.Some? ==> Listed(index, cs[i].callsign.value, cs[i].id))
    && (forall k, id :: Listed(index, k, id) ==> exists i :: 0 <= i < |cs| && cs[i].id == id && cs[i].callsign == Some(k))
    && (forall k :: k in index ==> index[k] != [])
    && (forall k, i, j :: k in index && 0 <= i < j < |index[k]| ==> index[k][i] != index[k][j])
  }

  function IdSet(ids: seq<int>): set<int> {
    set id | id in ids
  }

  /** Exact indexes are determined by the contacts, up to the order of ids under a callsign. */
  lemma IndexesAgree(cs: seq<LogContact>, p: map<int, nat>, q: map<int, nat>,
                     a: map<string, seq<int>>, b: map<string, seq<int>>)
    requires PositionsOk(cs, p) && PositionsOk(cs, q) && IndexOk(cs, a) && IndexOk(cs, b)
    ensures p == q && a.Keys == b.Keys
    ensures forall k :: k in a && k in b ==> IdSet(a[k]) == IdSet(b[k])
  {
    forall id ensures id in p <==> id in q {
      if id in p { assert cs[p[id]].id == id; }
      if id in q { assert cs[q[id]].id == id; }
    }
    forall id | id in p ensures p[id] == q[id] {
      assert cs[q[id]].id == id;
    }
    assert p == q;
    ListedTransfers(cs, a, b);
    ListedTransfers(cs, b, a);
    forall k ensures k in a <==> k in b {
      if k in a { assert Listed(a, k, a[k][0]); }
      if k in b { assert Listed(b, k, b[k][0]); }
    }
    assert a.Keys == b.Keys;
    forall k | k in a && k in b ensures IdSet(a[k]) == IdSet(b[k]) {
      forall id ensures id in IdSet(a[k]) <==> id in IdSet(b[k]) {
        assert Listed(a, k, id) <==> Listed(b, k, id);
      }
    }
  }

  lemma ListedTransfers(cs: seq<LogContact>, a: map<string, seq<int>>, b: map<string, seq<int>>)
    requires IndexOk(cs, a) && IndexOk(cs, b)
    ensures forall k, id :: Listed(a, k, id) ==> Listed(b, k, id)
  {
    hide Listed;
  }
}
