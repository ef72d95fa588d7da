/** Composing contests and profiles from the ones they refer to. */
module ContestCompose {
  import opened Sums
  import opened ContestYaml

  datatype Catalog = Catalog(contests: map<string, Yaml>, profiles: map<string, Yaml>)

  /** What may be under resolution. */
  datatype Node = ContestNode(id: string) | ProfileNode(id: string)

  const PROFILES := Name("profiles")
  const EXTENDS := Name("extends")

  function Nodes(cat: Catalog): set<Node> {
    (set id | id in cat.contests :: ContestNode(id)) + (set id | id in cat.profiles :: ProfileNode(id))
  }

  /** The mapping of a node, if the catalog has one. */
  function Body(cat: Catalog, n: Node): Result<map<Key, Yaml>> {
    match n
    case ContestNode(id) => if id in cat.contests && cat.contests[id].Map? then Ok(cat.contests[id].entries) else Err
    case ProfileNode(id) => if id in cat.profiles && cat.profiles[id].Map? then Ok(cat.profiles[id].entries) else Err
  }

  function StringList(entries: map<Key, Yaml>, key: Key): Result<seq<string>> {
    if key !in entries then Ok([])
    else if !entries[key].Seq? then Err
    else if exists i :: 0 <= i < |entries[key].items| && !entries[key].items[i].Str? then Err
    else Ok(seq(|entries[key].items|, i requires 0 <= i < |entries[key].items| => entries[key].items[i].text))
  }

  /** The nodes that a node refers to: its profiles in order, then the contest it extends. */
  function Refs(cat: Catalog, n: Node): Result<seq<Node>> {
    match Body(cat, n)
    case Err => Err
    case Ok(entries) =>
      match StringList(entries, PROFILES)
      case Err => Err
      case Ok(names) =>
        var profiles := seq(|names|, i requires 0 <= i < |names| => ProfileNode(names[i]));
        if n.ProfileNode? then Ok(profiles) else
          match OptionalString(entries, EXTENDS)
          case Err => Err
          case Ok(None) => Ok(profiles)
          case Ok(Some(parent)) => Ok(profiles + [ContestNode(parent)])
  }

  /** What a node adds itself. A profile keeps an `extends` of its own. */
  function OwnEntries(cat: Catalog, n: Node): Yaml
    requires Body(cat, n).Ok?
  {
    Map(Body(cat, n).value - if n.ContestNode? then {PROFILES, EXTENDS} else {PROFILES})
  }

  lemma RefsInCatalog(cat: Catalog, n: Node)
    ensures Refs(cat, n).Ok? ==> n in Nodes(cat) && Body(cat, n).Ok?
  {
  }

  /** The value of a node, composed without memory; `stack` holds the nodes under resolution. */
  function Compose(cat: Catalog, n: Node, stack: set<Node>): Result<Yaml>
    decreases Nodes(cat) - stack, 0, 0
  {
    if n in stack || Refs(cat, n).Err? then Err else
      RefsInCatalog(cat, n);
      match ComposeRefs(cat, Refs(cat, n).value, |Refs(cat, n).value|, stack + {n})
      case Err => Err
      case Ok(inherited) => Merge(inherited, OwnEntries(cat, n))
  }

  /** The first k references merged over one another. */
  function ComposeRefs(cat: Catalog, refs: seq<Node>, k: nat, stack: set<Node>): Result<Yaml>
    requires k <= |refs|
    decreases Nodes(cat) - stack, 1, k
  {
    if k == 0 then Ok(Map(map[])) else
      match ComposeRefs(cat, refs, k - 1, stack)
      case Err => Err
      case Ok(value) =>
        match Compose(cat, refs[k - 1], stack)
        case Err => Err
        case Ok(resolved) => Merge(value, resolved)
  }

  // ----- the stack only rejects -----

  /** What composes under some nodes composes to the same under fewer. */
  lemma {:induction false} FewerNodes(cat: Catalog, n: Node, stack: set<Node>, fewer: set<Node>)
    requires fewer <= stack && Compose(cat, n, stack).Ok?
    ensures Compose(cat, n, fewer) == Compose(cat, n, stack)
    decreases Nodes(cat) - stack, 0, 0
  {
    RefsInCatalog(cat, n);
    hide Refs, Merge;
    FewerNodesRefs(cat, Refs(cat, n).value, |Refs(cat, n).value|, stack + {n}, fewer + {n});
  }

  lemma {:induction false} FewerNodesRefs(cat: Catalog, refs: seq<Node>, k: nat, stack: set<Node>, fewer: set<Node>)
    requires k <= |refs| && fewer <= stack && ComposeRefs(cat, refs, k, stack).Ok?
    ensures ComposeRefs(cat, refs, k, fewer) == ComposeRefs(cat, refs, k, stack)
    decreases Nodes(cat) - stack, 1, k
  {
    hide Refs, Merge;
    if k > 0 {
      FewerNodesRefs(cat, refs, k - 1, stack, fewer);
      FewerNodes(cat, refs[k - 1], stack, fewer);
    }
  }

  lemma {:induction false} RefsCompose(cat: Catalog, refs: seq<Node>, k: nat, stack: set<Node>, i: nat)
    requires i < k <= |refs| && ComposeRefs(cat, refs, k, stack).Ok?
    ensures Compose(cat, refs[i], stack).Ok?
  {
    hide Refs, Merge, Compose;
    if i < k - 1 {
      RefsCompose(cat, refs, k - 1, stack, i);
    }
  }

  // ----- paths -----

  predicate RefersTo(cat: Catalog, a: Node, b: Node) {
    Refs(cat, a).Ok? && b in Refs(cat, a).value
  }

  ghost predicate IsPath(cat: Catalog, p: seq<Node>) {
    p != [] && forall i :: 0 <= i < |p| - 1 ==> RefersTo(cat, p[i], p[i + 1])
  }

  ghost predicate Reaches(cat: Catalog, a: Node, b: Node) {
    exists p :: IsPath(cat, p) && p[0] == a && p[|p| - 1] == b
  }

  function SetOf(p: seq<Node>): set<Node> {
    set n | n in p
  }

  lemma ReachesNext(cat: Catalog, a: Node, b: Node, x: Node)
    requires RefersTo(cat, a, b) && Reaches(cat, b, x)
    ensures Reaches(cat, a, x)
  {
    hide RefersTo;
    var p :| IsPath(cat, p) && p[0] == b && p[|p| - 1] == x;
    PathFrom(cat, a, p);
    assert ([a] + p)[|p|] == x;
  }

  lemma PathFrom(cat: Catalog, a: Node, p: seq<Node>)
    requires IsPath(cat, p) && RefersTo(cat, a, p[0])
    ensures IsPath(cat, [a] + p)
  {
    hide RefersTo;
    var q := [a] + p;
    forall i | 0 <= i < |q| - 1 ensures RefersTo(cat, q[i], q[i + 1]) {
      if i > 0 { assert RefersTo(cat, p[i - 1], p[i]); }
    }
  }

  lemma PathPart(cat: Catalog, p: seq<Node>, from: nat, to: nat)
    requires IsPath(cat, p) && from < to <= |p|
    ensures IsPath(cat, p[from..to])
  {
    var q := p[from..to];
    forall i | 0 <= i < |q| - 1 ensures RefersTo(cat, q[i], q[i + 1]) {
      assert RefersTo(cat, p[from + i], p[from + i + 1]);
    }
  }

  lemma PathOn(cat: Catalog, p: seq<Node>, m: Node)
    requires IsPath(cat, p) && RefersTo(cat, p[|p| - 1], m)
    ensures IsPath(cat, p + [m])
  {
    var q := p + [m];
    forall i | 0 <= i < |q| - 1 ensures RefersTo(cat, q[i], q[i + 1]) {
      if i < |p| - 1 { assert RefersTo(cat, p[i], p[i + 1]); }
    }
  }

  /** Along a path of references from a node that composes, every node composes under those before it. */
  lemma {:induction false} PathComposes(cat: Catalog, p: seq<Node>, stack: set<Node>)
    requires IsPath(cat, p) && Compose(cat, p[0], stack).Ok?
    ensures Compose(cat, p[|p| - 1], stack + SetOf(p[..|p| - 1])).Ok?
    decreases |p|
  {
    if |p| == 1 {
      assert stack + SetOf(p[..0]) == stack;
    } else {
      var refs := Refs(cat, p[0]).value;
      assert RefersTo(cat, p[0], p[1]);
      var i :| 0 <= i < |refs| && refs[i] == p[1];
      RefsCompose(cat, refs, |refs|, stack + {p[0]}, i);
      var q := p[1..];
      PathPart(cat, p, 1, |p|);
      hide Compose, RefersTo, IsPath, Refs;
      PathComposes(cat, q, stack + {p[0]});
      assert p[..|p| - 1] == [p[0]] + q[..|q| - 1];
      assert stack + {p[0]} + SetOf(q[..|q| - 1]) == stack + SetOf(p[..|p| - 1]);
    }
  }

  /** Every cycle of references that a node can reach is rejected: where it composes, paths never repeat. */
  lemma CyclesAreRejected(cat: Catalog, p: seq<Node>, stack: set<Node>)
    requires IsPath(cat, p) && Compose(cat, p[0], stack).Ok?
    ensures forall i, j :: 0 <= i < j < |p| ==> p[i] != p[j]
    ensures forall i :: 0 <= i < |p| ==> p[i] !in stack && p[i] in Nodes(cat)
  {
    forall j | 0 <= j < |p|
      ensures p[j] !in stack && p[j] in Nodes(cat) && forall i :: 0 <= i < j ==> p[i] != p[j]
    {
      var q := p[..j + 1];
      PathPart(cat, p, 0, j + 1);
      PathComposes(cat, q, stack);
      ComposedNode(cat, p[j], stack + SetOf(q[..j]));
      forall i | 0 <= i < j ensures p[i] != p[j] {
        assert q[..j][i] == p[i];
        assert p[i] in SetOf(q[..j]);
      }
    }
  }

  lemma ComposedNode(cat: Catalog, n: Node, stack: set<Node>)
    requires Compose(cat, n, stack).Ok?
    ensures n !in stack && n in Nodes(cat)
  {
    RefsInCatalog(cat, n);
  }

  lemma ReachesItself(cat: Catalog, n: Node)
    ensures Reaches(cat, n, n)
  {
    assert IsPath(cat, [n]) && [n][0] == n;
  }

  /** A node that cannot reach x does not mind x being under resolution. */
  lemma {:induction false} Unreached(cat: Catalog, n: Node, stack: set<Node>, x: Node)
    requires Compose(cat, n, stack).Ok? && !Reaches(cat, n, x)
    ensures Compose(cat, n, stack + {x}) == Compose(cat, n, stack)
    decreases Nodes(cat) - stack, 0, 0
  {
    ReachesItself(cat, n);
    RefsInCatalog(cat, n);
    var refs := Refs(cat, n).value;
    forall i | 0 <= i < |refs| ensures !Reaches(cat, refs[i], x) {
      if Reaches(cat, refs[i], x) {
        ReachesNext(cat, n, refs[i], x);
      }
    }
    hide Refs, Merge, Reaches;
    UnreachedRefs(cat, refs, |refs|, stack + {n}, x);
    assert stack + {n} + {x} == stack + {x} + {n};
  }

  lemma {:induction false} UnreachedRefs(cat: Catalog, refs: seq<Node>, k: nat, stack: set<Node>, x: Node)
    requires k <= |refs| && ComposeRefs(cat, refs, k, stack).Ok?
    requires forall i :: 0 <= i < |refs| ==> !Reaches(cat, refs[i], x)
    ensures ComposeRefs(cat, refs, k, stack + {x}) == ComposeRefs(cat, refs, k, stack)
    decreases Nodes(cat) - stack, 1, k
  {
    hide Refs, Merge, Reaches, Compose;
    if k > 0 {
      UnreachedRefs(cat, refs, k - 1, stack, x);
      Unreached(cat, refs[k - 1], stack, x);
    }
  }

  lemma CycleFails(cat: Catalog, p: seq<Node>)
    requires IsPath(cat, p) && |p| > 1 && p[0] == p[|p| - 1]
    ensures Compose(cat, p[0], {}).Err?
  {
    hide Compose, IsPath;
    assert p[..|p| - 1][0] == p[0];
    LastIsNew(cat, p);
  }

  lemma LastIsNew(cat: Catalog, p: seq<Node>)
    requires IsPath(cat, p)
    ensures Compose(cat, p[0], {}).Ok? ==> p[|p| - 1] !in SetOf(p[..|p| - 1])
  {
    if Compose(cat, p[0], {}).Ok? {
      PathComposes(cat, p, {});
      ComposedNode(cat, p[|p| - 1], {} + SetOf(p[..|p| - 1]));
    }
  }

  lemma NoWayBack(cat: Catalog, n: Node, m: Node)
    requires RefersTo(cat, n, m) && Compose(cat, m, {}).Ok?
    ensures !Reaches(cat, m, n)
  {
    hide Compose;
    forall p | IsPath(cat, p) && p[0] == m ensures p[|p| - 1] != n {
      if p[|p| - 1] == n {
        PathOn(cat, p, m);
        CycleFails(cat, p + [m]);
      }
    }
  }

  /** A reference that composes by itself does so under the node that refers to it. */
  lemma ReferenceComposes(cat: Catalog, n: Node, m: Node)
    requires RefersTo(cat, n, m) && Compose(cat, m, {}).Ok?
    ensures Compose(cat, m, {n}) == Compose(cat, m, {})
  {
    NoWayBack(cat, n, m);
    hide Reaches, RefersTo, Compose;
    Unreached(cat, m, {}, n);
    assert {} + {n} == {n};
  }

  // ----- why a composition fails -----

  /** Documents merged one over another, beginning with an empty mapping. */
  function Overlaid(parts: seq<Yaml>): Result<Yaml> {
    if parts == [] then Ok(Map(map[])) else
      match Overlaid(parts[..|parts| - 1])
      case Err => Err
      case Ok(value) => Merge(value, parts[|parts| - 1])
  }

  ghost predicate AllCompose(cat: Catalog, refs: seq<Node>) {
    forall i :: 0 <= i < |refs| ==> Compose(cat, refs[i], {}).Ok?
  }

  /** The values that nodes have by themselves. */
  ghost function Values(cat: Catalog, refs: seq<Node>): seq<Yaml>
    requires AllCompose(cat, refs)
  {
    seq(|refs|, i requires 0 <= i < |refs| => Compose(cat, refs[i], {}).value)
  }

  /** Each reference of a node has a value, but these values and the node's own entries do not merge. */
  ghost predicate MergeBreaks(cat: Catalog, n: Node) {
    && Refs(cat, n).Ok? && Body(cat, n).Ok? && AllCompose(cat, Refs(cat, n).value)
    && Overlaid(Values(cat, Refs(cat, n).value) + [OwnEntries(cat, n)]).Err?
  }

  lemma {:induction false} RefsOverlay(cat: Catalog, refs: seq<Node>, k: nat, stack: set<Node>)
    requires k <= |refs| && forall i :: 0 <= i < |refs| ==> Compose(cat, refs[i], stack).Ok?
    ensures AllCompose(cat, refs)
    ensures ComposeRefs(cat, refs, k, stack) == Overlaid(Values(cat, refs)[..k])
  {
    hide Compose, Merge;
    forall i | 0 <= i < |refs| ensures Compose(cat, refs[i], {}) == Compose(cat, refs[i], stack) {
      FewerNodes(cat, refs[i], stack, {});
    }
    if k > 0 {
      RefsOverlay(cat, refs, k - 1, stack);
      assert Values(cat, refs)[..k][..k - 1] == Values(cat, refs)[..k - 1];
    }
  }

  /** Where all references of a node compose, composing the node is overlaying their values. */
  lemma ComposeOverlays(cat: Catalog, n: Node, stack: set<Node>)
    requires n !in stack && Refs(cat, n).Ok? && Body(cat, n).Ok?
    requires forall m :: m in Refs(cat, n).value ==> Compose(cat, m, stack + {n}).Ok?
    ensures AllCompose(cat, Refs(cat, n).value)
    ensures Compose(cat, n, stack) == Overlaid(Values(cat, Refs(cat, n).value) + [OwnEntries(cat, n)])
  {
    var refs := Refs(cat, n).value;
    hide Refs, Merge, OwnEntries, Body;
    RefsOverlay(cat, refs, |refs|, stack + {n});
    var values := Values(cat, refs);
    assert values[..|refs|] == values;
    assert (values + [OwnEntries(cat, n)])[..|values|] == values;
  }

  /** A path of references leads to a node that is under resolution, malformed or beyond merging. */
  ghost predicate Blocked(cat: Catalog, p: seq<Node>, stack: set<Node>) {
    && IsPath(cat, p)
    && var before, last := stack + SetOf(p[..|p| - 1]), p[|p| - 1];
       last in before || Refs(cat, last).Err? || MergeBreaks(cat, last)
  }

  lemma BlockedAt(cat: Catalog, n: Node, stack: set<Node>)
    requires n in stack || Refs(cat, n).Err? || MergeBreaks(cat, n)
    ensures Blocked(cat, [n], stack)
  {
    hide MergeBreaks;
    assert [n][..0] == [] && stack + SetOf([]) == stack;
    assert IsPath(cat, [n]);
  }

  lemma BlockedFurther(cat: Catalog, n: Node, p: seq<Node>, stack: set<Node>)
    requires IsPath(cat, p) && RefersTo(cat, n, p[0]) && Blocked(cat, p, stack + {n})
    ensures Blocked(cat, [n] + p, stack)
  {
    hide MergeBreaks, RefersTo;
    PathFrom(cat, n, p);
    var q := [n] + p;
    assert q[..|q| - 1] == [n] + p[..|p| - 1];
    assert stack + SetOf(q[..|q| - 1]) == stack + {n} + SetOf(p[..|p| - 1]);
    assert q[|q| - 1] == p[|p| - 1];
  }

  lemma {:induction false} FailureHasReason(cat: Catalog, n: Node, stack: set<Node>)
    requires Compose(cat, n, stack).Err?
    ensures exists p :: Blocked(cat, p, stack) && p[0] == n
    decreases Nodes(cat) - stack
  {
    RefsInCatalog(cat, n);
    hide Refs, Merge;
    if n in stack || Refs(cat, n).Err? {
      BlockedAt(cat, n, stack);
    } else if m :| m in Refs(cat, n).value && Compose(cat, m, stack + {n}).Err? {
      FailureHasReason(cat, m, stack + {n});
      var p :| Blocked(cat, p, stack + {n}) && p[0] == m;
      hide Compose;
      BlockedFurther(cat, n, p, stack);
      assert ([n] + p)[0] == n;
    } else {
      ComposeOverlays(cat, n, stack);
      BlockedAt(cat, n, stack);
    }
  }

  /**
   A node composes exactly if no path of references from it comes back to a node under resolution, meets
   an unknown or malformed node, or meets a node whose parts cannot be merged.
   */
  lemma ComposesIffNotBlocked(cat: Catalog, n: Node, stack: set<Node>)
    ensures Compose(cat, n, stack).Ok? <==> !exists p :: Blocked(cat, p, stack) && p[0] == n
  {
    if Compose(cat, n, stack).Err? {
      FailureHasReason(cat, n, stack);
    } else {
      forall p | IsPath(cat, p) && p[0] == n ensures !Blocked(cat, p, stack) {
        PathComposes(cat, p, stack);
        NotBroken(cat, p[|p| - 1], stack + SetOf(p[..|p| - 1]));
      }
    }
  }

  lemma NotBroken(cat: Catalog, n: Node, stack: set<Node>)
    requires Compose(cat, n, stack).Ok?
    ensures n !in stack && Refs(cat, n).Ok? && !MergeBreaks(cat, n)
  {
    RefsInCatalog(cat, n);
    var refs := Refs(cat, n).value;
    forall m | m in refs ensures Compose(cat, m, stack + {n}).Ok? {
      var i :| 0 <= i < |refs| && refs[i] == m;
      RefsCompose(cat, refs, |refs|, stack + {n}, i);
    }
    ComposeOverlays(cat, n, stack);
  }
}
