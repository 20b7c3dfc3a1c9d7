/** Dropping dead terminals from a layout, and what survives of it. */
module Layout {
  import opened Decimal

  datatype Tab = Terminal(session: string) | Editor(path: string)

  datatype SplitDir = Row | Column

  datatype Node =
    | Split(dir: SplitDir, ratio: real, first: Node, second: Node)
    | Leaf(tabs: seq<Tab>, active: nat, focused: bool)

  const EMPTY := Leaf([], 0, false)

  // ---- what a tree holds, in tree order ----

  function Leaves(node: Node): seq<Node> {
    match node
    case Split(_, _, first, second) => Leaves(first) + Leaves(second)
    case Leaf(_, _, _) => [node]
  }

  function Tabs(node: Node): seq<Tab> {
    match node
    case Split(_, _, first, second) => Tabs(first) + Tabs(second)
    case Leaf(tabs, _, _) => tabs
  }

  function Sessions(tabs: seq<Tab>): seq<string> {
    if tabs == [] then [] else (if tabs[0].Terminal? then [tabs[0].session] else []) + Sessions(tabs[1..])
  }

  function Editors(tabs: seq<Tab>): seq<string> {
    if tabs == [] then [] else (if tabs[0].Editor? then [tabs[0].path] else []) + Editors(tabs[1..])
  }

  function Chosen(sessions: seq<string>, keep: string -> bool): seq<string> {
    if sessions == [] then [] else (if keep(sessions[0]) then [sessions[0]] else []) + Chosen(sessions[1..], keep)
  }

  predicate Stays(tab: Tab, keep: string -> bool) { tab.Editor? || keep(tab.session) }

  function Kept(tabs: seq<Tab>, keep: string -> bool): (kept: seq<Tab>)
    ensures |kept| <= |tabs|
  {
    if tabs == [] then [] else (if Stays(tabs[0], keep) then [tabs[0]] else []) + Kept(tabs[1..], keep)
  }

  // ---- the pruning ----

  function Pruned(node: Node, keep: string -> bool): Option<Node> {
    match node
    case Leaf(tabs, active, focused) =>
      var kept := Kept(tabs, keep);
      if kept == [] then None else Some(Leaf(kept, if active < |kept| then active else |kept| - 1, focused))
    case Split(dir, ratio, first, second) =>
      match (Pruned(first, keep), Pruned(second, keep))
      case (Some(a), Some(b)) => Some(Split(dir, ratio, a, b))
      case (Some(only), None) => Some(only)
      case (None, Some(only)) => Some(only)
      case (None, None) => None
  }

  function Root(pruned: Option<Node>): Node { if pruned.Some? then pruned.value else EMPTY }

  method AppendTerminals(node: Node, out: seq<string>) returns (r: seq<string>)
    ensures r == out + Sessions(Tabs(node))
    decreases node
  {
    match node {
      case Split(_, _, first, second) =>
        r := AppendTerminals(first, out);
        r := AppendTerminals(second, r);
        SessionsConcat(Tabs(first), Tabs(second));
      case Leaf(tabs, _, _) =>
        r := out;
        var i := 0;
        assert tabs[..0] == [];
        while i < |tabs|
          invariant 0 <= i <= |tabs| && r == out + Sessions(tabs[..i])
        {
          assert tabs[..i + 1] == tabs[..i] + [tabs[i]];
          SessionsConcat(tabs[..i], [tabs[i]]);
          assert [tabs[i]][1..] == [];
          if tabs[i].Terminal? {
            r := r + [tabs[i].session];
          }
          i := i + 1;
        }
        assert tabs[..|tabs|] == tabs;
    }
  }

  class LayoutDoc {
    var version: nat
    var root: Node

    constructor (version: nat, root: Node)
      ensures this.version == version && this.root == root
    {
      this.version := version;
      this.root := root;
    }

    method TerminalSessions() returns (sessions: seq<string>)
      ensures sessions == Sessions(Tabs(root))
    {
      sessions := AppendTerminals(root, []);
    }

    method RetainSessions(keep: string -> bool) returns (changed: bool)
      modifies this`root
      ensures root == Root(Pruned(old(root), keep))
      ensures changed <==> exists s :: s in Sessions(Tabs(old(root))) && !keep(s)
    {
      var before := TerminalSessions();
      var root' := root;
      root := EMPTY;
      root := Root(Pruned(root', keep));
      var after := TerminalSessions();
      PruningKeepsTabs(root', keep);
      SessionsOfKept(Tabs(root'), keep);
      ChosenIsAll(before, keep);
      changed := before != after;
    }
  }

  // ---- concatenation ----

  lemma {:induction false} SessionsConcat(a: seq<Tab>, b: seq<Tab>)
    ensures Sessions(a + b) == Sessions(a) + Sessions(b)
    decreases |a|
  {
    if a == [] {
      assert a + b == b;
    } else {
      assert (a + b)[1..] == a[1..] + b;
      SessionsConcat(a[1..], b);
    }
  }

  lemma {:induction false} EditorsConcat(a: seq<Tab>, b: seq<Tab>)
    ensures Editors(a + b) == Editors(a) + Editors(b)
    decreases |a|
  {
    if a == [] {
      assert a + b == b;
    } else {
      assert (a + b)[1..] == a[1..] + b;
      EditorsConcat(a[1..], b);
    }
  }

  function One(tab: Tab, keep: string -> bool): seq<Tab> { if Stays(tab, keep) then [tab] else [] }

  lemma KeptFirst(tabs: seq<Tab>, keep: string -> bool)
    requires tabs != []
    ensures Kept(tabs, keep) == One(tabs[0], keep) + Kept(tabs[1..], keep)
  {
  }

  lemma KeptNone(keep: string -> bool)
    ensures Kept([], keep) == []
  {
  }

  lemma KeptFirstOf(a: seq<Tab>, b: seq<Tab>, keep: string -> bool)
    requires a != []
    ensures Kept(a + b, keep) == One(a[0], keep) + Kept(a[1..] + b, keep)
  {
    hide *;
    KeptFirst(a + b, keep);
    assert (a + b)[1..] == a[1..] + b;
  }

  lemma {:induction false} KeptConcat(a: seq<Tab>, b: seq<Tab>, keep: string -> bool)
    ensures Kept(a + b, keep) == Kept(a, keep) + Kept(b, keep)
    decreases |a|
  {
    hide *;
    if a == [] {
      KeptNone(keep);
      assert a + b == b && [] + Kept(b, keep) == Kept(b, keep);
    } else {
      KeptFirst(a, keep);
      KeptFirstOf(a, b, keep);
      KeptConcat(a[1..], b, keep);
      var one, left, right := One(a[0], keep), Kept(a[1..], keep), Kept(b, keep);
      assert one + (left + right) == (one + left) + right;
    }
  }

  // ---- what pruning keeps ----

  /** Every tab that stays, terminal or editor, is there in its old place in
      the order, and no other. */
  lemma {:induction false} PruningKeepsTabs(node: Node, keep: string -> bool)
    ensures Tabs(Root(Pruned(node, keep))) == Kept(Tabs(node), keep)
    ensures Pruned(node, keep).None? <==> Kept(Tabs(node), keep) == []
    decreases node
  {
    if node.Split? {
      PruningKeepsTabs(node.first, keep);
      PruningKeepsTabs(node.second, keep);
      KeptConcat(Tabs(node.first), Tabs(node.second), keep);
    }
  }

  lemma OfOne(tab: Tab, keep: string -> bool)
    ensures Sessions([tab]) == (if tab.Terminal? then [tab.session] else [])
    ensures Sessions(One(tab, keep)) == Chosen(Sessions([tab]), keep)
    ensures Editors(One(tab, keep)) == Editors([tab])
  {
    assert [tab][1..] == [];
  }

  lemma {:induction false} ChosenConcat(a: seq<string>, b: seq<string>, keep: string -> bool)
    ensures Chosen(a + b, keep) == Chosen(a, keep) + Chosen(b, keep)
    decreases |a|
  {
    if a == [] {
      assert a + b == b;
    } else {
      assert (a + b)[1..] == a[1..] + b;
      ChosenConcat(a[1..], b, keep);
    }
  }

  lemma {:induction false} SessionsOfKept(tabs: seq<Tab>, keep: string -> bool)
    ensures Sessions(Kept(tabs, keep)) == Chosen(Sessions(tabs), keep)
    ensures Editors(Kept(tabs, keep)) == Editors(tabs)
    decreases |tabs|
  {
    if tabs != [] {
      var one, rest := [tabs[0]], tabs[1..];
      assert tabs == one + rest;
      KeptFirst(tabs, keep);
      OfOne(tabs[0], keep);
      hide Sessions, Editors, Kept, Chosen, One;
      SessionsOfKept(rest, keep);
      SessionsConcat(one, rest);
      EditorsConcat(one, rest);
      SessionsConcat(One(tabs[0], keep), Kept(rest, keep));
      EditorsConcat(One(tabs[0], keep), Kept(rest, keep));
      ChosenConcat(Sessions(one), Sessions(rest), keep);
    }
  }

  lemma {:induction false} ChosenIsAll(sessions: seq<string>, keep: string -> bool)
    ensures |Chosen(sessions, keep)| <= |sessions|
    ensures Chosen(sessions, keep) == sessions <==> forall s :: s in sessions ==> keep(s)
    decreases |sessions|
  {
    if sessions != [] {
      ChosenIsAll(sessions[1..], keep);
      assert sessions == [sessions[0]] + sessions[1..];
      if keep(sessions[0]) {
        assert Chosen(sessions, keep)[1..] == Chosen(sessions[1..], keep);
      }
    }
  }

  /** Terminals after are the kept terminals before, and the editors are all
      there, both in tree order. */
  lemma TerminalsAndEditorsAfter(node: Node, keep: string -> bool)
    ensures var after := Tabs(Root(Pruned(node, keep)));
      Sessions(after) == Chosen(Sessions(Tabs(node)), keep) && Editors(after) == Editors(Tabs(node))
  {
    PruningKeepsTabs(node, keep);
    SessionsOfKept(Tabs(node), keep);
  }

  /** Each leaf with anything left in it is there, with its tabs cut down, its
      focus and its active tab, or the last one where that is gone. */
  function LeavesLeft(leaves: seq<Node>, keep: string -> bool): seq<Node>
    requires forall i :: 0 <= i < |leaves| ==> leaves[i].Leaf?
  {
    if leaves == [] then []
    else
      var kept := Kept(leaves[0].tabs, keep);
      var last := |kept| - 1;
      (if kept == [] then []
       else [leaves[0].(tabs := kept, active := if last < leaves[0].active then last else leaves[0].active)])
      + LeavesLeft(leaves[1..], keep)
  }

  lemma {:induction false} LeavesAreLeaves(node: Node)
    ensures forall i :: 0 <= i < |Leaves(node)| ==> Leaves(node)[i].Leaf?
    decreases node
  {
    if node.Split? {
      LeavesAreLeaves(node.first);
      LeavesAreLeaves(node.second);
    }
  }

  lemma {:induction false} LeavesLeftConcat(a: seq<Node>, b: seq<Node>, keep: string -> bool)
    requires forall i :: 0 <= i < |a| ==> a[i].Leaf?
    requires forall i :: 0 <= i < |b| ==> b[i].Leaf?
    ensures LeavesLeft(a + b, keep) == LeavesLeft(a, keep) + LeavesLeft(b, keep)
    decreases |a|
  {
    if a == [] {
      assert a + b == b;
    } else {
      assert (a + b)[1..] == a[1..] + b;
      LeavesLeftConcat(a[1..], b, keep);
    }
  }

  lemma {:induction false} PruningKeepsLeaves(node: Node, keep: string -> bool)
    ensures forall i :: 0 <= i < |Leaves(node)| ==> Leaves(node)[i].Leaf?
    ensures LeavesLeft(Leaves(node), keep)
         == if Pruned(node, keep).Some? then Leaves(Pruned(node, keep).value) else []
    decreases node
  {
    LeavesAreLeaves(node);
    if node.Split? {
      PruningKeepsLeaves(node.first, keep);
      PruningKeepsLeaves(node.second, keep);
      LeavesLeftConcat(Leaves(node.first), Leaves(node.second), keep);
    } else {
      assert Leaves(node)[1..] == [];
    }
  }

  /** The splits of a tree from the root down: direction, ratio and how many
      leaves are on either side. With the leaves, this is the tree. */
  function Splits(node: Node): seq<(SplitDir, real, nat, nat)> {
    match node
    case Leaf(_, _, _) => []
    case Split(dir, ratio, first, second) =>
      [(dir, ratio, |Leaves(first)|, |Leaves(second)|)] + (Splits(first) + Splits(second))
  }

  /** The splits with a tab left on both sides, as they were but for the leaves
      that have gone. */
  function SplitsLeft(node: Node, keep: string -> bool): seq<(SplitDir, real, nat, nat)> {
    match node
    case Leaf(_, _, _) => []
    case Split(dir, ratio, first, second) =>
      (if Kept(Tabs(first), keep) == [] || Kept(Tabs(second), keep) == [] then []
       else [(dir, ratio, LeafCount(first, keep), LeafCount(second, keep))])
      + (SplitsLeft(first, keep) + SplitsLeft(second, keep))
  }

  /** How many leaves have a tab left. */
  function LeafCount(node: Node, keep: string -> bool): nat {
    match node
    case Leaf(tabs, _, _) => if Kept(tabs, keep) == [] then 0 else 1
    case Split(_, _, first, second) => LeafCount(first, keep) + LeafCount(second, keep)
  }

  /** Pruning changes no direction and no ratio, and drops a split exactly when a
      side of it has nothing left. */
  lemma {:induction false} PruningKeepsSplits(node: Node, keep: string -> bool)
    ensures SplitsLeft(node, keep) == if Pruned(node, keep).Some? then Splits(Pruned(node, keep).value) else []
    ensures LeafCount(node, keep) == if Pruned(node, keep).Some? then |Leaves(Pruned(node, keep).value)| else 0
    decreases node
  {
    if node.Split? {
      PruningKeepsSplits(node.first, keep);
      PruningKeepsSplits(node.second, keep);
      PruningKeepsTabs(node.first, keep);
      PruningKeepsTabs(node.second, keep);
    }
  }

  predicate Sound(node: Node) {
    match node
    case Split(_, _, first, second) => Sound(first) && Sound(second)
    case Leaf(tabs, active, _) => active < |tabs|
  }

  /** Every leaf that remains is non-empty with its active tab in range, unless
      nothing remains at all. */
  lemma {:induction false} PrunedIsSound(node: Node, keep: string -> bool)
    ensures Sound(Root(Pruned(node, keep))) || Root(Pruned(node, keep)) == Leaf([], 0, false)
    ensures Pruned(node, keep).Some? ==> Sound(Pruned(node, keep).value)
    decreases node
  {
    if node.Split? {
      PrunedIsSound(node.first, keep);
      PrunedIsSound(node.second, keep);
    }
  }

  lemma {:induction false} KeptTwice(tabs: seq<Tab>, p: string -> bool, q: string -> bool, both: string -> bool)
    requires forall s :: both(s) == (p(s) && q(s))
    ensures Kept(Kept(tabs, p), q) == Kept(tabs, both)
    decreases |tabs|
  {
    if tabs != [] {
      KeptTwice(tabs[1..], p, q, both);
      KeptFirst(tabs, p);
      KeptFirst(tabs, both);
      assert Kept(One(tabs[0], p), q) == One(tabs[0], both) by {
        assert [tabs[0]][1..] == [];
      }
      hide Kept, One;
      KeptConcat(One(tabs[0], p), Kept(tabs[1..], p), q);
    }
  }

  /** Pruning by one rule and then another is pruning by both. */
  lemma {:induction false} PruningComposes(node: Node, p: string -> bool, q: string -> bool, both: string -> bool)
    requires forall s :: both(s) == (p(s) && q(s))
    ensures Root(Pruned(Root(Pruned(node, p)), q)) == Root(Pruned(node, both))
    ensures Pruned(Root(Pruned(node, p)), q) == Pruned(node, both)
    decreases node
  {
    match node {
      case Leaf(tabs, _, _) =>
        KeptTwice(tabs, p, q, both);
      case Split(_, _, first, second) =>
        PruningComposes(first, p, q, both);
        PruningComposes(second, p, q, both);
    }
  }

  lemma {:induction false} KeptAll(tabs: seq<Tab>, keep: string -> bool)
    requires forall s :: s in Sessions(tabs) ==> keep(s)
    ensures Kept(tabs, keep) == tabs
    decreases |tabs|
  {
    if tabs != [] {
      assert Sessions(tabs) == (if tabs[0].Terminal? then [tabs[0].session] else []) + Sessions(tabs[1..]);
      KeptAll(tabs[1..], keep);
      assert tabs == [tabs[0]] + tabs[1..];
    }
  }

  /** A sound tree none of whose sessions is rejected stays as it is. */
  lemma {:induction false} PruningNothingChangesNothing(node: Node, keep: string -> bool)
    requires Sound(node) && forall s :: s in Sessions(Tabs(node)) ==> keep(s)
    ensures Pruned(node, keep) == Some(node)
    decreases node
  {
    match node {
      case Leaf(tabs, _, _) => KeptAll(tabs, keep);
      case Split(_, _, first, second) =>
        SessionsConcat(Tabs(first), Tabs(second));
        PruningNothingChangesNothing(first, keep);
        PruningNothingChangesNothing(second, keep);
    }
  }
}
