/** The knowledge base's budgeted reads: `Budget`, `tree`, `ls` and `grep` (crates/jkb-api/src/kb.rs). */
module KbWalk {
  import opened Wrappers

  const MAX_TREE_DEPTH: nat := 48
  const MAX_TREE_NODES: nat := 10_000

  /** Charged per entry on top of its JSON. */
  const ENTRY_COST: nat := 8

  type Ref = string

  datatype Child = Child(reference: Ref, kind: string, title: string, hasChildren: bool)

  datatype TreeNode = TreeNode(child: Child, children: seq<TreeNode>)

  datatype ListRow = ListRow(parent: Option<Ref>, child: Child)

  datatype ReadError = NotFound | Failed | Invalid

  /** What a path lists: any relation at all, cyclic or not. */
  type Graph = Option<Ref> -> Result<seq<Child>, ReadError>

  datatype TreeCut = Whole | BudgetCut | NodeCap

  // ---------------------------------------------------------------------------------------
  // The budget
  // ---------------------------------------------------------------------------------------

  class Budget {
    var left: nat
    var exhausted: bool

    constructor (bytes: nat)
      ensures left == bytes && !exhausted
    {
      left, exhausted := bytes, false;
    }

    /** What may still be charged: nothing, not even zero, once something has not fitted. */
    ghost function Purse(): int
      reads this
    {
      if exhausted then -1 else left
    }

    /** Whether an entry of `size` bytes fits, charging it when it does. */
    method Take(size: nat) returns (ok: bool)
      modifies this
      ensures ok <==> size + ENTRY_COST <= old(Purse())
      ensures ok ==> left == old(left) - size - ENTRY_COST && !exhausted
      ensures !ok ==> left == old(left) && exhausted
    {
      if exhausted {
        return false;
      }
      var cost := size + ENTRY_COST;
      if cost > left {
        exhausted := true;
        return false;
      }
      left := left - cost;
      return true;
    }
  }

  /** How many entries of these costs are listed before the room or the purse runs out. */
  function Fits(costs: seq<nat>, room: nat, purse: int): (n: nat)
    ensures n <= |costs| && n <= room
  {
    if costs == [] || room == 0 || costs[0] > purse then 0
    else 1 + Fits(costs[1..], room - 1, purse - costs[0])
  }

  function Sum(costs: seq<nat>): nat {
    if costs == [] then 0 else costs[0] + Sum(costs[1..])
  }

  /** [`Fits`] is the longest prefix within the room and the purse. */
  lemma {:induction false} FitsIsLongest(costs: seq<nat>, room: nat, purse: int)
    ensures var n := Fits(costs, room, purse);
            && (n > 0 ==> Sum(costs[..n]) <= purse)
            && (n < |costs| && n < room ==> Sum(costs[..n + 1]) > purse)
  {
    if !(costs == [] || room == 0 || costs[0] > purse) {
      var n := Fits(costs[1..], room - 1, purse - costs[0]);
      FitsIsLongest(costs[1..], room - 1, purse - costs[0]);
      assert costs[..1 + n][1..] == costs[1..][..n];
      if 1 + n < |costs| {
        assert costs[..2 + n][1..] == costs[1..][..n + 1];
      }
    } else if costs != [] {
      assert costs[..1][1..] == [];
      assert Sum(costs[..1]) == costs[0];
    }
  }

  lemma {:induction false} FitsAppend(a: seq<nat>, b: seq<nat>, room: nat, purse: int)
    ensures Fits(a, room, purse) == |a| ==>
              |a| <= room && Fits(a + b, room, purse) == |a| + Fits(b, room - |a|, purse - Sum(a))
    ensures Fits(a, room, purse) < |a| ==> Fits(a + b, room, purse) == Fits(a, room, purse)
  {
    if a == [] {
      assert a + b == b;
    } else {
      assert (a + b)[1..] == a[1..] + b;
      if room > 0 && a[0] <= purse {
        FitsAppend(a[1..], b, room - 1, purse - a[0]);
      }
    }
  }

  lemma {:induction false} SumAppend(a: seq<nat>, b: seq<nat>)
    ensures Sum(a + b) == Sum(a) + Sum(b)
  {
    if a == [] {
      assert a + b == b;
    } else {
      assert (a + b)[1..] == a[1..] + b;
      SumAppend(a[1..], b);
    }
  }

  // ---------------------------------------------------------------------------------------
  // The walk with no budget and no cap
  // ---------------------------------------------------------------------------------------

  predicate Descends(c: Child, depth: nat, ancestors: seq<Ref>) {
    c.hasChildren && depth > 0 && c.reference !in ancestors
  }

  /** The whole subtree under `path`; a level that cannot be read is empty here and counted by
      [`TroubleLevel`]. */
  function FullLevel(g: Graph, path: Option<Ref>, depth: nat, ancestors: seq<Ref>): seq<TreeNode>
    decreases depth, 1, 0
  {
    match g(path)
    case Ok(kids) => FullKids(g, kids, depth, ancestors)
    case Err(_) => []
  }

  function FullKids(g: Graph, kids: seq<Child>, depth: nat, ancestors: seq<Ref>): seq<TreeNode>
    decreases depth, 0, |kids|
  {
    if kids == [] then []
    else [TreeNode(kids[0], Below(g, kids[0], depth, ancestors))] + FullKids(g, kids[1..], depth, ancestors)
  }

  function Below(g: Graph, c: Child, depth: nat, ancestors: seq<Ref>): seq<TreeNode>
    decreases depth, 0, 0
  {
    if Descends(c, depth, ancestors)
    then FullLevel(g, Some(c.reference), depth - 1, ancestors + [c.reference]) else []
  }

  function Preorder(ts: seq<TreeNode>): seq<Child> {
    if ts == [] then [] else [ts[0].child] + Preorder(ts[0].children) + Preorder(ts[1..])
  }

  /** How many nodes are listed before the first read that fails, if one does. */
  function TroubleLevel(g: Graph, path: Option<Ref>, depth: nat, ancestors: seq<Ref>): Option<nat>
    decreases depth, 1, 0
  {
    match g(path)
    case Ok(kids) => TroubleKids(g, kids, depth, ancestors)
    case Err(_) => Some(0)
  }

  function TroubleKids(g: Graph, kids: seq<Child>, depth: nat, ancestors: seq<Ref>): Option<nat>
    decreases depth, 0, |kids|
  {
    if kids == [] then None
    else
      var here := TroubleBelow(g, kids[0], depth, ancestors);
      if here.Some? then Some(1 + here.value)
      else Shift(1 + |Preorder(Below(g, kids[0], depth, ancestors))|, TroubleKids(g, kids[1..], depth, ancestors))
  }

  function TroubleBelow(g: Graph, c: Child, depth: nat, ancestors: seq<Ref>): Option<nat>
    decreases depth, 0, 0
  {
    if Descends(c, depth, ancestors)
    then TroubleLevel(g, Some(c.reference), depth - 1, ancestors + [c.reference]) else None
  }

  function Shift(n: nat, t: Option<nat>): Option<nat> {
    if t.Some? then Some(n + t.value) else None
  }

  // ---------------------------------------------------------------------------------------
  // Keeping the first nodes of a tree
  // ---------------------------------------------------------------------------------------

  /** The first `n` nodes of `ts` in pre-order, each under its parent. */
  function Prune(ts: seq<TreeNode>, n: nat): seq<TreeNode> {
    if ts == [] || n == 0 then []
    else
      var k := |Preorder(ts[0].children)|;
      if n - 1 < k then [TreeNode(ts[0].child, Prune(ts[0].children, n - 1))]
      else [ts[0]] + Prune(ts[1..], n - 1 - k)
  }

  lemma {:induction false} PreorderAppend(a: seq<TreeNode>, b: seq<TreeNode>)
    ensures Preorder(a + b) == Preorder(a) + Preorder(b)
  {
    if a == [] {
      assert a + b == b;
    } else {
      assert (a + b)[1..] == a[1..] + b;
      PreorderAppend(a[1..], b);
    }
  }

  lemma {:induction false} PruneAppend(a: seq<TreeNode>, b: seq<TreeNode>, m: nat)
    ensures Prune(a + b, |Preorder(a)| + m) == a + Prune(b, m)
  {
    if a == [] {
      assert a + b == b;
    } else {
      assert (a + b)[1..] == a[1..] + b;
      PruneAppend(a[1..], b, m);
      assert [a[0]] + a[1..] == a;
    }
  }

  lemma {:induction false} PruneKeepsAll(ts: seq<TreeNode>)
    ensures Prune(ts, |Preorder(ts)|) == ts
  {
    PruneAppend(ts, [], 0);
    assert ts + [] == ts;
  }

  /** Pruning keeps exactly a prefix of the pre-order listing. */
  lemma {:induction false} PrunedListing(ts: seq<TreeNode>, n: nat)
    requires n <= |Preorder(ts)|
    ensures Preorder(Prune(ts, n)) == Preorder(ts)[..n]
  {
    if ts != [] && n > 0 {
      var kids := ts[0].children;
      var k := |Preorder(kids)|;
      if n - 1 < k {
        PrunedListing(kids, n - 1);
        assert Preorder(Prune(ts, n)) == [ts[0].child] + Preorder(kids)[..n - 1];
      } else {
        PrunedListing(ts[1..], n - 1 - k);
        assert Preorder(Prune(ts, n)) == [ts[0].child] + Preorder(kids) + Preorder(ts[1..])[..n - 1 - k];
      }
    }
  }

  function Costs(size: Child -> nat, rows: seq<Child>): (costs: seq<nat>)
    ensures |costs| == |rows|
  {
    if rows == [] then [] else [size(rows[0]) + ENTRY_COST] + Costs(size, rows[1..])
  }

  lemma {:induction false} CostsAppend(size: Child -> nat, a: seq<Child>, b: seq<Child>)
    ensures Costs(size, a + b) == Costs(size, a) + Costs(size, b)
  {
    if a == [] {
      assert a + b == b;
    } else {
      assert (a + b)[1..] == a[1..] + b;
      CostsAppend(size, a[1..], b);
    }
  }

  // ---------------------------------------------------------------------------------------
  // The tree walk
  // ---------------------------------------------------------------------------------------

  /** What each node of `ts` costs, in pre-order. */
  function NodeCosts(size: Child -> nat, ts: seq<TreeNode>): (costs: seq<nat>)
    ensures |costs| == |Preorder(ts)|
  {
    Costs(size, Preorder(ts))
  }

  /** What a bounded walk gives back: the nodes, how many they are, what they cost, and why there are no more. */
  datatype Answer = Answer(ts: seq<TreeNode>, took: nat, spent: nat, cut: TreeCut) | Fails

  /** The bounded walk, said of the full tree: its first nodes in pre-order that fit the room and the purse; or a
      failure, when a read fails before that. */
  function Walked(size: Child -> nat, full: seq<TreeNode>, trouble: Option<nat>, room: nat, purse: int): Answer {
    var costs := NodeCosts(size, full);
    var n := Fits(costs, room, purse);
    if trouble.Some? && trouble.value <= n then Fails
    else Answer(Prune(full, n), n, Sum(costs[..n]),
                if n == |costs| then Whole else if n == room then NodeCap else BudgetCut)
  }

  /** One answer and then the next. */
  function Then(x: Answer, y: Answer): Answer
    requires x.Answer?
  {
    if y.Fails? then Fails else Answer(x.ts + y.ts, x.took + y.took, x.spent + y.spent, y.cut)
  }

  lemma NodeCostsAppend(size: Child -> nat, a: seq<TreeNode>, b: seq<TreeNode>)
    ensures NodeCosts(size, a + b) == NodeCosts(size, a) + NodeCosts(size, b)
  {
    PreorderAppend(a, b);
    CostsAppend(size, Preorder(a), Preorder(b));
  }

  lemma PreorderCons(t: TreeNode, rest: seq<TreeNode>)
    ensures Preorder([t] + rest) == [t.child] + Preorder(t.children) + Preorder(rest)
  {
    assert ([t] + rest)[1..] == rest;
  }

  lemma NodeCostsCons(size: Child -> nat, t: TreeNode, rest: seq<TreeNode>)
    ensures NodeCosts(size, [t] + rest)
            == [size(t.child) + ENTRY_COST] + NodeCosts(size, t.children) + NodeCosts(size, rest)
  {
    hide Preorder;
    PreorderCons(t, rest);
    var listing := [t.child] + Preorder(t.children) + Preorder(rest);
    assert listing[1..] == Preorder(t.children) + Preorder(rest);
    CostsAppend(size, Preorder(t.children), Preorder(rest));
  }

  /** The first failing read of a walk over `a` and then `b`, where `a` lists `n` nodes. */
  function Join(n: nat, ta: Option<nat>, tb: Option<nat>): Option<nat> {
    if ta.Some? then ta else Shift(n, tb)
  }

  /** What a walk that listed all of a tree answered. */
  lemma WholeAnswer(size: Child -> nat, full: seq<TreeNode>, trouble: Option<nat>, room: nat, purse: int)
    requires trouble.Some? ==> trouble.value <= |Preorder(full)|
    requires Walked(size, full, trouble, room, purse).Answer? && Walked(size, full, trouble, room, purse).cut == Whole
    ensures trouble.None? && Fits(NodeCosts(size, full), room, purse) == |Preorder(full)|
    ensures Walked(size, full, trouble, room, purse)
            == Answer(full, |Preorder(full)|, Sum(NodeCosts(size, full)), Whole)
  {
    PruneKeepsAll(full);
    var costs := NodeCosts(size, full);
    assert costs[..|costs|] == costs;
  }

  /** A walk that listed all of `a` goes on to `b` with what room and purse are left. */
  lemma JoinAnswers(size: Child -> nat, a: seq<TreeNode>, b: seq<TreeNode>, tb: Option<nat>, room: nat, purse: int)
    requires Fits(NodeCosts(size, a), room, purse) == |Preorder(a)|
    ensures var n, spent := |Preorder(a)|, Sum(NodeCosts(size, a));
            && n <= room
            && Walked(size, a + b, Shift(n, tb), room, purse)
               == Then(Answer(a, n, spent, Whole), Walked(size, b, tb, room - n, purse - spent))
  {
    hide NodeCosts, Prune, Fits, Sum, Preorder;
    JoinCosts(size, a, b, room, purse);
  }

  lemma JoinCosts(size: Child -> nat, a: seq<TreeNode>, b: seq<TreeNode>, room: nat, purse: int)
    requires Fits(NodeCosts(size, a), room, purse) == |Preorder(a)|
    ensures var n, spent := |Preorder(a)|, Sum(NodeCosts(size, a));
            && n <= room
            && var m := Fits(NodeCosts(size, b), room - n, purse - spent);
               && |NodeCosts(size, a + b)| == n + |Preorder(b)|
               && Fits(NodeCosts(size, a + b), room, purse) == n + m
               && Prune(a + b, n + m) == a + Prune(b, m)
               && Sum(NodeCosts(size, a + b)[..n + m]) == spent + Sum(NodeCosts(size, b)[..m])
  {
    hide Prune, Fits, Preorder, Sum, Costs;
    var x, y := NodeCosts(size, a), NodeCosts(size, b);
    NodeCostsAppend(size, a, b);
    FitsAppend(x, y, room, purse);
    var m := Fits(y, room - |x|, purse - Sum(x));
    PruneAppend(a, b, m);
    assert (x + y)[..|x| + m] == x + y[..m];
    SumAppend(x, y[..m]);
  }

  /** A walk that failed or was cut short inside `a` answers the same whatever would have come after. */
  lemma CutStays(
    size: Child -> nat, a: seq<TreeNode>, ta: Option<nat>, b: seq<TreeNode>, tb: Option<nat>, room: nat, purse: int)
    requires var x := Walked(size, a, ta, room, purse); x.Fails? || x.cut != Whole
    ensures Walked(size, a + b, Join(|Preorder(a)|, ta, tb), room, purse) == Walked(size, a, ta, room, purse)
  {
    hide NodeCosts, Prune, Fits, Sum, Preorder;
    CutCosts(size, a, b, room, purse);
  }

  lemma CutCosts(size: Child -> nat, a: seq<TreeNode>, b: seq<TreeNode>, room: nat, purse: int)
    ensures var n := Fits(NodeCosts(size, a), room, purse);
            && |NodeCosts(size, a + b)| == |Preorder(a)| + |Preorder(b)|
            && n <= Fits(NodeCosts(size, a + b), room, purse)
            && (n < |Preorder(a)| ==>
                  && Fits(NodeCosts(size, a + b), room, purse) == n
                  && Prune(a + b, n) == Prune(a, n)
                  && Sum(NodeCosts(size, a + b)[..n]) == Sum(NodeCosts(size, a)[..n]))
  {
    var x, y := NodeCosts(size, a), NodeCosts(size, b);
    NodeCostsAppend(size, a, b);
    FitsAppend(x, y, room, purse);
    var n := Fits(x, room, purse);
    assert (x + y)[..n] == x[..n];
    PruneInside(a, b, n);
  }

  lemma {:induction false} PruneInside(a: seq<TreeNode>, b: seq<TreeNode>, n: nat)
    requires n <= |Preorder(a)|
    ensures Prune(a + b, n) == Prune(a, n)
  {
    if n == |Preorder(a)| {
      PruneAppend(a, b, 0);
      PruneKeepsAll(a);
      assert a + Prune(b, 0) == a;
    } else {
      assert (a + b)[1..] == a[1..] + b;
      var k := |Preorder(a[0].children)|;
      if n > 0 && n - 1 >= k {
        PruneInside(a[1..], b, n - 1 - k);
      }
    }
  }

  // ---------------------------------------------------------------------------------------
  // One node, and what is below it
  // ---------------------------------------------------------------------------------------

  lemma OneNodeCosts(size: Child -> nat, t: TreeNode)
    ensures NodeCosts(size, [t]) == [size(t.child) + ENTRY_COST] + NodeCosts(size, t.children)
  {
    NodeCostsCons(size, t, []);
    assert [t] + [] == [t];
    assert NodeCosts(size, []) == [];
  }

  lemma NodeNotListed(size: Child -> nat, t: TreeNode, below: Option<nat>, room: nat, purse: int)
    requires room == 0 || size(t.child) + ENTRY_COST > purse
    ensures Walked(size, [t], Shift(1, below), room, purse)
            == Answer([], 0, 0, if room == 0 then NodeCap else BudgetCut)
  {
    OneNodeCosts(size, t);
  }

  lemma NodeListed(size: Child -> nat, t: TreeNode, below: Option<nat>, room: nat, purse: int)
    requires room > 0 && size(t.child) + ENTRY_COST <= purse
    ensures var cost := size(t.child) + ENTRY_COST;
            var x := Walked(size, t.children, below, room - 1, purse - cost);
            Walked(size, [t], Shift(1, below), room, purse)
            == if x.Fails? then Fails else Answer([TreeNode(t.child, x.ts)], 1 + x.took, cost + x.spent, x.cut)
  {
    hide NodeCosts, Prune, Fits, Sum, Preorder;
    ListedCosts(size, t, room, purse);
  }

  lemma ListedCosts(size: Child -> nat, t: TreeNode, room: nat, purse: int)
    requires room > 0 && size(t.child) + ENTRY_COST <= purse
    ensures var cost := size(t.child) + ENTRY_COST;
            var n := Fits(NodeCosts(size, t.children), room - 1, purse - cost);
            && |NodeCosts(size, [t])| == 1 + |Preorder(t.children)|
            && Fits(NodeCosts(size, [t]), room, purse) == 1 + n
            && Prune([t], 1 + n) == [TreeNode(t.child, Prune(t.children, n))]
            && Sum(NodeCosts(size, [t])[..1 + n]) == cost + Sum(NodeCosts(size, t.children)[..n])
  {
    OneNodeCosts(size, t);
    var costs, under := NodeCosts(size, [t]), NodeCosts(size, t.children);
    assert costs[1..] == under;
    var n := Fits(under, room - 1, purse - costs[0]);
    assert costs[..1 + n][1..] == under[..n];
    PruneKeepsAll(t.children);
    assert [t][1..] == [];
  }

  lemma NothingBelow(size: Child -> nat, room: nat, purse: int)
    ensures Walked(size, [], None, room, purse) == Answer([], 0, 0, Whole)
  {
    assert NodeCosts(size, []) == [];
  }

  /** A level's children, one more at a time. */
  lemma {:induction false} KidsAppend(g: Graph, x: seq<Child>, y: seq<Child>, depth: nat, ancestors: seq<Ref>)
    ensures FullKids(g, x + y, depth, ancestors) == FullKids(g, x, depth, ancestors) + FullKids(g, y, depth, ancestors)
    ensures TroubleKids(g, x + y, depth, ancestors)
            == Join(|Preorder(FullKids(g, x, depth, ancestors))|, TroubleKids(g, x, depth, ancestors),
                    TroubleKids(g, y, depth, ancestors))
    decreases |x|
  {
    if x == [] {
      assert x + y == y;
    } else {
      assert (x + y)[1..] == x[1..] + y;
      KidsAppend(g, x[1..], y, depth, ancestors);
    }
  }

  lemma OneKid(g: Graph, c: Child, depth: nat, ancestors: seq<Ref>)
    ensures FullKids(g, [c], depth, ancestors) == [TreeNode(c, Below(g, c, depth, ancestors))]
    ensures TroubleKids(g, [c], depth, ancestors) == Shift(1, TroubleBelow(g, c, depth, ancestors))
  {
    assert [c][1..] == [];
  }

  /** A failing read is found at a node of the tree. */
  lemma {:induction false} TroubleInside(g: Graph, kids: seq<Child>, depth: nat, ancestors: seq<Ref>)
    ensures var t := TroubleKids(g, kids, depth, ancestors);
            t.Some? ==> t.value <= |Preorder(FullKids(g, kids, depth, ancestors))|
    decreases depth, |kids|
  {
    if kids != [] {
      TroubleInside(g, kids[1..], depth, ancestors);
      var c := kids[0];
      if Descends(c, depth, ancestors) && g(Some(c.reference)).Ok? {
        TroubleInside(g, g(Some(c.reference)).value, depth - 1, ancestors + [c.reference]);
      }
      assert TroubleBelow(g, c, depth, ancestors).Some? ==>
               TroubleBelow(g, c, depth, ancestors).value <= |Preorder(Below(g, c, depth, ancestors))|;
      var first, rest := [TreeNode(c, Below(g, c, depth, ancestors))], FullKids(g, kids[1..], depth, ancestors);
      assert (first + rest)[1..] == rest;
      assert Preorder(first + rest) == [c] + Preorder(first[0].children) + Preorder(rest);
    }
  }

  predicate Distinct(s: seq<Ref>) {
    forall i, j :: 0 <= i < j < |s| ==> s[i] != s[j]
  }

  class TreeWalk {
    const graph: Graph
    const size: Child -> nat
    const budget: Budget
    /** What has been opened, from the root down, to reach this level. */
    var ancestors: seq<Ref>
    var listed: nat
    var cut: TreeCut
    /** How many levels have been read. */
    var levels: nat

    constructor (graph: Graph, size: Child -> nat, budget: Budget, path: Option<Ref>)
      ensures this.graph == graph && this.size == size && this.budget == budget
      ensures ancestors == (if path.Some? then [path.value] else []) && listed == 0 && cut == Whole && levels == 0
    {
      this.graph, this.size, this.budget := graph, size, budget;
      ancestors := if path.Some? then [path.value] else [];
      listed, cut, levels := 0, Whole, 0;
    }

    /** List the level at `path`, whose reference ends the ancestor stack, and what is below it: of the full subtree,
        the nodes that fit. */
    method Level(path: Option<Ref>, depth: nat) returns (r: Result<seq<TreeNode>, ReadError>)
      requires cut == Whole && listed <= MAX_TREE_NODES
      requires Distinct(ancestors)
      requires path.Some? ==> ancestors != [] && ancestors[|ancestors| - 1] == path.value
      modifies this, budget
      ensures ancestors == old(ancestors)
      ensures old(listed) <= listed <= MAX_TREE_NODES && budget.left <= old(budget.left)
      ensures levels <= old(levels) + 1 + listed - old(listed)
      ensures r.Err? ==> exists p :: graph(p) == Err(r.error)
      ensures Walked(size, FullLevel(graph, path, depth, ancestors), TroubleLevel(graph, path, depth, ancestors),
                     MAX_TREE_NODES - old(listed), old(budget.Purse()))
              == if r.Err? then Fails else Answer(r.value, listed - old(listed), old(budget.left) - budget.left, cut)
      ensures r.Ok? ==>
                budget.Purse()
                == if cut == BudgetCut then -1 else old(budget.Purse()) - (old(budget.left) - budget.left)
      decreases depth, 1, 0
    {
      levels := levels + 1;
      match graph(path) {
        case Err(e) => return Err(e);
        case Ok(kids) => r := Children(kids, depth);
      }
    }

    method Children(kids: seq<Child>, depth: nat) returns (r: Result<seq<TreeNode>, ReadError>)
      requires cut == Whole && listed <= MAX_TREE_NODES
      requires Distinct(ancestors)
      modifies this, budget
      ensures ancestors == old(ancestors)
      ensures old(listed) <= listed <= MAX_TREE_NODES && budget.left <= old(budget.left)
      ensures levels <= old(levels) + listed - old(listed)
      ensures r.Err? ==> exists p :: graph(p) == Err(r.error)
      ensures Walked(size, FullKids(graph, kids, depth, ancestors), TroubleKids(graph, kids, depth, ancestors),
                     MAX_TREE_NODES - old(listed), old(budget.Purse()))
              == if r.Err? then Fails else Answer(r.value, listed - old(listed), old(budget.left) - budget.left, cut)
      ensures r.Ok? ==>
                budget.Purse()
                == if cut == BudgetCut then -1 else old(budget.Purse()) - (old(budget.left) - budget.left)
      decreases depth, 0, 2
    {
      hide Walked;
      ghost var room, purse, left0, listed0 := MAX_TREE_NODES - listed, budget.Purse(), budget.left, listed;
      ghost var sofar := Answer([], 0, 0, Whole);
      r := Ok([]);
      var i := 0;
      NothingBelow(size, room, purse);
      while i < |kids|
        invariant i <= |kids|
        invariant ancestors == old(ancestors) && listed0 <= listed <= MAX_TREE_NODES
        invariant levels <= old(levels) + listed - listed0
        invariant budget.left <= left0
        invariant Walked(size, FullKids(graph, kids[..i], depth, ancestors),
                         TroubleKids(graph, kids[..i], depth, ancestors), room, purse)
                  == sofar
        invariant r.Err? ==> exists p :: graph(p) == Err(r.error)
        invariant sofar == if r.Err? then Fails else Answer(r.value, listed - listed0, left0 - budget.left, cut)
        invariant r.Ok? ==> budget.Purse() == if cut == BudgetCut then -1 else purse - (left0 - budget.left)
      {
        if cut != Whole || r.Err? {
          break;
        }
        ghost var left1, listed1 := budget.left, listed;
        var one := Visit(kids[i], depth);
        ghost var here := if one.Err? then Fails else Answer(one.value, listed - listed1, left1 - budget.left, cut);
        OneMoreKid(graph, size, kids, i, depth, ancestors, room, purse, sofar, here);
        sofar := Then(sofar, here);
        r := if one.Err? then one else Ok(r.value + one.value);
        i := i + 1;
      }
      if i < |kids| {
        RestUnread(graph, size, kids, i, depth, ancestors, room, purse);
      } else {
        assert kids[..i] == kids;
      }
    }

    /** One child of the level being listed: stopped at, or listed with what is below it. */
    method Visit(child: Child, depth: nat) returns (r: Result<seq<TreeNode>, ReadError>)
      requires cut == Whole && listed <= MAX_TREE_NODES
      requires Distinct(ancestors)
      modifies this, budget
      ensures ancestors == old(ancestors)
      ensures old(listed) <= listed <= MAX_TREE_NODES && budget.left <= old(budget.left)
      ensures levels <= old(levels) + listed - old(listed)
      ensures r.Err? ==> exists p :: graph(p) == Err(r.error)
      ensures Walked(size, [TreeNode(child, Below(graph, child, depth, ancestors))],
                     Shift(1, TroubleBelow(graph, child, depth, ancestors)), MAX_TREE_NODES - old(listed),
                     old(budget.Purse()))
              == if r.Err? then Fails else Answer(r.value, listed - old(listed), old(budget.left) - budget.left, cut)
      ensures r.Ok? ==>
                budget.Purse()
                == if cut == BudgetCut then -1 else old(budget.Purse()) - (old(budget.left) - budget.left)
      decreases depth, 0, 1
    {
      hide Walked;
      ghost var t := TreeNode(child, Below(graph, child, depth, ancestors));
      ghost var below := TroubleBelow(graph, child, depth, ancestors);
      ghost var room, purse := MAX_TREE_NODES - listed, budget.Purse();
      if listed >= MAX_TREE_NODES {
        NodeNotListed(size, t, below, room, purse);
        cut := NodeCap;
        return Ok([]);
      }
      var fits := budget.Take(size(child));
      if !fits {
        NodeNotListed(size, t, below, room, purse);
        cut := BudgetCut;
        return Ok([]);
      }
      listed := listed + 1;
      NodeListed(size, t, below, room, purse);
      var nested := Nested(child, depth);
      match nested {
        case Err(e) => return Err(e);
        case Ok(ts) => return Ok([TreeNode(child, ts)]);
      }
    }

    /** What is below `child`, unless it is a leaf, too deep or its own ancestor. */
    method Nested(child: Child, depth: nat) returns (r: Result<seq<TreeNode>, ReadError>)
      requires cut == Whole && listed <= MAX_TREE_NODES
      requires Distinct(ancestors)
      modifies this, budget
      ensures ancestors == old(ancestors)
      ensures old(listed) <= listed <= MAX_TREE_NODES && budget.left <= old(budget.left)
      ensures levels <= old(levels) + 1 + listed - old(listed)
      ensures r.Err? ==> exists p :: graph(p) == Err(r.error)
      ensures Walked(size, Below(graph, child, depth, ancestors), TroubleBelow(graph, child, depth, ancestors),
                     MAX_TREE_NODES - old(listed), old(budget.Purse()))
              == if r.Err? then Fails else Answer(r.value, listed - old(listed), old(budget.left) - budget.left, cut)
      ensures r.Ok? ==>
                budget.Purse()
                == if cut == BudgetCut then -1 else old(budget.Purse()) - (old(budget.left) - budget.left)
      decreases depth, 0, 0
    {
      if !Descends(child, depth, ancestors) {
        NothingBelow(size, MAX_TREE_NODES - listed, budget.Purse());
        return Ok([]);
      }
      ancestors := ancestors + [child.reference];
      r := Level(Some(child.reference), depth - 1);
      ancestors := ancestors[..|ancestors| - 1];
    }
  }

  lemma OneMoreKid(
    g: Graph, size: Child -> nat, kids: seq<Child>, i: nat, depth: nat, ancestors: seq<Ref>, room: nat, purse: int,
    before: Answer, here: Answer)
    requires i < |kids| && before.Answer? && before.cut == Whole && before.took <= room
    requires Walked(size, FullKids(g, kids[..i], depth, ancestors), TroubleKids(g, kids[..i], depth, ancestors),
                    room, purse) == before
    requires Walked(size, [TreeNode(kids[i], Below(g, kids[i], depth, ancestors))],
                    Shift(1, TroubleBelow(g, kids[i], depth, ancestors)), room - before.took, purse - before.spent)
             == here
    ensures Walked(size, FullKids(g, kids[..i + 1], depth, ancestors), TroubleKids(g, kids[..i + 1], depth, ancestors),
                   room, purse)
            == Then(before, here)
  {
    hide Walked;
    assert kids[..i + 1] == kids[..i] + [kids[i]];
    KidsAppend(g, kids[..i], [kids[i]], depth, ancestors);
    OneKid(g, kids[i], depth, ancestors);
    TroubleInside(g, kids[..i], depth, ancestors);
    WholeAnswer(size, FullKids(g, kids[..i], depth, ancestors), TroubleKids(g, kids[..i], depth, ancestors),
                room, purse);
    JoinAnswers(size, FullKids(g, kids[..i], depth, ancestors),
                FullKids(g, [kids[i]], depth, ancestors), TroubleKids(g, [kids[i]], depth, ancestors), room, purse);
  }

  lemma RestUnread(
    g: Graph, size: Child -> nat, kids: seq<Child>, i: nat, depth: nat, ancestors: seq<Ref>, room: nat, purse: int)
    requires i <= |kids|
    requires var x := Walked(size, FullKids(g, kids[..i], depth, ancestors),
                             TroubleKids(g, kids[..i], depth, ancestors), room, purse);
             x.Fails? || x.cut != Whole
    ensures Walked(size, FullKids(g, kids, depth, ancestors), TroubleKids(g, kids, depth, ancestors), room, purse)
            == Walked(size, FullKids(g, kids[..i], depth, ancestors), TroubleKids(g, kids[..i], depth, ancestors),
                      room, purse)
  {
    hide Walked;
    assert kids == kids[..i] + kids[i..];
    KidsAppend(g, kids[..i], kids[i..], depth, ancestors);
    CutStays(size, FullKids(g, kids[..i], depth, ancestors), TroubleKids(g, kids[..i], depth, ancestors),
             FullKids(g, kids[i..], depth, ancestors), TroubleKids(g, kids[i..], depth, ancestors), room, purse);
  }

  /** The depth a tree is asked to, never past the cap. */
  function TreeDepth(depth: Option<nat>): nat {
    if depth.Some? && depth.value < MAX_TREE_DEPTH then depth.value else MAX_TREE_DEPTH
  }

  function RootStack(path: Option<Ref>): seq<Ref> {
    if path.Some? then [path.value] else []
  }

  /** The node at `at`: the index of its root, then of each child on the way down. */
  function NodeAt(ts: seq<TreeNode>, at: seq<nat>): Option<TreeNode>
    decreases |at|
  {
    if at == [] || at[0] >= |ts| then None
    else if |at| == 1 then Some(ts[at[0]])
    else NodeAt(ts[at[0]].children, at[1..])
  }

  /** The references of the nodes above the one at `at`. */
  function Trail(ts: seq<TreeNode>, at: seq<nat>): seq<Ref>
    decreases |at|
  {
    if |at| <= 1 || at[0] >= |ts| then [] else [ts[at[0]].child.reference] + Trail(ts[at[0]].children, at[1..])
  }

  function Rows(ts: seq<TreeNode>): (rows: seq<Child>)
    ensures |rows| == |ts|
  {
    seq(|ts|, i requires 0 <= i < |ts| => ts[i].child)
  }

  lemma {:induction false} FullRows(g: Graph, kids: seq<Child>, depth: nat, ancestors: seq<Ref>)
    ensures Rows(FullKids(g, kids, depth, ancestors)) == kids
    decreases |kids|
  {
    if kids != [] {
      FullRows(g, kids[1..], depth, ancestors);
      assert kids == [kids[0]] + kids[1..];
      FullFirst(g, kids, depth, ancestors);
    }
  }

  lemma FullFirst(g: Graph, kids: seq<Child>, depth: nat, ancestors: seq<Ref>)
    requires kids != []
    ensures FullKids(g, kids, depth, ancestors) != []
    ensures FullKids(g, kids, depth, ancestors)[0] == TreeNode(kids[0], Below(g, kids[0], depth, ancestors))
    ensures FullKids(g, kids, depth, ancestors)[1..] == FullKids(g, kids[1..], depth, ancestors)
  {
  }

  /** Every node of the unlimited tree, where no read fails, is opened exactly when its row has children, fewer nodes
      than `depth` are above it and its reference is on the way to it nowhere; it then has the rows `g` lists for it, in
      order, and else none. */
  lemma {:induction false} FullOpensExactly(g: Graph, kids: seq<Child>, depth: nat, ancestors: seq<Ref>, at: seq<nat>)
    requires TroubleKids(g, kids, depth, ancestors).None?
    requires NodeAt(FullKids(g, kids, depth, ancestors), at).Some?
    ensures var ts := FullKids(g, kids, depth, ancestors);
            var node := NodeAt(ts, at).value;
            var reference := node.child.reference;
            if node.child.hasChildren && |at| - 1 < depth && reference !in ancestors + Trail(ts, at)
            then g(Some(reference)).Ok? && Rows(node.children) == g(Some(reference)).value
            else node.children == []
    decreases depth, |kids|
  {
    var ts := FullKids(g, kids, depth, ancestors);
    FullRows(g, kids, depth, ancestors);
    FullFirst(g, kids, depth, ancestors);
    var c := kids[0];
    if at[0] > 0 {
      var rest := [at[0] - 1] + at[1..];
      assert rest[1..] == at[1..];
      FullOpensExactly(g, kids[1..], depth, ancestors, rest);
    } else if Descends(c, depth, ancestors) {
      assert TroubleBelow(g, c, depth, ancestors).None?;
      LevelTrouble(g, Some(c.reference), depth - 1, ancestors + [c.reference]);
      var more := g(Some(c.reference)).value;
      if |at| == 1 {
        FullRows(g, more, depth - 1, ancestors + [c.reference]);
        assert ancestors + [] == ancestors;
      } else {
        FullOpensExactly(g, more, depth - 1, ancestors + [c.reference], at[1..]);
        assert ancestors + [c.reference] + Trail(ts[0].children, at[1..]) == ancestors + Trail(ts, at);
      }
    } else {
      assert ancestors + [] == ancestors;
    }
  }

  /** `kb.tree`: the full tree's first nodes in pre-order that fit the budget and the node cap, read with at most one
      read a node and one for the root; a failed read is answered as it failed. */
  method Tree(g: Graph, size: Child -> nat, path: Option<Ref>, depth: Option<nat>, budget: Budget)
    returns (r: Result<seq<TreeNode>, ReadError>, cut: TreeCut, levels: nat)
    modifies budget
    ensures budget.left <= old(budget.left)
    ensures Walked(size, FullLevel(g, path, TreeDepth(depth), RootStack(path)),
                   TroubleLevel(g, path, TreeDepth(depth), RootStack(path)),
                   MAX_TREE_NODES, old(budget.Purse()))
            == if r.Err? then Fails else Answer(r.value, |Preorder(r.value)|, old(budget.left) - budget.left, cut)
    ensures levels <= MAX_TREE_NODES + 1
    ensures r.Ok? ==> levels <= |Preorder(r.value)| + 1
    ensures r.Err? ==> exists p :: g(p) == Err(r.error)
    // An uncut tree, over what is listed: its roots, and which nodes are opened and to what.
    ensures r.Ok? && cut == Whole ==> g(path).Ok? && Rows(r.value) == g(path).value
    ensures r.Ok? && cut == Whole ==>
              forall at :: NodeAt(r.value, at).Some? ==>
                var node := NodeAt(r.value, at).value;
                var reference := node.child.reference;
                var most := if depth.Some? && depth.value < 48 then depth.value else 48;
                if && node.child.hasChildren && |at| - 1 < most && reference !in Trail(r.value, at)
                   && path != Some(reference)
                then g(Some(reference)).Ok? && Rows(node.children) == g(Some(reference)).value
                else node.children == []
  {
    var walk := new TreeWalk(g, size, budget, path);
    r := walk.Level(path, TreeDepth(depth));
    cut, levels := walk.cut, walk.levels;
    var full := FullLevel(g, path, TreeDepth(depth), RootStack(path));
    PrunedListing(full, Fits(NodeCosts(size, full), MAX_TREE_NODES, old(budget.Purse())));
    if r.Ok? && cut == Whole {
      WholeTree(g, size, path, depth, old(budget.Purse()), r.value);
    }
  }

  lemma WholeTree(g: Graph, size: Child -> nat, path: Option<Ref>, depth: Option<nat>, purse: int, ts: seq<TreeNode>)
    requires var x := Walked(size, FullLevel(g, path, TreeDepth(depth), RootStack(path)),
                             TroubleLevel(g, path, TreeDepth(depth), RootStack(path)), MAX_TREE_NODES, purse);
             x.Answer? && x.cut == Whole && x.ts == ts
    ensures g(path).Ok? && Rows(ts) == g(path).value
    ensures forall at :: NodeAt(ts, at).Some? ==>
              var node := NodeAt(ts, at).value;
              var reference := node.child.reference;
              var most := if depth.Some? && depth.value < 48 then depth.value else 48;
              if && node.child.hasChildren && |at| - 1 < most && reference !in Trail(ts, at) && path != Some(reference)
              then g(Some(reference)).Ok? && Rows(node.children) == g(Some(reference)).value
              else node.children == []
  {
    hide Walked;
    var most, stack := TreeDepth(depth), RootStack(path);
    var trouble := TroubleLevel(g, path, most, stack);
    LevelTrouble(g, path, most, stack);
    WholeAnswer(size, FullLevel(g, path, most, stack), trouble, MAX_TREE_NODES, purse);
    var kids := g(path).value;
    FullRows(g, kids, most, stack);
    forall at | NodeAt(ts, at).Some?
      ensures var node := NodeAt(ts, at).value;
              var reference := node.child.reference;
              if && node.child.hasChildren && |at| - 1 < most && reference !in Trail(ts, at) && path != Some(reference)
              then g(Some(reference)).Ok? && Rows(node.children) == g(Some(reference)).value
              else node.children == []
    {
      FullOpensExactly(g, kids, most, stack, at);
      assert forall x :: x in stack + Trail(ts, at) <==> path == Some(x) || x in Trail(ts, at);
    }
  }

  lemma LevelTrouble(g: Graph, path: Option<Ref>, depth: nat, ancestors: seq<Ref>)
    ensures var t := TroubleLevel(g, path, depth, ancestors);
            && (t.Some? ==> t.value <= |Preorder(FullLevel(g, path, depth, ancestors))|)
            && (t.None? ==> g(path).Ok? && TroubleKids(g, g(path).value, depth, ancestors).None?)
  {
    if g(path).Ok? {
      TroubleInside(g, g(path).value, depth, ancestors);
    }
  }

  /** What an answer says of the full tree: its listing is a prefix of the full one, `Whole` means they are the same
      tree and nothing else does, no more than the cap is listed, and no more than the budget is charged. */
  lemma AnswerIsAPrefix(size: Child -> nat, full: seq<TreeNode>, trouble: Option<nat>, room: nat, purse: int)
    requires Walked(size, full, trouble, room, purse).Answer?
    ensures var x := Walked(size, full, trouble, room, purse);
            && Preorder(x.ts) <= Preorder(full)
            && (x.cut == Whole <==> x.ts == full)
            && x.took == |Preorder(x.ts)| <= room
            && (x.took > 0 ==> x.spent <= purse)
            && (x.cut == NodeCap ==> x.took == room)
            && (x.cut == BudgetCut ==> x.took < room && x.spent + NodeCosts(size, full)[x.took] > purse)
  {
    var costs := NodeCosts(size, full);
    var n := Fits(costs, room, purse);
    PrunedListing(full, n);
    PruneKeepsAll(full);
    FitsIsLongest(costs, room, purse);
    if n < |costs| {
      assert costs[..n + 1] == costs[..n] + [costs[n]];
      SumAppend(costs[..n], [costs[n]]);
      assert Sum([costs[n]]) == costs[n] + Sum([]) by {
        assert [costs[n]][1..] == [];
      }
    }
  }

  /** A walk with no failing read, no cap in reach and budget enough lists everything. */
  lemma UnlimitedIsWhole(size: Child -> nat, full: seq<TreeNode>, room: nat, purse: int)
    requires |Preorder(full)| <= room && Sum(NodeCosts(size, full)) <= purse
    ensures Walked(size, full, None, room, purse) == Answer(full, |Preorder(full)|, Sum(NodeCosts(size, full)), Whole)
  {
    AllFit(NodeCosts(size, full), room, purse);
    WholeAnswer(size, full, None, room, purse);
  }

  lemma {:induction false} AllFit(costs: seq<nat>, room: nat, purse: int)
    requires |costs| <= room && Sum(costs) <= purse
    ensures Fits(costs, room, purse) == |costs|
  {
    if costs != [] {
      AllFit(costs[1..], room - 1, purse - costs[0]);
    }
  }

  /** No path of the tree goes through one reference twice: a node opened is none of its ancestors. */
  predicate OpensNoAncestor(ts: seq<TreeNode>, ancestors: seq<Ref>) {
    forall t :: t in ts && t.children != [] ==>
      t.child.reference !in ancestors && OpensNoAncestor(t.children, ancestors + [t.child.reference])
  }

  lemma {:induction false} FullOpensNoAncestor(g: Graph, kids: seq<Child>, depth: nat, ancestors: seq<Ref>)
    ensures OpensNoAncestor(FullKids(g, kids, depth, ancestors), ancestors)
    decreases depth, |kids|
  {
    if kids != [] {
      FullOpensNoAncestor(g, kids[1..], depth, ancestors);
      var c := kids[0];
      if Descends(c, depth, ancestors) && g(Some(c.reference)).Ok? {
        var under := g(Some(c.reference)).value;
        FullOpensNoAncestor(g, under, depth - 1, ancestors + [c.reference]);
        assert Below(g, c, depth, ancestors) == FullKids(g, under, depth - 1, ancestors + [c.reference]);
      }
      var first, rest := TreeNode(c, Below(g, c, depth, ancestors)), FullKids(g, kids[1..], depth, ancestors);
      assert first.children != [] ==> OpensNoAncestor(first.children, ancestors + [c.reference]);
      forall t | t in [first] + rest && t.children != []
        ensures t.child.reference !in ancestors && OpensNoAncestor(t.children, ancestors + [t.child.reference])
      {
        assert t == first || t in rest;
      }
    }
  }

  lemma {:induction false} PrunedOpensNoAncestor(ts: seq<TreeNode>, n: nat, ancestors: seq<Ref>)
    requires OpensNoAncestor(ts, ancestors)
    ensures OpensNoAncestor(Prune(ts, n), ancestors)
    decreases ts
  {
    if ts != [] && n > 0 {
      var k := |Preorder(ts[0].children)|;
      assert ts[0] in ts;
      if n - 1 < k {
        PrunedOpensNoAncestor(ts[0].children, n - 1, ancestors + [ts[0].child.reference]);
      } else {
        PrunedOpensNoAncestor(ts[1..], n - 1 - k, ancestors);
      }
    }
  }

  // ---------------------------------------------------------------------------------------
  // Listings
  // ---------------------------------------------------------------------------------------

  /** What a budgeted listing gives back: the rows, what they cost and whether it stopped at one that did not fit. */
  datatype Listing<T> = Listing(rows: seq<T>, spent: nat, stopped: bool) | ListingFails(error: ReadError)

  /** The rows that fit, in the order they are come to, up to the first read that fails. */
  function Listed<T>(size: T -> nat, items: seq<Result<T, ReadError>>, purse: int): Listing<T> {
    if items == [] then Listing([], 0, false)
    else match items[0]
      case Err(e) => ListingFails(e)
      case Ok(row) =>
        var cost := size(row) + ENTRY_COST;
        if cost > purse then Listing([], 0, true)
        else AndThen(Listing([row], cost, false), Listed(size, items[1..], purse - cost))
  }

  /** One listing and then the next, where the first let it go on. */
  function AndThen<T>(x: Listing<T>, y: Listing<T>): Listing<T> {
    if x.ListingFails? || x.stopped then x
    else if y.ListingFails? then y
    else Listing(x.rows + y.rows, x.spent + y.spent, y.stopped)
  }

  /** What is left to spend after a listing: nothing once a row did not fit. */
  function PurseAfter<T>(x: Listing<T>, purse: int): int {
    if x.ListingFails? then purse else if x.stopped then -1 else purse - x.spent
  }

  function Reads<T>(rows: seq<T>): (items: seq<Result<T, ReadError>>)
    ensures |items| == |rows|
  {
    seq(|rows|, i requires 0 <= i < |rows| => Ok(rows[i]))
  }

  lemma AndThenAssociates<T>(x: Listing<T>, y: Listing<T>, z: Listing<T>)
    ensures AndThen(AndThen(x, y), z) == AndThen(x, AndThen(y, z))
  {
    if x.Listing? && y.Listing? && z.Listing? {
      assert (x.rows + y.rows) + z.rows == x.rows + (y.rows + z.rows);
    }
  }

  lemma {:induction false} ListedAppend<T>(
    size: T -> nat, a: seq<Result<T, ReadError>>, b: seq<Result<T, ReadError>>, purse: int)
    ensures Listed(size, a + b, purse)
            == var x := Listed(size, a, purse); AndThen(x, Listed(size, b, PurseAfter(x, purse)))
  {
    if a == [] {
      assert a + b == b;
      var y := Listed(size, b, purse);
      assert y.Listing? ==> [] + y.rows == y.rows;
    } else {
      assert (a + b)[1..] == a[1..] + b && (a + b)[0] == a[0];
      if a[0].Ok? && size(a[0].value) + ENTRY_COST <= purse {
        var cost := size(a[0].value) + ENTRY_COST;
        ListedAppend(size, a[1..], b, purse - cost);
        var x := Listed(size, a[1..], purse - cost);
        AndThenAssociates(Listing([a[0].value], cost, false), x, Listed(size, b, PurseAfter(x, purse - cost)));
      }
    }
  }

  function Spent<T>(size: T -> nat, rows: seq<T>): nat {
    if rows == [] then 0 else size(rows[0]) + ENTRY_COST + Spent(size, rows[1..])
  }

  /** A listing that does not fail is a prefix of the unlimited one within the purse, stopped exactly when something was
      dropped, and then at a row that would not have fitted. */
  lemma {:induction false} ListingIsAPrefix<T>(size: T -> nat, items: seq<Result<T, ReadError>>, purse: int)
    requires Listed(size, items, purse).Listing?
    ensures var x := Listed(size, items, purse);
            && Reads(x.rows) <= items
            && (x.stopped <==> |x.rows| < |items|)
            && x.spent == Spent(size, x.rows)
            && (x.rows != [] ==> x.spent <= purse)
            && (x.stopped ==> items[|x.rows|].Ok? && x.spent + size(items[|x.rows|].value) + ENTRY_COST > purse)
            && |x.rows| * ENTRY_COST <= x.spent
  {
    if items != [] {
      var row := items[0].value;
      var cost := size(row) + ENTRY_COST;
      if cost <= purse {
        ListingIsAPrefix(size, items[1..], purse - cost);
        var x, y := Listed(size, items, purse), Listed(size, items[1..], purse - cost);
        assert x.rows == [row] + y.rows;
        assert x.rows[1..] == y.rows;
        assert Reads(x.rows) == [items[0]] + Reads(y.rows);
        assert items == [items[0]] + items[1..];
      }
    }
  }

  /** A listing fails exactly when everything before the first failing read fits. */
  lemma {:induction false} ListingFailsExactly<T>(size: T -> nat, items: seq<Result<T, ReadError>>, purse: int, k: nat)
    requires k < |items| && items[k].Err? && forall i :: 0 <= i < k ==> items[i].Ok?
    ensures var x := Listed(size, items[..k], purse);
            Listed(size, items, purse) == if x.Listing? && !x.stopped then ListingFails(items[k].error) else x
  {
    assert items == items[..k] + items[k..];
    ListedAppend(size, items[..k], items[k..], purse);
    CleanListing(size, items[..k], purse);
  }

  lemma {:induction false} CleanListing<T>(size: T -> nat, items: seq<Result<T, ReadError>>, purse: int)
    requires forall i :: 0 <= i < |items| ==> items[i].Ok?
    ensures Listed(size, items, purse).Listing?
  {
    if items != [] && size(items[0].value) + ENTRY_COST <= purse {
      CleanListing(size, items[1..], purse - size(items[0].value) - ENTRY_COST);
    }
  }

  lemma OneRow<T>(size: T -> nat, row: T, purse: int)
    ensures Listed(size, [Ok(row)], purse)
            == if size(row) + ENTRY_COST <= purse then Listing([row], size(row) + ENTRY_COST, false)
               else Listing([], 0, true)
  {
    var items: seq<Result<T, ReadError>> := [Ok(row)];
    assert items[1..] == [];
    assert [row] + [] == [row];
  }

  // ---------------------------------------------------------------------------------------
  // `kb.ls`
  // ---------------------------------------------------------------------------------------

  type LsItem = Result<ListRow, ReadError>

  predicate OpensBelow(c: Child, recursive: bool) {
    recursive && c.kind == "namespace"
  }

  /** What `ls` comes to with no budget, depth-first: the rows, and a failing read where it is. Namespaces may list each
      other, so it is said down to `d` levels; [`FirstItems`] shows that `d` levels settle the first `d` items. */
  function LsLevel(g: Graph, path: Option<Ref>, recursive: bool, d: nat): seq<LsItem>
    decreases d, 1, 0
  {
    match g(path)
    case Ok(kids) => LsKids(g, path, kids, recursive, d)
    case Err(e) => [Err(e)]
  }

  function LsKids(g: Graph, path: Option<Ref>, kids: seq<Child>, recursive: bool, d: nat): seq<LsItem>
    decreases d, 0, |kids|
  {
    if kids == [] then []
    else [Ok(ListRow(path, kids[0]))] + LsBelow(g, kids[0], recursive, d) + LsKids(g, path, kids[1..], recursive, d)
  }

  function LsBelow(g: Graph, c: Child, recursive: bool, d: nat): seq<LsItem>
    decreases d, 0, 0
  {
    if OpensBelow(c, recursive) && d > 0 then LsLevel(g, Some(c.reference), recursive, d - 1) else []
  }

  function First<T>(s: seq<T>, k: nat): seq<T> {
    if |s| <= k then s else s[..k]
  }

  lemma FirstOfThree<T>(row: T, a: seq<T>, a': seq<T>, b: seq<T>, b': seq<T>, k: nat)
    requires k > 0 && First(a, k - 1) == First(a', k - 1) && First(b, k - 1) == First(b', k - 1)
    ensures First([row] + a + b, k) == First([row] + a' + b', k)
  {
    if |a| >= k - 1 {
      assert ([row] + a + b)[..k] == [row] + a[..k - 1];
      assert |a'| >= k - 1;
      assert ([row] + a' + b')[..k] == [row] + a'[..k - 1];
    } else {
      assert a == a';
      assert forall m: nat :: m <= k - 1 ==> First(b, m) == First(First(b, k - 1), m);
      assert forall m: nat :: m <= k - 1 ==> First(b', m) == First(First(b', k - 1), m);
      var m := k - 1 - |a|;
      assert First(b, m) == First(b', m);
      assert First([row] + a + b, k) == [row] + a + First(b, m);
      assert First([row] + a + b', k) == [row] + a + First(b', m);
    }
  }

  lemma {:induction false} FirstItems(g: Graph, path: Option<Ref>, recursive: bool, d: nat, e: nat, k: nat)
    requires k <= d <= e
    ensures First(LsLevel(g, path, recursive, d), k) == First(LsLevel(g, path, recursive, e), k)
    decreases d, 1, 0
  {
    if g(path).Ok? {
      FirstItemsOf(g, path, g(path).value, recursive, d, e, k);
    }
  }

  lemma {:induction false} FirstItemsOf(
    g: Graph, path: Option<Ref>, kids: seq<Child>, recursive: bool, d: nat, e: nat, k: nat)
    requires k <= d <= e
    ensures First(LsKids(g, path, kids, recursive, d), k) == First(LsKids(g, path, kids, recursive, e), k)
    decreases d, 0, |kids|
  {
    if kids != [] && k > 0 {
      FirstItemsOf(g, path, kids[1..], recursive, d, e, k - 1);
      if OpensBelow(kids[0], recursive) {
        FirstItems(g, Some(kids[0].reference), recursive, d - 1, e - 1, k - 1);
      }
      FirstOfThree(Ok(ListRow(path, kids[0])), LsBelow(g, kids[0], recursive, d), LsBelow(g, kids[0], recursive, e),
                   LsKids(g, path, kids[1..], recursive, d), LsKids(g, path, kids[1..], recursive, e), k);
    }
  }

  /** A listing is settled by the items its purse could pay for and one more. */
  lemma {:induction false} ListedByFirst<T>(size: T -> nat, a: seq<Result<T, ReadError>>, b: seq<Result<T, ReadError>>,
                                            purse: int, k: nat)
    requires First(a, k) == First(b, k) && purse < ENTRY_COST * k && k > 0
    ensures Listed(size, a, purse) == Listed(size, b, purse)
  {
    if a != [] {
      assert First(b, k) != [];
      assert a[0] == First(a, k)[0] == First(b, k)[0] == b[0];
      if a[0].Ok? && size(a[0].value) + ENTRY_COST <= purse {
        assert First(a[1..], k - 1) == First(a, k)[1..];
        assert First(b[1..], k - 1) == First(b, k)[1..];
        ListedByFirst(size, a[1..], b[1..], purse - size(a[0].value) - ENTRY_COST, k - 1);
      }
    }
  }

  /** However deep the unlimited listing is followed past what the purse could reach, the budgeted one is the same. */
  lemma DeeperIsTheSame(g: Graph, size: ListRow -> nat, path: Option<Ref>, recursive: bool, d: nat, e: nat, purse: int)
    requires 0 < d <= e && purse < ENTRY_COST * d
    ensures Listed(size, LsLevel(g, path, recursive, d), purse) == Listed(size, LsLevel(g, path, recursive, e), purse)
  {
    FirstItems(g, path, recursive, d, e, d);
    ListedByFirst(size, LsLevel(g, path, recursive, d), LsLevel(g, path, recursive, e), purse, d);
  }

  lemma {:induction false} LsKidsAppend(g: Graph, path: Option<Ref>, x: seq<Child>, y: seq<Child>, recursive: bool,
                                        d: nat)
    ensures LsKids(g, path, x + y, recursive, d) == LsKids(g, path, x, recursive, d) + LsKids(g, path, y, recursive, d)
    decreases |x|
  {
    if x == [] {
      assert x + y == y;
    } else {
      assert (x + y)[1..] == x[1..] + y;
      LsKidsAppend(g, path, x[1..], y, recursive, d);
    }
  }

  lemma LsOneMore(
    g: Graph, size: ListRow -> nat, path: Option<Ref>, kids: seq<Child>, i: nat, recursive: bool, d: nat, purse: int)
    requires i < |kids|
    ensures var x := Listed(size, LsKids(g, path, kids[..i], recursive, d), purse);
            var y := Listed(size, [Ok(ListRow(path, kids[i]))], PurseAfter(x, purse));
            var z := Listed(size, LsBelow(g, kids[i], recursive, d), PurseAfter(y, PurseAfter(x, purse)));
            Listed(size, LsKids(g, path, kids[..i + 1], recursive, d), purse) == AndThen(x, AndThen(y, z))
  {
    hide Listed, AndThen, PurseAfter;
    assert kids[..i + 1] == kids[..i] + [kids[i]];
    LsKidsAppend(g, path, kids[..i], [kids[i]], recursive, d);
    var row: seq<LsItem> := [Ok(ListRow(path, kids[i]))];
    assert [kids[i]][1..] == [];
    assert LsKids(g, path, [kids[i]], recursive, d) == row + LsBelow(g, kids[i], recursive, d);
    var x := Listed(size, LsKids(g, path, kids[..i], recursive, d), purse);
    ListedAppend(size, LsKids(g, path, kids[..i], recursive, d), LsKids(g, path, [kids[i]], recursive, d), purse);
    ListedAppend(size, row, LsBelow(g, kids[i], recursive, d), PurseAfter(x, purse));
  }

  lemma LsStopped(g: Graph, size: ListRow -> nat, path: Option<Ref>, kids: seq<Child>, i: nat, recursive: bool, d: nat,
                  purse: int)
    requires i <= |kids|
    requires var x := Listed(size, LsKids(g, path, kids[..i], recursive, d), purse); x.ListingFails? || x.stopped
    ensures Listed(size, LsKids(g, path, kids, recursive, d), purse)
            == Listed(size, LsKids(g, path, kids[..i], recursive, d), purse)
  {
    assert kids == kids[..i] + kids[i..];
    LsKidsAppend(g, path, kids[..i], kids[i..], recursive, d);
    ListedAppend(size, LsKids(g, path, kids[..i], recursive, d), LsKids(g, path, kids[i..], recursive, d), purse);
  }

  /** Not recursive, the listing is the children of `path`, in order, or the failure to read them. */
  lemma LsFlat(g: Graph, path: Option<Ref>, d: nat)
    ensures g(path).Err? ==> LsLevel(g, path, false, d) == [Err(g(path).error)]
    ensures g(path).Ok? ==>
              && |LsLevel(g, path, false, d)| == |g(path).value|
              && forall i :: 0 <= i < |g(path).value| ==>
                 LsLevel(g, path, false, d)[i] == Ok(ListRow(path, g(path).value[i]))
  {
    if g(path).Ok? {
      LsKidsFlat(g, path, g(path).value, d);
    }
  }

  lemma {:induction false} LsKidsFlat(g: Graph, path: Option<Ref>, kids: seq<Child>, d: nat)
    ensures |LsKids(g, path, kids, false, d)| == |kids|
    ensures forall i :: 0 <= i < |kids| ==> LsKids(g, path, kids, false, d)[i] == Ok(ListRow(path, kids[i]))
    decreases |kids|
  {
    if kids != [] {
      LsKidsFlat(g, path, kids[1..], d);
    }
  }

  /** Recursive, a namespace's row is followed at once by what the namespace lists, or by the failure to read it. */
  lemma {:induction false} LsFollows(g: Graph, path: Option<Ref>, d: nat, i: nat)
    requires i < d && i < |LsLevel(g, path, true, d)|
    requires LsLevel(g, path, true, d)[i].Ok? && LsLevel(g, path, true, d)[i].value.child.kind == "namespace"
    ensures var items := LsLevel(g, path, true, d);
            var below := g(Some(items[i].value.child.reference));
            && (below.Err? ==> i + 1 < |items| && items[i + 1] == Err(below.error))
            && (below.Ok? && below.value != [] ==>
                  i + 1 < |items| && items[i + 1] == Ok(ListRow(Some(items[i].value.child.reference), below.value[0])))
    decreases d, 1, 0
  {
    LsKidsFollow(g, path, g(path).value, d, i);
  }

  lemma {:induction false} LsKidsFollow(g: Graph, path: Option<Ref>, kids: seq<Child>, d: nat, i: nat)
    requires i < d && i < |LsKids(g, path, kids, true, d)|
    requires LsKids(g, path, kids, true, d)[i].Ok? && LsKids(g, path, kids, true, d)[i].value.child.kind == "namespace"
    ensures var items := LsKids(g, path, kids, true, d);
            var below := g(Some(items[i].value.child.reference));
            && (below.Err? ==> i + 1 < |items| && items[i + 1] == Err(below.error))
            && (below.Ok? && below.value != [] ==>
                  i + 1 < |items| && items[i + 1] == Ok(ListRow(Some(items[i].value.child.reference), below.value[0])))
    decreases d, 0, |kids|
  {
    var items, first := LsKids(g, path, kids, true, d), LsBelow(g, kids[0], true, d);
    var rest := LsKids(g, path, kids[1..], true, d);
    assert items == [Ok(ListRow(path, kids[0]))] + first + rest;
    if i == 0 {
      LevelStarts(g, Some(kids[0].reference), d - 1);
    } else if i - 1 < |first| {
      assert items[i] == first[i - 1];
      LsFollows(g, Some(kids[0].reference), d - 1, i - 1);
    } else {
      assert items[i] == rest[i - 1 - |first|];
      LsKidsFollow(g, path, kids[1..], d, i - 1 - |first|);
    }
  }

  lemma LevelStarts(g: Graph, path: Option<Ref>, d: nat)
    ensures g(path).Err? ==> LsLevel(g, path, true, d) == [Err(g(path).error)]
    ensures g(path).Ok? && g(path).value != [] ==>
              LsLevel(g, path, true, d) != [] && LsLevel(g, path, true, d)[0] == Ok(ListRow(path, g(path).value[0]))
  {
  }

  /** And every row is a child of the path it names, which is the one asked for or a namespace whose row came before. */
  lemma {:induction false} LsRowsAreListed(g: Graph, path: Option<Ref>, recursive: bool, d: nat, i: nat)
    requires i < |LsLevel(g, path, recursive, d)| && LsLevel(g, path, recursive, d)[i].Ok?
    ensures var items := LsLevel(g, path, recursive, d);
            var row := items[i].value;
            && g(row.parent).Ok? && row.child in g(row.parent).value
            && (row.parent == path
                || exists k :: 0 <= k < i && items[k].Ok? && items[k].value.child.kind == "namespace"
                               && row.parent == Some(items[k].value.child.reference))
    decreases d, 1, 0
  {
    LsKidsAreListed(g, path, g(path).value, g(path).value, recursive, d, i);
  }

  lemma {:induction false} LsKidsAreListed(
    g: Graph, path: Option<Ref>, all: seq<Child>, kids: seq<Child>, recursive: bool, d: nat, i: nat)
    requires g(path) == Ok(all) && forall c :: c in kids ==> c in all
    requires i < |LsKids(g, path, kids, recursive, d)| && LsKids(g, path, kids, recursive, d)[i].Ok?
    ensures var items := LsKids(g, path, kids, recursive, d);
            var row := items[i].value;
            && g(row.parent).Ok? && row.child in g(row.parent).value
            && (row.parent == path
                || exists k :: 0 <= k < i && items[k].Ok? && items[k].value.child.kind == "namespace"
                               && row.parent == Some(items[k].value.child.reference))
    decreases d, 0, |kids|
  {
    var items, first := LsKids(g, path, kids, recursive, d), LsBelow(g, kids[0], recursive, d);
    var rest := LsKids(g, path, kids[1..], recursive, d);
    assert items == [Ok(ListRow(path, kids[0]))] + first + rest;
    assert kids[0] in kids && forall c :: c in kids[1..] ==> c in kids;
    if i == 0 {
    } else if i - 1 < |first| {
      LsRowsAreListed(g, Some(kids[0].reference), recursive, d - 1, i - 1);
      ParentShifts(items, first, 1, i, Some(kids[0].reference));
      assert items[0] == Ok(ListRow(path, kids[0])) && kids[0].kind == "namespace";
    } else {
      LsKidsAreListed(g, path, all, kids[1..], recursive, d, i - 1 - |first|);
      ParentShifts(items, rest, 1 + |first|, i, path);
    }
  }

  /** A row's parent within a part of the listing is its parent in the whole. */
  lemma ParentShifts(items: seq<LsItem>, part: seq<LsItem>, off: nat, i: nat, path: Option<Ref>)
    requires off <= i && i - off < |part| && off + |part| <= |items| && items[off..off + |part|] == part
    requires part[i - off].Ok?
    requires part[i - off].value.parent == path
             || exists k :: 0 <= k < i - off && part[k].Ok? && part[k].value.child.kind == "namespace"
                            && part[i - off].value.parent == Some(part[k].value.child.reference)
    ensures items[i] == part[i - off]
    ensures items[i].value.parent == path
            || exists k :: 0 <= k < i && items[k].Ok? && items[k].value.child.kind == "namespace"
                           && items[i].value.parent == Some(items[k].value.child.reference)
  {
    assert forall k :: 0 <= k < |part| ==> part[k] == items[off + k];
    if part[i - off].value.parent != path {
      var k :| 0 <= k < i - off && part[k].Ok? && part[k].value.child.kind == "namespace"
               && part[i - off].value.parent == Some(part[k].value.child.reference);
      assert items[off + k] == part[k];
    }
  }

  /** The accumulator and budget of one `ls`. */
  class Lister {
    const graph: Graph
    const size: ListRow -> nat
    const recursive: bool
    const budget: Budget
    var acc: seq<ListRow>

    constructor (graph: Graph, size: ListRow -> nat, recursive: bool, budget: Budget)
      ensures this.graph == graph && this.size == size && this.recursive == recursive && this.budget == budget
              && acc == []
    {
      this.graph, this.size, this.recursive, this.budget := graph, size, recursive, budget;
      acc := [];
    }

    /** Whether the walk has done what `x` says since the accumulator was `had`, `left` bytes were left and something
        had (`before`) or had not failed to fit. */
    ghost predicate Did(x: Listing<ListRow>, failed: Option<ReadError>, had: seq<ListRow>, left: nat, before: bool)
      reads this, budget
    {
      match x
      case ListingFails(e) => failed == Some(e)
      case Listing(rows, spent, stopped) =>
        failed == None && acc == had + rows && budget.left == left - spent && budget.exhausted == (before || stopped)
    }

    /** List `path`'s children and, recursively, what is below each: of the unlimited listing, the rows that fit. `d` is
        any depth the budget cannot reach. */
    method Walk(path: Option<Ref>, ghost d: nat) returns (failed: Option<ReadError>)
      requires d > 0 && budget.Purse() < ENTRY_COST * d
      modifies this, budget
      ensures budget.left <= old(budget.left)
      ensures Did(Listed(size, LsLevel(graph, path, recursive, d), old(budget.Purse())), failed,
                  old(acc), old(budget.left), old(budget.exhausted))
      decreases budget.left, 1
    {
      match graph(path) {
        case Err(e) => return Some(e);
        case Ok(kids) => failed := WalkKids(path, kids, d);
      }
    }

    method WalkKids(path: Option<Ref>, kids: seq<Child>, ghost d: nat) returns (failed: Option<ReadError>)
      requires d > 0 && budget.Purse() < ENTRY_COST * d
      modifies this, budget
      ensures budget.left <= old(budget.left)
      ensures Did(Listed(size, LsKids(graph, path, kids, recursive, d), old(budget.Purse())), failed,
                  old(acc), old(budget.left), old(budget.exhausted))
      decreases budget.left, 0
    {
      hide Listed, LsLevel, LsKids;
      ghost var had, left0, before, purse := acc, budget.left, budget.exhausted, budget.Purse();
      failed := None;
      ghost var sofar: Listing<ListRow> := Listing([], 0, false);
      NothingListed(graph, size, path, kids, recursive, d, purse);
      var i := 0;
      while i < |kids|
        invariant i <= |kids| && budget.left <= left0 && failed == None
        invariant Listed(size, LsKids(graph, path, kids[..i], recursive, d), purse) == sofar
        invariant Did(sofar, None, had, left0, before)
        invariant budget.Purse() == PurseAfter(sofar, purse)
      {
        var row := ListRow(path, kids[i]);
        LsOneMore(graph, size, path, kids, i, recursive, d, purse);
        OneRow(size, row, budget.Purse());
        var fits := budget.Take(size(row));
        if !fits {
          assert Listed(size, LsKids(graph, path, kids[..if sofar.stopped then i else i + 1], recursive, d), purse)
                 == Listing(sofar.rows, sofar.spent, true);
          LsStopped(graph, size, path, kids, if sofar.stopped then i else i + 1, recursive, d, purse);
          return None;
        }
        acc := acc + [row];
        ghost var under := Listed(size, LsBelow(graph, kids[i], recursive, d), budget.Purse());
        if OpensBelow(kids[i], recursive) {
          failed := Walk(Some(kids[i].reference), d - 1);
        } else {
          NothingUnder(graph, size, kids[i], recursive, d, budget.Purse());
        }
        sofar := AndThen(sofar, AndThen(Listing([row], size(row) + ENTRY_COST, false), under));
        i := i + 1;
        assert Listed(size, LsKids(graph, path, kids[..i], recursive, d), purse) == sofar;
        if failed.Some? {
          LsStopped(graph, size, path, kids, i, recursive, d, purse);
          return;
        }
      }
      assert kids[..i] == kids;
    }
  }

  lemma NothingListed(g: Graph, size: ListRow -> nat, path: Option<Ref>, kids: seq<Child>, recursive: bool, d: nat,
                      purse: int)
    ensures Listed(size, LsKids(g, path, kids[..0], recursive, d), purse) == Listing([], 0, false)
  {
  }

  lemma NothingUnder(g: Graph, size: ListRow -> nat, c: Child, recursive: bool, d: nat, purse: int)
    requires !OpensBelow(c, recursive)
    ensures Listed(size, LsBelow(g, c, recursive, d), purse) == Listing([], 0, false)
  {
  }

  /** `kb.ls`: of the unlimited depth-first listing, followed to any depth its budget could not reach, the rows that
      fit. */
  method Ls(g: Graph, size: ListRow -> nat, path: Option<Ref>, recursive: bool, budget: Budget)
    returns (r: Result<seq<ListRow>, ReadError>)
    modifies budget
    ensures forall d: nat {:trigger LsLevel(g, path, recursive, d)} :: old(budget.Purse()) < ENTRY_COST * d && d > 0 ==>
              match Listed(size, LsLevel(g, path, recursive, d), old(budget.Purse()))
              case ListingFails(e) => r == Err(e)
              case Listing(rows, spent, stopped) =>
                r == Ok(rows) && budget.left == old(budget.left) - spent
                && budget.exhausted == (old(budget.exhausted) || stopped)
  {
    ghost var purse := budget.Purse();
    ghost var reach: nat := if purse < 0 then 1 else purse / ENTRY_COST + 1;
    var walk := new Lister(g, size, recursive, budget);
    var failed := walk.Walk(path, reach);
    r := if failed.Some? then Err(failed.value) else Ok(walk.acc);
    ghost var x := Listed(size, LsLevel(g, path, recursive, reach), purse);
    assert x.Listing? ==> [] + x.rows == x.rows;
    forall d: nat | purse < ENTRY_COST * d && d > 0
      ensures Listed(size, LsLevel(g, path, recursive, d), purse) == x
    {
      assert reach <= d;
      DeeperIsTheSame(g, size, path, recursive, reach, d, purse);
    }
  }

  // ---------------------------------------------------------------------------------------
  // `kb.grep`
  // ---------------------------------------------------------------------------------------

  datatype GrepMode = Count | Names | Lines

  datatype GrepLine = GrepLine(line: nat, text: string)

  datatype GrepHit = GrepHit(uid: string, kind: string, lines: seq<GrepLine>)

  /** An item whose content holds the pattern, with the content's lines. */
  datatype GrepRow = GrepRow(uid: string, kind: string, content: seq<string>)

  datatype GrepAnswer = GrepAnswer(hits: seq<GrepHit>, count: nat, truncated: bool)

  /** What a budget is charged for: a hit with no lines yet, or one of its lines. */
  datatype Piece = Header(uid: string, kind: string) | Line(line: GrepLine)

  predicate Holds(text: string, pattern: string) {
    exists i :: 0 <= i <= |text| && pattern <= text[i..]
  }

  predicate Matches(fold: string -> string, pattern: string, ignoreCase: bool, text: string) {
    if ignoreCase then Holds(fold(text), fold(pattern)) else Holds(text, pattern)
  }

  /** The matching lines of `content`, numbered from one. */
  function Matching(matches: string -> bool, content: seq<string>): seq<GrepLine> {
    if content == [] then []
    else
      var last := |content| - 1;
      Matching(matches, content[..last]) + if matches(content[last]) then [GrepLine(last + 1, content[last])] else []
  }

  /** The hit an item makes with no budget. */
  function HitOf(matches: string -> bool, mode: GrepMode, row: GrepRow): GrepHit {
    GrepHit(row.uid, row.kind, if mode == Lines then Matching(matches, row.content) else [])
  }

  function AllHits(matches: string -> bool, mode: GrepMode, rows: seq<GrepRow>): seq<GrepHit> {
    if mode == Count then [] else seq(|rows|, i requires 0 <= i < |rows| => HitOf(matches, mode, rows[i]))
  }

  function LinePieces(lines: seq<GrepLine>): (ps: seq<Piece>)
    ensures |ps| == |lines|
  {
    seq(|lines|, i requires 0 <= i < |lines| => Line(lines[i]))
  }

  function HitPieces(hit: GrepHit): seq<Piece> {
    [Header(hit.uid, hit.kind)] + LinePieces(hit.lines)
  }

  /** The hits, piece by piece in the order they are charged. */
  function Pieces(hits: seq<GrepHit>): seq<Piece> {
    if hits == [] then [] else Pieces(hits[..|hits| - 1]) + HitPieces(hits[|hits| - 1])
  }

  /** Exactly the matching lines, each with its number counted from one, in order. */
  lemma {:induction false} MatchingExactly(matches: string -> bool, content: seq<string>)
    ensures forall line :: line in Matching(matches, content) <==>
              1 <= line.line <= |content| && content[line.line - 1] == line.text && matches(line.text)
    ensures forall i, j :: 0 <= i < j < |Matching(matches, content)| ==>
              Matching(matches, content)[i].line < Matching(matches, content)[j].line
  {
    if content != [] {
      var last := |content| - 1;
      var before := content[..last];
      MatchingExactly(matches, before);
      assert forall i :: 0 <= i < last ==> before[i] == content[i];
      assert forall i :: 0 <= i < |Matching(matches, before)| ==>
          Matching(matches, before)[i] in Matching(matches, before);
    }
  }

  /** The unlimited hits: one an item in order, with its matching lines when lines are asked for; none when only a count
      is. */
  lemma HitsExactly(matches: string -> bool, mode: GrepMode, rows: seq<GrepRow>)
    ensures mode == Count ==> AllHits(matches, mode, rows) == []
    ensures mode != Count ==>
              && |AllHits(matches, mode, rows)| == |rows|
              && forall i :: 0 <= i < |rows| ==>
                   AllHits(matches, mode, rows)[i]
                   == GrepHit(rows[i].uid, rows[i].kind,
                              if mode == Lines then Matching(matches, rows[i].content) else [])
  {
  }

  /** A line matches when it holds the pattern, both folded if case is ignored. */
  lemma NeedleExactly(fold: string -> string, pattern: string, ignoreCase: bool, text: string)
    ensures Needle(fold, pattern, ignoreCase)(text) <==>
            if ignoreCase then exists i :: 0 <= i <= |fold(text)| && fold(pattern) <= fold(text)[i..]
            else exists i :: 0 <= i <= |text| && pattern <= text[i..]
  {
  }

  /** What a budget lists of some pieces. */
  function Charged(size: Piece -> nat, pieces: seq<Piece>, purse: int): Listing<Piece> {
    Listed(size, Reads(pieces), purse)
  }

  lemma ChargedAppend(size: Piece -> nat, a: seq<Piece>, b: seq<Piece>, purse: int)
    ensures Charged(size, a + b, purse)
            == var x := Charged(size, a, purse); AndThen(x, Charged(size, b, PurseAfter(x, purse)))
  {
    assert Reads(a + b) == Reads(a) + Reads(b);
    ListedAppend(size, Reads(a), Reads(b), purse);
  }

  /** One piece is charged next: it goes through when it fits, and nothing does after one has not. */
  lemma OneMorePiece(size: Piece -> nat, a: seq<Piece>, p: Piece, purse: int)
    ensures Charged(size, a + [p], purse)
            == var x := Charged(size, a, purse);
               if x.Listing? && !x.stopped && size(p) + ENTRY_COST <= PurseAfter(x, purse)
               then Listing(x.rows + [p], x.spent + size(p) + ENTRY_COST, false)
               else if x.Listing? then Listing(x.rows, x.spent, true) else x
  {
    hide Listed;
    ChargedAppend(size, a, [p], purse);
    var x := Charged(size, a, purse);
    OneRow(size, p, PurseAfter(x, purse));
    assert Reads([p]) == [Ok(p)];
  }

  lemma StoppedStays(size: Piece -> nat, a: seq<Piece>, b: seq<Piece>, purse: int)
    requires Charged(size, a, purse).Listing? && Charged(size, a, purse).stopped
    ensures Charged(size, a + b, purse) == Charged(size, a, purse)
  {
    ChargedAppend(size, a, b, purse);
  }

  lemma HitPiecesGrow(hit: GrepHit, line: GrepLine)
    ensures HitPieces(hit.(lines := hit.lines + [line])) == HitPieces(hit) + [Line(line)]
  {
    assert LinePieces(hit.lines + [line]) == LinePieces(hit.lines) + [Line(line)];
  }

  lemma HitsGrow(hits: seq<GrepHit>, hit: GrepHit)
    ensures Pieces(hits + [hit]) == Pieces(hits) + HitPieces(hit)
  {
    assert (hits + [hit])[..|hits|] == hits;
  }

  lemma OneMoreRow(matches: string -> bool, mode: GrepMode, rows: seq<GrepRow>, i: nat)
    requires i < |rows| && mode != Count
    ensures Pieces(AllHits(matches, mode, rows[..i + 1]))
            == Pieces(AllHits(matches, mode, rows[..i])) + HitPieces(HitOf(matches, mode, rows[i]))
  {
    assert AllHits(matches, mode, rows[..i + 1]) == AllHits(matches, mode, rows[..i]) + [HitOf(matches, mode, rows[i])];
    HitsGrow(AllHits(matches, mode, rows[..i]), HitOf(matches, mode, rows[i]));
  }

  /** What has been charged so far, as a listing. */
  ghost predicate Spending(budget: Budget, x: Listing<Piece>, pieces: seq<Piece>, left: nat, before: bool)
    reads budget
  {
    && x.Listing? && pieces == x.rows && budget.left == left - x.spent && budget.exhausted == (before || x.stopped)
  }

  /** The matching lines of one item, as far as they fit, onto a hit whose header was just charged. */
  method HitLines(matches: string -> bool, row: GrepRow, size: Piece -> nat, budget: Budget, ghost earlier: seq<Piece>,
                  ghost purse: int,
                  ghost had: seq<Piece>, ghost left: nat)
    returns (hit: GrepHit)
    requires !budget.exhausted && purse == left
    requires Spending(budget, Charged(size, earlier + [Header(row.uid, row.kind)], purse),
                      had + [Header(row.uid, row.kind)], left, false)
    modifies budget
    ensures Spending(budget, Charged(size, earlier + HitPieces(HitOf(matches, Lines, row)), purse),
                     had + HitPieces(hit), left, false)
  {
    hide Charged;
    hit := GrepHit(row.uid, row.kind, []);
    var i := 0;
    assert HitPieces(hit) == [Header(row.uid, row.kind)];
    ghost var whole := hit;
    while i < |row.content|
      invariant i <= |row.content| && !budget.exhausted
      invariant whole == GrepHit(row.uid, row.kind, Matching(matches, row.content[..i]))
      invariant Spending(budget, Charged(size, earlier + HitPieces(whole), purse), had + HitPieces(hit), left, false)
    {
      var text := row.content[i];
      assert row.content[..i + 1][..i] == row.content[..i];
      if matches(text) {
        var line := GrepLine(i + 1, text);
        HitPiecesGrow(whole, line);
        HitPiecesGrow(hit, line);
        OneMorePiece(size, earlier + HitPieces(whole), Line(line), purse);
        assert earlier + HitPieces(whole) + [Line(line)] == earlier + (HitPieces(whole) + [Line(line)]);
        assert had + HitPieces(hit) + [Line(line)] == had + (HitPieces(hit) + [Line(line)]);
        whole := whole.(lines := whole.lines + [line]);
        var fits := budget.Take(size(Line(line)));
        if !fits {
          MatchingGrows(matches, row.content, i + 1);
          LaterLines(size, earlier, whole, HitOf(matches, Lines, row), purse);
          return;
        }
        hit := hit.(lines := hit.lines + [line]);
      }
      i := i + 1;
    }
    assert row.content[..i] == row.content;
  }

  lemma {:induction false} MatchingGrows(matches: string -> bool, content: seq<string>, i: nat)
    requires i <= |content|
    ensures Matching(matches, content[..i]) <= Matching(matches, content)
    decreases |content|
  {
    if i < |content| {
      var last := |content| - 1;
      MatchingGrows(matches, content[..last], i);
      assert content[..last][..i] == content[..i];
    } else {
      assert content[..i] == content;
    }
  }

  lemma LaterLines(size: Piece -> nat, earlier: seq<Piece>, some: GrepHit, whole: GrepHit, purse: int)
    requires some.uid == whole.uid && some.kind == whole.kind && some.lines <= whole.lines
    requires var x := Charged(size, earlier + HitPieces(some), purse); x.Listing? && x.stopped
    ensures Charged(size, earlier + HitPieces(whole), purse) == Charged(size, earlier + HitPieces(some), purse)
  {
    var rest := LinePieces(whole.lines[|some.lines|..]);
    assert LinePieces(whole.lines) == LinePieces(some.lines) + rest;
    assert earlier + HitPieces(whole) == earlier + HitPieces(some) + rest;
    StoppedStays(size, earlier + HitPieces(some), rest, purse);
  }

  /** The pattern as a test of one line. */
  function Needle(fold: string -> string, pattern: string, ignoreCase: bool): string -> bool {
    (text: string) => Matches(fold, pattern, ignoreCase, text)
  }

  /** `kb.grep`: of the unlimited hits the pieces that fit, and a count of every item whatever the budget. */
  method Grep(
    rows: Result<seq<GrepRow>, ReadError>, fold: string -> string, pattern: string, ignoreCase: bool, mode: GrepMode,
    size: Piece -> nat, budget: Budget)
    returns (r: Result<GrepAnswer, ReadError>)
    modifies budget
    ensures pattern == "" ==> r == Err(Invalid) && unchanged(budget)
    ensures pattern != "" && rows.Err? ==> r == Err(rows.error)
    ensures pattern != "" && rows.Ok? ==>
              && r.Ok? && r.value.count == |rows.value| && r.value.truncated == budget.exhausted
              && Spending(budget,
                          Charged(size, Pieces(AllHits(Needle(fold, pattern, ignoreCase), mode, rows.value)),
                                  old(budget.Purse())),
                          Pieces(r.value.hits), old(budget.left), old(budget.exhausted))
  {
    if pattern == "" {
      return Err(Invalid);
    }
    match rows {
      case Err(e) => return Err(e);
      case Ok(found) =>
        var hits, count := Collect(Needle(fold, pattern, ignoreCase), mode, found, size, budget);
        return Ok(GrepAnswer(hits, count, budget.exhausted));
    }
  }

  method Collect(matches: string -> bool, mode: GrepMode, rows: seq<GrepRow>, size: Piece -> nat, budget: Budget)
    returns (hits: seq<GrepHit>, count: nat)
    modifies budget
    ensures count == |rows|
    ensures Spending(budget, Charged(size, Pieces(AllHits(matches, mode, rows)), old(budget.Purse())), Pieces(hits),
                     old(budget.left), old(budget.exhausted))
  {
    hide Pieces, HitPieces;
    hits, count := [], 0;
    ghost var purse, left0, before := budget.Purse(), budget.left, budget.exhausted;
    NoPieces(matches, mode, rows, size, purse);
    while count < |rows|
      invariant count <= |rows|
      invariant Spending(budget, Charged(size, Pieces(AllHits(matches, mode, rows[..count])), purse), Pieces(hits),
                         left0, before)
    {
      var row := rows[count];
      ghost var earlier, whole := Pieces(AllHits(matches, mode, rows[..count])), HitOf(matches, mode, row);
      count := count + 1;
      if mode == Count {
        assert AllHits(matches, mode, rows[..count]) == AllHits(matches, mode, rows[..count - 1]);
        continue;
      }
      OneMoreRow(matches, mode, rows, count - 1);
      OneMorePiece(size, earlier, Header(row.uid, row.kind), purse);
      var fits := budget.Take(size(Header(row.uid, row.kind)));
      if !fits {
        LaterPieces(size, earlier, whole, row, purse);
        continue;
      }
      var hit := GrepHit(row.uid, row.kind, []);
      if mode == Lines {
        hit := HitLines(matches, row, size, budget, earlier, purse, Pieces(hits), left0);
      } else {
        OnlyHeader(hit, matches, mode, row);
      }
      HitsGrow(hits, hit);
      hits := hits + [hit];
    }
    assert rows[..count] == rows;
  }

  lemma NoPieces(matches: string -> bool, mode: GrepMode, rows: seq<GrepRow>, size: Piece -> nat, purse: int)
    ensures Pieces(AllHits(matches, mode, rows[..0])) == [] == Pieces([])
    ensures Charged(size, [], purse) == Listing([], 0, false)
  {
    assert AllHits(matches, mode, rows[..0]) == [];
  }

  lemma OnlyHeader(hit: GrepHit, matches: string -> bool, mode: GrepMode, row: GrepRow)
    requires mode == Names && hit == GrepHit(row.uid, row.kind, [])
    ensures HitOf(matches, mode, row) == hit && HitPieces(hit) == [Header(row.uid, row.kind)]
  {
  }

  /** A header that did not fit drops its whole hit. */
  lemma LaterPieces(size: Piece -> nat, earlier: seq<Piece>, whole: GrepHit, row: GrepRow, purse: int)
    requires whole.uid == row.uid && whole.kind == row.kind
    requires var x := Charged(size, earlier + [Header(row.uid, row.kind)], purse); x.Listing? && x.stopped
    ensures Charged(size, earlier + HitPieces(whole), purse)
            == Charged(size, earlier + [Header(row.uid, row.kind)], purse)
  {
    assert earlier + HitPieces(whole) == earlier + [Header(row.uid, row.kind)] + LinePieces(whole.lines);
    StoppedStays(size, earlier + [Header(row.uid, row.kind)], LinePieces(whole.lines), purse);
  }

  lemma {:induction false} PiecesFront(hits: seq<GrepHit>)
    requires hits != []
    ensures Pieces(hits) == HitPieces(hits[0]) + Pieces(hits[1..])
  {
    hide HitPieces;
    var last := |hits| - 1;
    if last == 0 {
      assert hits[..last] == [] == hits[1..];
    } else {
      PiecesFront(hits[..last]);
      assert hits[1..][..last - 1] == hits[..last][1..];
      assert hits[1..][last - 1] == hits[last];
      assert Pieces(hits[1..]) == Pieces(hits[..last][1..]) + HitPieces(hits[last]);
    }
  }

  /** Whether `hits` are the first of `all`, the last of them perhaps with only its first lines. */
  predicate FirstHits(hits: seq<GrepHit>, all: seq<GrepHit>) {
    && |hits| <= |all|
    && (forall i :: 0 <= i < |hits| - 1 ==> hits[i] == all[i])
    && (hits != [] ==>
          var h, a := hits[|hits| - 1], all[|hits| - 1];
          h.uid == a.uid && h.kind == a.kind && h.lines <= a.lines)
  }

  lemma SameFirstHit(x: GrepHit, t: seq<Piece>, y: GrepHit, u: seq<Piece>)
    requires HitPieces(x) + t <= HitPieces(y) + u
    requires (t != [] ==> t[0].Header?) && (u != [] ==> u[0].Header?)
    ensures x.uid == y.uid && x.kind == y.kind && x.lines <= y.lines
    ensures t != [] || |x.lines| == |y.lines| ==> x == y && t <= u
  {
    var a, b := HitPieces(x) + t, HitPieces(y) + u;
    var n, m := |x.lines|, |y.lines|;
    var k := if m < n then m else n;
    assert a[0] == b[0];
    assert 1 + k < |a| ==> a[1 + k] == b[1 + k];
    ItsLines(x, t);
    ItsLines(y, u);
    forall i | 0 <= i < k
      ensures x.lines[i] == y.lines[i]
    {
      assert a[1 + i] == b[1 + i];
    }
    assert n == m ==> a[1 + n..] == t && b[1 + n..] == u;
  }

  lemma ItsLines(x: GrepHit, t: seq<Piece>)
    ensures var a := HitPieces(x) + t;
            && (forall i :: 0 <= i < |x.lines| ==> a[1 + i] == Line(x.lines[i]))
            && (t != [] ==> a[1 + |x.lines|] == t[0])
  {
  }

  /** A prefix of the pieces is a prefix of the hits: pieces say which hit they belong to. */
  lemma {:induction false} PrefixOfPieces(hits: seq<GrepHit>, all: seq<GrepHit>)
    requires Pieces(hits) <= Pieces(all)
    ensures FirstHits(hits, all)
    ensures Pieces(hits) == Pieces(all) ==> hits == all
  {
    if hits != [] {
      PiecesFront(hits);
      if all != [] {
        PiecesFront(all);
        HeaderLeads(hits[1..]);
        HeaderLeads(all[1..]);
        SameFirstHit(hits[0], Pieces(hits[1..]), all[0], Pieces(all[1..]));
        if hits[0] == all[0] {
          PrefixOfPieces(hits[1..], all[1..]);
        }
      }
    } else if all != [] {
      PiecesFront(all);
    }
  }

  lemma HeaderLeads(hits: seq<GrepHit>)
    ensures hits == [] <==> Pieces(hits) == []
    ensures hits != [] ==> Pieces(hits)[0].Header?
  {
    if hits != [] {
      PiecesFront(hits);
    }
  }

  /** The hits that fit a budget are the first of the unlimited ones, and the budget stopped exactly when something of
      them was dropped. */
  lemma GrepIsAPrefix(size: Piece -> nat, hits: seq<GrepHit>, all: seq<GrepHit>, purse: int)
    requires Charged(size, Pieces(all), purse).Listing? && Charged(size, Pieces(all), purse).rows == Pieces(hits)
    ensures FirstHits(hits, all)
    ensures Charged(size, Pieces(all), purse).stopped <==> hits != all
  {
    ListingIsAPrefix(size, Reads(Pieces(all)), purse);
    ReadsPrefix(Pieces(hits), Pieces(all));
    PrefixOfPieces(hits, all);
  }

  lemma ReadsPrefix<T>(a: seq<T>, b: seq<T>)
    requires Reads(a) <= Reads(b)
    ensures a <= b
  {
    forall i | 0 <= i < |a|
      ensures a[i] == b[i]
    {
      assert Reads(a)[i] == Reads(b)[i];
    }
  }
}
