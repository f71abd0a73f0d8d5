/** findTree as a whole: the linked nodes show the forest of the list, and a search prunes it. */
module CategorySearch {
  import opened Prelude
  import opened Ancestry
  import opened CategoryTree
  import opened CategoryTreeProofs

  // ---------------------------------------------------------------- what linked nodes show

  /** Following the children of the node, within the given objects, gives the tree. */
  ghost predicate Shows(objects: set<TreeNode>, node: TreeNode, t: Tree)
    reads objects
    decreases t
  {
    && node in objects && node.item == t.item && |node.children| == |t.children|
    && forall i :: 0 <= i < |t.children| ==> Shows(objects, node.children[i], t.children[i])
  }

  lemma ChainOfChild(list: seq<Item>, c: Id, d: Id, k: nat)
    requires DistinctIds(list) && c in IdsOf(list) && Ends(Links(list), c) && d in ChildIds(list, c)
    requires forall i: nat :: i <= k ==> Walk(Links(list), c, i).Some?
    ensures d in IdsOf(list) && Ends(Links(list), d)
    ensures forall i: nat :: i <= k + 1 ==> Walk(Links(list), d, i).Some?
  {
    LinkOfChild(list, c, d);
    EndsThrough(Links(list), d, 1, c);
    forall i: nat | i <= k + 1 ensures Walk(Links(list), d, i).Some? {
      if i > 0 {
        WalkAdd(Links(list), d, 1, i - 1);
      }
    }
  }

  /** Rows of the list whose chains end, at depth k or deeper. */
  ghost predicate Deep(list: seq<Item>, c: Id, k: nat) {
    c in IdsOf(list) && Ends(Links(list), c) && forall i: nat :: i <= k ==> Walk(Links(list), c, i).Some?
  }

  lemma ChildIsDeeper(list: seq<Item>, c: Id, d: Id, k: nat)
    requires DistinctIds(list) && Deep(list, c, k) && d in ChildIds(list, c)
    ensures Deep(list, d, k + 1) && k + 1 < |list|
  {
    ChainOfChild(list, c, d, k);
    ChainIsShort(list, d, k + 1);
  }

  lemma NodeHolds(nodes: Nodes, list: seq<Item>, c: Id, levels: nat)
    requires DistinctIds(list) && NodesFor(nodes, list) && AllHaveChildren(nodes, list) && c in IdsOf(list)
    requires levels == 0 ==> ChildIds(list, c) == []
    ensures var t, ks := TreeAt(list, c, levels), ChildIds(list, c);
      && nodes[c] in Objects(nodes) && nodes[c].item == t.item && |nodes[c].children| == |t.children| == |ks|
      && forall i :: 0 <= i < |ks| ==>
           ks[i] in IdsOf(list) && nodes[c].children[i] == nodes[ks[i]]
           && t.children[i] == TreeAt(list, ks[i], levels - 1)
  {
    hide ChildIds;
    assert HasChildren(nodes, list, c);
    var j :| 0 <= j < |list| && list[j] == ItemOf(list, c);
    assert nodes[list[j].id].item == list[j];
    ChildrenListed(list, c);
  }

  /** The node of a row whose chain ends shows the tree of the row, if enough levels are allowed below its depth k. */
  lemma {:induction false} NodeShowsTree(nodes: Nodes, list: seq<Item>, c: Id, levels: nat, k: nat)
    requires DistinctIds(list) && NodesFor(nodes, list) && AllHaveChildren(nodes, list)
    requires Deep(list, c, k) && levels + k + 1 >= |list|
    ensures Shows(Objects(nodes), nodes[c], TreeAt(list, c, levels))
    decreases levels
  {
    hide ChildIds, TreeAt, AllHaveChildren, Walk, Links, Ends;
    var ks := ChildIds(list, c);
    forall i | 0 <= i < |ks| ensures Deep(list, ks[i], k + 1) && k + 1 < |list| {
      assert ks[i] in ks;
      ChildIsDeeper(list, c, ks[i], k);
    }
    assert ks != [] ==> Deep(list, ks[0], k + 1) && k + 1 < |list|;
    NodeHolds(nodes, list, c, levels);
    forall i | 0 <= i < |ks| ensures Shows(Objects(nodes), nodes[ks[i]], TreeAt(list, ks[i], levels - 1)) {
      NodeShowsTree(nodes, list, ks[i], levels - 1, k + 1);
    }
  }

  // ---------------------------------------------------------------- pruning

  function Prune(matches: string -> bool, t: Tree): Option<Tree>
    decreases t, 1
  {
    var children := PruneAll(matches, t.children);
    if matches(t.item.name) || children != [] then Some(Tree(t.item, children)) else None
  }

  function PruneAll(matches: string -> bool, ts: seq<Tree>): seq<Tree>
    decreases ts, 0
  {
    if ts == [] then []
    else
      match Prune(matches, ts[0])
      case None => PruneAll(matches, ts[1..])
      case Some(t) => [t] + PruneAll(matches, ts[1..])
  }

  /** The node or one of its descendants matches. */
  ghost predicate HasMatch(matches: string -> bool, t: Tree)
    decreases t
  {
    matches(t.item.name) || exists i :: 0 <= i < |t.children| && HasMatch(matches, t.children[i])
  }

  datatype Place = Place(parent: Option<Id>, tree: Tree)

  /** The subtrees of a tree and the ids of their parents, node before children. */
  function Places(parent: Option<Id>, t: Tree): seq<Place>
    decreases t, 1
  {
    [Place(parent, t)] + AllPlaces(Some(t.item.id), t.children)
  }

  function AllPlaces(parent: Option<Id>, ts: seq<Tree>): seq<Place>
    decreases ts, 0
  {
    if ts == [] then [] else Places(parent, ts[0]) + AllPlaces(parent, ts[1..])
  }

  lemma {:induction false} AllPlacesAre(parent: Option<Id>, ts: seq<Tree>, p: Place)
    requires p in AllPlaces(parent, ts)
    ensures exists i :: 0 <= i < |ts| && p in Places(parent, ts[i])
    decreases |ts|
  {
    if p in Places(parent, ts[0]) {
      assert p in Places(parent, ts[0]);
    } else {
      AllPlacesAre(parent, ts[1..], p);
      var i :| 0 <= i < |ts[1..]| && p in Places(parent, ts[1..][i]);
      assert p in Places(parent, ts[i + 1]);
    }
  }

  lemma PlacesOfTree(list: seq<Item>, c: Id, levels: nat, parent: Option<Id>, p: Place)
    requires c in IdsOf(list) && p in Places(parent, TreeAt(list, c, levels))
    ensures (p.parent == parent && p.tree.item == ItemOf(list, c))
      || (levels > 0 && exists d :: d in ChildIds(list, c) && d in IdsOf(list)
                                    && p in Places(Some(c), TreeAt(list, d, levels - 1)))
  {
    hide ChildIds;
    var t, ks := TreeAt(list, c, levels), ChildIds(list, c);
    ChildrenListed(list, c);
    if p in AllPlaces(Some(c), t.children) {
      AllPlacesAre(Some(c), t.children, p);
      var i :| 0 <= i < |t.children| && p in Places(Some(c), t.children[i]);
      assert ks[i] in ks && t.children[i] == TreeAt(list, ks[i], levels - 1);
    }
  }

  /** Every place in the tree of a row is under the parent that the list gives it. */
  lemma {:induction false} PlacedUnderParent(list: seq<Item>, c: Id, levels: nat, p: Place)
    requires DistinctIds(list) && c in IdsOf(list)
    requires p in Places(Links(list)[c], TreeAt(list, c, levels))
    ensures p.tree.item in list && p.parent == Links(list)[p.tree.item.id]
    decreases levels
  {
    hide Links, ChildIds, IsRoot, TreeAt, Places;
    PlacesOfTree(list, c, levels, Links(list)[c], p);
    if !(p.parent == Links(list)[c] && p.tree.item == ItemOf(list, c)) {
      var d :| d in ChildIds(list, c) && d in IdsOf(list) && p in Places(Some(c), TreeAt(list, d, levels - 1));
      ChildIffLink(list, c, d);
      PlacedUnderParent(list, d, levels - 1, p);
    }
  }

  /** In the forest, every row is under its listed parent, or a root if the list does not hold that parent. */
  lemma ForestPlaces(list: seq<Item>, p: Place)
    requires DistinctIds(list) && p in AllPlaces(None, Forest(list))
    ensures p.tree.item in list
    ensures p.parent == if IsRoot(IdsOf(list), p.tree.item) then None else p.tree.item.parentId
  {
    hide RootIds;
    var rs := RootIds(IdsOf(list), list);
    RootsListed(list);
    AllPlacesAre(None, Forest(list), p);
    var i :| 0 <= i < |Forest(list)| && p in Places(None, Forest(list)[i]);
    RootIffLink(list, rs[i]);
    PlacedUnderParent(list, rs[i], |list|, p);
    var j :| 0 <= j < |list| && list[j] == p.tree.item;
    ItemAt(list, j);
  }

  datatype Entry = Entry(parent: Option<Id>, item: Item)

  function Entries(ps: seq<Place>): seq<Entry> {
    seq(|ps|, i requires 0 <= i < |ps| => Entry(ps[i].parent, ps[i].tree.item))
  }

  /** The places with a match at or below them, in order. */
  ghost function Kept(matches: string -> bool, ps: seq<Place>): seq<Place> {
    if ps == [] then []
    else if HasMatch(matches, ps[0].tree) then [ps[0]] + Kept(matches, ps[1..])
    else Kept(matches, ps[1..])
  }

  lemma {:induction false} KeptAppend(matches: string -> bool, a: seq<Place>, b: seq<Place>)
    ensures Kept(matches, a + b) == Kept(matches, a) + Kept(matches, b)
    decreases |a|
  {
    if a == [] {
      assert a + b == b;
    } else {
      KeptAppend(matches, a[1..], b);
      assert (a + b)[1..] == a[1..] + b;
    }
  }

  lemma EntriesAppend(a: seq<Place>, b: seq<Place>)
    ensures Entries(a + b) == Entries(a) + Entries(b)
  {
  }

  lemma {:induction false} PrunedIffMatch(matches: string -> bool, t: Tree)
    ensures Prune(matches, t).Some? <==> HasMatch(matches, t)
    decreases t, 1
  {
    PrunedAllIffMatch(matches, t.children);
  }

  lemma {:induction false} PrunedAllIffMatch(matches: string -> bool, ts: seq<Tree>)
    ensures PruneAll(matches, ts) != [] <==> exists i :: 0 <= i < |ts| && HasMatch(matches, ts[i])
    decreases ts, 0
  {
    if ts != [] {
      PrunedIffMatch(matches, ts[0]);
      PrunedAllIffMatch(matches, ts[1..]);
      if i :| 0 <= i < |ts[1..]| && HasMatch(matches, ts[1..][i]) {
        assert HasMatch(matches, ts[i + 1]);
      }
      if i :| 0 <= i < |ts| && HasMatch(matches, ts[i]) {
        if i > 0 {
          assert HasMatch(matches, ts[1..][i - 1]);
        }
      }
    }
  }

  /** Nothing is kept of a tree without a match. */
  lemma {:induction false} NothingKept(matches: string -> bool, parent: Option<Id>, t: Tree)
    requires !HasMatch(matches, t)
    ensures Kept(matches, Places(parent, t)) == []
    decreases t, 1
  {
    NothingKeptOfAll(matches, Some(t.item.id), t.children);
    assert Places(parent, t)[1..] == AllPlaces(Some(t.item.id), t.children);
  }

  lemma {:induction false} NothingKeptOfAll(matches: string -> bool, parent: Option<Id>, ts: seq<Tree>)
    requires forall i :: 0 <= i < |ts| ==> !HasMatch(matches, ts[i])
    ensures Kept(matches, AllPlaces(parent, ts)) == []
    decreases ts, 0
  {
    if ts != [] {
      NothingKept(matches, parent, ts[0]);
      NothingKeptOfAll(matches, parent, ts[1..]);
      KeptAppend(matches, Places(parent, ts[0]), AllPlaces(parent, ts[1..]));
    }
  }

  /**
   Pruning a forest keeps exactly the nodes that match or have a matching descendant,
   in order, each under the parent it had.
   */
  lemma {:induction false} PruneKeepsMatches(matches: string -> bool, parent: Option<Id>, ts: seq<Tree>)
    ensures Entries(AllPlaces(parent, PruneAll(matches, ts))) == Entries(Kept(matches, AllPlaces(parent, ts)))
    decreases ts, 0
  {
    if ts != [] {
      var t, rest := ts[0], ts[1..];
      PruneKeepsMatches(matches, parent, rest);
      KeptAppend(matches, Places(parent, t), AllPlaces(parent, rest));
      PrunedIffMatch(matches, t);
      if HasMatch(matches, t) {
        PruneKeepsMatchesOf(matches, parent, t);
        var t', rest' := Prune(matches, t).value, PruneAll(matches, rest);
        assert ([t'] + rest')[1..] == rest';
        EntriesAppend(Places(parent, t'), AllPlaces(parent, rest'));
        EntriesAppend(Kept(matches, Places(parent, t)), Kept(matches, AllPlaces(parent, rest)));
      } else {
        NothingKept(matches, parent, t);
      }
    }
  }

  lemma {:induction false} PruneKeepsMatchesOf(matches: string -> bool, parent: Option<Id>, t: Tree)
    requires Prune(matches, t).Some? && HasMatch(matches, t)
    ensures Entries(Places(parent, Prune(matches, t).value)) == Entries(Kept(matches, Places(parent, t)))
    decreases t, 1
  {
    var t', self := Prune(matches, t).value, Some(t.item.id);
    PruneKeepsMatches(matches, self, t.children);
    assert Places(parent, t)[1..] == AllPlaces(self, t.children);
    EntriesAppend([Place(parent, t')], AllPlaces(self, t'.children));
    EntriesAppend([Place(parent, t)], Kept(matches, AllPlaces(self, t.children)));
  }

  // ---------------------------------------------------------------- findTree

  ghost predicate AllShow(objects: set<TreeNode>, nodes: seq<TreeNode>, ts: seq<Tree>)
    reads objects
  {
    |nodes| == |ts| && forall i :: 0 <= i < |ts| ==> Shows(objects, nodes[i], ts[i])
  }

  /** The tree that a node shows, as it is sent to the client. */
  method ReadNode(ghost objects: set<TreeNode>, node: TreeNode, ghost t: Tree) returns (r: Tree)
    requires Shows(objects, node, t)
    ensures r == t
    decreases t, 1
  {
    var children := ReadNodes(objects, node.children, t.children);
    r := Tree(node.item, children);
  }

  method ReadNodes(ghost objects: set<TreeNode>, nodes: seq<TreeNode>, ghost ts: seq<Tree>) returns (r: seq<Tree>)
    requires AllShow(objects, nodes, ts)
    ensures r == ts
    decreases ts, 0
  {
    r := [];
    for i := 0 to |nodes|
      invariant r == ts[..i]
    {
      var t := ReadNode(objects, nodes[i], ts[i]);
      r := r + [t];
    }
  }

  lemma {:induction false} PruneAllSnoc(matches: string -> bool, ts: seq<Tree>, t: Tree)
    ensures PruneAll(matches, ts + [t]) ==
      PruneAll(matches, ts) + (match Prune(matches, t) case None => [] case Some(t') => [t'])
    decreases |ts|
  {
    if ts == [] {
      assert (ts + [t])[1..] == [];
    } else {
      PruneAllSnoc(matches, ts[1..], t);
      assert (ts + [t])[1..] == ts[1..] + [t];
    }
  }

  /** prune: the pruned copy of a node, or nothing. */
  method PruneNode(ghost objects: set<TreeNode>, node: TreeNode, matches: string -> bool, ghost t: Tree)
    returns (r: Option<Tree>)
    requires Shows(objects, node, t)
    ensures r == Prune(matches, t)
    decreases t, 1
  {
    var children := PruneNodes(objects, node.children, matches, t.children);
    if matches(node.item.name) || children != [] {
      return Some(Tree(node.item, children));
    }
    return None;
  }

  /** Mapping prune over nodes and dropping the empty results. */
  method PruneNodes(ghost objects: set<TreeNode>, nodes: seq<TreeNode>, matches: string -> bool, ghost ts: seq<Tree>)
    returns (r: seq<Tree>)
    requires AllShow(objects, nodes, ts)
    ensures r == PruneAll(matches, ts)
    decreases ts, 0
  {
    r := [];
    for i := 0 to |nodes|
      invariant r == PruneAll(matches, ts[..i])
    {
      var t := PruneNode(objects, nodes[i], matches, ts[i]);
      assert ts[..i + 1] == ts[..i] + [ts[i]];
      PruneAllSnoc(matches, ts[..i], ts[i]);
      if t.Some? {
        r := r + [t.value];
      }
    }
    assert ts[..|ts|] == ts;
  }

  lemma ForestShown(nodes: Nodes, list: seq<Item>, roots: seq<TreeNode>)
    requires DistinctIds(list) && NodesFor(nodes, list) && AllHaveChildren(nodes, list)
    requires Covers(nodes, RootIds(IdsOf(list), list)) && roots == At(nodes, RootIds(IdsOf(list), list))
    ensures AllShow(Objects(nodes), roots, Forest(list))
  {
    hide Links, RootIds, TreeAt, Shows, AllHaveChildren;
    var rs := RootIds(IdsOf(list), list);
    RootsListed(list);
    forall i | 0 <= i < |rs| ensures Shows(Objects(nodes), roots[i], Forest(list)[i]) {
      RootEnds(list, rs[i]);
      assert Walk(Links(list), rs[i], 0) == Some(rs[i]);
      NodeShowsTree(nodes, list, rs[i], |list|, 0);
    }
  }

  /** findTree after the query: the forest of the list, pruned if there is a search. */
  method FindTree(list: seq<Item>, search: Option<string -> bool>) returns (forest: seq<Tree>)
    requires DistinctIds(list)
    ensures forest == match search case None => Forest(list) case Some(matches) => PruneAll(matches, Forest(list))
  {
    hide RootIds, AllHaveChildren, Forest, Shows, PruneAll;
    var nodes := CreateNodes(list);
    var roots := LinkNodes(nodes, list);
    ForestShown(nodes, list, roots);
    match search {
      case None => forest := ReadNodes(Objects(nodes), roots, Forest(list));
      case Some(matches) => forest := PruneNodes(Objects(nodes), roots, matches, Forest(list));
    }
  }
}
