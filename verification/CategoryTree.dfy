/**
 The category tree: nodes are linked in place from a flat list and then, for a search, pruned.
 The list is any list of rows with distinct ids; its parent links may dangle or even form cycles.
 */
module CategoryTree {
  import opened Prelude
  import opened Ancestry

  datatype Item = Item(id: Id, parentId: Option<Id>, name: string)

  datatype Tree = Tree(item: Item, children: seq<Tree>)

  predicate DistinctIds(list: seq<Item>) {
    forall i, j :: 0 <= i < j < |list| ==> list[i].id != list[j].id
  }

  function IdsOf(list: seq<Item>): set<Id> {
    set i | 0 <= i < |list| :: list[i].id
  }

  /** The node is put under no other node of the list. */
  predicate IsRoot(ids: set<Id>, item: Item) {
    item.parentId.None? || item.parentId.value !in ids
  }

  /** The ids of the items listed under the given id, in list order. */
  function ChildIds(list: seq<Item>, id: Id): seq<Id> {
    if list == [] then []
    else
      var rest, last := list[..|list| - 1], list[|list| - 1];
      if last.parentId == Some(id) then ChildIds(rest, id) + [last.id] else ChildIds(rest, id)
  }

  /** The ids of the items that are not put under another, in list order. */
  function RootIds(ids: set<Id>, list: seq<Item>): seq<Id> {
    if list == [] then []
    else
      var rest, last := list[..|list| - 1], list[|list| - 1];
      if IsRoot(ids, last) then RootIds(ids, rest) + [last.id] else RootIds(ids, rest)
  }

  lemma {:induction false} ChildIdsAre(list: seq<Item>, id: Id, x: Id)
    ensures x in ChildIds(list, id) <==> exists i :: 0 <= i < |list| && list[i].id == x && list[i].parentId == Some(id)
    decreases |list|
  {
    if list != [] {
      var rest, last := list[..|list| - 1], list[|list| - 1];
      ChildIdsAre(rest, id, x);
      assert forall i :: 0 <= i < |list| ==> if i < |rest| then list[i] == rest[i] else list[i] == last;
    }
  }

  lemma {:induction false} RootIdsAre(ids: set<Id>, list: seq<Item>, x: Id)
    ensures x in RootIds(ids, list) <==> exists i :: 0 <= i < |list| && list[i].id == x && IsRoot(ids, list[i])
    decreases |list|
  {
    if list != [] {
      var rest, last := list[..|list| - 1], list[|list| - 1];
      RootIdsAre(ids, rest, x);
      assert forall i :: 0 <= i < |list| ==> if i < |rest| then list[i] == rest[i] else list[i] == last;
    }
  }

  /** The ids are those of exactly the items that are picked, in the order of the list. */
  ghost predicate InListOrder(list: seq<Item>, picked: Item -> bool, ids: seq<Id>, at: seq<nat>) {
    && |at| == |ids|
    && (forall j :: 0 <= j < |at| ==> at[j] < |list| && list[at[j]].id == ids[j])
    && (forall i, j :: 0 <= i < j < |at| ==> at[i] < at[j])
    && (forall i :: 0 <= i < |list| ==> (i in at <==> picked(list[i])))
  }

  lemma OrderNext(list: seq<Item>, picked: Item -> bool, ids: seq<Id>, at: seq<nat>)
    requires list != [] && InListOrder(list[..|list| - 1], picked, ids, at)
    ensures var n := |list| - 1;
      if picked(list[n]) then InListOrder(list, picked, ids + [list[n].id], at + [n])
      else InListOrder(list, picked, ids, at)
  {
    var n := |list| - 1;
    assert forall i :: 0 <= i < n ==> list[..n][i] == list[i];
    assert forall j :: 0 <= j < |at| ==> at[j] < n;
    if picked(list[n]) {
      assert forall i :: i in at + [n] <==> i in at || i == n;
    } else {
      assert n !in at;
    }
  }

  /** The children of an item are the items listed under it, in the order of the list. */
  lemma {:induction false} ChildrenInOrder(list: seq<Item>, id: Id) returns (at: seq<nat>)
    ensures InListOrder(list, (item: Item) => item.parentId == Some(id), ChildIds(list, id), at)
    decreases |list|
  {
    hide InListOrder;
    if list == [] {
      at := [];
      NothingInOrder((item: Item) => item.parentId == Some(id));
    } else {
      var n := |list| - 1;
      at := ChildrenInOrder(list[..n], id);
      OrderNext(list, (item: Item) => item.parentId == Some(id), ChildIds(list[..n], id), at);
      at := if list[n].parentId == Some(id) then at + [n] else at;
    }
  }

  lemma NothingInOrder(picked: Item -> bool)
    ensures InListOrder([], picked, [], [])
  {
  }

  /** The roots are the items whose parent is not listed, in the order of the list. */
  lemma {:induction false} RootsInOrder(ids: set<Id>, list: seq<Item>) returns (at: seq<nat>)
    ensures InListOrder(list, (item: Item) => item.parentId.None? || item.parentId.value !in ids,
                        RootIds(ids, list), at)
    decreases |list|
  {
    hide InListOrder;
    var picked := (item: Item) => item.parentId.None? || item.parentId.value !in ids;
    if list == [] {
      at := [];
      NothingInOrder(picked);
    } else {
      var n := |list| - 1;
      at := RootsInOrder(ids, list[..n]);
      OrderNext(list, picked, RootIds(ids, list[..n]), at);
      at := if IsRoot(ids, list[n]) then at + [n] else at;
    }
  }

  // ---------------------------------------------------------------- linking nodes in place

  class TreeNode {
    const item: Item
    var children: seq<TreeNode>

    constructor (item: Item)
      ensures this.item == item && children == []
    {
      this.item, this.children := item, [];
    }
  }

  type Nodes = map<Id, TreeNode>

  ghost predicate Covers(nodes: Nodes, ids: seq<Id>) {
    forall i :: 0 <= i < |ids| ==> ids[i] in nodes
  }

  ghost function At(nodes: Nodes, ids: seq<Id>): seq<TreeNode>
    requires Covers(nodes, ids)
  {
    seq(|ids|, i requires 0 <= i < |ids| => nodes[ids[i]])
  }

  ghost function Objects(nodes: Nodes): set<TreeNode> {
    set id | id in nodes :: nodes[id]
  }

  /** Every row of the list has its node, and no two rows share one. */
  ghost predicate NodesFor(nodes: Nodes, list: seq<Item>) {
    && nodes.Keys == IdsOf(list)
    && (forall i :: 0 <= i < |list| ==> list[i].id in nodes && nodes[list[i].id].item == list[i])
    && (forall id :: id in nodes ==> nodes[id].item.id == id)
  }

  /** The first loop of findTree. */
  method CreateNodes(list: seq<Item>) returns (nodes: Nodes)
    requires DistinctIds(list)
    ensures NodesFor(nodes, list) && fresh(Objects(nodes))
    ensures forall id :: id in nodes ==> nodes[id].children == []
  {
    nodes := map[];
    for i := 0 to |list|
      invariant NodesFor(nodes, list[..i]) && fresh(Objects(nodes))
      invariant forall id :: id in nodes ==> nodes[id].children == []
    {
      assert list[..i + 1] == list[..i] + [list[i]];
      ghost var before := nodes;
      var node := new TreeNode(list[i]);
      nodes := nodes[list[i].id := node];
      assert Objects(nodes) <= Objects(before) + {node};
    }
    assert list[..|list|] == list;
  }

  /** Node id holds, in order, the nodes of the rows listed under it. */
  ghost predicate HasChildren(nodes: Nodes, list: seq<Item>, id: Id)
    requires id in nodes
    reads nodes[id]
  {
    Covers(nodes, ChildIds(list, id)) && nodes[id].children == At(nodes, ChildIds(list, id))
  }

  ghost predicate AllHaveChildren(nodes: Nodes, list: seq<Item>)
    reads Objects(nodes)
  {
    forall id :: id in nodes ==> HasChildren(nodes, list, id)
  }

  lemma RootIdsSnoc(ids: set<Id>, list: seq<Item>, item: Item)
    ensures RootIds(ids, list + [item]) == RootIds(ids, list) + (if IsRoot(ids, item) then [item.id] else [])
  {
    assert (list + [item])[..|list|] == list;
  }

  /** Pushing one node to its parent. */
  method PushNode(nodes: Nodes, ghost before: seq<Item>, category: Item)
    requires AllHaveChildren(nodes, before) && category.id in nodes
    requires forall id :: id in nodes ==> nodes[id].item.id == id
    requires category.parentId.Some? && category.parentId.value in nodes
    modifies nodes[category.parentId.value]
    ensures AllHaveChildren(nodes, before + [category])
  {
    var parent := nodes[category.parentId.value];
    parent.children := parent.children + [nodes[category.id]];
    forall id | id in nodes ensures HasChildren(nodes, before + [category], id) {
      assert old(HasChildren(nodes, before, id));
      assert id != category.parentId.value ==> nodes[id] != parent;
    }
  }

  lemma NoChildrenYet(nodes: Nodes)
    requires forall id :: id in nodes ==> nodes[id].children == []
    ensures AllHaveChildren(nodes, [])
  {
    assert forall id :: id in nodes ==> HasChildren(nodes, [], id);
  }

  lemma NoRootsYet(ids: set<Id>)
    ensures RootIds(ids, []) == []
  {
  }

  lemma NotPushed(nodes: Nodes, before: seq<Item>, category: Item)
    requires AllHaveChildren(nodes, before)
    requires category.parentId.None? || category.parentId.value !in nodes
    ensures AllHaveChildren(nodes, before + [category])
  {
    forall id | id in nodes ensures HasChildren(nodes, before + [category], id) {
      assert HasChildren(nodes, before, id);
    }
  }

  /** The second loop of findTree: every node is pushed to its parent, or to the roots. */
  method LinkNodes(nodes: Nodes, list: seq<Item>) returns (roots: seq<TreeNode>)
    requires NodesFor(nodes, list)
    requires forall id :: id in nodes ==> nodes[id].children == []
    modifies Objects(nodes)
    ensures AllHaveChildren(nodes, list)
    ensures Covers(nodes, RootIds(IdsOf(list), list)) && roots == At(nodes, RootIds(IdsOf(list), list))
  {
    hide ChildIds, RootIds, AllHaveChildren;
    assert AllHaveChildren(nodes, []) by {
      NoChildrenYet(nodes);
    }
    assert RootIds(IdsOf(list), []) == [] by {
      NoRootsYet(IdsOf(list));
    }
    assert list[..0] == [];
    roots := [];
    for i := 0 to |list|
      invariant AllHaveChildren(nodes, list[..i])
      invariant Covers(nodes, RootIds(IdsOf(list), list[..i])) && roots == At(nodes, RootIds(IdsOf(list), list[..i]))
    {
      var category := list[i];
      assert list[..i + 1] == list[..i] + [category];
      RootIdsSnoc(IdsOf(list), list[..i], category);
      if category.parentId.Some? && category.parentId.value in nodes {
        PushNode(nodes, list[..i], category);
      } else {
        NotPushed(nodes, list[..i], category);
        roots := roots + [nodes[category.id]];
      }
    }
    assert list[..|list|] == list;
  }
}
