/**
 What the linked and the pruned tree hold: every row whose chain of parents ends, exactly once,
 under its listed parent; and after a search exactly the rows with a match at or below them.
 */
module CategoryTreeProofs {
  import opened Prelude
  import opened FiniteSets
  import opened Ancestry
  import opened CategoryTree

  // ---------------------------------------------------------------- the list as a table of links

  ghost function ItemOf(list: seq<Item>, id: Id): (r: Item)
    requires id in IdsOf(list)
    ensures r in list && r.id == id
  {
    var i :| 0 <= i < |list| && list[i].id == id;
    list[i]
  }

  lemma ItemAt(list: seq<Item>, i: nat)
    requires DistinctIds(list) && i < |list|
    ensures list[i].id in IdsOf(list) && ItemOf(list, list[i].id) == list[i]
  {
    var j :| 0 <= j < |list| && list[j] == ItemOf(list, list[i].id);
  }

  /** The parent links that the tree uses: a parent that is not in the list counts as none. */
  ghost function Links(list: seq<Item>): (links: Parents)
    ensures links.Keys == IdsOf(list)
  {
    map x | x in IdsOf(list) :: if IsRoot(IdsOf(list), ItemOf(list, x)) then None else ItemOf(list, x).parentId
  }

  lemma ChildIffLink(list: seq<Item>, id: Id, x: Id)
    requires DistinctIds(list) && id in IdsOf(list)
    ensures x in ChildIds(list, id) <==> x in Links(list) && Links(list)[x] == Some(id)
  {
    ChildIdsAre(list, id, x);
    if x in ChildIds(list, id) {
      var i :| 0 <= i < |list| && list[i].id == x && list[i].parentId == Some(id);
      ItemAt(list, i);
    }
    if x in Links(list) && Links(list)[x] == Some(id) {
      var i :| 0 <= i < |list| && list[i] == ItemOf(list, x);
      assert list[i].parentId == Some(id);
    }
  }

  lemma RootIffLink(list: seq<Item>, x: Id)
    requires DistinctIds(list)
    ensures x in RootIds(IdsOf(list), list) <==> x in Links(list) && Links(list)[x] == None
  {
    RootIdsAre(IdsOf(list), list, x);
    if x in RootIds(IdsOf(list), list) {
      var i :| 0 <= i < |list| && list[i].id == x && IsRoot(IdsOf(list), list[i]);
      ItemAt(list, i);
    }
    if x in Links(list) && Links(list)[x] == None {
      var i :| 0 <= i < |list| && list[i] == ItemOf(list, x);
      assert IsRoot(IdsOf(list), list[i]);
    }
  }

  lemma {:induction false} ChildIdsDistinct(list: seq<Item>, id: Id)
    requires DistinctIds(list)
    ensures NoRepeats(ChildIds(list, id))
    decreases |list|
  {
    if list != [] {
      var rest, last := list[..|list| - 1], list[|list| - 1];
      ChildIdsDistinct(rest, id);
      ChildIdsAre(rest, id, last.id);
    }
  }

  lemma {:induction false} RootIdsDistinct(ids: set<Id>, list: seq<Item>)
    requires DistinctIds(list)
    ensures NoRepeats(RootIds(ids, list))
    decreases |list|
  {
    if list != [] {
      var rest, last := list[..|list| - 1], list[|list| - 1];
      RootIdsDistinct(ids, rest);
      RootIdsAre(ids, rest, last.id);
    }
  }

  // ---------------------------------------------------------------- the tree as a value

  lemma ChildrenListed(list: seq<Item>, id: Id)
    ensures forall i :: 0 <= i < |ChildIds(list, id)| ==> ChildIds(list, id)[i] in IdsOf(list)
  {
    forall i | 0 <= i < |ChildIds(list, id)| ensures ChildIds(list, id)[i] in IdsOf(list) {
      ChildIdsAre(list, id, ChildIds(list, id)[i]);
    }
  }

  lemma RootsListed(list: seq<Item>)
    ensures forall i :: 0 <= i < |RootIds(IdsOf(list), list)| ==> RootIds(IdsOf(list), list)[i] in IdsOf(list)
  {
    forall i | 0 <= i < |RootIds(IdsOf(list), list)| ensures RootIds(IdsOf(list), list)[i] in IdsOf(list) {
      RootIdsAre(IdsOf(list), list, RootIds(IdsOf(list), list)[i]);
    }
  }

  /** The tree of row id down to the given number of levels below it. */
  ghost function TreeAt(list: seq<Item>, id: Id, levels: nat): Tree
    requires id in IdsOf(list)
    decreases levels
  {
    ChildrenListed(list, id);
    var ks := ChildIds(list, id);
    Tree(ItemOf(list, id),
         if levels == 0 then [] else seq(|ks|, i requires 0 <= i < |ks| => TreeAt(list, ks[i], levels - 1)))
  }

  ghost function TreesAt(list: seq<Item>, ids: seq<Id>, levels: nat): seq<Tree>
    requires forall i :: 0 <= i < |ids| ==> ids[i] in IdsOf(list)
  {
    seq(|ids|, i requires 0 <= i < |ids| => TreeAt(list, ids[i], levels))
  }

  /** The forest of the list: one level for every row is deep enough. */
  ghost function Forest(list: seq<Item>): seq<Tree> {
    RootsListed(list);
    TreesAt(list, RootIds(IdsOf(list), list), |list|)
  }

  /** The ids of a tree, node before children. */
  function TreeIds(t: Tree): seq<Id>
    decreases t, 1
  {
    [t.item.id] + ForestIds(t.children)
  }

  function ForestIds(ts: seq<Tree>): seq<Id>
    decreases ts, 0
  {
    if ts == [] then [] else TreeIds(ts[0]) + ForestIds(ts[1..])
  }

  lemma {:induction false} ForestIdsAre(ts: seq<Tree>, x: Id)
    ensures x in ForestIds(ts) <==> exists i :: 0 <= i < |ts| && x in TreeIds(ts[i])
    decreases |ts|
  {
    if ts != [] {
      ForestIdsAre(ts[1..], x);
      assert forall i :: 0 < i < |ts| ==> ts[i] == ts[1..][i - 1];
      if x in ForestIds(ts[1..]) {
        var i :| 0 <= i < |ts[1..]| && x in TreeIds(ts[1..][i]);
        assert x in TreeIds(ts[i + 1]);
      }
    }
  }

  lemma {:induction false} ForestIdsDistinct(ts: seq<Tree>)
    requires forall i :: 0 <= i < |ts| ==> NoRepeats(TreeIds(ts[i]))
    requires forall i, j, x :: 0 <= i < j < |ts| && x in TreeIds(ts[i]) ==> x !in TreeIds(ts[j])
    ensures NoRepeats(ForestIds(ts))
    decreases |ts|
  {
    if ts != [] {
      ForestIdsDistinct(ts[1..]);
      forall x | x in TreeIds(ts[0]) ensures x !in ForestIds(ts[1..]) {
        ForestIdsAre(ts[1..], x);
      }
      AppendDistinct(TreeIds(ts[0]), ForestIds(ts[1..]));
    }
  }

  lemma AppendDistinct(a: seq<Id>, b: seq<Id>)
    requires NoRepeats(a) && NoRepeats(b) && forall x :: x in a ==> x !in b
    ensures NoRepeats(a + b)
  {
    forall i, j | 0 <= i < j < |a + b| ensures (a + b)[i] != (a + b)[j] {
      if i < |a| && |a| <= j {
        assert (a + b)[i] in a && (a + b)[j] in b;
      }
    }
  }

  // ---------------------------------------------------------------- who is in the tree of a row

  /** Row c is x or an ancestor of x, at most so many levels up. */
  ghost predicate Within(links: Parents, x: Id, c: Id, levels: nat) {
    exists k: nat :: k <= levels && Walk(links, x, k) == Some(c)
  }

  lemma WithinStep(links: Parents, x: Id, c: Id, levels: nat)
    ensures Within(links, x, c, levels) <==>
      x == c || (levels > 0 && exists d :: d in links && links[d] == Some(c) && Within(links, x, d, levels - 1))
  {
    assert Walk(links, x, 0) == Some(x);
    if k: nat :| k <= levels && Walk(links, x, k) == Some(c) {
      if k > 0 {
        var d := Walk(links, x, k - 1).value;
        assert Within(links, x, d, levels - 1);
      }
    }
    if levels > 0 {
      if d :| d in links && links[d] == Some(c) && Within(links, x, d, levels - 1) {
        var k: nat :| k <= levels - 1 && Walk(links, x, k) == Some(d);
        assert Walk(links, x, k + 1) == Some(c);
      }
    }
  }

  /** Row x is in the tree of a row listed under c. */
  ghost predicate InChildTree(list: seq<Item>, c: Id, levels: nat, x: Id) {
    exists d :: d in ChildIds(list, c) && d in IdsOf(list) && x in TreeIds(TreeAt(list, d, levels))
  }

  /** Row x is in the tree of row c exactly when it is row c or in the tree of one of its children. */
  lemma InTreeStep(list: seq<Item>, c: Id, levels: nat, x: Id)
    requires c in IdsOf(list)
    ensures x in TreeIds(TreeAt(list, c, levels)) <==> x == c || (levels > 0 && InChildTree(list, c, levels - 1, x))
  {
    hide ChildIds;
    var t, ks := TreeAt(list, c, levels), ChildIds(list, c);
    ChildrenListed(list, c);
    ForestIdsAre(t.children, x);
    if levels > 0 {
      assert forall i :: 0 <= i < |ks| ==> t.children[i] == TreeAt(list, ks[i], levels - 1);
      if i :| 0 <= i < |ks| && x in TreeIds(t.children[i]) {
        assert ks[i] in ks;
      }
      if d :| d in ks && d in IdsOf(list) && x in TreeIds(TreeAt(list, d, levels - 1)) {
        var i :| 0 <= i < |ks| && ks[i] == d;
        assert x in TreeIds(t.children[i]);
      }
    }
  }

  /** Row x is in the tree of row c exactly when c is an ancestor of x, at most so many levels up. */
  lemma {:induction false} InTreeIff(list: seq<Item>, c: Id, levels: nat, x: Id)
    requires DistinctIds(list) && c in IdsOf(list)
    ensures x in TreeIds(TreeAt(list, c, levels)) <==> Within(Links(list), x, c, levels)
    decreases levels
  {
    hide Within, Links, ChildIds, IsRoot, TreeAt, TreeIds;
    InTreeStep(list, c, levels, x);
    WithinStep(Links(list), x, c, levels);
    if levels > 0 {
      forall d ensures d in ChildIds(list, c) <==> d in Links(list) && Links(list)[d] == Some(c) {
        ChildIffLink(list, c, d);
      }
      forall d | d in ChildIds(list, c)
        ensures d in IdsOf(list)
        ensures x in TreeIds(TreeAt(list, d, levels - 1)) <==> Within(Links(list), x, d, levels - 1)
      {
        LinkOfChild(list, c, d);
        InTreeIff(list, d, levels - 1, x);
      }
    }
  }

  lemma EndsThrough(links: Parents, x: Id, i: nat, c: Id)
    requires Walk(links, x, i) == Some(c) && Ends(links, c)
    ensures Ends(links, x)
  {
    var n: nat :| Walk(links, c, n).None?;
    WalkAdd(links, x, i, n);
    assert Walk(links, x, i + n).None?;
  }

  /** On a chain that ends, no row is met twice. */
  lemma MetOnce(links: Parents, x: Id, i: nat, j: nat)
    requires Ends(links, x) && i < j && Walk(links, x, i).Some?
    ensures Walk(links, x, i) != Walk(links, x, j)
  {
    if Walk(links, x, i) == Walk(links, x, j) {
      ChainComesBack(links, x, i, j);
    }
  }

  /** Two rows under the same parent have nothing below them in common, if the chain of the parent ends. */
  lemma SiblingsDisjoint(links: Parents, c: Id, d: Id, e: Id, x: Id, levels: nat)
    requires Ends(links, c) && d != e
    requires Walk(links, d, 1) == Some(c) && Walk(links, e, 1) == Some(c)
    ensures !(Within(links, x, d, levels) && Within(links, x, e, levels))
  {
    hide Walk, Ends;
    if Within(links, x, d, levels) && Within(links, x, e, levels) {
      var m: nat :| m <= levels && Walk(links, x, m) == Some(d);
      var n: nat :| n <= levels && Walk(links, x, n) == Some(e);
      WalkAdd(links, x, m, 1);
      WalkAdd(links, x, n, 1);
      EndsThrough(links, x, m + 1, c);
      if m < n {
        MetOnce(links, x, m + 1, n + 1);
      } else {
        MetOnce(links, x, n + 1, m + 1);
      }
    }
  }

  lemma NotBelowItself(links: Parents, c: Id, d: Id, levels: nat)
    requires Ends(links, c) && Walk(links, d, 1) == Some(c)
    ensures !Within(links, c, d, levels)
  {
    forall k: nat ensures Walk(links, c, k) != Some(d) {
      WalkAdd(links, c, k, 1);
      assert Walk(links, c, 0) == Some(c);
      MetOnce(links, c, 0, k + 1);
    }
  }

  lemma ChildTreesDisjoint(list: seq<Item>, c: Id, d: Id, e: Id, levels: nat, x: Id)
    requires DistinctIds(list) && c in IdsOf(list) && Ends(Links(list), c)
    requires d in ChildIds(list, c) && e in ChildIds(list, c) && d != e
    ensures d in IdsOf(list) && e in IdsOf(list)
    ensures x in TreeIds(TreeAt(list, d, levels)) ==> x !in TreeIds(TreeAt(list, e, levels))
  {
    hide Walk, Within, Links, ChildIds, Ends, TreeAt, TreeIds;
    LinkOfChild(list, c, d);
    LinkOfChild(list, c, e);
    InTreeIff(list, d, levels, x);
    InTreeIff(list, e, levels, x);
    SiblingsDisjoint(Links(list), c, d, e, x, levels);
  }

  lemma ChildTreeWithout(list: seq<Item>, c: Id, d: Id, levels: nat)
    requires DistinctIds(list) && c in IdsOf(list) && Ends(Links(list), c) && d in ChildIds(list, c)
    ensures d in IdsOf(list) && Ends(Links(list), d) && c !in TreeIds(TreeAt(list, d, levels))
  {
    hide Walk, Within, Links, ChildIds, Ends, TreeAt, TreeIds;
    LinkOfChild(list, c, d);
    EndsThrough(Links(list), d, 1, c);
    InTreeIff(list, d, levels, c);
    NotBelowItself(Links(list), c, d, levels);
  }

  /** No row occurs twice in the tree of a row whose chain of parents ends. */
  lemma {:induction false} TreeDistinct(list: seq<Item>, c: Id, levels: nat)
    requires DistinctIds(list) && c in IdsOf(list) && Ends(Links(list), c)
    ensures NoRepeats(TreeIds(TreeAt(list, c, levels)))
    decreases levels
  {
    hide Links, ChildIds, Ends, ForestIds;
    var ts, ks := TreeAt(list, c, levels).children, ChildIds(list, c);
    ChildrenListed(list, c);
    if levels == 0 {
      assert ForestIds([]) == [] by {
        NoIds();
      }
    } else {
      ChildIdsDistinct(list, c);
      forall i | 0 <= i < |ts| ensures NoRepeats(TreeIds(ts[i])) && c !in TreeIds(ts[i]) {
        ChildTreeWithout(list, c, ks[i], levels - 1);
        TreeDistinct(list, ks[i], levels - 1);
      }
      forall i, j, x | 0 <= i < j < |ts| && x in TreeIds(ts[i]) ensures x !in TreeIds(ts[j]) {
        ChildTreesDisjoint(list, c, ks[i], ks[j], levels - 1, x);
      }
      ForestIdsDistinct(ts);
      ForestIdsAre(ts, c);
      AppendDistinct([c], ForestIds(ts));
    }
  }

  lemma NoIds()
    ensures ForestIds([]) == []
  {
  }

  lemma LinkOfChild(list: seq<Item>, c: Id, d: Id)
    requires DistinctIds(list) && c in IdsOf(list) && d in ChildIds(list, c)
    ensures d in IdsOf(list) && Walk(Links(list), d, 1) == Some(c)
  {
    ChildIffLink(list, c, d);
    assert Walk(Links(list), d, 0) == Some(d);
  }

  // ---------------------------------------------------------------- the forest

  lemma RootEnds(list: seq<Item>, r: Id)
    requires DistinctIds(list) && r in RootIds(IdsOf(list), list)
    ensures r in IdsOf(list) && Walk(Links(list), r, 1).None? && Ends(Links(list), r)
  {
    RootIffLink(list, r);
    assert Walk(Links(list), r, 0) == Some(r);
    assert Walk(Links(list), r, 1).None?;
  }

  /** A chain that ends has at most as many rows as the list. */
  lemma ChainIsShort(list: seq<Item>, x: Id, k: nat)
    requires x in IdsOf(list) && Ends(Links(list), x)
    requires forall i: nat :: i <= k ==> Walk(Links(list), x, i).Some?
    ensures k < |list|
  {
    hide Walk, Links, Ends, IdsOf;
    var links := Links(list);
    var f := seq(k + 1, i requires 0 <= i < k + 1 => Walk(links, x, i).value);
    forall i | 0 <= i < |f| ensures f[i] in IdsOf(list) {
      ChainInList(list, x, i);
    }
    forall i, j | 0 <= i < j < |f| ensures f[i] != f[j] {
      MetOnce(links, x, i, j);
    }
    Pigeonhole(IdsOf(list), f);
    IdsBound(list);
  }

  /** A chain that ends, ends at a root of the forest, in fewer steps than there are rows. */
  lemma EndsAtRoot(list: seq<Item>, x: Id) returns (r: Id, k: nat)
    requires DistinctIds(list) && x in IdsOf(list) && Ends(Links(list), x)
    ensures k <= |list| && r in RootIds(IdsOf(list), list) && Walk(Links(list), x, k) == Some(r)
  {
    var links := Links(list);
    var n: nat :| Walk(links, x, n).None?;
    k := LastStep(links, x, n);
    r := Walk(links, x, k).value;
    ChainInList(list, x, k);
    RootIffLink(list, r);
    ChainIsShort(list, x, k);
  }

  lemma {:induction false} LastStep(links: Parents, x: Id, n: nat) returns (k: nat)
    requires Walk(links, x, n).None?
    ensures Walk(links, x, k + 1).None? && forall i: nat :: i <= k ==> Walk(links, x, i).Some?
    decreases n
  {
    assert n > 0;
    if Walk(links, x, n - 1).Some? {
      k := n - 1;
      forall i: nat | i <= k ensures Walk(links, x, i).Some? {
        if Walk(links, x, i).None? {
          WalkStops(links, x, i, k);
        }
      }
    } else {
      k := LastStep(links, x, n - 1);
    }
  }

  lemma {:induction false} ChainInList(list: seq<Item>, x: Id, k: nat)
    requires x in IdsOf(list) && Walk(Links(list), x, k).Some?
    ensures Walk(Links(list), x, k).value in IdsOf(list)
    decreases k
  {
    if k > 0 {
      ChainInList(list, x, k - 1);
    }
  }

  lemma {:induction false} IdsBound(list: seq<Item>)
    ensures |IdsOf(list)| <= |list|
    decreases |list|
  {
    if list != [] {
      var rest := list[..|list| - 1];
      IdsBound(rest);
      assert IdsOf(list) == IdsOf(rest) + {list[|list| - 1].id};
    }
  }

  /**
   The forest holds every row whose chain of parents ends, exactly once, and nothing else:
   a row is left out exactly when it is on or below a cycle.
   */
  lemma ForestHoldsEndingRows(list: seq<Item>)
    requires DistinctIds(list)
    ensures NoRepeats(ForestIds(Forest(list)))
    ensures forall x :: x in ForestIds(Forest(list)) <==> x in IdsOf(list) && Ends(Links(list), x)
  {
    var links, ts, rs := Links(list), Forest(list), RootIds(IdsOf(list), list);
    RootsListed(list);
    RootIdsDistinct(IdsOf(list), list);
    forall i | 0 <= i < |ts| ensures NoRepeats(TreeIds(ts[i])) {
      RootEnds(list, rs[i]);
      TreeDistinct(list, rs[i], |list|);
    }
    forall i, j, x | 0 <= i < j < |ts| && x in TreeIds(ts[i]) ensures x !in TreeIds(ts[j]) {
      RootsDisjoint(list, rs[i], rs[j], x);
    }
    ForestIdsDistinct(ts);
    forall x ensures x in ForestIds(ts) <==> x in IdsOf(list) && Ends(links, x) {
      InForestIff(list, x);
    }
  }

  lemma RootMetLast(links: Parents, x: Id, m: nat, r: Id, n: nat, s: Id)
    requires Walk(links, x, m) == Some(r) && Walk(links, r, 1).None?
    requires Walk(links, x, n) == Some(s) && Walk(links, s, 1).None?
    ensures r == s
  {
    WalkAdd(links, x, m, 1);
    WalkAdd(links, x, n, 1);
    if m < n {
      WalkStops(links, x, m + 1, n);
    } else if n < m {
      WalkStops(links, x, n + 1, m);
    }
  }

  lemma RootsDisjoint(list: seq<Item>, r: Id, s: Id, x: Id)
    requires DistinctIds(list) && r in RootIds(IdsOf(list), list) && s in RootIds(IdsOf(list), list) && r != s
    ensures r in IdsOf(list) && s in IdsOf(list)
    ensures x in TreeIds(TreeAt(list, r, |list|)) ==> x !in TreeIds(TreeAt(list, s, |list|))
  {
    hide Walk, Links, TreeAt, RootIds;
    RootEnds(list, r);
    RootEnds(list, s);
    InTreeIff(list, r, |list|, x);
    InTreeIff(list, s, |list|, x);
    if Within(Links(list), x, r, |list|) && Within(Links(list), x, s, |list|) {
      var m: nat :| m <= |list| && Walk(Links(list), x, m) == Some(r);
      var n: nat :| n <= |list| && Walk(Links(list), x, n) == Some(s);
      RootMetLast(Links(list), x, m, r, n, s);
    }
  }

  lemma {:induction false} BelowIsListed(list: seq<Item>, x: Id, k: nat, r: Id)
    requires r in IdsOf(list) && Walk(Links(list), x, k) == Some(r)
    ensures x in IdsOf(list)
  {
    if k > 0 {
      WalkAdd(Links(list), x, 1, k - 1);
      assert Walk(Links(list), x, 0) == Some(x);
      assert Walk(Links(list), x, 1).Some?;
    }
  }

  lemma InForestIff(list: seq<Item>, x: Id)
    requires DistinctIds(list)
    ensures x in ForestIds(Forest(list)) <==> x in IdsOf(list) && Ends(Links(list), x)
  {
    hide Walk, Links, TreeAt, RootIds, IdsOf, Ends;
    var links, ts, rs := Links(list), Forest(list), RootIds(IdsOf(list), list);
    RootsListed(list);
    ForestIdsAre(ts, x);
    if i :| 0 <= i < |ts| && x in TreeIds(ts[i]) {
      RootEnds(list, rs[i]);
      InTreeIff(list, rs[i], |list|, x);
      var k: nat :| k <= |list| && Walk(links, x, k) == Some(rs[i]);
      EndsThrough(links, x, k, rs[i]);
      BelowIsListed(list, x, k, rs[i]);
    }
    if x in IdsOf(list) && Ends(links, x) {
      var r, k := EndsAtRoot(list, x);
      var i :| 0 <= i < |rs| && rs[i] == r;
      assert Within(links, x, r, |list|);
      InTreeIff(list, r, |list|, x);
      assert x in TreeIds(ts[i]);
    }
  }

  /** Acyclic links lose no row. */
  lemma AcyclicForestHoldsAll(list: seq<Item>)
    requires DistinctIds(list) && Acyclic(Links(list))
    ensures forall x :: x in ForestIds(Forest(list)) <==> x in IdsOf(list)
  {
    ForestHoldsEndingRows(list);
    forall x ensures Ends(Links(list), x) {
      AcyclicEnds(Links(list), x);
    }
  }
}
