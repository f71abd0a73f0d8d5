/** Parent links: the chain of ancestors of a node, reachability along it, and cycles. */
module Ancestry {
  import opened Prelude
  import opened FiniteSets

  type Id = nat

  /** The parent column of a table: a node without an entry, or with None, has no parent. */
  type Parents = map<Id, Option<Id>>

  /** The n-th ancestor of x, counting x itself as the 0-th. */
  function Walk(parents: Parents, x: Id, n: nat): Option<Id> {
    if n == 0 then Some(x)
    else
      match Walk(parents, x, n - 1)
      case None => None
      case Some(y) => if y in parents then parents[y] else None
  }

  /** Node a is x or one of its ancestors. */
  ghost predicate Reaches(parents: Parents, x: Id, a: Id) {
    exists n: nat :: Walk(parents, x, n) == Some(a)
  }

  /** The chain of ancestors of x comes to an end. */
  ghost predicate Ends(parents: Parents, x: Id) {
    exists n: nat :: Walk(parents, x, n).None?
  }

  /** No node is its own proper ancestor. */
  ghost predicate Acyclic(parents: Parents) {
    forall x: Id, n: nat :: n > 0 ==> Walk(parents, x, n) != Some(x)
  }

  lemma {:induction false} WalkAdd(parents: Parents, x: Id, m: nat, n: nat)
    ensures Walk(parents, x, m + n) ==
      match Walk(parents, x, m) case None => None case Some(y) => Walk(parents, y, n)
    decreases n
  {
    if n > 0 {
      WalkAdd(parents, x, m, n - 1);
      assert m + n - 1 == m + (n - 1);
    }
  }

  lemma WalkStops(parents: Parents, x: Id, m: nat, n: nat)
    requires m <= n && Walk(parents, x, m).None?
    ensures Walk(parents, x, n).None?
  {
    WalkAdd(parents, x, m, n - m);
  }

  /** A chain that comes back to a node never ends. */
  lemma {:induction false} RepeatNeverEnds(parents: Parents, x: Id, i: nat, j: nat, k: nat)
    requires i < j && Walk(parents, x, i).Some? && Walk(parents, x, i) == Walk(parents, x, j)
    ensures Walk(parents, x, k).Some?
    decreases k
  {
    if k <= j {
      if Walk(parents, x, k).None? {
        WalkStops(parents, x, k, j);
      }
    } else {
      WalkAdd(parents, x, j, k - j);
      WalkAdd(parents, x, i, k - j);
      RepeatNeverEnds(parents, x, i, j, i + (k - j));
    }
  }

  lemma RepeatIsCycle(parents: Parents, x: Id, i: nat, j: nat)
    requires i < j && Walk(parents, x, i).Some? && Walk(parents, x, i) == Walk(parents, x, j)
    ensures !Acyclic(parents)
  {
    var y := Walk(parents, x, i).value;
    WalkAdd(parents, x, i, j - i);
    assert Walk(parents, y, j - i) == Some(y);
  }

  /** The reachable nodes are the node itself and what its parent reaches. */
  lemma ReachesStep(parents: Parents, x: Id, a: Id)
    ensures Reaches(parents, x, a) <==>
      x == a || (x in parents && parents[x].Some? && Reaches(parents, parents[x].value, a))
  {
    assert Walk(parents, x, 0) == Some(x);
    if n: nat :| Walk(parents, x, n) == Some(a) {
      if n > 0 {
        WalkAdd(parents, x, 1, n - 1);
        assert Walk(parents, x, 1) == if x in parents then parents[x] else None;
        assert Walk(parents, parents[x].value, n - 1) == Some(a);
      }
    }
    if x in parents && parents[x].Some? && Reaches(parents, parents[x].value, a) {
      var p := parents[x].value;
      var n: nat :| Walk(parents, p, n) == Some(a);
      assert Walk(parents, x, 1) == Some(p);
      WalkAdd(parents, x, 1, n);
      assert Walk(parents, x, 1 + n) == Some(a);
    }
  }

  // ---------------------------------------------------------------- changing one link

  lemma {:induction false} WalkUnchanged(before: Parents, after: Parents, id: Id, x: Id, n: nat)
    requires forall y :: y != id ==> (y in before <==> y in after) && (y in before ==> before[y] == after[y])
    requires forall i: nat :: i < n ==> Walk(before, x, i) != Some(id)
    ensures Walk(before, x, n) == Walk(after, x, n)
    decreases n
  {
    if n > 0 {
      WalkUnchanged(before, after, id, x, n - 1);
    }
  }

  lemma {:induction false} FirstVisit(parents: Parents, x: Id, id: Id, n: nat) returns (i: nat)
    requires Walk(parents, x, n) == Some(id)
    ensures i <= n && Walk(parents, x, i) == Some(id)
    ensures forall k: nat :: k < i ==> Walk(parents, x, k) != Some(id)
    decreases n
  {
    i := n;
    if k: nat :| k < n && Walk(parents, x, k) == Some(id) {
      i := FirstVisit(parents, x, id, k);
    }
  }

  /** Giving node id a parent keeps the links acyclic exactly when the parent does not reach id. */
  lemma ReparentAcyclic(parents: Parents, id: Id, parent: Option<Id>)
    requires Acyclic(parents)
    ensures Acyclic(parents[id := parent]) <==> parent.None? || !Reaches(parents, parent.value, id)
  {
    if parent.Some? && Reaches(parents, parent.value, id) {
      ReparentCloses(parents, id, parent.value);
    } else {
      var after := parents[id := parent];
      forall x: Id, n: nat | n > 0 ensures Walk(after, x, n) != Some(x) {
        ReparentKeeps(parents, id, parent, x, n);
      }
    }
  }

  lemma ReparentCloses(parents: Parents, id: Id, p: Id)
    requires Reaches(parents, p, id)
    ensures !Acyclic(parents[id := Some(p)])
  {
    var after := parents[id := Some(p)];
    var m: nat :| Walk(parents, p, m) == Some(id);
    var n := FirstVisit(parents, p, id, m);
    WalkUnchanged(parents, after, id, p, n);
    assert Walk(after, id, 1) == Some(p);
    WalkAdd(after, id, 1, n);
    assert Walk(after, id, 1 + n) == Some(id);
  }

  lemma ReparentKeeps(parents: Parents, id: Id, parent: Option<Id>, x: Id, n: nat)
    requires Acyclic(parents) && n > 0
    requires parent.None? || !Reaches(parents, parent.value, id)
    ensures Walk(parents[id := parent], x, n) != Some(x)
  {
    var after := parents[id := parent];
    if Walk(after, x, n) == Some(x) {
      if i: nat :| i < n && Walk(after, x, i) == Some(id) {
        // the cycle goes through id, and so comes back to id from its new parent
        WalkAdd(after, x, i, n);
        WalkAdd(after, x, n, i);
        assert i + n == n + i;
        assert Walk(after, id, n) == Some(id);
        assert Walk(after, id, 1) == parent;
        WalkAdd(after, id, 1, n - 1);
        WalkUnchangedFrom(parents, after, id, parent.value, n - 1);
      } else {
        WalkUnchanged(after, parents, id, x, n);
      }
    }
  }

  lemma WalkUnchangedFrom(before: Parents, after: Parents, id: Id, p: Id, n: nat)
    requires forall y :: y != id ==> (y in before <==> y in after) && (y in before ==> before[y] == after[y])
    requires !Reaches(before, p, id)
    ensures Walk(after, p, n) != Some(id)
  {
    assert forall i: nat :: Walk(before, p, i) != Some(id);
    WalkUnchanged(before, after, id, p, n);
  }

  /** A new node closes no cycle, whatever its parent, when nothing points to it yet. */
  lemma NewLeafAcyclic(parents: Parents, id: Id, parent: Option<Id>)
    requires Acyclic(parents) && id !in parents
    requires forall x :: x in parents ==> parents[x] != Some(id)
    requires parent != Some(id)
    ensures Acyclic(parents[id := parent])
  {
    if parent.Some? {
      forall n: nat ensures Walk(parents, parent.value, n) != Some(id) {
      }
    }
    ReparentAcyclic(parents, id, parent);
  }

  // ---------------------------------------------------------------- the walk of the repository

  /** Every node that can come up on a chain from p. */
  function Nodes(parents: Parents, p: Id): set<Id> {
    {p} + set x | x in parents && parents[x].Some? :: parents[x].value
  }

  /**
   wouldCreateCycle: false exactly when the chain of the proposed parent ends without meeting
   the category. It terminates on any links.
   */
  method WouldCreateCycle(parents: Parents, categoryId: Id, parentId: Id) returns (cycle: bool)
    ensures cycle <==> Reaches(parents, parentId, categoryId) || !Ends(parents, parentId)
  {
    var visited: set<Id> := {};
    var currentId: Option<Id> := Some(parentId);
    ghost var trace: seq<Id> := [];
    while currentId.Some?
      invariant currentId == Walk(parents, parentId, |trace|)
      invariant currentId.Some? ==> currentId.value in Nodes(parents, parentId)
      invariant forall i: nat :: i < |trace| ==> Walk(parents, parentId, i) == Some(trace[i])
      invariant visited <= Nodes(parents, parentId)
      invariant forall v :: v in visited <==> v in trace
      invariant categoryId !in visited
      decreases Nodes(parents, parentId) - visited
    {
      var current := currentId.value;
      if current == categoryId {
        return true;
      }
      if current in visited {
        ghost var i: nat :| i < |trace| && trace[i] == current;
        ChainComesBack(parents, parentId, i, |trace|);
        return true;
      }
      visited := visited + {current};
      currentId := if current in parents then parents[current] else None;
      trace := trace + [current];
    }
    ChainEnds(parents, parentId, categoryId, trace);
    return false;
  }

  lemma ChainComesBack(parents: Parents, x: Id, i: nat, j: nat)
    requires i < j && Walk(parents, x, i).Some? && Walk(parents, x, i) == Walk(parents, x, j)
    ensures !Ends(parents, x)
  {
    forall k: nat ensures Walk(parents, x, k).Some? {
      RepeatNeverEnds(parents, x, i, j, k);
    }
  }

  lemma ChainEnds(parents: Parents, x: Id, a: Id, trace: seq<Id>)
    requires Walk(parents, x, |trace|).None? && a !in trace
    requires forall i: nat :: i < |trace| ==> Walk(parents, x, i) == Some(trace[i])
    ensures !Reaches(parents, x, a) && Ends(parents, x)
  {
    forall k: nat ensures Walk(parents, x, k) != Some(a) {
      if k >= |trace| {
        WalkStops(parents, x, |trace|, k);
      }
    }
  }

  // ---------------------------------------------------------------- acyclic chains end

  /** Every chain of an acyclic table ends, within as many steps as the table has rows and one. */
  lemma AcyclicEnds(parents: Parents, x: Id)
    requires Acyclic(parents)
    ensures Walk(parents, x, |parents| + 1).None? && Ends(parents, x)
  {
    var n := |parents| + 1;
    if Walk(parents, x, n).Some? {
      forall i: nat | i < n ensures Walk(parents, x, i).Some? && Walk(parents, x, i).value in parents.Keys {
        if Walk(parents, x, i).None? {
          WalkStops(parents, x, i, n);
        } else if Walk(parents, x, i).value !in parents {
          assert Walk(parents, x, i + 1).None?;
          WalkStops(parents, x, i + 1, n);
        }
      }
      var f := seq(n, i requires 0 <= i < n => Walk(parents, x, i).value);
      forall i, j | 0 <= i < j < n ensures f[i] != f[j] {
        if f[i] == f[j] {
          RepeatIsCycle(parents, x, i, j);
        }
      }
      Pigeonhole(parents.Keys, f);
    }
  }

  /** On acyclic links the walk answers whether the category is the proposed parent or one of its ancestors. */
  lemma CycleIffAncestor(parents: Parents, categoryId: Id, parentId: Id)
    requires Acyclic(parents)
    ensures Reaches(parents, parentId, categoryId) || !Ends(parents, parentId)
       <==> Reaches(parents, parentId, categoryId)
  {
    AcyclicEnds(parents, parentId);
  }
}
