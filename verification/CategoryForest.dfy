/**
 Categories: creating, updating, archiving and restoring them, and the rules that keep
 the table a forest. Icons, colours and timestamps are not part of this model.
 */
module CategoryForest {
  import opened Prelude
  import opened Ancestry

  datatype TransactionType = Income | Expense

  datatype Category = Category(
    userId: Option<Id>, parentId: Option<Id>, name: string, kind: TransactionType, isSystem: bool, isArchived: bool)

  datatype CategoryError =
    | NotFound
    | SystemProtected
    | CategoryArchived
    | DuplicateEntry
    | CategoryInUse
    | ParentInvalid
    | CategoryCycle

  /** The table, and the id of the next row. */
  datatype Table = Table(rows: map<Id, Category>, next: Id)

  /**
   What the operations ask of the rest of the database: case folding, as in the insensitive
   comparison of names, and whether transactions or budgets use a category.
   */
  datatype World = World(fold: string -> string, inUse: Id -> bool)

  /** The absent fields of an update are None; a parent id can also be set to null. */
  datatype Patch = Patch(name: Option<string>, kind: Option<TransactionType>, parentId: Option<Option<Id>>)

  // ---------------------------------------------------------------- queries

  function ParentsOf(rows: map<Id, Category>): Parents {
    map x | x in rows :: rows[x].parentId
  }

  predicate Visible(userId: Id, c: Category) {
    c.userId == Some(userId) || (c.isSystem && c.userId == None)
  }

  predicate Found(rows: map<Id, Category>, userId: Id, id: Id) {
    id in rows && Visible(userId, rows[id])
  }

  /** findByName. */
  predicate NameTaken(w: World, rows: map<Id, Category>, userId: Id, name: string, kind: TransactionType,
                      exclude: Option<Id>) {
    exists x :: x in rows && Some(x) != exclude && Visible(userId, rows[x])
                && rows[x].kind == kind && w.fold(rows[x].name) == w.fold(name)
  }

  /** ensureValidParent. */
  predicate ValidParent(rows: map<Id, Category>, userId: Id, parentId: Id, kind: TransactionType) {
    Found(rows, userId, parentId) && !rows[parentId].isArchived && rows[parentId].kind == kind
  }

  /** hasDependencies. */
  predicate HasDependencies(w: World, rows: map<Id, Category>, id: Id) {
    w.inUse(id) || exists x :: x in rows && rows[x].parentId == Some(id)
  }

  // ---------------------------------------------------------------- operations as functions

  function CreateIn(w: World, t: Table, userId: Id, name: string, kind: TransactionType, parentId: Option<Id>)
    : (Table, Result<Id, CategoryError>)
  {
    if NameTaken(w, t.rows, userId, name, kind, None) then (t, Err(DuplicateEntry))
    else if parentId.Some? && !ValidParent(t.rows, userId, parentId.value, kind) then (t, Err(ParentInvalid))
    else
      (Table(t.rows[t.next := Category(Some(userId), parentId, name, kind, false, false)], t.next + 1), Ok(t.next))
  }

  /** The row after the update. */
  function Patched(c: Category, patch: Patch): Category {
    c.(name := patch.name.GetOr(c.name), kind := patch.kind.GetOr(c.kind), parentId := patch.parentId.GetOr(c.parentId))
  }

  ghost function UpdateError(w: World, rows: map<Id, Category>, userId: Id, id: Id,
                             patch: Patch): Option<CategoryError> {
    if !Found(rows, userId, id) then Some(NotFound)
    else
      var c := rows[id];
      var c' := Patched(c, patch);
      if c.isSystem then Some(SystemProtected)
      else if c.isArchived then Some(CategoryArchived)
      else if (patch.name.Some? || patch.kind.Some?) && NameTaken(w, rows, userId, c'.name, c'.kind, Some(id)) then
        Some(DuplicateEntry)
      else if c'.kind != c.kind && HasDependencies(w, rows, id) then Some(CategoryInUse)
      else if c'.parentId.Some? && !ValidParent(rows, userId, c'.parentId.value, c'.kind) then Some(ParentInvalid)
      else if c'.parentId.Some?
              && (Reaches(ParentsOf(rows), c'.parentId.value, id) || !Ends(ParentsOf(rows), c'.parentId.value)) then
        Some(CategoryCycle)
      else None
  }

  ghost function UpdateIn(w: World, t: Table, userId: Id, id: Id, patch: Patch): (Table, Result<Id, CategoryError>) {
    match UpdateError(w, t.rows, userId, id, patch)
    case Some(e) => (t, Err(e))
    case None => (t.(rows := t.rows[id := Patched(t.rows[id], patch)]), Ok(id))
  }

  /** The rows of one user that archiving looks at. */
  function OwnRows(rows: map<Id, Category>, userId: Id): map<Id, Category> {
    map x | x in rows && rows[x].userId == Some(userId) && !rows[x].isSystem :: rows[x]
  }

  /** The target and the user's categories below it. */
  ghost function Branch(rows: map<Id, Category>, userId: Id, id: Id): set<Id> {
    {id} + set x | x in rows && x in OwnRows(rows, userId) && Reaches(ParentsOf(OwnRows(rows, userId)), x, id)
  }

  function ArchiveRows(rows: map<Id, Category>, userId: Id, ids: set<Id>): map<Id, Category> {
    map x | x in rows ::
      if x in ids && rows[x].userId == Some(userId) then rows[x].(isArchived := true) else rows[x]
  }

  ghost function ArchiveIn(t: Table, userId: Id, id: Id): (Table, Result<Id, CategoryError>) {
    if !Found(t.rows, userId, id) then (t, Err(NotFound))
    else if t.rows[id].isSystem then (t, Err(SystemProtected))
    else if t.rows[id].isArchived then (t, Ok(id))
    else (t.(rows := ArchiveRows(t.rows, userId, Branch(t.rows, userId, id))), Ok(id))
  }

  function RestoreIn(t: Table, userId: Id, id: Id): (Table, Result<Id, CategoryError>) {
    if !Found(t.rows, userId, id) then (t, Err(NotFound))
    else
      var c := t.rows[id];
      if c.isSystem then (t, Err(SystemProtected))
      else if !c.isArchived then (t, Ok(id))
      else if c.parentId.Some? && !ValidParent(t.rows, userId, c.parentId.value, c.kind) then (t, Err(ParentInvalid))
      else (t.(rows := t.rows[id := c.(isArchived := false)]), Ok(id))
  }

  // ---------------------------------------------------------------- the closure loop of archiveBranch

  /** A category as archiveBranch selects it. */
  datatype Link = Link(id: Id, parentId: Option<Id>)

  /** The list holds the given rows, in any order. */
  ghost predicate Lists(categories: seq<Link>, own: map<Id, Category>) {
    && (forall i :: 0 <= i < |categories| ==>
         categories[i].id in own && categories[i].parentId == own[categories[i].id].parentId)
    && (forall x :: x in own ==> Link(x, own[x].parentId) in categories)
  }

  predicate Pulls(c: Link, ids: set<Id>) {
    c.parentId.Some? && c.parentId.value in ids && c.id !in ids
  }

  /** Adds categories below the target until nothing changes; the order of the list does not matter. */
  method CollectBranch(categories: seq<Link>, id: Id, ghost own: map<Id, Category>) returns (ids: set<Id>)
    requires Lists(categories, own)
    ensures forall x :: x in ids <==> x == id || (x in own && Reaches(ParentsOf(own), x, id))
  {
    ids := {id};
    var added := true;
    ReachesStep(ParentsOf(own), id, id);
    while added
      invariant {id} <= ids <= own.Keys + {id}
      invariant forall x :: x in ids ==> Reaches(ParentsOf(own), x, id)
      invariant !added ==> forall c :: c in categories ==> !Pulls(c, ids)
      decreases own.Keys + {id} - ids, added
    {
      added := false;
      ghost var before := ids;
      for i := 0 to |categories|
        invariant before <= ids <= own.Keys + {id}
        invariant forall x :: x in ids ==> Reaches(ParentsOf(own), x, id)
        invariant added <==> before != ids
        invariant !added ==> forall j :: 0 <= j < i ==> !Pulls(categories[j], ids)
      {
        var category := categories[i];
        if category.parentId.Some? && category.parentId.value in ids && category.id !in ids {
          ReachesStep(ParentsOf(own), category.id, id);
          ids := ids + {category.id};
          added := true;
        }
      }
    }
    forall x | x in own && Reaches(ParentsOf(own), x, id) ensures x in ids {
      var n: nat :| Walk(ParentsOf(own), x, n) == Some(id);
      ClosedHoldsBelow(categories, own, id, ids, x, n);
    }
    assert id in ids;
    assert forall x :: x in ids && x != id ==> x in own;
  }

  lemma {:induction false} ClosedHoldsBelow(
    categories: seq<Link>, own: map<Id, Category>, id: Id, ids: set<Id>, x: Id, n: nat)
    requires Lists(categories, own) && id in ids
    requires forall c :: c in categories ==> !Pulls(c, ids)
    requires Walk(ParentsOf(own), x, n) == Some(id)
    ensures x in ids
    decreases n
  {
    if n > 0 {
      WalkAdd(ParentsOf(own), x, 1, n - 1);
      assert x in own && own[x].parentId.Some?;
      ClosedHoldsBelow(categories, own, id, ids, own[x].parentId.value, n - 1);
      assert !Pulls(Link(x, own[x].parentId), ids);
    }
  }

  // ---------------------------------------------------------------- the table in place

  class CategoryService {
    const world: World
    var rows: map<Id, Category>
    var next: Id

    constructor (world: World, rows: map<Id, Category>, next: Id)
      ensures this.world == world && this.rows == rows && this.next == next
    {
      this.world, this.rows, this.next := world, rows, next;
    }

    ghost function State(): Table
      reads this
    {
      Table(rows, next)
    }

    method NameIsTaken(userId: Id, name: string, kind: TransactionType, exclude: Option<Id>) returns (taken: bool)
      ensures taken == NameTaken(world, rows, userId, name, kind, exclude)
    {
      taken := exists x | x in rows :: Some(x) != exclude && Visible(userId, rows[x])
                                       && rows[x].kind == kind && world.fold(rows[x].name) == world.fold(name);
    }

    method Create(userId: Id, name: string, kind: TransactionType, parentId: Option<Id>)
      returns (r: Result<Id, CategoryError>)
      modifies this
      ensures (State(), r) == CreateIn(world, old(State()), userId, name, kind, parentId)
    {
      var taken := NameIsTaken(userId, name, kind, None);
      if taken {
        return Err(DuplicateEntry);
      }
      if parentId.Some? && !ValidParent(rows, userId, parentId.value, kind) {
        return Err(ParentInvalid);
      }
      rows := rows[next := Category(Some(userId), parentId, name, kind, false, false)];
      r := Ok(next);
      next := next + 1;
    }

    method Update(userId: Id, id: Id, patch: Patch) returns (r: Result<Id, CategoryError>)
      modifies this
      ensures (State(), r) == UpdateIn(world, old(State()), userId, id, patch)
    {
      if id !in rows || !Visible(userId, rows[id]) {
        return Err(NotFound);
      }
      var category := rows[id];
      if category.isSystem {
        return Err(SystemProtected);
      }
      if category.isArchived {
        return Err(CategoryArchived);
      }
      var nextKind := patch.kind.GetOr(category.kind);
      var nextName := patch.name.GetOr(category.name);
      var nextParentId := patch.parentId.GetOr(category.parentId);
      if patch.name.Some? || patch.kind.Some? {
        var taken := NameIsTaken(userId, nextName, nextKind, Some(id));
        if taken {
          return Err(DuplicateEntry);
        }
      }
      if patch.kind.Some? && patch.kind.value != category.kind {
        if world.inUse(id) || exists x | x in rows :: rows[x].parentId == Some(id) {
          return Err(CategoryInUse);
        }
      }
      if nextParentId.Some? {
        if !ValidParent(rows, userId, nextParentId.value, nextKind) {
          return Err(ParentInvalid);
        }
        var cycle := WouldCreateCycle(ParentsOf(rows), id, nextParentId.value);
        if cycle {
          return Err(CategoryCycle);
        }
      }
      rows := rows[id := category.(name := nextName, kind := nextKind, parentId := nextParentId)];
      return Ok(id);
    }

    /** Archives a category and the categories below it; `categories` is the query for the user's own rows. */
    method Archive(userId: Id, id: Id, categories: seq<Link>) returns (r: Result<Id, CategoryError>)
      requires Lists(categories, OwnRows(rows, userId))
      modifies this
      ensures (State(), r) == ArchiveIn(old(State()), userId, id)
    {
      if id !in rows || !Visible(userId, rows[id]) {
        return Err(NotFound);
      }
      if rows[id].isSystem {
        return Err(SystemProtected);
      }
      if rows[id].isArchived {
        return Ok(id);
      }
      var ids := CollectBranch(categories, id, OwnRows(rows, userId));
      assert ids == Branch(rows, userId, id);
      rows := map x | x in rows ::
        if x in ids && rows[x].userId == Some(userId) then rows[x].(isArchived := true) else rows[x];
      return Ok(id);
    }

    method Restore(userId: Id, id: Id) returns (r: Result<Id, CategoryError>)
      modifies this
      ensures (State(), r) == RestoreIn(old(State()), userId, id)
    {
      if id !in rows || !Visible(userId, rows[id]) {
        return Err(NotFound);
      }
      var category := rows[id];
      if category.isSystem {
        return Err(SystemProtected);
      }
      if !category.isArchived {
        return Ok(id);
      }
      if category.parentId.Some? && !ValidParent(rows, userId, category.parentId.value, category.kind) {
        return Err(ParentInvalid);
      }
      rows := rows[id := category.(isArchived := false)];
      return Ok(id);
    }
  }
}
