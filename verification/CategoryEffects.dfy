/** When each operation on categories goes through, which error it gives otherwise, and what it writes. */
module CategoryEffects {
  import opened Prelude
  import opened Ancestry
  import opened CategoryForest

  ghost function Shown(rows: map<Id, Category>, userId: Id): set<Id> {
    set x | x in rows && (rows[x].userId == Some(userId) || (rows[x].isSystem && rows[x].userId == None))
  }

  /** Some other category that the user sees has that type and, up to case, that name. */
  ghost predicate OtherHas(w: World, rows: map<Id, Category>, userId: Id, id: Id, name: string, kind: TransactionType) {
    exists x :: x in Shown(rows, userId) && x != id && rows[x].kind == kind && w.fold(rows[x].name) == w.fold(name)
  }

  ghost predicate CanHold(rows: map<Id, Category>, userId: Id, parentId: Option<Id>, kind: TransactionType) {
    parentId.Some? ==>
      parentId.value in Shown(rows, userId) && !rows[parentId.value].isArchived && rows[parentId.value].kind == kind
  }

  ghost predicate NothingElse(before: map<Id, Category>, id: Id, after: map<Id, Category>) {
    after.Keys == before.Keys + {id} && forall x :: x in before && x != id ==> after[x] == before[x]
  }

  /** Creating: the name has to be free and the parent, if given, usable; one active row is added. */
  lemma CreateDoes(w: World, t: Table, userId: Id, name: string, kind: TransactionType, parentId: Option<Id>)
    requires t.next !in t.rows
    ensures var (after, r) := CreateIn(w, t, userId, name, kind, parentId);
      var taken := OtherHas(w, t.rows, userId, t.next, name, kind);
      && (r == Err(DuplicateEntry) <==> taken)
      && (r == Err(ParentInvalid) <==> !taken && !CanHold(t.rows, userId, parentId, kind))
      && (r.Ok? <==> !taken && CanHold(t.rows, userId, parentId, kind))
      && (r.Err? ==> after == t)
      && (r.Ok? ==>
            && r.value == t.next && after.next == t.next + 1 && NothingElse(t.rows, t.next, after.rows)
            && var c := after.rows[t.next];
               c.userId == Some(userId) && c.name == name && c.kind == kind && c.parentId == parentId
               && !c.isSystem && !c.isArchived)
  {
  }

  /** The chain of parents from p on ends, and does not lead through the category. */
  ghost predicate StaysClear(rows: map<Id, Category>, p: Option<Id>, id: Id) {
    p.Some? ==> Ends(ParentsOf(rows), p.value) && !Reaches(ParentsOf(rows), p.value, id)
  }

  ghost predicate InUse(w: World, rows: map<Id, Category>, id: Id) {
    w.inUse(id) || exists x :: x in rows && rows[x].parentId == Some(id)
  }

  /**
   Updating an active category of the user: the name and type that it gets are free if one of them is
   given, the type only changes while the category is not in use, and the parent that it gets is usable
   and closes no cycle.
   */
  lemma UpdateGoesThroughIff(w: World, t: Table, userId: Id, id: Id, patch: Patch)
    ensures UpdateIn(w, t, userId, id, patch).1.Ok? <==>
      && id in Shown(t.rows, userId) && !t.rows[id].isSystem && !t.rows[id].isArchived
      && var name := if patch.name.Some? then patch.name.value else t.rows[id].name;
         var kind := if patch.kind.Some? then patch.kind.value else t.rows[id].kind;
         var parentId := if patch.parentId.Some? then patch.parentId.value else t.rows[id].parentId;
         && (patch.name.Some? || patch.kind.Some? ==> !OtherHas(w, t.rows, userId, id, name, kind))
         && (kind != t.rows[id].kind ==> !InUse(w, t.rows, id))
         && CanHold(t.rows, userId, parentId, kind) && StaysClear(t.rows, parentId, id)
  {
    hide Ends, Reaches;
  }

  /** After an update, the row has what the patch gives and keeps the rest, and no other row is touched. */
  lemma UpdateDoes(w: World, t: Table, userId: Id, id: Id, patch: Patch)
    ensures var (after, r) := UpdateIn(w, t, userId, id, patch);
      && (r.Err? ==> after == t)
      && (r.Ok? ==>
            && r.value == id && after.next == t.next && id in t.rows && NothingElse(t.rows, id, after.rows)
            && var (c, before) := (after.rows[id], t.rows[id]);
               && c.name == (if patch.name.Some? then patch.name.value else before.name)
               && c.kind == (if patch.kind.Some? then patch.kind.value else before.kind)
               && c.parentId == (if patch.parentId.Some? then patch.parentId.value else before.parentId)
               && c.userId == before.userId && c.isSystem == before.isSystem && c.isArchived == before.isArchived)
  {
    hide Ends, Reaches, NameTaken, HasDependencies, ValidParent;
  }

  /** Which error an update gives: that of the first condition that fails. */
  lemma UpdateFails(w: World, t: Table, userId: Id, id: Id, patch: Patch)
    ensures var r := UpdateIn(w, t, userId, id, patch).1;
      && (r == Err(NotFound) <==> id !in Shown(t.rows, userId))
      && (id in Shown(t.rows, userId) ==>
            && (r == Err(SystemProtected) <==> t.rows[id].isSystem)
            && (r == Err(CategoryArchived) <==> !t.rows[id].isSystem && t.rows[id].isArchived))
      && (id in Shown(t.rows, userId) && !t.rows[id].isSystem && !t.rows[id].isArchived ==>
            var name := if patch.name.Some? then patch.name.value else t.rows[id].name;
            var kind := if patch.kind.Some? then patch.kind.value else t.rows[id].kind;
            var parentId := if patch.parentId.Some? then patch.parentId.value else t.rows[id].parentId;
            var taken := (patch.name.Some? || patch.kind.Some?) && OtherHas(w, t.rows, userId, id, name, kind);
            var used := kind != t.rows[id].kind && InUse(w, t.rows, id);
            && (r == Err(DuplicateEntry) <==> taken)
            && (r == Err(CategoryInUse) <==> !taken && used)
            && (r == Err(ParentInvalid) <==> !taken && !used && !CanHold(t.rows, userId, parentId, kind))
            && (r == Err(CategoryCycle) <==>
                  && !taken && !used && CanHold(t.rows, userId, parentId, kind)
                  && !StaysClear(t.rows, parentId, id)))
  {
    hide Ends, Reaches;
  }

  /** Archiving fails on what the user does not see, and on categories of the system. */
  lemma ArchiveFails(t: Table, userId: Id, id: Id)
    ensures var (after, r) := ArchiveIn(t, userId, id);
      && (r == Err(NotFound) <==> id !in Shown(t.rows, userId))
      && (r == Err(SystemProtected) <==> id in Shown(t.rows, userId) && t.rows[id].isSystem)
      && (r.Ok? <==> id in Shown(t.rows, userId) && !t.rows[id].isSystem)
      && (r.Ok? ==> r.value == id) && (r.Err? ==> after == t)
  {
    hide Reaches;
  }

  /**
   Archiving an active category archives it and, of the user's other rows, those whose chain of parents, through
   the user's own rows, leads to it. It changes nothing else.
   */
  lemma ArchiveDoes(t: Table, userId: Id, id: Id)
    requires ArchiveIn(t, userId, id).1.Ok?
    ensures var (after, own) := (ArchiveIn(t, userId, id).0,
                                 map x | x in t.rows && t.rows[x].userId == Some(userId) && !t.rows[x].isSystem ::
                                   t.rows[x]);
      && after.next == t.next && after.rows.Keys == t.rows.Keys
      && forall x :: x in t.rows ==>
           after.rows[x] ==
           if !t.rows[id].isArchived && t.rows[x].userId == Some(userId)
              && (x == id || (x in own && Reaches(ParentsOf(own), x, id)))
           then t.rows[x].(isArchived := true) else t.rows[x]
  {
    hide Reaches;
    assert OwnRows(t.rows, userId) == map x | x in t.rows && t.rows[x].userId == Some(userId) && !t.rows[x].isSystem ::
      t.rows[x];
  }

  /** Restoring an archived category needs a usable parent, if it has one, and only makes the row active. */
  lemma RestoreDoes(t: Table, userId: Id, id: Id)
    ensures var (after, r) := RestoreIn(t, userId, id);
      && (r == Err(NotFound) <==> id !in Shown(t.rows, userId))
      && (r == Err(SystemProtected) <==> id in Shown(t.rows, userId) && t.rows[id].isSystem)
      && (r == Err(ParentInvalid) <==>
            && id in Shown(t.rows, userId) && !t.rows[id].isSystem && t.rows[id].isArchived
            && !CanHold(t.rows, userId, t.rows[id].parentId, t.rows[id].kind))
      && (r.Ok? <==>
            && id in Shown(t.rows, userId) && !t.rows[id].isSystem
            && (t.rows[id].isArchived ==> CanHold(t.rows, userId, t.rows[id].parentId, t.rows[id].kind)))
      && (r.Err? ==> after == t)
      && (r.Ok? ==>
            && r.value == id && after.next == t.next && NothingElse(t.rows, id, after.rows)
            && var (c, before) := (after.rows[id], t.rows[id]);
               !c.isArchived && c.userId == before.userId && c.parentId == before.parentId && c.name == before.name
               && c.kind == before.kind && c.isSystem == before.isSystem)
  {
  }
}
