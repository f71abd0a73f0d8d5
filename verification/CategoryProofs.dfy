/** What every operation on categories keeps, and so what holds after every run of operations. */
module CategoryProofs {
  import opened Prelude
  import opened Ancestry
  import opened CategoryForest

  // ---------------------------------------------------------------- the rules of the table

  /** Row x can be put under row p: same type, active if x is, owned by the system or by the owner of x. */
  predicate MayHang(x: Category, p: Category) {
    && p.kind == x.kind
    && (!x.isArchived ==> !p.isArchived)
    && (p.userId.None? || p.userId == x.userId)
  }

  /** Two rows that one user can see at the same time. */
  predicate SeenTogether(a: Category, b: Category) {
    a.userId.None? || b.userId.None? || a.userId == b.userId
  }

  predicate SameName(w: World, a: Category, b: Category) {
    a.kind == b.kind && w.fold(a.name) == w.fold(b.name)
  }

  ghost predicate Linked(rows: map<Id, Category>) {
    forall x :: x in rows && rows[x].parentId.Some? ==>
      rows[x].parentId.value in rows && MayHang(rows[x], rows[rows[x].parentId.value])
  }

  ghost predicate Named(w: World, rows: map<Id, Category>) {
    forall x, y :: x in rows && y in rows && x != y && SeenTogether(rows[x], rows[y]) ==> !SameName(w, rows[x], rows[y])
  }

  ghost predicate Forest(w: World, t: Table) {
    && (forall x :: x in t.rows ==> x < t.next && (t.rows[x].isSystem <==> t.rows[x].userId.None?))
    && Linked(t.rows)
    && Acyclic(ParentsOf(t.rows))
    && Named(w, t.rows)
  }

  // ---------------------------------------------------------------- creating

  lemma CreateKeepsForest(w: World, t: Table, userId: Id, name: string, kind: TransactionType, parentId: Option<Id>)
    requires Forest(w, t)
    ensures Forest(w, CreateIn(w, t, userId, name, kind, parentId).0)
  {
    var (t', r) := CreateIn(w, t, userId, name, kind, parentId);
    if r.Ok? {
      assert ParentsOf(t'.rows) == ParentsOf(t.rows)[t.next := parentId];
      NewLeafAcyclic(ParentsOf(t.rows), t.next, parentId);
      NewNameKeeps(w, t.rows, t.next, t'.rows[t.next], userId);
    }
  }

  /** A row of a user whose name no other visible row has keeps names distinct. */
  lemma NewNameKeeps(w: World, rows: map<Id, Category>, id: Id, c: Category, userId: Id)
    requires Named(w, rows) && c.userId == Some(userId)
    requires forall x :: x in rows ==> (rows[x].isSystem <==> rows[x].userId.None?)
    requires !NameTaken(w, rows, userId, c.name, c.kind, Some(id))
    ensures Named(w, rows[id := c])
  {
    var rows' := rows[id := c];
    forall x, y | x in rows' && y in rows' && x != y && SeenTogether(rows'[x], rows'[y])
      ensures !SameName(w, rows'[x], rows'[y])
    {
      if x == id {
        assert Visible(userId, rows[y]);
      } else if y == id {
        assert Visible(userId, rows[x]);
      }
    }
  }

  /** Names stay distinct when no row changes its owner, its name or its type. */
  lemma SameNamesKeep(w: World, rows: map<Id, Category>, rows': map<Id, Category>)
    requires Named(w, rows) && rows'.Keys == rows.Keys
    requires forall x :: x in rows ==>
      rows'[x].userId == rows[x].userId && rows'[x].name == rows[x].name && rows'[x].kind == rows[x].kind
    ensures Named(w, rows')
  {
    forall x, y | x in rows' && y in rows' && x != y && SeenTogether(rows'[x], rows'[y])
      ensures !SameName(w, rows'[x], rows'[y])
    {
      assert SeenTogether(rows[x], rows[y]);
    }
  }

  // ---------------------------------------------------------------- updating

  lemma UpdateKeepsLinks(w: World, t: Table, userId: Id, id: Id, patch: Patch)
    requires Forest(w, t) && UpdateError(w, t.rows, userId, id, patch).None?
    ensures Linked(t.rows[id := Patched(t.rows[id], patch)])
  {
    var c, c' := t.rows[id], Patched(t.rows[id], patch);
    var rows' := t.rows[id := c'];
    forall x | x in rows' && rows'[x].parentId.Some?
      ensures rows'[x].parentId.value in rows' && MayHang(rows'[x], rows'[rows'[x].parentId.value])
    {
      if x == id {
        assert c'.parentId.value != id by {
          ReachesStep(ParentsOf(t.rows), id, id);
        }
      } else if rows'[x].parentId.value == id {
        assert MayHang(t.rows[x], c);
        assert HasDependencies(w, t.rows, id) && c'.kind == c.kind;
      }
    }
  }

  lemma UpdateKeepsForest(w: World, t: Table, userId: Id, id: Id, patch: Patch)
    requires Forest(w, t)
    ensures Forest(w, UpdateIn(w, t, userId, id, patch).0)
  {
    hide NameTaken, SameName, SeenTogether, MayHang, Reaches, Walk;
    if UpdateError(w, t.rows, userId, id, patch).None? {
      var c, c' := t.rows[id], Patched(t.rows[id], patch);
      var rows' := t.rows[id := c'];
      UpdateKeepsLinks(w, t, userId, id, patch);
      assert ParentsOf(rows') == ParentsOf(t.rows)[id := c'.parentId];
      ReparentAcyclic(ParentsOf(t.rows), id, c'.parentId);
      if patch.name.Some? || patch.kind.Some? {
        NewNameKeeps(w, t.rows, id, c', userId);
      } else {
        SameNamesKeep(w, t.rows, rows');
      }
    }
  }

  // ---------------------------------------------------------------- archiving

  /** What is below a category of a user belongs to that user. */
  lemma {:induction false} BelowIsOwn(rows: map<Id, Category>, userId: Id, id: Id, x: Id, n: nat)
    requires Linked(rows) && id in rows && rows[id].userId == Some(userId)
    requires forall y :: y in rows ==> (rows[y].isSystem <==> rows[y].userId.None?)
    requires Walk(ParentsOf(rows), x, n) == Some(id)
    ensures x in OwnRows(rows, userId)
    ensures Walk(ParentsOf(OwnRows(rows, userId)), x, n) == Some(id)
    decreases n
  {
    var all, own := ParentsOf(rows), ParentsOf(OwnRows(rows, userId));
    if n > 0 {
      WalkAdd(all, x, 1, n - 1);
      assert x in rows && rows[x].parentId.Some?;
      BelowIsOwn(rows, userId, id, rows[x].parentId.value, n - 1);
      WalkAdd(own, x, 1, n - 1);
      assert Walk(own, x, 1) == rows[x].parentId;
    }
  }

  lemma {:induction false} OwnWalkIsWalk(rows: map<Id, Category>, userId: Id, x: Id, n: nat)
    requires Walk(ParentsOf(OwnRows(rows, userId)), x, n).Some?
    ensures Walk(ParentsOf(rows), x, n) == Walk(ParentsOf(OwnRows(rows, userId)), x, n)
    decreases n
  {
    if n > 0 {
      OwnWalkIsWalk(rows, userId, x, n - 1);
    }
  }

  /** The branch that archiving collects is the category and all its descendants in the whole table. */
  lemma BranchIsDescendants(w: World, t: Table, userId: Id, id: Id)
    requires Forest(w, t) && id in t.rows && t.rows[id].userId == Some(userId)
    ensures forall x :: x in t.rows ==> (x in Branch(t.rows, userId, id) <==> Reaches(ParentsOf(t.rows), x, id))
  {
    var all, own := ParentsOf(t.rows), ParentsOf(OwnRows(t.rows, userId));
    forall x | x in t.rows ensures x in Branch(t.rows, userId, id) <==> Reaches(all, x, id) {
      ReachesStep(all, x, id);
      if n: nat :| Walk(all, x, n) == Some(id) {
        BelowIsOwn(t.rows, userId, id, x, n);
        assert Reaches(own, x, id);
      }
      if n: nat :| Walk(own, x, n) == Some(id) {
        OwnWalkIsWalk(t.rows, userId, x, n);
        assert Reaches(all, x, id);
      }
    }
  }

  /** Archiving a category archives it and exactly its descendants, and changes nothing else. */
  lemma ArchivesDescendants(w: World, t: Table, userId: Id, id: Id)
    requires Forest(w, t) && id in t.rows && t.rows[id].userId == Some(userId)
    ensures var (t', r) := ArchiveIn(t, userId, id);
      r == Ok(id) && t'.next == t.next && t'.rows.Keys == t.rows.Keys
      && forall x :: x in t.rows ==>
           t'.rows[x] == t.rows[x].(isArchived := t.rows[x].isArchived
                                                   || (!t.rows[id].isArchived && Reaches(ParentsOf(t.rows), x, id)))
  {
    BranchIsDescendants(w, t, userId, id);
    forall x | x in t.rows && Reaches(ParentsOf(t.rows), x, id) ensures t.rows[x].userId == Some(userId) {
      var n: nat :| Walk(ParentsOf(t.rows), x, n) == Some(id);
      BelowIsOwn(t.rows, userId, id, x, n);
    }
  }

  lemma ArchiveKeepsForest(w: World, t: Table, userId: Id, id: Id)
    requires Forest(w, t)
    ensures Forest(w, ArchiveIn(t, userId, id).0)
  {
    var (t', r) := ArchiveIn(t, userId, id);
    hide SameName, SeenTogether, Walk, Named, Acyclic;
    if r.Ok? {
      ArchivesDescendants(w, t, userId, id);
      assert ParentsOf(t'.rows) == ParentsOf(t.rows);
      SameNamesKeep(w, t.rows, t'.rows);
      forall x | x in t'.rows && t'.rows[x].parentId.Some?
        ensures t'.rows[x].parentId.value in t'.rows && MayHang(t'.rows[x], t'.rows[t'.rows[x].parentId.value])
      {
        assert MayHang(t.rows[x], t.rows[t.rows[x].parentId.value]);
        ReachesStep(ParentsOf(t.rows), x, id);
      }
    }
  }

  // ---------------------------------------------------------------- restoring

  lemma RestoreKeepsLinks(t: Table, userId: Id, id: Id)
    requires Linked(t.rows)
    ensures Linked(RestoreIn(t, userId, id).0.rows)
  {
    var t' := RestoreIn(t, userId, id).0;
    forall x | x in t'.rows && t'.rows[x].parentId.Some?
      ensures t'.rows[x].parentId.value in t'.rows && MayHang(t'.rows[x], t'.rows[t'.rows[x].parentId.value])
    {
      assert MayHang(t.rows[x], t.rows[t.rows[x].parentId.value]);
    }
  }

  /** Restoring changes at most one archive flag. */
  lemma RestoreChangesFlags(t: Table, userId: Id, id: Id)
    ensures var t' := RestoreIn(t, userId, id).0;
      && t'.next == t.next && t'.rows.Keys == t.rows.Keys
      && (forall x :: x in t.rows ==> t'.rows[x] == t.rows[x].(isArchived := t'.rows[x].isArchived))
      && ParentsOf(t'.rows) == ParentsOf(t.rows)
  {
  }

  lemma RestoreKeepsForest(w: World, t: Table, userId: Id, id: Id)
    requires Forest(w, t)
    ensures Forest(w, RestoreIn(t, userId, id).0)
  {
    hide SameName, SeenTogether, Walk, Named, Acyclic, Linked, RestoreIn, ParentsOf;
    RestoreKeepsLinks(t, userId, id);
    RestoreChangesFlags(t, userId, id);
    SameNamesKeep(w, t.rows, RestoreIn(t, userId, id).0.rows);
  }

  /** After a category of a user was archived, its parent is as before and still a valid one. */
  lemma ParentStaysValid(w: World, t: Table, userId: Id, id: Id)
    requires Forest(w, t) && id in t.rows && t.rows[id].userId == Some(userId) && !t.rows[id].isArchived
    ensures var c, t1 := t.rows[id], ArchiveIn(t, userId, id).0;
      c.parentId.Some? ==> ValidParent(t1.rows, userId, c.parentId.value, c.kind)
  {
    var parents := ParentsOf(t.rows);
    ArchivesDescendants(w, t, userId, id);
    var c := t.rows[id];
    if c.parentId.Some? {
      var p := c.parentId.value;
      assert MayHang(c, t.rows[p]);
      assert Walk(parents, id, 1) == Some(p);
      forall n: nat ensures Walk(parents, p, n) != Some(id) {
        WalkAdd(parents, id, 1, n);
      }
    }
  }

  lemma ArchivesItself(w: World, t: Table, userId: Id, id: Id)
    requires Forest(w, t) && id in t.rows && t.rows[id].userId == Some(userId)
    ensures id in ArchiveIn(t, userId, id).0.rows
    ensures ArchiveIn(t, userId, id).0.rows[id] == t.rows[id].(isArchived := true)
  {
    ArchivesDescendants(w, t, userId, id);
    ReachesStep(ParentsOf(t.rows), id, id);
  }

  /** Restoring a category right after archiving it succeeds, and leaves only its descendants archived. */
  lemma RestoreAfterArchive(w: World, t: Table, userId: Id, id: Id)
    requires Forest(w, t) && id in t.rows && t.rows[id].userId == Some(userId) && !t.rows[id].isArchived
    ensures var t1 := ArchiveIn(t, userId, id).0;
      RestoreIn(t1, userId, id) == (t1.(rows := t1.rows[id := t.rows[id]]), Ok(id))
  {
    hide ArchiveIn, Acyclic, Linked, Named;
    ArchivesItself(w, t, userId, id);
    ParentStaysValid(w, t, userId, id);
  }

  /**
   Restoring a category right after archiving it gives the old table back exactly when nothing
   else below it was active.
   */
  lemma RestoreUndoesArchiveIff(w: World, t: Table, userId: Id, id: Id)
    requires Forest(w, t) && id in t.rows && t.rows[id].userId == Some(userId) && !t.rows[id].isArchived
    ensures RestoreIn(ArchiveIn(t, userId, id).0, userId, id) == (t, Ok(id)) <==>
      forall x :: x in t.rows && x != id && Reaches(ParentsOf(t.rows), x, id) ==> t.rows[x].isArchived
  {
    hide ArchiveIn, RestoreIn, Forest;
    RestoreAfterArchive(w, t, userId, id);
    ArchivesDescendants(w, t, userId, id);
    var t1 := ArchiveIn(t, userId, id).0;
    var rows' := t1.rows[id := t.rows[id]];
    assert rows' == t.rows <==> forall x :: x in t.rows ==> rows'[x] == t.rows[x];
  }

  // ---------------------------------------------------------------- runs

  datatype Operation =
    | Create(name: string, kind: TransactionType, parentId: Option<Id>)
    | Update(id: Id, patch: Patch)
    | Archive(id: Id)
    | Restore(id: Id)

  /** One user's call. */
  datatype Call = Call(userId: Id, operation: Operation)

  ghost function Step(w: World, t: Table, call: Call): Table {
    match call.operation
    case Create(name, kind, parentId) => CreateIn(w, t, call.userId, name, kind, parentId).0
    case Update(id, patch) => UpdateIn(w, t, call.userId, id, patch).0
    case Archive(id) => ArchiveIn(t, call.userId, id).0
    case Restore(id) => RestoreIn(t, call.userId, id).0
  }

  /**
   The table after the calls of any users, one after the other; the use of categories by
   transactions and budgets may change between calls.
   */
  ghost function Run(fold: string -> string, uses: seq<Id -> bool>, t: Table, calls: seq<Call>): Table
    requires |uses| == |calls|
  {
    if calls == [] then t
    else Run(fold, uses[1..], Step(World(fold, uses[0]), t, calls[0]), calls[1..])
  }

  /** The rules survive every run. */
  lemma {:induction false} RunKeepsForest(fold: string -> string, uses: seq<Id -> bool>, t: Table, calls: seq<Call>)
    requires |uses| == |calls| && Forest(World(fold, x => false), t)
    ensures Forest(World(fold, x => false), Run(fold, uses, t, calls))
    decreases |calls|
  {
    if calls != [] {
      var w, call := World(fold, uses[0]), calls[0];
      assert Forest(w, t);
      match call.operation {
        case Create(name, kind, parentId) => CreateKeepsForest(w, t, call.userId, name, kind, parentId);
        case Update(id, patch) => UpdateKeepsForest(w, t, call.userId, id, patch);
        case Archive(id) => ArchiveKeepsForest(w, t, call.userId, id);
        case Restore(id) => RestoreKeepsForest(w, t, call.userId, id);
      }
      assert Forest(w, Step(w, t, call));
      RunKeepsForest(fold, uses[1..], Step(w, t, call), calls[1..]);
    }
  }

  // ---------------------------------------------------------------- the seed

  /** Every row is a system category, at the top or below an active top category of its type. */
  ghost predicate TwoLevels(t: Table) {
    forall x :: x in t.rows ==>
      && x < t.next && t.rows[x].isSystem && t.rows[x].userId.None?
      && (t.rows[x].parentId.Some? ==> HangsFromTop(t.rows, t.rows[x]))
  }

  predicate HangsFromTop(rows: map<Id, Category>, c: Category)
    requires c.parentId.Some?
  {
    var p := c.parentId.value;
    p in rows && rows[p].parentId.None? && !rows[p].isArchived && rows[p].kind == c.kind
  }

  /** A chain of at most one link that does not lead to its start is no cycle. */
  lemma ShortChain(parents: Parents, x: Id, n: nat)
    requires n > 0
    requires x in parents && parents[x].Some? ==>
      parents[x].value in parents && parents[parents[x].value].None?
    ensures Walk(parents, x, n) != Some(x)
  {
    assert Walk(parents, x, 0) == Some(x);
    var up := Walk(parents, x, 1);
    WalkAdd(parents, x, 1, n - 1);
    if up.Some? && n > 1 {
      assert Walk(parents, up.value, 0) == up;
      assert Walk(parents, up.value, 1) == None;
      WalkAdd(parents, up.value, 1, n - 2);
    }
  }

  /** A table of system categories on two levels, with distinct names, is a forest to start from. */
  lemma SeedIsForest(w: World, t: Table)
    requires TwoLevels(t) && Named(w, t.rows)
    ensures Forest(w, t)
  {
    hide Walk, Named;
    var parents := ParentsOf(t.rows);
    forall x: Id, n: nat | n > 0 ensures Walk(parents, x, n) != Some(x) {
      ShortChain(parents, x, n);
    }
  }

  function SystemCategory(name: string, kind: TransactionType, parentId: Option<Id>): Category {
    Category(None, parentId, name, kind, true, false)
  }

  /** The system categories that the seed puts into an empty table. */
  function SeedTable(): Table {
    Table(map[
      0 := SystemCategory("Salary", Income, None),
      1 := SystemCategory("Investment", Income, None),
      2 := SystemCategory("Other Income", Income, None),
      3 := SystemCategory("Food & Dining", Expense, None),
      4 := SystemCategory("Groceries", Expense, Some(3)),
      5 := SystemCategory("Restaurants", Expense, Some(3)),
      6 := SystemCategory("Transport", Expense, None),
      7 := SystemCategory("Shopping", Expense, None),
      8 := SystemCategory("Bills & Utilities", Expense, None),
      9 := SystemCategory("Health", Expense, None),
      10 := SystemCategory("Entertainment", Expense, None),
      11 := SystemCategory("Education", Expense, None),
      12 := SystemCategory("Other Expense", Expense, None)
    ], 13)
  }

  /** From the seed on, every run keeps the rules, if case folding keeps the names of the seed apart. */
  lemma RunFromSeedKeepsForest(fold: string -> string, uses: seq<Id -> bool>, calls: seq<Call>)
    requires |uses| == |calls| && Named(World(fold, x => false), SeedTable().rows)
    ensures Forest(World(fold, x => false), Run(fold, uses, SeedTable(), calls))
  {
    SeedIsForest(World(fold, x => false), SeedTable());
    RunKeepsForest(fold, uses, SeedTable(), calls);
  }

  // ---------------------------------------------------------------- the unique index, and the cycle check

  /** After every run no two rows share owner, name and type: the unique index is never violated. */
  lemma UniqueIndexHolds(fold: string -> string, uses: seq<Id -> bool>, t: Table, calls: seq<Call>, x: Id, y: Id)
    requires |uses| == |calls| && Forest(World(fold, x => false), t)
    requires var rows := Run(fold, uses, t, calls).rows;
      && x in rows && y in rows
      && rows[x].userId == rows[y].userId && rows[x].name == rows[y].name && rows[x].kind == rows[y].kind
    ensures x == y
  {
    hide Run;
    RunKeepsForest(fold, uses, t, calls);
    var rows := Run(fold, uses, t, calls).rows;
    assert SeenTogether(rows[x], rows[y]);
  }

  /** Everything that an update checks but the cycle. */
  ghost predicate OtherwiseFine(w: World, rows: map<Id, Category>, userId: Id, id: Id, patch: Patch) {
    Found(rows, userId, id)
    && var c, c' := rows[id], Patched(rows[id], patch);
       && !c.isSystem && !c.isArchived
       && !((patch.name.Some? || patch.kind.Some?) && NameTaken(w, rows, userId, c'.name, c'.kind, Some(id)))
       && !(c'.kind != c.kind && HasDependencies(w, rows, id))
       && (c'.parentId.Some? ==> ValidParent(rows, userId, c'.parentId.value, c'.kind))
  }

  /** An update fails as a cycle exactly when all else is fine and the parent is the category or below it. */
  lemma UpdateCycleIff(w: World, t: Table, userId: Id, id: Id, patch: Patch)
    requires Forest(w, t)
    ensures UpdateError(w, t.rows, userId, id, patch) == Some(CategoryCycle) <==>
      OtherwiseFine(w, t.rows, userId, id, patch)
      && var parentId := Patched(t.rows[id], patch).parentId;
         parentId.Some? && Reaches(ParentsOf(t.rows), parentId.value, id)
  {
    if Found(t.rows, userId, id) && Patched(t.rows[id], patch).parentId.Some? {
      AcyclicEnds(ParentsOf(t.rows), Patched(t.rows[id], patch).parentId.value);
    }
  }
}
