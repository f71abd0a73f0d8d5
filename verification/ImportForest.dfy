/** When an import leaves all rules of the category service intact: parents, no cycle, and distinct names. */
module ImportForest {
  import opened Prelude
  import opened TextRules
  import opened BackupImport
  import opened ImportCategoryProofs
  import opened ImportRowProofs
  import opened ReimportProofs
  import opened ImportHierarchy
  import ImportWalletProofs
  import Ancestry
  import CategoryForest
  import CategoryProofs

  /** The category service, comparing names as the import does. */
  function WorldOf(text: Text, inUse: Id -> bool): CategoryForest.World {
    CategoryForest.World(name => NameKey(text, name), inUse)
  }

  function KeyOfRow(text: Text, c: CategoryForest.Category): string {
    CategoryKey(text, c.name, TypeOf(c.kind))
  }

  /** An archived category of the user or the system has the key. */
  ghost predicate OldArchived(text: Text, cs: seq<Category>, key: string) {
    exists i :: 0 <= i < |cs| && cs[i].isArchived && CategoryKey(text, cs[i].name, cs[i].entryType) == key
  }

  // ---------------------------------------------------------------- rows and their keys

  lemma {:induction false} RowAt(userId: Id, cs: seq<Category>, next: Id, i: nat)
    requires CategoriesFit(cs, next) && i < |cs|
    ensures cs[i].id in Rows(userId, cs) && Rows(userId, cs)[cs[i].id] == Seen(userId, cs[i])
    decreases |cs|
  {
    if i < |cs| - 1 {
      var before := cs[..|cs| - 1];
      assert forall j :: 0 <= j < |before| ==> before[j] == cs[j];
      RowAt(userId, before, next, i);
    }
  }

  lemma RowIsAt(userId: Id, cs: seq<Category>, next: Id, x: Id) returns (i: nat)
    requires CategoriesFit(cs, next) && x in Rows(userId, cs)
    ensures i < |cs| && cs[i].id == x && Rows(userId, cs)[x] == Seen(userId, cs[i])
  {
    RowsHaveIds(userId, cs, x);
    i :| i < |cs| && cs[i].id == x;
    RowAt(userId, cs, next, i);
  }

  lemma SameNameIff(text: Text, inUse: Id -> bool, a: CategoryForest.Category, b: CategoryForest.Category)
    ensures CategoryProofs.SameName(WorldOf(text, inUse), a, b) <==> KeyOfRow(text, a) == KeyOfRow(text, b)
  {
    var s, t := TypeOf(a.kind), TypeOf(b.kind);
    TypeNameInjective(s, t);
    TypeNameInjective(t, s);
    hide Lawful, NameKey, Joined, NoColon, TypeName;
    if KeyOfRow(text, a) == KeyOfRow(text, b) {
      SplitLast(NameKey(text, a.name), TypeName(s), NameKey(text, b.name), TypeName(t));
    }
  }

  /** Every key is known to the loop, or that of an archived category of before; and the rows of before stay. */
  ghost predicate Covered(text: Text, userId: Id, cs: seq<Category>, s: CategoryState) {
    var rows := Rows(userId, s.categories);
    && (forall x :: x in rows ==> KeyOfRow(text, rows[x]) in s.byKey || OldArchived(text, cs, KeyOfRow(text, rows[x])))
    && (forall i :: 0 <= i < |cs| ==> cs[i].id in rows && rows[cs[i].id] == Seen(userId, cs[i]))
  }

  lemma StartCovered(text: Text, userId: Id, cs: seq<Category>, next: Id)
    requires CategoriesFit(cs, next)
    ensures Covered(text, userId, cs, CategoriesAtStart(text, cs, next))
  {
    hide CategoryKey, Lawful, KeyMap, Rows, CategoriesFit;
    var rows := Rows(userId, cs);
    forall x | x in rows
      ensures KeyOfRow(text, rows[x]) in KeyMap(text, cs) || OldArchived(text, cs, KeyOfRow(text, rows[x]))
    {
      var i := RowIsAt(userId, cs, next, x);
      KindAndBack(cs[i].entryType);
      if !cs[i].isArchived {
        ActiveHasKey(text, cs, i);
      }
    }
    forall i: nat | i < |cs| ensures cs[i].id in rows && rows[cs[i].id] == Seen(userId, cs[i]) {
      RowAt(userId, cs, next, i);
    }
  }

  lemma KindAndBack(t: EntryType)
    ensures TypeOf(Kind(t)) == t
  {
  }

  lemma MadeCovered(text: Text, userId: Id, cs: seq<Category>, s: CategoryState, t: CategoryState, row: Category)
    requires Covered(text, userId, cs, s) && CategoriesFit(s.categories, s.next)
    requires t.categories == s.categories + [row] && row.id == s.next
    requires t.byKey == s.byKey[CategoryKey(text, row.name, row.entryType) := row.id]
    ensures Covered(text, userId, cs, t)
  {
    RowsBelow(userId, s.categories, s.next);
    RowsOfOneMore(userId, s.categories, row);
    KindAndBack(row.entryType);
    hide CategoryKey, Lawful, Rows, CategoriesFit, OldArchived;
  }

  /** A key that the loop does not know is that of a row exactly when it is that of an archived one of before. */
  lemma UnknownKeyIff(text: Text, userId: Id, cs: seq<Category>, s: CategoryState, key: string)
    requires Covered(text, userId, cs, s) && key !in s.byKey
    ensures OldArchived(text, cs, key) <==>
      exists x :: x in Rows(userId, s.categories) && KeyOfRow(text, Rows(userId, s.categories)[x]) == key
  {
    hide CategoryKey, Lawful, Rows;
    if i :| 0 <= i < |cs| && cs[i].isArchived && CategoryKey(text, cs[i].name, cs[i].entryType) == key {
      KindAndBack(cs[i].entryType);
      assert KeyOfRow(text, Rows(userId, s.categories)[cs[i].id]) == key;
    }
  }

  // ---------------------------------------------------------------- names

  /** Two rows of one user and the system are seen together. */
  ghost predicate OneOwner(userId: Id, rows: map<Id, CategoryForest.Category>) {
    forall x :: x in rows ==> rows[x].userId == None || rows[x].userId == Some(userId)
  }

  lemma NewRowNamed(text: Text, inUse: Id -> bool, userId: Id, rows: map<Id, CategoryForest.Category>, id: Id,
                    c: CategoryForest.Category)
    requires id !in rows && OneOwner(userId, rows) && c.userId == Some(userId)
    ensures CategoryProofs.Named(WorldOf(text, inUse), rows[id := c]) <==>
      CategoryProofs.Named(WorldOf(text, inUse), rows)
      && forall x :: x in rows ==> KeyOfRow(text, rows[x]) != KeyOfRow(text, c)
  {
    var w, rows' := WorldOf(text, inUse), rows[id := c];
    hide CategoryProofs.SameName, WorldOf, KeyOfRow;
    forall x | x in rows
      ensures CategoryProofs.SeenTogether(rows[x], c)
      ensures CategoryProofs.SameName(w, rows[x], c) <==> KeyOfRow(text, rows[x]) == KeyOfRow(text, c)
      ensures CategoryProofs.SameName(w, c, rows[x]) <==> KeyOfRow(text, rows[x]) == KeyOfRow(text, c)
    {
      SameNameIff(text, inUse, rows[x], c);
      SameNameIff(text, inUse, c, rows[x]);
    }
    if CategoryProofs.Named(w, rows') {
      forall x, y | x in rows && y in rows && x != y && CategoryProofs.SeenTogether(rows[x], rows[y])
        ensures !CategoryProofs.SameName(w, rows[x], rows[y])
      {
        assert rows'[x] == rows[x] && rows'[y] == rows[y];
      }
      forall x | x in rows ensures !CategoryProofs.SameName(w, rows[x], c) {
        assert rows'[x] == rows[x] && rows'[id] == c;
      }
    }
  }

  lemma OwnersAreOne(userId: Id, cs: seq<Category>, next: Id)
    requires CategoriesFit(cs, next)
    ensures OneOwner(userId, Rows(userId, cs)) && next !in Rows(userId, cs)
  {
    RowsBelow(userId, cs, next);
    hide Rows, CategoriesFit;
    forall x | x in Rows(userId, cs) ensures Below(userId, next, x, Rows(userId, cs)[x]) {
    }
  }

  /** A row that is made leaves names distinct exactly when no archived category of before has its key. */
  lemma MadeRowNamed(text: Text, userId: Id, inUse: Id -> bool, cs: seq<Category>, s: CategoryState, c: FileCategory)
    requires Covered(text, userId, cs, s) && CategoriesFit(s.categories, s.next)
    requires ImportCategory(text, s, c).Ok? && CategoryKey(text, c.name, c.entryType) !in s.byKey
    ensures var t := ImportCategory(text, s, c).value;
      && Covered(text, userId, cs, t)
      && (CategoryProofs.Named(WorldOf(text, inUse), Rows(userId, t.categories)) <==>
            CategoryProofs.Named(WorldOf(text, inUse), Rows(userId, s.categories))
            && !OldArchived(text, cs, CategoryKey(text, c.name, c.entryType)))
  {
    var t, row := MadeRow(text, s, c);
    KindAndBack(row.entryType);
    hide CategoryKey, Lawful, Rows, CategoriesFit, Covered, OldArchived, ImportCategory, OneOwner, CategoryProofs.Named;
    OwnersAreOne(userId, s.categories, s.next);
    MadeCovered(text, userId, cs, s, t, row);
    RowsOfOneMore(userId, s.categories, row);
    UnknownKeyIff(text, userId, cs, s, CategoryKey(text, c.name, c.entryType));
    NewRowNamed(text, inUse, userId, Rows(userId, s.categories), row.id, Seen(userId, row));
    assert KeyOfRow(text, Seen(userId, row)) == CategoryKey(text, c.name, c.entryType);
  }

  lemma {:induction false} NamedUpTo(text: Text, userId: Id, inUse: Id -> bool, cs: seq<Category>, next: Id,
                                     passes: seq<FileCategory>, n: nat)
    requires CategoriesFit(cs, next) && n <= |passes|
    requires CategoryProofs.Named(WorldOf(text, inUse), Rows(userId, cs))
    requires CategoriesAfter(text, CategoriesAtStart(text, cs, next), passes, n).Ok?
    ensures var start := CategoriesAtStart(text, cs, next);
      var s := CategoriesAfter(text, start, passes, n).value;
      && Covered(text, userId, cs, s) && Tracks(text, userId, start, passes, n, s)
      && (CategoryProofs.Named(WorldOf(text, inUse), Rows(userId, s.categories)) <==>
            forall m: nat :: m < n && Makes(text, start, passes, m) ==> !OldArchived(text, cs, KeyAt(text, passes, m)))
    decreases n
  {
    hide CategoryKey, Lawful, Rows, Tracks, CategoriesFit, ImportCategory, Makes, OldArchived, CategoryProofs.Named,
      KeyMap, Covered;
    var start := CategoriesAtStart(text, cs, next);
    if n == 0 {
      StartTracks(text, userId, cs, next, passes);
      StartCovered(text, userId, cs, next);
    } else {
      NamedUpTo(text, userId, inUse, cs, next, passes, n - 1);
      var s := CategoriesAfter(text, start, passes, n - 1).value;
      LoopMapsByKey(text, start, passes, n - 1);
      MakesIff(text, start, passes, n - 1, s);
      KeyIs(text, passes, n - 1);
      if Makes(text, start, passes, n - 1) {
        TracksFit(text, userId, start, passes, n - 1, s);
        MadeRowNamed(text, userId, inUse, cs, s, passes[n - 1]);
        MakeTracks(text, userId, start, passes, n - 1, s);
      } else {
        FindTracks(text, userId, start, passes, n - 1, s);
        FoundKeepsKeys(text, s, passes[n - 1]);
        SameCovered(text, userId, cs, s, CategoriesAfter(text, start, passes, n).value);
      }
    }
  }

  lemma TracksFit(text: Text, userId: Id, start: CategoryState, passes: seq<FileCategory>, n: nat, s: CategoryState)
    requires n <= |passes| && Tracks(text, userId, start, passes, n, s)
    ensures CategoriesFit(s.categories, s.next)
  {
  }

  lemma FoundKeepsKeys(text: Text, s: CategoryState, c: FileCategory)
    requires CategoryKey(text, c.name, c.entryType) in s.byKey
    ensures ImportCategory(text, s, c).Ok? && ImportCategory(text, s, c).value.byKey == s.byKey
  {
  }

  lemma SameCovered(text: Text, userId: Id, cs: seq<Category>, s: CategoryState, t: CategoryState)
    requires Covered(text, userId, cs, s) && t.categories == s.categories && t.byKey == s.byKey
    ensures Covered(text, userId, cs, t)
  {
    hide Rows, KeyOfRow, OldArchived, Lawful;
  }

  // ---------------------------------------------------------------- the whole import

  lemma {:induction false} ParentsAreLinks(userId: Id, cs: seq<Category>)
    ensures CategoryForest.ParentsOf(Rows(userId, cs)) == Links(cs)
    decreases |cs|
  {
    if cs != [] {
      ParentsAreLinks(userId, cs[..|cs| - 1]);
    }
  }

  /** The categories that one user sees, as the table of the category service. */
  function TableOf(userId: Id, cs: seq<Category>, next: Id): CategoryForest.Table {
    CategoryForest.Table(Rows(userId, cs), next)
  }

  lemma {:induction false} RowsOwned(userId: Id, cs: seq<Category>)
    ensures forall x :: x in Rows(userId, cs) ==>
      (Rows(userId, cs)[x].isSystem <==> Rows(userId, cs)[x].userId.None?)
    decreases |cs|
  {
    if cs != [] {
      RowsOwned(userId, cs[..|cs| - 1]);
    }
  }

  lemma ForestIs(text: Text, userId: Id, inUse: Id -> bool, cs: seq<Category>, next: Id)
    requires CategoriesFit(cs, next)
    ensures CategoryProofs.Forest(WorldOf(text, inUse), TableOf(userId, cs, next)) <==>
      CategoryProofs.Linked(Rows(userId, cs)) && Ancestry.Acyclic(Links(cs))
      && CategoryProofs.Named(WorldOf(text, inUse), Rows(userId, cs))
  {
    ParentsAreLinks(userId, cs);
    RowsOwned(userId, cs);
    RowsBelow(userId, cs, next);
    hide Rows, CategoriesFit, CategoryProofs.Linked, CategoryProofs.Named, Ancestry.Acyclic, Links, WorldOf;
    forall x | x in Rows(userId, cs) ensures x < next {
      assert Below(userId, next, x, Rows(userId, cs)[x]);
    }
  }

  /** A category of the file that makes a row obeys all the rules: it fits its parent, and has a name of its own. */
  ghost predicate ObeysRules(text: Text, cs: seq<Category>, next: Id, passes: seq<FileCategory>, m: nat)
    requires m < |passes|
  {
    FitsParent(text, CategoriesAtStart(text, cs, next), passes, m) && !OldArchived(text, cs, KeyAt(text, passes, m))
  }

  /** Every category of the file that makes a row does. */
  ghost predicate AllObey(text: Text, cs: seq<Category>, next: Id, passes: seq<FileCategory>) {
    forall m: nat :: m < |passes| && Makes(text, CategoriesAtStart(text, cs, next), passes, m) ==>
      ObeysRules(text, cs, next, passes, m)
  }

  /** The category phase keeps the rules exactly when every category that makes a row obeys them. */
  lemma PhaseKeepsForestIff(text: Text, userId: Id, inUse: Id -> bool, cs: seq<Category>, next: Id, file: File)
    requires CategoriesFit(cs, next)
    requires CategoryProofs.Forest(WorldOf(text, inUse), TableOf(userId, cs, next))
    requires CategoriesAfter(text, CategoriesAtStart(text, cs, next), Passes(file), |Passes(file)|).Ok?
    ensures var (start, passes) := (CategoriesAtStart(text, cs, next), Passes(file));
      var s := CategoriesAfter(text, start, passes, |passes|).value;
      CategoryProofs.Forest(WorldOf(text, inUse), TableOf(userId, s.categories, s.next)) <==>
      AllObey(text, cs, next, passes)
  {
    hide CategoryKey, Lawful, Rows, Tracks, CategoriesFit, Makes, OldArchived, FitsParent, KeyMap, Covered, Passes,
      CategoryProofs.Named, CategoryProofs.Linked, CategoryProofs.Forest, Ancestry.Acyclic, Links, CategoriesAfter,
      CategoriesAtStart, KeyAt, WorldOf, TableOf;
    var start, passes := CategoriesAtStart(text, cs, next), Passes(file);
    var s := CategoriesAfter(text, start, passes, |passes|).value;
    ForestIs(text, userId, inUse, cs, next);
    LinkedUpTo(text, userId, cs, next, passes, |passes|);
    NamedUpTo(text, userId, inUse, cs, next, passes, |passes|);
    ImportKeepsAcyclic(text, cs, next, file);
    ForestIs(text, userId, inUse, s.categories, s.next);
  }

  lemma ObeysForAnyCounter(text: Text, cs: seq<Category>, next: Id, next': Id, passes: seq<FileCategory>, m: nat)
    requires m < |passes|
    ensures Makes(text, CategoriesAtStart(text, cs, next), passes, m)
       <==> Makes(text, CategoriesAtStart(text, cs, next'), passes, m)
    ensures ObeysRules(text, cs, next, passes, m) <==> ObeysRules(text, cs, next', passes, m)
  {
    hide CategoryKey, Lawful, KeyMap, FitsParent, Makes, OldArchived;
    SameForAnyCounter(text, cs, next, next', passes, m);
  }

  lemma LaterCounter(text: Text, userId: Id, inUse: Id -> bool, cs: seq<Category>, next: Id, later: Id)
    requires CategoriesFit(cs, next) && next <= later
    ensures CategoriesFit(cs, later)
    ensures CategoryProofs.Forest(WorldOf(text, inUse), TableOf(userId, cs, next)) <==>
      CategoryProofs.Forest(WorldOf(text, inUse), TableOf(userId, cs, later))
  {
    assert CategoriesFit(cs, later);
    hide CategoriesFit, Rows, CategoryProofs.Forest;
    ForestIs(text, userId, inUse, cs, next);
    ForestIs(text, userId, inUse, cs, later);
  }

  /**
   An import into an account that obeys the rules of the category service, for parents, cycles and
   names, leaves them intact exactly when every category of the file that makes a row has the type of
   the parent it gets and, unless archived, an active one, and no archived category of before has its
   name, but for case and white space, and type.
   */
  lemma ImportKeepsForestIff(job: Job, account: Account, userId: Id, inUse: Id -> bool)
    requires CategoriesFit(account.categories, account.next)
    requires ImportWalletProofs.WalletsFit(account.wallets, account.next)
    requires var w := WorldOf(job.platform.text, inUse);
      CategoryProofs.Forest(w, TableOf(userId, account.categories, account.next))
    requires Import(job, account).Ok?
    ensures var (text, passes, after) := (job.platform.text, Passes(job.file), Import(job, account).value.account);
      CategoryProofs.Forest(WorldOf(text, inUse), TableOf(userId, after.categories, after.next)) <==>
      AllObey(text, account.categories, account.next, passes)
  {
    var w, c, t, f := Phases(job, account);
    var text, passes := job.platform.text, Passes(job.file);
    ImportWalletProofs.LoopTracks(job, account, |job.file.wallets|);
    assert account.next <= w.next;
    hide CategoryKey, Lawful, KeyMap, Passes, Makes, ObeysRules, CategoryProofs.Forest, TableOf, Import, WalletsAfter,
      CategoriesAfter, CategoriesAtStart, CategoriesFit, WorldOf;
    LaterCounter(text, userId, inUse, account.categories, account.next, w.next);
    PhaseKeepsForestIff(text, userId, inUse, account.categories, w.next, job.file);
    forall m: nat | m < |passes|
      ensures Makes(text, CategoriesAtStart(text, account.categories, account.next), passes, m)
         <==> Makes(text, CategoriesAtStart(text, account.categories, w.next), passes, m)
      ensures ObeysRules(text, account.categories, account.next, passes, m)
         <==> ObeysRules(text, account.categories, w.next, passes, m)
    {
      ObeysForAnyCounter(text, account.categories, account.next, w.next, passes, m);
    }
  }

  // ---------------------------------------------------------------- a name that comes back

  const ARCHIVED_FOOD := Category(0, false, "Food", Expense, true, None)
  const FOOD_AGAIN := FileCategory("c", "food", Expense, false, None)

  /** An account whose category Food is archived. */
  function OneArchived(userId: string): Account {
    Account(userId, [], [ARCHIVED_FOOD], [], [], 1)
  }

  function FoodJob(platform: Platform): Job {
    Job(platform, File([], [FOOD_AGAIN], [], []), Options([], MAINTAIN_CURRENT))
  }

  lemma PassesOfRoot()
    ensures Passes(File([], [FOOD_AGAIN], [], [])) == [FOOD_AGAIN]
  {
    var cs := [FOOD_AGAIN];
    assert cs[..0] == [];
    assert Roots(cs[..0]) == [] && Children(cs[..0]) == [];
    assert Roots(cs) == [FOOD_AGAIN] && Children(cs) == [];
  }

  lemma FoodGoesThrough(platform: Platform, userId: string)
    requires platform.text.trim("food") == "food"
    ensures Import(FoodJob(platform), OneArchived(userId)).Ok?
    ensures Makes(platform.text, CategoriesAtStart(platform.text, [ARCHIVED_FOOD], 1), [FOOD_AGAIN], 0)
  {
    var job, a, passes := FoodJob(platform), OneArchived(userId), [FOOD_AGAIN];
    PassesOfRoot();
    hide Passes, Lawful, CategoryKey;
    var cs := [ARCHIVED_FOOD];
    assert cs[..0] == [];
    assert KeyMap(platform.text, cs) == map[];
    var w := WalletsAtStart(job, a);
    assert WalletsAfter(job, a, 0) == Ok(w);
    var start := CategoriesAtStart(platform.text, cs, w.next);
    assert CategoriesAfter(platform.text, start, passes, 0) == Ok(start);
    assert !CategoryTaken(cs, "food", Expense);
    assert CategoriesAfter(platform.text, start, passes, 1) == ImportCategory(platform.text, start, FOOD_AGAIN);
    var c := CategoryPhase(job, a, w).value;
    assert SortByDate([]) == [];
    assert TransactionItems(platform, userId, w.idMap, c.idMap, []) == [];
    assert TransferItems(platform, w.idMap, []) == [];
  }

  lemma OneArchivedIsForest(text: Text, inUse: Id -> bool, owner: Id)
    ensures CategoryProofs.Forest(WorldOf(text, inUse), TableOf(owner, [ARCHIVED_FOOD], 1))
  {
    var cs := [ARCHIVED_FOOD];
    assert cs[..0] == [] && cs == [] + [ARCHIVED_FOOD];
    RowsOfOneMore(owner, [], ARCHIVED_FOOD);
    LinksGrow([], ARCHIVED_FOOD);
    NothingIsAcyclic();
    Ancestry.NewLeafAcyclic(map[], 0, None);
    ForestIs(text, owner, inUse, cs, 1);
    hide Lawful, Ancestry.Acyclic;
  }

  lemma NothingIsAcyclic()
    ensures Ancestry.Acyclic(map[])
  {
    forall x: Ancestry.Id, n: nat | n > 0 ensures Ancestry.Walk(map[], x, n) != Some(x) {
      Ancestry.WalkAdd(map[], x, 1, n - 1);
      assert Ancestry.Walk(map[], x, 0) == Some(x);
      Ancestry.WalkStops(map[], x, 1, n);
    }
  }

  /**
   A file that brings a category back under a name that an archived one has, in another case: every
   category that it makes fits its parent, and names are distinct no longer.
   */
  lemma ArchivedNameComesBack(platform: Platform, userId: string, owner: Id, inUse: Id -> bool)
    requires platform.text.trim("food") == "food"
    requires NameKey(platform.text, "Food") == NameKey(platform.text, "food")
    ensures var (w, a) := (WorldOf(platform.text, inUse), OneArchived(userId));
      var r := Import(FoodJob(platform), a);
      && CategoryProofs.Forest(w, TableOf(owner, a.categories, a.next)) && r.Ok?
      && !CategoryProofs.Forest(w, TableOf(owner, r.value.account.categories, r.value.account.next))
  {
    var text, a, job := platform.text, OneArchived(userId), FoodJob(platform);
    FoodGoesThrough(platform, userId);
    OneArchivedIsForest(text, inUse, owner);
    PassesOfRoot();
    assert OldArchived(text, a.categories, CategoryKey(text, "food", Expense)) by {
      assert a.categories[0] == ARCHIVED_FOOD;
      hide Lawful, NameKey, Joined;
    }
    hide Lawful, Import, Passes, CategoryProofs.Forest, Makes, OldArchived, FitsParent, WorldOf, TableOf;
    ImportKeepsForestIff(job, a, owner, inUse);
    assert !ObeysRules(text, a.categories, a.next, [FOOD_AGAIN], 0);
  }
}
