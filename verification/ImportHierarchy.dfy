/** When the categories that an import makes obey the rules that the category service keeps. */
module ImportHierarchy {
  import opened Prelude
  import opened TextRules
  import opened BackupImport
  import opened ImportCategoryProofs
  import opened ImportRowProofs
  import opened ReimportProofs
  import ImportWalletProofs
  import CategoryForest
  import CategoryProofs

  // ---------------------------------------------------------------- the table of the category service

  function Kind(t: EntryType): CategoryForest.TransactionType {
    match t
    case Income => CategoryForest.Income
    case Expense => CategoryForest.Expense
  }

  function TypeOf(kind: CategoryForest.TransactionType): EntryType {
    match kind
    case Income => Income
    case Expense => Expense
  }

  /** A row as the category service sees it. */
  function Seen(userId: Id, c: Category): CategoryForest.Category {
    CategoryForest.Category(
      if c.isSystem then None else Some(userId), c.parentId, c.name, Kind(c.entryType), c.isSystem, c.isArchived)
  }

  function Rows(userId: Id, cs: seq<Category>): map<Id, CategoryForest.Category> {
    if cs == [] then map[]
    else Rows(userId, cs[..|cs| - 1])[cs[|cs| - 1].id := Seen(userId, cs[|cs| - 1])]
  }

  lemma RowsOfOneMore(userId: Id, cs: seq<Category>, c: Category)
    ensures Rows(userId, cs + [c]) == Rows(userId, cs)[c.id := Seen(userId, c)]
  {
    assert (cs + [c])[..|cs|] == cs;
  }

  /** Ids and parents are below the counter, and owners are the user or the system. */
  ghost predicate Below(userId: Id, next: Id, id: Id, c: CategoryForest.Category) {
    id < next && (c.parentId.Some? ==> c.parentId.value < next) && (c.userId.Some? ==> c.userId.value == userId)
  }

  lemma {:induction false} RowsBelow(userId: Id, cs: seq<Category>, next: Id)
    requires CategoriesFit(cs, next)
    ensures var rows := Rows(userId, cs); forall x :: x in rows ==> Below(userId, next, x, rows[x])
    decreases |cs|
  {
    if cs != [] {
      var before, last := cs[..|cs| - 1], cs[|cs| - 1];
      assert forall i :: 0 <= i < |before| ==> before[i] == cs[i];
      RowsBelow(userId, before, next);
      assert cs[|cs| - 1] == last;
      var rows := Rows(userId, cs);
      assert Below(userId, next, last.id, Seen(userId, last));
      forall x | x in rows ensures Below(userId, next, x, rows[x]) {
        if x != last.id {
          assert rows[x] == Rows(userId, before)[x];
        }
      }
    }
  }

  // ---------------------------------------------------------------- the condition

  /** The last of the first n file categories with this id. */
  function LastWith(passes: seq<FileCategory>, n: nat, id: string): (m: Option<nat>)
    requires n <= |passes|
    ensures m.Some? ==> m.value < n && passes[m.value].id == id
  {
    if n == 0 then None
    else if passes[n - 1].id == id then Some(n - 1)
    else LastWith(passes, n - 1, id)
  }

  /** The file category that a row made from file category n hangs below: the last one met before with the parent id. */
  function ParentOf(passes: seq<FileCategory>, n: nat): (m: Option<nat>)
    requires n < |passes|
    ensures m.Some? ==> m.value < n
  {
    if IsRoot(passes[n]) then None else LastWith(passes, n, passes[n].parentId.value)
  }

  /**
   File category n has the type of its parent and, unless it is archived, a parent that leads to an
   active row: to one of before, or to one that is made from a file category that is not archived.
   */
  ghost predicate FitsParent(text: Text, start: CategoryState, passes: seq<FileCategory>, n: nat)
    requires n < |passes|
  {
    var m := ParentOf(passes, n);
    m.Some? ==>
      && passes[m.value].entryType == passes[n].entryType
      && (passes[n].isArchived || !KeptAway(text, start, passes, n, KeyAt(text, passes, m.value)))
  }

  lemma {:induction false} LastWithIff(passes: seq<FileCategory>, n: nat, id: string)
    requires n <= |passes|
    ensures LastWith(passes, n, id).Some? <==> exists m: nat :: m < n && passes[m].id == id
    decreases n
  {
    if n > 0 {
      LastWithIff(passes, n - 1, id);
    }
  }

  /** There is one exactly when the parent is a root of the file, or a child listed before. */
  lemma ParentIffBefore(file: File, k: nat)
    requires k < |file.categories|
    ensures Place(file.categories, k) < |Passes(file)|
    ensures ParentOf(Passes(file), Place(file.categories, k)).Some? <==> HasParentBefore(file.categories, k)
  {
    var n := Place(file.categories, k);
    PlaceHolds(file, k);
    if !IsRoot(file.categories[k]) {
      ParentBeforeIff(file, k);
      LastWithIff(Passes(file), n, file.categories[k].parentId.value);
    }
  }

  // ---------------------------------------------------------------- what the maps of the loop lead to

  /** Key leads to a row that has it, and that is archived only if it was made so. */
  ghost predicate KeyLeads(text: Text, rows: map<Id, CategoryForest.Category>, id: Id, key: string, archived: bool) {
    && id in rows && rows[id].isArchived == archived
    && CategoryKey(text, rows[id].name, TypeOf(rows[id].kind)) == key
  }

  /** Id leads where the key of the last file category with this id does. */
  ghost predicate MappedToLast(text: Text, passes: seq<FileCategory>, n: nat, s: CategoryState, id: string)
    requires n <= |passes|
  {
    match LastWith(passes, n, id)
    case None => id !in s.idMap
    case Some(m) =>
      KeyAt(text, passes, m) in s.byKey && Image(s.idMap, id) == Some(s.byKey[KeyAt(text, passes, m)])
  }

  ghost predicate MapsLast(text: Text, passes: seq<FileCategory>, n: nat, s: CategoryState)
    requires n <= |passes|
  {
    forall id :: MappedToLast(text, passes, n, s, id)
  }

  ghost predicate Tracks(text: Text, userId: Id, start: CategoryState, passes: seq<FileCategory>, n: nat,
                         s: CategoryState)
    requires n <= |passes|
  {
    && CategoriesFit(s.categories, s.next)
    && (forall key :: key in s.byKey ==>
          KeyLeads(text, Rows(userId, s.categories), s.byKey[key], key, KeptAway(text, start, passes, n, key)))
    && MapsLast(text, passes, n, s)
  }

  lemma {:induction false} RowsHaveIds(userId: Id, cs: seq<Category>, id: Id)
    requires id in Rows(userId, cs)
    ensures exists i :: 0 <= i < |cs| && cs[i].id == id
    decreases |cs|
  {
    if cs[|cs| - 1].id != id {
      RowsHaveIds(userId, cs[..|cs| - 1], id);
    }
  }

  lemma {:induction false} KeyMapLeads(text: Text, userId: Id, cs: seq<Category>, next: Id, key: string)
    requires CategoriesFit(cs, next) && key in KeyMap(text, cs)
    ensures KeyLeads(text, Rows(userId, cs), KeyMap(text, cs)[key], key, false)
    decreases |cs|
  {
    hide CategoryKey, Lawful;
    var before, last := cs[..|cs| - 1], cs[|cs| - 1];
    assert forall i :: 0 <= i < |before| ==> before[i] == cs[i];
    if last.isArchived || key != CategoryKey(text, last.name, last.entryType) {
      KeyMapLeads(text, userId, before, next, key);
      RowsHaveIds(userId, before, KeyMap(text, before)[key]);
    }
  }

  lemma StartTracks(text: Text, userId: Id, cs: seq<Category>, next: Id, passes: seq<FileCategory>)
    requires CategoriesFit(cs, next)
    ensures var start := CategoriesAtStart(text, cs, next); Tracks(text, userId, start, passes, 0, start)
  {
    hide CategoryKey, Lawful, KeyMap, Rows, KeyLeads, CategoriesFit;
    var start := CategoriesAtStart(text, cs, next);
    forall key | key in start.byKey
      ensures KeyLeads(text, Rows(userId, cs), start.byKey[key], key, KeptAway(text, start, passes, 0, key))
    {
      KeyMapLeads(text, userId, cs, next, key);
    }
  }

  // ---------------------------------------------------------------- one turn

  lemma NewRowFits(cs: seq<Category>, next: Id, row: Category)
    requires CategoriesFit(cs, next) && row.id == next && (row.parentId.Some? ==> row.parentId.value < next)
    ensures CategoriesFit(cs + [row], next + 1)
  {
  }

  /** The turn that makes a row: its id, and where it hangs. */
  lemma MadeRow(text: Text, s: CategoryState, c: FileCategory) returns (t: CategoryState, row: Category)
    requires ImportCategory(text, s, c).Ok? && CategoryKey(text, c.name, c.entryType) !in s.byKey
    ensures ImportCategory(text, s, c) == Ok(t)
    ensures t.categories == s.categories + [row] && t.next == s.next + 1 && row.id == s.next
    ensures t.byKey == s.byKey[CategoryKey(text, c.name, c.entryType) := row.id] && t.idMap == s.idMap[c.id := row.id]
    ensures row == Category(s.next, false, row.name, c.entryType, c.isArchived, MappedParent(c, s.idMap))
    ensures CategoryKey(text, row.name, row.entryType) == CategoryKey(text, c.name, c.entryType)
  {
    TrimmedKey(text, c.name);
    hide Lawful, NameKey, Joined;
    t := ImportCategory(text, s, c).value;
    row := t.categories[|s.categories|];
  }

  /** Where the row made from file category n hangs. */
  lemma ParentIs(text: Text, userId: Id, start: CategoryState, passes: seq<FileCategory>, n: nat, s: CategoryState)
    requires n < |passes| && Tracks(text, userId, start, passes, n, s)
    ensures MappedParent(passes[n], s.idMap) == match ParentOf(passes, n)
      case None => None
      case Some(m) => Image(s.byKey, KeyAt(text, passes, m))
    ensures ParentOf(passes, n).Some? ==> KeyAt(text, passes, ParentOf(passes, n).value) in s.byKey
  {
    hide CategoryKey, Lawful, Rows, KeyLeads, CategoriesFit;
    if !IsRoot(passes[n]) {
      var id := passes[n].parentId.value;
      assert MappedToLast(text, passes, n, s, id);
    }
  }

  lemma MappedFollows(text: Text, passes: seq<FileCategory>, n: nat, s: CategoryState, t: CategoryState)
    requires n < |passes| && MapsLast(text, passes, n, s) && KeyAt(text, passes, n) in t.byKey
    requires forall key :: key in s.byKey ==> key in t.byKey && t.byKey[key] == s.byKey[key]
    requires t.idMap == s.idMap[passes[n].id := t.byKey[KeyAt(text, passes, n)]]
    ensures MapsLast(text, passes, n + 1, t)
  {
    hide CategoryKey, Lawful, KeyAt;
    var next := n + 1;
    forall id ensures MappedToLast(text, passes, next, t, id) {
      assert MappedToLast(text, passes, n, s, id);
    }
  }

  /** After a turn that made a row, the keys lead where they did, and the new one to the new row. */
  lemma MadeKeyLeads(text: Text, userId: Id, start: CategoryState, passes: seq<FileCategory>, n: nat, s: CategoryState,
                     t: CategoryState, row: Category, key: string)
    requires n < |passes| && Tracks(text, userId, start, passes, n, s) && Makes(text, start, passes, n)
    requires t.categories == s.categories + [row] && row.id == s.next && row.isArchived == passes[n].isArchived
    requires CategoryKey(text, row.name, row.entryType) == KeyAt(text, passes, n)
    requires t.byKey == s.byKey[KeyAt(text, passes, n) := row.id] && key in t.byKey
    ensures KeyLeads(text, Rows(userId, t.categories), t.byKey[key], key, KeptAway(text, start, passes, n + 1, key))
  {
    RowsBelow(userId, s.categories, s.next);
    RowsOfOneMore(userId, s.categories, row);
    KeptAwayGrows(text, start, passes, n, key);
    hide CategoriesFit, MapsLast, CategoryKey, Lawful, Rows;
    if key != KeyAt(text, passes, n) {
      hide KeptAway, Makes;
      assert KeyLeads(text, Rows(userId, s.categories), s.byKey[key], key, KeptAway(text, start, passes, n, key));
    }
  }

  lemma MakeTracks(text: Text, userId: Id, start: CategoryState, passes: seq<FileCategory>, n: nat, s: CategoryState)
    requires n < |passes| && Tracks(text, userId, start, passes, n, s) && Makes(text, start, passes, n)
    requires KeyAt(text, passes, n) !in s.byKey && ImportCategory(text, s, passes[n]).Ok?
    ensures Tracks(text, userId, start, passes, n + 1, ImportCategory(text, s, passes[n]).value)
  {
    var t, row := MadeRow(text, s, passes[n]);
    ParentIs(text, userId, start, passes, n, s);
    RowsBelow(userId, s.categories, s.next);
    KeyIs(text, passes, n);
    hide CategoryKey, Lawful, Rows, KeptAway, CategoriesFit, ImportCategory, Makes, MappedParent, KeyAt, MapsLast;
    if row.parentId.Some? {
      var key := KeyAt(text, passes, ParentOf(passes, n).value);
      assert KeyLeads(text, Rows(userId, s.categories), s.byKey[key], key, KeptAway(text, start, passes, n, key));
      assert row.parentId == Image(s.byKey, key);
      var parent := s.byKey[key];
      assert Below(userId, s.next, parent, Rows(userId, s.categories)[parent]);
    }
    forall key | key in t.byKey
      ensures KeyLeads(text, Rows(userId, t.categories), t.byKey[key], key, KeptAway(text, start, passes, n + 1, key))
    {
      MadeKeyLeads(text, userId, start, passes, n, s, t, row, key);
    }
    NewRowFits(s.categories, s.next, row);
    MappedFollows(text, passes, n, s, t);
  }

  lemma FindTracks(text: Text, userId: Id, start: CategoryState, passes: seq<FileCategory>, n: nat, s: CategoryState)
    requires n < |passes| && Tracks(text, userId, start, passes, n, s) && !Makes(text, start, passes, n)
    requires KeyAt(text, passes, n) in s.byKey
    ensures ImportCategory(text, s, passes[n]).Ok?
    ensures ImportCategory(text, s, passes[n]).value.categories == s.categories
    ensures Tracks(text, userId, start, passes, n + 1, ImportCategory(text, s, passes[n]).value)
  {
    var t := ImportCategory(text, s, passes[n]).value;
    assert t == s.(idMap := s.idMap[passes[n].id := s.byKey[KeyAt(text, passes, n)]]) by {
      hide CategoryKey, Lawful;
    }
    forall key | key in t.byKey
      ensures KeptAway(text, start, passes, n + 1, key) == KeptAway(text, start, passes, n, key)
    {
      KeptAwayGrows(text, start, passes, n, key);
    }
    hide CategoryKey, Lawful, Rows, KeptAway, CategoriesFit, ImportCategory, Makes, KeyAt;
    MappedFollows(text, passes, n, s, t);
  }

  /** The key of a category tells its type. */
  lemma KeyTellsType(text: Text, a: string, s: EntryType, b: string, t: EntryType)
    requires CategoryKey(text, a, s) == CategoryKey(text, b, t)
    ensures s == t
  {
    TypeNameInjective(s, t);
    TypeNameInjective(t, s);
    hide Lawful, NameKey, Joined, NoColon, TypeName;
    SplitLast(NameKey(text, a), TypeName(s), NameKey(text, b), TypeName(t));
  }

  /** A new row that nothing hangs below yet obeys the rules exactly when it fits its own parent. */
  lemma NewRowLinked(rows: map<Id, CategoryForest.Category>, id: Id, c: CategoryForest.Category)
    requires id !in rows && c.parentId != Some(id) && forall x :: x in rows ==> rows[x].parentId != Some(id)
    ensures CategoryProofs.Linked(rows[id := c]) <==>
      CategoryProofs.Linked(rows)
      && (c.parentId.Some? ==> c.parentId.value in rows && CategoryProofs.MayHang(c, rows[c.parentId.value]))
  {
    hide CategoryProofs.MayHang;
    var rows' := rows[id := c];
    if CategoryProofs.Linked(rows') {
      forall x | x in rows && rows[x].parentId.Some?
        ensures rows[x].parentId.value in rows && CategoryProofs.MayHang(rows[x], rows[rows[x].parentId.value])
      {
        assert rows'[x] == rows[x];
      }
      assert rows'[id] == c;
    }
  }

  /** A row that is made obeys the rules exactly when its file category fits its parent there. */
  lemma MadeRowLinked(text: Text, userId: Id, start: CategoryState, passes: seq<FileCategory>, n: nat, s: CategoryState)
    requires n < |passes| && Tracks(text, userId, start, passes, n, s)
    requires KeyAt(text, passes, n) !in s.byKey && ImportCategory(text, s, passes[n]).Ok?
    ensures CategoryProofs.Linked(Rows(userId, ImportCategory(text, s, passes[n]).value.categories)) <==>
      CategoryProofs.Linked(Rows(userId, s.categories)) && FitsParent(text, start, passes, n)
  {
    var t, row := MadeRow(text, s, passes[n]);
    ParentIs(text, userId, start, passes, n, s);
    RowsBelow(userId, s.categories, s.next);
    RowsOfOneMore(userId, s.categories, row);
    var rows := Rows(userId, s.categories);
    var parent := ParentOf(passes, n);
    if parent.Some? {
      var key := KeyAt(text, passes, parent.value);
      var id := s.byKey[key];
      assert KeyLeads(text, rows, id, key, KeptAway(text, start, passes, n, key));
      KeyTellsType(text, rows[id].name, TypeOf(rows[id].kind), passes[parent.value].name,
                   passes[parent.value].entryType);
      assert row.parentId == Some(id);
      hide CategoryKey, Lawful, Rows, KeptAway, CategoriesFit, ImportCategory, MappedParent, KeyAt,
        CategoryProofs.Linked;
      assert FitsParent(text, start, passes, n) <==> CategoryProofs.MayHang(Seen(userId, row), rows[id]);
      NewRowLinked(rows, row.id, Seen(userId, row));
    } else {
      NewRowLinked(rows, row.id, Seen(userId, row));
    }
  }

  // ---------------------------------------------------------------- the loop and the import

  lemma {:induction false} LinkedUpTo(text: Text, userId: Id, cs: seq<Category>, next: Id, passes: seq<FileCategory>,
                                      n: nat)
    requires CategoriesFit(cs, next) && n <= |passes|
    requires CategoryProofs.Linked(Rows(userId, cs))
    requires CategoriesAfter(text, CategoriesAtStart(text, cs, next), passes, n).Ok?
    ensures var start := CategoriesAtStart(text, cs, next);
      var s := CategoriesAfter(text, start, passes, n).value;
      && Tracks(text, userId, start, passes, n, s)
      && (CategoryProofs.Linked(Rows(userId, s.categories)) <==>
            forall m: nat :: m < n && Makes(text, start, passes, m) ==> FitsParent(text, start, passes, m))
    decreases n
  {
    hide CategoryKey, Lawful, Rows, Tracks, CategoriesFit, ImportCategory, Makes, FitsParent, CategoryProofs.Linked,
      KeyMap;
    var start := CategoriesAtStart(text, cs, next);
    if n == 0 {
      StartTracks(text, userId, cs, next, passes);
    } else {
      LinkedUpTo(text, userId, cs, next, passes, n - 1);
      var s := CategoriesAfter(text, start, passes, n - 1).value;
      LoopMapsByKey(text, start, passes, n - 1);
      MakesIff(text, start, passes, n - 1, s);
      KeyIs(text, passes, n - 1);
      if Makes(text, start, passes, n - 1) {
        MadeRowLinked(text, userId, start, passes, n - 1, s);
        MakeTracks(text, userId, start, passes, n - 1, s);
      } else {
        FindTracks(text, userId, start, passes, n - 1, s);
      }
    }
  }

  lemma KeyIs(text: Text, passes: seq<FileCategory>, n: nat)
    requires n < |passes|
    ensures KeyAt(text, passes, n) == CategoryKey(text, passes[n].name, passes[n].entryType)
  {
  }

  /** The condition does not depend on the counter. */
  lemma SameForAnyCounter(text: Text, cs: seq<Category>, next: Id, next': Id, passes: seq<FileCategory>, n: nat)
    requires n < |passes|
    ensures Makes(text, CategoriesAtStart(text, cs, next), passes, n)
       <==> Makes(text, CategoriesAtStart(text, cs, next'), passes, n)
    ensures FitsParent(text, CategoriesAtStart(text, cs, next), passes, n)
       <==> FitsParent(text, CategoriesAtStart(text, cs, next'), passes, n)
  {
    hide CategoryKey, Lawful, KeyMap, LastWith;
  }

  /**
   An import keeps the rules of the category service for parents, on an account that obeys them,
   exactly when every category of the file that makes a row fits the parent it gets.
   */
  lemma ImportKeepsRulesIff(job: Job, account: Account, userId: Id)
    requires CategoriesFit(account.categories, account.next)
    requires ImportWalletProofs.WalletsFit(account.wallets, account.next)
    requires CategoryProofs.Linked(Rows(userId, account.categories)) && Import(job, account).Ok?
    ensures var text, passes := job.platform.text, Passes(job.file);
      var start := CategoriesAtStart(text, account.categories, account.next);
      CategoryProofs.Linked(Rows(userId, Import(job, account).value.account.categories)) <==>
      forall m: nat :: m < |passes| && Makes(text, start, passes, m) ==> FitsParent(text, start, passes, m)
  {
    var w, c, t, f := Phases(job, account);
    var text, passes := job.platform.text, Passes(job.file);
    ImportWalletProofs.LoopTracks(job, account, |job.file.wallets|);
    assert account.next <= w.next;
    LinkedUpTo(text, userId, account.categories, w.next, passes, |passes|);
    hide CategoryKey, Lawful, KeyMap, Passes, Makes, FitsParent, CategoryProofs.Linked, Rows, Tracks, Import,
      WalletsAfter, CategoriesAfter, CategoriesAtStart;
    forall m: nat | m < |passes|
      ensures Makes(text, CategoriesAtStart(text, account.categories, account.next), passes, m)
         <==> Makes(text, CategoriesAtStart(text, account.categories, w.next), passes, m)
      ensures FitsParent(text, CategoriesAtStart(text, account.categories, account.next), passes, m)
         <==> FitsParent(text, CategoriesAtStart(text, account.categories, w.next), passes, m)
    {
      SameForAnyCounter(text, account.categories, account.next, w.next, passes, m);
    }
  }
}
