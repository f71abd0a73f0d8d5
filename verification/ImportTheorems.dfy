/** The import as a whole: what it keeps, and what it does not check. */
module ImportTheorems {
  import opened Prelude
  import opened Digits
  import opened TextRules
  import opened Deduplication
  import opened BackupImport
  import opened ImportWalletProofs
  import opened ImportCategoryProofs
  import opened ImportRowProofs
  import opened ReimportProofs
  import Ancestry

  // ---------------------------------------------------------------- what every import keeps

  lemma {:induction false} CategoriesAreAppended(text: Text, start: CategoryState, passes: seq<FileCategory>, n: nat)
    requires n <= |passes| && CategoriesAfter(text, start, passes, n).Ok?
    ensures start.categories <= CategoriesAfter(text, start, passes, n).value.categories
    decreases n
  {
    hide Lawful, CategoryKey, CategoryTaken;
    if n > 0 {
      CategoriesAreAppended(text, start, passes, n - 1);
    }
  }

  /**
   An import that goes through only appends rows; the wallets of before the import change in their
   balance alone, by what is merged into them; and the transactions and transfers of the file
   change no balance. The hierarchy stays acyclic, and the keys of the tables stay keys.
   */
  lemma ImportKeeps(job: Job, account: Account)
    requires WalletsFit(account.wallets, account.next) && CategoriesFit(account.categories, account.next)
    requires Ancestry.Acyclic(Links(account.categories)) && Import(job, account).Ok?
    ensures var after := Import(job, account).value.account;
      && |account.wallets| <= |after.wallets|
      && (forall i :: 0 <= i < |account.wallets| ==>
            var had := account.wallets[i];
            after.wallets[i] == had.(balance := had.balance
              + if Loaded(had) then Merged(job, |job.file.wallets|, had.id) else 0))
      && account.categories <= after.categories
      && account.transactions <= after.transactions
      && account.transfers <= after.transfers
      && WalletsFit(after.wallets, after.next) && CategoriesFit(after.categories, after.next)
      && Ancestry.Acyclic(Links(after.categories))
  {
    var w, c, t, f := Phases(job, account);
    WalletsKept(job, account, w);
    CategoriesKept(job, account, w, c);
    RowsKept(job, account, w, c);
  }

  lemma WalletsKept(job: Job, account: Account, w: WalletState)
    requires WalletsFit(account.wallets, account.next) && WalletsAfter(job, account, |job.file.wallets|) == Ok(w)
    ensures |account.wallets| <= |w.wallets| && account.next <= w.next && WalletsFit(w.wallets, w.next)
    ensures forall i :: 0 <= i < |account.wallets| ==>
      w.wallets[i] == account.wallets[i].(balance := account.wallets[i].balance
        + if Loaded(account.wallets[i]) then Merged(job, |job.file.wallets|, account.wallets[i].id) else 0)
  {
    LoopTracks(job, account, |job.file.wallets|);
    OldBalances(job, account, |job.file.wallets|);
    TrackedIdsDiffer(account, w);
    hide WalletsAfter, Lawful, Merged;
  }

  lemma CategoriesKept(job: Job, account: Account, w: WalletState, c: CategoryState)
    requires CategoriesFit(account.categories, account.next) && account.next <= w.next
    requires Ancestry.Acyclic(Links(account.categories)) && CategoryPhase(job, account, w) == Ok(c)
    ensures account.categories <= c.categories && w.next <= c.next
    ensures CategoriesFit(c.categories, c.next) && Ancestry.Acyclic(Links(c.categories))
  {
    ImportKeepsAcyclic(job.platform.text, account.categories, w.next, job.file);
    var passes := Passes(job.file);
    CategoriesAreAppended(job.platform.text, CategoriesAtStart(job.platform.text, account.categories, w.next), passes,
                          |passes|);
    CounterGrows(job.platform.text, CategoriesAtStart(job.platform.text, account.categories, w.next), passes, |passes|);
  }

  lemma {:induction false} CounterGrows(text: Text, start: CategoryState, passes: seq<FileCategory>, n: nat)
    requires n <= |passes| && CategoriesAfter(text, start, passes, n).Ok?
    ensures start.next <= CategoriesAfter(text, start, passes, n).value.next
    decreases n
  {
    hide Lawful, CategoryKey, CategoryTaken;
    if n > 0 {
      CounterGrows(text, start, passes, n - 1);
    }
  }

  lemma RowsKept(job: Job, account: Account, w: WalletState, c: CategoryState)
    requires TransactionLoop(job.platform, account.userId, w.idMap, c.idMap, job.file.transactions,
                             account.transactions).Some?
    requires TransferLoop(job.platform, w.idMap, job.file.transfers, account.transfers).Some?
    ensures account.transactions <=
      TransactionLoop(job.platform, account.userId, w.idMap, c.idMap, job.file.transactions,
                      account.transactions).value.rows
    ensures account.transfers <= TransferLoop(job.platform, w.idMap, job.file.transfers, account.transfers).value.rows
  {
    ReceiptsAreOwn(job.platform, account.userId, w.idMap, c.idMap, job.file.transactions, account.transactions);
    TransferAccounts(job.platform, w.idMap, job.file.transfers, account.transfers);
  }

  // ---------------------------------------------------------------- names of created wallets

  /** A created wallet differs in lower case from every active wallet of before, and from every other created one. */
  lemma CreatedNamesAreFree(job: Job, account: Account)
    requires WalletsAfter(job, account, |job.file.wallets|).Ok?
    ensures var s := WalletsAfter(job, account, |job.file.wallets|).value;
      var (text, n) := (job.platform.text, |account.wallets|);
      && n <= |s.wallets|
      && (forall i, k :: 0 <= i < n <= k < |s.wallets| && Loaded(account.wallets[i]) ==>
            text.lower(s.wallets[k].name) != NameKey(text, account.wallets[i].name))
      && (forall j, k :: n <= j < k < |s.wallets| ==> text.lower(s.wallets[j].name) != text.lower(s.wallets[k].name))
  {
    CreatedNames(job, account, |job.file.wallets|);
    var s := WalletsAfter(job, account, |job.file.wallets|).value;
    var text, n := job.platform.text, |account.wallets|;
    hide Lawful, NameKey, WalletsAfter, NameMap, ActiveWallets, Loaded;
    forall i, k | 0 <= i < n <= k < |s.wallets| && Loaded(account.wallets[i])
      ensures text.lower(s.wallets[k].name) != NameKey(text, account.wallets[i].name)
    {
      LoadedIsFound(text, account.wallets, i);
      assert text.lower(s.wallets[k].name) !in ByName(text, account.wallets);
    }
  }

  // ---------------------------------------------------------------- what is not checked

  lemma KeysInOne(text: Text, row: Transaction)
    ensures KeysIn(text, [row]) == {KeyOf(text, row)}
  {
    hide Lawful, KeyOf;
    assert [row][0] == row;
    forall key ensures key in KeysIn(text, [row]) <==> key == KeyOf(text, row) {
    }
  }

  /** Where the column makes the 30th of February the 1st of March, every import books such a transaction. */
  lemma FebruaryThirtiethComesBack(platform: Platform, userId: string)
    requires platform.dateColumn("2024-02-30") == Some("2024-03-01")
    ensures var t := FileTransaction("w", "c", 100, Expense, None, None, "2024-02-30");
      var wallets: map<string, Id> := map["w" := 1];
      var categories: map<string, Id> := map["c" := 2];
      var first := TransactionLoop(platform, userId, wallets, categories, [t], []);
      && first.Some? && first.value.imported == 1
      && var second := TransactionLoop(platform, userId, wallets, categories, [t], first.value.rows);
         second.Some? && second.value.imported == 1
  {
    var t := FileTransaction("w", "c", 100, Expense, None, None, "2024-02-30");
    var wallets: map<string, Id> := map["w" := 1];
    var categories: map<string, Id> := map["c" := 2];
    var d := Description(platform.text, None);
    var k, k' := TransactionKey(1, "2024-02-30", 100, Expense, d), TransactionKey(1, "2024-03-01", 100, Expense, d);
    if k == k' {
      TransactionKeyInjective(1, "2024-02-30", 100, Expense, d, 1, "2024-03-01", 100, Expense, d);
    }
    hide Lawful, TransactionKey, Description;
    assert SortByDate([t]) == [t];
    var row := Transaction(1, 2, 100, Expense, None, None, "2024-03-01");
    var items := TransactionItems(platform, userId, wallets, categories, [t]);
    assert items == [Keyed(k, Some(row))];
    assert KeysIn(platform.text, []) == {};
    assert After(TransactionsAtStart(platform.text, []), items, 1)
        == Add(TransactionsAtStart(platform.text, []), items[0]);
    KeysInOne(platform.text, row);
    assert KeyOf(platform.text, row) == k';
    assert [] + [row] == [row];
    assert After(TransactionsAtStart(platform.text, [row]), items, 1)
        == Add(TransactionsAtStart(platform.text, [row]), items[0]);
  }

  const ARCHIVED_SALARY := FileCategory("p", "Salary", Income, true, None)
  const FOOD_BELOW_SALARY := FileCategory("c", "Food", Expense, false, Some("p"))

  lemma TypesPartKeys(text: Text, a: string, b: string)
    ensures CategoryKey(text, a, Income) != CategoryKey(text, b, Expense)
  {
    TypeNameInjective(Income, Expense);
    TypeNameInjective(Expense, Income);
    hide Lawful, NameKey, Joined, NoColon, TypeName;
    if CategoryKey(text, a, Income) == CategoryKey(text, b, Expense) {
      SplitLast(NameKey(text, a), TypeName(Income), NameKey(text, b), TypeName(Expense));
    }
  }

  lemma TwoTurns(text: Text, next: Id, passes: seq<FileCategory>)
    requires passes == [ARCHIVED_SALARY, FOOD_BELOW_SALARY]
    requires CategoryKey(text, "Salary", Income) != CategoryKey(text, "Food", Expense)
    ensures var r := CategoriesAfter(text, CategoriesAtStart(text, [], next), passes, 2);
      r.Ok? && r.value.categories == [Category(next, false, text.trim("Salary"), Income, true, None),
                                      Category(next + 1, false, text.trim("Food"), Expense, false, Some(next))]
  {
    hide Lawful, CategoryKey;
    var start := CategoriesAtStart(text, [], next);
    var row := Category(next, false, text.trim("Salary"), Income, true, None);
    var s := CategoryState([row], next + 1, map["p" := next], map[CategoryKey(text, "Salary", Income) := next], 1);
    assert start == CategoryState([], next, map[], map[], 0);
    assert [] + [row] == [row];
    assert CategoriesAfter(text, start, passes, 0) == Ok(start);
    assert CategoriesAfter(text, start, passes, 1) == Ok(s);
    assert CategoriesAfter(text, start, passes, 2) == ImportCategory(text, s, FOOD_BELOW_SALARY);
  }

  /**
   The rules of the category service are not checked: in an account without categories, a file can
   hang an active expense category below an archived income category.
   */
  lemma ParentRulesAreSkipped(text: Text, next: Id)
    ensures var passes := Passes(File([], [ARCHIVED_SALARY, FOOD_BELOW_SALARY], [], []));
      var r := CategoriesAfter(text, CategoriesAtStart(text, [], next), passes, |passes|);
      && r.Ok? && |r.value.categories| == 2
      && var (p, c) := (r.value.categories[0], r.value.categories[1]);
         c.parentId == Some(p.id) && p.entryType == Income && c.entryType == Expense && p.isArchived && !c.isArchived
  {
    var file := File([], [ARCHIVED_SALARY, FOOD_BELOW_SALARY], [], []);
    PassesOfTwo(file, ARCHIVED_SALARY, FOOD_BELOW_SALARY);
    TypesPartKeys(text, "Salary", "Food");
    hide Lawful, CategoryKey, Passes, CategoriesAfter, CategoriesAtStart;
    TwoTurns(text, next, Passes(file));
  }

  lemma PassesOfTwo(file: File, root: FileCategory, child: FileCategory)
    requires file.categories == [root, child] && IsRoot(root) && !IsRoot(child)
    ensures Passes(file) == [root, child]
  {
    var cs := file.categories;
    assert cs[..1] == [root] && cs[..1][..0] == [];
    assert Roots(cs[..1]) == [root] && Children(cs[..1]) == [];
    assert Roots(cs) == [root] && Children(cs) == [child];
  }
}
