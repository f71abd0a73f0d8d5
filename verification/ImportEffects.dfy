/** When an import without wallet resolutions changes nothing, whatever its names and dates. */
module ImportEffects {
  import opened Prelude
  import opened TextRules
  import opened Deduplication
  import opened BackupImport
  import opened ImportCategoryProofs
  import opened ImportRowProofs
  import opened ReimportProofs

  // ---------------------------------------------------------------- where the names lead

  /** Every wallet of the file has an active namesake in the account. */
  ghost predicate WalletsKnown(job: Job, a: Account) {
    forall m: nat :: m < |job.file.wallets| ==> WalletKey(job, m) in ByName(job.platform.text, a.wallets)
  }

  /** Every category of the file has an active namesake of its type, of the user or of the system. */
  ghost predicate CategoriesKnown(job: Job, a: Account) {
    forall m: nat :: m < |Passes(job.file)| ==>
      KeyAt(job.platform.text, Passes(job.file), m) in KeyMap(job.platform.text, a.categories)
  }

  /** The wallet that each of the first n wallet ids of the file leads to, by its name. */
  function WalletLeads(job: Job, a: Account, n: nat): map<string, Id>
    requires n <= |job.file.wallets|
  {
    if n == 0 then map[]
    else
      var before, byName := WalletLeads(job, a, n - 1), ByName(job.platform.text, a.wallets);
      if WalletKey(job, n - 1) !in byName then before
      else before[job.file.wallets[n - 1].id := byName[WalletKey(job, n - 1)]]
  }

  /** The category that each of the first n category ids of the passes leads to, by its name and type. */
  function CategoryLeads(text: Text, cs: seq<Category>, passes: seq<FileCategory>, n: nat): map<string, Id>
    requires n <= |passes|
  {
    if n == 0 then map[]
    else
      var before, byKey := CategoryLeads(text, cs, passes, n - 1), KeyMap(text, cs);
      if KeyAt(text, passes, n - 1) !in byKey then before
      else before[passes[n - 1].id := byKey[KeyAt(text, passes, n - 1)]]
  }

  function WalletsOf(job: Job, a: Account): map<string, Id> {
    WalletLeads(job, a, |job.file.wallets|)
  }

  function CategoriesOf(job: Job, a: Account): map<string, Id> {
    CategoryLeads(job.platform.text, a.categories, Passes(job.file), |Passes(job.file)|)
  }

  /** Every transaction of the file whose ids lead somewhere is in the account, in the wallet its name leads to. */
  ghost predicate TransactionsKnown(job: Job, a: Account) {
    FileKeys(job.platform.text, WalletsOf(job, a), CategoriesOf(job, a), job.file.transactions)
      <= KeysIn(job.platform.text, a.transactions)
  }

  /** Every transfer of the file between different wallets can be read and is in the account. */
  ghost predicate TransfersKnown(job: Job, a: Account) {
    && (forall t :: t in job.file.transfers && TransferIsMapped(WalletsOf(job, a), t) ==>
          job.platform.isoInstant(t.transferredAt).Some?)
    && TransferFileKeys(job.platform, WalletsOf(job, a), job.file.transfers) <= TransferKeysIn(a.transfers)
  }

  ghost predicate ChangesNothing(job: Job, a: Account) {
    Import(job, a).Ok? && Import(job, a).value.account == a
  }

  // ---------------------------------------------------------------- the two id maps

  /** Turns that find their wallet by name change the id map only; one that does not adds a row or fails. */
  lemma {:induction false} WalletsIdle(job: Job, a: Account, n: nat)
    requires job.options.walletResolutions == [] && n <= |job.file.wallets|
    ensures (forall m: nat :: m < n ==> WalletKey(job, m) in ByName(job.platform.text, a.wallets)) ==>
      WalletsAfter(job, a, n) == Ok(WalletsAtStart(job, a).(idMap := WalletLeads(job, a, n)))
    ensures WalletsAfter(job, a, n).Ok? ==>
      var ws := WalletsAfter(job, a, n).value.wallets;
      && |ws| >= |a.wallets|
      && (|ws| == |a.wallets| ==> forall m: nat :: m < n ==> WalletKey(job, m) in ByName(job.platform.text, a.wallets))
    decreases n
  {
    hide ByName, WalletKey, Lawful, ImportWallet, NameMap, ActiveWallets, BalanceMap, FreeName, NameTaken, CreateWallet;
    if n > 0 {
      WalletsIdle(job, a, n - 1);
      if WalletsAfter(job, a, n - 1).Ok? {
        var s := WalletsAfter(job, a, n - 1).value;
        PlainStep(job, a, n - 1, s);
        CreateAdds(job, a, n - 1, s);
      }
    }
  }

  lemma CreateAdds(job: Job, a: Account, n: nat, s: WalletState)
    requires n < |job.file.wallets|
    ensures var w := job.file.wallets[n];
      var t := CreateWallet(job.platform.text, ActiveWallets(a.wallets) != [], s, w, job.platform.text.trim(w.name));
      t.Ok? ==> |t.value.wallets| == |s.wallets| + 1
  {
    hide Lawful, ActiveWallets, FreeName, NameTaken;
  }

  lemma {:induction false} CategoriesIdle(text: Text, cs: seq<Category>, next: Id, passes: seq<FileCategory>, n: nat)
    requires n <= |passes|
    ensures var start := CategoriesAtStart(text, cs, next);
      && ((forall m: nat :: m < n ==> KeyAt(text, passes, m) in KeyMap(text, cs)) ==>
            CategoriesAfter(text, start, passes, n) == Ok(start.(idMap := CategoryLeads(text, cs, passes, n))))
      && (CategoriesAfter(text, start, passes, n).Ok? ==>
            var after := CategoriesAfter(text, start, passes, n).value.categories;
            && |after| >= |cs|
            && (|after| == |cs| ==> forall m: nat :: m < n ==> KeyAt(text, passes, m) in KeyMap(text, cs)))
    decreases n
  {
    hide Lawful, CategoryKey, KeyMap, CategoryTaken, KeyAt;
    var start := CategoriesAtStart(text, cs, next);
    if n > 0 {
      CategoriesIdle(text, cs, next, passes, n - 1);
      if CategoriesAfter(text, start, passes, n - 1).Ok? {
        TurnIs(text, CategoriesAfter(text, start, passes, n - 1).value, passes, n - 1);
      }
    }
  }

  lemma TurnIs(text: Text, s: CategoryState, passes: seq<FileCategory>, n: nat)
    requires n < |passes|
    ensures var (t, key) := (ImportCategory(text, s, passes[n]), KeyAt(text, passes, n));
      if key in s.byKey then t == Ok(s.(idMap := s.idMap[passes[n].id := s.byKey[key]]))
      else t.Ok? ==> |t.value.categories| == |s.categories| + 1
  {
    hide Lawful, CategoryKey, CategoryTaken;
  }

  // ---------------------------------------------------------------- the rows

  lemma KnownTransactionsIdle(job: Job, userId: string, wallets: map<string, Id>, categories: map<string, Id>,
                              rows: seq<Transaction>)
    requires FileKeys(job.platform.text, wallets, categories, job.file.transactions) <= KeysIn(job.platform.text, rows)
    ensures var r := TransactionLoop(job.platform, userId, wallets, categories, job.file.transactions, rows);
      r.Some? && r.value.rows == rows
  {
    var ts := job.file.transactions;
    var items := TransactionItems(job.platform, userId, wallets, categories, SortByDate(ts));
    LoopItems(job.platform, userId, wallets, categories, ts);
    hide SortByDate, TransactionItems, KeysUpTo, FileKeys, KeysIn, CountMapped, CountKeyed, Lawful, After;
    KnownKeysSkip(TransactionsAtStart(job.platform.text, rows), items, |items|);
  }

  lemma TransactionsIdle(job: Job, userId: string, wallets: map<string, Id>, categories: map<string, Id>,
                         rows: seq<Transaction>)
    ensures var r := TransactionLoop(job.platform, userId, wallets, categories, job.file.transactions, rows);
      r.Some? && r.value.rows == rows <==>
      FileKeys(job.platform.text, wallets, categories, job.file.transactions) <= KeysIn(job.platform.text, rows)
  {
    hide TransactionLoop, FileKeys, KeysIn, CountMapped, Lawful;
    var ts := job.file.transactions;
    var file, before := FileKeys(job.platform.text, wallets, categories, ts), KeysIn(job.platform.text, rows);
    if file <= before {
      KnownTransactionsIdle(job, userId, wallets, categories, rows);
    } else if TransactionLoop(job.platform, userId, wallets, categories, ts, rows).Some? {
      LoopGrows(job.platform, userId, wallets, categories, ts, rows);
      TransactionAccounts(job.platform, userId, wallets, categories, ts, rows);
      NoneLeft(file, before);
    }
  }

  lemma NoneLeft(file: set<string>, before: set<string>)
    ensures |file - before| == 0 <==> file <= before
  {
    if |file - before| == 0 {
      assert forall key :: key in file ==> key in before || key in file - before;
    }
  }

  lemma TransfersIdle(job: Job, wallets: map<string, Id>, rows: seq<Transfer>)
    ensures var r := TransferLoop(job.platform, wallets, job.file.transfers, rows);
      r.Some? && r.value.rows == rows <==>
      && (forall t :: t in job.file.transfers && TransferIsMapped(wallets, t) ==>
            job.platform.isoInstant(t.transferredAt).Some?)
      && TransferFileKeys(job.platform, wallets, job.file.transfers) <= TransferKeysIn(rows)
  {
    hide TransferFileKeys, TransferKeysIn, CountTransfers, TransferLoop, TransferIsMapped, TransferKeyOf, Lawful;
    TransferAccounts(job.platform, wallets, job.file.transfers, rows);
    var file, before := TransferFileKeys(job.platform, wallets, job.file.transfers), TransferKeysIn(rows);
    if TransferLoop(job.platform, wallets, job.file.transfers, rows).Some? {
      var r := TransferLoop(job.platform, wallets, job.file.transfers, rows).value;
      NoneLeft(file, before);
      assert r.rows == rows <==> r.imported == 0;
    }
  }

  // ---------------------------------------------------------------- the whole import

  lemma CategoryPhaseIdle(job: Job, a: Account, w: WalletState)
    ensures CategoriesKnown(job, a) ==>
      var start := CategoriesAtStart(job.platform.text, a.categories, w.next);
      CategoryPhase(job, a, w) == Ok(start.(idMap := CategoriesOf(job, a)))
    ensures CategoryPhase(job, a, w).Ok? && |CategoryPhase(job, a, w).value.categories| == |a.categories| ==>
      CategoriesKnown(job, a)
  {
    CategoriesIdle(job.platform.text, a.categories, w.next, Passes(job.file), |Passes(job.file)|);
    hide CategoriesAfter, CategoryLeads, Passes, KeyAt, KeyMap, Lawful;
  }

  /** With all wallets and categories known, both are left as they are, and the names decide where rows go. */
  lemma KnownNamesIdle(job: Job, a: Account)
    requires job.options.walletResolutions == [] && WalletsKnown(job, a) && CategoriesKnown(job, a)
    ensures var t := TransactionLoop(job.platform, a.userId, WalletsOf(job, a), CategoriesOf(job, a),
                                     job.file.transactions, a.transactions);
      var f := TransferLoop(job.platform, WalletsOf(job, a), job.file.transfers, a.transfers);
      Import(job, a) ==
      if t.None? || f.None? then Err(InvalidDate)
      else Ok(Imported(Account(a.userId, a.wallets, a.categories, t.value.rows, f.value.rows, a.next),
                       Counts(0, 0, t.value.imported, f.value.imported, t.value.skipped, f.value.skipped)))
  {
    WalletsIdle(job, a, |job.file.wallets|);
    var w := WalletsAtStart(job, a).(idMap := WalletsOf(job, a));
    CategoryPhaseIdle(job, a, w);
    hide WalletsAfter, CategoryPhase, TransactionLoop, TransferLoop, WalletLeads, CategoryLeads, WalletKey, KeyAt,
      ByName, KeyMap, Passes, NameMap, BalanceMap, ActiveWallets, Lawful;
  }

  /**
   An import without resolutions changes nothing exactly when the account has an active namesake for
   every wallet and category of the file and, in the wallets that their names lead to, every row.
   */
  lemma ImportIdleIff(job: Job, a: Account)
    requires job.options.walletResolutions == []
    ensures ChangesNothing(job, a) <==>
      WalletsKnown(job, a) && CategoriesKnown(job, a) && TransactionsKnown(job, a) && TransfersKnown(job, a)
  {
    if Import(job, a).Ok? {
      var w, c, t, f := Phases(job, a);
      WalletsIdle(job, a, |job.file.wallets|);
      CategoryPhaseIdle(job, a, w);
    }
    hide WalletsAfter, CategoryPhase, TransactionLoop, TransferLoop, WalletsKnown, CategoriesKnown, FileKeys, KeysIn,
      TransferFileKeys, TransferKeysIn, WalletsOf, CategoriesOf, Lawful;
    if WalletsKnown(job, a) && CategoriesKnown(job, a) {
      KnownNamesIdle(job, a);
      TransactionsIdle(job, a.userId, WalletsOf(job, a), CategoriesOf(job, a), a.transactions);
      TransfersIdle(job, WalletsOf(job, a), a.transfers);
    }
  }

  // ---------------------------------------------------------------- a second import of a file

  lemma {:induction false} FoundNamesAreTrimmed(text: Text, ws: seq<Wallet>)
    ensures forall key :: key in ByName(text, ws) ==> text.trim(key) == key
    decreases |ws|
  {
    if ws != [] {
      var before, last := ws[..|ws| - 1], ws[|ws| - 1];
      assert ws == before + [last];
      FoundNamesAreTrimmed(text, before);
      ByNameOfOneMore(text, before, last);
    }
  }

  /** Every reserved name is, trimmed, that of an active wallet. */
  ghost predicate NamesFound(text: Text, s: WalletState) {
    forall key :: key in s.names ==> text.trim(key) in ByName(text, s.wallets)
  }

  lemma CreatedIsFound(text: Text, hadWallets: bool, s: WalletState, w: FileWallet)
    requires NamesFound(text, s) && !w.isArchived
    requires CreateWallet(text, hadWallets, s, w, text.trim(w.name)).Ok?
    ensures var t := CreateWallet(text, hadWallets, s, w, text.trim(w.name)).value;
      && NamesFound(text, t) && NameKey(text, w.name) in ByName(text, t.wallets)
      && forall key :: key in ByName(text, s.wallets) ==> key in ByName(text, t.wallets)
  {
    var t := CreateWallet(text, hadWallets, s, w, text.trim(w.name)).value;
    var row := t.wallets[|s.wallets|];
    ByNameOfOneMore(text, s.wallets, row);
    TrimmedKey(text, w.name);
    assert text.trim(text.lower(row.name)) == NameKey(text, row.name);
    assert text.trim(NameKey(text, w.name)) == NameKey(text, w.name);
    hide ByName, FirstFree, NameTaken;
  }

  /** Unless an archived wallet is made, every wallet of the file has an active namesake afterwards. */
  lemma {:induction false} LoopKnowsWallets(job: Job, account: Account, n: nat)
    requires job.options.walletResolutions == [] && n <= |job.file.wallets| && WalletsAfter(job, account, n).Ok?
    requires forall m: nat :: m < n ==> !MakesArchivedWallet(job, account, m)
    ensures var s := WalletsAfter(job, account, n).value;
      && NamesFound(job.platform.text, s)
      && (forall key :: key in ByName(job.platform.text, account.wallets) ==>
            key in ByName(job.platform.text, s.wallets))
      && forall m: nat :: m < n ==> WalletKey(job, m) in ByName(job.platform.text, s.wallets)
    decreases n
  {
    hide ByName, Lawful, ImportWallet, CreateWallet, NameKey;
    var text := job.platform.text;
    if n == 0 {
      FoundNamesAreTrimmed(text, account.wallets);
      StartNames(job, account);
    } else {
      LoopKnowsWallets(job, account, n - 1);
      var s := WalletsAfter(job, account, n - 1).value;
      PlainStep(job, account, n - 1, s);
      if WalletKey(job, n - 1) !in ByName(text, account.wallets) {
        assert !MakesArchivedWallet(job, account, n - 1);
        CreatedIsFound(text, ActiveWallets(account.wallets) != [], s, job.file.wallets[n - 1]);
      }
    }
  }

  lemma SecondCategoriesKnown(job: Job, account: Account, w: WalletState, c: CategoryState, after: Account)
    requires CategoryPhase(job, account, w) == Ok(c) && after.categories == c.categories
    requires forall m: nat :: m < |Passes(job.file)| ==>
      !MakesArchivedCategory(job.platform.text, CategoriesAtStart(job.platform.text, account.categories, account.next),
                             Passes(job.file), m)
    ensures CategoriesKnown(job, after) && CategoriesOf(job, after) == c.idMap
  {
    var text, passes := job.platform.text, Passes(job.file);
    forall m: nat | m < |passes|
      ensures !MakesArchivedCategory(text, CategoriesAtStart(text, account.categories, w.next), passes, m)
    {
      CounterIsIrrelevant(text, account.categories, account.next, w.next, passes, m);
    }
    SecondCategoryPhase(text, account.categories, w.next, after.next, passes);
    CategoriesIdle(text, after.categories, after.next, passes, |passes|);
    hide CategoriesAfter, MakesArchivedCategory, Passes, KeyAt, KeyMap, Lawful;
  }

  /**
   When the first import makes nothing archived, the second finds every wallet and category, and it
   changes nothing exactly when every row is, by now, in the wallet that its name leads to.
   */
  lemma SecondImportIdleIff(job: Job, account: Account)
    requires job.options.walletResolutions == [] && Import(job, account).Ok? && MakesNothingArchived(job, account)
    ensures var after := Import(job, account).value.account;
      && WalletsKnown(job, after) && CategoriesKnown(job, after)
      && (ChangesNothing(job, after) <==> TransactionsKnown(job, after) && TransfersKnown(job, after))
  {
    var w, c, t, f := Phases(job, account);
    var after := Import(job, account).value.account;
    LoopKnowsWallets(job, account, |job.file.wallets|);
    SecondCategoriesKnown(job, account, w, c, after);
    ImportIdleIff(job, after);
    hide ByName, ChangesNothing, CategoriesKnown, TransactionsKnown, TransfersKnown, WalletsAfter, Import, Lawful;
  }

  /** The first file wallet without an active namesake fails if its exact name is stored, and else becomes a wallet. */
  lemma UnknownWalletDecides(job: Job, a: Account, n: nat)
    requires job.options.walletResolutions == [] && n < |job.file.wallets|
    requires WalletKey(job, n) !in ByName(job.platform.text, a.wallets)
    requires forall m: nat :: m < n ==> WalletKey(job, m) in ByName(job.platform.text, a.wallets)
    ensures NameTaken(a.wallets, job.platform.text.trim(job.file.wallets[n].name)) ==>
      Import(job, a) == Err(UniqueViolation)
    ensures Import(job, a).Ok? ==> |Import(job, a).value.account.wallets| > |a.wallets|
  {
    WalletsIdle(job, a, n);
    WalletsIdle(job, a, |job.file.wallets|);
    StartNames(job, a);
    hide Lawful, WalletKey, NameKey, ByName, WalletsAfter, ActiveWallets, NameMap, BalanceMap, WalletLeads, NameTaken,
      CategoryPhase, TransactionLoop, TransferLoop;
    if NameTaken(a.wallets, job.platform.text.trim(job.file.wallets[n].name)) {
      NamesakeTurnFails(job, a, n);
    }
  }

  /**
   A second import of a file, whatever its names. With every name known it changes nothing exactly when
   every row is known; with a category unknown it fails on a unique index; and with a wallet unknown it
   fails so too if the exact name of the first such wallet is stored, and else at best makes a wallet.
   */
  lemma SecondImportOfAnyNames(job: Job, account: Account)
    requires job.options.walletResolutions == [] && Import(job, account).Ok?
    ensures var after := Import(job, account).value.account;
      && (WalletsKnown(job, after) && CategoriesKnown(job, after) ==>
            (ChangesNothing(job, after) <==> TransactionsKnown(job, after) && TransfersKnown(job, after)))
      && (WalletsKnown(job, after) && !CategoriesKnown(job, after) ==> Import(job, after) == Err(UniqueViolation))
      && (!WalletsKnown(job, after) ==>
            exists n: nat :: n < |job.file.wallets| && FirstUnknown(job, after, n)
              && if NameTaken(after.wallets, job.platform.text.trim(job.file.wallets[n].name))
                 then Import(job, after) == Err(UniqueViolation)
                 else Import(job, after).Ok? ==> |Import(job, after).value.account.wallets| > |after.wallets|)
  {
    var w, c, t, f := Phases(job, account);
    var after := Import(job, account).value.account;
    hide ByName, WalletKey, Import, ChangesNothing, CategoriesKnown, TransactionsKnown, TransfersKnown, WalletsAfter,
      NameTaken, CategoryPhase, TransactionLoop, TransferLoop, Lawful;
    ImportIdleIff(job, after);
    if !WalletsKnown(job, after) {
      var n: nat :| n < |job.file.wallets| && WalletKey(job, n) !in ByName(job.platform.text, after.wallets);
      var m := FirstUnknownWallet(job, after, n);
      UnknownWalletDecides(job, after, m);
      assert FirstUnknown(job, after, m);
    } else if !CategoriesKnown(job, after) {
      UnknownCategoryFails(job, account, w, c, after);
    }
  }

  /** File wallet n is the first without an active namesake in the account. */
  ghost predicate FirstUnknown(job: Job, a: Account, n: nat)
    requires n < |job.file.wallets|
  {
    && WalletKey(job, n) !in ByName(job.platform.text, a.wallets)
    && forall m: nat :: m < n ==> WalletKey(job, m) in ByName(job.platform.text, a.wallets)
  }

  lemma {:induction false} FirstUnknownWallet(job: Job, a: Account, n: nat) returns (m: nat)
    requires n < |job.file.wallets| && WalletKey(job, n) !in ByName(job.platform.text, a.wallets)
    ensures m < |job.file.wallets| && FirstUnknown(job, a, m)
    decreases n
  {
    hide Lawful, WalletKey, ByName;
    m := n;
    if k: nat :| k < n && WalletKey(job, k) !in ByName(job.platform.text, a.wallets) {
      m := FirstUnknownWallet(job, a, k);
    }
  }

  lemma UnknownCategoryFails(job: Job, account: Account, w: WalletState, c: CategoryState, after: Account)
    requires job.options.walletResolutions == [] && WalletsKnown(job, after) && !CategoriesKnown(job, after)
    requires CategoryPhase(job, account, w) == Ok(c) && after.categories == c.categories
    ensures Import(job, after) == Err(UniqueViolation)
  {
    var text, passes := job.platform.text, Passes(job.file);
    WalletsIdle(job, after, |job.file.wallets|);
    var again := WalletsAfter(job, after, |job.file.wallets|).value;
    SecondCategoryPhase(text, account.categories, w.next, again.next, passes);
    CategoryPhaseIdle(job, after, again);
    assert CategoryPhase(job, after, again) == Err(UniqueViolation) by {
      hide WalletsAfter, CategoriesAfter, MakesArchivedCategory, Passes, Lawful, WalletsKnown, CategoriesKnown;
    }
    hide WalletsAfter, CategoryPhase, Passes, Lawful;
  }

  // ---------------------------------------------------------------- a second import, wallet names being distinct

  ghost predicate IsWalletId(job: Job, id: string) {
    exists m: nat :: m < |job.file.wallets| && job.file.wallets[m].id == id
  }

  ghost predicate IsCategoryId(job: Job, id: string) {
    exists m: nat :: m < |Passes(job.file)| && Passes(job.file)[m].id == id
  }

  /** The column gives back the date of every transaction whose wallet and category are in the file. */
  ghost predicate FileDatesKept(job: Job) {
    forall t :: t in job.file.transactions && IsWalletId(job, t.walletId) && IsCategoryId(job, t.categoryId) ==>
      job.platform.dateColumn(DayOf(t.date)) == Some(DayOf(t.date))
  }

  lemma {:induction false} WalletLeadsDomain(job: Job, a: Account, n: nat, id: string)
    requires n <= |job.file.wallets|
    requires forall m: nat :: m < n ==> WalletKey(job, m) in ByName(job.platform.text, a.wallets)
    ensures id in WalletLeads(job, a, n) <==> exists m: nat :: m < n && job.file.wallets[m].id == id
    decreases n
  {
    hide ByName, WalletKey, Lawful;
    if n > 0 {
      WalletLeadsDomain(job, a, n - 1, id);
    }
  }

  lemma {:induction false} CategoryLeadsDomain(text: Text, cs: seq<Category>, passes: seq<FileCategory>, n: nat,
                                               id: string)
    requires n <= |passes| && forall m: nat :: m < n ==> KeyAt(text, passes, m) in KeyMap(text, cs)
    ensures id in CategoryLeads(text, cs, passes, n) <==> exists m: nat :: m < n && passes[m].id == id
    decreases n
  {
    hide KeyAt, KeyMap, Lawful;
    if n > 0 {
      CategoryLeadsDomain(text, cs, passes, n - 1, id);
    }
  }

  lemma FileDatesAre(job: Job, a: Account)
    requires WalletsKnown(job, a) && CategoriesKnown(job, a)
    ensures FileDatesKept(job) <==>
      DatesKept(job.platform, WalletsOf(job, a), CategoriesOf(job, a), job.file.transactions)
  {
    forall t | t in job.file.transactions
      ensures IsMapped(WalletsOf(job, a), CategoriesOf(job, a), t) <==>
        IsWalletId(job, t.walletId) && IsCategoryId(job, t.categoryId)
    {
      WalletLeadsDomain(job, a, |job.file.wallets|, t.walletId);
      CategoryLeadsDomain(job.platform.text, a.categories, Passes(job.file), |Passes(job.file)|, t.categoryId);
    }
    hide WalletsKnown, CategoriesKnown, WalletsOf, CategoriesOf, IsMapped, IsWalletId, IsCategoryId, DayOf, Lawful;
  }

  /** With distinct names the second import maps every id as the first one did. */
  lemma SameLeads(job: Job, account: Account, w: WalletState, after: Account)
    requires job.options.walletResolutions == [] && WalletNamesDiffer(job)
    requires WalletsAfter(job, account, |job.file.wallets|) == Ok(w) && after.wallets == w.wallets
    requires forall m: nat :: m < |job.file.wallets| ==> !MakesArchivedWallet(job, account, m)
    ensures WalletsKnown(job, after) && WalletsOf(job, after) == w.idMap
  {
    SecondWalletPhase(job, account, after);
    WalletsIdle(job, after, |job.file.wallets|);
    hide WalletsAfter, MakesArchivedWallet, WalletNamesDiffer, ByName, WalletKey, WalletLeads, Lawful;
  }

  /**
   Importing a file twice, its wallet names being distinct but for case and white space. If the first
   import makes an archived row, the second fails on a unique index. Otherwise the second goes through
   and changes no wallet, category or transfer; and no transaction exactly when the date column gives
   back the date of every transaction of the file, else it books at least one of them again.
   */
  lemma ImportTwice(job: Job, account: Account)
    requires job.options.walletResolutions == [] && WalletNamesDiffer(job)
    requires SettledColumn(job.platform) && SettledRows(job.platform, account.transactions)
    requires PlainDates(job.file.transactions) && Import(job, account).Ok?
    ensures var after, again := Import(job, account).value.account, Import(job, Import(job, account).value.account);
      if MakesNothingArchived(job, account)
      then again.Ok? && again.value.account == after.(transactions := again.value.account.transactions)
           && after.transactions <= again.value.account.transactions
           && (again.value.account == after <==> FileDatesKept(job))
      else again == Err(UniqueViolation)
  {
    var w, c, t, f := Phases(job, account);
    var after := Import(job, account).value.account;
    if MakesNothingArchived(job, account) {
      SameLeads(job, account, w, after);
      SecondCategoriesKnown(job, account, w, c, after);
      KnownNamesIdle(job, after);
      FileDatesAre(job, after);
      SecondLoopIdleIff(job.platform, account.userId, w.idMap, c.idMap, job.file.transactions, account.transactions);
      LoopGrows(job.platform, account.userId, w.idMap, c.idMap, job.file.transactions, t.rows);
      TransfersAgain(job.platform, w.idMap, job.file.transfers, account.transfers);
      hide *;
    } else {
      SecondImportFails(job, account, w, c, after);
    }
  }

  lemma SecondImportFails(job: Job, account: Account, w: WalletState, c: CategoryState, after: Account)
    requires job.options.walletResolutions == [] && WalletNamesDiffer(job) && !MakesNothingArchived(job, account)
    requires WalletsAfter(job, account, |job.file.wallets|) == Ok(w) && after.wallets == w.wallets
    requires CategoryPhase(job, account, w) == Ok(c) && after.categories == c.categories
    ensures Import(job, after) == Err(UniqueViolation)
  {
    var text, passes := job.platform.text, Passes(job.file);
    SecondWalletPhase(job, account, after);
    hide WalletsAfter, CategoriesAfter, MakesArchivedWallet, MakesArchivedCategory, WalletNamesDiffer, Passes, Lawful;
    if forall m: nat :: m < |job.file.wallets| ==> !MakesArchivedWallet(job, account, m) {
      var again := WalletsAfter(job, after, |job.file.wallets|).value;
      SecondCategoryPhase(text, account.categories, w.next, again.next, passes);
      var m: nat :| m < |passes|
        && MakesArchivedCategory(text, CategoriesAtStart(text, account.categories, account.next), passes, m);
      CounterIsIrrelevant(text, account.categories, account.next, w.next, passes, m);
      assert CategoryPhase(job, after, again) == Err(UniqueViolation);
    }
  }

  const ARCHIVED_CASH := FileWallet("w", "Cash", 0, false, true)

  function OneArchivedWallet(platform: Platform): Job {
    Job(platform, File([ARCHIVED_CASH], [], [], []), Options([], MAINTAIN_CURRENT))
  }

  /** A file with an archived wallet goes into an empty account once, but not twice. */
  lemma ArchivedFileWalletBlocks(platform: Platform, userId: string)
    ensures var job, empty := OneArchivedWallet(platform), Account(userId, [], [], [], [], 0);
      && Import(job, empty).Ok?
      && Import(job, Import(job, empty).value.account) == Err(UniqueViolation)
  {
    var job, empty := OneArchivedWallet(platform), Account(userId, [], [], [], [], 0);
    FirstGoesThrough(platform, userId);
    var w, c, t, f := Phases(job, empty);
    assert MakesArchivedWallet(job, empty, 0);
    hide Import, WalletsAfter, CategoryPhase, MakesArchivedWallet, MakesArchivedCategory, TransactionLoop,
      TransferLoop, Lawful;
    SecondImportFails(job, empty, w, c, Import(job, empty).value.account);
  }

  lemma FirstGoesThrough(platform: Platform, userId: string)
    ensures Import(OneArchivedWallet(platform), Account(userId, [], [], [], [], 0)).Ok?
  {
    var job, empty := OneArchivedWallet(platform), Account(userId, [], [], [], [], 0);
    hide Lawful, FirstFree;
    PlainStep(job, empty, 0, WalletsAtStart(job, empty));
    assert WalletsAfter(job, empty, 1).Ok?;
    var w := WalletsAfter(job, empty, 1).value;
    assert Passes(job.file) == [];
    assert CategoryPhase(job, empty, w).Ok?;
    assert SortByDate([]) == [];
    assert TransactionItems(platform, userId, w.idMap, CategoryPhase(job, empty, w).value.idMap, []) == [];
    assert TransferItems(platform, w.idMap, []) == [];
  }
}
