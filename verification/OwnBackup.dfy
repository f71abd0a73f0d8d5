/** The backup of an account, imported into that account without wallet resolutions. */
module OwnBackup {
  import opened Prelude
  import opened Digits
  import opened TextRules
  import opened Deduplication
  import opened BackupImport
  import opened ImportWalletProofs
  import opened ImportCategoryProofs
  import opened ImportRowProofs
  import opened ReimportProofs
  import opened ImportEffects

  // ---------------------------------------------------------------- the export

  function ExportCategory(c: Category): FileCategory {
    FileCategory(Decimal(c.id), c.name, c.entryType, c.isArchived,
                 if c.parentId.None? then None else Some(Decimal(c.parentId.value)))
  }

  /** Categories of the system are not exported. */
  function ExportCategories(cs: seq<Category>): seq<FileCategory> {
    if cs == [] then []
    else ExportCategories(cs[..|cs| - 1]) + if cs[|cs| - 1].isSystem then [] else [ExportCategory(cs[|cs| - 1])]
  }

  function ExportTransaction(t: Transaction): FileTransaction {
    FileTransaction(Decimal(t.walletId), Decimal(t.categoryId), t.amount, t.entryType, t.description, t.receiptUrl,
                    t.date)
  }

  function ExportTransfer(t: Transfer): FileTransfer {
    FileTransfer(Decimal(t.sourceWalletId), Decimal(t.destinationWalletId), t.amount, t.note, t.transferredAt)
  }

  /** The payload of exportBackup: every wallet, archived or not, the categories of the user, and the rows. */
  function Export(a: Account): File {
    File(
      seq(|a.wallets|, i requires 0 <= i < |a.wallets| =>
        var w := a.wallets[i]; FileWallet(Decimal(w.id), w.name, w.balance, w.isDefault, w.isArchived)),
      ExportCategories(a.categories),
      seq(|a.transactions|, i requires 0 <= i < |a.transactions| => ExportTransaction(a.transactions[i])),
      seq(|a.transfers|, i requires 0 <= i < |a.transfers| => ExportTransfer(a.transfers[i])))
  }

  function OwnJob(platform: Platform, a: Account, mode: BalanceMode): Job {
    Job(platform, Export(a), Options([], mode))
  }

  /** Names are stored without white space around them. */
  ghost predicate NamesAreTrimmed(text: Text, a: Account) {
    && (forall i :: 0 <= i < |a.wallets| ==> text.trim(a.wallets[i].name) == a.wallets[i].name)
    && (forall i :: 0 <= i < |a.categories| ==> text.trim(a.categories[i].name) == a.categories[i].name)
  }

  /** Stored dates have ten characters and go back into the column as they are, and so do stored instants. */
  ghost predicate TimesAreSettled(platform: Platform, a: Account) {
    && (forall i :: 0 <= i < |a.transactions| ==>
          |a.transactions[i].date| == 10 && SettledRow(platform, a.transactions[i]))
    && (forall i :: 0 <= i < |a.transfers| ==>
          platform.isoInstant(a.transfers[i].transferredAt) == Some(a.transfers[i].transferredAt))
  }

  // ---------------------------------------------------------------- its wallets

  /** Every wallet has an active standard namesake, which may be itself. */
  ghost predicate AllLead(text: Text, a: Account) {
    forall i :: 0 <= i < |a.wallets| ==> NameKey(text, a.wallets[i].name) in ByName(text, a.wallets)
  }

  /** What that asks for: only archived wallets and savings accounts need one. */
  lemma AllLeadIff(text: Text, a: Account)
    ensures AllLead(text, a) <==> forall i :: 0 <= i < |a.wallets| && !Loaded(a.wallets[i]) ==>
      NameKey(text, a.wallets[i].name) in ByName(text, a.wallets)
  {
    hide NameKey, ByName, Lawful, Loaded;
    forall i: nat | i < |a.wallets| && Loaded(a.wallets[i])
      ensures NameKey(text, a.wallets[i].name) in ByName(text, a.wallets)
    {
      LoadedIsFound(text, a.wallets, i);
    }
  }

  lemma OwnKey(platform: Platform, a: Account, mode: BalanceMode, m: nat)
    requires m < |a.wallets|
    ensures WalletKey(OwnJob(platform, a, mode), m) == NameKey(platform.text, a.wallets[m].name)
    ensures OwnJob(platform, a, mode).file.wallets[m].id == Decimal(a.wallets[m].id)
  {
  }

  lemma OwnWalletsKnown(platform: Platform, a: Account, mode: BalanceMode)
    ensures AllLead(platform.text, a) <==> WalletsKnown(OwnJob(platform, a, mode), a)
  {
    hide NameKey, ByName, Lawful;
    forall i: nat | i < |a.wallets|
      ensures WalletKey(OwnJob(platform, a, mode), i) == NameKey(platform.text, a.wallets[i].name)
    {
      OwnKey(platform, a, mode, i);
    }
  }

  /** The first wallet without a namesake meets its own name. */
  lemma OwnWalletsFail(platform: Platform, a: Account, mode: BalanceMode, n: nat)
    requires NamesAreTrimmed(platform.text, a) && n < |a.wallets|
    requires var (job, byName) := (OwnJob(platform, a, mode), ByName(platform.text, a.wallets));
      WalletKey(job, n) !in byName && forall m: nat :: m < n ==> WalletKey(job, m) in byName
    ensures Import(OwnJob(platform, a, mode), a) == Err(UniqueViolation)
  {
    var job := OwnJob(platform, a, mode);
    WalletsIdle(job, a, n);
    StartNames(job, a);
    assert platform.text.trim(job.file.wallets[n].name) == a.wallets[n].name;
    hide Lawful, NameKey, ByName, WalletsAfter, ActiveWallets, NameMap, BalanceMap, WalletLeads;
    NamesakeTurnFails(job, a, n);
  }

  // ---------------------------------------------------------------- its categories

  lemma {:induction false} ExportedFrom(cs: seq<Category>, k: nat) returns (i: nat)
    requires k < |ExportCategories(cs)|
    ensures i < |cs| && !cs[i].isSystem && ExportCategories(cs)[k] == ExportCategory(cs[i])
    decreases |cs|
  {
    if k < |ExportCategories(cs[..|cs| - 1])| {
      i := ExportedFrom(cs[..|cs| - 1], k);
    } else {
      i := |cs| - 1;
    }
  }

  lemma {:induction false} IsExported(cs: seq<Category>, i: nat) returns (k: nat)
    requires i < |cs| && !cs[i].isSystem
    ensures k < |ExportCategories(cs)| && ExportCategories(cs)[k] == ExportCategory(cs[i])
    decreases |cs|
  {
    if i < |cs| - 1 {
      k := IsExported(cs[..|cs| - 1], i);
    } else {
      k := |ExportCategories(cs)| - 1;
    }
  }

  /** Every archived category of the user has an active category, of the user or the system, of its name and type. */
  ghost predicate ArchivedHaveNamesakes(text: Text, cs: seq<Category>) {
    forall i :: 0 <= i < |cs| && !cs[i].isSystem && cs[i].isArchived ==>
      CategoryKey(text, cs[i].name, cs[i].entryType) in KeyMap(text, cs)
  }

  lemma PassIsExported(a: Account, n: nat) returns (i: nat)
    requires n < |Passes(Export(a))|
    ensures i < |a.categories| && !a.categories[i].isSystem && Passes(Export(a))[n] == ExportCategory(a.categories[i])
  {
    var k := EveryPlaceIsTaken(Export(a), n);
    PlaceHolds(Export(a), k);
    i := ExportedFrom(a.categories, k);
  }

  lemma OwnPassesFail(text: Text, a: Account, next: Id, n: nat)
    requires NamesAreTrimmed(text, a) && n < |Passes(Export(a))|
    requires KeyAt(text, Passes(Export(a)), n) !in KeyMap(text, a.categories)
    requires forall m: nat :: m < n ==> KeyAt(text, Passes(Export(a)), m) in KeyMap(text, a.categories)
    ensures CategoriesAfter(text, CategoriesAtStart(text, a.categories, next), Passes(Export(a)), |Passes(Export(a))|)
         == Err(UniqueViolation)
  {
    var start, passes := CategoriesAtStart(text, a.categories, next), Passes(Export(a));
    CategoriesIdle(text, a.categories, next, passes, n);
    var i := PassIsExported(a, n);
    hide Lawful, CategoryKey, KeyMap, Passes, Export;
    assert CategoryTaken(a.categories, text.trim(passes[n].name), passes[n].entryType);
    assert CategoriesAfter(text, start, passes, n + 1) == Err(UniqueViolation);
    CategoryErrorStays(text, start, passes, n + 1, |passes|);
  }

  lemma {:induction false} FirstUnknownCategory(text: Text, a: Account, n: nat) returns (m: nat)
    requires n < |Passes(Export(a))| && KeyAt(text, Passes(Export(a)), n) !in KeyMap(text, a.categories)
    ensures m < |Passes(Export(a))| && KeyAt(text, Passes(Export(a)), m) !in KeyMap(text, a.categories)
    ensures forall k: nat :: k < m ==> KeyAt(text, Passes(Export(a)), k) in KeyMap(text, a.categories)
    decreases n
  {
    hide Lawful, KeyAt, KeyMap, Passes, Export;
    m := n;
    if k: nat :| k < n && KeyAt(text, Passes(Export(a)), k) !in KeyMap(text, a.categories) {
      m := FirstUnknownCategory(text, a, k);
    }
  }

  lemma KnownIffNamesakes(text: Text, a: Account)
    ensures ArchivedHaveNamesakes(text, a.categories) <==>
      forall m: nat :: m < |Passes(Export(a))| ==> KeyAt(text, Passes(Export(a)), m) in KeyMap(text, a.categories)
  {
    var cs, passes := a.categories, Passes(Export(a));
    hide Lawful, CategoryKey, KeyMap, Passes;
    if ArchivedHaveNamesakes(text, cs) {
      forall m: nat | m < |passes| ensures KeyAt(text, passes, m) in KeyMap(text, cs) {
        var i := PassIsExported(a, m);
        if !cs[i].isArchived {
          ActiveHasKey(text, cs, i);
        }
      }
    }
    if forall m: nat :: m < |passes| ==> KeyAt(text, passes, m) in KeyMap(text, cs) {
      forall i | 0 <= i < |cs| && !cs[i].isSystem && cs[i].isArchived
        ensures CategoryKey(text, cs[i].name, cs[i].entryType) in KeyMap(text, cs)
      {
        var k := IsExported(cs, i);
        PlaceHolds(Export(a), k);
        assert KeyAt(text, passes, Place(Export(a).categories, k)) in KeyMap(text, cs);
      }
    }
  }

  lemma OwnCategoriesKnown(platform: Platform, a: Account, mode: BalanceMode)
    ensures ArchivedHaveNamesakes(platform.text, a.categories) <==> CategoriesKnown(OwnJob(platform, a, mode), a)
  {
    KnownIffNamesakes(platform.text, a);
  }

  lemma OwnCategoriesFail(platform: Platform, a: Account, mode: BalanceMode)
    requires NamesAreTrimmed(platform.text, a) && WalletsKnown(OwnJob(platform, a, mode), a)
    requires !ArchivedHaveNamesakes(platform.text, a.categories)
    ensures Import(OwnJob(platform, a, mode), a) == Err(UniqueViolation)
  {
    var job, text := OwnJob(platform, a, mode), platform.text;
    WalletsIdle(job, a, |job.file.wallets|);
    KnownIffNamesakes(text, a);
    hide Lawful, KeyAt, KeyMap, Passes, NamesAreTrimmed, CategoriesAfter, WalletsAfter, ArchivedHaveNamesakes,
      WalletLeads,
      ByName, WalletKey;
    var n: nat :| n < |Passes(Export(a))| && KeyAt(text, Passes(Export(a)), n) !in KeyMap(text, a.categories);
    var m := FirstUnknownCategory(text, a, n);
    OwnPassesFail(text, a, WalletsAfter(job, a, |job.file.wallets|).value.next, m);
  }

  // ---------------------------------------------------------------- its rows

  /** The wallet that the name of a wallet leads to. */
  function Lead(text: Text, a: Account, w: Wallet): Id
    requires NameKey(text, w.name) in ByName(text, a.wallets)
  {
    ByName(text, a.wallets)[NameKey(text, w.name)]
  }

  ghost predicate IsOwnCategory(a: Account, id: Id) {
    exists k: nat :: k < |a.categories| && a.categories[k].id == id && !a.categories[k].isSystem
  }

  /** A transaction of wallet j that is moved to the wallet of its name has the key of a stored one. */
  ghost predicate TransactionLeadsBack(text: Text, a: Account, i: nat, j: nat)
    requires AllLead(text, a) && i < |a.transactions| && j < |a.wallets|
  {
    a.wallets[j].id == a.transactions[i].walletId && IsOwnCategory(a, a.transactions[i].categoryId) ==>
    KeyOf(text, a.transactions[i].(walletId := Lead(text, a, a.wallets[j]))) in KeysIn(text, a.transactions)
  }

  /** And so does a transfer from wallet j to wallet k, unless both lead to one wallet. */
  ghost predicate TransferLeadsBack(text: Text, a: Account, i: nat, j: nat, k: nat)
    requires AllLead(text, a) && i < |a.transfers| && j < |a.wallets| && k < |a.wallets|
  {
    var t, source, destination := a.transfers[i], Lead(text, a, a.wallets[j]), Lead(text, a, a.wallets[k]);
    a.wallets[j].id == t.sourceWalletId && a.wallets[k].id == t.destinationWalletId && source != destination ==>
    TransferKeyOf(t.(sourceWalletId := source, destinationWalletId := destination)) in TransferKeysIn(a.transfers)
  }

  ghost predicate RowsLeadBack(text: Text, a: Account)
    requires AllLead(text, a)
  {
    && (forall i: nat, j: nat :: i < |a.transactions| && j < |a.wallets| ==> TransactionLeadsBack(text, a, i, j))
    && (forall i: nat, j: nat, k: nat :: i < |a.transfers| && j < |a.wallets| && k < |a.wallets| ==>
          TransferLeadsBack(text, a, i, j, k))
  }

  lemma {:induction false} OwnLead(platform: Platform, a: Account, mode: BalanceMode, n: nat, j: nat)
    requires WalletsFit(a.wallets, a.next) && AllLead(platform.text, a) && j < n <= |a.wallets|
    ensures var leads := WalletLeads(OwnJob(platform, a, mode), a, n);
      Decimal(a.wallets[j].id) in leads && leads[Decimal(a.wallets[j].id)] == Lead(platform.text, a, a.wallets[j])
    decreases n
  {
    hide NameKey, ByName, Lawful, Decimal, WalletKey;
    OwnKey(platform, a, mode, n - 1);
    if j < n - 1 {
      OwnLead(platform, a, mode, n - 1, j);
      if Decimal(a.wallets[j].id) == Decimal(a.wallets[n - 1].id) {
        DecimalInjective(a.wallets[j].id, a.wallets[n - 1].id);
      }
    }
  }

  ghost predicate IsOwnWallet(a: Account, id: Id) {
    exists j: nat :: j < |a.wallets| && a.wallets[j].id == id
  }

  lemma OwnWalletIds(platform: Platform, a: Account, mode: BalanceMode, id: Id)
    requires AllLead(platform.text, a)
    ensures Decimal(id) in WalletsOf(OwnJob(platform, a, mode), a) <==> IsOwnWallet(a, id)
  {
    var job := OwnJob(platform, a, mode);
    OwnWalletsKnown(platform, a, mode);
    WalletLeadsDomain(job, a, |job.file.wallets|, Decimal(id));
    hide WalletLeads, WalletsKnown, Decimal, AllLead, Lawful;
    if m: nat :| m < |job.file.wallets| && job.file.wallets[m].id == Decimal(id) {
      DecimalInjective(a.wallets[m].id, id);
    }
    if j: nat :| j < |a.wallets| && a.wallets[j].id == id {
      assert job.file.wallets[j].id == Decimal(id);
    }
  }

  lemma OwnCategoryIds(platform: Platform, a: Account, mode: BalanceMode, id: Id)
    requires ArchivedHaveNamesakes(platform.text, a.categories)
    ensures Decimal(id) in CategoriesOf(OwnJob(platform, a, mode), a) <==> IsOwnCategory(a, id)
  {
    var passes := Passes(Export(a));
    OwnCategoriesKnown(platform, a, mode);
    CategoryLeadsDomain(platform.text, a.categories, passes, |passes|, Decimal(id));
    hide CategoryLeads, CategoriesKnown, Decimal, ArchivedHaveNamesakes, Lawful, Passes, ExportCategories, KeyAt,
      KeyMap;
    if m: nat :| m < |passes| && passes[m].id == Decimal(id) {
      var k := PassIsExported(a, m);
      DecimalInjective(a.categories[k].id, id);
    }
    if k: nat :| k < |a.categories| && a.categories[k].id == id && !a.categories[k].isSystem {
      var l := IsExported(a.categories, k);
      PlaceHolds(Export(a), l);
      assert passes[Place(Export(a).categories, l)].id == Decimal(id);
    }
  }

  /** Where transaction i of the file goes, when it is one of wallet j. */
  lemma OwnTransactionKey(platform: Platform, a: Account, mode: BalanceMode, i: nat, j: nat)
    requires WalletsFit(a.wallets, a.next) && AllLead(platform.text, a) && TimesAreSettled(platform, a)
    requires i < |a.transactions| && j < |a.wallets| && a.wallets[j].id == a.transactions[i].walletId
    ensures var leads, t := WalletsOf(OwnJob(platform, a, mode), a), ExportTransaction(a.transactions[i]);
      t.walletId in leads && FileKey(platform.text, leads, t) ==
      KeyOf(platform.text, a.transactions[i].(walletId := Lead(platform.text, a, a.wallets[j])))
  {
    OwnLead(platform, a, mode, |a.wallets|, j);
    hide NameKey, ByName, Lawful, Decimal, TransactionKey, Description, WalletLeads, AllLead;
  }

  lemma OwnTransactions(platform: Platform, a: Account, mode: BalanceMode)
    requires WalletsFit(a.wallets, a.next) && AllLead(platform.text, a) && TimesAreSettled(platform, a)
    requires ArchivedHaveNamesakes(platform.text, a.categories)
    ensures TransactionsKnown(OwnJob(platform, a, mode), a) <==>
      forall i: nat, j: nat :: i < |a.transactions| && j < |a.wallets| ==> TransactionLeadsBack(platform.text, a, i, j)
  {
    var text, job, ts := platform.text, OwnJob(platform, a, mode), Export(a).transactions;
    var wallets, categories := WalletsOf(job, a), CategoriesOf(job, a);
    hide NameKey, ByName, Lawful, Decimal, KeysIn, KeyOf, FileKey, WalletsOf, CategoriesOf, AllLead, Lead, WalletsFit,
      ArchivedHaveNamesakes, TimesAreSettled, IsOwnCategory;
    if TransactionsKnown(job, a) {
      forall i: nat, j: nat | i < |a.transactions| && j < |a.wallets| ensures TransactionLeadsBack(text, a, i, j) {
        if a.wallets[j].id == a.transactions[i].walletId && IsOwnCategory(a, a.transactions[i].categoryId) {
          OwnTransactionKey(platform, a, mode, i, j);
          OwnCategoryIds(platform, a, mode, a.transactions[i].categoryId);
          assert ts[i] in ts && IsMapped(wallets, categories, ts[i]);
          assert FileKey(text, wallets, ts[i]) in FileKeys(text, wallets, categories, ts);
        }
      }
    }
    if forall i: nat, j: nat :: i < |a.transactions| && j < |a.wallets| ==> TransactionLeadsBack(text, a, i, j) {
      forall key | key in FileKeys(text, wallets, categories, ts) ensures key in KeysIn(text, a.transactions) {
        var t :| t in ts && IsMapped(wallets, categories, t) && FileKey(text, wallets, t) == key;
        var i: nat :| i < |ts| && ts[i] == t;
        OwnWalletIds(platform, a, mode, a.transactions[i].walletId);
        OwnCategoryIds(platform, a, mode, a.transactions[i].categoryId);
        var j: nat :| j < |a.wallets| && a.wallets[j].id == a.transactions[i].walletId;
        OwnTransactionKey(platform, a, mode, i, j);
        assert TransactionLeadsBack(text, a, i, j);
      }
    }
  }

  /** Where transfer i of the file goes, when it is one from wallet j to wallet k. */
  lemma OwnTransferKey(platform: Platform, a: Account, mode: BalanceMode, i: nat, j: nat, k: nat)
    requires WalletsFit(a.wallets, a.next) && AllLead(platform.text, a)
    requires i < |a.transfers| && j < |a.wallets| && a.wallets[j].id == a.transfers[i].sourceWalletId
    requires k < |a.wallets| && a.wallets[k].id == a.transfers[i].destinationWalletId
    ensures var leads, t := WalletsOf(OwnJob(platform, a, mode), a), ExportTransfer(a.transfers[i]);
      && t.sourceWalletId in leads && leads[t.sourceWalletId] == Lead(platform.text, a, a.wallets[j])
      && t.destinationWalletId in leads && leads[t.destinationWalletId] == Lead(platform.text, a, a.wallets[k])
  {
    OwnLead(platform, a, mode, |a.wallets|, j);
    OwnLead(platform, a, mode, |a.wallets|, k);
    hide NameKey, ByName, Lawful, Decimal, WalletLeads, AllLead;
  }

  lemma OwnTransfersRead(platform: Platform, a: Account, t: FileTransfer) returns (i: nat)
    requires TimesAreSettled(platform, a) && t in Export(a).transfers
    ensures i < |a.transfers| && t == ExportTransfer(a.transfers[i])
    ensures platform.isoInstant(t.transferredAt) == Some(a.transfers[i].transferredAt)
  {
    hide Decimal, Lawful;
    i :| i < |a.transfers| && Export(a).transfers[i] == t;
  }

  lemma KnownTransfersLeadBack(platform: Platform, a: Account, mode: BalanceMode, i: nat, j: nat, k: nat)
    requires WalletsFit(a.wallets, a.next) && AllLead(platform.text, a) && TimesAreSettled(platform, a)
    requires TransfersKnown(OwnJob(platform, a, mode), a) && i < |a.transfers| && j < |a.wallets| && k < |a.wallets|
    ensures TransferLeadsBack(platform.text, a, i, j, k)
  {
    var text, job, t := platform.text, OwnJob(platform, a, mode), ExportTransfer(a.transfers[i]);
    var leads := WalletsOf(job, a);
    assert t == job.file.transfers[i] && t in job.file.transfers;
    hide NameKey, ByName, Lawful, Decimal, TransferKey, WalletsOf, AllLead, Lead, WalletsFit, TransferKeysIn;
    if a.wallets[j].id == a.transfers[i].sourceWalletId && a.wallets[k].id == a.transfers[i].destinationWalletId
       && Lead(text, a, a.wallets[j]) != Lead(text, a, a.wallets[k]) {
      OwnTransferKey(platform, a, mode, i, j, k);
      assert TransferIsMapped(leads, t);
      assert TransferKey(leads[t.sourceWalletId], leads[t.destinationWalletId], a.transfers[i].transferredAt, t.amount)
        in TransferFileKeys(platform, leads, job.file.transfers);
    }
  }

  lemma OwnTransferKnown(platform: Platform, a: Account, mode: BalanceMode, t: FileTransfer)
    requires WalletsFit(a.wallets, a.next) && AllLead(platform.text, a) && TimesAreSettled(platform, a)
    requires forall i: nat, j: nat, k: nat :: i < |a.transfers| && j < |a.wallets| && k < |a.wallets| ==>
      TransferLeadsBack(platform.text, a, i, j, k)
    requires t in Export(a).transfers && TransferIsMapped(WalletsOf(OwnJob(platform, a, mode), a), t)
    ensures platform.isoInstant(t.transferredAt).Some?
    ensures var leads := WalletsOf(OwnJob(platform, a, mode), a);
      TransferKey(leads[t.sourceWalletId], leads[t.destinationWalletId], platform.isoInstant(t.transferredAt).value,
                  t.amount) in TransferKeysIn(a.transfers)
  {
    var i := OwnTransfersRead(platform, a, t);
    hide NameKey, ByName, Lawful, Decimal, TransferKey, WalletsOf, AllLead, Lead, WalletsFit, TransferKeysIn,
      TimesAreSettled, Export;
    OwnWalletIds(platform, a, mode, a.transfers[i].sourceWalletId);
    OwnWalletIds(platform, a, mode, a.transfers[i].destinationWalletId);
    var j: nat :| j < |a.wallets| && a.wallets[j].id == a.transfers[i].sourceWalletId;
    var k: nat :| k < |a.wallets| && a.wallets[k].id == a.transfers[i].destinationWalletId;
    OwnTransferKey(platform, a, mode, i, j, k);
    assert TransferLeadsBack(platform.text, a, i, j, k);
  }

  lemma OwnTransfers(platform: Platform, a: Account, mode: BalanceMode)
    requires WalletsFit(a.wallets, a.next) && AllLead(platform.text, a) && TimesAreSettled(platform, a)
    ensures TransfersKnown(OwnJob(platform, a, mode), a) <==>
      forall i: nat, j: nat, k: nat :: i < |a.transfers| && j < |a.wallets| && k < |a.wallets| ==>
        TransferLeadsBack(platform.text, a, i, j, k)
  {
    hide NameKey, ByName, Lawful, Decimal, TransferKey, WalletsOf, AllLead, Lead, WalletsFit, TransferKeysIn,
      TimesAreSettled, TransferLeadsBack, TransferIsMapped;
    if TransfersKnown(OwnJob(platform, a, mode), a) {
      forall i: nat, j: nat, k: nat | i < |a.transfers| && j < |a.wallets| && k < |a.wallets|
        ensures TransferLeadsBack(platform.text, a, i, j, k)
      {
        KnownTransfersLeadBack(platform, a, mode, i, j, k);
      }
    }
    if forall i: nat, j: nat, k: nat :: i < |a.transfers| && j < |a.wallets| && k < |a.wallets| ==>
         TransferLeadsBack(platform.text, a, i, j, k) {
      forall t | t in Export(a).transfers && TransferIsMapped(WalletsOf(OwnJob(platform, a, mode), a), t)
        ensures platform.isoInstant(t.transferredAt).Some?
        ensures var leads := WalletsOf(OwnJob(platform, a, mode), a);
          t.sourceWalletId in leads && t.destinationWalletId in leads &&
          TransferKey(leads[t.sourceWalletId], leads[t.destinationWalletId], platform.isoInstant(t.transferredAt).value,
                      t.amount) in TransferKeysIn(a.transfers)
      {
        OwnTransferKnown(platform, a, mode, t);
        assert TransferIsMapped(WalletsOf(OwnJob(platform, a, mode), a), t);
        OwnMappedIds(WalletsOf(OwnJob(platform, a, mode), a), t);
      }
    }
  }

  lemma OwnMappedIds(leads: map<string, Id>, t: FileTransfer)
    requires TransferIsMapped(leads, t)
    ensures t.sourceWalletId in leads && t.destinationWalletId in leads
  {
  }

  // ---------------------------------------------------------------- the theorem

  /** Stored dates can be stored again. */
  lemma OwnDatesTaken(platform: Platform, a: Account, t: FileTransaction)
    requires TimesAreSettled(platform, a) && t in Export(a).transactions
    ensures NoColon(DayOf(t.date)) && platform.dateColumn(DayOf(t.date)).Some?
  {
    hide Decimal, Lawful;
    var i: nat :| i < |a.transactions| && Export(a).transactions[i] == t;
    assert SettledRow(platform, a.transactions[i]);
  }

  /** Both row loops go through. */
  lemma OwnRowsGoThrough(platform: Platform, a: Account, wallets: map<string, Id>, categories: map<string, Id>)
    requires TimesAreSettled(platform, a)
    ensures TransactionLoop(platform, a.userId, wallets, categories, Export(a).transactions, a.transactions).Some?
    ensures TransferLoop(platform, wallets, Export(a).transfers, a.transfers).Some?
  {
    var ts, fs := Export(a).transactions, Export(a).transfers;
    hide TransactionLoop, TransferLoop, KeysIn, FileKey, DayOf, NoColon, Lawful, Export, TimesAreSettled, FileKeys,
      TransferFileKeys, TransferIsMapped, TransferKeysIn, CountTransfers, TransferKeyOf;
    forall t | t in ts ensures NoColon(DayOf(t.date)) && platform.dateColumn(DayOf(t.date)).Some? {
      OwnDatesTaken(platform, a, t);
    }
    TransactionLoopIff(platform, a.userId, wallets, categories, ts, a.transactions);
    forall t | t in fs ensures platform.isoInstant(t.transferredAt).Some? {
      var i := OwnTransfersRead(platform, a, t);
    }
    TransferAccounts(platform, wallets, fs, a.transfers);
  }

  lemma OwnWalletsLength(platform: Platform, a: Account, mode: BalanceMode)
    ensures |OwnJob(platform, a, mode).file.wallets| == |a.wallets|
  {
  }

  lemma UnknownWalletFails(platform: Platform, a: Account, mode: BalanceMode)
    requires NamesAreTrimmed(platform.text, a) && !WalletsKnown(OwnJob(platform, a, mode), a)
    ensures Import(OwnJob(platform, a, mode), a) == Err(UniqueViolation)
  {
    hide Import, ByName, WalletKey, Lawful, NamesAreTrimmed, Export;
    var job := OwnJob(platform, a, mode);
    var n: nat :| n < |job.file.wallets| && WalletKey(job, n) !in ByName(job.platform.text, a.wallets);
    var m := FirstUnknownWallet(job, a, n);
    assert FirstUnknown(job, a, m);
    OwnWalletsLength(platform, a, mode);
    OwnWalletsFail(platform, a, mode, m);
  }

  /**
   Importing the backup of an account into that account. It fails on a unique index exactly when some
   wallet has no active standard namesake or some archived category has no active one. Otherwise it
   leaves wallets and categories alone, and it changes nothing exactly when every transaction and
   transfer, moved to the wallets that the names of its wallets lead to, has the key of a stored one.
   */
  lemma ImportOwnBackup(platform: Platform, a: Account, mode: BalanceMode)
    requires NamesAreTrimmed(platform.text, a) && TimesAreSettled(platform, a) && WalletsFit(a.wallets, a.next)
    ensures var r := Import(OwnJob(platform, a, mode), a);
      if AllLead(platform.text, a) && ArchivedHaveNamesakes(platform.text, a.categories)
      then r.Ok? && r.value.account.wallets == a.wallets && r.value.account.categories == a.categories
           && (r.value.account == a <==> RowsLeadBack(platform.text, a))
      else r == Err(UniqueViolation)
  {
    var job := OwnJob(platform, a, mode);
    OwnWalletsKnown(platform, a, mode);
    OwnCategoriesKnown(platform, a, mode);
    hide ByName, WalletKey, Lawful, NamesAreTrimmed, TimesAreSettled, ArchivedHaveNamesakes, WalletsFit,
      CategoriesKnown,
      Import, Export, TransactionLeadsBack, TransferLeadsBack, TransactionLoop, TransferLoop, AllLead, WalletsOf,
      CategoriesOf, TransactionsKnown, TransfersKnown, WalletsKnown;
    if !AllLead(platform.text, a) {
      UnknownWalletFails(platform, a, mode);
    } else if !ArchivedHaveNamesakes(platform.text, a.categories) {
      OwnCategoriesFail(platform, a, mode);
    } else {
      KnownNamesIdle(job, a);
      ImportIdleIff(job, a);
      OwnTransactions(platform, a, mode);
      OwnTransfers(platform, a, mode);
      OwnRowsGoThrough(platform, a, WalletsOf(job, a), CategoriesOf(job, a));
    }
  }

  // ---------------------------------------------------------------- distinct names

  /** Each active wallet is found by its name, and no other wallet is. */
  lemma {:induction false} ByNameIsOwn(text: Text, ws: seq<Wallet>, i: nat)
    requires forall i, j :: 0 <= i < j < |ws| ==> NameKey(text, ws[i].name) != NameKey(text, ws[j].name)
    requires i < |ws|
    ensures Loaded(ws[i]) ==>
      NameKey(text, ws[i].name) in ByName(text, ws) && ByName(text, ws)[NameKey(text, ws[i].name)] == ws[i].id
    ensures !Loaded(ws[i]) ==> NameKey(text, ws[i].name) !in ByName(text, ws)
    decreases |ws|
  {
    var before, last := ws[..|ws| - 1], ws[|ws| - 1];
    assert ws == before + [last];
    ByNameOfOneMore(text, before, last);
    hide NameKey, Lawful, ByName, Loaded;
    if i < |before| {
      assert before[i] == ws[i];
      ByNameIsOwn(text, before, i);
    } else {
      OtherNamesOnly(text, before, NameKey(text, last.name));
    }
  }

  lemma {:induction false} OtherNamesOnly(text: Text, ws: seq<Wallet>, key: string)
    requires forall i :: 0 <= i < |ws| ==> NameKey(text, ws[i].name) != key
    ensures key !in ByName(text, ws)
    decreases |ws|
  {
    if ws != [] {
      var before, last := ws[..|ws| - 1], ws[|ws| - 1];
      assert ws == before + [last];
      OtherNamesOnly(text, before, key);
      ByNameOfOneMore(text, before, last);
    }
  }

  /** With names that differ in more than case, every wallet leads to itself, and every row is there. */
  lemma OwnRowsLeadBack(text: Text, a: Account)
    requires forall i, j :: 0 <= i < j < |a.wallets| ==>
      NameKey(text, a.wallets[i].name) != NameKey(text, a.wallets[j].name)
    requires AllLead(text, a)
    ensures RowsLeadBack(text, a)
  {
    hide NameKey, ByName, Lawful, KeyOf, TransferKeyOf, Loaded, IsOwnCategory;
    forall j: nat | j < |a.wallets| ensures Lead(text, a, a.wallets[j]) == a.wallets[j].id {
      ByNameIsOwn(text, a.wallets, j);
    }
    forall i: nat, j: nat | i < |a.transactions| && j < |a.wallets| ensures TransactionLeadsBack(text, a, i, j) {
      var t := a.transactions[i];
      assert t.(walletId := t.walletId) == t;
    }
    forall i: nat, j: nat, k: nat | i < |a.transfers| && j < |a.wallets| && k < |a.wallets|
      ensures TransferLeadsBack(text, a, i, j, k)
    {
      var t := a.transfers[i];
      assert t.(sourceWalletId := t.sourceWalletId, destinationWalletId := t.destinationWalletId) == t;
    }
  }

  /** The import changes nothing, or fails as soon as one wallet is archived or a savings account. */
  lemma OwnBackupOfDistinctNames(platform: Platform, a: Account, mode: BalanceMode)
    requires NamesAreTrimmed(platform.text, a) && TimesAreSettled(platform, a) && WalletsFit(a.wallets, a.next)
    requires forall i, j :: 0 <= i < j < |a.wallets| ==>
      NameKey(platform.text, a.wallets[i].name) != NameKey(platform.text, a.wallets[j].name)
    ensures var r := Import(OwnJob(platform, a, mode), a);
      if (forall i :: 0 <= i < |a.wallets| ==> Loaded(a.wallets[i]))
         && ArchivedHaveNamesakes(platform.text, a.categories)
      then r.Ok? && r.value.account == a
      else r == Err(UniqueViolation)
  {
    ImportOwnBackup(platform, a, mode);
    hide NameKey, ByName, Lawful, Import, OwnJob, NamesAreTrimmed, TimesAreSettled, WalletsFit, ArchivedHaveNamesakes,
      RowsLeadBack, Loaded;
    forall i: nat | i < |a.wallets|
      ensures Loaded(a.wallets[i]) <==> NameKey(platform.text, a.wallets[i].name) in ByName(platform.text, a.wallets)
    {
      ByNameIsOwn(platform.text, a.wallets, i);
    }
    if AllLead(platform.text, a) {
      OwnRowsLeadBack(platform.text, a);
    }
  }

  // ---------------------------------------------------------------- accounts for which it fails

  /** An account with an archived wallet: its own backup cannot be imported. */
  lemma ArchivedWalletBlocks(platform: Platform, userId: string, id: Id, mode: BalanceMode)
    requires platform.text.trim("Cash") == "Cash"
    ensures var a := Account(userId, [Wallet(id, "Cash", 0, true, false, true)], [], [], [], id + 1);
      Import(OwnJob(platform, a, mode), a) == Err(UniqueViolation)
  {
    var a := Account(userId, [Wallet(id, "Cash", 0, true, false, true)], [], [], [], id + 1);
    hide NameKey, ByName, Lawful, Import, OwnJob;
    OwnBackupOfDistinctNames(platform, a, mode);
    assert !Loaded(a.wallets[0]);
  }

  const CASH := Wallet(0, "Cash", 0, true, true, false)
  const CASH_IN_LOWER_CASE := Wallet(1, "cash", 0, true, false, false)
  const FOOD := Category(2, false, "Food", Expense, false, None)
  const LUNCH := Transaction(0, 2, 500, Expense, None, None, "2024-05-01")

  /** Two active wallets whose names differ in case only, and one transaction in the first. */
  function TwoOfOneName(userId: string): Account {
    Account(userId, [CASH, CASH_IN_LOWER_CASE], [FOOD], [LUNCH], [], 3)
  }

  lemma SecondNameLeads(text: Text)
    requires NameKey(text, "Cash") == NameKey(text, "cash")
    ensures ByName(text, [CASH, CASH_IN_LOWER_CASE]) == map[NameKey(text, "cash") := 1]
  {
    ByNameOfOneMore(text, [], CASH);
    ByNameOfOneMore(text, [CASH], CASH_IN_LOWER_CASE);
    assert [] + [CASH] == [CASH] && [CASH] + [CASH_IN_LOWER_CASE] == [CASH, CASH_IN_LOWER_CASE];
    hide Lawful, NameKey;
  }

  /** Its own backup can be imported, and the transaction is then booked again, in the other wallet. */
  lemma NamesakesBookAgain(platform: Platform, userId: string, mode: BalanceMode)
    requires var text := platform.text;
      && NameKey(text, "Cash") == NameKey(text, "cash")
      && text.trim("Cash") == "Cash" && text.trim("cash") == "cash" && text.trim("Food") == "Food"
    requires platform.dateColumn("2024-05-01") == Some("2024-05-01")
    ensures var a := TwoOfOneName(userId);
      var r := Import(OwnJob(platform, a, mode), a);
      r.Ok? && r.value.account != a
  {
    var text, a := platform.text, TwoOfOneName(userId);
    SecondNameLeads(text);
    var moved := LUNCH.(walletId := 1);
    MovedIsUnknown(text);
    ImportOwnBackup(platform, a, mode);
    hide NameKey, ByName, Lawful, Import, OwnJob, KeysIn, KeyOf;
    assert AllLead(text, a);
    assert ArchivedHaveNamesakes(text, a.categories);
    assert IsOwnCategory(a, 2) by {
      assert a.categories[0].id == 2;
    }
    assert !TransactionLeadsBack(text, a, 0, 0);
  }

  lemma MovedIsUnknown(text: Text)
    ensures KeyOf(text, LUNCH.(walletId := 1)) !in KeysIn(text, [LUNCH])
  {
    var d := Description(text, None);
    hide Lawful, Description, TransactionKey;
    if KeyOf(text, LUNCH.(walletId := 1)) in KeysIn(text, [LUNCH]) {
      assert [LUNCH][0] == LUNCH;
      TransactionKeyInjective(0, "2024-05-01", 500, Expense, d, 1, "2024-05-01", 500, Expense, d);
      assert false;
    }
  }
}
