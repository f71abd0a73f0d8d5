/**
 What the row loops of the import book, field by field: which transactions count as the same, that no
 mapped row of the file is lost, and that no row is stored that the file does not hold.
 */
module ImportLedger {
  import opened Prelude
  import opened TextRules
  import opened Deduplication
  import opened BackupImport
  import opened ImportRowProofs
  import opened ImportCategoryProofs

  // ---------------------------------------------------------------- what a key means

  /** Two descriptions are the same but for case and white space around them; none is the empty one. */
  predicate SameWords(text: TextFunctions, a: Option<string>, b: Option<string>) {
    text.lower(text.trim(if a.Some? then a.value else "")) == text.lower(text.trim(if b.Some? then b.value else ""))
  }

  /** Stored transactions have one key exactly when wallet, date, amount, type and words are the same. */
  lemma KeysAgreeIff(text: Text, a: Transaction, b: Transaction)
    requires NoColon(a.date) && NoColon(b.date)
    ensures KeyOf(text, a) == KeyOf(text, b) <==>
      a.walletId == b.walletId && a.date == b.date && a.amount == b.amount && a.entryType == b.entryType
      && SameWords(text, a.description, b.description)
  {
    var d, d' := Description(text, a.description), Description(text, b.description);
    assert SameWords(text, a.description, b.description) <==> d == d';
    hide Description, SameWords, Lawful, TransactionKey;
    if KeyOf(text, a) == KeyOf(text, b) {
      TransactionKeyInjective(a.walletId, a.date, a.amount, a.entryType, d,
                              b.walletId, b.date, b.amount, b.entryType, d');
    }
  }

  /** The day of a transaction of the file: ten characters, or all of them. */
  function FirstTen(date: string): string {
    if |date| <= 10 then date else date[..10]
  }

  /** The row is one of the wallet, day, amount, type and words of a transaction of the file. */
  predicate Records(text: TextFunctions, wallets: map<string, Id>, t: FileTransaction, row: Transaction, date: string) {
    t.walletId in wallets && row.walletId == wallets[t.walletId] && row.date == date && row.amount == t.amount
    && row.entryType == t.entryType && SameWords(text, row.description, t.description)
  }

  /** The key of a transaction of the file is that of a stored one of the same fields. */
  lemma FileKeyMeans(text: Text, wallets: map<string, Id>, t: FileTransaction, row: Transaction)
    requires t.walletId in wallets && NoColon(FirstTen(t.date)) && NoColon(row.date)
    ensures FileKey(text, wallets, t) == KeyOf(text, row) <==> Records(text, wallets, t, row, FirstTen(t.date))
  {
    var as_row := Transaction(wallets[t.walletId], 0, t.amount, t.entryType, t.description, None, FirstTen(t.date));
    KeysAgreeIff(text, row, as_row);
    assert KeyOf(text, as_row) == FileKey(text, wallets, t) by {
      hide TransactionKey, Description, Lawful;
    }
    hide KeyOf, FileKey, Lawful;
  }

  /** Two transactions of the file have one key exactly when wallet, day, amount, type and words are the same. */
  lemma FileKeysAgreeIff(text: Text, wallets: map<string, Id>, t: FileTransaction, u: FileTransaction)
    requires t.walletId in wallets && u.walletId in wallets
    requires NoColon(FirstTen(t.date)) && NoColon(FirstTen(u.date))
    ensures FileKey(text, wallets, t) == FileKey(text, wallets, u) <==>
      wallets[t.walletId] == wallets[u.walletId] && FirstTen(t.date) == FirstTen(u.date) && t.amount == u.amount
      && t.entryType == u.entryType && SameWords(text, t.description, u.description)
  {
    var row := Transaction(wallets[u.walletId], 0, u.amount, u.entryType, u.description, None, FirstTen(u.date));
    FileKeyMeans(text, wallets, t, row);
    FileKeyMeans(text, wallets, u, row);
    hide KeyOf, FileKey, Lawful, NoColon;
  }

  // ---------------------------------------------------------------- transactions

  /** The row that a transaction of the file makes: mapped, with its receipt only if that is the user's own. */
  ghost predicate IsRowOf(platform: Platform, userId: string, wallets: map<string, Id>, categories: map<string, Id>,
                          t: FileTransaction, row: Transaction)
  {
    && t.walletId in wallets && t.categoryId in categories
    && row.walletId == wallets[t.walletId] && row.categoryId == categories[t.categoryId]
    && row.amount == t.amount && row.entryType == t.entryType && row.description == t.description
    && platform.dateColumn(FirstTen(t.date)) == Some(row.date)
    && (if t.receiptUrl.Some? && "receipts/" + userId + "/" <= t.receiptUrl.value then row.receiptUrl == t.receiptUrl
        else row.receiptUrl == None)
  }

  lemma ItemIsRow(platform: Platform, userId: string, wallets: map<string, Id>, categories: map<string, Id>,
                  ts: seq<FileTransaction>, i: nat)
    requires i < |ts|
    ensures var item := TransactionItems(platform, userId, wallets, categories, ts)[i];
      && (item.Keyed? <==> ts[i].walletId in wallets && ts[i].categoryId in categories)
      && (item.Keyed? ==> item.key == FileKey(platform.text, wallets, ts[i]))
      && (item.Keyed? && item.row.Some? ==> IsRowOf(platform, userId, wallets, categories, ts[i], item.row.value))
  {
    hide TransactionKey, Description, Lawful;
  }

  /** The row is that of a transaction of the list. */
  ghost predicate OfFile(platform: Platform, userId: string, wallets: map<string, Id>, categories: map<string, Id>,
                         ts: seq<FileTransaction>, row: Transaction)
  {
    exists i :: 0 <= i < |ts| && IsRowOf(platform, userId, wallets, categories, ts[i], row)
  }

  /** Every new row is that of a transaction of the file. */
  lemma NoRowIsInvented(platform: Platform, userId: string, wallets: map<string, Id>, categories: map<string, Id>,
                        ts: seq<FileTransaction>, rows: seq<Transaction>)
    requires TransactionLoop(platform, userId, wallets, categories, ts, rows).Some?
    ensures var after := TransactionLoop(platform, userId, wallets, categories, ts, rows).value.rows;
      rows <= after && forall k :: |rows| <= k < |after| ==>
        OfFile(platform, userId, wallets, categories, ts, after[k])
  {
    var sorted := SortByDate(ts);
    var items := TransactionItems(platform, userId, wallets, categories, sorted);
    SortIsStable(ts, "");
    SameMembers(sorted, ts);
    var ofFile := (row: Transaction) => OfFile(platform, userId, wallets, categories, ts, row);
    hide SortByDate, TransactionItems, IsRowOf, Lawful, KeysIn;
    forall i: nat | i < |items| && items[i].Keyed? && items[i].row.Some? ensures ofFile(items[i].row.value) {
      ItemIsRow(platform, userId, wallets, categories, sorted, i);
      assert sorted[i] in ts;
      var j :| 0 <= j < |ts| && ts[j] == sorted[i];
    }
    NewRowsSatisfy(ofFile, TransactionsAtStart(platform.text, rows), items);
  }

  ghost predicate PlainRows(rows: seq<Transaction>) {
    forall i :: 0 <= i < |rows| ==> NoColon(rows[i].date)
  }

  /** Transaction t is in the list: with its own day, or with what the column makes of it. */
  ghost predicate IsBooked(platform: Platform, wallets: map<string, Id>, t: FileTransaction, rows: seq<Transaction>) {
    exists k :: 0 <= k < |rows|
      && (Records(platform.text, wallets, t, rows[k], FirstTen(t.date))
          || (platform.dateColumn(FirstTen(t.date)) == Some(rows[k].date)
              && Records(platform.text, wallets, t, rows[k], rows[k].date)))
  }

  /** A key that is new to the table is that of a row which the loop adds for some transaction of the file. */
  lemma NewKeyHasRow(platform: Platform, userId: string, wallets: map<string, Id>, categories: map<string, Id>,
                     ts: seq<FileTransaction>, rows: seq<Transaction>, key: string) returns (u: FileTransaction, k: nat)
    requires TransactionLoop(platform, userId, wallets, categories, ts, rows).Some?
    requires key in FileKeys(platform.text, wallets, categories, ts) - KeysIn(platform.text, rows)
    ensures u in ts && u.walletId in wallets && FileKey(platform.text, wallets, u) == key
    ensures var after := TransactionLoop(platform, userId, wallets, categories, ts, rows).value.rows;
      |rows| <= k < |after| && IsRowOf(platform, userId, wallets, categories, u, after[k])
  {
    var sorted, start := SortByDate(ts), TransactionsAtStart(platform.text, rows);
    var items := TransactionItems(platform, userId, wallets, categories, sorted);
    SortIsStable(ts, "");
    SameMembers(sorted, ts);
    LoopItems(platform, userId, wallets, categories, ts);
    hide SortByDate, TransactionItems, IsRowOf, Lawful, KeysIn, FileKey, FileKeys, KeysUpTo, After;
    var i;
    i, k := NewKeyIsStored(start, items, key);
    u := sorted[i];
    assert u in sorted;
    ItemIsRow(platform, userId, wallets, categories, sorted, i);
  }

  lemma NewKeyIsBooked(platform: Platform, userId: string, wallets: map<string, Id>, categories: map<string, Id>,
                       ts: seq<FileTransaction>, rows: seq<Transaction>, t: FileTransaction)
    requires PlainDates(ts) && t in ts && IsMapped(wallets, categories, t)
    requires TransactionLoop(platform, userId, wallets, categories, ts, rows).Some?
    requires FileKey(platform.text, wallets, t) !in KeysIn(platform.text, rows)
    ensures IsBooked(platform, wallets, t, TransactionLoop(platform, userId, wallets, categories, ts, rows).value.rows)
  {
    hide TransactionLoop, FileKey, KeysIn, Lawful, NoColon, SameWords, IsBooked, IsRowOf;
    var u, k := NewKeyHasRow(platform, userId, wallets, categories, ts, rows, FileKey(platform.text, wallets, t));
    DayIsPlain(t);
    DayIsPlain(u);
    FileKeysAgreeIff(platform.text, wallets, t, u);
    var after := TransactionLoop(platform, userId, wallets, categories, ts, rows).value.rows;
    BookedAt(platform, userId, wallets, categories, t, u, after, k);
  }

  lemma BookedAt(platform: Platform, userId: string, wallets: map<string, Id>, categories: map<string, Id>,
                 t: FileTransaction, u: FileTransaction, rows: seq<Transaction>, k: nat)
    requires k < |rows| && IsRowOf(platform, userId, wallets, categories, u, rows[k]) && t.walletId in wallets
    requires wallets[t.walletId] == wallets[u.walletId] && FirstTen(t.date) == FirstTen(u.date) && t.amount == u.amount
    requires t.entryType == u.entryType && SameWords(platform.text, t.description, u.description)
    ensures IsBooked(platform, wallets, t, rows)
  {
    hide Lawful;
    assert Records(platform.text, wallets, t, rows[k], rows[k].date);
  }

  /** No mapped transaction of the file is lost: a stored one has its wallet, day, amount, type and words. */
  lemma NoTransactionIsLost(platform: Platform, userId: string, wallets: map<string, Id>, categories: map<string, Id>,
                            ts: seq<FileTransaction>, rows: seq<Transaction>, t: FileTransaction)
    requires PlainDates(ts) && PlainRows(rows) && t in ts && t.walletId in wallets && t.categoryId in categories
    requires TransactionLoop(platform, userId, wallets, categories, ts, rows).Some?
    ensures IsBooked(platform, wallets, t, TransactionLoop(platform, userId, wallets, categories, ts, rows).value.rows)
  {
    var after := TransactionLoop(platform, userId, wallets, categories, ts, rows).value.rows;
    LoopGrows(platform, userId, wallets, categories, ts, rows);
    hide TransactionLoop, FileKey, Lawful, NoColon, KeyOf, Records;
    if FileKey(platform.text, wallets, t) in KeysIn(platform.text, rows) {
      var k :| 0 <= k < |rows| && KeyOf(platform.text, rows[k]) == FileKey(platform.text, wallets, t);
      DayIsPlain(t);
      FileKeyMeans(platform.text, wallets, t, rows[k]);
      assert after[k] == rows[k];
    } else {
      NewKeyIsBooked(platform, userId, wallets, categories, ts, rows, t);
    }
  }

  lemma DayIsPlain(t: FileTransaction)
    ensures DayOf(t.date) == FirstTen(t.date)
  {
  }

  /** In particular two purchases of one day and amount are both booked when their words differ. */
  lemma DifferentWordsAreBooked(platform: Platform, userId: string, wallets: map<string, Id>,
                                categories: map<string, Id>, ts: seq<FileTransaction>, rows: seq<Transaction>,
                                t: FileTransaction, u: FileTransaction)
    requires PlainDates(ts) && PlainRows(rows) && t in ts && t.walletId in wallets && t.categoryId in categories
    requires u in ts && u.walletId in wallets && u.categoryId in categories
    requires !SameWords(platform.text, t.description, u.description)
    requires TransactionLoop(platform, userId, wallets, categories, ts, rows).Some?
    ensures var after := TransactionLoop(platform, userId, wallets, categories, ts, rows).value.rows;
      exists i, j :: 0 <= i < |after| && 0 <= j < |after| && i != j
        && SameWords(platform.text, after[i].description, t.description)
        && SameWords(platform.text, after[j].description, u.description)
  {
    hide TransactionLoop, Lawful, PlainDates, PlainRows, FirstTen, SameWords;
    NoTransactionIsLost(platform, userId, wallets, categories, ts, rows, t);
    NoTransactionIsLost(platform, userId, wallets, categories, ts, rows, u);
    var after := TransactionLoop(platform, userId, wallets, categories, ts, rows).value.rows;
    var i :| 0 <= i < |after| && SameWords(platform.text, after[i].description, t.description);
    var j :| 0 <= j < |after| && SameWords(platform.text, after[j].description, u.description);
    if i == j {
      SameWordsMeet(platform.text, after[i].description, t.description, u.description);
    }
  }

  lemma SameWordsMeet(text: TextFunctions, a: Option<string>, b: Option<string>, c: Option<string>)
    requires SameWords(text, a, b) && SameWords(text, a, c)
    ensures SameWords(text, b, c)
  {
  }

  // ---------------------------------------------------------------- transfers

  /** The row that a transfer of the file makes. */
  predicate IsTransferOf(platform: Platform, wallets: map<string, Id>, t: FileTransfer, row: Transfer) {
    && t.sourceWalletId in wallets && t.destinationWalletId in wallets
    && wallets[t.sourceWalletId] != wallets[t.destinationWalletId]
    && row.sourceWalletId == wallets[t.sourceWalletId] && row.destinationWalletId == wallets[t.destinationWalletId]
    && row.amount == t.amount && row.note == t.note && platform.isoInstant(t.transferredAt) == Some(row.transferredAt)
  }

  ghost predicate OfTransfers(platform: Platform, wallets: map<string, Id>, ts: seq<FileTransfer>, row: Transfer) {
    exists i :: 0 <= i < |ts| && IsTransferOf(platform, wallets, ts[i], row)
  }

  /** Every new row is that of a transfer of the file. */
  lemma NoTransferIsInvented(platform: Platform, wallets: map<string, Id>, ts: seq<FileTransfer>, rows: seq<Transfer>)
    requires TransferLoop(platform, wallets, ts, rows).Some?
    ensures var after := TransferLoop(platform, wallets, ts, rows).value.rows;
      rows <= after && forall k :: |rows| <= k < |after| ==> OfTransfers(platform, wallets, ts, after[k])
  {
    var items := TransferItems(platform, wallets, ts);
    var ofFile := (row: Transfer) => OfTransfers(platform, wallets, ts, row);
    hide TransferKey, TransferKeysIn;
    forall i: nat | i < |items| && items[i].Keyed? && items[i].row.Some? ensures ofFile(items[i].row.value) {
      assert IsTransferOf(platform, wallets, ts[i], items[i].row.value);
    }
    NewRowsSatisfy(ofFile, TransfersAtStart(rows), items);
  }

  /** No mapped transfer of the file is lost: a stored one has its wallets, instant and amount. */
  lemma NoTransferIsLost(platform: Platform, wallets: map<string, Id>, ts: seq<FileTransfer>, rows: seq<Transfer>,
                         t: FileTransfer)
    requires TransferLoop(platform, wallets, ts, rows).Some? && t in ts
    requires t.sourceWalletId in wallets && t.destinationWalletId in wallets
    requires wallets[t.sourceWalletId] != wallets[t.destinationWalletId]
    ensures var after := TransferLoop(platform, wallets, ts, rows).value.rows;
      exists k :: 0 <= k < |after|
        && after[k].sourceWalletId == wallets[t.sourceWalletId]
        && after[k].destinationWalletId == wallets[t.destinationWalletId] && after[k].amount == t.amount
        && platform.isoInstant(t.transferredAt) == Some(after[k].transferredAt)
  {
    TransferAccounts(platform, wallets, ts, rows);
    var after := TransferLoop(platform, wallets, ts, rows).value.rows;
    hide TransferLoop, TransferKey;
    assert TransferIsMapped(wallets, t);
    var instant := platform.isoInstant(t.transferredAt).value;
    var key := TransferKey(wallets[t.sourceWalletId], wallets[t.destinationWalletId], instant, t.amount);
    assert key in TransferFileKeys(platform, wallets, ts);
    assert key in TransferKeysIn(after);
    var k :| 0 <= k < |after| && TransferKeyOf(after[k]) == key;
    TransferKeyInjective(
      after[k].sourceWalletId, after[k].destinationWalletId, after[k].transferredAt, after[k].amount,
      wallets[t.sourceWalletId], wallets[t.destinationWalletId], instant, t.amount);
  }

  // ---------------------------------------------------------------- the whole import

  /** Where the wallets of the file lead to. */
  function WalletIds(job: Job, account: Account): map<string, Id> {
    match WalletsAfter(job, account, |job.file.wallets|)
    case Err(_) => map[]
    case Ok(w) => w.idMap
  }

  /** Where its categories lead to. */
  function CategoryIds(job: Job, account: Account): map<string, Id> {
    match WalletsAfter(job, account, |job.file.wallets|)
    case Err(_) => map[]
    case Ok(w) =>
      match CategoryPhase(job, account, w)
      case Err(_) => map[]
      case Ok(c) => c.idMap
  }

  lemma {:induction false} WalletIdsAre(job: Job, account: Account, n: nat)
    requires n <= |job.file.wallets| && WalletsAfter(job, account, n).Ok?
    ensures WalletsAfter(job, account, n).value.idMap.Keys == set m | 0 <= m < n :: job.file.wallets[m].id
    decreases n
  {
    hide Lawful, BalanceMap, ActiveWallets, NameMap, Find, FreeName, NameTaken, DesiredName, SetBalance;
    if n > 0 {
      WalletIdsAre(job, account, n - 1);
    }
  }

  lemma {:induction false} PassIdsAre(text: Text, start: CategoryState, passes: seq<FileCategory>, n: nat)
    requires n <= |passes| && CategoriesAfter(text, start, passes, n).Ok? && start.idMap == map[]
    ensures CategoriesAfter(text, start, passes, n).value.idMap.Keys == set m | 0 <= m < n :: passes[m].id
    decreases n
  {
    hide Lawful, CategoryKey, CategoryTaken;
    if n > 0 {
      PassIdsAre(text, start, passes, n - 1);
    }
  }

  /** Every wallet and every category of the file leads somewhere, and nothing else does. */
  lemma EverythingLeads(job: Job, account: Account)
    requires Import(job, account).Ok?
    ensures WalletIds(job, account).Keys == set i | 0 <= i < |job.file.wallets| :: job.file.wallets[i].id
    ensures CategoryIds(job, account).Keys == set i | 0 <= i < |job.file.categories| :: job.file.categories[i].id
  {
    hide Lawful, Roots, Children, Passes, Place;
    WalletIdsAre(job, account, |job.file.wallets|);
    var w := WalletsAfter(job, account, |job.file.wallets|).value;
    var passes := Passes(job.file);
    PassIdsAre(job.platform.text, CategoriesAtStart(job.platform.text, account.categories, w.next), passes, |passes|);
    var ids := set m | 0 <= m < |passes| :: passes[m].id;
    forall id ensures id in ids <==> exists i :: 0 <= i < |job.file.categories| && job.file.categories[i].id == id {
      if m :| 0 <= m < |passes| && passes[m].id == id {
        var k := EveryPlaceIsTaken(job.file, m);
        PlaceHolds(job.file, k);
      }
      if i :| 0 <= i < |job.file.categories| && job.file.categories[i].id == id {
        PlaceHolds(job.file, i);
      }
    }
  }

  lemma LoopsRun(job: Job, account: Account)
    requires Import(job, account).Ok?
    ensures var (wallets, categories, done) := (WalletIds(job, account), CategoryIds(job, account),
                                                Import(job, account).value);
      var t := TransactionLoop(job.platform, account.userId, wallets, categories, job.file.transactions,
                               account.transactions);
      var f := TransferLoop(job.platform, wallets, job.file.transfers, account.transfers);
      && t.Some? && f.Some?
      && done.account.transactions == t.value.rows && done.account.transfers == f.value.rows
      && done.counts.transactions == t.value.imported && done.counts.skippedTransactions == t.value.skipped
      && done.counts.transfers == f.value.imported && done.counts.skippedTransfers == f.value.skipped
  {
    hide WalletsAfter, CategoryPhase, TransactionLoop, TransferLoop, Lawful;
  }

  /** No transaction whose wallet and category are in the file is lost. */
  lemma FileTransactionIsBooked(job: Job, account: Account, t: FileTransaction)
    requires Import(job, account).Ok? && PlainDates(job.file.transactions) && PlainRows(account.transactions)
    requires t in job.file.transactions
    requires exists i :: 0 <= i < |job.file.wallets| && job.file.wallets[i].id == t.walletId
    requires exists i :: 0 <= i < |job.file.categories| && job.file.categories[i].id == t.categoryId
    ensures IsBooked(job.platform, WalletIds(job, account), t, Import(job, account).value.account.transactions)
  {
    hide WalletIds, CategoryIds, Import, TransactionLoop, TransferLoop, Lawful, IsBooked, PlainDates, PlainRows;
    EverythingLeads(job, account);
    LoopsRun(job, account);
    NoTransactionIsLost(job.platform, account.userId, WalletIds(job, account), CategoryIds(job, account),
                        job.file.transactions, account.transactions, t);
  }

  /** What the import books is from the file, with receipts of the importing user only. */
  lemma BooksAreFromFile(job: Job, account: Account)
    requires Import(job, account).Ok?
    ensures var (wallets, categories, after) := (WalletIds(job, account), CategoryIds(job, account),
                                                 Import(job, account).value.account);
      && account.transactions <= after.transactions && account.transfers <= after.transfers
      && (forall k :: |account.transactions| <= k < |after.transactions| ==>
            OfFile(job.platform, account.userId, wallets, categories, job.file.transactions, after.transactions[k]))
      && (forall k :: |account.transfers| <= k < |after.transfers| ==>
            OfTransfers(job.platform, wallets, job.file.transfers, after.transfers[k]))
  {
    hide WalletIds, CategoryIds, Import, TransactionLoop, TransferLoop, Lawful, OfFile, OfTransfers;
    LoopsRun(job, account);
    NoRowIsInvented(job.platform, account.userId, WalletIds(job, account), CategoryIds(job, account),
                    job.file.transactions, account.transactions);
    NoTransferIsInvented(job.platform, WalletIds(job, account), job.file.transfers, account.transfers);
  }

  lemma {:induction false} WalletsCounted(job: Job, account: Account, n: nat)
    requires n <= |job.file.wallets| && WalletsAfter(job, account, n).Ok?
    ensures var s := WalletsAfter(job, account, n).value; |s.wallets| == |account.wallets| + s.created
    decreases n
  {
    hide Lawful, BalanceMap, ActiveWallets, NameMap, Find, FreeName, NameTaken, DesiredName;
    if n > 0 {
      WalletsCounted(job, account, n - 1);
    }
  }

  lemma {:induction false} CategoriesCounted(text: Text, start: CategoryState, passes: seq<FileCategory>, n: nat)
    requires n <= |passes| && CategoriesAfter(text, start, passes, n).Ok? && start.created == 0
    ensures var s := CategoriesAfter(text, start, passes, n).value; |s.categories| == |start.categories| + s.created
    decreases n
  {
    hide Lawful, CategoryKey, CategoryTaken;
    if n > 0 {
      CategoriesCounted(text, start, passes, n - 1);
    }
  }

  /** The counts that the user is told: the rows made in every table, and the other mapped rows of the file. */
  lemma CountsAreRows(job: Job, account: Account)
    requires Import(job, account).Ok?
    ensures var (after, counts) := (Import(job, account).value.account, Import(job, account).value.counts);
      && |after.wallets| == |account.wallets| + counts.wallets
      && |after.categories| == |account.categories| + counts.categories
      && |after.transactions| == |account.transactions| + counts.transactions
      && |after.transfers| == |account.transfers| + counts.transfers
      && counts.transactions + counts.skippedTransactions
         == CountMapped(WalletIds(job, account), CategoryIds(job, account), job.file.transactions)
      && counts.transfers + counts.skippedTransfers == CountTransfers(WalletIds(job, account), job.file.transfers)
  {
    LoopsRun(job, account);
    var w := WalletsAfter(job, account, |job.file.wallets|).value;
    var passes := Passes(job.file);
    WalletsCounted(job, account, |job.file.wallets|);
    CategoriesCounted(job.platform.text, CategoriesAtStart(job.platform.text, account.categories, w.next), passes,
                      |passes|);
    var (wallets, categories) := (WalletIds(job, account), CategoryIds(job, account));
    hide WalletsAfter, CategoriesAfter, TransactionLoop, TransferLoop, Lawful, Passes, KeyMap, WalletIds, CategoryIds;
    LoopGrows(job.platform, account.userId, wallets, categories, job.file.transactions, account.transactions);
    TransactionAccounts(job.platform, account.userId, wallets, categories, job.file.transactions,
                        account.transactions);
    TransferAccounts(job.platform, wallets, job.file.transfers, account.transfers);
  }

  /** The date column takes the day of every mapped transaction whose key the table does not hold. */
  ghost predicate DaysAreTaken(platform: Platform, wallets: map<string, Id>, categories: map<string, Id>,
                               ts: seq<FileTransaction>, rows: seq<Transaction>)
  {
    forall t :: t in ts && t.walletId in wallets && t.categoryId in categories
                && FileKey(platform.text, wallets, t) !in KeysIn(platform.text, rows) ==>
      platform.dateColumn(FirstTen(t.date)).Some?
  }

  /** Every mapped transfer names an instant. */
  ghost predicate InstantsAreRead(platform: Platform, wallets: map<string, Id>, ts: seq<FileTransfer>) {
    forall t :: t in ts && t.sourceWalletId in wallets && t.destinationWalletId in wallets
                && wallets[t.sourceWalletId] != wallets[t.destinationWalletId] ==>
      platform.isoInstant(t.transferredAt).Some?
  }

  lemma DaysTakenIff(platform: Platform, wallets: map<string, Id>, categories: map<string, Id>,
                     ts: seq<FileTransaction>, rows: seq<Transaction>)
    ensures DatesTaken(platform, wallets, categories, ts, KeysIn(platform.text, rows)) <==>
      DaysAreTaken(platform, wallets, categories, ts, rows)
  {
    hide FileKey, Lawful, KeysIn;
  }

  lemma LoopsDecide(job: Job, account: Account, w: WalletState, c: CategoryState)
    requires WalletsAfter(job, account, |job.file.wallets|) == Ok(w) && CategoryPhase(job, account, w) == Ok(c)
    ensures WalletIds(job, account) == w.idMap && CategoryIds(job, account) == c.idMap
    ensures if TransactionLoop(job.platform, account.userId, w.idMap, c.idMap, job.file.transactions,
                               account.transactions).Some?
               && TransferLoop(job.platform, w.idMap, job.file.transfers, account.transfers).Some?
      then Import(job, account).Ok? else Import(job, account) == Err(InvalidDate)
  {
    hide WalletsAfter, CategoryPhase, TransactionLoop, TransferLoop, Lawful;
  }

  /**
   An import whose wallets and categories go through fails exactly when the date column refuses the day of a
   mapped transaction that is not there yet, or a mapped transfer has no instant; and then for an invalid date.
   */
  lemma DatesFailImport(job: Job, account: Account)
    requires PlainDates(job.file.transactions) && WalletsAfter(job, account, |job.file.wallets|).Ok?
    requires CategoryPhase(job, account, WalletsAfter(job, account, |job.file.wallets|).value).Ok?
    ensures var (wallets, categories) := (WalletIds(job, account), CategoryIds(job, account));
      if DaysAreTaken(job.platform, wallets, categories, job.file.transactions, account.transactions)
         && InstantsAreRead(job.platform, wallets, job.file.transfers)
      then Import(job, account).Ok? else Import(job, account) == Err(InvalidDate)
  {
    hide WalletsAfter, CategoryPhase, TransactionLoop, TransferLoop, Lawful, PlainDates, DatesTaken, DaysAreTaken,
      Import, WalletIds, CategoryIds;
    var w := WalletsAfter(job, account, |job.file.wallets|).value;
    var c := CategoryPhase(job, account, w).value;
    LoopsDecide(job, account, w, c);
    TransactionLoopIff(job.platform, account.userId, w.idMap, c.idMap, job.file.transactions, account.transactions);
    DaysTakenIff(job.platform, w.idMap, c.idMap, job.file.transactions, account.transactions);
    TransferAccounts(job.platform, w.idMap, job.file.transfers, account.transfers);
  }
}
