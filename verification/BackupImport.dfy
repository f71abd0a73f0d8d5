/**
 Importing a backup file into the account of a user: wallets, categories, transactions and
 transfers, in this order, inside one database transaction. Amounts are in hundredths. A row id is a
 number from a counter; ids in the file are strings.
 */
module BackupImport {
  import opened Prelude
  import opened Digits
  import opened TextRules
  import opened Deduplication

  type Id = nat

  datatype EntryType = Income | Expense

  // ---------------------------------------------------------------- the file

  datatype FileWallet = FileWallet(id: string, name: string, balance: int, isDefault: bool, isArchived: bool)

  datatype FileCategory = FileCategory(
    id: string, name: string, entryType: EntryType, isArchived: bool, parentId: Option<string>)

  datatype FileTransaction = FileTransaction(
    walletId: string, categoryId: string, amount: int, entryType: EntryType,
    description: Option<string>, receiptUrl: Option<string>, date: string)

  datatype FileTransfer = FileTransfer(
    sourceWalletId: string, destinationWalletId: string, amount: int, note: Option<string>, transferredAt: string)

  datatype File = File(
    wallets: seq<FileWallet>, categories: seq<FileCategory>,
    transactions: seq<FileTransaction>, transfers: seq<FileTransfer>)

  datatype Action = MERGE | CREATE_NEW

  datatype Resolution = Resolution(
    oldWalletId: string, action: Action, targetWalletId: Option<Id>, newWalletName: Option<string>)

  datatype BalanceMode = ACCUMULATE | MAINTAIN_CURRENT

  datatype Options = Options(walletResolutions: seq<Resolution>, balanceMode: BalanceMode)

  /**
   The runtime and the database: what a date column gives back for the date made from a string, and
   the ISO form of the instant made from a string; None for an invalid date.
   */
  datatype Platform = Platform(text: Text, dateColumn: string -> Option<string>, isoInstant: string -> Option<string>)

  datatype Job = Job(platform: Platform, file: File, options: Options)

  // ---------------------------------------------------------------- the account

  datatype Wallet = Wallet(
    id: Id, name: string, balance: int, isStandard: bool, isDefault: bool, isArchived: bool)

  /** A category of the user, or of the system. */
  datatype Category = Category(
    id: Id, isSystem: bool, name: string, entryType: EntryType, isArchived: bool, parentId: Option<Id>)

  datatype Transaction = Transaction(
    walletId: Id, categoryId: Id, amount: int, entryType: EntryType,
    description: Option<string>, receiptUrl: Option<string>, date: string)

  datatype Transfer = Transfer(
    sourceWalletId: Id, destinationWalletId: Id, amount: int, note: Option<string>, transferredAt: string)

  /** The rows of one user, each table in the order of creation, and the next free id. */
  datatype Account = Account(
    userId: string, wallets: seq<Wallet>, categories: seq<Category>,
    transactions: seq<Transaction>, transfers: seq<Transfer>, next: Id)

  datatype ImportError = UniqueViolation | InvalidDate

  // ---------------------------------------------------------------- wallets

  predicate Loaded(w: Wallet) {
    !w.isArchived && w.isStandard
  }

  /** getUserActiveWallets */
  function ActiveWallets(ws: seq<Wallet>): seq<Wallet> {
    if ws == [] then []
    else ActiveWallets(ws[..|ws| - 1]) + if Loaded(ws[|ws| - 1]) then [ws[|ws| - 1]] else []
  }

  /** The Map from name keys to ids; of two wallets with one key the later one stays. */
  function NameMap(text: Text, ws: seq<Wallet>): map<string, Id> {
    if ws == [] then map[]
    else NameMap(text, ws[..|ws| - 1])[NameKey(text, ws[|ws| - 1].name) := ws[|ws| - 1].id]
  }

  /** The Map from ids to balances. */
  function BalanceMap(ws: seq<Wallet>): map<Id, int> {
    if ws == [] then map[]
    else BalanceMap(ws[..|ws| - 1])[ws[|ws| - 1].id := ws[|ws| - 1].balance]
  }

  function Find(rs: seq<Resolution>, id: string): Option<Resolution> {
    if rs == [] then None
    else if rs[0].oldWalletId == id then Some(rs[0])
    else Find(rs[1..], id)
  }

  datatype WalletState = WalletState(
    wallets: seq<Wallet>, next: Id, idMap: map<string, Id>, loaded: map<Id, int>, names: set<string>, created: nat)

  function WalletsAtStart(job: Job, account: Account): WalletState {
    var active := ActiveWallets(account.wallets);
    WalletState(account.wallets, account.next, map[], BalanceMap(active),
                NameMap(job.platform.text, active).Keys, 0)
  }

  /** The wallet that a resolution asks to merge into. */
  function Requested(r: Option<Resolution>): Option<Id> {
    if r.Some? && r.value.action == MERGE then r.value.targetWalletId else None
  }

  function ExplicitTarget(r: Option<Resolution>, loaded: set<Id>): Option<Id> {
    if Requested(r).Some? && Requested(r).value in loaded then Requested(r) else None
  }

  function ImplicitTarget(text: Text, r: Option<Resolution>, byName: map<string, Id>, name: string): Option<Id> {
    if r.None? && NameKey(text, name) in byName then Some(byName[NameKey(text, name)]) else None
  }

  function SetBalance(ws: seq<Wallet>, id: Id, balance: int): seq<Wallet> {
    seq(|ws|, i requires 0 <= i < |ws| => if ws[i].id == id then ws[i].(balance := balance) else ws[i])
  }

  function MergeWallet(mode: BalanceMode, s: WalletState, w: FileWallet, target: Id): WalletState
    requires target in s.loaded
  {
    var mapped := s.(idMap := s.idMap[w.id := target]);
    if mode == ACCUMULATE then
      var balance := s.loaded[target] + w.balance;
      mapped.(wallets := SetBalance(s.wallets, target, balance), loaded := s.loaded[target := balance])
    else mapped
  }

  function DesiredName(text: Text, r: Option<Resolution>, w: FileWallet): string {
    text.trim(if r.Some? && r.value.newWalletName.Some? && r.value.newWalletName.value != ""
              then r.value.newWalletName.value else w.name)
  }

  /** The lower-case candidates before number k. */
  ghost function Tried(text: Text, desired: string, k: nat): set<string> {
    set j: nat | 1 <= j < k :: text.lower(desired + Suffix(j))
  }

  lemma TryingEnds(text: Text, names: set<string>, desired: string, k: nat)
    requires k >= 1 && text.lower(desired + Suffix(k)) in names
    ensures |names - Tried(text, desired, k + 1)| < |names - Tried(text, desired, k)|
  {
    var c := text.lower(desired + Suffix(k));
    forall j: nat | 1 <= j < k ensures text.lower(desired + Suffix(j)) != c {
      CandidatesDiffer(text, desired, j, k);
    }
    assert c !in Tried(text, desired, k);
    assert names - Tried(text, desired, k + 1) == names - Tried(text, desired, k) - {c};
  }

  /** The number of the first candidate from k on that is free. */
  function FirstFree(text: Text, names: set<string>, desired: string, k: nat): nat
    requires k >= 1
    decreases |names - Tried(text, desired, k)|
  {
    if text.lower(desired + Suffix(k)) in names then
      TryingEnds(text, names, desired, k);
      FirstFree(text, names, desired, k + 1)
    else k
  }

  function FreeName(text: Text, names: set<string>, desired: string): string {
    if text.lower(desired) in names then desired + Suffix(FirstFree(text, names, desired, 1)) else desired
  }

  /** The unique index on the user and the exact name. */
  predicate NameTaken(ws: seq<Wallet>, name: string) {
    exists i :: 0 <= i < |ws| && ws[i].name == name
  }

  function CreateWallet(text: Text, hadWallets: bool, s: WalletState, w: FileWallet, desired: string)
    : Result<WalletState, ImportError>
  {
    var name := FreeName(text, s.names, desired);
    if NameTaken(s.wallets, name) then Err(UniqueViolation)
    else
      var isDefault := (!hadWallets && s.created == 0) || w.isDefault;
      Ok(WalletState(
        s.wallets + [Wallet(s.next, name, w.balance, true, isDefault, w.isArchived)],
        s.next + 1, s.idMap[w.id := s.next], s.loaded[s.next := w.balance],
        s.names + {text.lower(name)}, s.created + 1))
  }

  function ImportWallet(job: Job, active: seq<Wallet>, s: WalletState, w: FileWallet)
    : Result<WalletState, ImportError>
  {
    var text := job.platform.text;
    var r := Find(job.options.walletResolutions, w.id);
    var explicit := ExplicitTarget(r, s.loaded.Keys);
    var implicit := ImplicitTarget(text, r, NameMap(text, active), w.name);
    if explicit.Some? then Ok(MergeWallet(job.options.balanceMode, s, w, explicit.value))
    else if implicit.Some? then Ok(s.(idMap := s.idMap[w.id := implicit.value]))
    else CreateWallet(text, active != [], s, w, DesiredName(text, r, w))
  }

  /** The state of the loop after the first n wallets of the file. */
  function WalletsAfter(job: Job, account: Account, n: nat): Result<WalletState, ImportError>
    requires n <= |job.file.wallets|
  {
    if n == 0 then Ok(WalletsAtStart(job, account))
    else
      match WalletsAfter(job, account, n - 1)
      case Err(e) => Err(e)
      case Ok(s) => ImportWallet(job, ActiveWallets(account.wallets), s, job.file.wallets[n - 1])
  }

  lemma {:induction false} WalletErrorStays(job: Job, account: Account, m: nat, n: nat)
    requires m <= n <= |job.file.wallets| && WalletsAfter(job, account, m).Err?
    ensures WalletsAfter(job, account, n) == WalletsAfter(job, account, m)
    decreases n
  {
    hide ImportWallet, WalletsAtStart, ActiveWallets, Lawful;
    if m < n {
      WalletErrorStays(job, account, m, n - 1);
    }
  }

  method FindFreeName(text: Text, names: set<string>, desired: string) returns (name: string)
    ensures name == FreeName(text, names, desired)
  {
    name := desired;
    if text.lower(name) in names {
      var counter := 1;
      name := desired + Suffix(counter);
      while text.lower(name) in names
        invariant counter >= 1 && name == desired + Suffix(counter)
        invariant FirstFree(text, names, desired, counter) == FirstFree(text, names, desired, 1)
        decreases |names - Tried(text, desired, counter)|
      {
        TryingEnds(text, names, desired, counter);
        counter := counter + 1;
        name := desired + Suffix(counter);
      }
    }
  }

  method ImportWallets(job: Job, account: Account) returns (r: Result<WalletState, ImportError>)
    ensures r == WalletsAfter(job, account, |job.file.wallets|)
  {
    hide NameMap, ActiveWallets, BalanceMap, Find, FreeName, NameKey, SetBalance, DesiredName, Lawful, NameTaken;
    var text := job.platform.text;
    var active := ActiveWallets(account.wallets);
    var byName := NameMap(text, active);
    var wallets, next := account.wallets, account.next;
    var idMap: map<string, Id> := map[];
    var loaded, names := BalanceMap(active), byName.Keys;
    var created := 0;
    for n := 0 to |job.file.wallets|
      invariant WalletsAfter(job, account, n) == Ok(WalletState(wallets, next, idMap, loaded, names, created))
    {
      var w := job.file.wallets[n];
      var resolution := Find(job.options.walletResolutions, w.id);
      var explicit := ExplicitTarget(resolution, loaded.Keys);
      var implicit := ImplicitTarget(text, resolution, byName, w.name);
      if explicit.Some? {
        var target := explicit.value;
        idMap := idMap[w.id := target];
        if job.options.balanceMode == ACCUMULATE {
          var updated := loaded[target] + w.balance;
          wallets := SetBalance(wallets, target, updated);
          loaded := loaded[target := updated];
        }
      } else if implicit.Some? {
        idMap := idMap[w.id := implicit.value];
      } else {
        var name := FindFreeName(text, names, DesiredName(text, resolution, w));
        if NameTaken(wallets, name) {
          assert WalletsAfter(job, account, n + 1) == Err(UniqueViolation);
          WalletErrorStays(job, account, n + 1, |job.file.wallets|);
          return Err(UniqueViolation);
        }
        names := names + {text.lower(name)};
        var isDefault := (active == [] && created == 0) || w.isDefault;
        wallets := wallets + [Wallet(next, name, w.balance, true, isDefault, w.isArchived)];
        idMap := idMap[w.id := next];
        loaded := loaded[next := w.balance];
        next := next + 1;
        created := created + 1;
      }
    }
    return Ok(WalletState(wallets, next, idMap, loaded, names, created));
  }

  // ---------------------------------------------------------------- categories

  function TypeName(t: EntryType): string {
    match t
    case Income => "INCOME"
    case Expense => "EXPENSE"
  }

  function Joined(head: string, tail: string): string {
    head + "::" + tail
  }

  function CategoryKey(text: Text, name: string, t: EntryType): string {
    Joined(NameKey(text, name), TypeName(t))
  }

  /** The Map over getUserAndSystemCategories; of two categories with one key the later one stays. */
  function KeyMap(text: Text, cs: seq<Category>): map<string, Id> {
    if cs == [] then map[]
    else
      var c := cs[|cs| - 1];
      var before := KeyMap(text, cs[..|cs| - 1]);
      if c.isArchived then before else before[CategoryKey(text, c.name, c.entryType) := c.id]
  }

  predicate IsRoot(c: FileCategory) {
    c.parentId.None? || c.parentId.value == ""
  }

  function Roots(cs: seq<FileCategory>): (r: seq<FileCategory>)
    ensures forall i :: 0 <= i < |r| ==> IsRoot(r[i])
  {
    if cs == [] then []
    else Roots(cs[..|cs| - 1]) + if IsRoot(cs[|cs| - 1]) then [cs[|cs| - 1]] else []
  }

  function Children(cs: seq<FileCategory>): (r: seq<FileCategory>)
    ensures forall i :: 0 <= i < |r| ==> !IsRoot(r[i])
  {
    if cs == [] then []
    else Children(cs[..|cs| - 1]) + if IsRoot(cs[|cs| - 1]) then [] else [cs[|cs| - 1]]
  }

  /** The order in which the two passes meet the categories. */
  function Passes(file: File): seq<FileCategory> {
    Roots(file.categories) + Children(file.categories)
  }

  datatype CategoryState = CategoryState(
    categories: seq<Category>, next: Id, idMap: map<string, Id>, byKey: map<string, Id>, created: nat)

  function CategoriesAtStart(text: Text, categories: seq<Category>, next: Id): CategoryState {
    CategoryState(categories, next, map[], KeyMap(text, categories), 0)
  }

  function MappedParent(c: FileCategory, idMap: map<string, Id>): Option<Id> {
    if IsRoot(c) || c.parentId.value !in idMap then None else Some(idMap[c.parentId.value])
  }

  /** The unique index on the user, the exact name and the type. */
  predicate CategoryTaken(cs: seq<Category>, name: string, t: EntryType) {
    exists i :: 0 <= i < |cs| && !cs[i].isSystem && cs[i].name == name && cs[i].entryType == t
  }

  function ImportCategory(text: Text, s: CategoryState, c: FileCategory): Result<CategoryState, ImportError> {
    var key := CategoryKey(text, c.name, c.entryType);
    if key in s.byKey then Ok(s.(idMap := s.idMap[c.id := s.byKey[key]]))
    else if CategoryTaken(s.categories, text.trim(c.name), c.entryType) then Err(UniqueViolation)
    else
      Ok(CategoryState(
        s.categories + [Category(s.next, false, text.trim(c.name), c.entryType, c.isArchived,
                                 MappedParent(c, s.idMap))],
        s.next + 1, s.idMap[c.id := s.next], s.byKey[key := s.next], s.created + 1))
  }

  function CategoriesAfter(text: Text, start: CategoryState, passes: seq<FileCategory>, n: nat)
    : Result<CategoryState, ImportError>
    requires n <= |passes|
  {
    if n == 0 then Ok(start)
    else
      match CategoriesAfter(text, start, passes, n - 1)
      case Err(e) => Err(e)
      case Ok(s) => ImportCategory(text, s, passes[n - 1])
  }

  lemma {:induction false} CategoryErrorStays(text: Text, start: CategoryState, passes: seq<FileCategory>, m: nat,
                                              n: nat)
    requires m <= n <= |passes| && CategoriesAfter(text, start, passes, m).Err?
    ensures CategoriesAfter(text, start, passes, n) == CategoriesAfter(text, start, passes, m)
    decreases n
  {
    hide ImportCategory, Lawful;
    if m < n {
      CategoryErrorStays(text, start, passes, m, n - 1);
    }
  }

  lemma {:induction false} TwoPasses(text: Text, start: CategoryState, roots: seq<FileCategory>,
                                     children: seq<FileCategory>, n: nat)
    requires n <= |children|
    ensures CategoriesAfter(text, start, roots + children, |roots| + n) ==
      match CategoriesAfter(text, start, roots, |roots|)
      case Err(e) => Err(e)
      case Ok(s) => CategoriesAfter(text, s, children, n)
    decreases n
  {
    hide ImportCategory, Lawful;
    if n == 0 {
      FirstPassOnly(text, start, roots, children, |roots|);
    } else {
      TwoPasses(text, start, roots, children, n - 1);
      assert (roots + children)[|roots| + n - 1] == children[n - 1];
    }
  }

  lemma {:induction false} FirstPassOnly(text: Text, start: CategoryState, roots: seq<FileCategory>,
                                         children: seq<FileCategory>, n: nat)
    requires n <= |roots|
    ensures CategoriesAfter(text, start, roots + children, n) == CategoriesAfter(text, start, roots, n)
    decreases n
  {
    hide ImportCategory, Lawful;
    if n > 0 {
      FirstPassOnly(text, start, roots, children, n - 1);
    }
  }

  /** The first pass: every created category is a root. */
  method ImportRoots(text: Text, start: CategoryState, roots: seq<FileCategory>)
    returns (r: Result<CategoryState, ImportError>)
    requires forall i :: 0 <= i < |roots| ==> IsRoot(roots[i])
    ensures r == CategoriesAfter(text, start, roots, |roots|)
  {
    hide CategoryKey, CategoryTaken, Lawful;
    var categories, next, idMap, byKey := start.categories, start.next, start.idMap, start.byKey;
    var created := start.created;
    for n := 0 to |roots|
      invariant CategoriesAfter(text, start, roots, n) == Ok(CategoryState(categories, next, idMap, byKey, created))
    {
      var c := roots[n];
      var key := CategoryKey(text, c.name, c.entryType);
      if key in byKey {
        idMap := idMap[c.id := byKey[key]];
      } else {
        if CategoryTaken(categories, text.trim(c.name), c.entryType) {
          assert CategoriesAfter(text, start, roots, n + 1) == Err(UniqueViolation);
          CategoryErrorStays(text, start, roots, n + 1, |roots|);
          return Err(UniqueViolation);
        }
        categories := categories + [Category(next, false, text.trim(c.name), c.entryType, c.isArchived, None)];
        idMap := idMap[c.id := next];
        byKey := byKey[key := next];
        next := next + 1;
        created := created + 1;
      }
    }
    return Ok(CategoryState(categories, next, idMap, byKey, created));
  }

  /** The second pass: a created category hangs below the category that its parent id is mapped to, if any. */
  method ImportChildren(text: Text, start: CategoryState, children: seq<FileCategory>)
    returns (r: Result<CategoryState, ImportError>)
    requires forall i :: 0 <= i < |children| ==> !IsRoot(children[i])
    ensures r == CategoriesAfter(text, start, children, |children|)
  {
    hide CategoryKey, CategoryTaken, Lawful;
    var categories, next, idMap, byKey := start.categories, start.next, start.idMap, start.byKey;
    var created := start.created;
    for n := 0 to |children|
      invariant CategoriesAfter(text, start, children, n) == Ok(CategoryState(categories, next, idMap, byKey, created))
    {
      var c := children[n];
      var key := CategoryKey(text, c.name, c.entryType);
      if key in byKey {
        idMap := idMap[c.id := byKey[key]];
      } else {
        var parentId := if c.parentId.value in idMap then Some(idMap[c.parentId.value]) else None;
        if CategoryTaken(categories, text.trim(c.name), c.entryType) {
          assert CategoriesAfter(text, start, children, n + 1) == Err(UniqueViolation);
          CategoryErrorStays(text, start, children, n + 1, |children|);
          return Err(UniqueViolation);
        }
        categories := categories + [Category(next, false, text.trim(c.name), c.entryType, c.isArchived, parentId)];
        idMap := idMap[c.id := next];
        byKey := byKey[key := next];
        next := next + 1;
        created := created + 1;
      }
    }
    return Ok(CategoryState(categories, next, idMap, byKey, created));
  }

  method ImportCategories(text: Text, file: File, categories0: seq<Category>, next0: Id)
    returns (r: Result<CategoryState, ImportError>)
    ensures r == CategoriesAfter(text, CategoriesAtStart(text, categories0, next0), Passes(file), |Passes(file)|)
  {
    var start := CategoriesAtStart(text, categories0, next0);
    var roots, children := Roots(file.categories), Children(file.categories);
    TwoPasses(text, start, roots, children, |children|);
    hide CategoriesAfter, CategoriesAtStart, Roots, Children, Lawful;
    r := ImportRoots(text, start, roots);
    if r.Ok? {
      r := ImportChildren(text, r.value, children);
    }
  }

  // ---------------------------------------------------------------- transactions

  /** toFixed(2) of an amount in hundredths. */
  function Fixed2(amount: int): string {
    var size := if amount < 0 then -amount else amount;
    (if amount < 0 then "-" else "") + Decimal(size / 100) + "." + Pad(size % 100, 2)
  }

  function Description(text: Text, d: Option<string>): string {
    text.lower(text.trim(d.GetOr("")))
  }

  /** The key of a transaction in wallet w: five parts joined by "::". */
  function TransactionKey(w: Id, date: string, amount: int, t: EntryType, description: string): string {
    Joined(Decimal(w), Joined(date, Joined(Fixed2(amount), Joined(TypeName(t), description))))
  }

  function KeyOf(text: Text, t: Transaction): string {
    TransactionKey(t.walletId, t.date, t.amount, t.entryType, Description(text, t.description))
  }

  function KeysIn(text: Text, ts: seq<Transaction>): set<string> {
    set i | 0 <= i < |ts| :: KeyOf(text, ts[i])
  }

  function InsertByDate(sorted: seq<FileTransaction>, t: FileTransaction): seq<FileTransaction> {
    if sorted == [] || !StringLess(t.date, sorted[|sorted| - 1].date) then sorted + [t]
    else InsertByDate(sorted[..|sorted| - 1], t) + [sorted[|sorted| - 1]]
  }

  /** The stable sort by date. */
  function SortByDate(ts: seq<FileTransaction>): seq<FileTransaction> {
    if ts == [] then [] else InsertByDate(SortByDate(ts[..|ts| - 1]), ts[|ts| - 1])
  }

  function DayOf(date: string): string {
    if |date| > 10 then date[..10] else date
  }

  /** Only a receipt in the user's own folder is kept. */
  function SafeReceipt(userId: string, receiptUrl: Option<string>): Option<string> {
    if receiptUrl.Some? && "receipts/" + userId + "/" <= receiptUrl.value then receiptUrl else None
  }

  function TransactionItem(platform: Platform, userId: string, wallets: map<string, Id>, categories: map<string, Id>,
                           t: FileTransaction): Item<Transaction>
  {
    if t.walletId !in wallets || t.categoryId !in categories then Unmapped
    else
      var w, day := wallets[t.walletId], DayOf(t.date);
      Keyed(
        TransactionKey(w, day, t.amount, t.entryType, Description(platform.text, t.description)),
        match platform.dateColumn(day)
        case None => None
        case Some(stored) => Some(Transaction(w, categories[t.categoryId], t.amount, t.entryType, t.description,
                                              SafeReceipt(userId, t.receiptUrl), stored)))
  }

  function TransactionItems(platform: Platform, userId: string, wallets: map<string, Id>, categories: map<string, Id>,
                            ts: seq<FileTransaction>): (items: seq<Item<Transaction>>)
    ensures |items| == |ts|
  {
    seq(|ts|, i requires 0 <= i < |ts| => TransactionItem(platform, userId, wallets, categories, ts[i]))
  }

  lemma {:induction false} TallyErrorStays<R>(start: Tally<R>, items: seq<Item<R>>, m: nat, n: nat)
    requires m <= n <= |items| && After(start, items, m).None?
    ensures After(start, items, n).None?
    decreases n
  {
    if m < n {
      TallyErrorStays(start, items, m, n - 1);
    }
  }

  function TransactionsAtStart(text: Text, rows: seq<Transaction>): Tally<Transaction> {
    Tally(rows, KeysIn(text, rows), 0, 0)
  }

  /** The loop over the sorted transactions; None when a date cannot be stored. */
  function TransactionLoop(platform: Platform, userId: string, wallets: map<string, Id>, categories: map<string, Id>,
                           ts: seq<FileTransaction>, rows: seq<Transaction>): Option<Tally<Transaction>>
  {
    var items := TransactionItems(platform, userId, wallets, categories, SortByDate(ts));
    After(TransactionsAtStart(platform.text, rows), items, |items|)
  }

  method ImportTransactions(platform: Platform, userId: string, wallets: map<string, Id>, categories: map<string, Id>,
                            ts: seq<FileTransaction>, rows0: seq<Transaction>) returns (r: Option<Tally<Transaction>>)
    ensures r == TransactionLoop(platform, userId, wallets, categories, ts, rows0)
  {
    hide SortByDate, TransactionKey, KeysIn, Description, SafeReceipt, DayOf, Lawful;
    var sorted := SortByDate(ts);
    ghost var items := TransactionItems(platform, userId, wallets, categories, sorted);
    ghost var start := TransactionsAtStart(platform.text, rows0);
    var rows, keys := rows0, KeysIn(platform.text, rows0);
    var imported, skipped := 0, 0;
    for n := 0 to |sorted|
      invariant After(start, items, n) == Some(Tally(rows, keys, imported, skipped))
    {
      var t := sorted[n];
      if t.walletId in wallets && t.categoryId in categories {
        var w, day := wallets[t.walletId], DayOf(t.date);
        var key := TransactionKey(w, day, t.amount, t.entryType, Description(platform.text, t.description));
        if key in keys {
          skipped := skipped + 1;
        } else {
          keys := keys + {key};
          var stored := platform.dateColumn(day);
          if stored.None? {
            assert After(start, items, n + 1).None?;
            TallyErrorStays(start, items, n + 1, |items|);
            return None;
          }
          rows := rows + [Transaction(w, categories[t.categoryId], t.amount, t.entryType, t.description,
                                      SafeReceipt(userId, t.receiptUrl), stored.value)];
          imported := imported + 1;
        }
      }
    }
    return Some(Tally(rows, keys, imported, skipped));
  }

  // ---------------------------------------------------------------- transfers

  function TransferKey(source: Id, destination: Id, instant: string, amount: int): string {
    Joined(Decimal(source), Joined(Decimal(destination), Joined(instant, Fixed2(amount))))
  }

  function TransferKeyOf(t: Transfer): string {
    TransferKey(t.sourceWalletId, t.destinationWalletId, t.transferredAt, t.amount)
  }

  function TransferKeysIn(ts: seq<Transfer>): set<string> {
    set i | 0 <= i < |ts| :: TransferKeyOf(ts[i])
  }

  function TransferItem(platform: Platform, wallets: map<string, Id>, t: FileTransfer): Item<Transfer> {
    if t.sourceWalletId !in wallets || t.destinationWalletId !in wallets
       || wallets[t.sourceWalletId] == wallets[t.destinationWalletId] then Unmapped
    else
      var source, destination := wallets[t.sourceWalletId], wallets[t.destinationWalletId];
      match platform.isoInstant(t.transferredAt)
      case None => Broken
      case Some(instant) =>
        Keyed(TransferKey(source, destination, instant, t.amount),
              Some(Transfer(source, destination, t.amount, t.note, instant)))
  }

  function TransferItems(platform: Platform, wallets: map<string, Id>, ts: seq<FileTransfer>)
    : (items: seq<Item<Transfer>>)
    ensures |items| == |ts|
  {
    seq(|ts|, i requires 0 <= i < |ts| => TransferItem(platform, wallets, ts[i]))
  }

  function TransfersAtStart(rows: seq<Transfer>): Tally<Transfer> {
    Tally(rows, TransferKeysIn(rows), 0, 0)
  }

  function TransferLoop(platform: Platform, wallets: map<string, Id>, ts: seq<FileTransfer>, rows: seq<Transfer>)
    : Option<Tally<Transfer>>
  {
    After(TransfersAtStart(rows), TransferItems(platform, wallets, ts), |ts|)
  }

  method ImportTransfers(platform: Platform, wallets: map<string, Id>, ts: seq<FileTransfer>, rows0: seq<Transfer>)
    returns (r: Option<Tally<Transfer>>)
    ensures r == TransferLoop(platform, wallets, ts, rows0)
  {
    ghost var items, start := TransferItems(platform, wallets, ts), TransfersAtStart(rows0);
    var rows, keys := rows0, TransferKeysIn(rows0);
    var imported, skipped := 0, 0;
    for n := 0 to |ts|
      invariant After(start, items, n) == Some(Tally(rows, keys, imported, skipped))
    {
      var t := ts[n];
      if t.sourceWalletId in wallets && t.destinationWalletId in wallets
         && wallets[t.sourceWalletId] != wallets[t.destinationWalletId] {
        var source, destination := wallets[t.sourceWalletId], wallets[t.destinationWalletId];
        var instant := platform.isoInstant(t.transferredAt);
        if instant.None? {
          assert After(start, items, n + 1).None?;
          TallyErrorStays(start, items, n + 1, |items|);
          return None;
        }
        var key := TransferKey(source, destination, instant.value, t.amount);
        if key in keys {
          skipped := skipped + 1;
        } else {
          keys := keys + {key};
          rows := rows + [Transfer(source, destination, t.amount, t.note, instant.value)];
          imported := imported + 1;
        }
      }
    }
    return Some(Tally(rows, keys, imported, skipped));
  }

  // ---------------------------------------------------------------- the import

  datatype Counts = Counts(
    wallets: nat, categories: nat, transactions: nat, transfers: nat,
    skippedTransactions: nat, skippedTransfers: nat)

  datatype Imported = Imported(account: Account, counts: Counts)

  function CategoryPhase(job: Job, account: Account, w: WalletState): Result<CategoryState, ImportError> {
    var passes := Passes(job.file);
    CategoriesAfter(job.platform.text, CategoriesAtStart(job.platform.text, account.categories, w.next), passes,
                    |passes|)
  }

  /** All phases; an error in any of them is the result. */
  function Import(job: Job, account: Account): Result<Imported, ImportError> {
    match WalletsAfter(job, account, |job.file.wallets|)
    case Err(e) => Err(e)
    case Ok(w) =>
      match CategoryPhase(job, account, w)
      case Err(e) => Err(e)
      case Ok(c) =>
        match TransactionLoop(job.platform, account.userId, w.idMap, c.idMap, job.file.transactions,
                              account.transactions)
        case None => Err(InvalidDate)
        case Some(t) =>
          match TransferLoop(job.platform, w.idMap, job.file.transfers, account.transfers)
          case None => Err(InvalidDate)
          case Some(f) =>
            Ok(Imported(
              Account(account.userId, w.wallets, c.categories, t.rows, f.rows, c.next),
              Counts(w.created, c.created, t.imported, f.imported, t.skipped, f.skipped)))
  }

  class BackupService {
    var account: Account

    constructor (account: Account)
      ensures this.account == account
    {
      this.account := account;
    }

    /** importBackup: the rows change together, or, after an error, not at all. */
    method ImportBackup(job: Job) returns (r: Result<Counts, ImportError>)
      modifies this
      ensures match Import(job, old(account))
        case Ok(done) => account == done.account && r == Ok(done.counts)
        case Err(e) => account == old(account) && r == Err(e)
    {
      var before := account;
      var w := ImportWallets(job, account);
      if w.Err? {
        return Err(w.error);
      }
      account := account.(wallets := w.value.wallets, next := w.value.next);
      var c := ImportCategories(job.platform.text, job.file, account.categories, account.next);
      if c.Err? {
        account := before;
        return Err(c.error);
      }
      account := account.(categories := c.value.categories, next := c.value.next);
      var t := ImportTransactions(job.platform, account.userId, w.value.idMap, c.value.idMap,
                                  job.file.transactions, account.transactions);
      if t.None? {
        account := before;
        return Err(InvalidDate);
      }
      account := account.(transactions := t.value.rows);
      var f := ImportTransfers(job.platform, w.value.idMap, job.file.transfers, account.transfers);
      if f.None? {
        account := before;
        return Err(InvalidDate);
      }
      account := account.(transfers := f.value.rows);
      return Ok(Counts(w.value.created, c.value.created, t.value.imported, f.value.imported,
                       t.value.skipped, f.value.skipped));
    }
  }
}
