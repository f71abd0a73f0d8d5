/**
 From the rows of an account through a backup file back to what an import reads: amounts and ids as
 texts, fields by name, and the file of `BackupImport` at the end.
 */
module BackupRoundTrip {
  import opened Prelude
  import opened Digits
  import opened Utf16
  import opened CanonicalJson
  import opened BackupFile
  import opened BackupPayload
  import opened BackupReading
  import TextRules
  import Importing = BackupImport
  import ImportWalletProofs
  import ImportRowProofs
  import OwnBackup

  // ---------------------------------------------------------------- amounts

  /** The amount in hundredths of a text with up to two decimals; other texts are not asked for. */
  function Unsigned(s: string): nat {
    var n := |s|;
    if n >= 3 && s[n - 3] == '.' && AllDigits(s[..n - 3]) && AllDigits(s[n - 2..]) then
      100 * NumberOf(s[..n - 3]) + NumberOf(s[n - 2..])
    else if n >= 2 && s[n - 2] == '.' && AllDigits(s[..n - 2]) && AllDigits(s[n - 1..]) then
      100 * NumberOf(s[..n - 2]) + 10 * NumberOf(s[n - 1..])
    else if AllDigits(s) then 100 * NumberOf(s)
    else 0
  }

  function Hundredths(s: string): int {
    if s != "" && s[0] == '-' then 0 - Unsigned(s[1..]) else Unsigned(s)
  }

  lemma UnsignedReads(n: nat)
    ensures Unsigned(Decimal(n / 100) + "." + Pad(n % 100, 2)) == n
  {
    var whole, cents := Decimal(n / 100), Pad(n % 100, 2);
    var s := whole + "." + cents;
    assert s[..|s| - 3] == whole && s[|s| - 2..] == cents && s[|s| - 3] == '.';
    NumberOfDecimal(n / 100);
    assert Power10(2) == 100;
    NumberOfPad(n % 100, 2);
  }

  /** A printed amount reads back. */
  lemma FixedReads(amount: int)
    ensures Hundredths(Importing.Fixed2(amount)) == amount
  {
    ImportRowProofs.FixedShape(amount);
    var size := if amount < 0 then -amount else amount;
    var unsigned := Decimal(size / 100) + "." + Pad(size % 100, 2);
    UnsignedReads(size);
    assert ("-" + unsigned)[1..] == unsigned;
    hide Unsigned, Decimal, Pad, Importing.Fixed2;
  }

  // ---------------------------------------------------------------- what an import reads

  function OptionOf(t: Option<Text>): Option<string> {
    if t.Some? then Some(Decode(t.value)) else None
  }

  function TypeOf(kind: EntryKind): Importing.EntryType {
    match kind
    case INCOME => Importing.Income
    case EXPENSE => Importing.Expense
  }

  function WalletOf(w: WalletRow): Importing.FileWallet {
    Importing.FileWallet(id := Decode(w.id), name := Decode(w.name), balance := Hundredths(Decode(w.balance)),
                      isDefault := w.isDefault, isArchived := w.isArchived)
  }

  function CategoryOf(c: CategoryRow): Importing.FileCategory {
    Importing.FileCategory(id := Decode(c.id), name := Decode(c.name), entryType := TypeOf(c.kind),
                        isArchived := c.isArchived, parentId := OptionOf(c.parentId))
  }

  function TransactionOf(t: TransactionRow): Importing.FileTransaction {
    Importing.FileTransaction(
      walletId := Decode(t.walletId), categoryId := Decode(t.categoryId), amount := Hundredths(Decode(t.amount)),
      entryType := TypeOf(t.kind), description := OptionOf(t.description), receiptUrl := OptionOf(t.receiptUrl),
      date := Decode(t.date))
  }

  function TransferOf(t: TransferRow): Importing.FileTransfer {
    Importing.FileTransfer(
      sourceWalletId := Decode(t.sourceWalletId), destinationWalletId := Decode(t.destinationWalletId),
      amount := Hundredths(Decode(t.amount)), note := OptionOf(t.note), transferredAt := Decode(t.transferredAt))
  }

  /** What an import takes from the data of a file: the columns that it looks at, read as numbers and strings. */
  function FileOf(v: Json): Importing.File {
    var d := ReadData(v);
    Importing.File(
      wallets := Each(WalletOf, d.wallets),
      categories := Each(CategoryOf, d.categories),
      transactions := Each(TransactionOf, d.transactions),
      transfers := Each(TransferOf, d.transfers))
  }

  // ---------------------------------------------------------------- what an export prints

  predicate IsText(t: Text, s: string) {
    t == Encode(s)
  }

  predicate IsOption(t: Option<Text>, s: Option<string>) {
    if s.Some? then t.Some? && IsText(t.value, s.value) else t.None?
  }

  predicate IsKind(kind: EntryKind, t: Importing.EntryType) {
    kind == INCOME <==> t == Importing.Income
  }

  predicate IsWallet(row: WalletRow, w: Importing.Wallet) {
    && IsText(row.id, Decimal(w.id)) && IsText(row.name, w.name) && IsText(row.balance, Importing.Fixed2(w.balance))
    && row.isDefault == w.isDefault && row.isArchived == w.isArchived
  }

  predicate IsCategory(row: CategoryRow, c: Importing.Category) {
    && IsText(row.id, Decimal(c.id)) && IsText(row.name, c.name) && IsKind(row.kind, c.entryType)
    && row.isArchived == c.isArchived
    && IsOption(row.parentId, if c.parentId.Some? then Some(Decimal(c.parentId.value)) else None)
  }

  predicate IsTransaction(row: TransactionRow, t: Importing.Transaction) {
    && IsText(row.walletId, Decimal(t.walletId)) && IsText(row.categoryId, Decimal(t.categoryId))
    && IsText(row.amount, Importing.Fixed2(t.amount)) && IsKind(row.kind, t.entryType)
    && IsOption(row.description, t.description) && IsOption(row.receiptUrl, t.receiptUrl) && IsText(row.date, t.date)
  }

  predicate IsTransfer(row: TransferRow, t: Importing.Transfer) {
    && IsText(row.sourceWalletId, Decimal(t.sourceWalletId))
    && IsText(row.destinationWalletId, Decimal(t.destinationWalletId))
    && IsText(row.amount, Importing.Fixed2(t.amount)) && IsOption(row.note, t.note)
    && IsText(row.transferredAt, t.transferredAt)
  }

  function OwnCategories(cs: seq<Importing.Category>): seq<Importing.Category> {
    if cs == [] then []
    else OwnCategories(cs[..|cs| - 1]) + if cs[|cs| - 1].isSystem then [] else [cs[|cs| - 1]]
  }

  /** The rows are those of the account, which has no columns but those that an import looks at. */
  ghost predicate Describes(d: UserData, a: Importing.Account) {
    var own := OwnCategories(a.categories);
    && |d.wallets| == |a.wallets| && |d.categories| == |own|
    && |d.transactions| == |a.transactions| && |d.transfers| == |a.transfers|
    && (forall i :: 0 <= i < |a.wallets| ==> IsWallet(d.wallets[i], a.wallets[i]))
    && (forall i :: 0 <= i < |own| ==> IsCategory(d.categories[i], own[i]))
    && (forall i :: 0 <= i < |a.transactions| ==> IsTransaction(d.transactions[i], a.transactions[i]))
    && (forall i :: 0 <= i < |a.transfers| ==> IsTransfer(d.transfers[i], a.transfers[i]))
  }

  // ---------------------------------------------------------------- the round trip

  lemma WalletTrip(row: WalletRow, w: Importing.Wallet)
    requires IsWallet(row, w)
    ensures WalletOf(row) == Importing.FileWallet(Decimal(w.id), w.name, w.balance, w.isDefault, w.isArchived)
  {
    DecodeEncode(Decimal(w.id));
    DecodeEncode(w.name);
    DecodeEncode(Importing.Fixed2(w.balance));
    FixedReads(w.balance);
    hide Decimal, Hundredths, Importing.Fixed2, Encode, Decode;
  }

  lemma CategoryTrip(row: CategoryRow, c: Importing.Category)
    requires IsCategory(row, c)
    ensures CategoryOf(row) == OwnBackup.ExportCategory(c)
  {
    DecodeEncode(Decimal(c.id));
    DecodeEncode(c.name);
    if c.parentId.Some? {
      DecodeEncode(Decimal(c.parentId.value));
    }
    hide Decimal, Encode, Decode;
  }

  lemma OptionTrip(t: Option<Text>, s: Option<string>)
    requires IsOption(t, s)
    ensures OptionOf(t) == s
  {
    if s.Some? {
      DecodeEncode(s.value);
    }
  }

  lemma TransactionTrip(row: TransactionRow, t: Importing.Transaction)
    requires IsTransaction(row, t)
    ensures TransactionOf(row) == OwnBackup.ExportTransaction(t)
  {
    DecodeEncode(Decimal(t.walletId));
    DecodeEncode(Decimal(t.categoryId));
    DecodeEncode(Importing.Fixed2(t.amount));
    DecodeEncode(t.date);
    FixedReads(t.amount);
    OptionTrip(row.description, t.description);
    OptionTrip(row.receiptUrl, t.receiptUrl);
    hide Decimal, Hundredths, Importing.Fixed2, Encode, Decode, IsOption, OptionOf;
  }

  lemma TransferTrip(row: TransferRow, t: Importing.Transfer)
    requires IsTransfer(row, t)
    ensures TransferOf(row) == OwnBackup.ExportTransfer(t)
  {
    DecodeEncode(Decimal(t.sourceWalletId));
    DecodeEncode(Decimal(t.destinationWalletId));
    DecodeEncode(Importing.Fixed2(t.amount));
    DecodeEncode(t.transferredAt);
    FixedReads(t.amount);
    OptionTrip(row.note, t.note);
    hide Decimal, Hundredths, Importing.Fixed2, Encode, Decode, IsOption, OptionOf;
  }

  lemma {:induction false} ExportedCategories(cs: seq<Importing.Category>)
    ensures var (own, exported) := (OwnCategories(cs), OwnBackup.ExportCategories(cs));
      |own| == |exported| && forall i :: 0 <= i < |own| ==> exported[i] == OwnBackup.ExportCategory(own[i])
  {
    if cs != [] {
      ExportedCategories(cs[..|cs| - 1]);
    }
  }

  /** What an import reads in the exported data of an account is the backup of that account. */
  lemma FileIsOwnBackup(d: UserData, a: Importing.Account)
    requires Describes(d, a)
    ensures FileOf(Sent(Payload(d))) == OwnBackup.Export(a)
  {
    PayloadReads(d);
    ExportedCategories(a.categories);
    hide Payload, ReadData, WalletOf, CategoryOf, TransactionOf, TransferOf, IsWallet, IsCategory, IsTransaction,
      IsTransfer, Decimal, OwnCategories, OwnBackup.ExportCategories, OwnBackup.ExportCategory,
      OwnBackup.ExportTransaction, OwnBackup.ExportTransfer;
    var file, own := FileOf(Sent(Payload(d))), OwnBackup.Export(a);
    forall i | 0 <= i < |a.wallets| ensures file.wallets[i] == own.wallets[i] {
      WalletTrip(d.wallets[i], a.wallets[i]);
    }
    forall i | 0 <= i < |OwnCategories(a.categories)| ensures file.categories[i] == own.categories[i] {
      CategoryTrip(d.categories[i], OwnCategories(a.categories)[i]);
    }
    forall i | 0 <= i < |a.transactions| ensures file.transactions[i] == own.transactions[i] {
      TransactionTrip(d.transactions[i], a.transactions[i]);
    }
    forall i | 0 <= i < |a.transfers| ensures file.transfers[i] == own.transfers[i] {
      TransferTrip(d.transfers[i], a.transfers[i]);
    }
    assert file.wallets == own.wallets && file.categories == own.categories;
    assert file.transactions == own.transactions && file.transfers == own.transfers;
  }

  /** The whole way, with a password or without: what is accepted of the file is the backup of the account. */
  lemma AcceptedIsOwnBackup(rt: Runtime, d: UserData, a: Importing.Account, password: Option<Text>)
    requires CollisionFree(rt) && CipherLaw(rt) && Validates(rt) && ColumnsNotNull(d) && Describes(d, a)
    ensures var accepted := Accept(rt, SentFile(Export(rt, Payload(d), password)), password);
      && (accepted.Ok? <==> NamesFit(d))
      && (accepted.Ok? ==> FileOf(accepted.value) == OwnBackup.Export(a))
  {
    hide Payload, Accept, Export, CollisionFree, CipherLaw, Validates, FileOf, NamesFit, ColumnsNotNull, Describes,
      OwnBackup.Export;
    ExportAcceptedIff(rt, d, password);
    PayloadIs(d);
    SentUnchanged(Payload(d));
    FileIsOwnBackup(d, a);
  }

  /**
   An account whose wallet names differ in more than case, exported, with a password or without, and
   imported from that file: nothing changes, unless some wallet is archived or a savings account, or an
   archived category has no active namesake; then the import fails.
   */
  lemma ImportOfOwnFile(rt: Runtime, platform: Importing.Platform, d: UserData, a: Importing.Account,
                        password: Option<Text>, mode: Importing.BalanceMode)
    requires CollisionFree(rt) && CipherLaw(rt) && Validates(rt)
    requires ColumnsNotNull(d) && NamesFit(d) && Describes(d, a)
    requires OwnBackup.NamesAreTrimmed(platform.text, a) && OwnBackup.TimesAreSettled(platform, a)
    requires ImportWalletProofs.WalletsFit(a.wallets, a.next)
    requires forall i, j :: 0 <= i < j < |a.wallets| ==>
      TextRules.NameKey(platform.text, a.wallets[i].name) != TextRules.NameKey(platform.text, a.wallets[j].name)
    ensures var accepted := Accept(rt, SentFile(Export(rt, Payload(d), password)), password);
      accepted.Ok? &&
      var job := Importing.Job(platform, FileOf(accepted.value), Importing.Options([], mode));
      if (forall i :: 0 <= i < |a.wallets| ==> !a.wallets[i].isArchived && a.wallets[i].isStandard)
         && OwnBackup.ArchivedHaveNamesakes(platform.text, a.categories)
      then Importing.Import(job, a).Ok? && Importing.Import(job, a).value.account == a
      else Importing.Import(job, a) == Err(Importing.UniqueViolation)
  {
    hide Payload, Accept, Export, CollisionFree, CipherLaw, Validates, FileOf, NamesFit, ColumnsNotNull, Describes,
      OwnBackup.Export, Importing.Import, TextRules.NameKey, OwnBackup.ArchivedHaveNamesakes;
    AcceptedIsOwnBackup(rt, d, a, password);
    OwnBackup.OwnBackupOfDistinctNames(platform, a, mode);
  }
}
