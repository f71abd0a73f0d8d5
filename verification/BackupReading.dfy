/**
 Reading a backup file by the names of its fields: what an export writes is, field by field, what the
 database held.
 */
module BackupReading {
  import opened Prelude
  import opened FiniteSets
  import opened CanonicalJson
  import opened CanonicalProofs
  import opened Utf16
  import opened BackupFile
  import opened Schemas
  import opened SchemaRows
  import opened BackupPayload

  // ---------------------------------------------------------------- fields by name

  /** The member of that name; an absent one reads as undefined. */
  function Get(row: Json, name: string): Json {
    if row.Obj? then Member(row.members, Encode(name)) else Undefined
  }

  function GetText(row: Json, name: string): Text {
    var v := Get(row, name);
    if v.Str? then v.s else []
  }

  function GetOption(row: Json, name: string): Option<Text> {
    var v := Get(row, name);
    if v.Str? then Some(v.s) else None
  }

  function GetFlag(row: Json, name: string): bool {
    var v := Get(row, name);
    v.Bool? && v.b
  }

  function GetRows(row: Json, name: string): seq<Json> {
    var v := Get(row, name);
    if v.Arr? then v.items else []
  }

  function GetId(row: Json, name: string): RowId {
    var t := GetText(row, name);
    if t != [] then t else [0x30]
  }

  function GetCurrency(row: Json): Currency {
    var t := GetText(row, "currency");
    if 1 <= |t| <= 10 then t else [0x30]
  }

  function GetAmount(row: Json, name: string): Amount {
    var t := GetText(row, name);
    if IsAmount(t) then t else [0x30]
  }

  function GetBalance(row: Json): Balance {
    var t := GetText(row, "balance");
    if IsBalance(t) then t else [0x30]
  }

  function GetDay(row: Json, name: string): Day {
    var t := GetText(row, name);
    if IsDay(t) then t else [0x30, 0x30, 0x30, 0x30, 0x2D, 0x30, 0x30, 0x2D, 0x30, 0x30]
  }

  function GetKind(row: Json): EntryKind {
    if GetText(row, "type") == Units("INCOME") then INCOME else EXPENSE
  }

  function GetBudgetKind(row: Json): BudgetKind {
    if GetText(row, "type") == Units("OVERALL") then OVERALL else CATEGORY
  }

  function GetPeriod(row: Json): BudgetPeriod {
    var t := GetText(row, "period");
    if t == Units("CUSTOM") then CUSTOM
    else if t == Units("WEEKLY") then WEEKLY
    else if t == Units("MONTHLY") then MONTHLY
    else YEARLY
  }

  function GetMode(row: Json): RolloverMode {
    var t := GetText(row, "rolloverMode");
    if t == Units("RESET") then RESET
    else if t == Units("ROLLOVER_SURPLUS") then ROLLOVER_SURPLUS
    else if t == Units("ROLLOVER_DEFICIT") then ROLLOVER_DEFICIT
    else ROLLOVER_NET
  }

  function GetStatus(row: Json): GoalStatus {
    var t := GetText(row, "status");
    if t == Units("ACTIVE") then ACTIVE else if t == Units("PAUSED") then PAUSED else COMPLETED
  }

  // ---------------------------------------------------------------- rows

  function ReadWallet(v: Json): WalletRow {
    WalletRow(
      id := GetId(v, "id"), name := GetText(v, "name"), balance := GetBalance(v), currency := GetCurrency(v),
      icon := GetOption(v, "icon"), color := GetOption(v, "color"), description := GetOption(v, "description"),
      isDefault := GetFlag(v, "isDefault"), isArchived := GetFlag(v, "isArchived"))
  }

  function ReadCategory(v: Json): CategoryRow {
    CategoryRow(
      id := GetId(v, "id"), name := GetText(v, "name"), kind := GetKind(v), icon := GetOption(v, "icon"),
      color := GetOption(v, "color"), isSystem := GetFlag(v, "isSystem"), isArchived := GetFlag(v, "isArchived"),
      parentId := GetOption(v, "parentId"))
  }

  function ReadTransaction(v: Json): TransactionRow {
    TransactionRow(
      id := GetId(v, "id"), walletId := GetId(v, "walletId"), categoryId := GetId(v, "categoryId"),
      amount := GetAmount(v, "amount"), kind := GetKind(v), description := GetOption(v, "description"),
      receiptUrl := GetOption(v, "receiptUrl"), location := GetOption(v, "location"), date := GetDay(v, "date"),
      createdAt := GetText(v, "createdAt"))
  }

  function ReadTransfer(v: Json): TransferRow {
    TransferRow(
      id := GetId(v, "id"), sourceWalletId := GetId(v, "sourceWalletId"),
      destinationWalletId := GetId(v, "destinationWalletId"), amount := GetAmount(v, "amount"),
      note := GetOption(v, "note"), transferredAt := GetText(v, "transferredAt"))
  }

  function ReadBudget(v: Json): BudgetRow {
    BudgetRow(
      id := GetId(v, "id"), categoryId := GetOption(v, "categoryId"), name := GetText(v, "name"),
      amount := GetAmount(v, "amount"), currency := GetCurrency(v), kind := GetBudgetKind(v),
      period := GetPeriod(v), startDate := GetDay(v, "startDate"), endDate := GetDay(v, "endDate"),
      alertThreshold := GetOption(v, "alertThreshold"), isArchived := GetFlag(v, "isArchived"),
      isRecurring := GetFlag(v, "isRecurring"), autoRenew := GetFlag(v, "autoRenew"), rolloverMode := GetMode(v),
      rolloverAmount := GetOption(v, "rolloverAmount"), autoRenewUntil := GetOption(v, "autoRenewUntil"))
  }

  function ReadContribution(v: Json): ContributionRow {
    ContributionRow(
      id := GetId(v, "id"), amount := GetAmount(v, "amount"), contributedAt := GetText(v, "contributedAt"),
      note := GetOption(v, "note"))
  }

  function ReadContributions(items: seq<Json>): seq<ContributionRow> {
    seq(|items|, i requires 0 <= i < |items| => ReadContribution(items[i]))
  }

  function ReadGoal(v: Json): GoalRow {
    GoalRow(
      id := GetId(v, "id"), name := GetText(v, "name"), targetAmount := GetAmount(v, "targetAmount"),
      currency := GetCurrency(v), targetDate := GetDay(v, "targetDate"),
      description := GetOption(v, "description"), icon := GetOption(v, "icon"), color := GetOption(v, "color"),
      status := GetStatus(v), completedAt := GetOption(v, "completedAt"), isArchived := GetFlag(v, "isArchived"),
      contributions := ReadContributions(GetRows(v, "contributions")))
  }

  /** All rows of the data of a file, every field by its name. */
  function ReadData(v: Json): UserData {
    UserData(
      wallets := Each(ReadWallet, GetRows(v, "wallets")),
      categories := Each(ReadCategory, GetRows(v, "categories")),
      transactions := Each(ReadTransaction, GetRows(v, "transactions")),
      transfers := Each(ReadTransfer, GetRows(v, "transfers")),
      budgets := Each(ReadBudget, GetRows(v, "budgets")),
      savingGoals := Each(ReadGoal, GetRows(v, "savingGoals")))
  }

  // ---------------------------------------------------------------- reading what was written

  /** A value as it arrives: without what is undefined. */
  function Arrived(v: Json): Json {
    if v == Undefined then Undefined else Sent(v)
  }

  /** The object of a row, as it is sent, has every value under its name. */
  ghost predicate Holds(row: Json, names: seq<Name>, vs: seq<Json>)
    requires |names| == |vs|
  {
    row.Obj? && forall i :: 0 <= i < |names| ==> Get(row, names[i]) == Arrived(vs[i])
  }

  lemma RowHolds(names: seq<Name>, columns: seq<Column>, vs: seq<Json>)
    requires |names| == |columns| == |vs| && NoRepeats(names)
    ensures Holds(Sent(Row(Fields(names, columns), vs)), names, vs)
  {
    var fields := Fields(names, columns);
    FieldsDiffer(names, columns);
    forall i: nat | i < |names| ensures Get(Sent(Row(fields, vs)), names[i]) == Arrived(vs[i]) {
      RowMember(fields, vs, i);
      EncodeName(names[i]);
    }
  }

  lemma NamesDiffer(a: Name, b: Name)
    ensures Units(a) == Units(b) <==> a == b
  {
    if Units(a) == Units(b) {
      UnitsInjective(a, b);
    }
  }

  lemma KindReads(v: Json, k: EntryKind)
    requires Get(v, "type") == Str(KindText(k))
    ensures GetKind(v) == k
  {
    hide Units, Get;
    NamesDiffer("INCOME", "EXPENSE");
  }

  lemma BudgetKindReads(v: Json, k: BudgetKind)
    requires Get(v, "type") == Str(BudgetKindText(k))
    ensures GetBudgetKind(v) == k
  {
    hide Units, Get;
    NamesDiffer("OVERALL", "CATEGORY");
  }

  lemma PeriodReads(v: Json, p: BudgetPeriod)
    requires Get(v, "period") == Str(PeriodText(p))
    ensures GetPeriod(v) == p
  {
    hide Units, Get;
    NamesDiffer("CUSTOM", "WEEKLY");
    NamesDiffer("CUSTOM", "MONTHLY");
    NamesDiffer("CUSTOM", "YEARLY");
    NamesDiffer("WEEKLY", "MONTHLY");
    NamesDiffer("WEEKLY", "YEARLY");
    NamesDiffer("MONTHLY", "YEARLY");
  }

  lemma ModeReads(v: Json, m: RolloverMode)
    requires Get(v, "rolloverMode") == Str(ModeText(m))
    ensures GetMode(v) == m
  {
    hide Units, Get;
    NamesDiffer("RESET", "ROLLOVER_SURPLUS");
    NamesDiffer("RESET", "ROLLOVER_DEFICIT");
    NamesDiffer("RESET", "ROLLOVER_NET");
    NamesDiffer("ROLLOVER_SURPLUS", "ROLLOVER_DEFICIT");
    NamesDiffer("ROLLOVER_SURPLUS", "ROLLOVER_NET");
    NamesDiffer("ROLLOVER_DEFICIT", "ROLLOVER_NET");
  }

  lemma StatusReads(v: Json, s: GoalStatus)
    requires Get(v, "status") == Str(StatusText(s))
    ensures GetStatus(v) == s
  {
    hide Units, Get;
    NamesDiffer("ACTIVE", "PAUSED");
    NamesDiffer("ACTIVE", "COMPLETED");
    NamesDiffer("PAUSED", "COMPLETED");
  }

  /** A table arrives row by row. */
  lemma TableArrives(fields: seq<Field>, rows: seq<seq<Json>>)
    requires forall i :: 0 <= i < |rows| ==> |rows[i]| == |fields|
    ensures var items := Sent(Table(fields, rows));
      items.Arr? && |items.items| == |rows| && forall i :: 0 <= i < |rows| ==>
        items.items[i] == Sent(Row(fields, rows[i]))
  {
  }

  lemma WalletFieldsAre(v: Json, vs: seq<Json>)
    requires |vs| == 9 && Holds(v, WALLET_NAMES, vs)
    ensures Get(v, "id") == Arrived(vs[0]) && Get(v, "name") == Arrived(vs[1]) && Get(v, "balance") == Arrived(vs[2])
    ensures Get(v, "currency") == Arrived(vs[3]) && Get(v, "icon") == Arrived(vs[4])
    ensures Get(v, "color") == Arrived(vs[5]) && Get(v, "description") == Arrived(vs[6])
    ensures Get(v, "isDefault") == Arrived(vs[7]) && Get(v, "isArchived") == Arrived(vs[8])
  {
    hide Get, Arrived;
    var names := WALLET_NAMES;
    assert forall i :: 0 <= i < 9 ==> Get(v, names[i]) == Arrived(vs[i]);
    assert names[0] == "id" && names[1] == "name" && names[2] == "balance" && names[3] == "currency";
    assert names[4] == "icon" && names[5] == "color" && names[6] == "description" && names[7] == "isDefault";
    assert names[8] == "isArchived";
  }

  lemma WalletReads(w: WalletRow)
    ensures ReadWallet(Sent(Row(WalletFields(), WalletValues(w)))) == w
  {
    hide Row, Get, Units, WalletColumns, IsAmount, IsDay, IsBalance, Holds;
    WalletNamesDiffer();
    var vs := WalletValues(w);
    RowHolds(WALLET_NAMES, WalletColumns(), vs);
    var v := Sent(Row(WalletFields(), vs));
    WalletFieldsAre(v, vs);
  }

  lemma CategoryFieldsAre(v: Json, vs: seq<Json>)
    requires |vs| == 8 && Holds(v, CATEGORY_NAMES, vs)
    ensures Get(v, "id") == Arrived(vs[0]) && Get(v, "name") == Arrived(vs[1]) && Get(v, "type") == Arrived(vs[2])
    ensures Get(v, "icon") == Arrived(vs[3]) && Get(v, "color") == Arrived(vs[4])
    ensures Get(v, "isSystem") == Arrived(vs[5]) && Get(v, "isArchived") == Arrived(vs[6])
    ensures Get(v, "parentId") == Arrived(vs[7])
  {
    hide Get, Arrived;
    var names := CATEGORY_NAMES;
    assert forall i :: 0 <= i < 8 ==> Get(v, names[i]) == Arrived(vs[i]);
    assert names[0] == "id" && names[1] == "name" && names[2] == "type" && names[3] == "icon" && names[4] == "color";
    assert names[5] == "isSystem" && names[6] == "isArchived" && names[7] == "parentId";
  }

  lemma CategoryReads(c: CategoryRow)
    ensures ReadCategory(Sent(Row(CategoryFields(), CategoryValues(c)))) == c
  {
    hide Row, Get, Units, GetKind, CategoryColumns, IsAmount, IsDay, IsBalance, Holds;
    CategoryNamesDiffer();
    var vs := CategoryValues(c);
    RowHolds(CATEGORY_NAMES, CategoryColumns(), vs);
    var v := Sent(Row(CategoryFields(), vs));
    CategoryFieldsAre(v, vs);
    KindReads(v, c.kind);
  }

  lemma TransactionFieldsAre(v: Json, vs: seq<Json>)
    requires |vs| == 10 && Holds(v, TRANSACTION_NAMES, vs)
    ensures Get(v, "id") == Arrived(vs[0]) && Get(v, "walletId") == Arrived(vs[1])
    ensures Get(v, "categoryId") == Arrived(vs[2]) && Get(v, "amount") == Arrived(vs[3])
    ensures Get(v, "type") == Arrived(vs[4]) && Get(v, "description") == Arrived(vs[5])
    ensures Get(v, "receiptUrl") == Arrived(vs[6]) && Get(v, "location") == Arrived(vs[7])
    ensures Get(v, "date") == Arrived(vs[8]) && Get(v, "createdAt") == Arrived(vs[9])
  {
    hide Get, Arrived;
    var names := TRANSACTION_NAMES;
    assert forall i :: 0 <= i < 10 ==> Get(v, names[i]) == Arrived(vs[i]);
    assert names[0] == "id" && names[1] == "walletId" && names[2] == "categoryId" && names[3] == "amount";
    assert names[4] == "type" && names[5] == "description" && names[6] == "receiptUrl" && names[7] == "location";
    assert names[8] == "date" && names[9] == "createdAt";
  }

  lemma TransactionReads(t: TransactionRow)
    ensures ReadTransaction(Sent(Row(TransactionFields(), TransactionValues(t)))) == t
  {
    hide Row, Get, Units, GetKind, TransactionColumns, IsAmount, IsDay, IsBalance, Holds;
    TransactionNamesDiffer();
    var vs := TransactionValues(t);
    RowHolds(TRANSACTION_NAMES, TransactionColumns(), vs);
    var v := Sent(Row(TransactionFields(), vs));
    TransactionFieldsAre(v, vs);
    KindReads(v, t.kind);
  }

  lemma TransferFieldsAre(v: Json, vs: seq<Json>)
    requires |vs| == 6 && Holds(v, TRANSFER_NAMES, vs)
    ensures Get(v, "id") == Arrived(vs[0]) && Get(v, "sourceWalletId") == Arrived(vs[1])
    ensures Get(v, "destinationWalletId") == Arrived(vs[2]) && Get(v, "amount") == Arrived(vs[3])
    ensures Get(v, "note") == Arrived(vs[4]) && Get(v, "transferredAt") == Arrived(vs[5])
  {
    hide Get, Arrived;
    var names := TRANSFER_NAMES;
    assert forall i :: 0 <= i < 6 ==> Get(v, names[i]) == Arrived(vs[i]);
    assert names[0] == "id" && names[1] == "sourceWalletId" && names[2] == "destinationWalletId";
    assert names[3] == "amount" && names[4] == "note" && names[5] == "transferredAt";
  }

  lemma TransferReads(t: TransferRow)
    ensures ReadTransfer(Sent(Row(TransferFields(), TransferValues(t)))) == t
  {
    hide Row, Get, Units, TransferColumns, IsAmount, IsDay, IsBalance, Holds;
    TransferNamesDiffer();
    var vs := TransferValues(t);
    RowHolds(TRANSFER_NAMES, TransferColumns(), vs);
    var v := Sent(Row(TransferFields(), vs));
    TransferFieldsAre(v, vs);
  }

  lemma BudgetFieldsAre(v: Json, vs: seq<Json>)
    requires |vs| == 16 && Holds(v, BUDGET_NAMES, vs)
    ensures Get(v, "id") == Arrived(vs[0]) && Get(v, "categoryId") == Arrived(vs[1])
    ensures Get(v, "name") == Arrived(vs[2]) && Get(v, "amount") == Arrived(vs[3])
    ensures Get(v, "currency") == Arrived(vs[4]) && Get(v, "type") == Arrived(vs[5])
    ensures Get(v, "period") == Arrived(vs[6]) && Get(v, "startDate") == Arrived(vs[7])
    ensures Get(v, "endDate") == Arrived(vs[8]) && Get(v, "alertThreshold") == Arrived(vs[9])
    ensures Get(v, "isArchived") == Arrived(vs[10]) && Get(v, "isRecurring") == Arrived(vs[11])
    ensures Get(v, "autoRenew") == Arrived(vs[12]) && Get(v, "rolloverMode") == Arrived(vs[13])
    ensures Get(v, "rolloverAmount") == Arrived(vs[14]) && Get(v, "autoRenewUntil") == Arrived(vs[15])
  {
    hide Get, Arrived;
    var names := BUDGET_NAMES;
    assert forall i :: 0 <= i < 16 ==> Get(v, names[i]) == Arrived(vs[i]);
    assert names[0] == "id" && names[1] == "categoryId" && names[2] == "name" && names[3] == "amount";
    assert names[4] == "currency" && names[5] == "type" && names[6] == "period" && names[7] == "startDate";
    assert names[8] == "endDate" && names[9] == "alertThreshold" && names[10] == "isArchived";
    assert names[11] == "isRecurring" && names[12] == "autoRenew" && names[13] == "rolloverMode";
    assert names[14] == "rolloverAmount" && names[15] == "autoRenewUntil";
  }

  /** The fields of a budget, as they arrive. */
  ghost predicate HoldsBudget(v: Json, b: BudgetRow) {
    && Get(v, "id") == Str(b.id) && Get(v, "categoryId") == Nullable(b.categoryId) && Get(v, "name") == Str(b.name)
    && Get(v, "amount") == Str(b.amount) && Get(v, "currency") == Str(b.currency)
    && Get(v, "type") == Str(BudgetKindText(b.kind)) && Get(v, "period") == Str(PeriodText(b.period))
    && Get(v, "startDate") == Str(b.startDate) && Get(v, "endDate") == Str(b.endDate)
    && Get(v, "alertThreshold") == Missing(b.alertThreshold) && Get(v, "isArchived") == Bool(b.isArchived)
    && Get(v, "isRecurring") == Bool(b.isRecurring) && Get(v, "autoRenew") == Bool(b.autoRenew)
    && Get(v, "rolloverMode") == Str(ModeText(b.rolloverMode))
    && Get(v, "rolloverAmount") == Missing(b.rolloverAmount)
    && Get(v, "autoRenewUntil") == Nullable(b.autoRenewUntil)
  }

  lemma BudgetArrives(b: BudgetRow)
    ensures HoldsBudget(Sent(Row(BudgetFields(), BudgetValues(b))), b)
  {
    hide Row, Get, Units, BudgetColumns, BudgetKindText, PeriodText, ModeText, Holds;
    BudgetNamesDiffer();
    var vs := BudgetValues(b);
    RowHolds(BUDGET_NAMES, BudgetColumns(), vs);
    BudgetFieldsAre(Sent(Row(BudgetFields(), vs)), vs);
  }

  lemma BudgetReads(b: BudgetRow)
    ensures ReadBudget(Sent(Row(BudgetFields(), BudgetValues(b)))) == b
  {
    hide Row, Get, Units, GetBudgetKind, GetPeriod, GetMode, BudgetKindText, PeriodText, ModeText, BudgetFields,
      BudgetValues, IsAmount, IsDay, Sent;
    BudgetArrives(b);
    var v := Sent(Row(BudgetFields(), BudgetValues(b)));
    BudgetKindReads(v, b.kind);
    PeriodReads(v, b.period);
    ModeReads(v, b.rolloverMode);
  }

  lemma ContributionFieldsAre(v: Json, vs: seq<Json>)
    requires |vs| == 4 && Holds(v, CONTRIBUTION_NAMES, vs)
    ensures Get(v, "id") == Arrived(vs[0]) && Get(v, "amount") == Arrived(vs[1])
    ensures Get(v, "contributedAt") == Arrived(vs[2]) && Get(v, "note") == Arrived(vs[3])
  {
    hide Get, Arrived;
    var names := CONTRIBUTION_NAMES;
    assert forall i :: 0 <= i < 4 ==> Get(v, names[i]) == Arrived(vs[i]);
    assert names[0] == "id" && names[1] == "amount" && names[2] == "contributedAt" && names[3] == "note";
  }

  lemma ContributionReads(c: ContributionRow)
    ensures ReadContribution(Sent(Row(ContributionFields(), ContributionValues(c)))) == c
  {
    hide Row, Get, Units, ContributionColumns, IsAmount, IsDay, IsBalance, Holds;
    ContributionNamesDiffer();
    var vs := ContributionValues(c);
    RowHolds(CONTRIBUTION_NAMES, ContributionColumns(), vs);
    var v := Sent(Row(ContributionFields(), vs));
    ContributionFieldsAre(v, vs);
  }

  lemma GoalFieldsAre(v: Json, vs: seq<Json>)
    requires |vs| == 12 && Holds(v, GOAL_NAMES, vs)
    ensures Get(v, "id") == Arrived(vs[0]) && Get(v, "name") == Arrived(vs[1])
    ensures Get(v, "targetAmount") == Arrived(vs[2]) && Get(v, "currency") == Arrived(vs[3])
    ensures Get(v, "targetDate") == Arrived(vs[4]) && Get(v, "description") == Arrived(vs[5])
    ensures Get(v, "icon") == Arrived(vs[6]) && Get(v, "color") == Arrived(vs[7])
    ensures Get(v, "status") == Arrived(vs[8]) && Get(v, "completedAt") == Arrived(vs[9])
    ensures Get(v, "isArchived") == Arrived(vs[10]) && Get(v, "contributions") == Arrived(vs[11])
  {
    hide Get, Arrived;
    var names := GOAL_NAMES;
    assert forall i :: 0 <= i < 12 ==> Get(v, names[i]) == Arrived(vs[i]);
    assert names[0] == "id" && names[1] == "name" && names[2] == "targetAmount" && names[3] == "currency";
    assert names[4] == "targetDate" && names[5] == "description" && names[6] == "icon" && names[7] == "color";
    assert names[8] == "status" && names[9] == "completedAt" && names[10] == "isArchived";
    assert names[11] == "contributions";
  }

  lemma GoalReads(g: GoalRow)
    ensures ReadGoal(Sent(Row(GoalFields(), GoalValues(g)))) == g
  {
    hide Row, Get, Units, GetStatus, GoalColumns, IsAmount, IsDay, IsBalance, Holds;
    GoalNamesDiffer();
    var vs := GoalValues(g);
    RowHolds(GOAL_NAMES, GoalColumns(), vs);
    var v := Sent(Row(GoalFields(), vs));
    GoalFieldsAre(v, vs);
    StatusReads(v, g.status);
    var rows := ContributionRows(g.contributions);
    TableArrives(ContributionFields(), rows);
    forall i | 0 <= i < |rows|
      ensures ReadContribution(Sent(Row(ContributionFields(), rows[i]))) == g.contributions[i]
    {
      ContributionReads(g.contributions[i]);
    }
    assert ReadContributions(GetRows(v, "contributions")) == g.contributions;
  }

  // ---------------------------------------------------------------- tables

  /** What a reader makes of every row, it makes of the list. */
  lemma TableReads<R>(v: Json, name: string, fields: seq<Field>, values: seq<seq<Json>>, read: Json -> R, rows: seq<R>)
    requires |values| == |rows| && forall i :: 0 <= i < |values| ==> |values[i]| == |fields|
    requires Get(v, name) == Arrived(Table(fields, values))
    requires forall i :: 0 <= i < |rows| ==> read(Sent(Row(fields, values[i]))) == rows[i]
    ensures Each(read, GetRows(v, name)) == rows
  {
    hide Get, Row, Table;
    TableArrives(fields, values);
    TableIsThere(fields, values);
  }

  lemma WalletsRead(v: Json, rows: seq<WalletRow>)
    requires Get(v, "wallets") == Arrived(Table(WalletFields(), WalletRows(rows)))
    ensures Each(ReadWallet, GetRows(v, "wallets")) == rows
  {
    hide Get, Row, Table, ReadWallet, WalletValues, WalletFields, Arrived;
    var values := WalletRows(rows);
    forall i | 0 <= i < |rows| ensures ReadWallet(Sent(Row(WalletFields(), values[i]))) == rows[i] {
      WalletReads(rows[i]);
    }
    TableReads(v, "wallets", WalletFields(), values, ReadWallet, rows);
  }

  lemma CategoriesRead(v: Json, rows: seq<CategoryRow>)
    requires Get(v, "categories") == Arrived(Table(CategoryFields(), CategoryRows(rows)))
    ensures Each(ReadCategory, GetRows(v, "categories")) == rows
  {
    hide Get, Row, Table, ReadCategory, CategoryValues, CategoryFields, Arrived;
    var values := CategoryRows(rows);
    forall i | 0 <= i < |rows| ensures ReadCategory(Sent(Row(CategoryFields(), values[i]))) == rows[i] {
      CategoryReads(rows[i]);
    }
    TableReads(v, "categories", CategoryFields(), values, ReadCategory, rows);
  }

  lemma TransactionsRead(v: Json, rows: seq<TransactionRow>)
    requires Get(v, "transactions") == Arrived(Table(TransactionFields(), TransactionRows(rows)))
    ensures Each(ReadTransaction, GetRows(v, "transactions")) == rows
  {
    hide Get, Row, Table, ReadTransaction, TransactionValues, TransactionFields, Arrived;
    var values := TransactionRows(rows);
    forall i | 0 <= i < |rows| ensures ReadTransaction(Sent(Row(TransactionFields(), values[i]))) == rows[i] {
      TransactionReads(rows[i]);
    }
    TableReads(v, "transactions", TransactionFields(), values, ReadTransaction, rows);
  }

  lemma TransfersRead(v: Json, rows: seq<TransferRow>)
    requires Get(v, "transfers") == Arrived(Table(TransferFields(), TransferRows(rows)))
    ensures Each(ReadTransfer, GetRows(v, "transfers")) == rows
  {
    hide Get, Row, Table, ReadTransfer, TransferValues, TransferFields, Arrived;
    var values := TransferRows(rows);
    forall i | 0 <= i < |rows| ensures ReadTransfer(Sent(Row(TransferFields(), values[i]))) == rows[i] {
      TransferReads(rows[i]);
    }
    TableReads(v, "transfers", TransferFields(), values, ReadTransfer, rows);
  }

  lemma BudgetsRead(v: Json, rows: seq<BudgetRow>)
    requires Get(v, "budgets") == Arrived(Table(BudgetFields(), BudgetRows(rows)))
    ensures Each(ReadBudget, GetRows(v, "budgets")) == rows
  {
    hide Get, Row, Table, ReadBudget, BudgetValues, BudgetFields, Arrived;
    var values := BudgetRows(rows);
    forall i | 0 <= i < |rows| ensures ReadBudget(Sent(Row(BudgetFields(), values[i]))) == rows[i] {
      BudgetReads(rows[i]);
    }
    TableReads(v, "budgets", BudgetFields(), values, ReadBudget, rows);
  }

  lemma GoalsRead(v: Json, rows: seq<GoalRow>)
    requires Get(v, "savingGoals") == Arrived(Table(GoalFields(), GoalRows(rows)))
    ensures Each(ReadGoal, GetRows(v, "savingGoals")) == rows
  {
    hide Get, Row, Table, ReadGoal, GoalValues, GoalFields, Arrived;
    var values := GoalRows(rows);
    forall i | 0 <= i < |rows| ensures ReadGoal(Sent(Row(GoalFields(), values[i]))) == rows[i] {
      GoalReads(rows[i]);
    }
    TableReads(v, "savingGoals", GoalFields(), values, ReadGoal, rows);
  }

  lemma PayloadFieldsAre(v: Json, vs: seq<Json>)
    requires |vs| == 6 && Holds(v, PAYLOAD_NAMES, vs)
    ensures Get(v, "wallets") == Arrived(vs[0]) && Get(v, "categories") == Arrived(vs[1])
    ensures Get(v, "transactions") == Arrived(vs[2]) && Get(v, "transfers") == Arrived(vs[3])
    ensures Get(v, "budgets") == Arrived(vs[4]) && Get(v, "savingGoals") == Arrived(vs[5])
  {
    hide Get, Arrived;
    var names := PAYLOAD_NAMES;
    assert forall i :: 0 <= i < 6 ==> Get(v, names[i]) == Arrived(vs[i]);
    assert names[0] == "wallets" && names[1] == "categories" && names[2] == "transactions";
    assert names[3] == "transfers" && names[4] == "budgets" && names[5] == "savingGoals";
  }

  /** The data of a file, read by the names of its fields, are the rows that were exported. */
  lemma PayloadReads(d: UserData)
    ensures ReadData(Sent(Payload(d))) == d
  {
    hide Row, Get, Arrived, Table, Holds, PayloadColumns, WalletFields, CategoryFields, TransactionFields,
      TransferFields, BudgetFields, GoalFields, WalletRows, CategoryRows, TransactionRows, TransferRows, BudgetRows,
      GoalRows;
    PayloadNamesDiffer();
    var vs := PayloadValues(d);
    var v := Sent(Payload(d));
    RowHolds(PAYLOAD_NAMES, PayloadColumns(), vs);
    PayloadFieldsAre(v, vs);
    WalletsRead(v, d.wallets);
    CategoriesRead(v, d.categories);
    TransactionsRead(v, d.transactions);
    TransfersRead(v, d.transfers);
    BudgetsRead(v, d.budgets);
    GoalsRead(v, d.savingGoals);
  }

  /** So are the data that an import accepts. */
  lemma AcceptedReads(rt: Runtime, d: UserData, password: Option<Text>)
    requires CollisionFree(rt) && CipherLaw(rt) && Validates(rt) && ColumnsNotNull(d)
    requires Accept(rt, SentFile(Export(rt, Payload(d), password)), password).Ok?
    ensures ReadData(Accept(rt, SentFile(Export(rt, Payload(d), password)), password).value) == d
  {
    hide Payload, Accept, Export, CollisionFree, CipherLaw, Validates, ReadData, NamesFit, ColumnsNotNull;
    ExportAcceptedIff(rt, d, password);
    PayloadIs(d);
    SentUnchanged(Payload(d));
    PayloadReads(d);
  }
}
