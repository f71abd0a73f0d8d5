/** The payload of an export, made from the rows of the database, and when the schema of the file takes it. */
module BackupPayload {
  import opened Prelude
  import opened FiniteSets
  import opened CanonicalJson
  import opened CanonicalProofs
  import opened BackupFile
  import opened Schemas
  import opened SchemaRows

  // ---------------------------------------------------------------- rows

  type RowId = t: Text | t != [] witness [0x30]

  type Currency = t: Text | 1 <= |t| <= 10 witness [0x30]

  /** An amount that is not negative, as it is printed. */
  type Amount = t: Text | IsAmount(t) witness [0x30]

  type Balance = t: Text | IsBalance(t) witness [0x30]

  type Day = t: Text | IsDay(t) witness [0x30, 0x30, 0x30, 0x30, 0x2D, 0x30, 0x30, 0x2D, 0x30, 0x30]

  datatype EntryKind = INCOME | EXPENSE

  datatype BudgetKind = OVERALL | CATEGORY

  datatype BudgetPeriod = CUSTOM | WEEKLY | MONTHLY | YEARLY

  datatype RolloverMode = RESET | ROLLOVER_SURPLUS | ROLLOVER_DEFICIT | ROLLOVER_NET

  datatype GoalStatus = ACTIVE | PAUSED | COMPLETED

  /** Amounts and dates are texts as they are printed; a column that can be null is an option. */
  datatype WalletRow = WalletRow(
    id: RowId, name: Text, balance: Balance, currency: Currency, icon: Option<Text>, color: Option<Text>,
    description: Option<Text>, isDefault: bool, isArchived: bool)

  datatype CategoryRow = CategoryRow(
    id: RowId, name: Text, kind: EntryKind, icon: Option<Text>, color: Option<Text>, isSystem: bool, isArchived: bool,
    parentId: Option<Text>)

  datatype TransactionRow = TransactionRow(
    id: RowId, walletId: RowId, categoryId: RowId, amount: Amount, kind: EntryKind, description: Option<Text>,
    receiptUrl: Option<Text>, location: Option<Text>, date: Day, createdAt: Text)

  datatype TransferRow = TransferRow(
    id: RowId, sourceWalletId: RowId, destinationWalletId: RowId, amount: Amount, note: Option<Text>,
    transferredAt: Text)

  datatype BudgetRow = BudgetRow(
    id: RowId, categoryId: Option<Text>, name: Text, amount: Amount, currency: Currency, kind: BudgetKind,
    period: BudgetPeriod, startDate: Day, endDate: Day, alertThreshold: Option<Text>, isArchived: bool,
    isRecurring: bool, autoRenew: bool, rolloverMode: RolloverMode, rolloverAmount: Option<Text>,
    autoRenewUntil: Option<Text>)

  datatype ContributionRow = ContributionRow(id: RowId, amount: Amount, contributedAt: Text, note: Option<Text>)

  datatype GoalRow = GoalRow(
    id: RowId, name: Text, targetAmount: Amount, currency: Currency, targetDate: Day, description: Option<Text>,
    icon: Option<Text>, color: Option<Text>, status: GoalStatus, completedAt: Option<Text>, isArchived: bool,
    contributions: seq<ContributionRow>)

  datatype UserData = UserData(
    wallets: seq<WalletRow>, categories: seq<CategoryRow>, transactions: seq<TransactionRow>,
    transfers: seq<TransferRow>, budgets: seq<BudgetRow>, savingGoals: seq<GoalRow>)

  // ---------------------------------------------------------------- the schema of the data

  /** What a schema says of a field besides its name. */
  datatype Column = Column(shape: Shape, absence: Absence)

  function Must(shape: Shape): Column {
    Column(shape, Required)
  }

  function May(shape: Shape): Column {
    Column(shape, Optional)
  }

  function Or(shape: Shape, value: Json): Column {
    Column(shape, Default(value))
  }

  function Rows(fields: seq<Field>): Column {
    Or(ListOf(Record(fields)), Arr([]))
  }

  function Fields(names: seq<Name>, columns: seq<Column>): (fields: seq<Field>)
    requires |names| == |columns|
    ensures |fields| == |columns|
  {
    seq(|names|, i requires 0 <= i < |names| => Field(Units(names[i]), columns[i].shape, columns[i].absence))
  }

  const NOTE := NullOrWord(AnyText)
  const KINDS: seq<Name> := ["INCOME", "EXPENSE"]
  const BUDGET_KINDS: seq<Name> := ["OVERALL", "CATEGORY"]
  const PERIODS: seq<Name> := ["CUSTOM", "WEEKLY", "MONTHLY", "YEARLY"]
  const MODES: seq<Name> := ["RESET", "ROLLOVER_SURPLUS", "ROLLOVER_DEFICIT", "ROLLOVER_NET"]
  const STATUSES: seq<Name> := ["ACTIVE", "PAUSED", "COMPLETED"]

  const WALLET_NAMES: seq<Name> :=
    ["id", "name", "balance", "currency", "icon", "color", "description", "isDefault", "isArchived"]

  function WalletColumns(): seq<Column> {
    [Must(Word(NonEmpty)), Must(Word(NameCheck)), Must(Word(BalanceCheck)), Or(Word(CurrencyCheck), Str(Units("VND"))),
     May(NOTE), May(NOTE), May(NOTE), May(Flag), May(Flag)]
  }

  function WalletFields(): seq<Field> {
    Fields(WALLET_NAMES, WalletColumns())
  }

  const CATEGORY_NAMES: seq<Name> :=
    ["id", "name", "type", "icon", "color", "isSystem", "isArchived", "parentId"]

  function CategoryColumns(): seq<Column> {
    [Must(Word(NonEmpty)), Must(Word(NameCheck)), Must(Word(OneOf(KINDS))), May(NOTE), May(NOTE), May(Flag), May(Flag),
     May(NOTE)]
  }

  function CategoryFields(): seq<Field> {
    Fields(CATEGORY_NAMES, CategoryColumns())
  }

  const TRANSACTION_NAMES: seq<Name> :=
    ["id", "walletId", "categoryId", "amount", "type", "description", "receiptUrl", "location", "date", "createdAt"]

  function TransactionColumns(): seq<Column> {
    [Must(Word(NonEmpty)), Must(Word(NonEmpty)), Must(Word(NonEmpty)), Must(Word(AmountCheck)),
     Must(Word(OneOf(KINDS))), May(NOTE), May(NOTE), May(NOTE), Must(Word(DayCheck)), May(Word(AnyText))]
  }

  function TransactionFields(): seq<Field> {
    Fields(TRANSACTION_NAMES, TransactionColumns())
  }

  const TRANSFER_NAMES: seq<Name> :=
    ["id", "sourceWalletId", "destinationWalletId", "amount", "note", "transferredAt"]

  function TransferColumns(): seq<Column> {
    [Must(Word(NonEmpty)), Must(Word(NonEmpty)), Must(Word(NonEmpty)), Must(Word(AmountCheck)), May(NOTE),
     Must(Word(AnyText))]
  }

  function TransferFields(): seq<Field> {
    Fields(TRANSFER_NAMES, TransferColumns())
  }

  const BUDGET_NAMES: seq<Name> :=
    ["id", "categoryId", "name", "amount", "currency", "type", "period", "startDate", "endDate", "alertThreshold",
     "isArchived", "isRecurring", "autoRenew", "rolloverMode", "rolloverAmount", "autoRenewUntil"]

  function BudgetColumns(): seq<Column> {
    [Must(Word(NonEmpty)), May(NOTE), Must(Word(NameCheck)), Must(Word(AmountCheck)),
     Or(Word(CurrencyCheck), Str(Units("VND"))), Or(Word(OneOf(BUDGET_KINDS)), Str(Units("CATEGORY"))),
     Or(Word(OneOf(PERIODS)), Str(Units("MONTHLY"))), Must(Word(DayCheck)), Must(Word(DayCheck)), May(Word(AnyText)),
     May(Flag), May(Flag), May(Flag), May(Word(OneOf(MODES))), May(Word(AnyText)), May(NOTE)]
  }

  function BudgetFields(): seq<Field> {
    Fields(BUDGET_NAMES, BudgetColumns())
  }

  const CONTRIBUTION_NAMES: seq<Name> :=
    ["id", "amount", "contributedAt", "note"]

  function ContributionColumns(): seq<Column> {
    [Must(Word(NonEmpty)), Must(Word(AmountCheck)), Must(Word(AnyText)), May(NOTE)]
  }

  function ContributionFields(): seq<Field> {
    Fields(CONTRIBUTION_NAMES, ContributionColumns())
  }

  const GOAL_NAMES: seq<Name> :=
    ["id", "name", "targetAmount", "currency", "targetDate", "description", "icon", "color", "status",
     "completedAt", "isArchived", "contributions"]

  function GoalColumns(): seq<Column> {
    [Must(Word(NonEmpty)), Must(Word(NameCheck)), Must(Word(AmountCheck)), Or(Word(CurrencyCheck), Str(Units("VND"))),
     Must(Word(DayCheck)), May(NOTE), May(NOTE), May(NOTE), Or(Word(OneOf(STATUSES)), Str(Units("ACTIVE"))), May(NOTE),
     May(Flag), May(ListOf(Record(ContributionFields())))]
  }

  function GoalFields(): seq<Field> {
    Fields(GOAL_NAMES, GoalColumns())
  }

  const PAYLOAD_NAMES: seq<Name> :=
    ["wallets", "categories", "transactions", "transfers", "budgets", "savingGoals"]

  function PayloadColumns(): seq<Column> {
    [Rows(WalletFields()), Rows(CategoryFields()), Rows(TransactionFields()), Rows(TransferFields()),
     Rows(BudgetFields()), Rows(GoalFields())]
  }

  function PayloadFields(): seq<Field> {
    Fields(PAYLOAD_NAMES, PayloadColumns())
  }

  /** The schema of the data of a file. */
  function DataSchema(): Shape {
    Record(PayloadFields())
  }

  // ---------------------------------------------------------------- its names are distinct

  lemma UnitsInjective(a: Name, b: Name)
    requires Units(a) == Units(b)
    ensures a == b
  {
    assert |a| == |Units(a)| == |b|;
    forall i | 0 <= i < |a| ensures a[i] == b[i] {
      assert Units(a)[i] == Units(b)[i];
    }
  }

  /** Different names are different texts. */
  lemma FieldsDiffer(names: seq<Name>, columns: seq<Column>)
    requires |names| == |columns| && NoRepeats(names)
    ensures NoRepeats(Names(Fields(names, columns)))
  {
    var texts := Names(Fields(names, columns));
    forall i, j | 0 <= i < j < |names| ensures texts[i] != texts[j] {
      if Units(names[i]) == Units(names[j]) {
        UnitsInjective(names[i], names[j]);
      }
    }
  }

  lemma WalletNamesDiffer()
    ensures NoRepeats(WALLET_NAMES)
  {
  }

  lemma CategoryNamesDiffer()
    ensures NoRepeats(CATEGORY_NAMES)
  {
  }

  lemma TransactionNamesDiffer()
    ensures NoRepeats(TRANSACTION_NAMES)
  {
  }

  lemma TransferNamesDiffer()
    ensures NoRepeats(TRANSFER_NAMES)
  {
  }

  lemma BudgetNamesDiffer()
    ensures NoRepeats(BUDGET_NAMES)
  {
  }

  lemma ContributionNamesDiffer()
    ensures NoRepeats(CONTRIBUTION_NAMES)
  {
  }

  lemma GoalNamesDiffer()
    ensures NoRepeats(GOAL_NAMES)
  {
  }

  lemma PayloadNamesDiffer()
    ensures NoRepeats(PAYLOAD_NAMES)
  {
  }

  // ---------------------------------------------------------------- the payload

  function Nullable(v: Option<Text>): Json {
    if v.Some? then Str(v.value) else Null
  }

  /** The two fields of a budget that are undefined rather than null. */
  function Missing(v: Option<Text>): Json {
    if v.Some? then Str(v.value) else Undefined
  }

  function KindText(k: EntryKind): Text {
    match k
    case INCOME => Units("INCOME")
    case EXPENSE => Units("EXPENSE")
  }

  function BudgetKindText(k: BudgetKind): Text {
    match k
    case OVERALL => Units("OVERALL")
    case CATEGORY => Units("CATEGORY")
  }

  function PeriodText(p: BudgetPeriod): Text {
    match p
    case CUSTOM => Units("CUSTOM")
    case WEEKLY => Units("WEEKLY")
    case MONTHLY => Units("MONTHLY")
    case YEARLY => Units("YEARLY")
  }

  function ModeText(m: RolloverMode): Text {
    match m
    case RESET => Units("RESET")
    case ROLLOVER_SURPLUS => Units("ROLLOVER_SURPLUS")
    case ROLLOVER_DEFICIT => Units("ROLLOVER_DEFICIT")
    case ROLLOVER_NET => Units("ROLLOVER_NET")
  }

  function StatusText(s: GoalStatus): Text {
    match s
    case ACTIVE => Units("ACTIVE")
    case PAUSED => Units("PAUSED")
    case COMPLETED => Units("COMPLETED")
  }

  function WalletValues(w: WalletRow): (vs: seq<Json>)
    ensures |vs| == |WalletFields()|
  {
    [Str(w.id), Str(w.name), Str(w.balance), Str(w.currency), Nullable(w.icon), Nullable(w.color),
     Nullable(w.description), Bool(w.isDefault), Bool(w.isArchived)]
  }

  function CategoryValues(c: CategoryRow): (vs: seq<Json>)
    ensures |vs| == |CategoryFields()|
  {
    [Str(c.id), Str(c.name), Str(KindText(c.kind)), Nullable(c.icon), Nullable(c.color), Bool(c.isSystem),
     Bool(c.isArchived), Nullable(c.parentId)]
  }

  function TransactionValues(t: TransactionRow): (vs: seq<Json>)
    ensures |vs| == |TransactionFields()|
  {
    [Str(t.id), Str(t.walletId), Str(t.categoryId), Str(t.amount), Str(KindText(t.kind)), Nullable(t.description),
     Nullable(t.receiptUrl), Nullable(t.location), Str(t.date), Str(t.createdAt)]
  }

  function TransferValues(t: TransferRow): (vs: seq<Json>)
    ensures |vs| == |TransferFields()|
  {
    [Str(t.id), Str(t.sourceWalletId), Str(t.destinationWalletId), Str(t.amount), Nullable(t.note),
     Str(t.transferredAt)]
  }

  function BudgetValues(b: BudgetRow): (vs: seq<Json>)
    ensures |vs| == |BudgetFields()|
  {
    [Str(b.id), Nullable(b.categoryId), Str(b.name), Str(b.amount), Str(b.currency), Str(BudgetKindText(b.kind)),
     Str(PeriodText(b.period)), Str(b.startDate), Str(b.endDate), Missing(b.alertThreshold), Bool(b.isArchived),
     Bool(b.isRecurring), Bool(b.autoRenew), Str(ModeText(b.rolloverMode)), Missing(b.rolloverAmount),
     Nullable(b.autoRenewUntil)]
  }

  function ContributionValues(c: ContributionRow): (vs: seq<Json>)
    ensures |vs| == |ContributionFields()|
  {
    [Str(c.id), Str(c.amount), Str(c.contributedAt), Nullable(c.note)]
  }

  function ContributionRows(cs: seq<ContributionRow>): (rows: seq<seq<Json>>)
    ensures |rows| == |cs| && forall i :: 0 <= i < |rows| ==> rows[i] == ContributionValues(cs[i])
  {
    seq(|cs|, i requires 0 <= i < |cs| => ContributionValues(cs[i]))
  }

  function GoalValues(g: GoalRow): (vs: seq<Json>)
    ensures |vs| == |GoalFields()|
  {
    [Str(g.id), Str(g.name), Str(g.targetAmount), Str(g.currency), Str(g.targetDate), Nullable(g.description),
     Nullable(g.icon), Nullable(g.color), Str(StatusText(g.status)), Nullable(g.completedAt), Bool(g.isArchived),
     Table(ContributionFields(), ContributionRows(g.contributions))]
  }

  // ---------------------------------------------------------------- what the schema takes of a row

  predicate NameFits(name: Text) {
    1 <= |name| <= NAME_LIMIT
  }

  lemma OptionIs(names: seq<Name>, i: nat)
    requires i < |names|
    ensures Passes(OneOf(names), Units(names[i]))
  {
  }

  lemma KindsPass(k: EntryKind)
    ensures Passes(OneOf(KINDS), KindText(k))
  {
    OptionIs(KINDS, if k == INCOME then 0 else 1);
  }

  lemma BudgetKindsPass(k: BudgetKind)
    ensures Passes(OneOf(BUDGET_KINDS), BudgetKindText(k))
  {
    OptionIs(BUDGET_KINDS, if k == OVERALL then 0 else 1);
  }

  lemma PeriodsPass(p: BudgetPeriod)
    ensures Passes(OneOf(PERIODS), PeriodText(p))
  {
    hide Units;
    OptionIs(PERIODS, match p case CUSTOM => 0 case WEEKLY => 1 case MONTHLY => 2 case YEARLY => 3);
  }

  lemma ModesPass(m: RolloverMode)
    ensures Passes(OneOf(MODES), ModeText(m))
  {
    hide Units;
    OptionIs(MODES,
             match m case RESET => 0 case ROLLOVER_SURPLUS => 1 case ROLLOVER_DEFICIT => 2 case ROLLOVER_NET => 3);
  }

  lemma StatusesPass(s: GoalStatus)
    ensures Passes(OneOf(STATUSES), StatusText(s))
  {
    hide Units;
    OptionIs(STATUSES, match s case ACTIVE => 0 case PAUSED => 1 case COMPLETED => 2);
  }

  lemma WordsPass(id: RowId, amount: Amount, currency: Currency, day: Day)
    ensures Passes(NonEmpty, id) && Passes(AmountCheck, amount) && Passes(CurrencyCheck, currency)
    ensures Passes(DayCheck, day) && forall t :: Passes(AnyText, t)
  {
  }

  /** A value without parts that a column takes. */
  predicate Suits(c: Column, v: Json) {
    if v == Undefined then c.absence.Optional?
    else
      match c.shape
      case Word(check) => v.Str? && Passes(check, v.s)
      case NullOrWord(check) => v.Null? || (v.Str? && Passes(check, v.s))
      case Flag => v.Bool?
      case _ => false
  }

  lemma SuitedIsGood(f: Field, v: Json)
    requires Suits(Column(f.shape, f.absence), v)
    ensures Decided(f, v) && Good(f, v)
  {
  }

  lemma NameIs(f: Field, name: Text)
    requires f.shape == Word(NameCheck)
    ensures Decided(f, Str(name)) && (Good(f, Str(name)) <==> NameFits(name))
  {
  }

  lemma PlainRow(names: seq<Name>, columns: seq<Column>, vs: seq<Json>)
    requires |names| == |columns| == |vs| && forall i :: 0 <= i < |vs| ==> Suits(columns[i], vs[i])
    ensures RowDecided(Fields(names, columns), vs) && RowGood(Fields(names, columns), vs)
  {
    hide Suits, Good, Decided;
    var fs := Fields(names, columns);
    forall i | 0 <= i < |vs| ensures Decided(fs[i], vs[i]) && Good(fs[i], vs[i]) {
      assert Column(fs[i].shape, fs[i].absence) == columns[i];
      SuitedIsGood(fs[i], vs[i]);
    }
  }

  /** A row is taken exactly when its name is, if all its other values are. */
  lemma NamedRow(names: seq<Name>, columns: seq<Column>, vs: seq<Json>, k: nat, name: Text, known: set<int>)
    requires |names| == |columns| == |vs|
    requires forall i :: 0 <= i < |vs| && i != k && i !in known ==> Suits(columns[i], vs[i])
    requires forall i :: 0 <= i < |vs| && i != k && i in known ==>
      Decided(Fields(names, columns)[i], vs[i]) && Good(Fields(names, columns)[i], vs[i])
    requires k < |vs| && columns[k].shape == Word(NameCheck) && vs[k] == Str(name)
    ensures RowDecided(Fields(names, columns), vs) && (RowGood(Fields(names, columns), vs) <==> NameFits(name))
  {
    hide Suits, Good, Decided;
    var fs := Fields(names, columns);
    NameIs(fs[k], name);
    forall i | 0 <= i < |vs| && i != k ensures Decided(fs[i], vs[i]) && Good(fs[i], vs[i]) {
      if i !in known {
        assert Column(fs[i].shape, fs[i].absence) == columns[i];
        SuitedIsGood(fs[i], vs[i]);
      }
    }
  }

  lemma WalletDecided(w: WalletRow)
    ensures RowDecided(WalletFields(), WalletValues(w))
    ensures RowGood(WalletFields(), WalletValues(w)) <==> NameFits(w.name)
  {
    hide IsBalance, Units, RowDecided, RowGood;
    NamedRow(WALLET_NAMES, WalletColumns(), WalletValues(w), 1, w.name, {});
  }

  lemma CategoryDecided(c: CategoryRow)
    ensures RowDecided(CategoryFields(), CategoryValues(c))
    ensures RowGood(CategoryFields(), CategoryValues(c)) <==> NameFits(c.name)
  {
    KindsPass(c.kind);
    hide KindText, Units, RowDecided, RowGood;
    NamedRow(CATEGORY_NAMES, CategoryColumns(), CategoryValues(c), 1, c.name, {});
  }

  lemma TransactionDecided(t: TransactionRow)
    ensures RowDecided(TransactionFields(), TransactionValues(t)) && RowGood(TransactionFields(), TransactionValues(t))
  {
    KindsPass(t.kind);
    hide KindText, Units, RowDecided, RowGood, IsAmount, IsDay;
    PlainRow(TRANSACTION_NAMES, TransactionColumns(), TransactionValues(t));
  }

  lemma TransferDecided(t: TransferRow)
    ensures RowDecided(TransferFields(), TransferValues(t)) && RowGood(TransferFields(), TransferValues(t))
  {
    hide RowDecided, RowGood, IsAmount;
    PlainRow(TRANSFER_NAMES, TransferColumns(), TransferValues(t));
  }

  lemma BudgetSuits(b: BudgetRow)
    ensures forall i :: 0 <= i < 8 && i != 2 ==> Suits(BudgetColumns()[i], BudgetValues(b)[i])
  {
    BudgetKindsPass(b.kind);
    PeriodsPass(b.period);
    WordsPass(b.id, b.amount, b.currency, b.startDate);
    hide BudgetKindText, PeriodText, ModeText, Units, Passes;
  }

  lemma BudgetSuitsToo(b: BudgetRow)
    ensures forall i :: 8 <= i < 16 ==> Suits(BudgetColumns()[i], BudgetValues(b)[i])
  {
    ModesPass(b.rolloverMode);
    WordsPass(b.id, b.amount, b.currency, b.endDate);
    hide BudgetKindText, PeriodText, ModeText, Units, Passes;
  }

  lemma BudgetDecided(b: BudgetRow)
    ensures RowDecided(BudgetFields(), BudgetValues(b))
    ensures RowGood(BudgetFields(), BudgetValues(b)) <==> NameFits(b.name)
  {
    BudgetSuits(b);
    BudgetSuitsToo(b);
    assert BudgetColumns()[2].shape == Word(NameCheck) && BudgetValues(b)[2] == Str(b.name);
    hide RowDecided, RowGood, Suits, BudgetColumns, BudgetValues;
    BudgetLength(b);
    NamedRow(BUDGET_NAMES, BudgetColumns(), BudgetValues(b), 2, b.name, {});
  }

  lemma BudgetLength(b: BudgetRow)
    ensures |BUDGET_NAMES| == |BudgetColumns()| == |BudgetValues(b)| == 16
  {
  }

  lemma ContributionDecided(c: ContributionRow)
    ensures RowDecided(ContributionFields(), ContributionValues(c))
    ensures RowGood(ContributionFields(), ContributionValues(c))
  {
    hide RowDecided, RowGood, IsAmount;
    PlainRow(CONTRIBUTION_NAMES, ContributionColumns(), ContributionValues(c));
  }

  lemma ContributionsDecided(cs: seq<ContributionRow>)
    ensures var (fields, rows) := (ContributionFields(), ContributionRows(cs));
      && AllDecided(fields, rows) && AllGood(fields, rows) && NoRepeats(Names(fields))
      && Decided(Field([], ListOf(Record(fields)), Optional), Table(fields, rows))
      && Parse(ListOf(Record(fields)), Sent(Table(fields, rows))) == Some(Sent(Table(fields, rows)))
      && Defined(Table(fields, rows))
  {
    var fields, rows := ContributionFields(), ContributionRows(cs);
    ContributionNamesDiffer();
    FieldsDiffer(CONTRIBUTION_NAMES, ContributionColumns());
    forall i | 0 <= i < |rows| ensures RowDecided(fields, rows[i]) && RowGood(fields, rows[i]) {
      ContributionDecided(cs[i]);
    }
    forall i, j | 0 <= i < |rows| && 0 <= j < |fields| ensures Defined(rows[i][j]) {
    }
    hide RowDecided, RowGood, Parse, ContributionFields, ContributionValues;
    ParseTable(fields, rows);
    TableIsValid(fields, rows);
  }

  lemma GoalSuits(g: GoalRow)
    ensures |GOAL_NAMES| == |GoalColumns()| == |GoalValues(g)| == 12
    ensures forall i :: 0 <= i < 11 && i != 1 ==> Suits(GoalColumns()[i], GoalValues(g)[i])
    ensures GoalColumns()[1].shape == Word(NameCheck) && GoalValues(g)[1] == Str(g.name)
    ensures GoalColumns()[11] == May(ListOf(Record(ContributionFields())))
    ensures GoalValues(g)[11] == Table(ContributionFields(), ContributionRows(g.contributions))
  {
    StatusesPass(g.status);
    WordsPass(g.id, g.targetAmount, g.currency, g.targetDate);
    hide StatusText, Units, Passes, ContributionFields, Table;
  }

  lemma GoalDecided(g: GoalRow)
    ensures RowDecided(GoalFields(), GoalValues(g))
    ensures RowGood(GoalFields(), GoalValues(g)) <==> NameFits(g.name)
  {
    GoalSuits(g);
    ContributionsDecided(g.contributions);
    TableIsThere(ContributionFields(), ContributionRows(g.contributions));
    var fs, vs := GoalFields(), GoalValues(g);
    assert fs[11].shape == ListOf(Record(ContributionFields()));
    hide RowDecided, RowGood, Suits, GoalColumns, GoalValues, Parse, ContributionFields, Table, Sent;
    NamedRow(GOAL_NAMES, GoalColumns(), vs, 1, g.name, {11});
  }

  lemma TableIsThere(fields: seq<Field>, rows: seq<seq<Json>>)
    requires forall i :: 0 <= i < |rows| ==> |rows[i]| == |fields|
    ensures Table(fields, rows) != Undefined
  {
  }

  // ---------------------------------------------------------------- the tables and the payload

  function WalletRows(ws: seq<WalletRow>): (rows: seq<seq<Json>>)
    ensures |rows| == |ws| && forall i :: 0 <= i < |rows| ==> rows[i] == WalletValues(ws[i])
  {
    seq(|ws|, i requires 0 <= i < |ws| => WalletValues(ws[i]))
  }

  function CategoryRows(cs: seq<CategoryRow>): (rows: seq<seq<Json>>)
    ensures |rows| == |cs| && forall i :: 0 <= i < |rows| ==> rows[i] == CategoryValues(cs[i])
  {
    seq(|cs|, i requires 0 <= i < |cs| => CategoryValues(cs[i]))
  }

  function TransactionRows(ts: seq<TransactionRow>): (rows: seq<seq<Json>>)
    ensures |rows| == |ts| && forall i :: 0 <= i < |rows| ==> rows[i] == TransactionValues(ts[i])
  {
    seq(|ts|, i requires 0 <= i < |ts| => TransactionValues(ts[i]))
  }

  function TransferRows(ts: seq<TransferRow>): (rows: seq<seq<Json>>)
    ensures |rows| == |ts| && forall i :: 0 <= i < |rows| ==> rows[i] == TransferValues(ts[i])
  {
    seq(|ts|, i requires 0 <= i < |ts| => TransferValues(ts[i]))
  }

  function BudgetRows(bs: seq<BudgetRow>): (rows: seq<seq<Json>>)
    ensures |rows| == |bs| && forall i :: 0 <= i < |rows| ==> rows[i] == BudgetValues(bs[i])
  {
    seq(|bs|, i requires 0 <= i < |bs| => BudgetValues(bs[i]))
  }

  function GoalRows(gs: seq<GoalRow>): (rows: seq<seq<Json>>)
    ensures |rows| == |gs| && forall i :: 0 <= i < |rows| ==> rows[i] == GoalValues(gs[i])
  {
    seq(|gs|, i requires 0 <= i < |gs| => GoalValues(gs[i]))
  }

  function PayloadValues(d: UserData): (vs: seq<Json>)
    ensures |vs| == |PayloadFields()|
  {
    [Table(WalletFields(), WalletRows(d.wallets)), Table(CategoryFields(), CategoryRows(d.categories)),
     Table(TransactionFields(), TransactionRows(d.transactions)), Table(TransferFields(), TransferRows(d.transfers)),
     Table(BudgetFields(), BudgetRows(d.budgets)), Table(GoalFields(), GoalRows(d.savingGoals))]
  }

  /** The payload of exportBackup. */
  function Payload(d: UserData): Json {
    Row(PayloadFields(), PayloadValues(d))
  }

  predicate WalletNamesFit(d: UserData) {
    forall i :: 0 <= i < |d.wallets| ==> NameFits(d.wallets[i].name)
  }

  predicate CategoryNamesFit(d: UserData) {
    forall i :: 0 <= i < |d.categories| ==> NameFits(d.categories[i].name)
  }

  predicate BudgetNamesFit(d: UserData) {
    forall i :: 0 <= i < |d.budgets| ==> NameFits(d.budgets[i].name)
  }

  predicate GoalNamesFit(d: UserData) {
    forall i :: 0 <= i < |d.savingGoals| ==> NameFits(d.savingGoals[i].name)
  }

  /** Every name has 1 to 100 code units. */
  predicate NamesFit(d: UserData) {
    WalletNamesFit(d) && CategoryNamesFit(d) && BudgetNamesFit(d) && GoalNamesFit(d)
  }

  /** What the table promises of the columns that the export turns into undefined when they are null. */
  predicate HasBoth(b: BudgetRow) {
    b.alertThreshold.Some? && b.rolloverAmount.Some?
  }

  predicate ColumnsNotNull(d: UserData) {
    forall i :: 0 <= i < |d.budgets| ==> HasBoth(d.budgets[i])
  }

  /** A table is a value; it is taken as it was sent exactly when ok holds, and defined exactly when full does. */
  ghost predicate TableIs(fields: seq<Field>, rows: seq<seq<Json>>, ok: bool, full: bool) {
    && (forall i :: 0 <= i < |rows| ==> |rows[i]| == |fields|)
    && Valid(Table(fields, rows)) && (Defined(Table(fields, rows)) <==> full)
    && Parse(ListOf(Record(fields)), Sent(Table(fields, rows))) ==
       if ok then Some(Sent(Table(fields, rows))) else None
  }

  lemma TableFacts(names: seq<Name>, columns: seq<Column>, rows: seq<seq<Json>>, ok: bool, full: bool)
    requires |names| == |columns| && NoRepeats(names) && AllDecided(Fields(names, columns), rows)
    requires ok <==> AllGood(Fields(names, columns), rows)
    requires full <==> forall i, j :: 0 <= i < |rows| && 0 <= j < |names| ==> Defined(rows[i][j])
    ensures TableIs(Fields(names, columns), rows, ok, full)
  {
    hide RowDecided, RowGood, Parse, Table;
    FieldsDiffer(names, columns);
    ParseTable(Fields(names, columns), rows);
    TableIsValid(Fields(names, columns), rows);
  }

  lemma WalletDefined(w: WalletRow)
    ensures forall j :: 0 <= j < 9 ==> Defined(WalletValues(w)[j])
  {
  }

  lemma WalletTable(ws: seq<WalletRow>)
    ensures TableIs(WalletFields(), WalletRows(ws), forall i :: 0 <= i < |ws| ==> NameFits(ws[i].name), true)
  {
    hide RowDecided, RowGood, TableIs, WalletValues;
    WalletNamesDiffer();
    var rows := WalletRows(ws);
    forall i | 0 <= i < |ws|
      ensures RowDecided(WalletFields(), rows[i]) && (RowGood(WalletFields(), rows[i]) <==> NameFits(ws[i].name))
      ensures forall j :: 0 <= j < 9 ==> Defined(rows[i][j])
    {
      WalletDecided(ws[i]);
      WalletDefined(ws[i]);
    }
    TableFacts(WALLET_NAMES, WalletColumns(), rows, forall i :: 0 <= i < |ws| ==> NameFits(ws[i].name), true);
  }

  lemma CategoryDefined(c: CategoryRow)
    ensures forall j :: 0 <= j < 8 ==> Defined(CategoryValues(c)[j])
  {
  }

  lemma CategoryTable(cs: seq<CategoryRow>)
    ensures TableIs(CategoryFields(), CategoryRows(cs), forall i :: 0 <= i < |cs| ==> NameFits(cs[i].name), true)
  {
    hide RowDecided, RowGood, TableIs, CategoryValues;
    CategoryNamesDiffer();
    var rows := CategoryRows(cs);
    forall i | 0 <= i < |cs|
      ensures RowDecided(CategoryFields(), rows[i]) && (RowGood(CategoryFields(), rows[i]) <==> NameFits(cs[i].name))
      ensures forall j :: 0 <= j < 8 ==> Defined(rows[i][j])
    {
      CategoryDecided(cs[i]);
      CategoryDefined(cs[i]);
    }
    TableFacts(CATEGORY_NAMES, CategoryColumns(), rows, forall i :: 0 <= i < |cs| ==> NameFits(cs[i].name), true);
  }

  lemma TransactionTable(ts: seq<TransactionRow>)
    ensures TableIs(TransactionFields(), TransactionRows(ts), true, true)
  {
    TransactionNamesDiffer();
    var rows := TransactionRows(ts);
    forall i | 0 <= i < |ts|
      ensures RowDecided(TransactionFields(), rows[i]) && RowGood(TransactionFields(), rows[i])
      ensures forall j :: 0 <= j < 10 ==> Defined(rows[i][j])
    {
      TransactionDecided(ts[i]);
    }
    hide RowDecided, RowGood, TableIs, TransactionValues;
    TableFacts(TRANSACTION_NAMES, TransactionColumns(), rows, true, true);
  }

  lemma TransferTable(ts: seq<TransferRow>)
    ensures TableIs(TransferFields(), TransferRows(ts), true, true)
  {
    TransferNamesDiffer();
    var rows := TransferRows(ts);
    forall i | 0 <= i < |ts|
      ensures RowDecided(TransferFields(), rows[i]) && RowGood(TransferFields(), rows[i])
      ensures forall j :: 0 <= j < 6 ==> Defined(rows[i][j])
    {
      TransferDecided(ts[i]);
    }
    hide RowDecided, RowGood, TableIs, TransferValues;
    TableFacts(TRANSFER_NAMES, TransferColumns(), rows, true, true);
  }

  lemma BudgetDefined(b: BudgetRow)
    ensures HasBoth(b) <==> forall j :: 0 <= j < 16 ==> Defined(BudgetValues(b)[j])
  {
    var vs := BudgetValues(b);
    assert forall j :: 0 <= j < 16 && j != 9 && j != 14 ==> Defined(vs[j]);
    assert vs[9] == Missing(b.alertThreshold) && vs[14] == Missing(b.rolloverAmount);
    hide BudgetValues;
  }

  lemma BudgetTable(bs: seq<BudgetRow>)
    ensures TableIs(BudgetFields(), BudgetRows(bs), forall i :: 0 <= i < |bs| ==> NameFits(bs[i].name),
                    forall i :: 0 <= i < |bs| ==> HasBoth(bs[i]))
  {
    hide RowDecided, RowGood, TableIs, BudgetValues, HasBoth;
    BudgetNamesDiffer();
    var rows := BudgetRows(bs);
    forall i | 0 <= i < |bs|
      ensures RowDecided(BudgetFields(), rows[i]) && (RowGood(BudgetFields(), rows[i]) <==> NameFits(bs[i].name))
      ensures HasBoth(bs[i]) <==> forall j :: 0 <= j < 16 ==> Defined(rows[i][j])
    {
      BudgetDecided(bs[i]);
      BudgetDefined(bs[i]);
    }
    TableFacts(BUDGET_NAMES, BudgetColumns(), rows, forall i :: 0 <= i < |bs| ==> NameFits(bs[i].name),
               forall i :: 0 <= i < |bs| ==> HasBoth(bs[i]));
  }

  lemma GoalDefined(g: GoalRow)
    ensures forall j :: 0 <= j < 12 ==> Defined(GoalValues(g)[j])
  {
    ContributionsDecided(g.contributions);
    GoalSuits(g);
    hide Table, Suits, ContributionFields, ContributionValues;
    assert forall j :: 0 <= j < 11 ==> Defined(GoalValues(g)[j]);
  }

  lemma GoalTable(gs: seq<GoalRow>)
    ensures TableIs(GoalFields(), GoalRows(gs), forall i :: 0 <= i < |gs| ==> NameFits(gs[i].name), true)
  {
    hide RowDecided, RowGood, TableIs, GoalValues;
    GoalNamesDiffer();
    var rows := GoalRows(gs);
    forall i | 0 <= i < |gs|
      ensures RowDecided(GoalFields(), rows[i]) && (RowGood(GoalFields(), rows[i]) <==> NameFits(gs[i].name))
      ensures forall j :: 0 <= j < 12 ==> Defined(rows[i][j])
    {
      GoalDecided(gs[i]);
      GoalDefined(gs[i]);
    }
    TableFacts(GOAL_NAMES, GoalColumns(), rows, forall i :: 0 <= i < |gs| ==> NameFits(gs[i].name), true);
  }

  lemma TableDecided(f: Field, fields: seq<Field>, rows: seq<seq<Json>>, ok: bool, full: bool)
    requires TableIs(fields, rows, ok, full) && f.shape == ListOf(Record(fields))
    ensures var v := Table(fields, rows); Decided(f, v) && (Good(f, v) <==> ok) && (Defined(v) <==> full)
  {
    TableIsThere(fields, rows);
    hide Parse, Sent, Table;
  }

  /** The six tables of the payload, each under its field. */
  lemma PayloadTables(d: UserData)
    ensures var fs, vs := PayloadFields(), PayloadValues(d);
      && |fs| == |vs| == 6
      && fs[0].shape == ListOf(Record(WalletFields())) && vs[0] == Table(WalletFields(), WalletRows(d.wallets))
      && fs[1].shape == ListOf(Record(CategoryFields()))
      && vs[1] == Table(CategoryFields(), CategoryRows(d.categories))
      && fs[2].shape == ListOf(Record(TransactionFields()))
      && vs[2] == Table(TransactionFields(), TransactionRows(d.transactions))
      && fs[3].shape == ListOf(Record(TransferFields())) && vs[3] == Table(TransferFields(), TransferRows(d.transfers))
      && fs[4].shape == ListOf(Record(BudgetFields())) && vs[4] == Table(BudgetFields(), BudgetRows(d.budgets))
      && fs[5].shape == ListOf(Record(GoalFields())) && vs[5] == Table(GoalFields(), GoalRows(d.savingGoals))
  {
    hide Table, WalletFields, CategoryFields, TransactionFields, TransferFields, BudgetFields, GoalFields;
  }

  /** Whether table i of the payload is taken. */
  predicate TableFits(d: UserData, i: nat) {
    if i == 0 then WalletNamesFit(d)
    else if i == 1 then CategoryNamesFit(d)
    else if i == 4 then BudgetNamesFit(d)
    else if i == 5 then GoalNamesFit(d)
    else true
  }

  ghost predicate TableFact(d: UserData, i: nat)
    requires i < |PayloadFields()|
  {
    var f, v := PayloadFields()[i], PayloadValues(d)[i];
    Decided(f, v) && (Good(f, v) <==> TableFits(d, i)) && (Defined(v) <==> (i == 4 ==> ColumnsNotNull(d)))
  }

  lemma FirstTables(d: UserData)
    ensures |PayloadFields()| == 6 && TableFact(d, 0) && TableFact(d, 1) && TableFact(d, 2)
  {
    hide Table, WalletFields, CategoryFields, TransactionFields, TransferFields, BudgetFields, GoalFields, NameFits,
      WalletRows, CategoryRows, TransactionRows, TransferRows, BudgetRows, GoalRows, TableIs, Good, Decided,
      PayloadFields, PayloadValues, ColumnsNotNull;
    var fs, vs := PayloadFields(), PayloadValues(d);
    PayloadTables(d);
    WalletTable(d.wallets);
    TableDecided(fs[0], WalletFields(), WalletRows(d.wallets), WalletNamesFit(d), true);
    CategoryTable(d.categories);
    TableDecided(fs[1], CategoryFields(), CategoryRows(d.categories), CategoryNamesFit(d), true);
    TransactionTable(d.transactions);
    TableDecided(fs[2], TransactionFields(), TransactionRows(d.transactions), true, true);
  }

  lemma LastTables(d: UserData)
    ensures |PayloadFields()| == 6 && TableFact(d, 3) && TableFact(d, 4) && TableFact(d, 5)
  {
    hide Table, WalletFields, CategoryFields, TransactionFields, TransferFields, BudgetFields, GoalFields, NameFits,
      WalletRows, CategoryRows, TransactionRows, TransferRows, BudgetRows, GoalRows, TableIs, Good, Decided,
      PayloadFields, PayloadValues, HasBoth;
    var fs, vs := PayloadFields(), PayloadValues(d);
    PayloadTables(d);
    TransferTable(d.transfers);
    TableDecided(fs[3], TransferFields(), TransferRows(d.transfers), true, true);
    BudgetTable(d.budgets);
    TableDecided(fs[4], BudgetFields(), BudgetRows(d.budgets), BudgetNamesFit(d), ColumnsNotNull(d));
    GoalTable(d.savingGoals);
    TableDecided(fs[5], GoalFields(), GoalRows(d.savingGoals), GoalNamesFit(d), true);
  }

  lemma PayloadFacts(d: UserData)
    ensures RowDecided(PayloadFields(), PayloadValues(d)) && NoRepeats(Names(PayloadFields()))
    ensures RowGood(PayloadFields(), PayloadValues(d)) <==> NamesFit(d)
    ensures ColumnsNotNull(d) <==> forall j :: 0 <= j < |PayloadValues(d)| ==> Defined(PayloadValues(d)[j])
  {
    PayloadNamesDiffer();
    FieldsDiffer(PAYLOAD_NAMES, PayloadColumns());
    FirstTables(d);
    LastTables(d);
    hide NameFits, Good, Decided, Names, PayloadFields, PayloadValues, NoRepeats, ColumnsNotNull, TableFact,
      WalletNamesFit, CategoryNamesFit, BudgetNamesFit, GoalNamesFit;
    var fs, vs := PayloadFields(), PayloadValues(d);
    forall i: nat | i < 6
      ensures Decided(fs[i], vs[i]) && (Good(fs[i], vs[i]) <==> TableFits(d, i))
      ensures Defined(vs[i]) <==> (i == 4 ==> ColumnsNotNull(d))
    {
      FactIs(d, i);
    }
    assert NamesFit(d) <==> forall i: nat :: i < 6 ==> TableFits(d, i) by {
      FitsAre(d);
    }
    assert Defined(vs[4]) <==> ColumnsNotNull(d);
  }

  lemma FactIs(d: UserData, i: nat)
    requires |PayloadFields()| == 6 && i < 6
    requires TableFact(d, 0) && TableFact(d, 1) && TableFact(d, 2)
    requires TableFact(d, 3) && TableFact(d, 4) && TableFact(d, 5)
    ensures var f, v := PayloadFields()[i], PayloadValues(d)[i];
      Decided(f, v) && (Good(f, v) <==> TableFits(d, i)) && (Defined(v) <==> (i == 4 ==> ColumnsNotNull(d)))
  {
    hide Decided, Good, TableFits, ColumnsNotNull, PayloadFields, PayloadValues;
    assert i == 0 || i == 1 || i == 2 || i == 3 || i == 4 || i == 5;
  }

  lemma FitsAre(d: UserData)
    ensures NamesFit(d) <==> forall i: nat :: i < 6 ==> TableFits(d, i)
  {
    if forall i: nat :: i < 6 ==> TableFits(d, i) {
      assert TableFits(d, 0) && TableFits(d, 1) && TableFits(d, 4) && TableFits(d, 5);
    }
  }

  /**
   The payload of any rows is a value; the schema takes it, when sent, as it is, or refuses it when some
   name is too short or too long; and no part of it is undefined exactly when no column is null.
   */
  lemma PayloadIs(d: UserData)
    ensures Valid(Payload(d)) && Payload(d) != Undefined
    ensures Parse(DataSchema(), Sent(Payload(d))) == if NamesFit(d) then Some(Sent(Payload(d))) else None
    ensures Defined(Payload(d)) <==> ColumnsNotNull(d)
  {
    hide RowDecided, RowGood, Parse, PayloadFields, PayloadValues, NamesFit, ColumnsNotNull;
    PayloadFacts(d);
    PayloadLength(d);
    ParseRow(PayloadFields(), PayloadValues(d));
    RowIsValid(PayloadFields(), PayloadValues(d));
  }

  lemma PayloadLength(d: UserData)
    ensures |PayloadFields()| == |PayloadValues(d)| == 6
  {
    hide Table, WalletFields, CategoryFields, TransactionFields, TransferFields, BudgetFields, GoalFields;
  }

  // ---------------------------------------------------------------- which exports are accepted

  /** The data of a file is validated with the schema above. */
  ghost predicate Validates(rt: Runtime) {
    forall v :: rt.schema(v) == Parse(DataSchema(), v)
  }

  lemma SameAsItself(v: Json)
    requires Valid(v)
    ensures Same(v, v)
    decreases v
  {
    match v
    case Arr(items) =>
      forall i | 0 <= i < |items| ensures Same(items[i], items[i]) {
        SameAsItself(items[i]);
      }
    case Obj(members) =>
      forall k | k in Keys(members) ensures Same(Lookup(members, k), Lookup(members, k)) {
        MemberIsValid(members, k);
        var i :| 0 <= i < |members| && members[i] == Entry(k, Lookup(members, k));
        SameAsItself(members[i].value);
      }
    case _ =>
  }

  /**
   An unprotected export of any rows: refused by the schema when a name is too short or too long, refused
   for its checksum when a column is null that should not be, and otherwise accepted as it was.
   */
  lemma PlainRowsAcceptedIff(rt: Runtime, d: UserData, exportPassword: Option<Text>, importPassword: Option<Text>)
    requires CollisionFree(rt) && Validates(rt)
    requires exportPassword.None? || |rt.trim(exportPassword.value)| < 6
    ensures Accept(rt, SentFile(Export(rt, Payload(d), exportPassword)), importPassword) ==
      if !NamesFit(d) then Err(SchemaInvalid) else if !ColumnsNotNull(d) then Err(ChecksumInvalid) else Ok(Payload(d))
  {
    var payload := Payload(d);
    PayloadIs(d);
    PlainExportAccepted(rt, payload, exportPassword, importPassword);
    SentIsValid(payload);
    SentIsDefined(payload);
    SameAsItself(Sent(payload));
    hide Payload, DataSchema, Parse, Accept, Export, CollisionFree, NamesFit, ColumnsNotNull;
    if ColumnsNotNull(d) {
      SentUnchanged(payload);
    }
  }

  /** A protected export of rows without nulls is accepted as it was exactly when all names fit. */
  lemma ProtectedRowsAcceptedIff(rt: Runtime, d: UserData, exportPassword: Text, importPassword: Text)
    requires CipherLaw(rt) && Validates(rt) && ColumnsNotNull(d)
    requires |rt.trim(exportPassword)| >= 6 && rt.trim(importPassword) == rt.trim(exportPassword)
    ensures Accept(rt, SentFile(Export(rt, Payload(d), Some(exportPassword))), Some(importPassword)) ==
      if NamesFit(d) then Ok(Payload(d)) else Err(SchemaInvalid)
  {
    var payload := Payload(d);
    PayloadIs(d);
    hide Payload, DataSchema, Parse, Accept, Export, CipherLaw, NamesFit, ColumnsNotNull;
    SentUnchanged(payload);
    ProtectedExportAccepted(rt, payload, exportPassword, importPassword);
    ParseSame(DataSchema(), payload, Sorted(payload));
  }

  /** As the columns of the table cannot be null, an export of any kind is accepted exactly when all names fit. */
  lemma ExportAcceptedIff(rt: Runtime, d: UserData, password: Option<Text>)
    requires CollisionFree(rt) && CipherLaw(rt) && Validates(rt) && ColumnsNotNull(d)
    ensures Accept(rt, SentFile(Export(rt, Payload(d), password)), password) ==
      if NamesFit(d) then Ok(Payload(d)) else Err(SchemaInvalid)
  {
    hide Payload, Accept, Export, CollisionFree, CipherLaw, Validates, NamesFit, ColumnsNotNull;
    if password.Some? && |rt.trim(password.value)| >= 6 {
      ProtectedRowsAcceptedIff(rt, d, password.value, password.value);
    } else {
      PlainRowsAcceptedIff(rt, d, password, password);
    }
  }
}
