/**
 What the schema of a backup file asks of every field, by its name, and what it makes of it: the rules
 of the tables in the order in which they are written down.
 */
module SchemaFields {
  import opened Prelude
  import opened FiniteSets
  import opened CanonicalJson
  import opened CanonicalProofs
  import opened Utf16
  import opened BackupFile
  import opened Schemas
  import opened SchemaRows
  import opened BackupPayload
  import opened BackupReading

  // ---------------------------------------------------------------- what a list of fields makes of a row

  ghost predicate Fits(f: Field, v: Json) {
    if v == Undefined then !f.absence.Required? else Parse(f.shape, v).Some?
  }

  ghost function Made(f: Field, v: Json): Json
    requires Fits(f, v)
  {
    if v != Undefined then Parse(f.shape, v).value
    else if f.absence.Default? then f.absence.value
    else Undefined
  }

  /** The list is taken when every field fits; an object of its fields alone comes out. */
  ghost predicate FieldsMake(fields: seq<Field>, ms: seq<Entry>, made: seq<Entry>) {
    && (forall i :: 0 <= i < |fields| ==>
          Fits(fields[i], Member(ms, fields[i].name))
          && Member(made, fields[i].name) == Made(fields[i], Member(ms, fields[i].name)))
    && (forall k :: k in Keys(made) ==> k in Names(fields))
  }

  lemma {:induction false} ParseFieldsIs(fields: seq<Field>, ms: seq<Entry>)
    requires NoRepeats(Names(fields))
    ensures ParseFields(fields, ms).Some? <==>
      forall i :: 0 <= i < |fields| ==> Fits(fields[i], Member(ms, fields[i].name))
    ensures ParseFields(fields, ms).Some? ==> FieldsMake(fields, ms, ParseFields(fields, ms).value)
    decreases |fields|
  {
    if fields != [] {
      var f, rest := fields[0], fields[1..];
      assert forall i :: 0 <= i < |rest| ==> Names(rest)[i] == Names(fields)[i + 1];
      ParseFieldsIs(rest, ms);
      assert forall i :: 0 < i < |fields| ==> fields[i] == rest[i - 1];
      hide Parse;
      if ParseFields(fields, ms).Some? {
        MoreFieldsMake(fields, ms);
      }
    }
  }

  lemma HeadIsNew(fields: seq<Field>)
    requires NoRepeats(Names(fields)) && fields != []
    ensures fields[0].name !in Names(fields[1..])
    ensures forall k :: k in Names(fields) <==> k == fields[0].name || k in Names(fields[1..])
  {
    var names := Names(fields);
    assert names == [fields[0].name] + Names(fields[1..]);
    assert forall i :: 0 <= i < |fields| - 1 ==> Names(fields[1..])[i] == names[i + 1] != names[0];
  }

  lemma MemberOfMore(m: Entry, tail: seq<Entry>, k: Text)
    ensures k in Keys([m] + tail) <==> k == m.key || k in Keys(tail)
    ensures Member([m] + tail, k) == if k == m.key then m.value else Member(tail, k)
  {
    KeysCons(m, tail);
    if k == m.key || k in Keys(tail) {
      LookupCons(m, tail, k);
    }
  }

  lemma MoreFieldsMake(fields: seq<Field>, ms: seq<Entry>)
    requires NoRepeats(Names(fields)) && fields != [] && ParseFields(fields, ms).Some?
    requires ParseFields(fields[1..], ms).Some?
    requires FieldsMake(fields[1..], ms, ParseFields(fields[1..], ms).value)
    ensures FieldsMake(fields, ms, ParseFields(fields, ms).value)
  {
    var f, rest := fields[0], fields[1..];
    var made, tail := ParseFields(fields, ms).value, ParseFields(rest, ms).value;
    var v := Member(ms, f.name);
    HeadIsNew(fields);
    assert Fits(f, v) && if v == Undefined && !f.absence.Default? then made == tail
                         else made == [Entry(f.name, Made(f, v))] + tail;
    hide Parse, ParseFields, Fits, Made, Names, Member, Keys;
    forall k ensures k in Keys(made) ==> k in Names(fields) {
      MemberOfMore(Entry(f.name, Made(f, v)), tail, k);
    }
    forall i | 0 <= i < |fields|
      ensures Fits(fields[i], Member(ms, fields[i].name))
      ensures Member(made, fields[i].name) == Made(fields[i], Member(ms, fields[i].name))
    {
      MemberOfMore(Entry(f.name, Made(f, v)), tail, fields[i].name);
      if i > 0 {
        assert fields[i] == rest[i - 1];
        NameAt(rest, i - 1);
      } else {
        HeadIsAbsent(f, v, tail, rest, ms);
      }
    }
  }

  lemma NameAt(fields: seq<Field>, i: nat)
    requires i < |fields|
    ensures fields[i].name in Names(fields)
  {
    assert Names(fields)[i] == fields[i].name;
  }

  lemma HeadIsAbsent(f: Field, v: Json, tail: seq<Entry>, rest: seq<Field>, ms: seq<Entry>)
    requires Fits(f, v) && f.name !in Names(rest) && FieldsMake(rest, ms, tail)
    ensures v == Undefined && !f.absence.Default? ==> Member(tail, f.name) == Made(f, v)
  {
  }

  // ---------------------------------------------------------------- the tables

  /** A text that passes the check; some checks pass every text. */
  predicate IsTextOf(check: Check, v: Json) {
    v.Str? && (check.AnyText? || Passes(check, v.s))
  }

  predicate IsWord(v: Json, name: string, check: Check) {
    IsTextOf(check, Get(v, name))
  }

  predicate MayBeWord(v: Json, name: string, check: Check) {
    Get(v, name) == Undefined || IsWord(v, name, check)
  }

  /** A text, null, or nothing. */
  predicate IsNote(v: Json, name: string) {
    Get(v, name) == Undefined || Get(v, name) == Null || Get(v, name).Str?
  }

  predicate IsFlag(v: Json, name: string) {
    Get(v, name) == Undefined || Get(v, name).Bool?
  }

  ghost predicate ColumnFits(c: Column, v: Json) {
    if v == Undefined then !c.absence.Required? else Parse(c.shape, v).Some?
  }

  /** What a column asks of a value; of a list, that its items are taken. */
  ghost predicate Asks(c: Column, v: Json) {
    if v == Undefined then !c.absence.Required?
    else
      match c.shape
      case Word(check) => IsTextOf(check, v)
      case NullOrWord(check) => v.Null? || IsTextOf(check, v)
      case Flag => v.Bool?
      case _ => ColumnFits(c, v)
  }

  lemma ColumnAsks(c: Column, v: Json)
    ensures ColumnFits(c, v) <==> Asks(c, v)
  {
  }

  /** A row is taken when every column fits the field of its name. */
  lemma RowTakenIff(names: seq<Name>, columns: seq<Column>, v: Json)
    requires |names| == |columns| && NoRepeats(names)
    ensures Parse(Record(Fields(names, columns)), v).Some? <==>
      v.Obj? && forall i :: 0 <= i < |names| ==> Asks(columns[i], Get(v, names[i]))
  {
    var fields := Fields(names, columns);
    FieldsDiffer(names, columns);
    if v.Obj? {
      ParseFieldsIs(fields, v.members);
      forall i | 0 <= i < |names|
        ensures Get(v, names[i]) == Member(v.members, fields[i].name)
        ensures Fits(fields[i], Member(v.members, fields[i].name)) <==> Asks(columns[i], Get(v, names[i]))
      {
        EncodeName(names[i]);
        ColumnAsks(columns[i], Get(v, names[i]));
      }
    }
  }

  lemma WalletTakenIff(v: Json)
    ensures Parse(Record(WalletFields()), v).Some? <==>
      && v.Obj?
      && IsWord(v, "id", NonEmpty) && IsWord(v, "name", NameCheck) && IsWord(v, "balance", BalanceCheck)
      && MayBeWord(v, "currency", CurrencyCheck) && IsNote(v, "icon") && IsNote(v, "color")
      && IsNote(v, "description") && IsFlag(v, "isDefault") && IsFlag(v, "isArchived")
  {
    hide Get, Parse, Passes, ColumnFits;
    WalletNamesDiffer();
    var names, columns := WALLET_NAMES, WalletColumns();
    RowTakenIff(names, columns, v);
    assert names[0] == "id" && names[1] == "name" && names[2] == "balance" && names[3] == "currency";
    assert names[4] == "icon" && names[5] == "color" && names[6] == "description" && names[7] == "isDefault";
    assert names[8] == "isArchived";
  }

  lemma CategoryTakenIff(v: Json)
    ensures Parse(Record(CategoryFields()), v).Some? <==>
      && v.Obj?
      && IsWord(v, "id", NonEmpty) && IsWord(v, "name", NameCheck) && IsWord(v, "type", OneOf(["INCOME", "EXPENSE"]))
      && IsNote(v, "icon") && IsNote(v, "color") && IsFlag(v, "isSystem") && IsFlag(v, "isArchived")
      && IsNote(v, "parentId")
  {
    hide Get, Parse, Passes, ColumnFits;
    CategoryNamesDiffer();
    var names, columns := CATEGORY_NAMES, CategoryColumns();
    RowTakenIff(names, columns, v);
    assert names[0] == "id" && names[1] == "name" && names[2] == "type" && names[3] == "icon" && names[4] == "color";
    assert names[5] == "isSystem" && names[6] == "isArchived" && names[7] == "parentId";
  }

  lemma TransactionTakenIff(v: Json)
    ensures Parse(Record(TransactionFields()), v).Some? <==>
      && v.Obj?
      && IsWord(v, "id", NonEmpty) && IsWord(v, "walletId", NonEmpty) && IsWord(v, "categoryId", NonEmpty)
      && IsWord(v, "amount", AmountCheck) && IsWord(v, "type", OneOf(["INCOME", "EXPENSE"]))
      && IsNote(v, "description") && IsNote(v, "receiptUrl") && IsNote(v, "location") && IsWord(v, "date", DayCheck)
      && MayBeWord(v, "createdAt", AnyText)
  {
    hide Get, Parse, Passes, ColumnFits;
    TransactionNamesDiffer();
    var names, columns := TRANSACTION_NAMES, TransactionColumns();
    RowTakenIff(names, columns, v);
    assert names[0] == "id" && names[1] == "walletId" && names[2] == "categoryId" && names[3] == "amount";
    assert names[4] == "type" && names[5] == "description" && names[6] == "receiptUrl" && names[7] == "location";
    assert names[8] == "date" && names[9] == "createdAt";
  }

  lemma TransferTakenIff(v: Json)
    ensures Parse(Record(TransferFields()), v).Some? <==>
      && v.Obj?
      && IsWord(v, "id", NonEmpty) && IsWord(v, "sourceWalletId", NonEmpty)
      && IsWord(v, "destinationWalletId", NonEmpty) && IsWord(v, "amount", AmountCheck) && IsNote(v, "note")
      && IsWord(v, "transferredAt", AnyText)
  {
    hide Get, Parse, Passes, ColumnFits;
    TransferNamesDiffer();
    var names, columns := TRANSFER_NAMES, TransferColumns();
    RowTakenIff(names, columns, v);
    assert names[0] == "id" && names[1] == "sourceWalletId" && names[2] == "destinationWalletId";
    assert names[3] == "amount" && names[4] == "note" && names[5] == "transferredAt";
  }

  /** Columns lo to hi of a budget ask for this. */
  ghost predicate BudgetAsks(v: Json, lo: nat, hi: nat)
    requires lo <= hi <= 16
  {
    forall i :: lo <= i < hi ==> Asks(BudgetColumns()[i], Get(v, BUDGET_NAMES[i]))
  }

  lemma BudgetHead(v: Json)
    ensures BudgetAsks(v, 0, 8) <==>
      && IsWord(v, "id", NonEmpty) && IsNote(v, "categoryId") && IsWord(v, "name", NameCheck)
      && IsWord(v, "amount", AmountCheck) && MayBeWord(v, "currency", CurrencyCheck)
      && MayBeWord(v, "type", OneOf(["OVERALL", "CATEGORY"]))
      && MayBeWord(v, "period", OneOf(["CUSTOM", "WEEKLY", "MONTHLY", "YEARLY"])) && IsWord(v, "startDate", DayCheck)
  {
    hide Get, Passes, ColumnFits;
    var names := BUDGET_NAMES;
    assert names[0] == "id" && names[1] == "categoryId" && names[2] == "name" && names[3] == "amount";
    assert names[4] == "currency" && names[5] == "type" && names[6] == "period" && names[7] == "startDate";
  }

  lemma BudgetTail(v: Json)
    ensures BudgetAsks(v, 8, 16) <==>
      && IsWord(v, "endDate", DayCheck) && MayBeWord(v, "alertThreshold", AnyText) && IsFlag(v, "isArchived")
      && IsFlag(v, "isRecurring") && IsFlag(v, "autoRenew")
      && MayBeWord(v, "rolloverMode", OneOf(["RESET", "ROLLOVER_SURPLUS", "ROLLOVER_DEFICIT", "ROLLOVER_NET"]))
      && MayBeWord(v, "rolloverAmount", AnyText) && IsNote(v, "autoRenewUntil")
  {
    hide Get, Passes, ColumnFits;
    var names := BUDGET_NAMES;
    assert names[8] == "endDate" && names[9] == "alertThreshold" && names[10] == "isArchived";
    assert names[11] == "isRecurring" && names[12] == "autoRenew" && names[13] == "rolloverMode";
    assert names[14] == "rolloverAmount" && names[15] == "autoRenewUntil";
  }

  lemma BudgetTakenIff(v: Json)
    ensures Parse(Record(BudgetFields()), v).Some? <==>
      && v.Obj?
      && IsWord(v, "id", NonEmpty) && IsNote(v, "categoryId") && IsWord(v, "name", NameCheck)
      && IsWord(v, "amount", AmountCheck) && MayBeWord(v, "currency", CurrencyCheck)
      && MayBeWord(v, "type", OneOf(["OVERALL", "CATEGORY"]))
      && MayBeWord(v, "period", OneOf(["CUSTOM", "WEEKLY", "MONTHLY", "YEARLY"])) && IsWord(v, "startDate", DayCheck)
      && IsWord(v, "endDate", DayCheck) && MayBeWord(v, "alertThreshold", AnyText) && IsFlag(v, "isArchived")
      && IsFlag(v, "isRecurring") && IsFlag(v, "autoRenew")
      && MayBeWord(v, "rolloverMode", OneOf(["RESET", "ROLLOVER_SURPLUS", "ROLLOVER_DEFICIT", "ROLLOVER_NET"]))
      && MayBeWord(v, "rolloverAmount", AnyText) && IsNote(v, "autoRenewUntil")
  {
    hide Get, Parse, Asks, IsWord, IsNote, IsFlag, MayBeWord;
    BudgetNamesDiffer();
    RowTakenIff(BUDGET_NAMES, BudgetColumns(), v);
    BudgetHead(v);
    BudgetTail(v);
    assert BudgetAsks(v, 0, 16) <==> BudgetAsks(v, 0, 8) && BudgetAsks(v, 8, 16);
  }

  lemma ContributionTakenIff(v: Json)
    ensures Parse(Record(ContributionFields()), v).Some? <==>
      && v.Obj?
      && IsWord(v, "id", NonEmpty) && IsWord(v, "amount", AmountCheck) && IsWord(v, "contributedAt", AnyText)
      && IsNote(v, "note")
  {
    hide Get, Parse, Passes, ColumnFits;
    ContributionNamesDiffer();
    var names, columns := CONTRIBUTION_NAMES, ContributionColumns();
    RowTakenIff(names, columns, v);
    assert names[0] == "id" && names[1] == "amount" && names[2] == "contributedAt" && names[3] == "note";
  }

  /** A list of rows that the fields take, or nothing. */
  ghost predicate AreRows(v: Json, fields: seq<Field>) {
    v == Undefined || (v.Arr? && forall i :: 0 <= i < |v.items| ==> Parse(Record(fields), v.items[i]).Some?)
  }

  lemma RowsFit(c: Column, v: Json, fields: seq<Field>)
    requires c.shape == ListOf(Record(fields)) && !c.absence.Required?
    ensures Asks(c, v) <==> AreRows(v, fields)
  {
  }

  lemma GoalTakenIff(v: Json)
    ensures Parse(Record(GoalFields()), v).Some? <==>
      && v.Obj?
      && IsWord(v, "id", NonEmpty) && IsWord(v, "name", NameCheck) && IsWord(v, "targetAmount", AmountCheck)
      && MayBeWord(v, "currency", CurrencyCheck) && IsWord(v, "targetDate", DayCheck) && IsNote(v, "description")
      && IsNote(v, "icon") && IsNote(v, "color") && MayBeWord(v, "status", OneOf(["ACTIVE", "PAUSED", "COMPLETED"]))
      && IsNote(v, "completedAt") && IsFlag(v, "isArchived")
      && AreRows(Get(v, "contributions"), ContributionFields())
  {
    hide Get, Parse, Passes, ColumnFits, AreRows, ContributionFields;
    GoalNamesDiffer();
    var names, columns := GOAL_NAMES, GoalColumns();
    RowTakenIff(names, columns, v);
    RowsFit(columns[11], Get(v, "contributions"), ContributionFields());
    assert names[0] == "id" && names[1] == "name" && names[2] == "targetAmount" && names[3] == "currency";
    assert names[4] == "targetDate" && names[5] == "description" && names[6] == "icon" && names[7] == "color";
    assert names[8] == "status" && names[9] == "completedAt" && names[10] == "isArchived";
    assert names[11] == "contributions";
  }

  /** The data of a file are taken when every table is a list of rows that are taken, or missing. */
  lemma DataTakenIff(v: Json)
    ensures Parse(DataSchema(), v).Some? <==>
      && v.Obj?
      && AreRows(Get(v, "wallets"), WalletFields()) && AreRows(Get(v, "categories"), CategoryFields())
      && AreRows(Get(v, "transactions"), TransactionFields()) && AreRows(Get(v, "transfers"), TransferFields())
      && AreRows(Get(v, "budgets"), BudgetFields()) && AreRows(Get(v, "savingGoals"), GoalFields())
  {
    hide Get, Parse, Asks, AreRows, WalletFields, CategoryFields, TransactionFields, TransferFields,
      BudgetFields, GoalFields;
    PayloadNamesDiffer();
    var names, columns := PAYLOAD_NAMES, PayloadColumns();
    RowTakenIff(names, columns, v);
    RowsFit(columns[0], Get(v, "wallets"), WalletFields());
    RowsFit(columns[1], Get(v, "categories"), CategoryFields());
    RowsFit(columns[2], Get(v, "transactions"), TransactionFields());
    RowsFit(columns[3], Get(v, "transfers"), TransferFields());
    RowsFit(columns[4], Get(v, "budgets"), BudgetFields());
    RowsFit(columns[5], Get(v, "savingGoals"), GoalFields());
    assert names[0] == "wallets" && names[1] == "categories" && names[2] == "transactions";
    assert names[3] == "transfers" && names[4] == "budgets" && names[5] == "savingGoals";
  }

  /** What the checks ask of a text. */
  lemma ChecksAre(t: Text, options: seq<Name>)
    ensures Passes(NonEmpty, t) <==> t != []
    ensures Passes(NameCheck, t) <==> 1 <= |t| <= 100
    ensures Passes(CurrencyCheck, t) <==> 1 <= |t| <= 10
    ensures Passes(AmountCheck, t) <==> IsAmount(t)
    ensures Passes(BalanceCheck, t) <==> IsBalance(t)
    ensures Passes(DayCheck, t) <==> IsDay(t)
    ensures Passes(OneOf(options), t) <==> exists name: Name :: name in options && t == Units(name)
  {
    hide Units;
  }

  // ---------------------------------------------------------------- what comes out

  /** A field comes out as its schema makes it, a missing one as its default, if any; unknown fields are dropped. */
  lemma RowComesOut(names: seq<Name>, columns: seq<Column>, v: Json)
    requires |names| == |columns| && NoRepeats(names) && Parse(Record(Fields(names, columns)), v).Some?
    ensures var made := Parse(Record(Fields(names, columns)), v).value;
      && made.Obj?
      && (forall k :: k in Keys(made.members) ==> exists i :: 0 <= i < |names| && Units(names[i]) == k)
      && forall i :: 0 <= i < |names| ==>
           Get(made, names[i]) ==
           if Get(v, names[i]) == Undefined then
             if columns[i].absence.Default? then columns[i].absence.value else Undefined
           else if Parse(columns[i].shape, Get(v, names[i])).Some? then Parse(columns[i].shape, Get(v, names[i])).value
           else Undefined
  {
    var fields := Fields(names, columns);
    FieldsDiffer(names, columns);
    ParseFieldsIs(fields, v.members);
    var made := Parse(Record(fields), v).value;
    hide Parse, ParseFields;
    forall i | 0 <= i < |names|
      ensures Get(v, names[i]) == Member(v.members, fields[i].name)
      ensures Get(made, names[i]) == Member(made.members, fields[i].name)
    {
      EncodeName(names[i]);
    }
    forall k | k in Keys(made.members) ensures exists i :: 0 <= i < |names| && Units(names[i]) == k {
      assert k in Names(fields);
      var i :| 0 <= i < |fields| && Names(fields)[i] == k;
      assert Units(names[i]) == k;
    }
  }

  predicate FilledIn(v: Json, made: Json, name: string, default: string) {
    Get(v, name) == Undefined ==> Get(made, name) == Str(Encode(default))
  }

  /** A currency that is missing is VND. */
  lemma WalletDefault(v: Json)
    requires Parse(Record(WalletFields()), v).Some?
    ensures FilledIn(v, Parse(Record(WalletFields()), v).value, "currency", "VND")
  {
    hide Get, Parse, Units, Encode;
    WalletNamesDiffer();
    RowComesOut(WALLET_NAMES, WalletColumns(), v);
    EncodeName("VND");
    assert WALLET_NAMES[3] == "currency";
  }

  /** So it is for a budget, which is one of a category, and monthly, unless it says otherwise. */
  lemma BudgetDefaults(v: Json)
    requires Parse(Record(BudgetFields()), v).Some?
    ensures var made := Parse(Record(BudgetFields()), v).value;
      && FilledIn(v, made, "currency", "VND") && FilledIn(v, made, "type", "CATEGORY")
      && FilledIn(v, made, "period", "MONTHLY")
  {
    hide Get, Parse, Units, Encode;
    BudgetNamesDiffer();
    RowComesOut(BUDGET_NAMES, BudgetColumns(), v);
    EncodeName("VND");
    EncodeName("CATEGORY");
    EncodeName("MONTHLY");
    assert BUDGET_NAMES[4] == "currency" && BUDGET_NAMES[5] == "type" && BUDGET_NAMES[6] == "period";
  }

  /** And for a saving goal, which is active. */
  lemma GoalDefaults(v: Json)
    requires Parse(Record(GoalFields()), v).Some?
    ensures var made := Parse(Record(GoalFields()), v).value;
      FilledIn(v, made, "currency", "VND") && FilledIn(v, made, "status", "ACTIVE")
  {
    hide Get, Parse, Units, Encode;
    GoalNamesDiffer();
    RowComesOut(GOAL_NAMES, GoalColumns(), v);
    EncodeName("VND");
    EncodeName("ACTIVE");
    assert GOAL_NAMES[3] == "currency" && GOAL_NAMES[8] == "status";
  }

  /** A table that is missing is empty. */
  lemma DataDefaults(v: Json, i: nat)
    requires Parse(DataSchema(), v).Some? && i < |PAYLOAD_NAMES| && Get(v, PAYLOAD_NAMES[i]) == Undefined
    ensures Get(Parse(DataSchema(), v).value, PAYLOAD_NAMES[i]) == Arr([])
  {
    hide Get, Parse, Units, WalletFields, CategoryFields, TransactionFields, TransferFields, BudgetFields, GoalFields;
    PayloadNamesDiffer();
    RowComesOut(PAYLOAD_NAMES, PayloadColumns(), v);
    assert PayloadColumns()[i].absence == Default(Arr([]));
  }
}
