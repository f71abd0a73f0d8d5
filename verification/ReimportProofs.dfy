/** Importing a file a second time, without wallet resolutions: what the loops find, one by one. */
module ReimportProofs {
  import opened Prelude
  import opened TextRules
  import opened Deduplication
  import opened BackupImport
  import opened ImportCategoryProofs
  import opened ImportRowProofs

  // ---------------------------------------------------------------- wallets

  /** The name Map over the wallets of an account. */
  function ByName(text: Text, ws: seq<Wallet>): map<string, Id> {
    NameMap(text, ActiveWallets(ws))
  }

  function WalletKey(job: Job, m: nat): string
    requires m < |job.file.wallets|
  {
    NameKey(job.platform.text, job.file.wallets[m].name)
  }

  /** No two wallets of the file have the same name but for case and white space. */
  ghost predicate WalletNamesDiffer(job: Job) {
    forall i: nat, j: nat :: i < j < |job.file.wallets| ==> WalletKey(job, i) != WalletKey(job, j)
  }

  /** File wallet m is archived, and no active wallet has its name: it makes an archived wallet. */
  ghost predicate MakesArchivedWallet(job: Job, account: Account, m: nat)
    requires m < |job.file.wallets|
  {
    job.file.wallets[m].isArchived && WalletKey(job, m) !in ByName(job.platform.text, account.wallets)
  }

  lemma ByNameOfOneMore(text: Text, ws: seq<Wallet>, w: Wallet)
    ensures ByName(text, ws + [w]) ==
      if Loaded(w) then ByName(text, ws)[NameKey(text, w.name) := w.id] else ByName(text, ws)
  {
    hide NameKey, Lawful;
    assert (ws + [w])[..|ws|] == ws;
    var active := ActiveWallets(ws);
    assert ActiveWallets(ws + [w]) == active + if Loaded(w) then [w] else [];
    assert (active + [w])[..|active|] == active;
    assert active + [] == active;
  }

  /** An active standard wallet makes its name lead somewhere. */
  lemma {:induction false} LoadedIsFound(text: Text, ws: seq<Wallet>, i: nat)
    requires i < |ws| && Loaded(ws[i])
    ensures NameKey(text, ws[i].name) in ByName(text, ws)
    decreases |ws|
  {
    hide Lawful, NameKey;
    var before, last := ws[..|ws| - 1], ws[|ws| - 1];
    assert ws == before + [last];
    ByNameOfOneMore(text, before, last);
    if i < |before| {
      LoadedIsFound(text, before, i);
    }
  }

  /** The wallet to which turn m of the loop maps its file wallet. */
  ghost function Target(job: Job, account: Account, m: nat): Option<Id>
    requires m < |job.file.wallets|
  {
    match WalletsAfter(job, account, m + 1)
    case Err(_) => None
    case Ok(s) => Image(s.idMap, job.file.wallets[m].id)
  }

  /** File wallet m is found by its name where the loop put it, or, if archived and new, is in the way of another. */
  ghost predicate SettledAt(job: Job, account: Account, m: nat, ws: seq<Wallet>)
    requires m < |job.file.wallets|
  {
    var now, key := ByName(job.platform.text, ws), WalletKey(job, m);
    if MakesArchivedWallet(job, account, m) then
      key !in now && NameTaken(ws, job.platform.text.trim(job.file.wallets[m].name))
    else key in now && Target(job, account, m) == Some(now[key])
  }

  ghost predicate SettledUpTo(job: Job, account: Account, n: nat, ws: seq<Wallet>)
    requires n <= |job.file.wallets|
  {
    forall m: nat :: m < n ==> SettledAt(job, account, m, ws)
  }

  ghost predicate NamesAre(job: Job, account: Account, n: nat, names: set<string>)
    requires n <= |job.file.wallets|
  {
    forall key :: key in names <==>
      key in ByName(job.platform.text, account.wallets) || exists m: nat :: m < n && key == WalletKey(job, m)
  }

  /** The wallets of before the import are found as before, and every name that is found is reserved. */
  ghost predicate Extends(before: map<string, Id>, now: map<string, Id>, names: set<string>) {
    (forall key :: key in before ==> key in now && now[key] == before[key]) && now.Keys <= names
  }

  /** What the stored wallets say about the first n file wallets. */
  ghost predicate Settled(job: Job, account: Account, n: nat, s: WalletState)
    requires n <= |job.file.wallets|
  {
    && Extends(ByName(job.platform.text, account.wallets), ByName(job.platform.text, s.wallets), s.names)
    && SettledUpTo(job, account, n, s.wallets)
    && NamesAre(job, account, n, s.names)
  }

  /** Without resolutions, a turn of the loop merges by name or makes a wallet of the same name. */
  lemma PlainStep(job: Job, account: Account, n: nat, s: WalletState)
    requires job.options.walletResolutions == [] && n < |job.file.wallets|
    ensures var w := job.file.wallets[n];
      var text := job.platform.text;
      var before := ByName(text, account.wallets);
      ImportWallet(job, ActiveWallets(account.wallets), s, w) ==
      if WalletKey(job, n) in before then Ok(s.(idMap := s.idMap[w.id := before[WalletKey(job, n)]]))
      else CreateWallet(text, ActiveWallets(account.wallets) != [], s, w, text.trim(w.name))
  {
    hide NameMap, ActiveWallets, Lawful, CreateWallet;
  }

  lemma NewNameIsFree(text: Text, names: set<string>, name: string)
    requires NameKey(text, name) !in names
    ensures FreeName(text, names, text.trim(name)) == text.trim(name)
  {
    TrimmedKey(text, name);
  }

  lemma TakenStays(ws: seq<Wallet>, w: Wallet, name: string)
    requires NameTaken(ws, name)
    ensures NameTaken(ws + [w], name)
  {
    var i :| 0 <= i < |ws| && ws[i].name == name;
    assert (ws + [w])[i] == ws[i];
  }

  /** One more wallet with another name unsettles nothing. */
  lemma SettledStays(job: Job, account: Account, m: nat, ws: seq<Wallet>, row: Wallet)
    requires m < |job.file.wallets| && SettledAt(job, account, m, ws)
    requires NameKey(job.platform.text, row.name) != WalletKey(job, m)
    ensures SettledAt(job, account, m, ws + [row])
  {
    ByNameOfOneMore(job.platform.text, ws, row);
    hide ByName, WalletKey, NameKey, Lawful, Loaded, Target, NameTaken, MakesArchivedWallet;
    var name := job.platform.text.trim(job.file.wallets[m].name);
    if NameTaken(ws, name) {
      TakenStays(ws, row, name);
    }
  }

  lemma SettledByRow(job: Job, account: Account, n: nat, ws: seq<Wallet>, row: Wallet)
    requires n < |job.file.wallets| && WalletKey(job, n) !in ByName(job.platform.text, account.wallets)
    requires WalletKey(job, n) !in ByName(job.platform.text, ws)
    requires row.name == job.platform.text.trim(job.file.wallets[n].name)
    requires row.isStandard && row.isArchived == job.file.wallets[n].isArchived
    requires Target(job, account, n) == Some(row.id)
    ensures SettledAt(job, account, n, ws + [row])
  {
    TrimmedKey(job.platform.text, job.file.wallets[n].name);
    ByNameOfOneMore(job.platform.text, ws, row);
    assert NameKey(job.platform.text, row.name) == WalletKey(job, n);
    assert NameTaken(ws + [row], row.name) by {
      assert (ws + [row])[|ws|] == row;
    }
    hide ByName, NameKey, Lawful, Target, NameTaken, WalletKey;
  }

  /** The turn that makes a wallet. */
  lemma CreateStep(job: Job, account: Account, n: nat, s: WalletState) returns (t: WalletState, row: Wallet)
    requires job.options.walletResolutions == [] && n < |job.file.wallets|
    requires WalletsAfter(job, account, n) == Ok(s) && WalletKey(job, n) !in s.names
    requires WalletKey(job, n) !in ByName(job.platform.text, account.wallets)
    requires WalletsAfter(job, account, n + 1).Ok?
    ensures WalletsAfter(job, account, n + 1) == Ok(t) && Target(job, account, n) == Some(row.id)
    ensures t.wallets == s.wallets + [row] && t.names == s.names + {WalletKey(job, n)}
    ensures row.name == job.platform.text.trim(job.file.wallets[n].name)
    ensures row.isStandard && row.isArchived == job.file.wallets[n].isArchived
    ensures NameKey(job.platform.text, row.name) == WalletKey(job, n)
  {
    t := WalletsAfter(job, account, n + 1).value;
    PlainStep(job, account, n, s);
    NewNameIsFree(job.platform.text, s.names, job.file.wallets[n].name);
    TrimmedKey(job.platform.text, job.file.wallets[n].name);
    hide ByName, Lawful, ImportWallet, FreeName, NameTaken, ActiveWallets;
    row := t.wallets[|s.wallets|];
  }

  lemma CreateSettles(job: Job, account: Account, n: nat, s: WalletState)
    requires job.options.walletResolutions == [] && n < |job.file.wallets| && WalletNamesDiffer(job)
    requires WalletsAfter(job, account, n) == Ok(s) && Settled(job, account, n, s)
    requires WalletKey(job, n) !in ByName(job.platform.text, account.wallets)
    requires WalletsAfter(job, account, n + 1).Ok?
    ensures Settled(job, account, n + 1, WalletsAfter(job, account, n + 1).value)
  {
    hide ByName, WalletKey, NameKey, Lawful, ImportWallet, SettledAt, MakesArchivedWallet, Target, WalletsAfter;
    var key := WalletKey(job, n);
    assert forall m: nat :: m < n ==> WalletKey(job, m) != key;
    assert key !in s.names;
    var t, row := CreateStep(job, account, n, s);
    ByNameOfOneMore(job.platform.text, s.wallets, row);
    SettledByRow(job, account, n, s.wallets, row);
    forall m: nat | m < n + 1 ensures SettledAt(job, account, m, t.wallets) {
      if m < n {
        SettledStays(job, account, m, s.wallets, row);
      }
    }
    NamesGrow(job, account, n, s.names);
  }

  lemma NamesGrow(job: Job, account: Account, n: nat, names: set<string>)
    requires n < |job.file.wallets| && NamesAre(job, account, n, names)
    ensures NamesAre(job, account, n + 1, names + {WalletKey(job, n)})
    ensures WalletKey(job, n) in names ==> NamesAre(job, account, n + 1, names)
  {
    hide ByName, WalletKey, Lawful;
    assert WalletKey(job, n) in names ==> names + {WalletKey(job, n)} == names;
  }

  lemma MergeSettles(job: Job, account: Account, n: nat, s: WalletState)
    requires job.options.walletResolutions == [] && n < |job.file.wallets|
    requires WalletsAfter(job, account, n) == Ok(s) && Settled(job, account, n, s)
    requires WalletKey(job, n) in ByName(job.platform.text, account.wallets)
    ensures WalletsAfter(job, account, n + 1).Ok?
    ensures Settled(job, account, n + 1, WalletsAfter(job, account, n + 1).value)
  {
    PlainStep(job, account, n, s);
    assert Target(job, account, n) == Some(ByName(job.platform.text, account.wallets)[WalletKey(job, n)]);
    assert SettledAt(job, account, n, s.wallets);
    NamesGrow(job, account, n, s.names);
    hide ByName, WalletKey, NameKey, Lawful, ImportWallet, SettledAt, Target, MakesArchivedWallet;
  }

  lemma {:induction false} LoopSettles(job: Job, account: Account, n: nat)
    requires job.options.walletResolutions == [] && WalletNamesDiffer(job)
    requires n <= |job.file.wallets| && WalletsAfter(job, account, n).Ok?
    ensures Settled(job, account, n, WalletsAfter(job, account, n).value)
    decreases n
  {
    hide ByName, WalletKey, NameKey, Lawful, ImportWallet, WalletNamesDiffer, Settled;
    if n == 0 {
      SettledAtStart(job, account);
    } else {
      LoopSettles(job, account, n - 1);
      var s := WalletsAfter(job, account, n - 1).value;
      if WalletKey(job, n - 1) in ByName(job.platform.text, account.wallets) {
        MergeSettles(job, account, n - 1, s);
      } else {
        CreateSettles(job, account, n - 1, s);
      }
    }
  }

  lemma SettledAtStart(job: Job, account: Account)
    ensures Settled(job, account, 0, WalletsAtStart(job, account))
  {
    hide NameMap, ActiveWallets, BalanceMap, WalletKey, Lawful;
  }

  /** A state of the first loop leads to later states: a failed loop stays failed. */
  lemma {:induction false} EarlierOk(job: Job, account: Account, m: nat, n: nat)
    requires m <= n <= |job.file.wallets| && WalletsAfter(job, account, n).Ok?
    ensures WalletsAfter(job, account, m).Ok?
    decreases n
  {
    hide ImportWallet, WalletsAtStart, ActiveWallets, Lawful;
    if m < n {
      EarlierOk(job, account, m, n - 1);
    }
  }

  /** Turn n maps its file wallet and leaves the rest of the id map alone. */
  lemma TargetIsMapped(job: Job, account: Account, n: nat)
    requires job.options.walletResolutions == [] && n < |job.file.wallets|
    requires WalletsAfter(job, account, n).Ok? && WalletsAfter(job, account, n + 1).Ok?
    ensures Target(job, account, n).Some?
    ensures WalletsAfter(job, account, n + 1).value.idMap ==
      WalletsAfter(job, account, n).value.idMap[job.file.wallets[n].id := Target(job, account, n).value]
  {
    PlainStep(job, account, n, WalletsAfter(job, account, n).value);
    hide ByName, WalletKey, NameKey, Lawful, ImportWallet, FreeName, NameTaken, ActiveWallets;
  }

  /** The second loop follows the first one, and merges everything by name. */
  lemma {:induction false} SecondLoopFollows(job: Job, account: Account, after: Account, n: nat)
    requires job.options.walletResolutions == [] && WalletNamesDiffer(job)
    requires WalletsAfter(job, account, |job.file.wallets|).Ok?
    requires after.wallets == WalletsAfter(job, account, |job.file.wallets|).value.wallets
    requires n <= |job.file.wallets|
    requires forall m: nat :: m < n ==> !MakesArchivedWallet(job, account, m)
    ensures WalletsAfter(job, account, n).Ok?
    ensures WalletsAfter(job, after, n) ==
      Ok(WalletsAtStart(job, after).(idMap := WalletsAfter(job, account, n).value.idMap))
    decreases n
  {
    hide ByName, WalletKey, NameKey, Lawful, ImportWallet, ActiveWallets, Target, MakesArchivedWallet,
      WalletNamesDiffer;
    EarlierOk(job, account, n, |job.file.wallets|);
    if n > 0 {
      SecondLoopFollows(job, account, after, n - 1);
      LoopSettles(job, account, |job.file.wallets|);
      TargetIsMapped(job, account, n - 1);
      PlainStep(job, after, n - 1, WalletsAfter(job, after, n - 1).value);
      SettledTarget(job, account, n - 1, WalletsAfter(job, account, |job.file.wallets|).value);
    }
  }

  lemma SettledTarget(job: Job, account: Account, m: nat, s: WalletState)
    requires m < |job.file.wallets| && Settled(job, account, |job.file.wallets|, s)
    ensures SettledAt(job, account, m, s.wallets)
  {
  }

  lemma NamesakeFails(text: Text, hadWallets: bool, s: WalletState, w: FileWallet)
    requires NameKey(text, w.name) !in s.names && NameTaken(s.wallets, text.trim(w.name))
    ensures CreateWallet(text, hadWallets, s, w, text.trim(w.name)) == Err(UniqueViolation)
  {
    NewNameIsFree(text, s.names, w.name);
  }

  lemma NamesakeTurnFails(job: Job, after: Account, n: nat)
    requires job.options.walletResolutions == [] && n < |job.file.wallets|
    requires WalletsAfter(job, after, n).Ok?
    requires var s := WalletsAfter(job, after, n).value;
      s.names == ByName(job.platform.text, after.wallets).Keys && s.wallets == after.wallets
    requires WalletKey(job, n) !in ByName(job.platform.text, after.wallets)
    requires NameTaken(after.wallets, job.platform.text.trim(job.file.wallets[n].name))
    ensures WalletsAfter(job, after, |job.file.wallets|) == Err(UniqueViolation)
  {
    var s := WalletsAfter(job, after, n).value;
    PlainStep(job, after, n, s);
    NamesakeFails(job.platform.text, ActiveWallets(after.wallets) != [], s, job.file.wallets[n]);
    assert WalletsAfter(job, after, n + 1) == Err(UniqueViolation);
    WalletErrorStays(job, after, n + 1, |job.file.wallets|);
  }

  /** The second loop fails at the first file wallet that made an archived wallet. */
  lemma SecondLoopFails(job: Job, account: Account, after: Account, n: nat)
    requires job.options.walletResolutions == [] && WalletNamesDiffer(job)
    requires WalletsAfter(job, account, |job.file.wallets|).Ok?
    requires after.wallets == WalletsAfter(job, account, |job.file.wallets|).value.wallets
    requires n < |job.file.wallets| && MakesArchivedWallet(job, account, n)
    requires forall m: nat :: m < n ==> !MakesArchivedWallet(job, account, m)
    ensures WalletsAfter(job, after, |job.file.wallets|) == Err(UniqueViolation)
  {
    hide Settled, Target, MakesArchivedWallet, Lawful, ActiveWallets, NameTaken, NameKey, ByName, WalletsAfter,
      BalanceMap,
      NameMap, WalletKey;
    SecondLoopFollows(job, account, after, n);
    LoopSettles(job, account, |job.file.wallets|);
    SettledTarget(job, account, n, WalletsAfter(job, account, |job.file.wallets|).value);
    StartNames(job, after);
    NamesakeTurnFails(job, after, n);
  }

  lemma StartNames(job: Job, account: Account)
    ensures WalletsAtStart(job, account).names == ByName(job.platform.text, account.wallets).Keys
  {
  }

  // ---------------------------------------------------------------- categories

  function KeyAt(text: Text, passes: seq<FileCategory>, m: nat): string
    requires m < |passes|
  {
    CategoryKey(text, passes[m].name, passes[m].entryType)
  }

  /** An active category makes its key lead somewhere. */
  lemma {:induction false} ActiveHasKey(text: Text, cs: seq<Category>, i: nat)
    requires i < |cs| && !cs[i].isArchived
    ensures CategoryKey(text, cs[i].name, cs[i].entryType) in KeyMap(text, cs)
    decreases |cs|
  {
    hide Lawful, CategoryKey;
    if i < |cs| - 1 {
      ActiveHasKey(text, cs[..|cs| - 1], i);
    }
  }

  /** File category m makes a new row, and an archived one. */
  ghost predicate MakesArchivedCategory(text: Text, start: CategoryState, passes: seq<FileCategory>, m: nat)
    requires m < |passes|
  {
    passes[m].isArchived && Makes(text, start, passes, m)
  }

  ghost predicate KeptAway(text: Text, start: CategoryState, passes: seq<FileCategory>, n: nat, key: string)
    requires n <= |passes|
  {
    exists m: nat :: m < n && MakesArchivedCategory(text, start, passes, m) && KeyAt(text, passes, m) == key
  }

  lemma KeyMapOfOneMore(text: Text, cs: seq<Category>, c: Category)
    ensures KeyMap(text, cs + [c]) ==
      if c.isArchived then KeyMap(text, cs) else KeyMap(text, cs)[CategoryKey(text, c.name, c.entryType) := c.id]
  {
    hide CategoryKey, Lawful;
    assert (cs + [c])[..|cs|] == cs;
  }

  ghost predicate FoundAt(text: Text, start: CategoryState, passes: seq<FileCategory>, n: nat, s: CategoryState,
                          key: string)
    requires n <= |passes|
  {
    var now := KeyMap(text, s.categories);
    if KeptAway(text, start, passes, n, key) then key in s.byKey && key !in now
    else (key in s.byKey <==> key in now) && (key in now ==> s.byKey[key] == now[key])
  }

  ghost predicate InTheWay(text: Text, cs: seq<Category>, c: FileCategory) {
    CategoryTaken(cs, text.trim(c.name), c.entryType)
  }

  /** The stored rows are found under the keys of the loop, but for the archived ones that were made. */
  ghost predicate Found(text: Text, start: CategoryState, passes: seq<FileCategory>, n: nat, s: CategoryState)
    requires n <= |passes|
  {
    && (forall key :: FoundAt(text, start, passes, n, s, key))
    && (forall m: nat :: m < n && MakesArchivedCategory(text, start, passes, m) ==>
          InTheWay(text, s.categories, passes[m]))
  }

  lemma KeptAwayGrows(text: Text, start: CategoryState, passes: seq<FileCategory>, n: nat, key: string)
    requires n < |passes|
    ensures KeptAway(text, start, passes, n + 1, key) <==>
      KeptAway(text, start, passes, n, key)
      || (MakesArchivedCategory(text, start, passes, n) && KeyAt(text, passes, n) == key)
  {
    hide KeyAt, MakesArchivedCategory, Lawful;
  }

  lemma InTheWayStays(text: Text, cs: seq<Category>, row: Category, c: FileCategory)
    requires InTheWay(text, cs, c)
    ensures InTheWay(text, cs + [row], c)
  {
    hide Lawful;
    var i :| 0 <= i < |cs| && !cs[i].isSystem && cs[i].name == text.trim(c.name) && cs[i].entryType == c.entryType;
    assert (cs + [row])[i] == cs[i];
  }

  /** The turn that makes a category. */
  lemma MakeStep(text: Text, s: CategoryState, c: FileCategory) returns (t: CategoryState, row: Category)
    requires ImportCategory(text, s, c).Ok? && CategoryKey(text, c.name, c.entryType) !in s.byKey
    ensures ImportCategory(text, s, c) == Ok(t)
    ensures t.categories == s.categories + [row]
    ensures t.byKey == s.byKey[CategoryKey(text, c.name, c.entryType) := row.id]
    ensures !row.isSystem && row.isArchived == c.isArchived
    ensures CategoryKey(text, row.name, row.entryType) == CategoryKey(text, c.name, c.entryType)
    ensures InTheWay(text, t.categories, c)
  {
    TrimmedKey(text, c.name);
    hide Lawful, NameKey, Joined;
    t := ImportCategory(text, s, c).value;
    row := t.categories[|s.categories|];
  }

  lemma MakeFinds(text: Text, start: CategoryState, passes: seq<FileCategory>, n: nat, s: CategoryState, key: string)
    requires n < |passes| && Makes(text, start, passes, n)
    requires KeyAt(text, passes, n) !in s.byKey && ImportCategory(text, s, passes[n]).Ok?
    requires FoundAt(text, start, passes, n, s, key)
    requires FoundAt(text, start, passes, n, s, KeyAt(text, passes, n))
    ensures FoundAt(text, start, passes, n + 1, ImportCategory(text, s, passes[n]).value, key)
  {
    KeptAwayGrows(text, start, passes, n, key);
    var t, row := MakeStep(text, s, passes[n]);
    KeyMapOfOneMore(text, s.categories, row);
    hide KeptAway, Makes, Lawful, ImportCategory, CategoryKey, KeyMap, InTheWay;
  }

  lemma KeepFinds(text: Text, start: CategoryState, passes: seq<FileCategory>, n: nat, s: CategoryState, key: string)
    requires n < |passes| && !Makes(text, start, passes, n)
    requires KeyAt(text, passes, n) in s.byKey
    requires FoundAt(text, start, passes, n, s, key)
    ensures ImportCategory(text, s, passes[n]).Ok?
    ensures FoundAt(text, start, passes, n + 1, ImportCategory(text, s, passes[n]).value, key)
  {
    KeptAwayGrows(text, start, passes, n, key);
    hide KeptAway, Makes, Lawful, CategoryKey, KeyMap;
  }

  lemma StepBlocks(text: Text, start: CategoryState, passes: seq<FileCategory>, n: nat, s: CategoryState)
    requires n < |passes| && Found(text, start, passes, n, s)
    requires KeyAt(text, passes, n) !in s.byKey && ImportCategory(text, s, passes[n]).Ok?
    ensures forall m: nat :: m < n + 1 && MakesArchivedCategory(text, start, passes, m) ==>
      InTheWay(text, ImportCategory(text, s, passes[n]).value.categories, passes[m])
  {
    var t, row := MakeStep(text, s, passes[n]);
    hide Lawful, CategoryKey, FoundAt, InTheWay, ImportCategory, MakesArchivedCategory;
    forall m: nat | m < n + 1 && MakesArchivedCategory(text, start, passes, m)
      ensures InTheWay(text, t.categories, passes[m])
    {
      if m < n {
        InTheWayStays(text, s.categories, row, passes[m]);
      }
    }
  }

  lemma MakeStepFinds(text: Text, start: CategoryState, passes: seq<FileCategory>, n: nat, s: CategoryState)
    requires n < |passes| && Makes(text, start, passes, n) && Found(text, start, passes, n, s)
    requires KeyAt(text, passes, n) !in s.byKey && ImportCategory(text, s, passes[n]).Ok?
    ensures Found(text, start, passes, n + 1, ImportCategory(text, s, passes[n]).value)
  {
    hide Makes, Lawful, FoundAt, InTheWay, ImportCategory, KeyAt, MakesArchivedCategory;
    var t, next := ImportCategory(text, s, passes[n]).value, n + 1;
    forall key ensures FoundAt(text, start, passes, next, t, key) {
      MakeFinds(text, start, passes, n, s, key);
    }
    StepBlocks(text, start, passes, n, s);
  }

  lemma KeepStepFinds(text: Text, start: CategoryState, passes: seq<FileCategory>, n: nat, s: CategoryState)
    requires n < |passes| && !Makes(text, start, passes, n) && Found(text, start, passes, n, s)
    requires KeyAt(text, passes, n) in s.byKey && ImportCategory(text, s, passes[n]).Ok?
    ensures Found(text, start, passes, n + 1, ImportCategory(text, s, passes[n]).value)
  {
    KeepsRows(text, s, passes[n]);
    MakesFirst(text, start, passes, n);
    hide Makes, Lawful, FoundAt, InTheWay, ImportCategory, KeyAt, MakesArchivedCategory;
    var t, next := ImportCategory(text, s, passes[n]).value, n + 1;
    forall key ensures FoundAt(text, start, passes, next, t, key) {
      KeepFinds(text, start, passes, n, s, key);
    }
  }

  lemma StepFinds(text: Text, start: CategoryState, passes: seq<FileCategory>, n: nat, s: CategoryState)
    requires n < |passes| && MapsByKey(text, start, passes, n, s) && Found(text, start, passes, n, s)
    requires ImportCategory(text, s, passes[n]).Ok?
    ensures Found(text, start, passes, n + 1, ImportCategory(text, s, passes[n]).value)
  {
    MakesIff(text, start, passes, n, s);
    assert KeyAt(text, passes, n) == CategoryKey(text, passes[n].name, passes[n].entryType);
    hide MapsByKey, Makes, Lawful, CategoryKey, Found, ImportCategory, KeyAt;
    if Makes(text, start, passes, n) {
      MakeStepFinds(text, start, passes, n, s);
    } else {
      KeepStepFinds(text, start, passes, n, s);
    }
  }

  lemma MakesFirst(text: Text, start: CategoryState, passes: seq<FileCategory>, n: nat)
    requires n < |passes| && !Makes(text, start, passes, n)
    ensures !MakesArchivedCategory(text, start, passes, n)
  {
    hide Lawful, CategoryKey, Makes;
  }

  lemma KeepsRows(text: Text, s: CategoryState, c: FileCategory)
    requires CategoryKey(text, c.name, c.entryType) in s.byKey
    ensures ImportCategory(text, s, c).Ok? && ImportCategory(text, s, c).value.categories == s.categories
  {
    hide Lawful, CategoryKey;
  }

  lemma {:induction false} LoopFinds(text: Text, categories: seq<Category>, next: Id, passes: seq<FileCategory>, n: nat)
    requires var start := CategoriesAtStart(text, categories, next);
      n <= |passes| && CategoriesAfter(text, start, passes, n).Ok?
    ensures var start := CategoriesAtStart(text, categories, next);
      Found(text, start, passes, n, CategoriesAfter(text, start, passes, n).value)
    decreases n
  {
    var start := CategoriesAtStart(text, categories, next);
    hide Lawful, MapsByKey, ImportCategory, KeyMap, Makes, CategoryKey;
    if n > 0 {
      LoopFinds(text, categories, next, passes, n - 1);
      LoopMapsByKey(text, start, passes, n - 1);
      hide Found;
      StepFinds(text, start, passes, n - 1, CategoriesAfter(text, start, passes, n - 1).value);
    }
  }

  lemma {:induction false} EarlierCategoriesOk(text: Text, start: CategoryState, passes: seq<FileCategory>, m: nat,
                                               n: nat)
    requires m <= n <= |passes| && CategoriesAfter(text, start, passes, n).Ok?
    ensures CategoriesAfter(text, start, passes, m).Ok?
    ensures forall key :: key in CategoriesAfter(text, start, passes, m).value.byKey ==>
      key in CategoriesAfter(text, start, passes, n).value.byKey
      && CategoriesAfter(text, start, passes, n).value.byKey[key]
         == CategoriesAfter(text, start, passes, m).value.byKey[key]
    decreases n
  {
    hide Lawful, CategoryKey, CategoryTaken;
    if m < n {
      EarlierCategoriesOk(text, start, passes, m, n - 1);
    }
  }

  /** Turn n maps its category to the row with its key. */
  lemma TurnMaps(text: Text, start: CategoryState, passes: seq<FileCategory>, n: nat)
    requires n < |passes|
    requires CategoriesAfter(text, start, passes, n).Ok? && CategoriesAfter(text, start, passes, n + 1).Ok?
    ensures var s := CategoriesAfter(text, start, passes, n).value;
      var t := CategoriesAfter(text, start, passes, n + 1).value;
      KeyAt(text, passes, n) in t.byKey && t.idMap == s.idMap[passes[n].id := t.byKey[KeyAt(text, passes, n)]]
  {
    hide Lawful, CategoryKey, CategoryTaken;
  }

  /** No archived row was made under the key of category n, unless by category n itself or an earlier one. */
  lemma NotKeptAway(text: Text, start: CategoryState, passes: seq<FileCategory>, n: nat)
    requires n < |passes| && forall m: nat :: m <= n ==> !MakesArchivedCategory(text, start, passes, m)
    ensures !KeptAway(text, start, passes, |passes|, KeyAt(text, passes, n))
  {
    hide Lawful, CategoryKey;
  }

  /** The second passes follow the first ones, and find every category by its key. */
  lemma {:induction false} SecondPassesFollow(text: Text, categories: seq<Category>, next: Id, next': Id,
                                              passes: seq<FileCategory>, n: nat)
    requires n <= |passes|
    requires var start := CategoriesAtStart(text, categories, next);
      && CategoriesAfter(text, start, passes, |passes|).Ok?
      && forall m: nat :: m < n ==> !MakesArchivedCategory(text, start, passes, m)
    ensures var start := CategoriesAtStart(text, categories, next);
      && CategoriesAfter(text, start, passes, n).Ok?
      && var start' := CategoriesAtStart(text, CategoriesAfter(text, start, passes, |passes|).value.categories, next');
         CategoriesAfter(text, start', passes, n) ==
         Ok(start'.(idMap := CategoriesAfter(text, start, passes, n).value.idMap))
    decreases n
  {
    hide Lawful, KeyMap, MakesArchivedCategory, KeyAt, KeptAway, CategoryKey, CategoryTaken;
    var start := CategoriesAtStart(text, categories, next);
    var final := CategoriesAfter(text, start, passes, |passes|).value;
    EarlierCategoriesOk(text, start, passes, n, |passes|);
    if n > 0 {
      SecondPassesFollow(text, categories, next, next', passes, n - 1);
      TurnMaps(text, start, passes, n - 1);
      NotKeptAway(text, start, passes, n - 1);
      LoopFinds(text, categories, next, passes, |passes|);
      FoundKey(text, start, passes, final, KeyAt(text, passes, n - 1));
      SecondTurn(text, CategoriesAtStart(text, final.categories, next'), passes, n - 1);
    } else {
      assert CategoriesAfter(text, start, passes, 0) == Ok(start);
    }
  }

  lemma FoundKey(text: Text, start: CategoryState, passes: seq<FileCategory>, s: CategoryState, key: string)
    requires Found(text, start, passes, |passes|, s) && key in s.byKey
    requires !KeptAway(text, start, passes, |passes|, key)
    ensures key in KeyMap(text, s.categories) && KeyMap(text, s.categories)[key] == s.byKey[key]
  {
    hide Lawful, KeyMap, KeptAway;
    assert FoundAt(text, start, passes, |passes|, s, key);
  }

  /** A turn that finds its key changes the id map only. */
  lemma SecondTurn(text: Text, start: CategoryState, passes: seq<FileCategory>, n: nat)
    requires n < |passes| && CategoriesAfter(text, start, passes, n).Ok?
    requires KeyAt(text, passes, n) in CategoriesAfter(text, start, passes, n).value.byKey
    ensures var s := CategoriesAfter(text, start, passes, n).value;
      CategoriesAfter(text, start, passes, n + 1) ==
      Ok(s.(idMap := s.idMap[passes[n].id := s.byKey[KeyAt(text, passes, n)]]))
  {
    hide Lawful, CategoryKey;
  }

  /** The second passes fail at the first file category that made an archived row. */
  lemma SecondPassesFail(text: Text, categories: seq<Category>, next: Id, next': Id, passes: seq<FileCategory>, n: nat)
    requires n < |passes|
    requires var start := CategoriesAtStart(text, categories, next);
      && CategoriesAfter(text, start, passes, |passes|).Ok?
      && MakesArchivedCategory(text, start, passes, n)
      && forall m: nat :: m < n ==> !MakesArchivedCategory(text, start, passes, m)
    ensures var start := CategoriesAtStart(text, categories, next);
      var start' := CategoriesAtStart(text, CategoriesAfter(text, start, passes, |passes|).value.categories, next');
      CategoriesAfter(text, start', passes, |passes|) == Err(UniqueViolation)
  {
    hide Lawful, KeyMap, CategoryKey, Makes, CategoryTaken;
    var start := CategoriesAtStart(text, categories, next);
    var final := CategoriesAfter(text, start, passes, |passes|).value;
    var start' := CategoriesAtStart(text, final.categories, next');
    SecondPassesFollow(text, categories, next, next', passes, n);
    LoopFinds(text, categories, next, passes, |passes|);
    assert KeptAway(text, start, passes, |passes|, KeyAt(text, passes, n));
    assert FoundAt(text, start, passes, |passes|, final, KeyAt(text, passes, n));
    assert InTheWay(text, final.categories, passes[n]);
    assert CategoriesAfter(text, start', passes, n + 1) == Err(UniqueViolation);
    CategoryErrorStays(text, start', passes, n + 1, |passes|);
  }

  // ---------------------------------------------------------------- transactions and transfers

  /** The second transfer loop skips every mapped transfer. */
  lemma TransfersAgain(platform: Platform, wallets: map<string, Id>, ts: seq<FileTransfer>, rows: seq<Transfer>)
    requires TransferLoop(platform, wallets, ts, rows).Some?
    ensures var t := TransferLoop(platform, wallets, ts, rows).value;
      && TransferLoop(platform, wallets, ts, t.rows).Some?
      && var again := TransferLoop(platform, wallets, ts, t.rows).value;
         again.rows == t.rows && again.imported == 0 && again.skipped == CountTransfers(wallets, ts)
  {
    hide TransferFileKeys, TransferKeysIn, CountTransfers, TransferLoop, TransferIsMapped, TransferKeyOf;
    var t := TransferLoop(platform, wallets, ts, rows).value;
    TransferAccounts(platform, wallets, ts, rows);
    TransferAccounts(platform, wallets, ts, t.rows);
    var again := TransferLoop(platform, wallets, ts, t.rows).value;
    var before, file := TransferKeysIn(rows), TransferFileKeys(platform, wallets, ts);
    assert file - (before + file) == {};
    assert again.rows == t.rows;
  }

  // ---------------------------------------------------------------- the whole import

  /** No archived wallet and no archived category is made: each that is archived in the file has an active namesake. */
  ghost predicate MakesNothingArchived(job: Job, account: Account) {
    var start := CategoriesAtStart(job.platform.text, account.categories, account.next);
    && (forall m: nat :: m < |job.file.wallets| ==> !MakesArchivedWallet(job, account, m))
    && (forall m: nat :: m < |Passes(job.file)| ==>
          !MakesArchivedCategory(job.platform.text, start, Passes(job.file), m))
  }

  lemma {:induction false} FirstArchivedWallet(job: Job, account: Account, n: nat) returns (m: nat)
    requires n < |job.file.wallets| && MakesArchivedWallet(job, account, n)
    ensures m < |job.file.wallets| && MakesArchivedWallet(job, account, m)
    ensures forall k: nat :: k < m ==> !MakesArchivedWallet(job, account, k)
    decreases n
  {
    m := n;
    if k: nat :| k < n && MakesArchivedWallet(job, account, k) {
      m := FirstArchivedWallet(job, account, k);
    }
  }

  lemma {:induction false} FirstArchivedCategory(text: Text, start: CategoryState, passes: seq<FileCategory>, n: nat)
    returns (m: nat)
    requires n < |passes| && MakesArchivedCategory(text, start, passes, n)
    ensures m < |passes| && MakesArchivedCategory(text, start, passes, m)
    ensures forall k: nat :: k < m ==> !MakesArchivedCategory(text, start, passes, k)
    decreases n
  {
    m := n;
    if k: nat :| k < n && MakesArchivedCategory(text, start, passes, k) {
      m := FirstArchivedCategory(text, start, passes, k);
    }
  }

  lemma CounterIsIrrelevant(text: Text, categories: seq<Category>, next: Id, next': Id, passes: seq<FileCategory>,
                            m: nat)
    requires m < |passes|
    ensures MakesArchivedCategory(text, CategoriesAtStart(text, categories, next), passes, m)
       <==> MakesArchivedCategory(text, CategoriesAtStart(text, categories, next'), passes, m)
  {
  }

  lemma SecondWalletPhase(job: Job, account: Account, after: Account)
    requires job.options.walletResolutions == [] && WalletNamesDiffer(job)
    requires WalletsAfter(job, account, |job.file.wallets|).Ok?
    requires after.wallets == WalletsAfter(job, account, |job.file.wallets|).value.wallets
    ensures if forall m: nat :: m < |job.file.wallets| ==> !MakesArchivedWallet(job, account, m)
      then WalletsAfter(job, after, |job.file.wallets|) ==
           Ok(WalletsAtStart(job, after).(idMap := WalletsAfter(job, account, |job.file.wallets|).value.idMap))
      else WalletsAfter(job, after, |job.file.wallets|) == Err(UniqueViolation)
  {
    hide WalletsAfter, WalletsAtStart, MakesArchivedWallet, WalletNamesDiffer, Lawful;
    if n: nat :| n < |job.file.wallets| && MakesArchivedWallet(job, account, n) {
      var m := FirstArchivedWallet(job, account, n);
      SecondLoopFails(job, account, after, m);
    } else {
      SecondLoopFollows(job, account, after, |job.file.wallets|);
    }
  }

  lemma SecondCategoryPhase(text: Text, categories: seq<Category>, next: Id, next': Id, passes: seq<FileCategory>)
    requires CategoriesAfter(text, CategoriesAtStart(text, categories, next), passes, |passes|).Ok?
    ensures var start := CategoriesAtStart(text, categories, next);
      var c := CategoriesAfter(text, start, passes, |passes|).value;
      var start' := CategoriesAtStart(text, c.categories, next');
      if forall m: nat :: m < |passes| ==> !MakesArchivedCategory(text, start, passes, m)
      then CategoriesAfter(text, start', passes, |passes|) == Ok(start'.(idMap := c.idMap))
      else CategoriesAfter(text, start', passes, |passes|) == Err(UniqueViolation)
  {
    hide CategoriesAfter, CategoriesAtStart, MakesArchivedCategory, Lawful;
    var start := CategoriesAtStart(text, categories, next);
    if n: nat :| n < |passes| && MakesArchivedCategory(text, start, passes, n) {
      var m := FirstArchivedCategory(text, start, passes, n);
      SecondPassesFail(text, categories, next, next', passes, m);
    } else {
      SecondPassesFollow(text, categories, next, next', passes, |passes|);
    }
  }

  /** The phases of an import that goes through. */
  lemma Phases(job: Job, account: Account)
    returns (w: WalletState, c: CategoryState, t: Tally<Transaction>, f: Tally<Transfer>)
    requires Import(job, account).Ok?
    ensures WalletsAfter(job, account, |job.file.wallets|) == Ok(w)
    ensures CategoryPhase(job, account, w) == Ok(c)
    ensures TransactionLoop(job.platform, account.userId, w.idMap, c.idMap, job.file.transactions, account.transactions)
         == Some(t)
    ensures TransferLoop(job.platform, w.idMap, job.file.transfers, account.transfers) == Some(f)
    ensures Import(job, account).value.account ==
      Account(account.userId, w.wallets, c.categories, t.rows, f.rows, c.next)
  {
    hide WalletsAfter, CategoryPhase, TransactionLoop, TransferLoop, Lawful;
    w := WalletsAfter(job, account, |job.file.wallets|).value;
    c := CategoryPhase(job, account, w).value;
    t := TransactionLoop(job.platform, account.userId, w.idMap, c.idMap, job.file.transactions,
                         account.transactions).value;
    f := TransferLoop(job.platform, w.idMap, job.file.transfers, account.transfers).value;
  }
}
