/** What the wallet loop of the import does to balances and names. */
module ImportWalletProofs {
  import FiniteSets
  import opened Prelude
  import opened TextRules
  import opened BackupImport

  ghost predicate WalletsFit(ws: seq<Wallet>, next: Id) {
    && (forall i :: 0 <= i < |ws| ==> ws[i].id < next)
    && (forall i, j :: 0 <= i < j < |ws| ==> ws[i].id != ws[j].id)
  }

  // ---------------------------------------------------------------- the name search

  /** The search ends after at most as many tries as there are names, at the first free number. */
  lemma {:induction false} FirstFreeIsFirst(text: Text, names: set<string>, desired: string, k: nat)
    requires k >= 1
    ensures var f := FirstFree(text, names, desired, k);
      && k <= f <= k + |names|
      && text.lower(desired + Suffix(f)) !in names
      && (forall j: nat :: k <= j < f ==> text.lower(desired + Suffix(j)) in names)
    decreases |names - Tried(text, desired, k)|
  {
    FirstFreeSoon(text, names, desired, k);
    FiniteSets.SubsetBound(names - Tried(text, desired, k), names);
  }

  lemma {:induction false} FirstFreeSoon(text: Text, names: set<string>, desired: string, k: nat)
    requires k >= 1
    ensures var f := FirstFree(text, names, desired, k);
      && k <= f <= k + |names - Tried(text, desired, k)|
      && text.lower(desired + Suffix(f)) !in names
      && (forall j: nat :: k <= j < f ==> text.lower(desired + Suffix(j)) in names)
    decreases |names - Tried(text, desired, k)|
  {
    hide Suffix, Tried, Lawful;
    if text.lower(desired + Suffix(k)) in names {
      TryingEnds(text, names, desired, k);
      FirstFreeSoon(text, names, desired, k + 1);
    }
  }

  lemma FreeNameIsFree(text: Text, names: set<string>, desired: string)
    ensures text.lower(FreeName(text, names, desired)) !in names
  {
    if text.lower(desired) in names {
      FirstFreeIsFirst(text, names, desired, 1);
    }
  }

  // ---------------------------------------------------------------- the loaded balances

  ghost function ActiveIds(ws: seq<Wallet>): set<Id> {
    set i | 0 <= i < |ws| && Loaded(ws[i]) :: ws[i].id
  }

  lemma ActiveIdsGrow(ws: seq<Wallet>)
    requires ws != []
    ensures ActiveIds(ws) == ActiveIds(ws[..|ws| - 1]) + if Loaded(ws[|ws| - 1]) then {ws[|ws| - 1].id} else {}
  {
    var before := ws[..|ws| - 1];
    forall id ensures id in ActiveIds(ws) <==>
      id in ActiveIds(before) || (Loaded(ws[|ws| - 1]) && id == ws[|ws| - 1].id)
    {
      if i :| 0 <= i < |ws| && Loaded(ws[i]) && ws[i].id == id {
        assert i < |before| ==> before[i] == ws[i];
      }
      if i :| 0 <= i < |before| && Loaded(before[i]) && before[i].id == id {
        assert ws[i] == before[i];
      }
    }
  }

  /** The loaded map holds the active wallets with their balances. */
  lemma {:induction false} BalanceMapIs(ws: seq<Wallet>, next: Id)
    requires WalletsFit(ws, next)
    ensures BalanceMap(ActiveWallets(ws)).Keys == ActiveIds(ws)
    ensures forall i :: 0 <= i < |ws| && Loaded(ws[i]) ==>
      ws[i].id in BalanceMap(ActiveWallets(ws)) && BalanceMap(ActiveWallets(ws))[ws[i].id] == ws[i].balance
    decreases |ws|
  {
    if ws != [] {
      var before, last := ws[..|ws| - 1], ws[|ws| - 1];
      BalanceMapIs(before, next);
      ActiveIdsGrow(ws);
      if Loaded(last) {
        BalanceMapStep(ActiveWallets(before), last);
      } else {
        assert ActiveWallets(ws) == ActiveWallets(before);
      }
      assert forall i :: 0 <= i < |before| ==> before[i] == ws[i];
    } else {
      assert ActiveIds(ws) == {};
    }
  }

  lemma BalanceMapStep(ws: seq<Wallet>, w: Wallet)
    ensures BalanceMap(ws + [w]) == BalanceMap(ws)[w.id := w.balance]
  {
    assert (ws + [w])[..|ws|] == ws;
  }

  // ---------------------------------------------------------------- the invariant of the loop

  ghost predicate Tracks(account: Account, s: WalletState) {
    var n := |account.wallets|;
    && |s.wallets| == n + s.created
    && s.next == account.next + s.created
    && (forall i :: 0 <= i < n ==> s.wallets[i] == account.wallets[i].(balance := s.wallets[i].balance))
    && (forall i :: n <= i < |s.wallets| ==> s.wallets[i].id == account.next + (i - n))
    && (forall id: Id :: id in s.loaded <==> id in ActiveIds(account.wallets) || account.next <= id < s.next)
    && (forall i :: 0 <= i < |s.wallets| && s.wallets[i].id in s.loaded ==>
          s.wallets[i].balance == s.loaded[s.wallets[i].id])
  }

  lemma TrackedIdsDiffer(account: Account, s: WalletState)
    requires WalletsFit(account.wallets, account.next) && Tracks(account, s)
    ensures WalletsFit(s.wallets, s.next)
  {
    var n := |account.wallets|;
    forall i, j | 0 <= i < j < |s.wallets| ensures s.wallets[i].id != s.wallets[j].id && s.wallets[i].id < s.next {
      assert i < n ==> s.wallets[i].id == account.wallets[i].id < account.next;
      assert j < n ==> s.wallets[j].id == account.wallets[j].id;
    }
    forall i | 0 <= i < |s.wallets| ensures s.wallets[i].id < s.next {
      assert i < n ==> s.wallets[i].id == account.wallets[i].id < account.next;
    }
  }

  lemma TracksAtStart(job: Job, account: Account)
    requires WalletsFit(account.wallets, account.next)
    ensures Tracks(account, WalletsAtStart(job, account))
  {
    BalanceMapIs(account.wallets, account.next);
    hide ActiveWallets, BalanceMap, NameMap, Lawful;
    var ws := account.wallets;
    forall i | 0 <= i < |ws| && ws[i].id in ActiveIds(ws) ensures Loaded(ws[i]) {
      var j :| 0 <= j < |ws| && Loaded(ws[j]) && ws[j].id == ws[i].id;
      assert i == j;
    }
  }

  lemma MergeTracks(account: Account, mode: BalanceMode, s: WalletState, w: FileWallet, target: Id)
    requires Tracks(account, s) && target in s.loaded
    ensures Tracks(account, MergeWallet(mode, s, w, target))
  {
  }

  lemma CreateTracks(text: Text, account: Account, hadWallets: bool, s: WalletState, w: FileWallet, desired: string)
    requires WalletsFit(account.wallets, account.next) && Tracks(account, s)
    requires CreateWallet(text, hadWallets, s, w, desired).Ok?
    ensures Tracks(account, CreateWallet(text, hadWallets, s, w, desired).value)
  {
    hide FreeName, NameTaken, Lawful;
    TrackedIdsDiffer(account, s);
  }

  /** One turn of the loop keeps the cached balances equal to the stored ones. */
  lemma StepTracks(job: Job, account: Account, active: seq<Wallet>, s: WalletState, w: FileWallet)
    requires WalletsFit(account.wallets, account.next) && Tracks(account, s)
    requires ImportWallet(job, active, s, w).Ok?
    ensures Tracks(account, ImportWallet(job, active, s, w).value)
  {
    hide Tracks, WalletsFit, MergeWallet, CreateWallet, ImplicitTarget, NameMap, Find, DesiredName, Lawful;
    var text := job.platform.text;
    var r := Find(job.options.walletResolutions, w.id);
    var explicit := ExplicitTarget(r, s.loaded.Keys);
    var implicit := ImplicitTarget(text, r, NameMap(text, active), w.name);
    if explicit.Some? {
      MergeTracks(account, job.options.balanceMode, s, w, explicit.value);
    } else if implicit.Some? {
      MapTracks(account, s, s.idMap[w.id := implicit.value]);
    } else {
      CreateTracks(text, account, active != [], s, w, DesiredName(text, r, w));
    }
  }

  lemma MapTracks(account: Account, s: WalletState, idMap: map<string, Id>)
    requires Tracks(account, s)
    ensures Tracks(account, s.(idMap := idMap))
  {
  }

  lemma {:induction false} LoopTracks(job: Job, account: Account, n: nat)
    requires WalletsFit(account.wallets, account.next)
    requires n <= |job.file.wallets| && WalletsAfter(job, account, n).Ok?
    ensures Tracks(account, WalletsAfter(job, account, n).value)
    decreases n
  {
    hide Tracks, WalletsFit, ImportWallet, WalletsAtStart, ActiveWallets, Lawful;
    if n == 0 {
      TracksAtStart(job, account);
    } else {
      LoopTracks(job, account, n - 1);
      StepTracks(job, account, ActiveWallets(account.wallets), WalletsAfter(job, account, n - 1).value,
                 job.file.wallets[n - 1]);
    }
  }

  // ---------------------------------------------------------------- balances

  /** What the first n wallets of the file add to wallet id: only explicit merges, and only when accumulating. */
  ghost function Merged(job: Job, n: nat, id: Id): int
    requires n <= |job.file.wallets|
  {
    if n == 0 then 0
    else
      var w := job.file.wallets[n - 1];
      Merged(job, n - 1, id)
      + if job.options.balanceMode == ACCUMULATE && Requested(Find(job.options.walletResolutions, w.id)) == Some(id)
        then w.balance else 0
  }

  /** Every wallet that was there ends at its old balance and what was merged into it. */
  ghost predicate OldBalancesAt(job: Job, account: Account, n: nat, s: WalletState)
    requires n <= |job.file.wallets|
  {
    && |s.wallets| >= |account.wallets|
    && forall i :: 0 <= i < |account.wallets| ==>
         s.wallets[i].balance ==
         account.wallets[i].balance + if Loaded(account.wallets[i]) then Merged(job, n, account.wallets[i].id) else 0
  }

  lemma ActiveIdIff(ws: seq<Wallet>, next: Id, i: nat)
    requires WalletsFit(ws, next) && i < |ws|
    ensures ws[i].id in ActiveIds(ws) <==> Loaded(ws[i])
  {
    if ws[i].id in ActiveIds(ws) {
      var j :| 0 <= j < |ws| && Loaded(ws[j]) && ws[j].id == ws[i].id;
      assert i == j;
    }
  }

  lemma StepBalance(job: Job, account: Account, n: nat, s: WalletState, i: nat)
    requires WalletsFit(account.wallets, account.next) && Tracks(account, s)
    requires 0 < n <= |job.file.wallets| && i < |account.wallets|
    requires ImportWallet(job, ActiveWallets(account.wallets), s, job.file.wallets[n - 1]).Ok?
    ensures var t := ImportWallet(job, ActiveWallets(account.wallets), s, job.file.wallets[n - 1]).value;
      |t.wallets| >= |account.wallets| && t.wallets[i].balance - s.wallets[i].balance ==
      if Loaded(account.wallets[i])
      then Merged(job, n, account.wallets[i].id) - Merged(job, n - 1, account.wallets[i].id) else 0
  {
    hide ActiveWallets, ImplicitTarget, NameMap, Find, DesiredName, Lawful, FreeName, NameTaken, Loaded;
    ActiveIdIff(account.wallets, account.next, i);
    assert account.wallets[i].id < account.next;
    assert s.wallets[i].id == account.wallets[i].id;
  }

  lemma {:induction false} OldBalances(job: Job, account: Account, n: nat)
    requires WalletsFit(account.wallets, account.next)
    requires n <= |job.file.wallets| && WalletsAfter(job, account, n).Ok?
    ensures OldBalancesAt(job, account, n, WalletsAfter(job, account, n).value)
    decreases n
  {
    hide WalletsFit, ImportWallet, ActiveWallets, BalanceMap, NameMap, Lawful, Merged;
    if n == 0 {
      NothingMerged(job, account);
    } else {
      OldBalances(job, account, n - 1);
      LoopTracks(job, account, n - 1);
      var s, t := WalletsAfter(job, account, n - 1).value, WalletsAfter(job, account, n).value;
      hide Tracks, WalletsAfter;
      forall i: nat | i < |account.wallets|
        ensures |t.wallets| >= |account.wallets| && t.wallets[i].balance - s.wallets[i].balance ==
                  if Loaded(account.wallets[i])
                  then Merged(job, n, account.wallets[i].id) - Merged(job, n - 1, account.wallets[i].id) else 0
      {
        StepBalance(job, account, n, s, i);
      }
      LoopTracks(job, account, n);
      LongerBy(account, t);
    }
  }

  lemma LongerBy(account: Account, s: WalletState)
    requires Tracks(account, s)
    ensures |s.wallets| >= |account.wallets|
  {
  }

  lemma NothingMerged(job: Job, account: Account)
    ensures OldBalancesAt(job, account, 0, WalletsAtStart(job, account))
  {
    hide ActiveWallets, BalanceMap, NameMap, Lawful;
  }

  // ---------------------------------------------------------------- the wallets created

  /** Every merge that is asked for names a wallet of before the import. */
  ghost predicate Offered(job: Job, account: Account) {
    forall r :: r in job.options.walletResolutions && r.targetWalletId.Some? ==> r.targetWalletId.value < account.next
  }

  lemma {:induction false} FindIn(rs: seq<Resolution>, id: string)
    ensures Find(rs, id).Some? ==> Find(rs, id).value in rs
    decreases |rs|
  {
    if rs != [] && rs[0].oldWalletId != id {
      FindIn(rs[1..], id);
      assert forall x :: x in rs[1..] ==> x in rs;
    }
  }

  /** A file wallet makes a new wallet unless it is merged, by request or by name. */
  ghost predicate Creates(job: Job, account: Account, w: FileWallet) {
    var r := Find(job.options.walletResolutions, w.id);
    && ExplicitTarget(r, ActiveIds(account.wallets)).None?
    && ImplicitTarget(job.platform.text, r, NameMap(job.platform.text, ActiveWallets(account.wallets)), w.name).None?
  }

  ghost function Creators(job: Job, account: Account, n: nat): seq<FileWallet>
    requires n <= |job.file.wallets|
  {
    if n == 0 then []
    else
      Creators(job, account, n - 1)
      + if Creates(job, account, job.file.wallets[n - 1]) then [job.file.wallets[n - 1]] else []
  }

  /** The row made from file wallet w, but for its name. */
  ghost predicate MadeFrom(row: Wallet, id: Id, w: FileWallet, first: bool) {
    row == Wallet(id, row.name, w.balance, true, first || w.isDefault, w.isArchived)
  }

  ghost predicate CreatedAt(job: Job, account: Account, n: nat, s: WalletState)
    requires n <= |job.file.wallets|
  {
    var had, made := |account.wallets|, Creators(job, account, n);
    && s.created == |made| && |s.wallets| == had + |made|
    && forall k :: 0 <= k < |made| ==>
         MadeFrom(s.wallets[had + k], account.next + k, made[k], ActiveWallets(account.wallets) == [] && k == 0)
  }

  lemma StepTarget(job: Job, account: Account, s: WalletState, w: FileWallet)
    requires Tracks(account, s) && Offered(job, account)
    ensures var r := Find(job.options.walletResolutions, w.id);
      ExplicitTarget(r, s.loaded.Keys) == ExplicitTarget(r, ActiveIds(account.wallets))
  {
    FindIn(job.options.walletResolutions, w.id);
  }

  lemma StepCreated(job: Job, account: Account, n: nat, s: WalletState)
    requires WalletsFit(account.wallets, account.next) && Offered(job, account)
    requires Tracks(account, s)
    requires 0 < n <= |job.file.wallets| && CreatedAt(job, account, n - 1, s)
    requires ImportWallet(job, ActiveWallets(account.wallets), s, job.file.wallets[n - 1]).Ok?
    ensures CreatedAt(job, account, n,
                      ImportWallet(job, ActiveWallets(account.wallets), s, job.file.wallets[n - 1]).value)
  {
    hide ActiveWallets, NameMap, Find, DesiredName, Lawful, FreeName, NameTaken, Loaded, ActiveIds, ImplicitTarget,
      Offered;
    var w := job.file.wallets[n - 1];
    StepTarget(job, account, s, w);
    var r := Find(job.options.walletResolutions, w.id);
    var explicit := ExplicitTarget(r, ActiveIds(account.wallets));
    if explicit.Some? {
      assert Creators(job, account, n) == Creators(job, account, n - 1);
      OldIsBelow(account.wallets, account.next, explicit.value);
    }
  }

  lemma OldIsBelow(ws: seq<Wallet>, next: Id, id: Id)
    requires WalletsFit(ws, next) && id in ActiveIds(ws)
    ensures id < next
  {
  }

  /** The rows made are those of the file wallets that are not merged, in their order and with their balances. */
  lemma {:induction false} CreatedRows(job: Job, account: Account, n: nat)
    requires WalletsFit(account.wallets, account.next) && Offered(job, account)
    requires n <= |job.file.wallets| && WalletsAfter(job, account, n).Ok?
    ensures CreatedAt(job, account, n, WalletsAfter(job, account, n).value)
    decreases n
  {
    hide WalletsFit, ImportWallet, ActiveWallets, BalanceMap, NameMap, Lawful, Tracks, Offered;
    if n > 0 {
      CreatedRows(job, account, n - 1);
      LoopTracks(job, account, n - 1);
      hide CreatedAt;
      StepCreated(job, account, n, WalletsAfter(job, account, n - 1).value);
    }
  }

  // ---------------------------------------------------------------- the total

  function Total(ws: seq<Wallet>): int {
    if ws == [] then 0 else Total(ws[..|ws| - 1]) + ws[|ws| - 1].balance
  }

  lemma {:induction false} SetBalanceTotal(ws: seq<Wallet>, next: Id, i: nat, balance: int)
    requires WalletsFit(ws, next) && i < |ws|
    ensures Total(SetBalance(ws, ws[i].id, balance)) == Total(ws) - ws[i].balance + balance
    decreases |ws|
  {
    var before, last := ws[..|ws| - 1], ws[|ws| - 1];
    var after := SetBalance(ws, ws[i].id, balance);
    assert after[..|ws| - 1] == SetBalance(before, ws[i].id, balance);
    if i < |before| {
      assert before[i] == ws[i];
      SetBalanceTotal(before, next, i, balance);
    } else {
      assert SetBalance(before, last.id, balance) == before;
    }
  }

  lemma TotalOfOneMore(ws: seq<Wallet>, w: Wallet)
    ensures Total(ws + [w]) == Total(ws) + w.balance
  {
    assert (ws + [w])[..|ws|] == ws;
  }

  /** File wallet w brings its balance along. */
  ghost predicate Adds(job: Job, account: Account, w: FileWallet) {
    var r := Find(job.options.walletResolutions, w.id);
    && ImplicitTarget(job.platform.text, r, NameMap(job.platform.text, ActiveWallets(account.wallets)), w.name).None?
    && (job.options.balanceMode == ACCUMULATE || Creates(job, account, w))
  }

  ghost function Added(job: Job, account: Account, n: nat): int
    requires n <= |job.file.wallets|
  {
    if n == 0 then 0
    else
      Added(job, account, n - 1)
      + if Adds(job, account, job.file.wallets[n - 1]) then job.file.wallets[n - 1].balance else 0
  }

  lemma LoadedIsRow(account: Account, s: WalletState, id: Id) returns (i: nat)
    requires Tracks(account, s) && id in s.loaded
    ensures i < |s.wallets| && s.wallets[i].id == id && s.wallets[i].balance == s.loaded[id]
  {
    if id in ActiveIds(account.wallets) {
      i :| 0 <= i < |account.wallets| && Loaded(account.wallets[i]) && account.wallets[i].id == id;
    } else {
      i := |account.wallets| + (id - account.next);
    }
  }

  lemma MergeTotal(account: Account, mode: BalanceMode, s: WalletState, w: FileWallet, target: Id)
    requires WalletsFit(account.wallets, account.next) && Tracks(account, s) && target in s.loaded
    ensures Total(MergeWallet(mode, s, w, target).wallets) ==
      Total(s.wallets) + if mode == ACCUMULATE then w.balance else 0
  {
    hide SetBalance, Total;
    TrackedIdsDiffer(account, s);
    var i := LoadedIsRow(account, s, target);
    SetBalanceTotal(s.wallets, s.next, i, s.loaded[target] + w.balance);
  }

  lemma StepTotal(job: Job, account: Account, s: WalletState, w: FileWallet)
    requires WalletsFit(account.wallets, account.next) && Tracks(account, s)
    requires job.options.balanceMode == ACCUMULATE || Offered(job, account)
    requires ImportWallet(job, ActiveWallets(account.wallets), s, w).Ok?
    ensures Total(ImportWallet(job, ActiveWallets(account.wallets), s, w).value.wallets) ==
      Total(s.wallets) + if Adds(job, account, w) then w.balance else 0
  {
    hide ActiveWallets, NameMap, Find, DesiredName, Lawful, FreeName, NameTaken, Total, MergeWallet, Tracks, Offered,
      ActiveIds, WalletsFit;
    var text := job.platform.text;
    var r := Find(job.options.walletResolutions, w.id);
    var explicit := ExplicitTarget(r, s.loaded.Keys);
    if Offered(job, account) {
      StepTarget(job, account, s, w);
    }
    if explicit.Some? {
      MergeTotal(account, job.options.balanceMode, s, w, explicit.value);
    } else if ImplicitTarget(text, r, NameMap(text, ActiveWallets(account.wallets)), w.name).None? {
      var t := CreateWallet(text, ActiveWallets(account.wallets) != [], s, w, DesiredName(text, r, w)).value;
      TotalOfOneMore(s.wallets, t.wallets[|s.wallets|]);
    }
  }

  /** Money is neither made nor lost: the total grows by the balances that are brought along. */
  lemma {:induction false} TotalConserved(job: Job, account: Account, n: nat)
    requires WalletsFit(account.wallets, account.next)
    requires job.options.balanceMode == ACCUMULATE || Offered(job, account)
    requires n <= |job.file.wallets| && WalletsAfter(job, account, n).Ok?
    ensures Total(WalletsAfter(job, account, n).value.wallets) == Total(account.wallets) + Added(job, account, n)
    decreases n
  {
    hide WalletsFit, ImportWallet, ActiveWallets, BalanceMap, NameMap, Lawful, Tracks, Offered, Total, Adds;
    if n > 0 {
      TotalConserved(job, account, n - 1);
      LoopTracks(job, account, n - 1);
      StepTotal(job, account, WalletsAfter(job, account, n - 1).value, job.file.wallets[n - 1]);
    }
  }

  // ---------------------------------------------------------------- names

  /** Lower-case names of new wallets differ from the loaded names and from one another. */
  ghost predicate NamesDiffer(text: Text, account: Account, s: WalletState) {
    var n, taken := |account.wallets|, NameMap(text, ActiveWallets(account.wallets)).Keys;
    && taken <= s.names && |s.wallets| >= n
    && (forall k :: n <= k < |s.wallets| ==> text.lower(s.wallets[k].name) in s.names - taken)
    && (forall j, k :: n <= j < k < |s.wallets| ==> text.lower(s.wallets[j].name) != text.lower(s.wallets[k].name))
  }

  lemma CreateNames(text: Text, account: Account, hadWallets: bool, s: WalletState, w: FileWallet, desired: string)
    requires NamesDiffer(text, account, s) && CreateWallet(text, hadWallets, s, w, desired).Ok?
    ensures NamesDiffer(text, account, CreateWallet(text, hadWallets, s, w, desired).value)
  {
    FreeNameIsFree(text, s.names, desired);
    hide FreeName, NameTaken, Lawful, NameMap, ActiveWallets;
  }

  lemma MergeNames(text: Text, account: Account, mode: BalanceMode, s: WalletState, w: FileWallet, target: Id)
    requires NamesDiffer(text, account, s) && target in s.loaded
    ensures NamesDiffer(text, account, MergeWallet(mode, s, w, target))
  {
    hide NameMap, ActiveWallets, Lawful;
    var t := MergeWallet(mode, s, w, target);
    assert forall k :: 0 <= k < |s.wallets| ==> t.wallets[k].name == s.wallets[k].name;
  }

  lemma StepNames(job: Job, account: Account, s: WalletState, w: FileWallet)
    requires NamesDiffer(job.platform.text, account, s)
    requires ImportWallet(job, ActiveWallets(account.wallets), s, w).Ok?
    ensures NamesDiffer(job.platform.text, account, ImportWallet(job, ActiveWallets(account.wallets), s, w).value)
  {
    var text := job.platform.text;
    var r := Find(job.options.walletResolutions, w.id);
    var explicit := ExplicitTarget(r, s.loaded.Keys);
    var implicit := ImplicitTarget(text, r, NameMap(text, ActiveWallets(account.wallets)), w.name);
    if explicit.Some? {
      MergeNames(text, account, job.options.balanceMode, s, w, explicit.value);
    } else if implicit.None? {
      CreateNames(text, account, ActiveWallets(account.wallets) != [], s, w, DesiredName(text, r, w));
    }
    hide NameMap, ActiveWallets, Lawful, FreeName, NameTaken, MergeWallet, CreateWallet, Find, DesiredName;
  }

  lemma {:induction false} CreatedNames(job: Job, account: Account, n: nat)
    requires n <= |job.file.wallets| && WalletsAfter(job, account, n).Ok?
    ensures NamesDiffer(job.platform.text, account, WalletsAfter(job, account, n).value)
    decreases n
  {
    hide ImportWallet, ActiveWallets, BalanceMap, NameMap, Lawful;
    if n > 0 {
      CreatedNames(job, account, n - 1);
      hide NamesDiffer;
      StepNames(job, account, WalletsAfter(job, account, n - 1).value, job.file.wallets[n - 1]);
    }
  }
}
