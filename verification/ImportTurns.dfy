/** One turn of the wallet loop and one of the category loops of the import, column by column. */
module ImportTurns {
  import opened Prelude
  import opened TextRules
  import opened BackupImport
  import opened ImportWalletProofs
  import opened ImportRowProofs

  // ---------------------------------------------------------------- names

  /** Two names are the same but for case and white space around them. */
  predicate SameName(text: TextFunctions, a: string, b: string) {
    text.trim(text.lower(a)) == text.trim(text.lower(b))
  }

  predicate IsActive(w: Wallet) {
    !w.isArchived && w.isStandard
  }

  /** An active standard wallet of that name. */
  predicate Bears(text: TextFunctions, w: Wallet, name: string) {
    IsActive(w) && SameName(text, w.name, name)
  }

  /** Wallet i is the last one to bear the name. */
  ghost predicate IsLast(text: TextFunctions, ws: seq<Wallet>, name: string, i: nat) {
    i < |ws| && Bears(text, ws[i], name) && forall j :: i < j < |ws| ==> !Bears(text, ws[j], name)
  }

  /** A name leads to the last wallet that bears it, if there is one. */
  lemma {:induction false} NameLeads(text: Text, ws: seq<Wallet>, name: string) returns (i: nat)
    ensures var (byName, key) := (NameMap(text, ActiveWallets(ws)), NameKey(text, name));
      if key in byName then IsLast(text, ws, name, i) && byName[key] == ws[i].id
      else forall j :: 0 <= j < |ws| ==> !Bears(text, ws[j], name)
    decreases |ws|
  {
    i := 0;
    if ws != [] {
      hide Lawful, NameKey, Bears, ActiveWallets, NameMap, Loaded, IsLast;
      var before, w := ws[..|ws| - 1], ws[|ws| - 1];
      i := NameLeads(text, before, name);
      NameMapStep(text, ws);
      BearsIff(text, w, name);
      LastOfMore(text, ws, name, i);
      i := if Bears(text, w, name) then |ws| - 1 else i;
    }
  }

  lemma LastOfMore(text: TextFunctions, ws: seq<Wallet>, name: string, i: nat)
    requires ws != []
    ensures var before := ws[..|ws| - 1];
      if Bears(text, ws[|ws| - 1], name) then IsLast(text, ws, name, |ws| - 1)
      else
        && (IsLast(text, before, name, i) ==> IsLast(text, ws, name, i) && ws[i] == before[i])
        && ((forall j :: 0 <= j < |before| ==> !Bears(text, before[j], name)) ==>
              forall j :: 0 <= j < |ws| ==> !Bears(text, ws[j], name))
  {
    hide Bears;
    assert forall j :: 0 <= j < |ws| - 1 ==> ws[..|ws| - 1][j] == ws[j];
  }

  lemma BearsIff(text: Text, w: Wallet, name: string)
    ensures Bears(text, w, name) <==> Loaded(w) && NameKey(text, w.name) == NameKey(text, name)
  {
    hide Lawful;
  }

  lemma NameMapStep(text: Text, ws: seq<Wallet>)
    requires ws != []
    ensures var (before, w) := (NameMap(text, ActiveWallets(ws[..|ws| - 1])), ws[|ws| - 1]);
      NameMap(text, ActiveWallets(ws)) == if Loaded(w) then before[NameKey(text, w.name) := w.id] else before
  {
    hide Lawful, NameKey, Loaded;
    var active := ActiveWallets(ws[..|ws| - 1]);
    if Loaded(ws[|ws| - 1]) {
      assert (active + [ws[|ws| - 1]])[..|active|] == active;
    } else {
      assert active + [] == active;
    }
  }

  // ---------------------------------------------------------------- resolutions

  /** What the user resolved for a wallet of the file: the first resolution for its id, if any. */
  ghost predicate IsResolved(rs: seq<Resolution>, id: string, r: Option<Resolution>) {
    if r.Some? then
      exists k :: 0 <= k < |rs| && rs[k] == r.value && rs[k].oldWalletId == id
        && forall j :: 0 <= j < k ==> rs[j].oldWalletId != id
    else forall k :: 0 <= k < |rs| ==> rs[k].oldWalletId != id
  }

  lemma {:induction false} FindIs(rs: seq<Resolution>, id: string)
    ensures IsResolved(rs, id, Find(rs, id))
    decreases |rs|
  {
    if rs != [] && rs[0].oldWalletId != id {
      FindIs(rs[1..], id);
      assert forall j :: 0 < j < |rs| ==> rs[j] == rs[1..][j - 1];
    }
  }

  lemma ResolvedOnce(rs: seq<Resolution>, id: string, r: Option<Resolution>)
    requires IsResolved(rs, id, r)
    ensures Find(rs, id) == r
  {
    FindIs(rs, id);
  }

  // ---------------------------------------------------------------- a wallet of the file

  /**
   A wallet that is merged by request: its id leads to the target, and the balance of the target, stored and
   in memory, grows by its balance when the user accumulates; nothing else changes.
   */
  lemma RequestedTurn(job: Job, active: seq<Wallet>, s: WalletState, w: FileWallet, r: Resolution, target: Id)
    requires IsResolved(job.options.walletResolutions, w.id, Some(r))
    requires r.action == MERGE && r.targetWalletId == Some(target) && target in s.loaded
    ensures ImportWallet(job, active, s, w).Ok?
    ensures var after := ImportWallet(job, active, s, w).value;
      var balance := s.loaded[target] + if job.options.balanceMode == ACCUMULATE then w.balance else 0;
      && after.idMap == s.idMap[w.id := target] && after.loaded == s.loaded[target := balance]
      && after.names == s.names && after.next == s.next && after.created == s.created
      && |after.wallets| == |s.wallets|
      && forall i :: 0 <= i < |s.wallets| ==>
           after.wallets[i] ==
           if s.wallets[i].id == target && job.options.balanceMode == ACCUMULATE then s.wallets[i].(balance := balance)
           else s.wallets[i]
  {
    ResolvedOnce(job.options.walletResolutions, w.id, Some(r));
    hide Lawful, IsResolved, FreeName, NameTaken, NameMap;
  }

  /** A wallet without a resolution whose name is there: its id leads to the last active one of that name. */
  lemma NamedTurn(job: Job, ws: seq<Wallet>, s: WalletState, w: FileWallet, i: nat)
    requires IsResolved(job.options.walletResolutions, w.id, None) && IsLast(job.platform.text, ws, w.name, i)
    ensures ImportWallet(job, ActiveWallets(ws), s, w) == Ok(s.(idMap := s.idMap[w.id := ws[i].id]))
  {
    hide Lawful, IsResolved, NameMap, ActiveWallets, NameKey, Bears;
    ResolvedOnce(job.options.walletResolutions, w.id, None);
    var j := NameLeads(job.platform.text, ws, w.name);
  }

  /** The name that a new wallet gets: the wanted one, or else the first free candidate. */
  ghost predicate IsFreeName(text: TextFunctions, names: set<string>, wanted: string, name: string) {
    if text.lower(wanted) !in names then name == wanted
    else
      exists k: nat :: k >= 1 && name == wanted + Suffix(k) && text.lower(name) !in names
        && forall j: nat :: 1 <= j < k ==> text.lower(wanted + Suffix(j)) in names
  }

  lemma FreeNameIs(text: Text, names: set<string>, wanted: string)
    ensures IsFreeName(text, names, wanted, FreeName(text, names, wanted))
  {
    if text.lower(wanted) in names {
      FirstFreeIsFirst(text, names, wanted, 1);
    }
    hide Lawful, Suffix, FirstFree;
  }

  /**
   Any other wallet is made anew, under the name that the user gave or its own, without white space around
   it and with a suffix if it is taken; it is the default if it is the first wallet of the user or was
   the default. The unique index can refuse it.
   */
  lemma NewWalletTurn(job: Job, ws: seq<Wallet>, s: WalletState, w: FileWallet, r: Option<Resolution>)
    returns (name: string)
    requires IsResolved(job.options.walletResolutions, w.id, r)
    requires r.None? ==> forall i :: 0 <= i < |ws| ==> !Bears(job.platform.text, ws[i], w.name)
    requires r.Some? && r.value.action == MERGE && r.value.targetWalletId.Some? ==>
      r.value.targetWalletId.value !in s.loaded
    ensures IsFreeName(job.platform.text, s.names, job.platform.text.trim(
              if r.Some? && r.value.newWalletName.Some? && r.value.newWalletName.value != ""
              then r.value.newWalletName.value else w.name), name)
    ensures var r := ImportWallet(job, ActiveWallets(ws), s, w);
      if exists i :: 0 <= i < |s.wallets| && s.wallets[i].name == name then r == Err(UniqueViolation)
      else
        && r.Ok?
        && r.value.wallets == s.wallets + [Wallet(
             id := s.next, name := name, balance := w.balance, isStandard := true,
             isDefault := w.isDefault || (ActiveWallets(ws) == [] && s.created == 0), isArchived := w.isArchived)]
        && r.value.next == s.next + 1 && r.value.created == s.created + 1
        && r.value.idMap == s.idMap[w.id := s.next] && r.value.loaded == s.loaded[s.next := w.balance]
        && r.value.names == s.names + {job.platform.text.lower(name)}
  {
    hide Lawful, IsResolved, NameMap, ActiveWallets, NameKey, Bears, FreeName, IsFreeName;
    ResolvedOnce(job.options.walletResolutions, w.id, r);
    var j := NameLeads(job.platform.text, ws, w.name);
    var wanted := DesiredName(job.platform.text, r, w);
    FreeNameIs(job.platform.text, s.names, wanted);
    name := FreeName(job.platform.text, s.names, wanted);
  }

  lemma {:induction false} StartNamesAre(text: Text, ws: seq<Wallet>)
    ensures NameMap(text, ActiveWallets(ws)).Keys ==
      set i | 0 <= i < |ws| && IsActive(ws[i]) :: text.trim(text.lower(ws[i].name))
    decreases |ws|
  {
    if ws != [] {
      var before, w := ws[..|ws| - 1], ws[|ws| - 1];
      StartNamesAre(text, before);
      NameMapStep(text, ws);
      assert forall i :: 0 <= i < |before| ==> before[i] == ws[i];
      hide ActiveWallets, NameMap, Lawful;
    }
  }

  /** What the wallet loop begins with: the names and balances of the active standard wallets, and nothing mapped. */
  lemma WalletsStart(job: Job, a: Account)
    requires WalletsFit(a.wallets, a.next)
    ensures var (s, text) := (WalletsAtStart(job, a), job.platform.text);
      && s.wallets == a.wallets && s.next == a.next && s.idMap == map[] && s.created == 0
      && s.names == (set i | 0 <= i < |a.wallets| && IsActive(a.wallets[i]) ::
                       text.trim(text.lower(a.wallets[i].name)))
      && s.loaded.Keys == (set i | 0 <= i < |a.wallets| && IsActive(a.wallets[i]) :: a.wallets[i].id)
      && forall i :: 0 <= i < |a.wallets| && IsActive(a.wallets[i]) ==>
           s.loaded[a.wallets[i].id] == a.wallets[i].balance
  {
    hide ActiveWallets, NameMap, BalanceMap, Lawful;
    StartNamesAre(job.platform.text, a.wallets);
    BalanceMapIs(a.wallets, a.next);
    assert forall i :: 0 <= i < |a.wallets| ==> (Loaded(a.wallets[i]) <==> IsActive(a.wallets[i]));
  }

  // ---------------------------------------------------------------- a category of the file

  /** Categories have one key exactly when they have one name, but for case and white space, and one type. */
  lemma CategoryKeysAgreeIff(text: Text, a: string, t: EntryType, b: string, u: EntryType)
    ensures CategoryKey(text, a, t) == CategoryKey(text, b, u) <==> SameName(text, a, b) && t == u
  {
    TypeNameInjective(t, u);
    if CategoryKey(text, a, t) == CategoryKey(text, b, u) {
      SplitLast(NameKey(text, a), TypeName(t), NameKey(text, b), TypeName(u));
    }
    hide Lawful, Joined, NoColon, TypeName;
  }

  /** An active category of that name and type, of the user or the system. */
  predicate Carries(text: TextFunctions, c: Category, name: string, t: EntryType) {
    !c.isArchived && SameName(text, c.name, name) && c.entryType == t
  }

  ghost predicate IsLastCategory(text: TextFunctions, cs: seq<Category>, name: string, t: EntryType, i: nat) {
    i < |cs| && Carries(text, cs[i], name, t) && forall j :: i < j < |cs| ==> !Carries(text, cs[j], name, t)
  }

  /** At the start of the category loops, a name and type lead to the last active category that carries them. */
  lemma {:induction false} KeyLeads(text: Text, cs: seq<Category>, name: string, t: EntryType) returns (i: nat)
    ensures var key := CategoryKey(text, name, t);
      if key in KeyMap(text, cs) then IsLastCategory(text, cs, name, t, i) && KeyMap(text, cs)[key] == cs[i].id
      else forall j :: 0 <= j < |cs| ==> !Carries(text, cs[j], name, t)
    decreases |cs|
  {
    hide Lawful, CategoryKey, SameName;
    i := 0;
    if cs != [] {
      var before, c := cs[..|cs| - 1], cs[|cs| - 1];
      i := KeyLeads(text, before, name, t);
      CategoryKeysAgreeIff(text, c.name, c.entryType, name, t);
      if Carries(text, c, name, t) {
        i := |cs| - 1;
      } else {
        assert forall j :: 0 <= j < |before| ==> before[j] == cs[j];
      }
    }
  }

  /**
   One turn of the category loops: a known name and type lead to the category that has them. Any other makes
   a category of the user, without white space around its name, below the category that its parent id leads
   to by then, if any; the unique index can refuse it.
   */
  lemma CategoryTurn(text: Text, s: CategoryState, c: FileCategory)
    ensures var r := ImportCategory(text, s, c);
      var key := CategoryKey(text, c.name, c.entryType);
      if key in s.byKey then r == Ok(s.(idMap := s.idMap[c.id := s.byKey[key]]))
      else if exists i :: 0 <= i < |s.categories| && !s.categories[i].isSystem
                          && s.categories[i].name == text.trim(c.name) && s.categories[i].entryType == c.entryType
      then r == Err(UniqueViolation)
      else
        && r.Ok?
        && r.value.categories == s.categories + [Category(
             id := s.next, isSystem := false, name := text.trim(c.name), entryType := c.entryType,
             isArchived := c.isArchived,
             parentId := if c.parentId.Some? && c.parentId.value != "" && c.parentId.value in s.idMap
                         then Some(s.idMap[c.parentId.value]) else None)]
        && r.value.next == s.next + 1 && r.value.created == s.created + 1
        && r.value.idMap == s.idMap[c.id := s.next] && r.value.byKey == s.byKey[key := s.next]
  {
    hide Lawful, CategoryKey;
  }
}
