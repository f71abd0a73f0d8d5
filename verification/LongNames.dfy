/** Names that an import stores and that the schema of the file then refuses in every export. */
module LongNames {
  import opened Prelude
  import opened Digits
  import opened TextRules
  import opened Deduplication
  import opened BackupImport
  import opened ReimportProofs
  import CanonicalJson
  import Schemas
  import BackupFile
  import BackupPayload

  /** The code units of a string: two for a character outside the basic plane. */
  function Utf16(s: string): (t: CanonicalJson.Text)
    ensures |t| >= |s|
  {
    if s == "" then []
    else
      var c := s[0] as int;
      (if c < 0x1_0000 then [c] else [0xD800 + (c - 0x1_0000) / 0x400, 0xDC00 + (c - 0x1_0000) % 0x400]) + Utf16(s[1..])
  }

  // ---------------------------------------------------------------- the name search makes names longer

  lemma SuffixIsLong(k: nat)
    ensures |Suffix(k)| >= 7
  {
  }

  /** A name that is taken grows by seven characters or more. */
  lemma TakenNameGrows(text: TextFunctions, names: set<string>, desired: string)
    requires Lawful(text) && text.lower(desired) in names
    ensures |FreeName(text, names, desired)| >= |desired| + 7
  {
    SuffixIsLong(FirstFree(text, names, desired, 1));
    hide Suffix, FirstFree, Lawful;
  }

  const FIRST := "a"
  const SECOND := "b"

  /** A file with two wallets of one name. */
  function TwoWallets(platform: Platform, name: string): Job {
    var wallets := [FileWallet(FIRST, name, 0, false, false), FileWallet(SECOND, name, 0, false, false)];
    Job(platform, File(wallets, [], [], []), Options([], MAINTAIN_CURRENT))
  }

  lemma FirstTurn(platform: Platform, userId: string, name: string)
    requires platform.text.trim(name) == name
    ensures var (job, a) := (TwoWallets(platform, name), Account(userId, [], [], [], [], 0));
      && WalletsAfter(job, a, 1).Ok?
      && var s := WalletsAfter(job, a, 1).value;
         |s.wallets| == 1 && s.wallets[0].name == name && platform.text.lower(name) in s.names
  {
    var job, a := TwoWallets(platform, name), Account(userId, [], [], [], [], 0);
    hide Lawful, FirstFree;
    PlainStep(job, a, 0, WalletsAtStart(job, a));
    assert WalletsAfter(job, a, 0) == Ok(WalletsAtStart(job, a));
  }

  lemma SecondNameGrows(platform: Platform, userId: string, name: string)
    requires platform.text.trim(name) == name
    ensures var (job, a) := (TwoWallets(platform, name), Account(userId, [], [], [], [], 0));
      && WalletsAfter(job, a, 2).Ok?
      && var s := WalletsAfter(job, a, 2).value; |s.wallets| == 2 && |s.wallets[1].name| >= |name| + 7
  {
    var job, a := TwoWallets(platform, name), Account(userId, [], [], [], [], 0);
    FirstTurn(platform, userId, name);
    var s := WalletsAfter(job, a, 1).value;
    PlainStep(job, a, 1, s);
    TakenNameGrows(platform.text, s.names, name);
    assert ByName(platform.text, []) == map[];
    hide Lawful, FreeName, ByName, NameKey, ImportWallet, ActiveWallets;
    var w := job.file.wallets[1];
    assert !NameTaken(s.wallets, FreeName(platform.text, s.names, name));
  }

  /** It goes into an empty account, and the second wallet gets a longer name. */
  lemma LongNameIsStored(platform: Platform, userId: string, name: string)
    requires platform.text.trim(name) == name && |name| == 100
    ensures var r := Import(TwoWallets(platform, name), Account(userId, [], [], [], [], 0));
      r.Ok? && |r.value.account.wallets| == 2 && |r.value.account.wallets[1].name| >= 107
  {
    var job, a := TwoWallets(platform, name), Account(userId, [], [], [], [], 0);
    SecondNameGrows(platform, userId, name);
    var w := WalletsAfter(job, a, 2).value;
    assert Passes(job.file) == [];
    hide WalletsAfter, Lawful;
    var c := CategoryPhase(job, a, w).value;
    assert SortByDate([]) == [];
    assert TransactionItems(platform, userId, w.idMap, c.idMap, []) == [];
    assert TransferItems(platform, w.idMap, []) == [];
  }

  // ---------------------------------------------------------------- and then no export is accepted

  /** With that name among the rows, every export is refused, though no column is null. */
  lemma LongNameIsRefused(rt: BackupFile.Runtime, d: BackupPayload.UserData, i: nat, name: string,
                          password: Option<CanonicalJson.Text>)
    requires BackupFile.CollisionFree(rt) && BackupFile.CipherLaw(rt) && BackupPayload.Validates(rt)
    requires BackupPayload.ColumnsNotNull(d)
    requires i < |d.wallets| && d.wallets[i].name == Utf16(name) && |name| >= 107
    ensures var file := BackupFile.Export(rt, BackupPayload.Payload(d), password);
      BackupFile.Accept(rt, BackupFile.SentFile(file), password) == Err(BackupFile.SchemaInvalid)
  {
    assert !BackupPayload.NameFits(d.wallets[i].name);
    BackupPayload.ExportAcceptedIff(rt, d, password);
  }

  /** And so with a category whose name in the file was white space. */
  lemma BlankNameIsRefused(rt: BackupFile.Runtime, d: BackupPayload.UserData, i: nat,
                           password: Option<CanonicalJson.Text>)
    requires BackupFile.CollisionFree(rt) && BackupFile.CipherLaw(rt) && BackupPayload.Validates(rt)
    requires BackupPayload.ColumnsNotNull(d)
    requires i < |d.categories| && d.categories[i].name == Utf16("")
    ensures var file := BackupFile.Export(rt, BackupPayload.Payload(d), password);
      BackupFile.Accept(rt, BackupFile.SentFile(file), password) == Err(BackupFile.SchemaInvalid)
  {
    assert !BackupPayload.NameFits(d.categories[i].name);
    BackupPayload.ExportAcceptedIff(rt, d, password);
  }
}
