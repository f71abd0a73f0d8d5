# FinWise: verified model

This project models the stateful core of the FinWise server in Dafny and proves properties of it for
every input, every run and every reachable state. `dafny verify dfyconfig.toml` checks all of it.

## What is modelled

**Backups.** The canonical JSON printer behind the checksum, a reader of JSON texts as in section 7
of RFC 8259, and both ends of the file format (`CanonicalJson`, `JsonReader`, `CanonicalProofs`, `PrintedText`,
`BackupFile`), the payload made from the rows, the schema that takes a file apart and the way of an account
through a file (`Schemas`, `SchemaRows`, `SchemaFields`, `BackupPayload`, `LongNames`, `Utf16`,
`BackupReading`, `BackupRoundTrip`). The import of a file into an
account: wallets, the two passes over the categories, transactions and transfers, with id maps, name
search, deduplication keys, unique indexes and rollback (`TextRules`, `Deduplication`,
`BackupImport`; proofs in `ImportTurns`, `ImportWalletProofs`, `ImportCategoryProofs`, `ImportHierarchy`,
`ImportForest`, `ImportRowProofs`, `ImportLedger`, `ReimportProofs`, `ImportEffects`, `OwnBackup`, `ImportTheorems`).

**Budgets.** The Gregorian calendar of section 21.4.1 of ECMA-262 and the date strings of the
application (`Digits`, `Calendar`, `BusinessTime`), the dates of budget cycles (`BudgetPeriods`), the
four rollover policies (`Rollover`), the renewal of due budgets over a table of rows
(`BudgetRenewal`, `RenewalProofs`, `RenewalDates`, `RenewalPass`, `RenewalRounds`) and the two queries for what was
spent (`SpendingSummary`, `SpendingChange`), the first of which is what renewal asks (`RenewalSpending`).

**Categories.** Parent chains and the cycle walk (`Ancestry`), the four operations on the table
(`CategoryForest`, `CategoryEffects`, `CategoryProofs`), and the tree that is built on the heap and pruned for a search
(`CategoryTree`, `CategoryTreeProofs`, `CategorySearch`).

**State in the process.** The rate limiter, the lock service and the cache, on their in-memory paths
(`OrderedMap`, `RateLimiter`, `LockService`, `MemoryCache`).

Loops and objects of the server are methods and classes here. Each is proved equal to a function of
its inputs or of the old state, and the theorems are about those functions. Amounts are integers in
hundredths, dates are day numbers where the calendar does not matter, and row ids are numbers from a
counter. Clocks, random tokens, hashing, ciphers, case folding and trimming are parameters; what is
assumed of them is written in the contracts.

## What turned out

- An unprotected export fails its own checksum at import exactly when some part of the payload is
  `undefined`: the printer writes `undefined`, and writing the file as JSON drops the field. The code
  makes one of a null alert threshold or rollover amount (`src/modules/backup/backup.service.ts:83`,
  line 88), but neither column can be null (`prisma/schema.prisma:462`, line 468).
- An export is accepted exactly when every wallet, category, budget and saving goal has a name of 1 to
  100 code units. The server itself stores others: an import puts a suffix behind a wallet name that is
  taken, without a limit, and trims a blank category name to nothing. Every later export of such an
  account is refused by the schema of the file.
- An import without wallet resolutions leaves wallets, categories, transactions and transfers as they
  are exactly when the account has an active namesake for each wallet and category of the file and,
  in the wallets that the names lead to, each row (`ImportEffects.ImportIdleIff`).
- So a second import of a file can change the account, or fail. When the first import made an archived
  wallet or category, the second fails on a unique index, because it looks at active rows only; this
  is for wallet names that differ in more than case. When it made none, the second finds every wallet
  and category, and changes nothing exactly when every row is in the wallet that its name leads to.
- A transaction whose date the column does not give back as it is, such as the 30th of February where
  it becomes the 1st of March, is booked by every import. A date that the column refuses makes every
  import fail.
- The backup of an account, once the file is accepted, goes back into that account exactly when every
  archived wallet, savings account and archived category has an active namesake. With two active
  wallets whose names differ in case only, which the service allows, the import goes through and books
  the rows of one again in the other.
- The import does not apply the rules of the category service to the categories it creates. They all
  hold afterwards exactly when each one that gets a parent has the type of that parent and, unless it
  is archived itself, an active one, and none of them has the name and type of a category that was
  archived before, but for case and white space.
- A monthly budget that starts on the 29th, 30th or 31st drifts to the shortest month passed and stays
  there.
- A due budget is stuck when its period is custom, or when a row of its series starts already on the
  day after its end; moving the first day of an open budget before its predecessor does that. It is
  never renewed and keeps its place among the fifty that the query returns. A pass changes nothing
  exactly when all budgets on the list are stuck. Fifty stuck ones without an end to their renewal that
  ended first stop the renewal of all budgets of all users; with fewer than fifty due budgets that are
  or can get stuck, everything else is renewed within a bound on the passes.
- The single-budget spending query and the batched one differ for a user who books expenses in
  somebody else's wallet.
- Dates of the years 0000 to 0099 are rejected although the full-date form of section 5.6 of RFC 3339
  allows them, because of the two-digit years of `Date.UTC`.
- A cache that is full evicts its first key even when the key that is set is already there.
- The table of locks stays right, with one live holder per key at most and the lock of each live holder
  in place, exactly in the runs in which no release by somebody else carries the token of a live holder
  or none. After such a release the next caller gets the lock while the holder is live. A token shared
  by two holders, or not passed, can do so.

## Model

| member | source | states |
|---|---|---|
| CanonicalProofs.ReadBack | src/modules/backup/backup-crypto.ts:26-41 | the printed text of a value without undefined parts is JSON, and denotes the value with its keys in ascending order |
| CanonicalProofs.SamePrintsAlike | src/modules/backup/backup-crypto.ts:33-40 | values equal up to the order of object keys, at any depth, print alike |
| CanonicalProofs.PrintsAlikeIffSame | src/modules/backup/backup-crypto.ts:26-41 | the printer is canonical and injective: two values print alike exactly when they are equal up to key order |
| PrintedText.PrintedIsString | src/modules/backup/backup-crypto.ts:26-41 | whatever surrogates the strings and keys of a value hold, its printed text has none outside a pair, so that it is the text of a string of characters and UTF-8 keeps all of it |
| PrintedText.EscapesAre | src/modules/backup/backup-crypto.ts:28 | which code units are escaped, and how, as section 25.5.2.3 of ECMA-262 has it: quote, backslash and five control characters by a letter, other control characters and lone surrogates by their number, nothing else |
| PrintedText.HexDigitIs | src/modules/backup/backup-crypto.ts:28 | numbers in escapes have lower-case digits |
| CanonicalProofs.SortAscending | src/modules/backup/backup-crypto.ts:33 | keys without repetition are put in strictly ascending order of their UTF-16 code units |
| JsonReader.ReadQuoteBody | src/modules/backup/backup-crypto.ts:28 | an escaped string reads back as itself, including lone surrogates and control characters |
| JsonReader.ReadJoinedItems | src/modules/backup/backup-crypto.ts:31 | joined items read back one by one, for any texts that read back each |
| JsonReader.ReadJoinedMembers | src/modules/backup/backup-crypto.ts:34-40 | joined members read back one by one, for any texts that read back each |
| BackupFile.UndefinedNeverReads | src/modules/backup/backup-crypto.ts:27-31 | a value with an undefined part prints as a text that no JSON reader takes for the value that is sent |
| BackupFile.PrintSurvivesIffDefined | src/modules/backup/backup.service.ts:112-150 | the printed form is the same before writing and after reading the file exactly when no part is undefined |
| BackupFile.PlainExportAccepted | src/modules/backup/backup.service.ts:751-770 | for any schema: an unprotected export is refused when the schema refuses it; otherwise, without undefined parts, it is accepted exactly when the schema leaves it as it is, up to key order, and with one the checksum is refused |
| BackupFile.TamperedDataRejected | src/modules/backup/backup.service.ts:751-770 | an unprotected file is accepted exactly when what the schema makes of its data, unknown fields being dropped, equals the checksummed data up to key order |
| BackupFile.ProtectedOpensIff | src/modules/backup/backup.service.ts:685-732 | with the password, up to surrounding white space, a protected export opens as the payload exactly when no part of it is undefined |
| BackupFile.ProtectedExportAccepted | src/modules/backup/backup.service.ts:685-740 | and without undefined parts it comes to what the schema makes of the payload with its keys sorted |
| BackupFile.TamperedCiphertextRejected | src/modules/backup/backup.service.ts:702-712 | a protected file with another ciphertext than the exported one is refused for its checksum |
| BackupFile.ProtectedAnswers | src/modules/backup/backup.service.ts:685-740 | for any protected file, which check fails first: password, ciphertext, checksum, decryption, JSON, schema; and what is accepted otherwise |
| BackupFile.PlainAnswers | src/modules/backup/backup.service.ts:742-770 | the same for any unprotected file: data, schema, checksum of what the schema makes of the data |
| Schemas.ParseSame | src/modules/backup/backup.validation.ts:99-106 | what a schema makes of a value does not depend on the order of keys |
| Schemas.AmountIff | src/modules/backup/backup.validation.ts:40 | an amount is one or more digits, and after a point, if there is one, one or two more |
| Schemas.BalanceIff | src/modules/backup/backup.validation.ts:14 | a balance is an amount, perhaps behind a minus |
| Schemas.DayIff | src/modules/backup/backup.validation.ts:45 | a day is four, two and two digits with a minus between them |
| SchemaRows.ParseTable | src/modules/backup/backup.validation.ts:11-106 | a list of rows printed for a schema is taken as it was sent when every value fits its field, and refused otherwise |
| SchemaFields.WalletTakenIff | src/modules/backup/backup.validation.ts:11-21 | for any value: it is taken as a wallet exactly when it is an object whose fields, each read by its name, are as asked |
| SchemaFields.CategoryTakenIff | src/modules/backup/backup.validation.ts:23-34 | the same for categories |
| SchemaFields.TransactionTakenIff | src/modules/backup/backup.validation.ts:36-47 | for transactions |
| SchemaFields.TransferTakenIff | src/modules/backup/backup.validation.ts:49-56 | for transfers |
| SchemaFields.BudgetTakenIff | src/modules/backup/backup.validation.ts:58-75 | for budgets |
| SchemaFields.ContributionTakenIff | src/modules/backup/backup.validation.ts:77-82 | for contributions |
| SchemaFields.GoalTakenIff | src/modules/backup/backup.validation.ts:84-97 | for saving goals, with their contributions |
| SchemaFields.DataTakenIff | src/modules/backup/backup.validation.ts:99-106 | and for the data as a whole: every table is a list of rows that are taken, or missing |
| SchemaFields.ChecksAre | src/modules/backup/backup.validation.ts:11-106 | what is asked of a text: ids of one code unit or more, names of 1 to 100, currencies of 1 to 10, amounts, balances, days, and names from a list |
| SchemaFields.RowComesOut | src/modules/backup/backup.validation.ts:11-106 | what comes out has the fields of the schema alone, each as it was, a missing one with its default, if it has one |
| SchemaFields.BudgetDefaults | src/modules/backup/backup.validation.ts:63-65 | a budget without currency, type or period is one in VND, of a category, and monthly |
| SchemaFields.WalletDefault | src/modules/backup/backup.validation.ts:15 | a wallet without a currency is one in VND |
| SchemaFields.GoalDefaults | src/modules/backup/backup.validation.ts:88-93 | a saving goal without currency or status is one in VND, and active |
| SchemaFields.DataDefaults | src/modules/backup/backup.validation.ts:99-106 | a table that is missing is empty |
| BackupPayload.PayloadIs | src/modules/backup/backup.service.ts:26-110 | the payload of any rows has distinct keys everywhere; it is taken as it was sent when all names have 1 to 100 code units, and refused otherwise; and it has no undefined part exactly when every budget has an alert threshold and a rollover amount |
| BackupPayload.PlainRowsAcceptedIff | src/modules/backup/backup.service.ts:751-770 | an unprotected export of any rows is refused by the schema when a name does not fit, refused for its checksum when one of the two columns is null, and otherwise accepted as it was |
| BackupPayload.ProtectedRowsAcceptedIff | src/modules/backup/backup.service.ts:685-740 | a protected export of rows without nulls is accepted as it was exactly when all names fit |
| BackupPayload.ExportAcceptedIff | prisma/schema.prisma:462-468 | as neither column can be null, an export, protected or not, is accepted exactly when all names fit |
| BackupReading.PayloadReads | src/modules/backup/backup.service.ts:29-110 | the data of a file, read field by field by their names, are the rows that were exported, in all seven tables |
| BackupReading.AcceptedReads | src/modules/backup/backup.service.ts:653-770 | so are the data that an import accepts |
| BackupRoundTrip.FileIsOwnBackup | src/modules/backup/backup.service.ts:29-71 | what an import reads in the exported data of an account, ids, names and amounts as text, is the backup of that account |
| BackupRoundTrip.AcceptedIsOwnBackup | src/modules/backup/backup.service.ts:653-770 | from the rows through the file, with a password or without: it is accepted exactly when all names fit, and then what is accepted is the backup of the account |
| BackupRoundTrip.ImportOfOwnFile | src/modules/backup/backup.service.ts:273-555 | an account with wallet names that differ in more than case, exported to a file and imported from it: nothing changes, unless a wallet is archived or a savings account, or an archived category has no active namesake; then the import fails |
| LongNames.TakenNameGrows | src/modules/backup/backup.service.ts:342-352 | a wallet name that is taken grows by seven characters or more |
| LongNames.LongNameIsStored | src/modules/backup/backup.service.ts:342-365 | a file with two wallets of one name of 100 characters goes into an empty account, and stores a name of 107 or more |
| LongNames.LongNameIsRefused | src/modules/backup/backup.validation.ts:13 | with such a name among the rows no export is accepted |
| LongNames.BlankNameIsRefused | src/modules/backup/backup.validation.ts:25 | nor with a category whose name is empty |
| TextRules.TrimmedKey | src/modules/backup/backup.service.ts:306-311 | a trimmed name has the comparison key of the name |
| TextRules.CandidatesDiffer | src/modules/backup/backup.service.ts:344-349 | numbered candidates for one name differ from one another in lower case |
| Deduplication.LoopStoresFirsts | src/modules/backup/backup.service.ts:466-512 | the loop goes through exactly when every row to be stored can be, and then stores the first row of every new key, in order |
| Deduplication.FirstsAreNewKeys | src/modules/backup/backup.service.ts:481-486 | as many rows are stored as there are new keys |
| Deduplication.TableHasKeys | src/modules/backup/backup.service.ts:453-512 | afterwards the table has exactly the old and the new keys, and no new row shares a key with an old row or another new one |
| Deduplication.KnownKeysSkip | src/modules/backup/backup.service.ts:481-484 | items whose keys are all there leave the table as it is and are all counted as skipped |
| BackupImport.FindFreeName | src/modules/backup/backup.service.ts:342-351 | the name search, as a loop that ends, returns the desired name or the first free candidate |
| BackupImport.ImportWallets | src/modules/backup/backup.service.ts:303-382 | the wallet loop equals the step-by-step specification, including the unique index |
| BackupImport.ImportRoots | src/modules/backup/backup.service.ts:399-421 | the first loop equals the specification on the roots, and gives no row a parent |
| BackupImport.ImportChildren | src/modules/backup/backup.service.ts:423-450 | the second loop equals the specification on the children, with the mapped parents |
| BackupImport.ImportCategories | src/modules/backup/backup.service.ts:384-450 | the two category loops equal one specification over roots, then children |
| BackupImport.ImportTransactions | src/modules/backup/backup.service.ts:453-512 | the transaction loop equals the deduplication specification over the sorted file |
| BackupImport.ImportTransfers | src/modules/backup/backup.service.ts:515-555 | the transfer loop equals the deduplication specification |
| BackupImport.BackupService.ImportBackup | src/modules/backup/backup.service.ts:273-555 | the whole import, and no change to the account when any part of it fails |
| BackupImport.TryingEnds | src/modules/backup/backup.service.ts:346-349 | every taken candidate uses up one of the finitely many names |
| ImportTurns.WalletsStart | src/modules/backup/backup.service.ts:304-311 | the wallet loop begins with the balances and lower-case names of exactly the active standard wallets |
| ImportTurns.NameLeads | src/modules/backup/backup.service.ts:306-308 | a name leads to the last active standard wallet that bears it, but for case and white space |
| ImportTurns.RequestedTurn | src/modules/backup/backup.service.ts:314-340 | a wallet of the file whose first resolution asks for a merge into a known wallet: its id leads there, and that balance, stored and in memory, grows by its own when the user accumulates; nothing else changes |
| ImportTurns.NamedTurn | src/modules/backup/backup.service.ts:323-330 | one without a resolution whose name is there: its id leads to the wallet of that name, and nothing else changes |
| ImportTurns.NewWalletTurn | src/modules/backup/backup.service.ts:341-380 | any other makes a wallet, with every column of the row: the name that was given or its own, trimmed, or the first free candidate; or the unique index refuses it |
| ImportTurns.KeyLeads | src/modules/backup/backup.service.ts:386-393 | a name and type lead to the last active category, of the user or the system, that carries them |
| ImportTurns.CategoryTurn | src/modules/backup/backup.service.ts:399-450 | a category of the file with a known name and type leads to that category; any other makes one, with every column of the row, or the unique index refuses it |
| ImportWalletProofs.FirstFreeIsFirst | src/modules/backup/backup.service.ts:343-351 | the search ends within as many tries as there are names, at the first candidate that is free |
| ImportWalletProofs.LoopTracks | src/modules/backup/backup.service.ts:329-338 | the balances kept in memory equal the stored ones after every turn, ids are fresh, and only balances of old rows change |
| ImportWalletProofs.OldBalances | src/modules/backup/backup.service.ts:329-340 | every old wallet ends at its old balance plus, only when accumulating, the sum of all file wallets merged into it by request |
| ImportWalletProofs.CreatedRows | src/modules/backup/backup.service.ts:354-380 | the wallets made are exactly those of the file that are not merged, in order, with their balances and flags; in an account without active wallets the first is the default |
| ImportWalletProofs.TotalConserved | src/modules/backup/backup.service.ts:303-382 | the total of all balances grows by exactly the balances of the file wallets that are made or accumulated |
| ImportWalletProofs.CreatedNames | src/modules/backup/backup.service.ts:342-352 | lower-case names of new wallets differ from the loaded names and from one another |
| ImportTheorems.CreatedNamesAreFree | src/modules/backup/backup.service.ts:309-352 | a new wallet differs in lower case from every active standard wallet of before and from every other new wallet |
| ImportCategoryProofs.ImportKeepsAcyclic | src/modules/backup/backup.service.ts:395-450 | no file, with cyclic or dangling parents or not, makes the hierarchy cyclic |
| ImportCategoryProofs.ImagesShareKeys | src/modules/backup/backup.service.ts:400-449 | every mapped file category leads to a stored category of the same name, but for case and white space, and type |
| ImportCategoryProofs.ChildrenFindParents | src/modules/backup/backup.service.ts:395-450 | with distinct file ids, a created category hangs below the image of its parent exactly when the parent is a root or listed before it, and is a root otherwise |
| ImportCategoryProofs.PlaceOrder | src/modules/backup/backup.service.ts:396-397 | the passes meet every root before any child, and otherwise keep the order of the file |
| ImportRowProofs.TransactionKeyInjective | src/modules/backup/backup.service.ts:475-479 | the joined key determines wallet, date, amount, type and description, whatever the description holds |
| ImportRowProofs.TransferKeyInjective | src/modules/backup/backup.service.ts:532-534 | the joined key determines both wallets, the instant and the amount |
| ImportRowProofs.FixedInjective | src/modules/backup/backup.service.ts:457 | amounts printed with two decimals are equal only when the amounts are |
| ImportRowProofs.SortIsStable | src/modules/backup/backup.service.ts:462-464 | sorting by date permutes the transactions, orders them, and keeps the order of the file within a date |
| ImportRowProofs.TransactionAccounts | src/modules/backup/backup.service.ts:453-512 | imported and skipped transactions add up to the mapped ones of the file; as many are imported as there are new keys; the keys are the old ones and those of the mapped transactions, in any order of the file |
| ImportRowProofs.TransactionLoopIff | src/modules/backup/backup.service.ts:486-509 | the transaction loop goes through exactly when the date column takes the date of every mapped transaction with a new key |
| ImportRowProofs.FileOrderIsIrrelevant | src/modules/backup/backup.service.ts:462-464 | files with the same transactions in another order both go through or both fail, with the same keys and counts |
| ImportRowProofs.TransactionsStayDistinct | src/modules/backup/backup.service.ts:481-486 | when no date changes in the column, no stored transaction shares a key with an older or another imported one |
| ImportRowProofs.ReceiptsAreOwn | src/modules/backup/backup.service.ts:488-495 | no imported transaction keeps a receipt from outside the folder of the importing user |
| ImportRowProofs.TransferAccounts | src/modules/backup/backup.service.ts:515-555 | the transfer loop goes through exactly when every mapped instant can be read, and then its counts add up and its keys stay distinct |
| ImportLedger.KeysAgreeIff | src/modules/backup/backup.service.ts:456-458 | stored transactions have one key exactly when wallet, date, amount and type are equal and the descriptions are, but for case and white space around them, none being the empty one |
| ImportLedger.FileKeysAgreeIff | src/modules/backup/backup.service.ts:475-479 | two transactions of the file have one key exactly when they lead to one wallet and agree in day, amount, type and description, but for case and white space |
| ImportLedger.NoTransactionIsLost | src/modules/backup/backup.service.ts:466-512 | for every mapped transaction of the file there is a stored one of its wallet, day, amount, type and description |
| ImportLedger.DifferentWordsAreBooked | src/modules/backup/backup.service.ts:477-486 | two transactions whose descriptions differ in more than case and white space are both there |
| ImportLedger.NoRowIsInvented | src/modules/backup/backup.service.ts:488-509 | every new row is that of a transaction of the file in all its columns, with its receipt exactly when that is in the folder of the importing user |
| ImportLedger.NoTransferIsLost | src/modules/backup/backup.service.ts:525-555 | for every mapped transfer of the file there is a stored one of its wallets, instant and amount |
| ImportLedger.NoTransferIsInvented | src/modules/backup/backup.service.ts:542-551 | every new transfer is one of the file in all its columns, with its note |
| ImportLedger.EverythingLeads | src/modules/backup/backup.service.ts:303-450 | after the import of a file, the ids of exactly its wallets and categories lead somewhere |
| ImportLedger.FileTransactionIsBooked | src/modules/backup/backup.service.ts:466-512 | so that no transaction whose wallet and category are in the file is lost |
| ImportLedger.BooksAreFromFile | src/modules/backup/backup.service.ts:488-551 | and every row that the whole import books is one of the file |
| ImportLedger.CountsAreRows | src/modules/backup/backup.service.ts:284-301 | the counts that are answered are the rows made in every table, and the other mapped rows of the file |
| ImportLedger.DatesFailImport | src/modules/backup/backup.service.ts:466-555 | an import whose wallets and categories go through fails exactly when the column refuses the day of a mapped transaction with a new key, or a mapped transfer names no instant |
| ImportRowProofs.ChangedDateComesBack | src/modules/backup/backup.service.ts:475-509 | every import of a mapped transaction whose date the column does not give back fails, if the column refuses it, or else books at least one row |
| ImportRowProofs.SecondLoopIdleIff | src/modules/backup/backup.service.ts:453-512 | a second transaction loop always goes through, and imports nothing exactly when the column gives back the date of every mapped transaction |
| ReimportProofs.SecondCategoryPhase | src/modules/backup/backup.service.ts:385-450 | second category passes find everything by key, or fail exactly when an archived category was made |
| ImportRowProofs.TransactionsAgain | src/modules/backup/backup.service.ts:453-484 | a second transaction loop skips every mapped transaction |
| ReimportProofs.TransfersAgain | src/modules/backup/backup.service.ts:515-539 | a second transfer loop skips every mapped transfer |
| ImportEffects.WalletsIdle | src/modules/backup/backup.service.ts:303-382 | the wallet loop adds no row exactly when every name is found, and then maps every id by its name |
| ImportEffects.CategoriesIdle | src/modules/backup/backup.service.ts:384-450 | the category loops add no row exactly when every key is found, and then map every id by its key |
| ImportEffects.ImportIdleIff | src/modules/backup/backup.service.ts:273-555 | an import without resolutions changes nothing exactly when every wallet, category, transaction and transfer of the file is already there, the rows in the wallets that the names lead to |
| ImportEffects.SecondImportIdleIff | src/modules/backup/backup.service.ts:273-555 | when the first import made nothing archived, the second finds every wallet and category, and changes nothing exactly when every row is by then in the wallet that its name leads to |
| ImportEffects.SecondImportOfAnyNames | src/modules/backup/backup.service.ts:273-555 | whatever the names, a second import with all names known changes nothing exactly when all rows are known; with a category unknown it fails on a unique index; and with a wallet unknown it fails so too if the exact name of the first such wallet is stored, and else can only go through by making a wallet |
| ImportEffects.ImportTwice | src/modules/backup/backup.service.ts:273-555 | with distinct wallet names, a second import fails on a unique index exactly when the first made something archived, and otherwise changes at most transactions, and none exactly when the date column gives back every date |
| ImportEffects.ArchivedFileWalletBlocks | src/modules/backup/backup.service.ts:303-380 | a file with an archived wallet goes into an empty account once, and fails the second time |
| ImportTheorems.ImportKeeps | src/modules/backup/backup.service.ts:284-555 | an import only appends rows, changes old wallets by what is merged into them and nothing else, lets no transaction or transfer change a balance, and keeps keys and acyclicity |
| OwnBackup.ImportOwnBackup | src/modules/backup/backup.service.ts:26-110 | importing the backup of an account into it fails on a unique index exactly when some wallet or archived category has no active namesake; otherwise it leaves wallets and categories alone, and changes nothing exactly when every row, moved to the wallets that the names lead to, has the key of a stored one |
| OwnBackup.AllLeadIff | src/modules/backup/backup.service.ts:303-311 | an active standard wallet has a namesake, itself or a later one; only archived wallets and savings accounts may lack one |
| OwnBackup.OwnBackupOfDistinctNames | src/modules/backup/backup.service.ts:303-326 | with distinct names it changes nothing, or fails exactly when some wallet is archived or a savings account or an archived category has no active namesake |
| OwnBackup.ArchivedWalletBlocks | src/modules/backup/backup.service.ts:303-380 | the backup of an account with one archived wallet cannot be imported into it |
| OwnBackup.NamesakesBookAgain | src/modules/backup/backup.service.ts:306-311 | with two active wallets whose names differ in case, the import of the own backup goes through and changes the account |
| ImportTheorems.FebruaryThirtiethComesBack | src/modules/backup/backup.service.ts:507 | where the column makes the 30th of February the 1st of March, the first import books such a transaction and the second books it again |
| ImportForest.ImportKeepsForestIff | src/modules/backup/backup.service.ts:395-450 | an import leaves all rules of the category service intact, for parents, cycles and names, exactly when every category that makes a row has the type of the parent it gets and, unless archived, an active one, and no category that was archived before has its name and type |
| ImportForest.ArchivedNameComesBack | src/modules/backup/backup.service.ts:431-443 | a file can bring a category back under the name of an archived one in another case; names are distinct no longer |
| ImportHierarchy.ImportKeepsRulesIff | src/modules/backup/backup.service.ts:431-443 | the part of this that is about parents |
| ImportHierarchy.ParentIffBefore | src/modules/backup/backup.service.ts:396-397 | a category gets a parent exactly when that is a root of the file, or a child listed before it |
| ImportTheorems.ParentRulesAreSkipped | src/modules/backup/backup.service.ts:431-443 | an import can hang an active expense category below an archived income category |
| Calendar.DayNumberOrder | src/common/date-time/business-time.ts:27-33 | day numbers are ordered as dates are |
| Calendar.CivilBijection | src/common/date-time/business-time.ts:27-48 | dates and day numbers correspond one to one |
| BusinessTime.DateUTCAdjusts | src/common/date-time/business-time.ts:28-35 | Date.UTC leaves a date alone exactly when it is a calendar date after the year 99 |
| BusinessTime.ParsesIffNamesDay | src/common/date-time/business-time.ts:22-38 | a string is accepted exactly when it spells a calendar day of the years 0100 to 9999, as that day |
| BusinessTime.EpochAndLastDay | src/common/date-time/business-time.ts:27-48 | day 0 is January 1, 1970, and the last day is September 13, 275760, as in section 21.4.1.1 of ECMA-262 |
| BusinessTime.LongYearPrefix | src/common/date-time/business-time.ts:40-48 | of a day whose year four digits do not hold, ten characters with the sign, six digits of the year and the month are left |
| BusinessTime.ErrorsAre | src/common/date-time/business-time.ts:22-48 | a string without the pattern of a date has a bad format, one that the calendar lacks is no date, and days beyond the range of time values are refused as such |
| BusinessTime.FormatThenParse | src/common/date-time/business-time.ts:40-48 | formatting a day and parsing it gives the day back exactly in the years 0100 to 9999 |
| BusinessTime.ParseThenFormat | src/common/date-time/business-time.ts:40-48 | parsing an accepted string and formatting it gives the string back |
| BusinessTime.DateOrder | src/modules/budgets/budget.service.ts:163-175 | accepted strings compare as strings exactly as their days compare |
| BusinessTime.AddDaysMoves | src/common/date-time/business-time.ts:99-103 | adding days moves the day number by as much, exactly as long as the result is in range |
| BusinessTime.AddMonthsClampedIsMonthsLater | src/common/date-time/business-time.ts:105-116 | adding months lands in the month so many later, on the same day or the last of that month |
| BudgetPeriods.CycleEndsBeforeNext | src/modules/budgets/budget.service.ts:553-590 | the resolved end date of a recurring cycle is the day before the next one starts |
| BudgetPeriods.CustomEnd | src/modules/budgets/budget.service.ts:570-588 | a custom budget ends on the day that is given, and is refused without one or with one before its first day |
| BudgetPeriods.StartClosedForm | src/common/date-time/business-time.ts:105-116 | after n cycles the month has moved by n cycles and the day is the first day or the length of the shortest month landed on |
| BudgetPeriods.RenewalDriftsIff | src/modules/budgets/budget.service.ts:266-269 | n renewals land where one jump lands exactly when no month landed on in between is too short for that day |
| BudgetPeriods.NoDriftUpTo28 | src/modules/budgets/budget.service.ts:266-269 | a start on the 28th or earlier never drifts |
| BudgetPeriods.JanuaryDrifts | src/modules/budgets/budget.service.ts:266-269 | a start on January 31 is renewed to February 28 and then to March 28 |
| BudgetPeriods.CyclesTile | src/modules/budgets/budget.service.ts:266-269 | every day of a chain lies in exactly one of its cycles |
| BudgetPeriods.CycleStartIsClosedForm | src/modules/budgets/budget.service.ts:553-590 | the start days of monthly and yearly cycles are the dates of the closed form |
| Rollover.CarriedAmount | src/modules/budgets/budget.service.ts:279-312 | under every policy the new amount is the base plus what is carried over, but never negative |
| Rollover.CarriedIs | src/modules/budgets/budget.service.ts:279-312 | what is carried over is the money left, but not less than nothing, under the surplus policy, the money overspent under the deficit policy, either under the net policy and nothing on reset; the new amount is the base plus that, but never negative |
| Rollover.NetIsSurplusOrDeficit | src/modules/budgets/budget.service.ts:300-306 | the net policy is the surplus policy on money left over and the deficit policy otherwise |
| Rollover.ChainMonotone | src/modules/budgets/budget.service.ts:280-299 | along a chain, surplus amounts never fall, deficit amounts never rise, reset amounts stay |
| Rollover.ZeroAbsorbs | src/modules/budgets/budget.service.ts:293-305 | a deficit or net chain that reaches zero stays there |
| Rollover.NetChainClosedForm | src/modules/budgets/budget.service.ts:300-306 | after n cycles a net amount is 2^n times the first less the sum of 2^(n-1-k) times the k-th spending, cut off at zero |
| BudgetRenewal.BudgetService.RenewSingleBudget | src/modules/budgets/budget.service.ts:234-312 | one renewal on the stored rows equals the specification: suspended, failed, or a marked parent and a new row; what was spent comes from a parameter, which RenewalSpending.WorldOf fills with the query |
| RenewalProofs.RenewedRow | src/modules/budgets/budget.repository.ts:371-408 | when a budget is renewed, suspended or left alone, and every column of the row that a renewal inserts, its amount and rollover included; of the old rows only the renewed one changes, in its mark alone |
| BudgetRenewal.BudgetService.CatchUpFrom | src/modules/budgets/budget.service.ts:159-184 | the bounded inner loop equals the recursive catch-up of at most three steps |
| RenewalProofs.CatchUpTurn | src/modules/budgets/budget.service.ts:161-184 | a turn of the loop stops at a budget that has not ended or whose next cycle is past its limit, and otherwise renews it and goes on with the new one |
| BudgetRenewal.BudgetService.ProcessDueRenewals | src/modules/budgets/budget.service.ts:152-191 | the outer loop equals the catch-up of all due budgets in turn, with the count of rows made |
| RenewalProofs.DueListIs | src/modules/budgets/budget.repository.ts:323-341 | what the query returns, in the columns of the rows: those it asks for, each once, by their last days; all of them, or fifty of which none ends later than one left out |
| RenewalProofs.FreeCyclesIs | prisma/schema.prisma:490 | the number of free cycles is the largest number of next cycles on none of whose start days a row of the group starts |
| RenewalProofs.AfterChainRows | src/modules/budgets/budget.repository.ts:371-408 | after n renewals the store holds the old rows, one new row for every cycle, and all of the chain but its tail marked as renewed |
| RenewalProofs.DescendantDates | src/modules/budgets/budget.service.ts:266-269 | the j-th new budget covers exactly the j-th cycle after the end of the first |
| RenewalDates.DescendantOnClosedForm | src/modules/budgets/budget.service.ts:266-269 | new budgets of monthly and yearly chains start on the dates of the closed form |
| RenewalProofs.DescendantAmount | src/modules/budgets/budget.service.ts:279-312 | the amount of the j-th new budget compounds all carry-overs before it |
| RenewalProofs.UntilNeverStops | src/modules/budgets/budget.service.ts:168-175 | given the condition of the query, the check of the renewal limit inside the loop never stops it |
| RenewalProofs.CatchUpExact | src/modules/budgets/budget.service.ts:159-184 | in any table, catching up makes one budget for every cycle the chain is behind, up to the iterations left or to the first cycle whose start day is taken in its group |
| RenewalProofs.CatchUpReachesToday | src/modules/budgets/budget.service.ts:159-184 | after the catch-up the tail covers today, or exactly three budgets were made, or the next start day is taken; every new cycle starts no later than today |
| RenewalProofs.AdvanceKeepsTail | src/modules/budgets/budget.repository.ts:371-408 | a renewal keeps start dates distinct within a series, with the one not renewed last |
| RenewalProofs.OwnGroupsHaveOneTail | src/modules/budgets/budget.repository.ts:371-408 | budgets each in a series of their own satisfy that rule |
| RenewalProofs.TailIsFree | src/modules/budgets/budget.repository.ts:371-408 | by that rule every cycle after the open budget is free |
| RenewalPass.FailsIffStuck | src/modules/budgets/budget.service.ts:234-269 | renewing a due budget fails exactly when its category can be used and its period is custom or its next start day is taken |
| RenewalPass.PassProgress | src/modules/budgets/budget.service.ts:152-191 | in any table, one pass suspends listed budgets with an unusable category, leaves custom ones and all budgets not listed alone, and extends the chain of every other listed one by the free cycles it is behind, three at most, fewer only if another due budget of its group took the next start day; what is due afterwards was not listed, is stuck, or has a shorter way to go; and each listed budget that is not stuck afterwards takes a round off the work |
| RenewalPass.CatchUpRisk | src/modules/budgets/budget.service.ts:159-184 | no catch-up makes more budgets be at risk of getting stuck |
| RenewalRounds.FullListWorks | src/modules/budgets/budget.repository.ts:323-341 | no pass makes the way that a chain has to go longer, and when the query returns all due budgets a pass takes a round off each |
| RenewalRounds.LongListWorks | src/modules/budgets/budget.repository.ts:323-341 | when more than fifty are due, a pass takes off as many rounds as there are places not held by stuck budgets |
| RenewalRounds.DrainBound | src/modules/budgets/budget.repository.ts:323-341 | however many budgets are due and whatever the table holds, with fewer than fifty at risk of getting stuck nothing but stuck ones is due after as many passes as the longest chain takes rounds plus the whole work divided by the places left |
| RenewalRounds.StillBehind | src/modules/budgets/budget.service.ts:152-191 | after fewer passes than a chain alone in its group takes rounds, some budget still takes the rest, whatever else is due |
| RenewalRounds.CatchUpRounds | src/modules/budgets/budget.service.ts:152-191 | with at most fifty due budgets, stuck ones included, repeated passes on one day leave nothing pending after i passes exactly when 3i is at least the longest way, in free cycles, that a chain has to go |
| RenewalRounds.UndisturbedIsSafe | src/modules/budgets/budget.repository.ts:371-408 | in a table in which no date was moved, only budgets of a custom period are at risk, and the way of a chain is all it is behind |
| RenewalRounds.StuckForEver | src/modules/budgets/budget.service.ts:570-577 | a budget that is stuck without an end to its renewal stays stuck, due and unchanged through any passes, on that day and all later ones |
| RenewalRounds.IdlePassIff | src/modules/budgets/budget.service.ts:152-191 | in any table, a pass changes nothing exactly when every budget on the list is stuck |
| RenewalRounds.MovedStartSticks | src/modules/budgets/budget.service.ts:426-499 | moving the first day of the open week of a series before the renewed one makes it stuck for ever |
| RenewalRounds.Starvation | src/modules/budgets/budget.repository.ts:323-341 | fifty stuck budgets without an end that ended before all pending ones keep every pass, on that day and all later ones, from changing anything |
| RenewalRounds.MonthlyStarves | src/modules/budgets/budget.repository.ts:323-341 | a table in which a monthly budget is due for ever and never renewed |
| SpendingSummary.GetBatchSpendingSummaries | src/modules/budgets/budget.repository.ts:200-253 | the map has an entry for every requested budget: what the joined query gives, or nothing spent |
| SpendingSummary.FromRows | src/modules/budgets/budget.repository.ts:234-240 | every row of the query is in the map |
| SpendingSummary.FillMissing | src/modules/budgets/budget.repository.ts:242-250 | budgets without a row get nothing spent, the others keep their entry |
| SpendingSummary.JoinCountsOnce | src/modules/budgets/budget.repository.ts:213-231 | join, group and sum count every joined transaction exactly once |
| SpendingChange.SingleTakes | src/modules/budgets/budget.repository.ts:164-198 | one transaction more adds its amount and one to the single query, and may be the latest, exactly when it is an expense within the days, of the category if there is one, and in the wallet of the budget, or else booked by its user in a wallet of its currency; otherwise nothing changes |
| SpendingChange.BatchTakes | src/modules/budgets/budget.repository.ts:200-253 | the same for the batch, which also asks that the wallet is the own one of that user |
| SpendingChange.NothingSpent | src/modules/budgets/budget.repository.ts:185-197 | without transactions both give nothing spent, none counted and no last date |
| SpendingSummary.ForeignIs | src/modules/budgets/budget.repository.ts:179-181 | what the batch leaves out are the user's own expenses in wallets of others |
| SpendingSummary.SingleIsBatchPlusForeign | src/modules/budgets/budget.repository.ts:164-253 | amount, count and last date of the single query are those of the batch plus those expenses |
| SpendingSummary.BatchAgreesIff | src/modules/budgets/budget.repository.ts:164-253 | the two queries agree on a budget exactly when the user booked none of its expenses in a wallet of somebody else |
| SpendingSummary.WalletBudgetsAgree | src/modules/budgets/budget.repository.ts:179-181 | for a budget on one wallet the two queries always agree |
| SpendingSummary.SharedWalletDiffers | src/modules/budgets/budget.repository.ts:164-253 | they differ for a member who books an expense in the wallet of somebody else |
| RenewalSpending.RenewalTakes | src/modules/budgets/budget.service.ts:271-278 | one transaction more adds its amount to what a renewal takes as spent exactly when it is an expense of the user, within the days of the budget, of its category if it has one, and in a wallet of its currency |
| RenewalSpending.SpentSplits | src/modules/budgets/budget.repository.ts:164-183 | what is spent in a period is what is spent in its two parts |
| RenewalSpending.ChainCountsOnce | src/modules/budgets/budget.service.ts:270-278 | the spendings that the rollovers of a chain use add up to what the query gives for all its cycles together: each transaction counts once |
| Ancestry.WouldCreateCycle | src/modules/categories/category.repository.ts:210-232 | the walk ends on any links, and answers no exactly when the chain of the parent ends without the category |
| Ancestry.CycleIffAncestor | src/modules/categories/category.repository.ts:210-232 | on acyclic links it answers yes exactly when the category is the parent or one of its ancestors |
| Ancestry.AcyclicEnds | src/modules/categories/category.repository.ts:214-229 | every chain of acyclic links ends within the number of rows and one |
| Ancestry.ReparentAcyclic | src/modules/categories/category.service.ts:146-156 | giving a category a parent keeps the links acyclic exactly when the parent is not below it |
| Ancestry.NewLeafAcyclic | src/modules/categories/category.repository.ts:164-176 | a new row closes no cycle, whatever its parent |
| CategoryForest.CollectBranch | src/modules/categories/category.repository.ts:249-264 | the repeat-until-stable loop ends with exactly the target and its descendants, in any order of the list |
| CategoryForest.CategoryService.Create | src/modules/categories/category.service.ts:108-121 | creation on the stored rows equals the specification with its errors |
| CategoryForest.CategoryService.Update | src/modules/categories/category.service.ts:123-164 | update equals the specification with its errors, in their order |
| CategoryForest.CategoryService.Archive | src/modules/categories/category.service.ts:166-180 | archiving equals the specification, whatever order the query returns |
| CategoryForest.CategoryService.Restore | src/modules/categories/category.service.ts:182-195 | restoring equals the specification with its errors |
| CategoryEffects.CreateDoes | src/modules/categories/category.service.ts:108-121 | when a category is created, which error it gives otherwise, and every column of the row that is added |
| CategoryEffects.UpdateGoesThroughIff | src/modules/categories/category.service.ts:123-164 | an update goes through exactly when the user sees the category, it is its own and active, the new name and type are free, the type is not changed while the category is in use, and the new parent is visible, active, of the type and not below the category |
| CategoryEffects.UpdateDoes | src/modules/categories/category.service.ts:128-160 | then the row has the name, type and parent of the patch where it gives them and its old ones where not, and no other column and no other row changes |
| CategoryEffects.UpdateFails | src/modules/categories/category.service.ts:123-164 | otherwise the error is that of the first condition that fails |
| CategoryEffects.ArchiveDoes | src/modules/categories/category.repository.ts:234-276 | in any table, archiving archives the category and those of the user whose chain of parents, through the user's own rows, leads to it, and changes nothing else |
| CategoryEffects.ArchiveFails | src/modules/categories/category.service.ts:166-180 | when archiving fails, and with which error |
| CategoryEffects.RestoreDoes | src/modules/categories/category.service.ts:182-195 | when restoring goes through, with which error it fails otherwise, and that it makes the row active and changes nothing else |
| CategoryProofs.CreateKeepsForest | src/modules/categories/category.service.ts:108-121 | creation keeps the rules: acyclic, parents of the same type, active below active, parents of the system or the owner, names distinct |
| CategoryProofs.UpdateKeepsForest | src/modules/categories/category.service.ts:123-164 | an update keeps them |
| CategoryProofs.ArchiveKeepsForest | src/modules/categories/category.repository.ts:234-276 | archiving a branch keeps them |
| CategoryProofs.RestoreKeepsForest | src/modules/categories/category.service.ts:182-195 | restoring keeps them |
| CategoryProofs.RunKeepsForest | src/modules/categories/category.service.ts:108-213 | every run of the four operations, by any users, keeps them |
| CategoryProofs.SeedIsForest | prisma/seed.ts:393-518 | a table of system categories on two levels, with distinct names, satisfies them |
| CategoryProofs.RunFromSeedKeepsForest | prisma/seed.ts:393-518 | from the categories of the seed on, every run keeps them |
| CategoryProofs.BranchIsDescendants | src/modules/categories/category.repository.ts:245-269 | what is archived are the target and all its descendants in the whole table |
| CategoryProofs.ArchivesDescendants | src/modules/categories/category.repository.ts:266-269 | after archiving, exactly these rows are archived in addition, and nothing else changes |
| CategoryProofs.RestoreUndoesArchiveIff | src/modules/categories/category.service.ts:166-195 | restoring right after archiving gives the table back exactly when every proper descendant was archived before |
| CategoryProofs.UniqueIndexHolds | src/modules/categories/category.service.ts:254-262 | after every run no two rows share owner, name and type |
| CategoryProofs.UpdateCycleIff | src/modules/categories/category.service.ts:146-156 | an update fails as a cycle exactly when all else is fine and the parent is the category or below it |
| CategoryTree.CreateNodes | src/modules/categories/category.service.ts:50-54 | one fresh node without children for every row |
| CategoryTree.LinkNodes | src/modules/categories/category.service.ts:56-69 | afterwards every node has the nodes of its child rows as children, in the order of the list, and the roots are the rows without a listed parent |
| CategoryTree.ChildrenInOrder | src/modules/categories/category.service.ts:57-65 | the children of a row are exactly the rows listed under it, in the order of the list |
| CategoryTree.RootsInOrder | src/modules/categories/category.service.ts:63-68 | the roots are exactly the rows whose parent is not listed, in the order of the list |
| CategoryTreeProofs.InTreeIff | src/modules/categories/category.service.ts:57-69 | a row is in the tree of another exactly when that is an ancestor of it |
| CategoryTreeProofs.TreeDistinct | src/modules/categories/category.service.ts:57-69 | no row occurs twice in a tree |
| CategoryTreeProofs.ForestHoldsEndingRows | src/modules/categories/category.service.ts:49-69 | for any list, the forest holds exactly the rows whose chain of parents ends, each once |
| CategoryTreeProofs.AcyclicForestHoldsAll | src/modules/categories/category.service.ts:49-69 | with acyclic links it holds every row |
| CategorySearch.NodeShowsTree | src/modules/categories/category.service.ts:56-69 | the linked heap nodes show the specified trees |
| CategorySearch.ForestPlaces | src/modules/categories/category.service.ts:63-68 | every row is below its listed parent, or a root when the list does not hold that parent |
| CategorySearch.PruneNode | src/modules/categories/category.service.ts:74-84 | pruning a heap node gives the pruned tree that it shows |
| CategorySearch.PrunedIffMatch | src/modules/categories/category.service.ts:79-83 | a node is kept exactly when it or a descendant matches |
| CategorySearch.PruneKeepsMatches | src/modules/categories/category.service.ts:74-88 | pruning keeps exactly the nodes with a match in their tree, in order and under the same parents |
| CategorySearch.FindTree | src/modules/categories/category.service.ts:49-95 | the result is the forest of the list, pruned if there is a search |
| RateLimiter.Limiter.PruneRateLimitMap | src/middlewares/rate-limit.middleware.ts:12-27 | both deleting loops equal the specification on the ordered map |
| RateLimiter.Limiter.RateLimit | src/middlewares/rate-limit.middleware.ts:86-116 | one request on the map equals the specification, with the verdict |
| RateLimiter.SweptKeeps | src/middlewares/rate-limit.middleware.ts:87-90 | a clean-up takes a live record away only in the capacity branch, and only when the map is full of live records |
| RateLimiter.SweptIs | src/middlewares/rate-limit.middleware.ts:12-27 | when a clean-up is due, it takes away every expired record, and of ten thousand live ones or more the thousand whose keys came first |
| RateLimiter.RetryIsLeast | src/middlewares/rate-limit.middleware.ts:106-108 | a refused client is told the least number of whole seconds, but at least one, that reach the end of the window |
| RateLimiter.NeverOverCapacity | src/middlewares/rate-limit.middleware.ts:86-103 | over any run the map never holds more than its capacity |
| RateLimiter.AtMostTwoQuotas | src/middlewares/rate-limit.middleware.ts:86-116 | over any run a key is admitted at most twice its quota in any interval of one window, and one quota more for every eviction of it |
| RateLimiter.AtMostOneQuotaPerWindow | src/middlewares/rate-limit.middleware.ts:94-114 | and at most its quota from the request that opens a window until the window ends |
| RateLimiter.ExactlyQuotaInWindow | src/middlewares/rate-limit.middleware.ts:94-114 | within a window that a key opens, a request of it passes exactly when fewer than the quota came before it, so that as many pass as the quota allows |
| RateLimiter.WaitingIsEnough | src/middlewares/rate-limit.middleware.ts:94-114 | a client that waits as long as a refusal tells it is admitted, whatever requests of others come in between |
| LockService.Service.Acquire | src/common/services/lock.service.ts:36-47 | acquiring on the map of locks equals the specification |
| LockService.Service.Release | src/common/services/lock.service.ts:80-90 | releasing on the map of locks equals the specification |
| LockService.AnswerOpens | src/common/services/lock.service.ts:36-90 | acquiring answers with the token of the lock it stores until its time is over; that token releases the lock, and no other non-empty one does |
| LockService.ReleaseAnswers | src/common/services/lock.service.ts:80-90 | a release answers whether it took the lock of the key away, which it does with the token of the lock or none, and touches no other |
| LockService.RunFaithful | src/common/services/lock.service.ts:36-90 | after any run with fresh tokens the map holds exactly the live grants |
| LockService.MutualExclusion | src/common/services/lock.service.ts:36-47 | at any time at most one grant of a key is neither released nor expired |
| LockService.AcquiredIffFree | src/common/services/lock.service.ts:37-47 | acquiring succeeds exactly when no holder of the key is live |
| LockService.ReleaseSparesOthers | src/common/services/lock.service.ts:80-90 | a release never takes the lock of another live holder away |
| LockService.RunIsSafeIff | src/common/services/lock.service.ts:36-90 | whoever calls release with whatever token or none: a run keeps one live holder per key at most, with its lock in the map, exactly when no release in it carries the token of a live holder who does not call it, or none |
| LockService.HitLetsSecondIn | src/common/services/lock.service.ts:80-90 | after such a release the next one who asks gets the lock: two hold it |
| LockService.SharedTokenHits | src/common/services/lock.service.ts:85-87 | a stale holder with the same token meets the lock of a later one |
| LockService.MissingTokenHits | src/common/services/lock.service.ts:85-87 | and so does a stale holder that passes no token |
| LockService.StrangerHits | src/common/services/lock.service.ts:85-87 | and anybody else without a token |
| MemoryCache.CacheService.Get | src/common/services/cache.service.ts:137-147 | reading equals the specification, including the removal of a stale entry |
| MemoryCache.CacheService.Set | src/common/services/cache.service.ts:165-179 | writing equals the specification, including eviction of the first key at capacity |
| MemoryCache.ReadableUntil | src/common/services/cache.service.ts:137-179 | what is set can be read until exactly so many seconds later, or for ever without a positive number of them |
| MemoryCache.GetTakesExpired | src/common/services/cache.service.ts:137-147 | reading takes the entry away when it has expired, and no other |
| MemoryCache.CacheService.PruneMemoryCache | src/common/services/cache.service.ts:109-123 | the pruning loop equals the specification |
| MemoryCache.GetIsRefGetUnlessEvicted | src/common/services/cache.service.ts:137-191 | after any run a read answers as a plain map with expiry would, or nothing if the key was evicted, and the capacity holds |
| MemoryCache.PruneChangesNoAnswer | src/common/services/cache.service.ts:109-123 | pruning at any moment changes no later answer |
| MemoryCache.SetLosesFirstIff | src/common/services/cache.service.ts:165-179 | setting a key loses another one exactly when the cache is full and begins with that one, whether or not the key is there |
| MemoryCache.OverwritingEvicts | src/common/services/cache.service.ts:165-172 | a full cache in which setting a key that is there loses another |
| MemoryCache.OldestGoesFirst | src/common/services/cache.service.ts:165-179 | over any run the keys are in the order in which their stays began, so that the one evicted has stayed longest; setting a key again does not renew its stay |
| MemoryCache.NeverFullExact | src/common/services/cache.service.ts:137-191 | a run whose sets never meet a full cache sees no difference from the plain map |
| MemoryCache.FewKeysExact | src/common/services/cache.service.ts:165-172 | nor does a run that sets fewer keys than the capacity |

## Left out

- Numbers in JSON: the payload of a backup has none; values are built from null, booleans, strings, arrays and objects.
- Zod schemas: the schema of the data of a file is modelled, that of the file around them is not; BackupImport takes the rows of a file as validated, and BackupRoundTrip.FileOf reads them from accepted data.
- Budgets and saving goals of a backup: the import creates them without deduplication, so that every import adds them once more; that a theorem says an import changes nothing is about wallets, categories, transactions and transfers.
- BackupImport.Import: does not model icons, colours, descriptions of wallets, locations, creation times and the audit log, which no decision depends on, nor the overflow of an 18-digit decimal.
- ImportWalletProofs.CreatedRows: assumes that no resolution names an id that is handed out only during the import; random ids cannot be named in advance, the counter of the model could be.
- ImportEffects.ImportTwice: assumes wallet names of the file that differ in more than case and white space, and that stored dates go back into the column as they are; ImportEffects.SecondImportOfAnyNames assumes neither, and says less of the case in which the first unknown wallet can be made.
- OwnBackup.ImportOwnBackup: starts from the exported rows; BackupRoundTrip.AcceptedIsOwnBackup ties them to the file. Assumes that names are stored trimmed and that stored dates and instants go back into their columns as they are.
- BackupPayload.ExportAcceptedIff: ids are not empty, currencies have 1 to 10 characters, stored amounts other than balances are not negative, and dates have the form YYYY-MM-DD, as the columns and the services that fill them provide.
- Currencies of a file: not part of the import that is modelled; the schema of the file admits up to ten characters and the column three, so that an import can fail there.
- Sorting of imported transactions: `localeCompare` is modelled as the order of code units, which agrees on dates of the form YYYY-MM-DD.
- Case folding, trimming and dates of the runtime: parameters with laws, which TextRules shows to hold of the ASCII operations; SHA-256 is taken to be free of collisions, the cipher to invert itself.
- The preview of an import: counts that change nothing.
- Wall-clock times: conversion between instants and business dates needs the time zone database, so today is a parameter.
- Renewal outside the years 0100 to 9999: renewal works on day numbers, and BudgetPeriods.CycleEndsBeforeNext ties them to the date strings inside that range.
- RenewalProofs.TailIsFree: is about tables in which no date was moved; the theorems on passes do not assume that.
- RenewalRounds.CatchUpRounds: assumes at most fifty due budgets, so that the query returns all of them, and a longest chain that shares its group with no other due budget; RenewalRounds.DrainBound is the bound without both, and RenewalRounds.StillBehind the other direction for any number.
- RenewalRounds.Starvation: is about runs of passes only; users who edit or archive budgets in between are not part of such a run. The catch-up for one user, which nothing calls, repeats the inner loop.
- LockService.RunFaithful: assumes a fresh token for every acquisition of a key and that holders pass it; LockService.RunIsSafeIff says when a run is safe without.
- Names, notifications and alert thresholds of renewed budgets, and their wallet: renewal drops the wallet of a budget, as the model does, and spending ignores it.
- Concurrency: every claim is about one call after the other; the server does not guard renewal and category updates against races.
- Redis: the limiter, the locks and the cache are modelled on their in-memory paths, and `clearPattern` is left out.
- Caching of the category tree, paging and listing of categories: no decision of the model depends on them.
- Authentication, wallets, transfers, debts, reports, anomaly scores, mail and storage: outside the four components above.
