# merch-shop coin ledger, in Dafny

This is a model of the service layer of merch-shop, an internal shop where
every employee has a coin balance. It covers four operations:

- **AuthenticateUser** logs a user in, or registers an unknown username with 1000 coins.
- **TransferCoins** sends coins to another user.
- **PurchaseItem** buys an item from a fixed catalog.
- **GetInfo** reports the balance, the inventory (purchases counted by item) and the coin history.

The model also covers the records of `internal/model/models.go` and the
`Repository` store the operations call, with the semantics of the Postgres
implementation.

Files:

| file | module | contents |
|---|---|---|
| `wrappers.dfy` | `Wrappers` | `Option`, `Result`, and `Outcome` (the value an `error`-only Go function returns) |
| `model.dfy` | `Model` | the records; the shape a stored transaction should have |
| `errors.dfy` | `Errors` | the errors, each with the text Go prints |
| `store.dfy` | `Store` | the store as a value `State` with one pure function per call, and the class `Repository`, whose methods update its `users`, `byName`, `transactions` and `purchases` fields and are each proved equal to that function |
| `ledger.dfy` | `Ledger` | the ledger invariant and the total of all balances |
| `authentication.dfy`, `transfer.dfy`, `purchase.dfy`, `getinfo.dfy` | `Authentication`, `Transfer`, `Purchasing`, `Info` | one operation each |
| `scenario.dfy` | `Scenario` | the integration test's flow on concrete values |

Each state-changing operation is a method over a `Repository`. Its
postcondition ties the result and the new store to a pure function of the old
store: `AuthSpec`, `TransferSpec` or `PurchaseSpec`. The lemmas state what the
source promises about those functions.

GetInfo writes nothing. Its postcondition states the whole response directly.

**Store failures.** The database can fail on any call. The repository's
`faults` map models this: it names the calls that fail, identified by their
arguments, and the message each one returns. Every error path of the source is
therefore reachable, including a write that fails after an earlier write in
the same operation succeeded.

## Model

| member | source | states |
|---|---|---|
| Store.LookupName | internal/repository/database.go:19-29 | a faulted call returns its transport error; otherwise success exactly when some stored user has the name, the stored row is returned, and a miss is "user not found" |
| Store.LookupId | internal/repository/database.go:42-52 | success exactly when the call is not faulted and the id is stored, returning that row; otherwise the transport error or "user not found" |
| Store.Inserted | internal/repository/database.go:31-34 | a faulted insert fails with its transport error; otherwise, on a well-formed store, it succeeds exactly when the username is free and fails with "user already exists" when it is taken (the unique constraint); a failure changes nothing; the new row gets the next id and is the only row added; the store stays well-formed |
| Store.RewrittenChangesOneRow | internal/repository/database.go:36-40 | an update replaces only the password and coins of row `u.id`; every other row, the username index, transactions and purchases are unchanged; a missing id changes nothing |
| Store.Updated | internal/repository/database.go:36-40 | the update fails exactly when its call is faulted, with its transport error, and then the store is unchanged; otherwise the new store is the one row rewritten, whose effect `RewrittenChangesOneRow` states |
| Store.AppendedTransaction | internal/repository/database.go:54-57 | the insert fails exactly when faulted, leaving the store unchanged; otherwise the record is appended with the next row number |
| Store.AppendedPurchase | internal/repository/database.go:59-62 | the insert fails exactly when faulted, leaving the store unchanged; otherwise the purchase is appended with the next row number |
| Store.PurchasesByUser | internal/repository/database.go:64-80 | exactly the purchases of that user, each as many times as it is stored, no more rows than stored |
| Store.TransactionsTo | internal/repository/database.go:82-98 | exactly the transactions whose destination is the user, of either type, each as many times as it is stored |
| Store.TransactionsFrom | internal/repository/database.go:100-116 | exactly the transactions whose source is the user, each as many times as it is stored; a NULL source never matches |
| Store.Query | internal/repository/database.go:64-80 | a query fails exactly when its call is faulted; otherwise it returns the selected rows |
| Store.Repository.constructor | internal/repository/database.go:15-17 | a new store is empty, well-formed, with id sequence at 1 |
| Store.Repository.GetUserByUsername | internal/repository/database.go:19-29 | returns what `LookupName` gives on the current tables, changing nothing |
| Store.Repository.GetUserById | internal/repository/database.go:42-52 | returns what `LookupId` gives on the current tables, changing nothing |
| Store.Repository.CreateUser | internal/repository/database.go:31-34 | the new tables and result are those of `Inserted`; the store stays well-formed |
| Store.Repository.UpdateUser | internal/repository/database.go:36-40 | the new tables and result are those of `Updated`; the store stays well-formed |
| Store.Repository.CreateTransaction | internal/repository/database.go:54-57 | the new tables and result are those of `AppendedTransaction`; the store stays well-formed |
| Store.Repository.CreatePurchase | internal/repository/database.go:59-62 | the new tables and result are those of `AppendedPurchase`; the store stays well-formed |
| Store.Repository.GetPurchasesByUserId | internal/repository/database.go:64-80 | the user's purchases, or the query's transport error |
| Store.Repository.GetTransactionsReceivedByUserId | internal/repository/database.go:82-98 | the transactions to the user, or the query's transport error |
| Store.Repository.GetTransactionsSentByUserId | internal/repository/database.go:100-116 | the transactions from the user, or the query's transport error |
| Errors.NotFoundByMessage | internal/service/authentication.go:13 | comparing error text singles out "user not found", which a transport error with the same text also matches |
| Ledger.ChangeOneBalance | internal/service/transfer.go:25-26 | changing one balance changes the total of all balances by the difference |
| Ledger.AddOneUser | internal/service/authentication.go:14-19 | adding an account adds its balance to the total |
| Ledger.RewriteKeepsInvariant | internal/repository/database.go:36-40 | an update with a non-negative balance keeps the ledger invariant |
| Ledger.AppendTransactionKeepsInvariant | internal/model/models.go:13-20 | appending a well-formed transaction between existing accounts keeps the ledger invariant |
| Ledger.AppendPurchaseKeepsInvariant | internal/model/models.go:22-28 | appending a positive-price purchase by an existing account keeps the ledger invariant |
| Authentication.AuthSpec | internal/service/authentication.go:10-31 | a failed authentication writes nothing; the store stays well-formed; a successful one returns a stored account with the requested username and password |
| Authentication.AuthenticateUser | internal/service/authentication.go:10-31 | the result and new store are those of `AuthSpec`; the store stays well-formed |
| Authentication.RegisterUnknownUser | internal/service/authentication.go:13-22 | an unknown name is registered with the given password and 1000 coins under the next id and returned; it can then be looked up; nothing else changes; the total grows by 1000 |
| Authentication.LoginWithMatchingPassword | internal/service/authentication.go:27-30 | a known name with the stored password returns the stored account and writes nothing |
| Authentication.LoginWithWrongPassword | internal/service/authentication.go:27-29 | a known name with another password fails with "invalid credentials" and writes nothing |
| Authentication.CreateUserFailurePropagates | internal/service/authentication.go:19-21 | if registration's insert fails, its error is returned and the store is unchanged |
| Authentication.DuplicateRegistrationRefused | internal/service/authentication.go:13-21 | a lookup failing with the text "user not found" for a taken name leads to "user already exists" and no change |
| Authentication.OtherLookupErrorPropagates | internal/service/authentication.go:24 | any other lookup error is returned unchanged and nothing is created |
| Authentication.ReauthenticationIsStable | internal/service/authentication.go:10-31 | after a successful authentication, repeating it returns the same account and changes nothing |
| Authentication.AuthKeepsExistingAccounts | internal/service/authentication.go:10-31 | existing accounts, transactions and purchases are never changed; at most one account is added |
| Authentication.AuthPreservesInvariant | internal/service/authentication.go:10-31 | every outcome keeps the ledger invariant |
| Transfer.TransferSpec | internal/service/transfer.go:11-47 | a transfer creates or removes no account and records no purchase; a failed one records no transaction, a successful one exactly one |
| Transfer.TransferWrites | internal/service/transfer.go:25-44 | the write phase creates or removes no account and records no purchase; it records nothing if a write fails, and the one transfer record from sender to recipient when all succeed |
| Transfer.TransferCoins | internal/service/transfer.go:11-47 | the result and new store are those of `TransferSpec`; the store stays well-formed |
| Transfer.TransferSucceedsIff | internal/service/transfer.go:11-47 | success exactly when both names resolve, the sender has at least the amount, and none of the three writes fails |
| Transfer.TransferMovesCoins | internal/service/transfer.go:25-44 | between two accounts: sender minus amount, recipient plus amount, other accounts unchanged, one transfer record appended, total conserved |
| Transfer.TransferInsufficientCoins | internal/service/transfer.go:16-18 | a balance below the amount fails with "insufficient coins" and writes nothing, whatever the recipient |
| Transfer.TransferRecipientNotFound | internal/service/transfer.go:20-23 | an unknown recipient fails with "user not found" before any write |
| Transfer.TransferSenderLookupFails | internal/service/transfer.go:12-15 | a failed sender lookup is returned as it is and nothing changes |
| Transfer.TransferChecksBeforeWrites | internal/service/transfer.go:12-33 | the store changes only if both lookups succeeded and the balance covers the amount |
| Transfer.TransferCreditWriteFails | internal/service/transfer.go:28-33 | if the credit write fails after the debit was written, the sender keeps the debit, the recipient is unchanged, no record is appended, and the total drops by the amount |
| Transfer.SelfTransferMints | internal/service/transfer.go:20-33 | a successful self-transfer leaves the account with the amount added and a record appended, and raises the total by the amount |
| Transfer.SelfTransferExample | internal/service/transfer.go:20-33 | an account with 1000 coins that sends 100 to itself ends with 1100 |
| Transfer.TransferPreservesInvariant | internal/service/transfer.go:11-47 | every outcome of a positive-amount transfer, even one cut short by a failed write, keeps the ledger invariant |
| Transfer.CorrectedTransferSpec | internal/service/transfer.go:11-47 | the corrected transfer, like the code, creates or removes no account, records no purchase, and records one transaction exactly when it succeeds |
| Transfer.CorrectedTransferConserves | internal/service/transfer.go:25-33 | the corrected transfer conserves the total whenever it succeeds, self-transfers included |
| Transfer.CorrectedAgreesOnDistinctAccounts | internal/service/transfer.go:25-33 | between two different accounts the corrected transfer does exactly what the code does |
| Purchasing.CatalogShape | internal/service/purchase.go:11-22 | the catalog constant `Catalog`: every price is between 10 (the pen) and 500 (the pink hoody), so positive |
| Purchasing.PurchaseSpec | internal/service/purchase.go:24-61 | a purchase creates or removes no account; a failed one records no transaction and at most one purchase row; a successful one exactly one of each |
| Purchasing.PurchaseWrites | internal/service/purchase.go:38-60 | the write phase creates or removes no account; if a write fails no transaction is recorded and at most the purchase row is; when all succeed the purchase row and the sourceless transaction of the buyer are appended |
| Purchasing.PurchaseItem | internal/service/purchase.go:24-61 | the result and new store are those of `PurchaseSpec`; the store stays well-formed |
| Purchasing.UnknownItemRefused | internal/service/purchase.go:25-28 | an item not in the catalog fails with "item not found" before the store is consulted, whatever the store holds or faults on |
| Purchasing.PurchaseSucceedsIff | internal/service/purchase.go:24-61 | success exactly when the item is listed, the buyer resolves with at least the price, and no write fails |
| Purchasing.PurchaseInsufficientCoins | internal/service/purchase.go:34-36 | too few coins fails with "insufficient coins" and writes nothing |
| Purchasing.PurchaseChecksBeforeWrites | internal/service/purchase.go:25-41 | the store changes only if the item, the buyer and the balance check all passed |
| Purchasing.PurchaseDebitsPrice | internal/service/purchase.go:38-60 | the buyer loses exactly the catalog price and stays non-negative; other accounts are unchanged; one purchase row and one sourceless "purchase" transaction are appended; the total drops by the price |
| Purchasing.PurchaseExactBalance | internal/service/purchase.go:34-38 | a balance equal to the price is accepted and ends at zero |
| Purchasing.PurchasePreservesInvariant | internal/service/purchase.go:24-61 | every outcome, complete or cut short, keeps the ledger invariant |
| Info.InfoError | internal/service/getinfo.go:9-48 | there is no error exactly when the id is stored and none of the four store calls fails; a faulted lookup gives its transport error, an unknown id "user not found" |
| Info.GetInfo | internal/service/getinfo.go:8-67 | fails exactly when the user lookup or one of the three queries fails, with the first failure's error; otherwise reports the stored balance, an inventory of the user's purchases whose quantities sum to their number, and the received and sent histories of the user's transactions |
| Info.Count | internal/service/getinfo.go:18-21 | the count of an item is positive exactly when some purchase is of that item, and is at most the number of purchases |
| Info.CountItems | internal/service/getinfo.go:18-21 | the map holds exactly the purchased items, each with its number of purchases |
| Info.ListCounts | internal/service/getinfo.go:22-25 | one entry per key of the map, with its count, no key twice, in no fixed order |
| Info.BuildInventory | internal/service/getinfo.go:18-25 | the inventory has one entry per purchased item, carrying its count, and the quantities sum to the number of purchases |
| Info.InventoryTotal | internal/service/getinfo.go:18-25 | the quantities of any inventory of the purchases sum to the number of purchases |
| Info.InventoriesAgree | internal/service/getinfo.go:22-25 | two inventories of the same purchases hold the same entries, whatever the map's iteration order |
| Info.CollectAppend | internal/service/getinfo.go:31-59 | the history of a concatenation is the concatenation of the histories |
| Info.ReceivedEntry | internal/service/getinfo.go:33-42 | a transaction gives at most one received entry |
| Info.SentEntry | internal/service/getinfo.go:51-58 | a transaction gives at most one sent entry |
| Info.ReceivedHistory | internal/service/getinfo.go:31-43 | the received history has at most one entry per row |
| Info.SentHistory | internal/service/getinfo.go:49-59 | the sent history has at most one entry per row |
| Info.CollectReceived | internal/service/getinfo.go:31-43 | the loop builds exactly the received history of the rows |
| Info.CollectSent | internal/service/getinfo.go:49-59 | the loop builds exactly the sent history of the rows |
| Info.SourcelessNeverReceived | internal/service/getinfo.go:33 | a transaction without a source (a purchase) never appears in the received history |
| Info.UnresolvedSenderSkipped | internal/service/getinfo.go:34-37 | a source that cannot be looked up is skipped without failing |
| Info.ResolvedSenderListed | internal/service/getinfo.go:38-41 | a resolved source contributes its username and the amount, in place |
| Info.UnresolvedRecipientSkipped | internal/service/getinfo.go:51-54 | a recipient that cannot be looked up is skipped without failing |
| Info.ResolvedRecipientListed | internal/service/getinfo.go:55-58 | a resolved recipient contributes its username and the amount, in place |
| Info.ReceivedHistoryIsOfTransfers | internal/service/getinfo.go:31-43 | on well-formed records, the received history is the history of the transfers alone |
| Scenario.RegisterBoth | integration/integration_test.go:105-131 | two registrations on an empty store give ids 1 and 2 with 1000 coins each |
| Scenario.SendHundred | integration/integration_test.go:133-175 | sending 100 leaves 900 and 1100 and one transfer record, as the test expects |
| Scenario.BuyCup | internal/service/purchase.go:24-61 | the sender, at 900, buys a cup for 20 and is left with 880 |
| Scenario.SenderQueries | internal/repository/database.go:64-116 | the store's queries return the sender's rows |
| Scenario.RecipientQueries | internal/repository/database.go:82-116 | the store's queries return the recipient's rows |
| Scenario.SenderInfoAfterwards | internal/service/getinfo.go:18-59 | the sender has one cup, nothing received, and 100 sent to "recipientUser" |
| Scenario.RecipientInfoAfterwards | internal/service/getinfo.go:31-59 | the recipient has 100 received from "senderUser" and nothing sent |

## Left out

- Timestamps (`CreatedAt`, `NOW()`, `time.Now()`) are not modelled. Nothing in the core reads them.
- `int64` and `int` are unbounded integers, so wrap-around is not modelled. It can be reached: the handler only demands a positive amount (`internal/model/models.go:67`), and each full-balance self-transfer doubles the balance (see Findings), so about 54 of them from 1000 coins overflow `recipient.Coins += amount` (`internal/service/transfer.go:26`).
- SQL row order is modelled as insertion order. The queries have no `ORDER BY`, so Postgres promises no order; the histories are proved in whatever order the rows come.
- Transport failures are fixed per call and its arguments by `faults`. A store that fails on one attempt and succeeds on the next could reach a state the model does not.
- Concurrency and transactions are not modelled. The service opens no database transaction, and each operation runs to completion on its own.
- The store is modelled with Postgres's copy-on-read semantics. The in-memory fake used by the unit tests, which returns shared pointers, is not modelled, except as the corrected transfer.
- Postgres can consume an id-sequence value when an insert fails. The model assigns ids only on success.
- `CreateUser`'s unique-constraint violation is reported as `UserAlreadyExists`. The real driver's message text is not modelled.
- JWT issuing and checking, the HTTP handlers, and request binding (`binding:"required,gt=0"`) are not modelled. The service does not check that a transfer amount is positive itself; the handler does. `Transfer.TransferPreservesInvariant` therefore assumes `amount > 0`, and `Transfer.TransferCoins` accepts any amount, as the code does.
- Transfer.TransferCoins, Purchasing.PurchaseItem and Authentication.AuthenticateUser require a well-formed store (`repo.Valid()`). This is the state the database's constraints maintain, not a check the code makes.
- GetInfo's three lists start as nil slices in Go (`internal/service/getinfo.go:22,31,49`), which JSON encodes as `null` when empty. The model returns the empty sequence; the JSON encoding is not modelled.
- Store.Updated: its contract names the rewritten store rather than listing the row-by-row effect; that effect is stated once, in Store.RewrittenChangesOneRow.
- Info.InventoriesAgree: proves only that every entry of one inventory is in the other. Equal lengths are not proved, though both follow from distinct entries that cover the same items.

## Findings

| source | as written | input that shows it | evidently intended | confidence | as-written member | corrected member |
|---|---|---|---|---|---|---|
| internal/service/transfer.go:20-33 | the sender and the recipient are read as two separate copies, both copies are written back, and the credited copy is written last | `TransferCoins(repo, "alice", "alice", 100)` with alice at 1000 coins leaves alice at 1100 and records a transfer | a self-transfer leaves the balance unchanged (or is refused): coins are only moved, never created | not executed | Transfer.SelfTransferMints | Transfer.CorrectedTransferConserves |
