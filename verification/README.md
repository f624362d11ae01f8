# TradingHub: a verified model

TradingHub signs users in with rotating refresh tokens, keeps a ledger of accounts and signed
transactions, and limits login attempts. This project models those three in Dafny and proves what
they promise over every input, every run and, where requests interleave, every interleaving.

## How it is laid out

- **Refresh tokens.** `Sessions` is the session store and the services as code that changes it in
  place inside a transaction. `SessionRuns` takes each request as one atomic step and proves that
  the table implements a much simpler machine. `Interleaving` takes requests apart into lock,
  decide, delete row by row and commit, with waiters that re-read the committed row, a DELETE that
  sees the rows committed when it began, and aborts at any point; `InterleavingResults` is what
  follows. `SerialRequests` and `CommitOrder` show that the two views agree, for one request and for
  whole runs. `Browser` adds other clients, tabs, the promise per tab, the lock across tabs, the
  cookie jar and the network, `Replays` is about the calls that wait for a rotation, and
  `LostResponses` about what comes of a lost answer. `SampleLogin` has the tokens of the runs that
  show a condition is needed.
- **The ledger.** `Lists` has selections, sums and groupings; `Ledger` the tables and what each
  request does to them; `LedgerService` the same as the services run it, with loops and updates in
  place. `Summary`, `Balances` and `Paging` are the derived reads, written as the joins, filters and
  groupings of the queries. `Recording`, `Transfers` and `Accounts` say what each request stores and
  what it does to every figure. `LedgerRuns`, `Relabelling` and `Separation` are about whole runs,
  unit changes and several users; `ConcurrentPatches` is about patches
  that interleave. `Decimals` is the amount printer.
- **The limiter.** `RateLimit`.

Specification functions say what an operation does; the methods are proved against them, and the
lemmas are about the functions. Time is in microseconds and amounts in units of 10^-18, the
resolutions of the columns. Random tokens and ids, database-assigned ids and clock readings are
parameters; where it matters they are assumed fresh (`Enabled`, `FreshIds`) or in order (`Ordered`).

## Where a claim needs a condition

- **A replay does not always empty its family.**
  `backend/src/tradinghub/auth/services/auth.py:112-113` says that the whole family goes.
  A rotation of another token of the family that commits while the DELETE is running escapes it:
  `RevocationIsCompleteUnlessRaced` gives the exact condition and `RevocationCanBeRaced` a reachable
  run. `RevocationIsCompleteWhenAlone` is what can be told beforehand.
- **The browser can trip reuse detection by itself** when a refresh response is lost.
  `ClientNeverTripsReuseDetection` assumes that none is lost while its token is still in the jar and
  its row in the table. `LossTripsExactlyWhenItHarms` shows that this is the exact condition.
- **A fixed window lets through almost twice its limit** in a stretch that straddles two windows:
  19 of 10, 59 of 30, and no more; 20 and 60 if the last instant of the stretch counts and a key
  at its deadline is expired. `AllowedInAnyWindow` and `BoundsAreMet`.
- **Transfers net to zero only while units stand.** An account's unit may be changed later without
  conversion. `TransferNetsToZeroWhenBalanced` gives the exact condition, `RelabelledTransferCounts`
  a reachable run that fails it, and `RelabellingMovesTheBalance` what a change does to the totals.
- **Two patches of one row can leave it with the wrong sign.** `update_transaction` reads the row
  without a lock. `SignsHoldExactlyWithoutClashes` gives the exact condition and
  `TwoPatchesCanClash` a run that fails it.
- **The two zeros print differently.** `OneValueOnePrint` has this as its one exception.
- **Logout.** The design document of 2026-08-09 on JWT authentication has logout delete the session
  row; the code deletes the family, and so does the model.

## Model

| member | source | states |
|---|---|---|
| Sessions.SessionDb.Commit | backend/src/tradinghub/core/database.py:47-49 | the transaction's view becomes the committed table |
| Sessions.SessionDb.Rollback | backend/src/tradinghub/core/database.py:50-52 | the transaction's view goes back to the committed table |
| Sessions.SessionDb.LockSessionByTokenHash | backend/src/tradinghub/auth/crud/session.py:12-22 | the row of that token, used and expired ones included, or none |
| Sessions.SessionDb.CreateSession | backend/src/tradinghub/auth/crud/session.py:25-46 | one unspent row is added and nothing else changes |
| Sessions.SessionDb.MarkSessionUsed | backend/src/tradinghub/auth/crud/session.py:49-51 | one row is marked used and nothing else changes |
| Sessions.SessionDb.RevokeFamily | backend/src/tradinghub/auth/crud/session.py:54-56 | exactly the rows of the family go; the others stay as they were |
| Sessions.SessionDb.IssueTokenPair | backend/src/tradinghub/auth/services/auth.py:156-166 | the pair names the user, and its refresh token has an unspent row in the family that expires 7 days on |
| Sessions.SessionDb.RefreshSession | backend/src/tradinghub/auth/services/auth.py:109-141 | a rotation is left pending; a failure leaves the committed table as the specification says, so a replay's revocation is already committed when the error is raised |
| Sessions.SessionDb.LogoutUser | backend/src/tradinghub/auth/services/auth.py:144-153 | the pending table is the specified one: the token's family is gone, or nothing is if the token is unknown |
| Sessions.SessionDb.HandleRefresh | backend/src/tradinghub/auth/routes.py:80-94 | one request against the committed table: it ends committed or rolled back, with the table and answer of the specification; no cookie fails like a rejected one |
| Sessions.SessionDb.HandleLogout | backend/src/tradinghub/auth/routes.py:97-107 | one committed request, never an error, with or without a cookie |
| Sessions.SessionDb.HandleLogin | backend/src/tradinghub/auth/routes.py:60-77 | one request: refused by the limiter or for bad credentials it changes nothing and says which, otherwise it commits a new family with one unspent row |
| SessionRuns.TableRefinesSimpleMachine | backend/src/tradinghub/auth/services/auth.py:109-166 | over every run of requests the table answers exactly as a machine that keeps, per login, one current token with its expiry and a set of retired ones: current and unexpired rotates, retired ends the login even when also expired, anything else is refused |
| SessionRuns.ServedRefines | backend/src/tradinghub/auth/services/auth.py:53-55 | one login, refresh or logout answers on the table as on the simple machine and keeps the two in correspondence |
| SessionRuns.RotatingRefines | backend/src/tradinghub/auth/services/auth.py:137-141 | burning a row and inserting its successor is retiring the current token and installing the next |
| SessionRuns.RevokingRefines | backend/src/tradinghub/auth/crud/session.py:54-56 | deleting a family's rows is forgetting that login and only it |
| SessionRuns.HolderIsTheRowsFamily | backend/src/tradinghub/auth/crud/session.py:12-22 | a token is held by a login exactly when it has a row, and then by the login the row names |
| SessionRuns.LoginStores | backend/src/tradinghub/auth/services/auth.py:156-166 | a login stores one unspent row for its user and family that expires 7 days after it was issued |
| SessionRuns.RotationStores | backend/src/tradinghub/auth/services/auth.py:137-141 | a rotation stamps the row presented with the time it was burnt, adds one unspent row of the same user and family that expires 7 days after it was issued, and touches nothing else |
| SessionRuns.TokenLivesSevenDays | backend/src/tradinghub/auth/security/tokens.py:12 | an unspent token is exchanged up to 7 days after it was issued, to the instant, and refused without a change after that |
| SessionRuns.RevocationIsPermanent | backend/src/tradinghub/auth/services/auth.py:121-131 | after a replay or a logout and any later requests the family has no row and presenting any of its tokens is refused and changes nothing, although the replay itself answers with a failure |
| Interleaving.NextKeepsInv | backend/src/tradinghub/auth/services/auth.py:115-141 | every step of every interleaved request, aborts included, keeps the invariant: chains and places agree, the stored rows are those not revoked, used marks sit exactly on exchanged tokens, locks are held apart |
| Interleaving.RunKeepsInv | backend/src/tradinghub/auth/crud/session.py:12-56 | the invariant holds after any interleaving of any number of requests |
| Interleaving.AppendExtendsHistory | backend/src/tradinghub/auth/services/auth.py:137-141 | committing a successor spends every earlier token of its chain and no other |
| Interleaving.DeletionKeepsDb | backend/src/tradinghub/auth/crud/session.py:54-56 | committing a DELETE that ran on a snapshot keeps the table sound: it took every row of its family that was issued before it began |
| InterleavingResults.RowsAreASuffixOfTheChain | backend/src/tradinghub/auth/crud/session.py:12-56 | in every reachable committed table the rows of each login are the end of its issuance chain, and of those only the last link is unspent |
| InterleavingResults.TokenIsExchangedOnce | backend/src/tradinghub/auth/services/auth.py:115-141 | however many requests race one token, at most one is answered with a pair, and the pair carries the next link of that token's chain |
| InterleavingResults.EmptyFamilyStaysEmpty | backend/src/tradinghub/auth/services/auth.py:144-153 | a login that has lost every row gets none back under any interleaving |
| InterleavingResults.DeletionCommits | backend/src/tradinghub/auth/crud/session.py:54-56 | a committing DELETE leaves its family without a row exactly when nothing was issued in the family since its snapshot |
| InterleavingResults.RevocationIsCompleteUnlessRaced | backend/src/tradinghub/auth/services/auth.py:120-131 | a replay or logout leaves its family without a row if and only if no exchange of another of its tokens commits between the beginning and the end of the DELETE |
| InterleavingResults.RevocationIsCompleteWhenAlone | backend/src/tradinghub/auth/services/auth.py:115-131 | if no other request is refreshing another token of the family when the DELETE begins and none begins to while it runs, however many race the same token, the family is left without a row, the winner's successor included |
| InterleavingResults.RevocationCanBeRaced | backend/src/tradinghub/auth/services/auth.py:129-130 | a reachable run in which a replay's DELETE is overtaken and the login keeps a live token |
| SerialRequests.SerialRequestIsAtomic | backend/src/tradinghub/core/database.py:39-52 | a refresh or logout whose steps are not interleaved leaves the table and answer of the atomic request, whatever order the DELETE visits rows in |
| CommitOrder.DeletionIsAtomicExactly | backend/src/tradinghub/auth/crud/session.py:54-56 | a committing DELETE takes exactly the family's rows as they are then if and only if no token of the family was issued since it began |
| CommitOrder.StepIsAtomicExactly | backend/src/tradinghub/core/database.py:39-52 | a step that answers a request does to the table what the request does as one atomic action, and answers the same, if and only if it is no overtaken DELETE; every other step changes nothing |
| CommitOrder.InterleavedRunsAreSerial | backend/src/tradinghub/auth/services/auth.py:109-153 | any interleaving in which no DELETE is overtaken answers, and leaves the table, as the same requests made one at a time in the order of their answers, and as the machine of one current token per login |
| Browser.ActionKeepsInv | frontend/src/lib/api/client.ts:42-94 | every action of tabs, jar, network, server and other clients, except giving up on a refresh whose token is still in the jar and stored, keeps: no refresh of this client's logins under way but the posted one and those given up on, the posted token and the jar's unspent, revoked or about to be replaced, a token given up on in nobody's hands |
| Browser.ClientNeverTripsReuseDetection | frontend/src/lib/api/client.ts:42-77 | any number of tabs, logins and logouts, among any requests of other clients: while every refresh response is delivered, or lost only after its token has left the jar or the table, no refresh of this client finds its token used, no two but those given up on are under way at once, and only logouts revoke its logins |
| LostResponses.HarmfulLossCanTrip | frontend/src/lib/api/client.ts:47-63 | in every world the client can come to, whatever it lost before, giving up on a refresh, answered or not, while the jar still holds the token it carries and the row of that token is stored can end in the reuse branch with nothing more lost |
| LostResponses.LossTripsExactlyWhenItHarms | frontend/src/lib/api/client.ts:47-63 | after any run without such a loss, giving up on a refresh can end in reuse, without another such loss, if and only if it is one: the jar still holds its token and the row is stored |
| LostResponses.OneLostResponseTripsIt | frontend/src/lib/api/client.ts:47-63 | such a world is reachable: a login, one rotation and one lost response |
| Replays.RotationsStayAskedFor | frontend/src/lib/api/client.ts:67-90 | over any run a rotation is pending exactly for the tabs with a waiting call and only such a tab has the lock, so nothing but a refusal for want of a session leads to a refresh |
| Replays.JarChangesOtherwise | frontend/src/lib/api/client.ts:14-18 | besides rotations only a login's answer, which brings its token, and emptying change the jar, and only sending, succeeding and failing change a call |
| Browser.CallsAreReplayedOnce | frontend/src/lib/api/client.ts:79-94 | whatever is lost, no call costs more than two requests, and a call waits only while its tab's rotation is pending |
| Replays.CallsBeginAndEnd | frontend/src/lib/api/client.ts:79-94 | sending adds one call that was sent once, succeeding settles one, and nothing else changes |
| Replays.RequestsCarryTheJar | frontend/src/lib/api/client.ts:47-49 | a refresh and a logout carry the token the jar has when they are sent |
| Replays.FailureParksExactly | frontend/src/lib/api/client.ts:20-77 | a failed call waits, with a rotation of its tab pending, if and only if the API answered invalid_session in its envelope, the call is not the refresh and was not sent before; any other failure settles it |
| Replays.RotationResolvesCalls | frontend/src/lib/api/client.ts:47-94 | when a rotation ends, exactly the calls that waited in its tab are sent once more if it brought a pair, with the new token in the jar, and settle without another request otherwise; all other calls stay as they were and the lock is free |
| Replays.WaitingGoesOnInRun | frontend/src/lib/api/client.ts:47-62 | a waiting call stays as it was over any run in which its tab's rotation does not end |
| Replays.RefusedCallIsReplayed | frontend/src/lib/api/client.ts:67-94 | over any run from the refusal to the end of its tab's rotation: a call refused for want of a session is sent again if the rotation brings a pair, and settles after one request if it does not |
| RateLimit.Limiter.Count | backend/src/tradinghub/auth/security/rate_limit.py:54-70 | each key is incremented once and its window started only if it had none; the counts are those after the increment |
| RateLimit.Limiter.CountAttempt | backend/src/tradinghub/auth/security/rate_limit.py:20-51 | allowed exactly when no returned count is over its limit, and counted either way |
| RateLimit.KeysNeverCollide | backend/src/tradinghub/auth/security/rate_limit.py:73-84 | keys of the three kinds never coincide, and keys of one kind coincide only for the same email or address |
| RateLimit.AllowedInAnyWindow | backend/src/tradinghub/auth/security/rate_limit.py:12-70 | in any 900 seconds, over any interleaving of counted attempts, at most 19 logins of an email, 59 of an IP and 59 registrations of an IP are allowed; one more of each if the last instant counts and a key at its deadline is expired |
| RateLimit.BoundsAreMet | backend/src/tradinghub/auth/security/rate_limit.py:54-70 | each of those bounds is met by some run, with or without the last instant and under either reading of the deadline |
| RateLimit.AllowedInNumbers | backend/src/tradinghub/auth/security/rate_limit.py:12-51 | within 900 seconds no more than 19 logins of an email, 59 of an address and 59 registrations of an address are allowed |
| RateLimit.LimitsInNumbers | backend/src/tradinghub/auth/security/rate_limit.py:34-51 | a login is allowed while its email's count is at most 10 and its address's at most 30, a registration while its address's is at most 30 |
| RateLimit.BoundsInNumbers | backend/src/tradinghub/auth/security/rate_limit.py:12-15 | the bounds that are met are 19, 59 and 59, or one more under the stricter reading |
| RateLimit.WindowIsFixed | backend/src/tradinghub/auth/security/rate_limit.py:57-65 | while a key's window lasts, every attempt adds one to its count and none, refused ones included, moves its deadline |
| RateLimit.DeadlineUnlocks | backend/src/tradinghub/auth/security/rate_limit.py:57-65 | the first attempt after the deadline starts a window of its own |
| LedgerService.Service.GetAccount | backend/src/tradinghub/ledger/crud/accounts.py:17-24 | the answer is an account exactly when that account is stored with that id and that user, so one that is missing and one that is someone else's are answered alike |
| LedgerService.Service.GetAccountWithBalance | backend/src/tradinghub/ledger/crud/accounts.py:36-46 | the answer is what the accounts list has for that id, or that there is no such account |
| LedgerService.Service.GetAccounts | backend/src/tradinghub/ledger/crud/accounts.py:27-33 | exactly those of the ids that are the user's, each with its account |
| LedgerService.Service.CreateTransaction | backend/src/tradinghub/ledger/services/transactions.py:16-31 | the table and answer of the specification: the signed row is added, or nothing is if the account is not the user's |
| LedgerService.Service.UpdateTransaction | backend/src/tradinghub/ledger/services/transactions.py:44-66 | the loop of assignments leaves the specified row in place and every other row alone; a transfer's row is refused |
| LedgerService.Service.SentFields | backend/src/tradinghub/ledger/services/transactions.py:56-61 | assigning the sent fields one by one yields the patched row: what was sent or what there was, and the sign of the final kind when amount or kind was sent |
| LedgerService.Service.DeleteTransaction | backend/src/tradinghub/ledger/crud/transactions.py:94-112 | the rows for which the condition is true, not null, go, and the answer says whether any did |
| LedgerService.Service.CreateTransfer | backend/src/tradinghub/ledger/services/transfers.py:17-63 | every check precedes every write; the two or three rows are appended under one group, or an error leaves the tables as they were |
| LedgerService.Service.CreateAccount | backend/src/tradinghub/ledger/services/accounts.py:13-26 | the account is added, and answered with a balance of zero, unless the user has one whose name the database folds to the same form |
| LedgerService.Service.UpdateAccount | backend/src/tradinghub/ledger/services/accounts.py:39-63 | sent fields are assigned, archiving keeps the first date and restoring clears it, and the answer has the account as changed with its balance; a name taken by another of the user's accounts changes nothing |
| Transfers.TransferIsAcceptedExactly | backend/src/tradinghub/ledger/services/transfers.py:26-38 | a transfer is accepted if and only if its accounts differ, every account it names is stored for the user, and between accounts of one unit what arrives is what left; the first of these to fail says which error, and nothing is written |
| Transfers.TransferStoresItsRows | backend/src/tradinghub/ledger/services/transfers.py:40-84 | the rows stored after everything else and answered: one transfer row out, one in, and the fee as an expense in its account under its category, all with the time and note of the request under one group |
| Transfers.DeletionTakesExactly | backend/src/tradinghub/ledger/crud/transactions.py:94-112 | a deletion leaves, in order, exactly the rows that are neither the user's row of that id nor the user's rows of its transfer, and is answered as missing if and only if the user has no such row |
| Transfers.DeletingUndoesTransfer | backend/src/tradinghub/ledger/crud/transactions.py:94-112 | recording any transfer and deleting it by any one of its rows restores both tables, hence every figure and list |
| Transfers.DeletingPlainRowRemovesItAlone | backend/src/tradinghub/ledger/crud/transactions.py:99-111 | deleting a row outside any transfer removes that row only, though all such rows share a null group |
| Transfers.DeletingOthersRowsDoesNothing | backend/src/tradinghub/ledger/crud/transactions.py:94-112 | an id that is not the user's deletes nothing and is answered as missing |
| Transfers.TransferMovesMoney | backend/src/tradinghub/ledger/services/transfers.py:36-62 | a transfer adds what was received to one unit's total, takes what was sent from another's, and the fee from the unit of the account that pays it |
| Transfers.SameUnitTransferConserves | backend/src/tradinghub/ledger/services/transfers.py:36-62 | between accounts of one unit no total changes except by the fee |
| Transfers.TransferIsNeitherEarnedNorSpent | backend/src/tradinghub/ledger/crud/summary.py:29-70 | in every period the income, expense and category figures change by the fee alone, as an expense in its account's unit and its category |
| Recording.TransactionIsStoredExactly | backend/src/tradinghub/ledger/services/transactions.py:16-31 | a transaction is recorded if and only if its account is the user's; the row stored and answered has the request's account, kind, category, time and note, and its amount, negative for an expense |
| Recording.RecordingMovesBalance | backend/src/tradinghub/ledger/crud/accounts.py:77-83 | recording moves the balance of its account by the signed amount and no other balance |
| Recording.RecordingMovesTotal | backend/src/tradinghub/ledger/crud/summary.py:16-26 | recording moves the total of its account's unit by the signed amount and no other total |
| Recording.RecordingAddsToFigures | backend/src/tradinghub/ledger/crud/summary.py:29-78 | recording adds the amount to the income or the expenses, and an expense to its category, in exactly the periods its time falls in and its account's unit |
| Recording.FiguresAreTheirRows | backend/src/tradinghub/ledger/crud/summary.py:29-78 | each income, expense and category figure is the sum of the user's rows of that kind and category, from the period's start and before its end, on accounts of the unit, and is absent if and only if there is none |
| Recording.PatchIsWhatWasSent | backend/src/tradinghub/ledger/services/transactions.py:56-66 | every field sent has the value sent, a category or note sent as null is cleared, every other field is as it was; the magnitude is the one sent or the old one, negative exactly for an expense |
| Recording.PatchIsStoredExactly | backend/src/tradinghub/ledger/services/transactions.py:44-66 | a transfer's row is refused; otherwise the patched row is stored in its place and answered, and every other row stays |
| Recording.PatchOfNothingIsRefused | backend/src/tradinghub/ledger/services/transactions.py:34-41 | a row that is missing or someone else's is answered as missing and nothing changes |
| Accounts.ListedAs | backend/src/tradinghub/ledger/crud/accounts.py:49-83 | the accounts list has exactly the user's accounts, each with the sum of the rows on it |
| Accounts.AccountIsCreatedExactly | backend/src/tradinghub/ledger/services/accounts.py:13-26 | an account is created if and only if the user has none whose name folds to the same form; it is stored with what was sent, not archived, and answered with a balance of zero, with which it is then listed |
| Accounts.AccountIsUpdatedExactly | backend/src/tradinghub/ledger/services/accounts.py:39-63 | an update is refused if and only if another of the user's accounts has the new name; otherwise the fields sent are stored, archiving keeps a first date and restoring clears it, and the answer is what the accounts list then has |
| Accounts.UpdateOfNothingIsRefused | backend/src/tradinghub/ledger/services/accounts.py:29-36 | an account that is missing or someone else's is answered as missing and nothing changes |
| Accounts.NamesStayDifferent | backend/src/tradinghub/ledger/models/account.py:24 | after any run no user has two accounts whose names fold to the same form |
| Summary.PeriodsAreAdditive | backend/src/tradinghub/ledger/crud/summary.py:73-78 | the figures of [a, c) are those of [a, b) and [b, c) merged, absent figures included, so no row is counted twice or dropped at the boundary |
| Summary.ExpensesAreTheirCategories | backend/src/tradinghub/ledger/crud/summary.py:29-70 | each unit's expense total is the sum of its category totals, and a unit is in one list exactly when it is in the other |
| Summary.TotalsAreCells | backend/src/tradinghub/ledger/crud/summary.py:29-49 | each income or expense total looked up by unit is the sum, null over no rows, of one cell of the join |
| Summary.CategoryTotalsAreCells | backend/src/tradinghub/ledger/crud/summary.py:52-70 | each category total is minus the sum of one cell of the join |
| Balances.AccountsAreListed | backend/src/tradinghub/ledger/crud/accounts.py:49-60 | the accounts list has every account of the user once, empty and archived ones included, and nothing else |
| Balances.ListedWithItsBalance | backend/src/tradinghub/ledger/crud/accounts.py:36-60 | an account is listed with exactly the balance it is read with on its own |
| Balances.TotalsAreTheirAccounts | backend/src/tradinghub/ledger/crud/summary.py:16-26 | each unit total is the sum of the balances of the user's accounts in the unit, and a unit is listed exactly when there is such an account |
| Balances.BalanceIsItsRows | backend/src/tradinghub/ledger/crud/accounts.py:77-83 | a listed balance is the sum of the rows on that account |
| Balances.TotalIsMoney | backend/src/tradinghub/ledger/crud/summary.py:16-26 | the balance query, which filters on the account's owner only, sums just the user's rows, because of the composite key |
| Balances.TotalsAreFlows | backend/src/tradinghub/ledger/crud/summary.py:16-49 | a unit total is all-time income less all-time expenses plus the net of transfer rows, although the two queries join and filter differently |
| Balances.HomeIsTheOnlyMatch | backend/src/tradinghub/ledger/models/transaction.py:38-42 | under the composite key a row joins the one account that is its user's and no other |
| Paging.ListTransactions | backend/src/tradinghub/ledger/crud/transactions.py:20-52 | appending one condition per filter selects exactly the rows all filters match; the page is one the ordered query may return, and the total is their number |
| Paging.FiltersSelectWanted | backend/src/tradinghub/ledger/crud/transactions.py:29-39 | a row is selected if and only if it is the user's and every filter given agrees with its account, kind and category, and its time is not before the start and is before the end |
| Paging.PageIsByRank | backend/src/tradinghub/ledger/crud/transactions.py:41-49 | a page has exactly the selected rows with at least offset and fewer than offset plus limit newer selected rows, newest first: later times first, and the greater id first among equal times |
| Paging.FirstPageIsNewest | backend/src/tradinghub/ledger/crud/transactions.py:42-48 | no selected row left off the first page is newer than one on it |
| Paging.WalkIsNewestFirst | backend/src/tradinghub/ledger/crud/transactions.py:20-52 | walking the pages sees exactly the selected rows, newest first |
| Paging.ListingIsUnique | backend/src/tradinghub/ledger/crud/transactions.py:41-49 | time then id descending leaves the database no choice: there is one listing |
| Paging.WalkSeesEveryRowOnce | backend/src/tradinghub/ledger/crud/transactions.py:20-52 | walking pages at any positive limit, each from its own query, sees the matching rows in strict order, each once, none skipped, as many as the total |
| Paging.TimeAloneWouldNotDo | backend/src/tradinghub/ledger/crud/transactions.py:25-27 | without the id in the order, two rows of one time could show one twice and the other never |
| LedgerRuns.ReadsAnswerFromTheTables | backend/src/tradinghub/ledger/routes.py:46-202 | in runs, reads change nothing and answer the user's row or account of an id, the accounts list, a page the query may give with the number selected in all, and the figures |
| LedgerRuns.WritesAnswerAsTheServices | backend/src/tradinghub/ledger/routes.py:33-176 | in runs, writes do and answer what the service methods are proved to do and answer |
| LedgerRuns.NextKeepsInv | backend/src/tradinghub/ledger/services/transfers.py:17-84 | every ledger request keeps: ids and the composite key, the sign convention, groups recorded, each group wholly there or wholly gone |
| LedgerRuns.TransfersAreAtomic | backend/src/tradinghub/ledger/services/transfers.py:40-63 | after any run by any users each recorded transfer is wholly there as written or wholly gone, is one row out and one row in on different accounts of one user with at most one expense, opposite amounts if the units matched; every other row is negative exactly when an expense |
| LedgerRuns.DeletedTransfersStayDeleted | backend/src/tradinghub/ledger/crud/transactions.py:94-112 | over any run what was recorded of a transfer never changes and a deleted one never comes back |
| LedgerRuns.GroupsGoTogether | backend/src/tradinghub/ledger/crud/transactions.py:99-109 | a deletion takes both of two rows of one group or neither |
| LedgerRuns.PatchKeepsSign | backend/src/tradinghub/ledger/services/transactions.py:58-61 | any patch leaves a plain row negative exactly when it is an expense |
| LedgerRuns.KindAloneKeepsMagnitude | backend/src/tradinghub/ledger/services/transactions.py:58-61 | a patch without an amount keeps the magnitude, and the sign turns exactly when the kind does |
| LedgerRuns.TransferNetsToZeroWhenBalanced | backend/src/tradinghub/ledger/services/transfers.py:36-47 | the rows of a transfer that is there net to zero in every unit if and only if its accounts share a unit now and its amounts are opposite; if it was made within one unit, if and only if its accounts share a unit now |
| LedgerRuns.UnitNetIsZeroWhenBalanced | backend/src/tradinghub/ledger/services/transfers.py:36-47 | in a single unit a transfer nets to zero for a user if and only if it does not concern that user and unit, or is balanced |
| LedgerRuns.TransfersNetToZero | backend/src/tradinghub/ledger/services/transfers.py:36-47 | a user's transfer rows net to zero in a unit while the user's transfers with an account in that unit are balanced, whatever becomes of all others |
| LedgerRuns.MoneyIsEarnedOrSpent | backend/src/tradinghub/ledger/crud/summary.py:16-49 | after any run under that condition on the one user and unit, the user's total in the unit is exactly income less expenses |
| ConcurrentPatches.WriteKeepsSignExactly | backend/src/tradinghub/ledger/services/transactions.py:53-66 | a patch written over a row that changed since it was read leaves it well signed if and only if it does not change the amount alone while the row's kind has changed |
| ConcurrentPatches.SignsHoldExactlyWithoutClashes | backend/src/tradinghub/ledger/services/transactions.py:44-66 | over any run in which patches interleave with each other and with every other request, the sign convention holds in every state if and only if no write clashes in that way |
| ConcurrentPatches.TwoPatchesCanClash | backend/src/tradinghub/ledger/services/transactions.py:53-66 | a run from the empty tables in which two patches of one row leave an income with a negative amount |
| ConcurrentPatches.WriteMergesColumns | backend/src/tradinghub/ledger/services/transactions.py:63-65 | a column that the patch changes gets the patch's value and every other column keeps what others made of it meanwhile |
| ConcurrentPatches.UndisturbedPatchIsAtomic | backend/src/tradinghub/ledger/services/transactions.py:56-66 | writing the changed columns of a row that nobody touched since it was read is the atomic patch |
| Relabelling.RelabellingMovesTheBalance | backend/src/tradinghub/ledger/services/accounts.py:44-52 | changing an account's unit takes its whole balance, unconverted, from the old unit's total to the new one's and changes no other total |
| Relabelling.RelabellingUnbalances | backend/src/tradinghub/ledger/services/accounts.py:44-52 | giving either account of a balanced transfer another unit unbalances it: that row's amount, which is not zero, is then its net in the new unit |
| Relabelling.RelabelledTransferCounts | backend/src/tradinghub/ledger/services/accounts.py:44-52 | a reachable run: a transfer within one unit whose net is no longer zero after an account's unit was changed |
| Separation.OthersAreUntouched | backend/src/tradinghub/ledger/crud/transactions.py:94-112 | a request by one user leaves every other user's accounts and rows unchanged |
| Separation.RequestsSeeOnlyThemselves | backend/src/tradinghub/ledger/crud/accounts.py:17-83 | a request answers, and changes its user's own tables, exactly as it would if nobody else had accounts or rows, although the balance join does not filter rows by user |
| Separation.UsersAreSeparate | backend/src/tradinghub/ledger/models/transaction.py:38-42 | over any run of any number of users each is answered exactly as by a ledger of their own given only their own requests |
| Decimals.ParsingUndoesPrinting | backend/src/tradinghub/core/schemas.py:31-35 | reading a printed decimal gives its value and sign back, for coefficients of any length |
| Decimals.PrintsAreCanonical | backend/src/tradinghub/core/schemas.py:31-40 | a print is a plain numeral: no exponent, no needless leading zero, no trailing fractional zero |
| Decimals.PrintLooksPlain | backend/src/tradinghub/core/schemas.py:31-40 | a print is a minus sign if the value is negative, digits without a needless zero in front, and perhaps a point and digits that do not end in a zero |
| Decimals.OneDigitPrints | backend/src/tradinghub/core/schemas.py:35 | the digits 0 to 9 are written as such |
| Decimals.OneValueOnePrint | backend/src/tradinghub/core/schemas.py:31-40 | two decimals print alike if and only if they have one value and are not zeros of opposite sign |
| Decimals.PrintingUndoesParsing | backend/src/tradinghub/core/schemas.py:31-40 | every plain numeral is what its own decimal prints |
| Decimals.FixedPrecisionConfuses | backend/src/tradinghub/core/schemas.py:32-34 | at any fixed precision two different values would print alike |
| Decimals.UnitInNumbers | backend/src/tradinghub/ledger/models/transaction.py:51 | the unit of a stored amount is 10^-18 |
| Decimals.AmountsPrintExactly | backend/src/tradinghub/core/schemas.py:38-40 | amounts at the column's scale print exactly, and different amounts differently |

## Left out

- Argon2, JWT, SHA-256, random generation: library calls. A token is identified with its hash, and new tokens, family ids and group ids are assumed never to repeat.
- Registration, the users table and its cascades, access tokens, cookie attributes, CORS, middleware, logging, configuration and migrations.
- Password checking: whose email and password match, and the limiter's verdict, are inputs of the login route. In the runs of `SessionRuns` and `Interleaving` a login is a successful one, since the others change nothing.
- Redis being unreachable: attempts are then not counted, so the bounds are about counted attempts.
- Case folding of emails: attempts carry the folded email.
- The counters' deadline: Redis may be read as expiring a key at or just after its deadline, so every limiter result holds for both readings.
- Stolen tokens: in `Browser` other clients do what they like with tokens of their own logins and with tokens that are not stored, but do not present a token of this client's logins.
- Liveness: waiting requests may wait for ever in the interleaved model. Deadlock victims are among the aborts, but who is chosen is not modelled.
- Interleaved ledger requests, except for patches: each is one atomic step, so the page and the count of one list request see the same rows. Of a patch, the object-relational mapper writes the columns whose value is not the one read; that is assumed, as is that the database never gives a row id twice. A patch whose row was deleted in between writes nothing; its error answer is not modelled.
- Times outside 1900 to 2100, lengths and patterns of strings, the bounds of page limits and ids: validation done before the services run. Amounts are positive with at most 36 digits by type.
- The ORDER BY of account and summary lists: those lists are compared by lookup, as sets of figures. Collation is not modelled.
- The case folding of CITEXT: an account name carries the form the database folds it to, and names are compared by that form, whatever the folding is.
- Capacity of NUMERIC(36, 18) for stored sums and its rounding: sums are unbounded integers, and no stored amount is ever rounded.
- created_at and updated_at columns.
- Exponent limits of a decimal context, infinities and NaN; parsing of exponents, underscores and surrounding space by the decimal constructor.
- React components, hooks, forms, query caching, the request timeout's duration and the Retry-After header.
- Errors other than invalid_session that a rotation rejects with: the waiting call fails either way, so the model does not tell them apart.
- SessionRuns.RevocationIsPermanent: takes requests as atomic; under interleaving a raced revocation is covered by InterleavingResults.RevocationIsCompleteUnlessRaced instead.
- Sessions.SessionDb.LockSessionByTokenHash: says which row is found. The lock and the wait for it are steps of Interleaving.
