# pacific-Finance core, modelled in Dafny

Pacific Finance is a small finance application for an Indonesian service
company. Its browser half (`keuangan.js`, `script.js`, `sessiotimeout.js`)
keeps invoices, journal postings, the financial report and the activity
log in local storage. It numbers invoices, spells amounts in Indonesian
words ("terbilang") and logs an idle user out after fifteen minutes, with a
sixty-second countdown first. Its server half is a set of PHP pages:
- `index.php` logs users in, guarded by a CSRF token and a five-attempt lockout.
- `transaksi.php` is a JSON endpoint that saves and lists invoices, their
  items and transactions.
- `backup_restore.php` dumps and restores eight allow-listed tables.
- `laporan.php` builds the filtered transaction report.

The model follows those files one by one:

| file | Dafny modules |
|---|---|
| keuangan.js | `KeuanganPermissions`, `KeuanganInvoices`, `KeuanganNomor`, `KeuanganTerbilang`, `KeuanganStore` (class `Store`, whose fields are the local-storage keys the functions rewrite) |
| script.js | `ScriptJs` |
| sessiotimeout.js | `SessionTimeout` (class `Session`: timers, countdown, stored user and log) |
| index.php | `Login` (class `LoginSession`: the `$_SESSION` keys) |
| transaksi.php | `Transaksi` (class `Database`: tables and auto-increment counters) |
| backup_restore.php | `BackupRestore` (class `Server`: tables and the open transaction's savepoint) |
| laporan.php | `Laporan` |

Shared modules:
- `Wrappers` holds `Option`.
- `Text` holds digit strings, `padStart`, `split`, the JavaScript and PHP
  `trim`, and character counts.
- `PhpValues` holds PHP's `intval` and `floatval` on strings.

Each stateful operation is a method. Its `ensures` ties the new state, or
the answer, to a pure function of the old state. The lemmas then prove what
the program promises about those functions: invariants kept, round trips
and all-or-nothing outcomes.

Outside inputs are parameters:
- the current user;
- the current date and time, and the browser's reading of a stored date
  text (`new Date(tanggal)`) as a year and month;
- whether the browser's local storage takes a write;
- the database:
  - In backup_restore.php, whether the database accepts a statement is a
    function of the statement, its parameters and the table.
  - In transaksi.php, it is which write statement of the request is
    refused, if any, and the error text of that refusal.
- `password_verify`, `random_bytes` and the page path.

## Model

| member | source | states |
|---|---|---|
| KeuanganPermissions.HasInvoicePermission | keuangan.js:47-59 | No user, an unknown role or an unknown operation denies; otherwise the answer is the role's entry in the permission table (keuangan.js:12-16) |
| KeuanganPermissions.CreateOrDeleteImpliesViewAndEdit | keuangan.js:12-16 | Every role that may create or delete invoices may also view and edit them |
| KeuanganPermissions.OnlyAdminDeletesOrApproves | keuangan.js:12-16 | Only the admin role may delete or approve invoices |
| KeuanganInvoices.SumItemTotals | keuangan.js:163-165 | The `forEach` accumulation yields the sum of the item totals, a missing total counting as 0 |
| KeuanganInvoices.ItemsTotalConcat | keuangan.js:163-165 | The item total of two runs of items is the sum of their totals |
| KeuanganInvoices.RegularInvoice | keuangan.js:156-185 | The stored regular invoice is well formed (its total is its items' total), unsettled with no settlement date, and keeps the form's number, items and creator |
| KeuanganInvoices.DPInvoice | keuangan.js:234-271 | The stored down-payment invoice is well formed, keeps the form's down payment and has a balance of total less down payment |
| KeuanganInvoices.SettledRefs | keuangan.js:371-392 | The settlement lists one entry per chosen invoice, the down-payment invoice first, each carrying that invoice's number and amounts |
| KeuanganInvoices.PelunasanInvoice | keuangan.js:326-412 | The settlement invoice is settled on `today` and has the posted amount as its total. Its billed total and down payment come from the chosen invoices, which it lists |
| KeuanganInvoices.FindIndex | keuangan.js:458 | `findIndex`: -1 when no invoice has the number, else the position of the first one that does |
| KeuanganInvoices.StatusUpdateKeepsInvoice | keuangan.js:458-481 | A status update keeps the invoice well formed and changes only its status and settlement date. It never overwrites an existing settlement date, and a status other than settled clears the date |
| KeuanganInvoices.SettleTwiceKeepsFirstDate | keuangan.js:471-477 | Marking an invoice settled twice keeps the first settlement date |
| KeuanganInvoices.ApplyStatus | keuangan.js:458-481 | Only the first invoice with the number changes, and no invoice is added or removed |
| KeuanganInvoices.ApplyStatusKeepsNumbers | keuangan.js:458-481 | A status update changes no invoice number, so every later look-up finds the same position |
| KeuanganInvoices.ApplyStatusKeepsWellFormed | keuangan.js:458-481 | A status update keeps a well-formed invoice list well formed |
| KeuanganInvoices.SettleChosenMarksLunas | keuangan.js:397-412 | After a settlement, the first invoice with each chosen number is settled, every other status is unchanged or settled, and the list keeps its length |
| KeuanganInvoices.RemoveAt | keuangan.js:534 | `splice(index, 1)`: the entries before the index are kept and the later ones shift down by one. The result is the old list less that one entry, as a multiset |
| KeuanganInvoices.FilterLaporan | keuangan.js:1442-1450 | The surviving report entries are exactly the entries that pass the filter predicate |
| KeuanganInvoices.FilterLaporanCounts | keuangan.js:1442-1450 | Each kept entry survives as many times as it occurred, and each dropped one not at all |
| KeuanganInvoices.FilterLaporanConcat | keuangan.js:1442-1450 | The filter works entry by entry: filtering two runs of entries is filtering each, in order |
| KeuanganInvoices.FilterLaporanDrops | keuangan.js:1442-1450 | An entry is dropped exactly when it carries the deleted invoice's number and has either no invoice id or the deleted invoice's id |
| KeuanganInvoices.SumsConcat | keuangan.js:1343-1392 | The debit and credit sums of two runs of postings are the sums of their sums |
| KeuanganInvoices.JournalEntries | keuangan.js:1343-1392 | Two postings, or four for a down-payment invoice with a positive down payment. Debits equal credits, they total the invoice total plus the down payment, and each debit posting is matched by its credit |
| KeuanganInvoices.PostingKeepsJournalBalanced | keuangan.js:1343-1392 | Posting an invoice keeps a balanced journal balanced and leaves the earlier postings in place |
| KeuanganInvoices.AppendCapped | keuangan.js:1415-1425 | The entry is appended and only the last `cap` entries are kept; the new entry is last |
| KeuanganInvoices.ActivitiesAfterLog | keuangan.js:1403-1432 | Without a user the log is unchanged; otherwise the entry is appended within the 1000 cap, so a log within the cap stays within it |
| KeuanganNomor.NomorInvoiceParts | keuangan.js:1250-1274 | The number splits at '/' into the variant's prefix (INV, INV-DP or INV-PEL), the year, the two-digit month and a sequence of at least three digits. Each part reads back as its value. The sequence is one more than the number of viewable invoices of the variant that the browser's date reading places in that year and month |
| KeuanganNomor.SequenceAfterSave | keuangan.js:1256-1266 | Saving an invoice of the same variant, whose date the browser reads as the current year and month, raises the next sequence number by exactly one. Any other save leaves it, whatever the date text's format |
| KeuanganNomor.SequenceWithoutView | keuangan.js:1256-1266 | Without the view permission no invoice is read, so every variant's sequence starts at 001 |
| KeuanganTerbilang.TerbilangEmptyOnlyAtZero | keuangan.js:1493-1517 | The spelling is empty exactly for 0 and for negative amounts (`bilne[angka] \|\| ""`); every amount from 1 up has a non-empty spelling |
| KeuanganTerbilang.TerbilangTooLarge | keuangan.js:1513-1517 | Amounts from 10^15 up are answered with the "too large" text |
| KeuanganTerbilang.TerbilangNoLeadingSpace | keuangan.js:1493-1517 | A spelled amount never starts with a space |
| KeuanganTerbilang.TerbilangExamples | keuangan.js:1505-1508 | 1000 spells "seribu " and 25000 spells "dua puluh lima ribu " |
| KeuanganStore.Store.constructor | keuangan.js:1293-1305 | Every storage key starts empty, and the storage takes writes exactly when the page's storage accepts them |
| KeuanganStore.Store.SimpanInvoices | keuangan.js:92-110 | The answer is true exactly when the user may create or edit and the storage takes the write; the list is then written back, and otherwise nothing changes |
| KeuanganStore.Store.SaveDataPenjualan | keuangan.js:1319-1330 | `saveDataToLocalStorage`: true and the list stored when `setItem` succeeds; false with nothing changed when it throws |
| KeuanganStore.Store.LogActivity | keuangan.js:1403-1432 | The activity log becomes `ActivitiesAfterLog` of the old log when the storage takes the write; nothing else changes |
| KeuanganStore.Store.SimpanKeJurnal | keuangan.js:1336-1400 | The invoice's postings are appended to the journal when the storage takes the write |
| KeuanganStore.Store.UpdateLaporanKeuanganAfterDelete | keuangan.js:1438-1460 | The report becomes the filtered report when the storage takes the write |
| KeuanganStore.Store.SimpanInvoiceRegular | keuangan.js:144-220 | Refused with nothing changed without the create permission, for an incomplete form, or when the storage refuses the write. Otherwise the regular invoice is appended, posted to the journal and logged, and the stored invoices stay well formed |
| KeuanganStore.Store.SimpanInvoiceDP | keuangan.js:222-306 | As the regular save, and also refused for a down payment that is not positive. The stored balance is total less down payment, and the down payment is posted |
| KeuanganStore.Store.UpdateStatusInvoice | keuangan.js:447-508 | Refused without the edit permission, for an unknown number, or when the storage refuses the write. Otherwise the list becomes `ApplyStatus` and the change is logged |
| KeuanganStore.Store.SimpanInvoicePelunasan | keuangan.js:308-445 | Refused without the create permission, for an incomplete settlement, or when the storage refuses the write. Otherwise the settlement invoice is appended, the chosen invoices are marked settled, and the result is posted and logged |
| KeuanganStore.Store.MarkChosenSettled | keuangan.js:397-412 | The chosen down-payment invoice, then the chosen regular one, go through the status update with "Lunas", which changes something only with the edit permission and a storage that takes the write |
| KeuanganStore.Store.HapusInvoice | keuangan.js:510-568 | Refused without the delete permission, for an unknown number, or when the storage refuses the write. Otherwise the first matching invoice is removed, its report entries are dropped and the deletion is logged |
| ScriptJs.ToTerbilang | script.js:83-116 | The loop over base-1000 groups, least significant first, returns the trimmed words of every non-zero group, each followed by its scale word. 0 gives "nol" and a negative number '' |
| ScriptJs.TensAsTerbilang | script.js:96-109 | Below one hundred, the group words agree with `terbilang` of keuangan.js up to one trailing space |
| ScriptJs.HundredsAsTerbilang | script.js:96-109 | From one hundred up, the group words agree with `terbilang` of keuangan.js up to one trailing space |
| ScriptJs.GroupWordsAsTerbilang | script.js:96-109 | Every group 1..999 in the units position is spelled as a clean word plus one space, which `terbilang` spells with at most one trailing space |
| ScriptJs.AgreesWithTerbilangBelowThousand | script.js:83-116 | Below one thousand, `toTerbilang` equals the trimmed `terbilang` of keuangan.js |
| ScriptJs.ThousandReadsTwice | script.js:107-110 | As written, 1000 reads "seribu ribu" (see Findings) |
| ScriptJs.GroupWordsAtScale | script.js:96-109 | The scale position changes a group's words only when the group ends in 01 |
| ScriptJs.AsWrittenThousands | script.js:83-116 | As written, h thousand for 2 <= h < 1000 with h not ending in 01 reads as the spelling of h followed by " ribu" |
| ScriptJs.CorrectedBelowThousand | script.js:83-116 | Below one thousand the corrected converter equals the written one |
| ScriptJs.ThousandsReadAsUnits | script.js:107-110 | The corrected converter reads h thousand, for every 2 <= h < 1000, as the spelling of h followed by " ribu" |
| ScriptJs.CorrectedThousand | script.js:107-110 | The corrected converter reads 1000 as "seribu" |
| ScriptJs.NoInvoiceParts | script.js:8-19 | The invoice number splits at '/' into "PI-" plus the code, the year, the two-digit month and the number padded to three digits. Each part reads back |
| ScriptJs.NoInvoiceSplit | script.js:9-16 | Four slash-free parts joined with '/' split back into those parts |
| SessionTimeout.FormatTimeReadsBack | sessiotimeout.js:267-269 | Below 100 minutes, the MM:SS text is five characters whose two fields read back as the minutes and the seconds |
| SessionTimeout.FirstWarningValue | sessiotimeout.js:81-82 | The first value the warning shows is "00:59" |
| SessionTimeout.PageNameIsLastSegment | sessiotimeout.js:421 | The page name is "unknown" or the non-empty text after the last '/' |
| SessionTimeout.LogAppendKeepsLastHundred | sessiotimeout.js:416-431 | The new entry is last, at most the oldest entry is dropped, and a log of at most 100 entries stays at most 100 |
| SessionTimeout.LogoutEntryLost | sessiotimeout.js:319-328 | As written, a timeout logout of a user with an empty log leaves the log empty (see Findings) |
| SessionTimeout.LogoutCorrectedLogsUser | sessiotimeout.js:319-328 | The corrected logout ends the session like the written one and logs the logout, against the user who was logged in, as the last entry |
| SessionTimeout.AutoLogoutEnds | sessiotimeout.js:285-302 | The automatic logout clears every timer and the user, hides the modal, schedules the redirect and, as written, adds nothing to the log |
| SessionTimeout.ResetSchedulesWarningFirst | sessiotimeout.js:38-59 | A reset for a logged-in user cancels the countdown and leaves the warning due 60 seconds before the logout |
| SessionTimeout.ResetKeepsInv | sessiotimeout.js:38-59 | A reset keeps the timer invariant, and without a user it changes nothing |
| SessionTimeout.TickKeepsInv | sessiotimeout.js:263-279 | One tick of a running countdown keeps the timer invariant |
| SessionTimeout.FireWarningShowsCountdown | sessiotimeout.js:65-86 | For a logged-in user, the warning shows 00:59 with the countdown running; without one, only the pending warning goes |
| SessionTimeout.TickStep | sessiotimeout.js:263-279 | A tick with one second left ends the session; any other tick leaves the countdown running with one second less |
| SessionTimeout.CountdownRunsOut | sessiotimeout.js:263-279 | With k seconds left, fewer than k ticks leave the user logged in, the k-th ends the session, and the log is never written |
| SessionTimeout.WarningEndsAfterFiftyNineTicks | sessiotimeout.js:65-86 | Once the warning is shown and nothing resets the timer, the 58th tick leaves the user logged in and the 59th logs them out |
| SessionTimeout.Session.constructor | sessiotimeout.js:4-10 | A page loaded with the stored user and log, with no timer set |
| SessionTimeout.Session.ResetIdleTimer | sessiotimeout.js:38-59 | The state becomes `ResetState` of the old state |
| SessionTimeout.Session.InitSessionTimeout | sessiotimeout.js:15-33 | For a logged-in user the idle timer is started as by a reset; otherwise nothing changes |
| SessionTimeout.Session.LogActivity | sessiotimeout.js:411-434 | Without a user nothing is logged; otherwise one entry is appended, keeping the last 100 |
| SessionTimeout.Session.Logout | sessiotimeout.js:318-335 | The user is removed and the redirect scheduled, with the logout entry lost as written |
| SessionTimeout.Session.AutoLogout | sessiotimeout.js:285-302 | The timers are cleared, the modal hidden and `logout` run |
| SessionTimeout.Session.UpdateCountdown | sessiotimeout.js:263-279 | One second less, and the automatic logout when the countdown reaches 0 |
| SessionTimeout.Session.ShowSessionWarning | sessiotimeout.js:65-86 | For a logged-in user: 60 seconds set, one tick run at once, and the countdown started |
| SessionTimeout.Session.FireWarningTimer | sessiotimeout.js:56 | The warning timeout fires: the warning is shown |
| SessionTimeout.Session.FireIdleTimer | sessiotimeout.js:59 | The logout timeout fires: the automatic logout |
| Login.CeilMinutes | index.php:26 | `ceil(remaining / 60)`: the least whole number of minutes covering the remaining seconds |
| Login.LockoutWaitBounds | index.php:22-26 | Inside the lockout window the reported wait is 1 to 5 minutes: 5 at the start, 1 in the last minute |
| Login.AuthenticateFacts | index.php:41-82 | A failed login adds one attempt and records its time, a login clears the counter, and other errors leave it. Only a login sets the user keys |
| Login.UnlockedBelowMax | index.php:16-31 | After the lockout prelude lets a request through, the counter is below five |
| Login.RespondKeepsAttemptsInRange | index.php:16-90 | The attempt counter stays between 0 and 5 from one request to the next |
| Login.LockedOutWhateverIsPosted | index.php:22-26 | Inside the lockout window every request ends locked out with a 1 to 5 minute wait, and the session is unchanged |
| Login.LoginExactlyWhenCredentialsHold | index.php:34-67 | A request logs in exactly when it is outside the lockout, posts the session's token and a non-empty name and password, the query succeeds, the user exists and the password verifies |
| Login.FailedLoginCounts | index.php:70-76 | A wrong name or password counts one more attempt and records its time |
| Login.OnlyLoginSetsUser | index.php:55-67 | A refused request leaves the user keys alone |
| Login.FormCarriesToken | index.php:88-90 | Every rendered form leaves a token in the session: an existing non-empty token unchanged, or a fresh one when there was none or it was empty |
| Login.CsrfFailureKeepsPrelude | index.php:16-40 | A post ends in the CSRF failure exactly when it gets past the lockout with a missing or wrong token. The session is then the one the lockout prelude left: the counter initialised to 0, kept, or reset from full, the token untouched, no user set |
| Login.LoginSession.constructor | index.php:3-7 | A fresh session has no key set |
| Login.LoginSession.CheckLockout | index.php:16-31 | The counter is initialised, then either the request is refused inside the window or a full counter is reset |
| Login.LoginSession.EnsureToken | index.php:88-90 | A token is made when the session has none |
| Login.LoginSession.CheckCredentials | index.php:41-82 | The outcome and the new session are those of `Authenticate` |
| Login.LoginSession.HandleRequest | index.php:12-90 | One request, run statement by statement, gives the outcome and session of `Respond` |
| Transaksi.FirstMissing | transaksi.php:19-26 | The first required field that is unset or empty, in the order given; |required| when none is |
| Transaksi.ValidateInput | transaksi.php:19-26 | The loop stops at the first missing field, naming it, or reports none |
| Transaksi.RemoveCommasFacts | transaksi.php:28-30 | Removing commas leaves none, keeps text that has none and works piece by piece |
| Transaksi.SanitizeIgnoresComma | transaksi.php:28-30 | A comma anywhere in the number is ignored |
| Transaksi.SanitizeDigits | transaksi.php:28-30 | Digits read as their value, and digits with a decimal point as the exact decimal |
| Transaksi.NormaliseJenis | transaksi.php:47-48 | A missing type is "reguler", and "regular" is corrected to "reguler" |
| Transaksi.NormaliseJenisIdempotent | transaksi.php:47-48 | Normalising twice is normalising once |
| Transaksi.ParseItem | transaksi.php:72-80 | An item has description '' by default, quantity max(1, intval(qty)) with 1 by default, and price sanitised with 0 by default |
| Transaksi.ParseItemDefaults | transaksi.php:72-80 | Without qty the quantity is 1; without price the price is 0 |
| Transaksi.ParseItemKeepsQuantity | transaksi.php:72-80 | A positive whole quantity is kept up to PHP_INT_MAX, and a larger one reads as PHP_INT_MAX |
| Transaksi.ParseItems | transaksi.php:72-80 | One parsed item per element, in order |
| Transaksi.ParseInvoiceAccepts | transaksi.php:40-56 | A request is accepted exactly when the three fields are present, the total is positive and the down payment does not exceed it |
| Transaksi.ItemRowsFacts | transaksi.php:72-80 | One row per item, in order; the i-th row takes the i-th id from the counter, the invoice's id and the item's fields |
| Transaksi.StopFrom | transaksi.php:72-80 | The first item from k on that stops the loop (a negative price, or an insert the driver refuses); |items| when none does |
| Transaksi.SaveItemsOutcome | transaksi.php:57-83 | From item k on, once the connection closes: the item counter moves past the items inserted. If no item stops the loop, every item row is stored and the answer is the invoice's id. Otherwise the answer names the negative price or the database error, and the tables return to the savepoint |
| Transaksi.InvoiceAllOrNothing | transaksi.php:57-89 | After the save either the invoice and all its items are stored and the answer is its new id, or nothing at all is stored |
| Transaksi.CheckTransaction | transaksi.php:154-178 | The checks in order: the two fields, then a positive debit or credit, then the driver |
| Transaksi.TransactionNeedsAmount | transaksi.php:154-178 | A transaction is stored exactly when both fields are present, one amount is positive and the driver accepts the insert |
| Transaksi.CeilDivBounds | transaksi.php:119 | The page count is the least number of pages of `limit` rows that hold every row |
| Transaksi.NewestFirstFacts | transaksi.php:98-104 | The i-th row of the listing order is the i-th row from the end of the table |
| Transaksi.ListDefaults | transaksi.php:95-97 | Without page and limit the listing is page 1 of 20 rows: the twenty newest rows |
| Transaksi.ParamReadsBack | transaksi.php:95-97 | A page or limit written as a whole number reads as that number up to PHP_INT_MAX, and a larger one as PHP_INT_MAX |
| Transaksi.ListRefusals | transaksi.php:95-119 | A negative limit, or a page before the first with a positive limit, is refused by the database; a zero limit is fatal |
| Transaksi.ServedCover | transaksi.php:98-119 | Pages 1 to k serve the k times limit newest rows, each once, newest first |
| Transaksi.AllPagesServed | transaksi.php:98-119 | Pages 1 to total_pages serve every row exactly once, newest first |
| Transaksi.FindInvoice | transaksi.php:127-149 | A found invoice is stored and has the id; none is found only when no stored invoice has it |
| Transaksi.ItemsOf | transaksi.php:127-149 | Every listed item is stored and carries the invoice's id |
| Transaksi.ItemsOfSelects | transaksi.php:141-143 | The listed items are every stored item with the invoice's id, as many times as it is stored, and no other row |
| Transaksi.ItemsOfAscending | transaksi.php:141-143 | Items taken from rows in ascending id order are in ascending id order |
| Transaksi.ShowInvoiceLines | transaksi.php:127-143 | On a valid database, `get_invoice` lists every stored item of the invoice, as often as it is stored, in ascending id order (`ORDER BY id ASC`) |
| Transaksi.FindInvoiceAppend | transaksi.php:127-149 | An invoice appended with an id above every earlier one is found by its id |
| Transaksi.ItemsOfConcat | transaksi.php:127-149 | The items of an invoice in two runs of items are its items in each run |
| Transaksi.ItemsOfOthers | transaksi.php:127-149 | Items whose invoice ids are all below an id give that id no items, so a new invoice starts with none |
| Transaksi.ItemsOfOwn | transaksi.php:127-149 | The item rows saved for an invoice are exactly its items, in order |
| Transaksi.UnknownActionFails | transaksi.php:213-214 | An unknown action fails with "Action tidak dikenal" and touches nothing |
| Transaksi.EmptyActionIsUnknown | transaksi.php:32 | A missing or empty action is unknown |
| Transaksi.RejectedInvoiceChangesNothing | transaksi.php:40-56 | A rejected invoice changes nothing, counters included |
| Transaksi.SaveInvoiceKeepsValid | transaksi.php:57-89 | Saving an invoice keeps every id positive and below its counter, with every item pointing to an issued invoice id and the item rows in id order |
| Transaksi.SaveTransactionKeepsValid | transaksi.php:154-178 | Saving a transaction keeps the database valid |
| Transaksi.RespondKeepsValid | transaksi.php:32-222 | Every request keeps the database valid |
| Transaksi.SavedInvoiceReadsBack | transaksi.php:40-149 | After a successful save, `get_invoice` with the answered id finds the invoice as saved and exactly its items, in insertion order, for every id up to PHP_INT_MAX |
| Transaksi.ReadsChangeNothing | transaksi.php:94-211 | The read actions change nothing |
| Transaksi.Database.constructor | transaksi.php:57-83 | The tables start empty, every auto-increment counter at 1, and the database is valid |
| Transaksi.Database.SimpanInvoice | transaksi.php:57-89 | The invoice save with its item loop gives the answer and tables of `SaveInvoice` |
| Transaksi.Database.SimpanTransaksi | transaksi.php:154-178 | The transaction save gives the answer and tables of `SaveTransaction` |
| Transaksi.Database.HandleRequest | transaksi.php:32-222 | One request gives the answer and tables of `Respond` |
| PhpValues.Saturate | transaksi.php:95-97 | A value inside PHP's 64-bit integer range is kept; one above sticks at PHP_INT_MAX, one below at PHP_INT_MIN |
| PhpValues.DigitsConvert | transaksi.php:28-30 | `intval` and `floatval` read a plain digit string as its value; `intval` stops at PHP_INT_MAX |
| PhpValues.IntValReadsBack | transaksi.php:95-97 | `intval` reads back the decimal spelling of every whole number up to PHP_INT_MAX, and larger ones as PHP_INT_MAX |
| PhpValues.IntValNegative | transaksi.php:95-97 | A leading minus negates the value `intval` reads, down to PHP_INT_MIN |
| PhpValues.NonNumericIsZero | transaksi.php:28-30 | Text that does not start with a sign, digit or '.' reads as 0 |
| PhpValues.FloatValDecimal | transaksi.php:28-30 | Digits, a '.' and digits read as the exact decimal |
| BackupRestore.BackupFacts | backup_restore.php:34-71 | A backup fails exactly when an allow-listed table is missing, naming the first. Otherwise it has one key per allow-listed table, holding that table's rows |
| BackupRestore.PlaceholderCount | backup_restore.php:131 | The placeholder list has exactly n '?' |
| BackupRestore.InsertSqlPlaceholders | backup_restore.php:128-133 | The INSERT statement has one placeholder per column, when no name holds a '?' |
| BackupRestore.AllowListPlain | backup_restore.php:110 | No allow-listed table name holds a '?' |
| BackupRestore.RebindOwn | backup_restore.php:128-136 | A row's values put back under its own column names give the row |
| BackupRestore.ReloadUniform | backup_restore.php:127-139 | Rows that share the first row's columns are stored as given, in order; no rows leave the table empty |
| BackupRestore.RestoreOutcomeFacts | backup_restore.php:110-151 | An unknown key is refused before anything else. A restore succeeds exactly when every delete and every insert succeeds |
| BackupRestore.RestoreOfBackup | backup_restore.php:34-151 | A backup restored into its own database succeeds and leaves every table as it was, when the driver accepts the statements and each table's rows share their columns |
| BackupRestore.Server.Backup | backup_restore.php:34-71 | The check loop then the dump loop give `BackupOf` the tables |
| BackupRestore.Server.InsertEntry | backup_restore.php:127-139 | The rows of one entry are inserted under its first row's columns. The failure, if any, is the entry's failure; on success the table holds the reloaded rows |
| BackupRestore.Server.CheckTables | backup_restore.php:110-115 | The index of the first key outside the allow-list |
| BackupRestore.Server.DeleteTables | backup_restore.php:122-124 | The index of the first delete that fails; when none fails, every named table is emptied |
| BackupRestore.Server.InsertEntries | backup_restore.php:127-139 | The index of the first entry that fails; when none fails, every entry is loaded |
| BackupRestore.Server.Restore | backup_restore.php:110-151 | The answer is `RestoreOutcome`. A success leaves the tables restored as the data says; any failure rolls back to the old tables |
| Laporan.FilterOf | laporan.php:15-17 | The filter takes the query fields and falls back to the two month bounds and '' |
| Laporan.BuildQuery | laporan.php:20-39 | The query and parameters are built piece by piece: the base, a date clause when both dates are non-empty, a search clause when the term is non-empty, then the ordering |
| Laporan.PlaceholdersMatchParams | laporan.php:20-39 | The query holds exactly one '?' per bound parameter |
| Laporan.QueryShape | laporan.php:20-39 | The query opens with the base selection and ends with the ordering. The dates are the first two parameters when dated, and the wrapped search term the last three when searched |
| Laporan.Totals | laporan.php:47-52 | Both totals equal the sum of every row's `nominal`, so they are always equal |
| Laporan.SumConcat | laporan.php:49-52 | The total of two runs of rows is the sum of their totals |
| Laporan.SumBounds | laporan.php:49-52 | Non-negative amounts give a non-negative total that bounds every single amount |
| Laporan.GroupedReadsBack | laporan.php:10-12 | With the '.' separators taken out, a grouped number is digits that read back as the number |
| Laporan.GroupedShape | laporan.php:10-12 | A grouped number has a separator exactly from four digits on, and then its last group has three digits |
| Laporan.RupiahReadsBack | laporan.php:10-12 | `rupiah` prints "Rp ", a '-' exactly for a negative rounded amount, then grouped digits that read back as the rounded amount's size |
| Laporan.RoundWhole | laporan.php:10-12 | Whole amounts are not rounded |

## Left out

- Rendering is not modelled: DOM manipulation, notifications, modals,
  styles, printing and PDF export. The HTML of the PHP pages is left out
  too, and so is `htmlspecialchars`.
- Event listeners and timers are left out. A timer that fires, or a user's
  activity, is an explicit method call (`Session.FireWarningTimer`,
  `Session.FireIdleTimer`, `Session.ResetIdleTimer`).
- The model makes these explicit inputs: the clock (`new Date()`, `time()`,
  `date()`), the current user read from local storage, the page path,
  `password_verify`, `random_bytes`, and the database driver's success or
  failure on each statement.
- JSON encoding and decoding are not modelled. The stored values,
  request bodies and uploaded backups are typed values.
- Floating point is not modelled. Amounts are exact `real`s or whole
  numbers, and PHP's `floatval` exponent notation is not read.
- The asynchronous `simpanInvoiceKeDatabase` calls of keuangan.js are not
  modelled, nor the invoice form helpers `updateTotal`/`hitungTotal`.
  They are network calls and form rendering.
- dashboard.php and logout.php are not part of this model; they render
  pages and end the session.
- The database connection is taken to be the PDO object that config.php:19
  creates. That is not what runs as written:
  - transaksi.php:3 and backup_restore.php:16 load koneksi.php.
  - koneksi.php:12 defines only a mysqli `$conn`, so `$pdo` is undefined.
  - backup_restore.php:19-23 therefore always stops with "Koneksi database
    gagal".
  - In transaksi.php, every action that reaches the database (lines 57,
    99, 131, 167 and 188) calls a method on null. The resulting `Error` is
    not caught by `catch (Exception)` (lines 216-223).
  - Only the refusals raised before the first database call are answered as
    modelled: missing fields, an invalid id, an unknown action.
  - The model states what the endpoints do with a working PDO connection.
- Transaksi.List: the offset `(page - 1) * limit` is exact. In PHP a product
  outside the 64-bit range becomes a float, and how the database then binds
  it is not modelled.
- Transaksi.SavedInvoiceReadsBack: it is stated for ids up to PHP_INT_MAX.
  A larger auto-increment id would read back saturated; the model does not
  bound the table's id column.
- Transaksi.ShowInvoice and Transaksi.ListInvoices: the `customer_name`
  column that `LEFT JOIN customers` adds to each invoice row
  (transaksi.php:100-102, 132-134) is not modelled. The customers table is
  outside the model, and the row carries only `customer_id`.
- KeuanganNomor.GenerateNomorInvoice: how a browser's `new Date` reads a
  date text is an input. For the "14 Januari 2026" dates the application
  stores, the year and month that reading gives are not modelled.
- KeuanganStore.Store: whether local storage takes a write is fixed for
  the page as `writable`. A quota that fills up partway through a sequence
  of writes is not modelled.
- Transaksi.NewestFirstFacts: `ORDER BY created_at DESC` is taken as
  the reverse of insertion order. Ties in `created_at` are not modelled.
- Transaksi.Database.SimpanInvoice: the items arrive already decoded from
  JSON; `json_decode` of a malformed string is not modelled.
- Transaksi.ListRefusals: the database's own handling of `LIMIT`/`OFFSET`
  binding is out of scope. A refused or fatal listing is a failure
  answer, and division by zero is the `Fatal` case.
- Transaksi.Database.SimpanInvoice: as modelled, a failed insert consumes
  no auto-increment id.
- KeuanganTerbilang.TerbilangTooLarge: the spelling of groups at and above
  10^15 is only the refusal text. The scale table is not extended.
- SessionTimeout.FireWarningShowsCountdown: the countdown text is the value
  `FormatTime` gives. The element's `textContent` is not modelled.
- BackupRestore.Server.Backup: `SHOW TABLES LIKE` is modelled as exact
  name membership. Its '_' wildcard (as in `invoice_items`) is not.
- The file upload checks and JSON parsing of the restore action are not
  modelled (backup_restore.php:78-107). They are I/O; `Restore` starts from
  the decoded object.
- BackupRestore.Distinct: the uploaded object's keys are taken to be
  distinct, as the keys of a decoded JSON object are.
- BackupRestore.RestoreMessage: the failure text is the database's own
  exception message, passed in.
- The action dispatch of backup_restore.php is not modelled as a member
  (lines 29 and 168-173).
- BackupRestore.Driver: whether the database accepts a statement may
  depend only on the statement, its parameters and the table name. It may
  not depend on the data already there.
- BackupRestore.ReloadUniform: a first row with no columns (an INSERT with
  an empty column list) is not treated specially.
- BackupRestore.Reload: a row whose value count differs from the column
  count is skipped in `Reload`. `RestoreOutcome` has already made such an
  entry fail and roll back, so the skip is never observed.
- Laporan.BuildQuery: how the database evaluates `BETWEEN`, `LIKE` and the
  ordering is not modelled; the rows come back as an input.
- Laporan.Rupiah: `number_format` rounding is modelled as half away from
  zero on an exact real. Float artefacts are not modelled.

## Findings

| source | as written | input that shows it | evidently intended | confidence | as-written member | corrected member |
|---|---|---|---|---|---|---|
| script.js:107-110 | The thousands group 1 is spelled "seribu " and then the scale word "ribu" is appended all the same | `toTerbilang(1000)` gives "seribu ribu" | "seribu", with no second scale word for a group of one thousand | not executed | ScriptJs.ThousandReadsTwice | ScriptJs.CorrectedThousand |
| sessiotimeout.js:319-328, 412-413 | `logout` removes the stored user before calling `logActivity`, which returns at once when no user is stored | a timeout logout of a logged-in user with an empty log leaves the log empty | the logout message is logged against the user who was logged in | not executed | SessionTimeout.LogoutEntryLost | SessionTimeout.LogoutCorrectedLogsUser |
