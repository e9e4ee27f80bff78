# Transaction bookkeeping and the investment page

This project models two pieces of a personal-finance web application.

The backend's transaction-record service adds, updates, deletes and batch-deletes
transaction records. Each operation moves the owning account's running totals
(total income, total expense). Update, delete and batch delete then write a
snapshot of the account to a cache under the key
`login_user:<user>:account:<account>`; add does not write the cache. The model keeps the
record store, the account table and the cache as fields of a class
(`RecordService.TransactionRecordService`). Each method is proved against a
function on values in `Ledger` (`AfterAdd`, `AfterUpdate`, `AfterDelete`,
`AfterBatchDelete`). Those functions are proved to keep the ledger invariant
`Ledger.Consistent`: every account's totals are the sums of the amounts of its
records whose type is "expense" or "income", ignoring case.

The frontend's investment page shows a list of insights filtered by a search
term, and lets the user add, edit and soft-delete topics through dialogs. The
model is a class (`Investment.InvestmentPage`) whose fields are the page's
state variables. Its methods are the page's event handlers. The data service
is a boundary: handlers record the commands they send in `issued`, the
command's settled result is a parameter, and the lists change only when the
service pushes new ones (`HandleInsightsUpdate`, `HandleTopicsUpdate`). The
search filter is a pure function (`InsightFilter.FilterInsights`) with its
properties proved as lemmas.

Files:

- `Wrappers.dfy`: `Option`, `Result`, `Outcome`.
- `Text.dfy`: case folding, `equalsIgnoreCase`, JavaScript `trim` and `includes`.
- `Decimal.dfy`: decimal rendering of integers (Java's `Long` in string concatenation) and its inverse.
- `Ledger.dfy`: the service's data, its effects as functions, and the invariant.
- `TransactionRecordService.dfy`: the service class.
- `InsightFilter.dfy`: the insight search filter.
- `InvestmentPage.dfy`: the page class.

## Model

| member | source | states |
|---|---|---|
| Text.LowerIdempotent | Frontend/src/pages/investment/index.jsx:117-120 | lower-casing twice is lower-casing once, so the filter's lower-cased comparisons are stable |
| Text.Trim | Frontend/src/pages/investment/index.jsx:48 | `trim` returns the infix of its input that starts right after the leading white space: everything before and after it is white space, it neither starts nor ends with white space (which fixes it uniquely), and it is empty exactly when the input is all white space |
| Text.IncludesIff | Frontend/src/pages/investment/index.jsx:117-120 | `includes(s, t)` holds exactly when `t` occurs in `s` at some index |
| Text.IncludesEmpty | Frontend/src/pages/investment/index.jsx:117-120 | every string includes the empty string |
| Decimal.NatToString | Backend/src/main/java/com/example/demo/service/TransactionRecordService.java:188 | the decimal rendering of a number is a non-empty string of digits that starts with '0' only for zero |
| Decimal.DigitsValueOfNatToString | Backend/src/main/java/com/example/demo/service/TransactionRecordService.java:188 | reading the decimal digits of a number back gives the number |
| Decimal.ParseIntToString | Backend/src/main/java/com/example/demo/service/TransactionRecordService.java:188 | parsing the rendered integer (sign included) gives it back |
| Decimal.IntToStringInjective | Backend/src/main/java/com/example/demo/service/TransactionRecordService.java:188 | two integers with the same rendering are equal |
| Decimal.IntToStringChars | Backend/src/main/java/com/example/demo/service/TransactionRecordService.java:188 | a rendered integer holds only digits and the minus sign |
| Ledger.KindOf | Backend/src/main/java/com/example/demo/service/TransactionRecordService.java:71-76 | a type string is an expense exactly when it equals "expense" ignoring case, an income exactly when it equals "income" ignoring case, and never both |
| Ledger.MessageInjective | Backend/src/main/java/com/example/demo/service/TransactionRecordService.java:151 | the three exception texts (record not found, account not found, no records found) never coincide for different errors |
| Ledger.MessageStartsWithTag | Backend/src/main/java/com/example/demo/service/TransactionRecordService.java:205-213 | each exception text starts with a letter that tells its kind apart |
| Ledger.CacheKeyInjective | Backend/src/main/java/com/example/demo/service/TransactionRecordService.java:188 | two accounts with different owner or id never share a cache key |
| Ledger.KeyPartsUnique | Backend/src/main/java/com/example/demo/service/TransactionRecordService.java:188 | a cache key splits back into its user part and account part |
| Ledger.Pick | Backend/src/main/java/com/example/demo/service/TransactionRecordService.java:156 | the record chosen next from a non-empty set is a member of it |
| Ledger.TotalRemove | Backend/src/main/java/com/example/demo/service/TransactionRecordService.java:156-162 | an account's per-type total over a record map is one record's contribution plus the total over the rest |
| Ledger.TotalSplit | Backend/src/main/java/com/example/demo/service/TransactionRecordService.java:156-166 | the total over a map is the total over the records removed plus the total over the records kept |
| Ledger.TotalOfOtherAccounts | Backend/src/main/java/com/example/demo/service/TransactionRecordService.java:147 | records of other accounts contribute nothing to an account's total |
| Ledger.AddMovesMatchingTotal | Backend/src/main/java/com/example/demo/service/TransactionRecordService.java:71-81 | adding a record raises the expense total by its amount when its type is "expense", the income total when "income", neither otherwise; other accounts stay as they were |
| Ledger.UpdateMovesTotals | Backend/src/main/java/com/example/demo/service/TransactionRecordService.java:97-110 | updating takes the old amount off the old type's total and puts the new amount on the new type's total, only for the record's account |
| Ledger.UpdateSameKindAndAmount | Backend/src/main/java/com/example/demo/service/TransactionRecordService.java:97-108 | an update that keeps the type's kind and the amount leaves every account unchanged |
| Ledger.DeleteMovesMatchingTotal | Backend/src/main/java/com/example/demo/service/TransactionRecordService.java:127-133 | deleting a record takes its amount off the matching total of its account and removes exactly that record |
| Ledger.AddThenDeleteRestores | Backend/src/main/java/com/example/demo/service/TransactionRecordService.java:65-138 | adding a fresh record and then deleting it gives back the original records and accounts |
| Ledger.BatchDeleteMovesTotals | Backend/src/main/java/com/example/demo/service/TransactionRecordService.java:147-166 | a batch delete removes exactly the listed records of the account and lowers each of its totals by the matching records' sum |
| Ledger.BatchAfterOneDelete | Backend/src/main/java/com/example/demo/service/TransactionRecordService.java:156-162 | deleting one matched record first and then the rest of the batch gives the same store as the batch |
| Ledger.BatchDeleteStore | Backend/src/main/java/com/example/demo/service/TransactionRecordService.java:156-174 | the batch's result is the records minus the matched ones, and the account with its totals lowered by the matched sums |
| Ledger.BatchDeleteIsDeletingOneAtATime | Backend/src/main/java/com/example/demo/service/TransactionRecordService.java:156-166 | deleting the matched records one at a time, in any order, gives the batch's result |
| Ledger.DistinctTail | Backend/src/main/java/com/example/demo/service/TransactionRecordService.java:156 | after the first record of a duplicate-free enumeration, the rest enumerate the remaining set |
| Ledger.AddPreservesConsistency | Backend/src/main/java/com/example/demo/service/TransactionRecordService.java:65-89 | adding a record keeps every account's totals equal to the sums of its records |
| Ledger.UpdatePreservesConsistency | Backend/src/main/java/com/example/demo/service/TransactionRecordService.java:91-115 | updating a record keeps every account's totals equal to the sums of its records |
| Ledger.DeletePreservesConsistency | Backend/src/main/java/com/example/demo/service/TransactionRecordService.java:123-138 | deleting a record keeps every account's totals equal to the sums of its records |
| Ledger.BatchDeletePreservesConsistency | Backend/src/main/java/com/example/demo/service/TransactionRecordService.java:140-175 | a batch delete keeps every account's totals equal to the sums of its records |
| RecordService.TransactionRecordService.constructor | Backend/src/main/java/com/example/demo/service/TransactionRecordService.java:47-57 | the service starts over the contents of the injected record and account repositories and the cache's current entries |
| RecordService.TransactionRecordService.FindTransactionRecordById | Backend/src/main/java/com/example/demo/service/TransactionRecordService.java:205-208 | returns the stored record, or fails with "record not found" carrying the id |
| RecordService.TransactionRecordService.FindAccountById | Backend/src/main/java/com/example/demo/service/TransactionRecordService.java:210-213 | returns the stored account, or fails with "account not found" carrying the id |
| RecordService.TransactionRecordService.FindAllByIdInAndAccountId | Backend/src/main/java/com/example/demo/service/TransactionRecordService.java:147 | returns exactly the stored records whose id is listed and whose account is the given one |
| RecordService.TransactionRecordService.UpdateRedisAccount | Backend/src/main/java/com/example/demo/service/TransactionRecordService.java:187-203 | writes the account's snapshot (id, name, totals) under its owner-and-account key and changes no other cache entry |
| RecordService.TransactionRecordService.AddTransactionRecord | Backend/src/main/java/com/example/demo/service/TransactionRecordService.java:65-89 | fails with "account not found" and changes nothing when the account is missing; otherwise stores the record and moves the matching total (`AfterAdd`), keeps the invariant, and leaves the cache alone |
| RecordService.TransactionRecordService.UpdateTransactionRecord | Backend/src/main/java/com/example/demo/service/TransactionRecordService.java:91-115 | fails with "record not found", then "account not found", changing nothing; otherwise applies `AfterUpdate`, keeps the invariant, and caches the account's new snapshot |
| RecordService.TransactionRecordService.DeleteTransactionRecord | Backend/src/main/java/com/example/demo/service/TransactionRecordService.java:123-138 | fails with "record not found", then "account not found", changing nothing; otherwise applies `AfterDelete`, keeps the invariant, and caches the account's new snapshot |
| RecordService.TransactionRecordService.DeleteTransactionRecordsInBatch | Backend/src/main/java/com/example/demo/service/TransactionRecordService.java:140-175 | fails with "account not found", then "no records found" when no listed id belongs to the account, changing nothing; otherwise its loop over the matched records yields `AfterBatchDelete`, keeps the invariant, and caches the account's new snapshot |
| InsightFilter.FilterMembership | Frontend/src/pages/investment/index.jsx:117-120 | an insight is shown exactly when it is in the list and its title or description includes the search term, ignoring case |
| InsightFilter.FilterCounts | Frontend/src/pages/investment/index.jsx:117-120 | a matching insight is shown as many times as it occurs in the list, a non-matching one never |
| InsightFilter.FilterAppend | Frontend/src/pages/investment/index.jsx:117-120 | filtering a concatenation is concatenating the filtered parts |
| InsightFilter.FilterIsSubsequence | Frontend/src/pages/investment/index.jsx:117-120 | the shown insights keep the list's order |
| InsightFilter.FilterEmptyTerm | Frontend/src/pages/investment/index.jsx:117-120 | an empty search term shows every insight |
| InsightFilter.FilterIgnoresTermCase | Frontend/src/pages/investment/index.jsx:117-120 | two search terms that differ only in case show the same insights |
| InsightFilter.FilterIdempotent | Frontend/src/pages/investment/index.jsx:117-120 | filtering the shown insights again by the same term changes nothing |
| Investment.Sendable | Frontend/src/pages/investment/index.jsx:73 | an edited topic is sent exactly when there is one and its name has a character that is not white space |
| Investment.InvestmentPage.constructor | Frontend/src/pages/investment/index.jsx:15-25 | the page starts with empty lists, loading, no error, an empty search term and draft, and every dialog closed |
| Investment.InvestmentPage.HandleInsightsUpdate | Frontend/src/pages/investment/index.jsx:28-32 | a pushed insight list replaces the old one, ends loading and clears the error; nothing else changes |
| Investment.InvestmentPage.HandleTopicsUpdate | Frontend/src/pages/investment/index.jsx:34-36 | a pushed topic list replaces the old one; nothing else changes |
| Investment.InvestmentPage.HandleAddTopic | Frontend/src/pages/investment/index.jsx:47-70 | a blank draft name sends nothing and changes nothing; otherwise the draft is sent, and on success the draft is cleared and the dialog closes, while on failure only the sent command is recorded |
| Investment.InvestmentPage.HandleUpdateTopic | Frontend/src/pages/investment/index.jsx:72-94 | without an edited topic or with a blank name nothing is sent; otherwise the topic is sent under its id, and on success only the edit dialog closes |
| Investment.InvestmentPage.HandleDeleteTopic | Frontend/src/pages/investment/index.jsx:96-115 | sends the soft delete for the id and reports success or failure; the page's lists do not change |
| Investment.InvestmentPage.SetSearchTerm | Frontend/src/pages/investment/index.jsx:221 | typing in the search box sets the term and nothing else |
| Investment.InvestmentPage.OpenAddTopicDialog | Frontend/src/pages/investment/index.jsx:227 | opens the add dialog and keeps the draft as it was |
| Investment.InvestmentPage.DismissAddTopicDialog | Frontend/src/pages/investment/index.jsx:292 | closes the add dialog and keeps the draft |
| Investment.InvestmentPage.SetNewTopicName | Frontend/src/pages/investment/index.jsx:304 | sets the draft's name and keeps its explanation |
| Investment.InvestmentPage.SetNewTopicExplaination | Frontend/src/pages/investment/index.jsx:311 | sets the draft's explanation and keeps its name |
| Investment.InvestmentPage.EditTopic | Frontend/src/pages/investment/index.jsx:166-168 | loads the topic into the edit buffer and opens the edit dialog |
| Investment.InvestmentPage.DismissEditTopicDialog | Frontend/src/pages/investment/index.jsx:320 | closes the edit dialog and keeps the buffer |
| Investment.InvestmentPage.SetEditingTopicName | Frontend/src/pages/investment/index.jsx:332 | sets the buffer's name when there is a buffer, and leaves an empty buffer empty |
| Investment.InvestmentPage.SetEditingTopicExplaination | Frontend/src/pages/investment/index.jsx:339 | sets the buffer's explanation when there is a buffer, and leaves an empty buffer empty |
| Investment.InvestmentPage.WatchVideo | Frontend/src/pages/investment/index.jsx:141 | opens the video dialog on the chosen insight |
| Investment.InvestmentPage.CloseWatchDialog | Frontend/src/pages/investment/index.jsx:348 | closing or dismissing the video dialog clears the chosen insight |
| Investment.InvestmentPage.SetTopicsExpanded | Frontend/src/pages/investment/index.jsx:252 | expands or collapses the topic list and changes nothing else |

Every page method also keeps `Valid()`: the edit dialog is open only over a topic
in the edit buffer. The Close button of the video dialog
(Frontend/src/pages/investment/index.jsx:375) is the same transition as dismissing it
and is modelled by `CloseWatchDialog` too.

## Left out

- Case folding is ASCII only: Java's `equalsIgnoreCase` and JavaScript's `toLowerCase` also fold non-ASCII letters, which the model treats as having no case.
- Amounts are unbounded reals: the source's `Double` rounding is not modelled.
- A `null` record type, which makes the Java `equalsIgnoreCase` call throw, is not modelled: types are always strings.
- Token handling (stripping "Bearer ", reading the user id from a JWT) and looking up the user's current account are left out: `AddTransactionRecord` takes the user id and the account id as parameters, and `DeleteTransactionRecordsInBatch` takes the account id.
- RecordService.TransactionRecordService.AddTransactionRecord: the new record's id is a parameter that must be unused, since the database assigns it.
- Ledger.AfterAdd and Ledger.AfterUpdate take the stored record's type and amount to be the request's: the converters `toTransactionRecord` and `updateTransactionRecordFromDTO` are not part of this model, and `Ledger.AddPreservesConsistency` and `Ledger.UpdatePreservesConsistency` rely on them copying those two fields, and on the update leaving the record's account and user as they were.
- Elasticsearch synchronisation, the message sent to the AI analyser, the log line and the DTO converters are calls into code that is not part of this model; only the fields the bookkeeping reads are modelled.
- RecordService.TransactionRecordService.UpdateRedisAccount: a failing cache write is caught and only printed in the source; the model's write always succeeds.
- Transactions are not modelled: each method's effect is atomic, and the account changes are taken as persisted even in `deleteTransactionRecord`, which is not marked transactional.
- Accounts are values in a table, not shared entity objects; the record's reference to its account is its account id.
- `getAllRecordsByAccountId`, `findRecordByAccountIdAndType` and `getCertainDaysRecords` are plain repository queries outside the bookkeeping and are not modelled.
- RecordService.TransactionRecordService.DeleteTransactionRecordsInBatch: the order in which the repository returns the matched records is unspecified in the model; the loop picks any remaining one, and `Ledger.BatchDeleteIsDeletingOneAtATime` shows every order gives the same result.
- The page's rendering (markup, animations, the loading spinner, the error banner), toasts and console output are left out; a handler's `Ack` result stands for the success or error toast.
- The data service's internals, the subscription set-up and clean-up, and asynchronous interleaving of handlers are left out: each handler runs to completion with the command's settled result as a parameter.
- Investment.InvestmentPage.OpenAddTopicDialog: this follows the page's code, where opening the add dialog does not reset the draft.
