# finance-tracker-api in Dafny

This project models the service layer of a small personal-finance HTTP API. Users register and log in. They record income and expense transactions, set spending budgets per category and date window, and ask for monthly summaries. A request pipeline gives every request an id, logs it and guards the mock-data endpoints with an API key.

The relational store and the cache become values held by the model:

- A table is a `seq` of rows.
- The cache is a `map` from key to entry.
- The SQL aggregates (`SUM`, `GROUP BY`) are functions over the selected rows. A `SUM` over no rows is `None`, as SQL's NULL is.

The services that update state are classes whose methods change those fields:

- `BudgetStore`, `UserStore` and `TransactionStore`.
- The request, response, UUID source and `next` callback of the request-context middleware.

The pure decisions are functions, and lemmas state their properties:

- login;
- the month validator;
- the interceptor's logging;
- the API-key guard.

Amounts are `real`. Instants are integer milliseconds of local time. JavaScript's `new Date(y, m, d, h, mi, s, ms)` is modelled with the day and time arithmetic of the ECMAScript `MakeDay`/`MakeTime`/`MakeDate` operations, including the mapping of years 0..99 to 1900..1999. Token signing (a token, or the error the signer raises), UUID generation and the clocks (`new Date()`, `process.hrtime`) are parameters.

### Where the code differs from its description

The monthly summaries are meant to cover the requested month. The code computes the window end as day 0 of the requested month, which is the last day of the previous month. `WindowIsInverted` proves that for every accepted month the end lies exactly 1 ms before the start. As a result, `GetMonthlySummary` always returns zeros and `GetSummaryByCategory` always returns two empty maps. The model keeps this behaviour as written.

The listing queries take at most 10000 rows. That is the bound the code uses, although a unit test of `findAll` expects 1000000.

## Model

| member | source | states |
|---|---|---|
| MonthQuery.IsMonth | src/dtos/summary-query.dto.ts:5 | an accepted value has seven characters, a `-` in the middle and digits everywhere else |
| MonthQuery.ValidateMonth | src/dtos/summary-query.dto.ts:5-6 | a value is accepted exactly when it matches `^\d{4}-(0[1-9]\|1[0-2])$`; it is then passed on unchanged and has length 7; a rejection carries the format message |
| MonthQuery.AcceptedIsCanonical | src/dtos/summary-query.dto.ts:5 | a value is accepted exactly when it is the zero-padded spelling of some year 0..9999 and month 1..12 |
| MonthQuery.MonthExamples | src/dtos/summary-query.dto.ts:5 | `2024-05`, `0000-01` and `2025-12` are accepted; `2024-00`, `2024-13`, `2024-5`, values with leading or trailing characters and `24-05` are rejected |
| MonthQuery.MonthAcceptedExample | src/dtos/summary-query.dto.ts:5 | `2024-05` is accepted and read as year 2024, month 5 |
| MonthQuery.MonthBoundaryExamples | src/dtos/summary-query.dto.ts:5 | `0000-01` and `2025-12` are accepted |
| MonthQuery.MonthOutOfRangeExamples | src/dtos/summary-query.dto.ts:5 | months `00` and `13` are rejected |
| MonthQuery.MonthMalformedExamples | src/dtos/summary-query.dto.ts:5 | a one-digit month, a two-digit year and surrounding blanks are rejected |
| Common.SplitJoin | src/summary/summary.service.ts:17 | joining the pieces of `split` with the separator gives back the string |
| Common.SplitPiecesLackSeparator | src/summary/summary.service.ts:17 | no piece of a split contains the separator |
| Common.SplitFirstPiece | src/middlewares/request-logging.interceptor.ts:38 | the first piece of a split is the text before the first separator |
| Common.SplitWithoutSeparator | src/middlewares/request-logging.interceptor.ts:38 | a string without the separator splits into itself alone |
| Common.SplitBeforeSeparator | src/middlewares/request-logging.interceptor.ts:38 | the first piece is the text before the first separator, whatever follows it |
| Common.IndexOfIs | src/middlewares/request-logging.interceptor.ts:38 | the position of the first separator is determined by its defining properties |
| MonthQuery.SplitOfMonth | src/summary/summary.service.ts:17 | an accepted month splits into its year digits and its month digits |
| MonthQuery.ParseMonth | src/summary/summary.service.ts:17 | `split('-').map(Number)` of an accepted month gives a year in 0..9999 and a month in 1..12 |
| MonthQuery.DigitsRoundTrip | src/summary/summary.service.ts:17 | a number printed with enough zero-padded digits reads back as the number |
| MonthQuery.ValueRoundTrip | src/summary/summary.service.ts:17 | a digit string read as a number and printed back at its width is the string |
| MonthQuery.DigitsValueBound | src/summary/summary.service.ts:17 | a string of n digits reads as a number below 10^n |
| MonthQuery.FormatThenParse | src/dtos/summary-query.dto.ts:5 | every year 0..9999 with every month 1..12 is accepted, including year 0000, and parses back to the same pair |
| MonthQuery.ParseThenFormat | src/dtos/summary-query.dto.ts:5 | every accepted value is the zero-padded spelling of the pair it parses to |
| Entities.Within | src/summary/summary.service.ts:21-23 | the rows the owner-and-window query returns are exactly the user's rows dated inside the inclusive window |
| Entities.SqlSum | src/budget/budget.service.ts:40-49 | `SUM` is NULL over no rows and otherwise the sum of the amounts |
| Entities.SumAppend | src/budget/budget.service.ts:40-49 | the sum of two row sequences placed end to end is the sum of their sums |
| Entities.EmptyWindowSelectsNothing | src/summary/summary.service.ts:21-23 | a window whose end precedes its start selects no rows |
| SummaryService.LocalDate | src/summary/summary.service.ts:18-19 | with a time of day in range, `new Date(y, m, d, h, mi, s, ms)` is an instant of the day that y, m and d name |
| SummaryService.MonthWindow | src/summary/summary.service.ts:18-19 | the window starts at midnight of the first of the month and ends at the last millisecond of the day before it |
| SummaryService.DayZeroIsDayBefore | src/summary/summary.service.ts:19 | day 0 of a month is the day before day 1 of that month |
| SummaryService.EndOfDayBeforeNext | src/summary/summary.service.ts:18-19 | 23:59:59.999 on one day is 1 ms before midnight of the next day |
| SummaryService.WindowIsInverted | src/summary/summary.service.ts:18-19 | for every year and month the window end is exactly 1 ms before the window start |
| SummaryService.WindowOf | src/summary/summary.service.ts:17-19 | the window of every accepted month is empty (end < start) |
| SummaryService.FirstOfMay2024 | src/summary/summary.service.ts:18 | 1 May 2024 is day 19844 since the epoch |
| SummaryService.WindowExample | src/summary/summary.service.ts:17-19 | the window of `2024-05` starts at 1714521600000 and ends at 1714521599999 |
| SummaryService.KindTotal | src/summary/summary.service.ts:28-31 | a type that no transaction has totals zero |
| SummaryService.KindTotalsPartition | src/summary/summary.service.ts:28-31 | the income total plus the expense total is the sum of all amounts: every transaction goes to exactly one side |
| SummaryService.KindTotalAppend | src/summary/summary.service.ts:28-31 | the per-type totals add up across concatenation |
| SummaryService.MonthlyTotals | src/summary/summary.service.ts:25-39 | the loop's totals are the income and expense sums, the net balance is their difference, and no transactions gives zeros |
| SummaryService.MonthlyExample | src/summary/summary.service.spec.ts:37-56 | Income 100, Expense 50, Income 25 give a total income of 125, a total expense of 50 and a net balance of 75 |
| SummaryService.GetMonthlySummary | src/summary/summary.service.ts:16-40 | the summary is that of the user's transactions in the month's window, and, the window being empty, all zeros |
| SummaryService.GroupKeys | src/summary/summary.service.ts:57-58 | the grouping keys are distinct, and are exactly the (type, category) pairs that occur |
| SummaryService.GroupRows | src/summary/summary.service.ts:47-59 | one row per distinct (type, category), carrying the sum of its amounts |
| SummaryService.SummarizeRows | src/summary/summary.service.ts:61-68 | the result always has the keys Income and Expense; each category holds the total of the last row with that type and category, and nothing else is present |
| SummaryService.LastTotal | src/summary/summary.service.ts:66-68 | a type and category is absent exactly when no row carries it; otherwise it holds the total of the last row that does |
| SummaryService.LastTotalOfDistinct | src/summary/summary.service.ts:66-68 | with distinct keys, every row's total is found at its type and category |
| SummaryService.GroupedSummary | src/summary/summary.service.ts:47-68 | folding the grouped rows gives each occurring (type, category) its sum and nothing else |
| SummaryService.CategoryExample | src/summary/summary.service.spec.ts:85-102 | the example rows give {Income:{Salary:3000}, Expense:{Food:120.5, Travel:79.5}} and no other type and category |
| SummaryService.GetSummaryByCategory | src/summary/summary.service.ts:42-71 | both type keys are present, the entries are the grouped totals of the user's rows in the window, and, the window being empty, both maps are empty |
| BudgetService.OwnedBudgets | src/budget/budget.service.ts:28-30 | the budgets returned are exactly those owned by the user |
| BudgetService.BudgetRows | src/budget/budget.service.ts:40-49 | the summed rows are exactly the user's rows in the budget's category dated within [startDate, endDate] inclusive |
| BudgetService.BudgetStore.CreateBudget | src/budget/budget.service.ts:16-26 | the one stored budget has the given owner, category, limit and dates |
| BudgetService.BudgetStore.GetBudgets | src/budget/budget.service.ts:28-30 | only and all of the user's budgets are returned |
| BudgetService.BudgetStore.GetBudgetRemaining | src/budget/budget.service.ts:32-64 | one entry per owned budget, in fetch order, each computed by its own sum query (one query per budget, none when there are no budgets), and remaining = limit − spent |
| BudgetService.SpentAmount | src/budget/budget.service.ts:51 | a NULL sum counts as 0; any other sum is taken as it is |
| BudgetService.SummaryOf | src/budget/budget.service.ts:40-58 | spent is the sum of the matching amounts (NULL counting as 0); category and limit are copied; remaining is limit minus that sum |
| BudgetService.NothingMatchingLeavesLimit | src/budget/budget.service.ts:51 | with no matching transaction, spent is 0 and remaining is the whole limit |
| BudgetService.BudgetRowsAppend | src/budget/budget.service.ts:40-49 | the selected rows of concatenated tables are the concatenated selections |
| BudgetService.OthersNeverCount | src/budget/budget.service.ts:40-49 | a row of another user or category, or dated outside the window, never changes an entry, wherever it sits |
| BudgetService.MatchingAddsItsAmount | src/budget/budget.service.ts:40-58 | a matching row adds exactly its amount to spent and takes it off remaining |
| BudgetService.RemainingExample | src/budget/budget.service.spec.ts:132-175 | Food 1000 with 250.75 spent leaves 749.25; Travel 300 with nothing matching leaves 300 |
| TransactionService.CacheKey | src/transaction/transaction.service.ts:47 | the key begins with `transactions-` and the rest of it is the user id |
| TransactionService.CacheKeyInjective | src/transaction/transaction.service.ts:47 | different users never share a cache key |
| TransactionService.OwnedRows | src/transaction/transaction.service.ts:39-44 | exactly the user's rows |
| TransactionService.Listing | src/transaction/transaction.service.ts:39-44 | at most 10000 rows, all of them the user's |
| TransactionService.FindRow | src/transaction/transaction.service.ts:75 | the row with that id, or none exactly when no row has it |
| TransactionService.Without | src/transaction/transaction.service.ts:78-80 | the rows left are exactly those with another id |
| TransactionService.ApplyPatch | src/transaction/transaction.service.ts:73-76 | an update never changes the id or the owner, and one with no fields leaves the row as it was |
| TransactionService.PatchOverwritesItsFields | src/transaction/transaction.service.ts:73-76 | an update overwrites exactly the fields it carries, and applying it twice equals applying it once |
| TransactionService.UniqueTail | src/transaction/transaction.service.ts:78-80 | the tail of a table with unique ids has unique ids, none equal to the head's |
| TransactionService.UniqueCons | src/transaction/transaction.service.ts:78-80 | putting a row with a new id in front keeps ids unique |
| TransactionService.WithoutRemovesAtMostOne | src/transaction/transaction.service.ts:78-80 | with unique ids a delete removes one row when the id is present and none otherwise, and ids stay unique |
| TransactionService.PatchedRowFound | src/transaction/transaction.service.ts:73-76 | after patching by id, reading the row back gives the patched original, or nothing when absent |
| TransactionService.TransactionStore.Create | src/transaction/transaction.service.ts:19-37 | one row is appended with the request's fields and date `now`; its owner is the looked-up user, or none when the lookup finds nobody; the cache is untouched |
| TransactionService.TransactionStore.FindAll | src/transaction/transaction.service.ts:39-44 | only the user's rows, at most 10000, all of them when there are fewer |
| TransactionService.TransactionStore.FindAllWithCache | src/transaction/transaction.service.ts:46-71 | a hit returns the stored list, even an empty one, with no table read and the cache unchanged; a miss reads once, stores that list under the key with TTL 3600000 ms and returns it |
| TransactionService.TransactionStore.Update | src/transaction/transaction.service.ts:73-76 | only the row with that id is patched, the rest are unchanged, the read-back row or none is returned, and the cache is untouched |
| TransactionService.TransactionStore.Remove | src/transaction/transaction.service.ts:78-80 | only the row with that id is deleted; affected is 1 when it was present and 0 otherwise; the cache is untouched |
| TransactionService.StaleReadAfterCreate | src/transaction/transaction.service.ts:19-71 | after a cached read, a created transaction is in the fresh listing but not in the second cached read, which equals the first |
| TransactionService.OwnedAfterAppend | src/transaction/transaction.service.ts:19-44 | a created row ends the user's rows, and is listed while the user has fewer than 10000 |
| UserService.FindByUsername | src/user/user.service.ts:29-31 | a stored user with that username, or null exactly when there is none |
| UserService.FindById | src/user/user.service.ts:33-35 | a stored user with that id, or null exactly when there is none |
| UserService.FindStoredUser | src/user/user.service.ts:29-31 | with unique usernames, looking up a stored user's name finds that user |
| UserService.FindAfterAppend | src/user/user.service.ts:12-31 | after inserting a new username, looking it up finds the new user and every other lookup is unchanged |
| UserService.UserStore.Register | src/user/user.service.ts:12-27 | a taken username raises `Username Already Existed` and leaves the table unchanged; otherwise exactly one user is added with `pwdHash` equal to the raw password; usernames and ids stay unique |
| UserService.RegisterTwice | src/user/user.service.ts:12-27 | registering one username twice saves it once and rejects the second call |
| AuthService.Login | src/auth/auth.service.ts:18-36 | a token is returned exactly when the user exists, the stored password is equal and signing {username, sub: id} succeeds, and it is the signed token; every failure, including an error from the lookup or from the signer, is caught and logged and gives no token |
| AuthService.Register | src/auth/auth.service.ts:13-16 | the user service's result or conflict error is passed through unchanged |
| AuthService.LoginStoredUser | src/auth/auth.service.ts:18-32 | a stored user gets a token exactly with the stored password and a signer that signs its claims |
| AuthService.LoginAfterRegister | src/auth/auth.service.ts:13-32 | after registering, the same password yields the user's token when signing succeeds and the signer's error otherwise; any other password yields none |
| AuthService.LoginExamples | src/auth/auth.service.spec.ts:74-108 | a match returns the signed token; an unknown user or a wrong password returns nothing and logs its message |
| AuthService.LoginSignerFails | src/auth/auth.service.ts:28-35 | a signer that raises gives no token and its message is logged |
| RequestLogging.ElapsedMs | src/middlewares/request-logging.interceptor.ts:14 | seconds count 1000 ms each and the nanoseconds add under one second; a whole number of milliseconds is exact |
| RequestLogging.Round | src/middlewares/request-logging.interceptor.ts:14 | `Math.round` gives the integer within half a unit, rounding halves up |
| RequestLogging.RoundIsUnique | src/middlewares/request-logging.interceptor.ts:14 | that integer is unique |
| RequestLogging.DurationMs | src/middlewares/request-logging.interceptor.ts:11-15 | no start reading gives no duration; otherwise the elapsed milliseconds rounded to the nearest integer |
| RequestLogging.DurationExample | src/middlewares/request-logging.interceptor.spec.ts:56-62 | [0 s, 5000000 ns] is 5 ms |
| RequestLogging.PathOf | src/middlewares/request-logging.interceptor.ts:29 | `originalUrl`, else `url`, else empty; empty strings fall through |
| RequestLogging.IsHealthPath | src/middlewares/request-logging.interceptor.ts:30 | the bypass test is exactly "the path starts with /health" |
| RequestLogging.HealthPathExamples | src/middlewares/request-logging.interceptor.ts:30 | `/health`, `/healthz` and `/health/db` bypass; `/api/health`, `/Health` and `/api/things` do not |
| RequestLogging.TrimStart | src/middlewares/request-logging.interceptor.ts:38 | removes exactly the leading white space |
| RequestLogging.TrimEnd | src/middlewares/request-logging.interceptor.ts:38 | removes exactly the trailing white space |
| RequestLogging.Trim | src/middlewares/request-logging.interceptor.ts:38 | the result neither begins nor ends with white space |
| RequestLogging.TrimIsSlice | src/middlewares/request-logging.interceptor.ts:38 | the result is a slice of the input with only white space around it |
| RequestLogging.TrimIdempotent | src/middlewares/request-logging.interceptor.ts:38 | trimming twice is trimming once |
| RequestLogging.FirstEntry | src/middlewares/request-logging.interceptor.ts:38 | the first forwarded entry neither begins nor ends with white space |
| RequestLogging.FirstEntryShape | src/middlewares/request-logging.interceptor.ts:38 | the first entry is the trimmed text before the first comma and holds no comma |
| RequestLogging.TrimKeepsOut | src/middlewares/request-logging.interceptor.ts:38 | trimming introduces no character the input lacks |
| RequestLogging.ClientIp | src/middlewares/request-logging.interceptor.ts:37-39 | the non-empty first forwarded entry, else the socket address |
| RequestLogging.TrimAddress | src/middlewares/request-logging.interceptor.ts:38 | trimming leaves an address unchanged and strips padding around it |
| RequestLogging.TrimPlainAddress | src/middlewares/request-logging.interceptor.ts:38 | an address without padding is left unchanged |
| RequestLogging.TrimPaddedAddress | src/middlewares/request-logging.interceptor.ts:38 | one blank on either side of an address is stripped |
| RequestLogging.ClientIpSingle | src/middlewares/request-logging.interceptor.spec.ts:39-42 | a single forwarded address is taken as it is |
| RequestLogging.ClientIpList | src/middlewares/request-logging.interceptor.ts:37-39 | of a forwarded list, the first address is taken without padding |
| RequestLogging.ClientIpFallback | src/middlewares/request-logging.interceptor.ts:37-39 | no header, an empty header or a blank first entry give the socket address |
| RequestLogging.EmptyHeaderFallback | src/middlewares/request-logging.interceptor.ts:37-39 | an empty forwarded header gives the socket address, whatever it is |
| RequestLogging.BlankEntryFallback | src/middlewares/request-logging.interceptor.ts:37-39 | a blank first forwarded entry gives the socket address, whatever it is |
| RequestLogging.UserIdOf | src/middlewares/request-logging.interceptor.ts:40 | the authenticated user's id exactly when there is a user with an id, else null |
| RequestLogging.MetaOf | src/middlewares/request-logging.interceptor.ts:33-42 | the metadata carries the request id, method, path, client ip, user id and user agent |
| RequestLogging.ErrorStatus | src/middlewares/request-logging.interceptor.ts:66 | the error's status if defined, else the response's, else 500 |
| RequestLogging.ErrorStatusExamples | src/middlewares/request-logging.interceptor.ts:66 | 418 wins over 200; 200 when the error has none; 500 when neither is defined; a defined 0 is kept |
| RequestLogging.Intercept | src/middlewares/request-logging.interceptor.ts:21-74 | a health path logs nothing; otherwise the request entry comes first, then the response entry on success or the error entry with status and stack on failure; the outcome reaches the caller unchanged |
| RequestLogging.OneOutcomeLogged | src/middlewares/request-logging.interceptor.ts:44-72 | no error entry on success, no response entry on failure, one request entry, all sharing the request metadata |
| RequestLogging.ExampleMeta | src/middlewares/request-logging.interceptor.spec.ts:33-47 | the example request's metadata |
| RequestLogging.InterceptHealthExample | src/middlewares/request-logging.interceptor.spec.ts:69-81 | `/health` passes `ok` through with nothing logged |
| RequestLogging.InterceptSuccessExample | src/middlewares/request-logging.interceptor.spec.ts:83-123 | request entry, then response entry with status 200, 5 ms and content length `123` |
| RequestLogging.InterceptFailureExample | src/middlewares/request-logging.interceptor.spec.ts:125-149 | request entry, then error entry with the stack, status 418 and 5 ms; the error is rethrown |
| RequestContext.SelectRequestId | src/middlewares/request-context.middleware.ts:15-16 | a non-empty header wins, otherwise the generated id |
| RequestContext.RequestIdNeverEmpty | src/middlewares/request-context.middleware.ts:16 | when generated ids are non-empty, every request id is non-empty |
| RequestContext.Header | src/middlewares/request-context.middleware.ts:15 | the header value, or nothing when absent |
| RequestContext.UseExamples | src/middlewares/request-context.middleware.spec.ts:34-68 | a supplied id is kept and echoed with no UUID generated; without one the generated UUID is used and echoed |
| RequestContext.Use | src/middlewares/request-context.middleware.ts:14-21 | the id is the non-empty header with no UUID generated, else exactly one fresh UUID; the response header echoes the id; startAt is the clock reading; `next` runs once after all are set |
| ApiKeyGuard.NewGuard | src/mockdata/api-key.guard.ts:14-16 | the configured key is the `API_KEY` setting, or none |
| ApiKeyGuard.CanActivate | src/mockdata/api-key.guard.ts:18-33 | a missing or empty header is refused as missing before any comparison; a differing one as invalid; otherwise true; never false |
| ApiKeyGuard.UnconfiguredRefusesAll | src/mockdata/api-key.guard.ts:15-30 | with no key configured every request is refused, as invalid when it carries a key |
| ApiKeyGuard.EmptyKeyRefusesAll | src/mockdata/api-key.guard.ts:24-30 | an empty configured key lets nothing through |
| ApiKeyGuard.GuardExamples | src/mockdata/api-key.guard.ts:24-32 | the matching key passes; a wrong, missing or empty key is refused with its message |

## Left out

- Time zones and daylight-saving time. Local time is treated as a uniform millisecond count, and the day-granular `date` column is not distinguished from an instant.
- Floating-point arithmetic. Amounts are exact reals, so `1000 - 250.75` has no rounding, and `Number(...)` on a sum reduces to "NULL gives 0, a value gives itself".
- Expiry of cache entries. The TTL is recorded with each entry but never makes the entry disappear; expiry belongs to the external cache.
- Concurrency. Calls are sequential, so the lookup-then-insert race of registration is not modelled.
- I/O is not modelled: the logger's console output and JSON formatting, `console.log` of cache hits and login failures, and the HTTP framework's wiring.
- The request entry's `query` and `body` fields. They are copied from the request as they are and are not part of the model's metadata.
- The mock-data seeding service and controller. These are random data generation.
- The all-exceptions filter. Its source is not part of this model.
- TransactionService.TransactionStore.Update: a patch cannot change a row's id or owner, and an update carrying no fields is modelled as a no-op, whereas the store library rejects it.
- RequestContext.Header: the lookup is an exact match on the lower-case name, whereas Express's `req.header` ignores case. Repeated headers that Express joins into one value are not modelled.
- RequestLogging.Trim: it removes ASCII white space, no-break space, the byte order mark and the two Unicode line terminators, but not the other Unicode space separators that JavaScript's `trim` also removes.
- RequestLogging.Intercept: the handler produces a single value or a single error. Observables that emit several values, each logged as a response, are not modelled.
- RequestLogging.HandlerError: a thrown value is an error object with an optional status and stack. Throwing `null` or a non-object is not modelled.
- ApiKeyGuard.CanActivate: the header is a single string. A header given as an array of values is not modelled.
- UserService.FindByUsername: the lookup returns the first matching row in table order. The store guarantees no particular order, but usernames are unique, so at most one row matches.
