# Expense management: a verified model of the service core

This project models, in Dafny, the core of an expense-tracking web application. It has a
backend and a browser client.

On the backend:

- **Expense service.** An owner-scoped store of expense documents. Create, list, look up,
  update and delete. It also builds the monthly summary (totals by category and by calendar
  day) and the category statistics (totals, counts and percentages).
- **Expense schema.** The `trim` setters and the validators that decide what may be stored.
- **Request rules.** The registration, login, expense-body and date-range rules run before a
  handler.
- **Auth service.** Registration and login over the user table.
- **`authenticate` middleware.** It parses the `Authorization: Bearer` header.

On the client:

- **`useExpenses` hook.** The list state it keeps.
- **Category tables.** The colour and icon tables with their `other` fallback.

The model follows the source's form:

- **Classes for mutable state.** The expense store (`ExpenseService.ExpenseStore`), the user
  table (`AuthService.AuthStore`), the request the middleware writes
  (`AuthMiddleware.Request`) and the hook's state (`UseExpenses.ExpensesHook`) are classes
  whose methods update their fields.
- **Loops kept as loops.** The two `forEach` loops that fill `categoryMap` and `dayMap` are
  `while` loops, proved equal to left folds (`ExpenseAggregation.CategoryMap`,
  `ExpenseAggregation.Totals`).
- **Properties proved of the folds.** The properties of the summary are proved about those
  folds.
- **Pure code as functions.** Schema, rules, header parsing, login and the lookup tables are
  functions with contracts.

Modelling choices:

- **JavaScript `Map`.** An association list in insertion order (`JsMap`), so "first-occurrence
  order" is a property the model can state.
- **Dates.** Calendar date-times (`Calendar.Instant`) in a single time zone. The JavaScript
  `Date` carrying of out-of-range months into the year is modelled, and so is the two-digit
  year rule.
- **Amounts.** Exact `real`s.
- **Outside code.** Hashing, password comparison, token issuing, token verification,
  `isEmail`, `isISO8601` and `normalizeEmail` are function-typed parameters. Their internals
  are not modelled.
- **API calls in the hook.** Each call is given to the hook method as its outcome.
- **Ids.** Record and user ids are natural numbers handed out from a counter.

## Model

| member | source | states |
|---|---|---|
| ExpenseService.ExpenseStore.CreateExpense | backend/src/services/expenseService.ts:19-26 | The store keeps its invariant. The result is the schema's verdict on the document with the next id, the supplied fields, and the supplied date or else `now`. A supplied Invalid Date is kept, and it fails the cast of `date`. On success exactly that document is appended and the id counter advances. On failure nothing changes. |
| ExpenseService.ExpenseStore.GetExpensesByUser | backend/src/services/expenseService.ts:28-43 | It fails with a cast error on `date` exactly when a given bound is an Invalid Date. Otherwise the result holds exactly the stored records of this owner within the given bounds (each bound optional, inclusive). They are ordered newest first. |
| ExpenseService.ExpenseStore.GetExpenseById | backend/src/services/expenseService.ts:45-48 | A record is returned only if it is stored with both this id and this owner. None is returned exactly when no stored record has both. |
| ExpenseService.ExpenseStore.UpdateExpense | backend/src/services/expenseService.ts:50-62 | It fails, changing nothing, exactly when the given date is an Invalid Date (a cast error, checked first) or an update validator rejects a supplied field. Otherwise it returns the owner's record after the update, or absent. Only that record is replaced. The store keeps its invariant. |
| ExpenseService.ExpenseStore.DeleteExpense | backend/src/services/expenseService.ts:64-67 | It returns the owner's record with this id, or absent. The store afterwards lacks exactly that record. The invariant is kept. |
| ExpenseService.ExpenseStore.GetMonthlySummary | backend/src/services/expenseService.ts:69-120 | It fails exactly when a window end is not a valid date. Otherwise it summarises exactly the owner's records of that calendar month, using the corrected window (see Findings). |
| ExpenseService.ExpenseStore.GetCategoryStats | backend/src/services/expenseService.ts:122-155 | It fails with a cast error on `date` exactly when a given bound is an Invalid Date. Otherwise the rows are those of the same owner-and-range filter as the listing, computed from `categoryMap` and the grand total. |
| ExpenseService.CollectCategories | backend/src/services/expenseService.ts:84-92 | The `forEach` loop leaves `categoryMap` equal to the left fold of "add the amount and one to the record's category". |
| ExpenseService.CollectTotals | backend/src/services/expenseService.ts:102-107 | The `forEach` loop leaves `dayMap` equal to the left fold of "add the amount to the record's day key". |
| ExpenseService.AppendKeepsStored | backend/src/services/expenseService.ts:19-26 | A conforming document stored under the next id keeps every stored record conforming, with distinct ids below the counter. |
| ExpenseService.UpdateKeepsStored | backend/src/services/expenseService.ts:50-62 | An update that passes the validators keeps the store's invariant. |
| ExpenseService.DeleteKeepsStored | backend/src/services/expenseService.ts:64-67 | A delete keeps the store's invariant. |
| ExpenseModel.FailingPathsSpec | backend/src/models/Expense.ts:21-45 | A field is reported exactly when it is given and fails its validator. The validators are amount ≥ 0, category in the enum, and a non-empty description. Nothing is reported when all given values pass. |
| ExpenseModel.Conforms | backend/src/models/Expense.ts:15-50 | What every stored document satisfies: amount ≥ 0, a category of the enum, and a description that is non-empty and trimmed. The owner and the date are always present. `NewExpense` and `UpdateKeepsConformance` prove that creation and update keep it. |
| ExpenseModel.FailingPaths | backend/src/models/Expense.ts:21-45 | The schema validators run on the given values only, as update validators do. `FailingPathsSpec` states which paths it reports. |
| ExpenseModel.NewExpense | backend/src/models/Expense.ts:13-55 | Creation succeeds exactly when amount ≥ 0, the trimmed category is one of the eight, the trimmed description is non-empty and the date is a valid `Date`. A failure names `date` exactly when the date is an Invalid Date. The stored document has the owner, the amount, the trimmed strings, the date, and both timestamps set to now. It conforms to the schema. |
| ExpenseModel.ApplyUpdate | backend/src/services/expenseService.ts:55-59 | The supplied fields take their trimmed new values and `updatedAt` becomes now. Id, owner, `createdAt` and every unsupplied field are unchanged. |
| ExpenseModel.UpdateKeepsConformance | backend/src/services/expenseService.ts:55-59 | With `runValidators`, an update whose supplied fields pass keeps a conforming document conforming. |
| ExpenseQueries.FilterMembers | backend/src/services/expenseService.ts:33-41 | The query keeps exactly the records of the owner whose date lies within the given bounds. |
| ExpenseQueries.InRange | backend/src/services/expenseService.ts:35-39 | A date lies within the bounds: at or after `$gte` when it is given, and at or before `$lte` when it is given. |
| ExpenseQueries.Matches | backend/src/services/expenseService.ts:33-39 | A record matches the query object when it has the owner and its date lies within the bounds. |
| ExpenseQueries.CastDate | backend/src/services/expenseService.ts:22 | An absent date stays absent. A valid date is kept. An Invalid Date fails with a cast error on `date`. |
| ExpenseQueries.CastRange | backend/src/services/expenseService.ts:129-133 | The query fails with a cast error on `date` exactly when a given bound is an Invalid Date. Otherwise each bound is kept as given. |
| ExpenseQueries.FilterConcat | backend/src/services/expenseService.ts:41 | The filter keeps the relative order of the records it keeps. |
| ExpenseQueries.Filter | backend/src/services/expenseService.ts:33-41 | The records `Expense.find(query)` returns, in the store's natural order. `FilterMembers` and `FilterConcat` state what it keeps and in which order. |
| ExpenseQueries.SortNewestFirst | backend/src/services/expenseService.ts:41 | `.sort({ date: -1 })` gives a permutation of its input, with dates non-increasing. |
| ExpenseQueries.SumAmountsNonNegative | backend/src/services/expenseService.ts:82 | The `reduce` total of non-negative amounts is non-negative. |
| ExpenseQueries.SumAmounts | backend/src/services/expenseService.ts:82 | The `reduce` total of the amounts (also at line 137). `CategoryMapSums`, `TotalsSum` and `SumAmountsNonNegative` relate it to the groups. |
| ExpenseQueries.FindOwned | backend/src/services/expenseService.ts:46 | It returns the first position whose record has both this id and this owner. It returns none exactly when no such record exists. |
| ExpenseQueries.Lookup | backend/src/services/expenseService.ts:45-48 | `findOne({ _id, userId })` returns a stored record with both this id and this owner. It returns nothing exactly when none exists. |
| ExpenseQueries.DeleteOwned | backend/src/services/expenseService.ts:65 | The store after `findOneAndDelete`: the first record with this id and owner is removed. `DeleteRemovesLookup`, `DeleteIdempotent` and `DeleteSparesOtherOwners` state its effect. |
| ExpenseQueries.ReplaceOwned | backend/src/services/expenseService.ts:55-59 | The store after `findOneAndUpdate`: the record with this id and owner is replaced in place. `ReplaceSparesOtherOwners` states that other owners see no change. |
| ExpenseQueries.DeleteRemovesLookup | backend/src/services/expenseService.ts:64-67 | Delete removes exactly the record the lookup finds: one occurrence, as a multiset. It changes nothing when the lookup finds none. |
| ExpenseQueries.DeleteIdempotent | backend/src/services/expenseService.ts:64-67 | With distinct ids, after a delete the lookup finds nothing and a second delete changes nothing. |
| ExpenseQueries.DeleteSparesOtherOwners | backend/src/services/expenseService.ts:64-67 | Every other owner's records are the same, in the same order, after a delete. |
| ExpenseQueries.ReplaceSparesOtherOwners | backend/src/services/expenseService.ts:50-62 | Every other owner's records are the same, in the same order, after an update. |
| ExpenseQueries.LookupAfterAppend | backend/src/services/expenseService.ts:45-48 | A record created with a fresh id is found again by its id and owner. |
| ExpenseAggregation.FirstOccurrencesSpec | backend/src/services/expenseService.ts:94-100 | The first-occurrence list has no repeats and holds exactly the given values. It orders them by each value's first position. |
| ExpenseAggregation.CategoryMap | backend/src/services/expenseService.ts:84-92 | `categoryMap` as the left fold of the `forEach` step. `CategoryMapKeys`, `CategoryMapGet` and `CategoryMapSums` state its contents. |
| ExpenseAggregation.Totals | backend/src/services/expenseService.ts:102-107 | A map of totals per key as the left fold of the `forEach` step. `TotalsKeys`, `TotalsGet` and `TotalsSum` state its contents. |
| ExpenseAggregation.DayMap | backend/src/services/expenseService.ts:102-107 | `dayMap`: the totals grouped by each record's `YYYY-MM-DD` key. |
| ExpenseAggregation.CategoryMapKeys | backend/src/services/expenseService.ts:84-92 | `categoryMap` holds each category once, in the order of first occurrence among the records. |
| ExpenseAggregation.CategoryMapGet | backend/src/services/expenseService.ts:84-92 | A category of the records maps to (sum of its amounts, number of its records). Any other category is absent. |
| ExpenseAggregation.CategoryMapSums | backend/src/services/expenseService.ts:82-92 | The category totals add up to the `reduce` total. The counts add up to the number of records. |
| ExpenseAggregation.TotalsKeys | backend/src/services/expenseService.ts:102-107 | `dayMap` holds each key once, in first-occurrence order. |
| ExpenseAggregation.TotalsGet | backend/src/services/expenseService.ts:102-107 | A key of the records maps to the sum of the amounts of its records. Any other key is absent. |
| ExpenseAggregation.TotalsSum | backend/src/services/expenseService.ts:102-107 | The day totals add up to the sum of all amounts. |
| ExpenseAggregation.CategoryMapEntries | backend/src/services/expenseService.ts:84-92 | Entry i of `categoryMap` is the i-th first-occurring category with its total and count. |
| ExpenseAggregation.TotalsEntries | backend/src/services/expenseService.ts:102-107 | Entry i of `dayMap` is the i-th first-occurring key with its total. |
| ExpenseAggregation.Breakdown | backend/src/services/expenseService.ts:94-100 | One row per map entry, in map order, with that entry's category, total and count. |
| ExpenseAggregation.DayRows | backend/src/services/expenseService.ts:109-110 | One row per map entry, in map order, with that entry's key and total. |
| ExpenseAggregation.DateOrderIsTotalPreorder | backend/src/services/expenseService.ts:111 | The comparator on day keys is a total preorder. |
| ExpenseAggregation.SortDays | backend/src/services/expenseService.ts:109-111 | The day rows are permuted into non-decreasing key order. `localeCompare` is modelled as code-point order. The two agree on keys of one shape, such as the `YYYY-MM-DD` keys of one month's summary. |
| ExpenseAggregation.StatsRows | backend/src/services/expenseService.ts:149-154 | One row per map entry, in map order. Each row has the category, total and count, and the percentage `total / grand × 100`, or 0 when the grand total is not positive. |
| ExpenseAggregation.Percentage | backend/src/services/expenseService.ts:153 | With a positive grand total, the percentage times the grand total is 100 times the category total. Otherwise it is 0. A total between 0 and the grand total gives a percentage in [0, 100]. |
| ExpenseAggregation.Summarize | backend/src/services/expenseService.ts:82-119 | The summary built from the records the window selects. `SummaryBreakdown` and `SummaryDays` state its properties. |
| ExpenseAggregation.CategoryStatsOf | backend/src/services/expenseService.ts:135-154 | The statistics built from the records the query selects. `CategoryStatsRows` and `CategoryStatsPercentages` state its properties. |
| ExpenseAggregation.SummaryBreakdown | backend/src/services/expenseService.ts:82-100 | The breakdown lists each category of the month once, in first-occurrence order, with the sum of its amounts and its number of records. The totals add up to `totalExpenses`. The counts add up to the number of records. |
| ExpenseAggregation.TotalsRows | backend/src/services/expenseService.ts:102-111 | Every arrangement of the day rows lists only days that have records, each with the total of that day. It lists every such day. |
| ExpenseAggregation.TotalsRowsSum | backend/src/services/expenseService.ts:102-111 | Every arrangement of the day rows adds up to the sum of all amounts. |
| ExpenseAggregation.TotalsRowsDistinct | backend/src/services/expenseService.ts:102-111 | Every arrangement of the day rows names each day once. |
| ExpenseAggregation.SummaryDays | backend/src/services/expenseService.ts:102-111 | `expensesByDay` has distinct, strictly ascending day keys. There is one row per day with records, holding that day's total. The rows add up to `totalExpenses`. |
| ExpenseAggregation.CategoryStatsRows | backend/src/services/expenseService.ts:137-154 | The statistics list each category once, in first-occurrence order. Each row has its total and count, and the percentage of the grand total (0 when the grand total is not positive). |
| ExpenseAggregation.CategoryStatsPercentages | backend/src/services/expenseService.ts:137-154 | With a positive grand total the percentages add up to 100. Otherwise they are all 0. With non-negative amounts each lies in [0, 100]. |
| Calendar.DaysInMonth | backend/src/services/expenseService.ts:75 | Months have 28 to 31 days: 31 for months 1, 3, 5, 7, 8, 10 and 12, 30 for months 4, 6, 9 and 11. February has 29 days exactly in a Gregorian leap year. |
| Calendar.FirstOfMonth | backend/src/services/expenseService.ts:74 | Day 1 of a month index, carried into the year the way the `Date` constructor does. The result is a valid date. |
| Calendar.FullYear | backend/src/services/expenseService.ts:74 | The `Date` constructor's rule: a year 0..99 means 1900 + year. Other years are kept. |
| Calendar.IsValid | backend/src/services/expenseService.ts:74-80 | The instants a `Date` can hold: a calendar date with a time of day, from -271821-04-20T00:00:00.000 to 275760-09-13T00:00:00.000. `TimeValueEdges` proves the edges. |
| Calendar.MonthStart | backend/src/services/expenseService.ts:74 | `new Date(year, month - 1, 1)`: day 1 of the month at 00:00:00.000. `MonthWindowSpansOneMonth` states where it falls. |
| Calendar.MonthEndAsWritten | backend/src/services/expenseService.ts:75 | `new Date(year, month, 0, 23, 59, 59)`: the last day of the month at 23:59:59.000. `MonthWindowSpansOneMonth` states where it falls. |
| Calendar.MonthEnd | backend/src/services/expenseService.ts:75 | The corrected end: the last day of the month at 23:59:59.999 (see Findings). |
| Calendar.DayNumberAnchors | backend/src/services/expenseService.ts:74-75 | Days are counted from 1970-01-01. The first and last days a `Date` can hold are 100000000 days before and after it. |
| Calendar.TimeValueEdges | backend/src/services/expenseService.ts:74-75 | A `Date` holds -271821-04-20T00:00:00.000 and 275760-09-13T00:00:00.000, and no instant one millisecond outside them. |
| Calendar.LastMonthWindow | backend/src/services/expenseService.ts:74-80 | September 275760 starts within the `Date` range but its window end does not, so its query fails. |
| Calendar.FirstMonthWindows | backend/src/services/expenseService.ts:74-80 | April -271821 starts before the `Date` range, so its query fails. May -271821 is the first month whose whole window is valid. |
| Calendar.MonthWindowSpansOneMonth | backend/src/services/expenseService.ts:74-75 | Both window ends fall in the same month: day 1 at 00:00:00.000, and that month's last day at 23:59:59 with 0 ms. |
| Calendar.InMonthWindow | backend/src/services/expenseService.ts:74-79 | The corrected window (ending at 23:59:59.999) holds exactly the instants of the month. |
| Calendar.InMonthWindowAsWritten | backend/src/services/expenseService.ts:74-79 | The window as written holds the instants of the month except those of its last second after 23:59:59.000. |
| Calendar.LateInstantEscapesEveryWindow | backend/src/services/expenseService.ts:75 | 2025-01-31 23:59:59.500 lies in no month's window as written. |
| Calendar.LateInstantInCorrectedWindow | backend/src/services/expenseService.ts:75 | 2025-01-31 23:59:59.500 lies in January 2025's corrected window. |
| Calendar.EarlierIsStrictTotalOrder | backend/src/services/expenseService.ts:79 | The date order used by `$gte` and `$lte` is a strict total order. |
| Calendar.DayKeyInjective | backend/src/services/expenseService.ts:105 | Two instants get the same `YYYY-MM-DD` key exactly when they fall on the same calendar date. |
| Calendar.DayKeyOrder | backend/src/services/expenseService.ts:105-111 | For four-digit years, day keys compare as strings exactly as their dates compare. |
| Calendar.DayKey | backend/src/services/expenseService.ts:105 | The `YYYY-MM-DD` part of `toISOString`. `DayKeyInjective` and `DayKeyOrder` state its properties. |
| Calendar.MonthName | backend/src/services/expenseService.ts:114 | The English name of the window's month. |
| Sorting.SortBy | backend/src/services/expenseService.ts:109-111 | Sorting by a total preorder gives a sorted permutation of the input. |
| JsMap.SetKeys | backend/src/services/expenseService.ts:88 | `Map.set` keeps an existing key in place and appends a new key at the end. |
| JsMap.SetKeepsKeysDistinct | backend/src/services/expenseService.ts:88 | `Map.set` never duplicates a key. |
| JsMap.GetAfterSet | backend/src/services/expenseService.ts:87-88 | After `set(k, v)`, `get(k)` is v and every other key reads as before. |
| Categories.CategoryIsTrimmed | backend/src/models/Expense.ts:26-40 | Every category name is its own trim. |
| JsString.TrimIsTrimmed | backend/src/models/Expense.ts:44 | What `trim` leaves neither starts nor ends with white space. |
| JsString.Trim | backend/src/models/Expense.ts:29 | `String.prototype.trim`, as the schema's `trim` setter and the rules' `trim()` apply it. `TrimIsTrimmed`, `TrimEmpty` and `TrimIdempotent` state its properties. |
| JsString.TrimEmpty | backend/src/utils/validationRules.ts:26 | `trim` leaves nothing exactly when the string is all white space. |
| JsString.TrimIdempotent | backend/src/models/Expense.ts:44 | Trimming twice is trimming once. |
| ValidationRules.RegisterRules | backend/src/utils/validationRules.ts:3-7 | Each field is reported exactly when its check fails: email must pass `isEmail`, password needs a length ≥ 6 as `isLength` counts it, name must be non-empty after trim. Only these fields are reported. The email is normalised and the name trimmed, and nothing else in the body changes. |
| ValidationRules.ValidatorLength | backend/src/utils/validationRules.ts:5 | The length `isLength` measures is at most the number of code points. It equals that number when the text has no U+FE0E or U+FE0F. |
| ValidationRules.SelectorNotCounted | backend/src/utils/validationRules.ts:5 | "abcde" followed by U+FE0F counts as 5, so that password is reported as too short. |
| ValidationRules.AcceptedRegistration | backend/src/utils/validationRules.ts:5-6 | An accepted registration has a password of at least 6 characters, and a name whose trimmed form is non-empty and is passed on. |
| ValidationRules.LoginRules | backend/src/utils/validationRules.ts:9-12 | Email is reported exactly when it fails `isEmail`. Password is reported exactly when it is empty. Only these are reported. The email passed on is the normalised one, and nothing else in the body changes. |
| ValidationRules.ExpenseRules | backend/src/utils/validationRules.ts:14-28 | Amount is reported exactly when it is missing or below 0.01. Category when it is not one of the eight. Description when it is empty after trim. Date when it is present and fails `isISO8601`. Only these are reported. The description is trimmed, and nothing else changes. |
| ValidationRules.DateRangeRules | backend/src/utils/validationRules.ts:30-33 | Each bound is reported exactly when it is present and fails `isISO8601`. No error is reported exactly when both pass. |
| ValidationRules.AcceptedBodyIsStorable | backend/src/utils/validationRules.ts:14-28 | A body the rules accept is one the schema stores, with an amount of at least 0.01, the given category and the trimmed description. |
| ValidationRules.SchemaAcceptsZeroAmount | backend/src/utils/validationRules.ts:15 | An amount of 0 with an otherwise valid body is refused by the rules, for its amount alone, although the schema (minimum 0) would store it. |
| AuthService.FindByEmail | backend/src/services/authService.ts:25 | It returns a user whose email equals the given one exactly. It returns none exactly when no user has that email. |
| AuthService.ResponseFor | backend/src/services/authService.ts:33-41 | The response for a user: a token issued for (id, email) and the user's id, email and name. `Register` and `Login` state when it is returned. |
| AuthService.Login | backend/src/services/authService.ts:45-68 | It fails exactly when the email is unknown or the password does not match, with the same "Invalid credentials" both times. On success it returns a stored user with that email and a matching password: its id, email and name, and a token issued for (id, email). The table is an input only. |
| AuthService.Register | backend/src/services/authService.ts:24-43 | It fails with "User already exists", changing nothing, exactly when a user with exactly this email exists. Otherwise it appends exactly one user: a fresh id, the email, the hashed password and the name. It returns that user's id, email and name with a token for (id, email). |
| AuthService.RegisterKeepsValid | backend/src/services/authService.ts:25-31 | Registration keeps emails unique and ids fresh. |
| AuthService.LoginAfterRegister | backend/src/services/authService.ts:24-68 | After a successful registration, login with the same email and password returns the registration's response. Logins under other emails are unaffected. |
| AuthService.AuthStore.RegisterUser | backend/src/services/authService.ts:24-43 | The stored table and counter change exactly as `Register` says. Emails stay unique. |
| AuthMiddleware.BearerToken | backend/src/middleware/auth.ts:12-19 | The token is absent exactly when the header is missing or lacks the exact `Bearer ` prefix. Otherwise the header is the prefix followed by the token. |
| AuthMiddleware.BearerTokenOfPrefixed | backend/src/middleware/auth.ts:14-19 | The token of `Bearer ` + t is t. |
| AuthMiddleware.Decide | backend/src/middleware/auth.ts:11-31 | Every rejection is a 401. "Authentication required" comes exactly when there is no bearer token. "Invalid or expired token" comes exactly when verification fails. Otherwise it passes with the verified payload's (userId, email). |
| AuthMiddleware.AcceptedTokenPasses | backend/src/middleware/auth.ts:19-28 | A bearer header whose token verifies lets the request through with that token's claims. |
| AuthMiddleware.Authenticate | backend/src/middleware/auth.ts:6-32 | On success `req.user` is set to the claims, `next` is called exactly once, and nothing is written. On rejection `req.user` and the `next` count are unchanged, and the 401 response is returned. |
| Helpers.CategoryColor | frontend/src/utils/helpers.ts:20-33 | A category in the table gets its colour. Any other name gets '#95A5A6'. |
| Helpers.CategoryIcon | frontend/src/utils/helpers.ts:35-48 | A category in the table gets its letter. Any other name gets 'O'. |
| Helpers.TablesCoverCategories | frontend/src/utils/helpers.ts:21-45 | Both tables hold exactly the eight category names. |
| Helpers.KnownEntries | frontend/src/utils/helpers.ts:21-47 | food is '#FF6B6B' and 'F', education is '#BB8FCE' and 'D', other is '#95A5A6' and 'O'. |
| UseExpenses.ReplaceById | frontend/src/hooks/useExpenses.ts:40 | Length and order are kept. Each element with the id becomes the updated expense, and the others are unchanged. |
| UseExpenses.RemoveById | frontend/src/hooks/useExpenses.ts:50 | The `filter` dropping the elements with this id. `RemoveByIdMembers`, `RemoveByIdConcat`, `RemoveByIdNoop` and `RemoveByIdIdempotent` state its effect. |
| UseExpenses.RemoveByIdMembers | frontend/src/hooks/useExpenses.ts:50 | The filter keeps exactly the elements with another id, dropping one element per match. |
| UseExpenses.RemoveByIdConcat | frontend/src/hooks/useExpenses.ts:50 | The filter keeps the relative order of the rest. |
| UseExpenses.RemoveByIdNoop | frontend/src/hooks/useExpenses.ts:50 | A list without the id is left as it is. |
| UseExpenses.RemoveByIdIdempotent | frontend/src/hooks/useExpenses.ts:50 | Removing twice is removing once. |
| UseExpenses.RemoveAfterReplace | frontend/src/hooks/useExpenses.ts:37-54 | Deleting an id after updating it to an expense with the same id is the same as deleting it. |
| UseExpenses.ExpensesHook.constructor | frontend/src/hooks/useExpenses.ts:6-8 | The hook starts with no expenses, loading, and no error. |
| UseExpenses.ErrorMessage | frontend/src/hooks/useExpenses.ts:17 | The message of a thrown `Error`, or 'Failed to fetch expenses' for any other thrown value. |
| UseExpenses.ExpensesHook.FetchExpenses | frontend/src/hooks/useExpenses.ts:10-21 | Loading ends either way. On success the list is the fetched data and the error is cleared. On failure the list stays and the error holds the thrown message, or 'Failed to fetch expenses'. |
| UseExpenses.ExpensesHook.CreateExpense | frontend/src/hooks/useExpenses.ts:27-35 | The created expense goes in front of the unchanged old list. A failure is passed back and leaves the list unchanged. |
| UseExpenses.ExpensesHook.UpdateExpense | frontend/src/hooks/useExpenses.ts:37-45 | The list becomes the replace-by-id of the old list. A failure is passed back and leaves the list unchanged. |
| UseExpenses.ExpensesHook.DeleteExpense | frontend/src/hooks/useExpenses.ts:47-54 | The list becomes the remove-by-id of the old list. A failure is passed back and leaves the list unchanged. |

## Left out

- ExpenseService.ExpenseStore.GetMonthlySummary: selects records with the corrected window, which ends at 23:59:59.999. The source's window ends at 23:59:59.000. The difference is shown under Findings.
- Calendar.DayKey: assumes a single time zone. The source builds the month window in local time but takes day keys from the UTC `toISOString`. In other zones, a record near midnight can be keyed under the neighbouring day.
- Calendar.MonthName: uses the English month names. `toLocaleString('default', …)` depends on the runtime's locale.
- Calendar.DayKeyOrder: is stated for four-digit years only. Six-digit signed years do not sort by date as strings.
- How an out-of-range year or month is normalised: the model follows JavaScript's carry. When a window end falls outside the `Date` range (more than 8.64e15 ms from 1970-01-01), the query's cast error is modelled as a failure. No other policy is invented.
- Dates reach the service as `Date` values the controllers build with `new Date(text)`. Parsing that text is not modelled. A parse that yields an Invalid Date is modelled: it is passed through and fails the cast, in creation, update, listing and the statistics.
- ValidationRules.RegisterRules, ValidationRules.LoginRules, ValidationRules.ExpenseRules, ValidationRules.DateRangeRules: report the set of failing fields. They do not give the messages or the order in which express-validator lists them.
- ValidationRules.ExpenseRules: the amount is the JSON number the client sent. Parsing an amount sent as a string (`isFloat` on text) is not modelled.
- `isEmail`, `isISO8601`, `normalizeEmail`, JWT signing (`generateToken`) and verification (`jwt.verify`), password hashing and `comparePassword`: these are given as functions, because they wrap foreign libraries.
- Ids: modelled as natural numbers from a counter.
  - The ObjectId string conversion (`_id.toString()`) is not modelled.
  - A malformed id string, which Mongoose rejects with a cast error, is not modelled.
- ExpenseQueries.SortNewestFirst: states the order and the permutation only. The database does not fix the relative order of records with equal dates, so none is claimed.
- Persistence, the database connection and the indexes of `Expense.ts` are out of scope. The store is an in-memory sequence in insertion order, which the model takes as the natural order of `find`.
- Concurrency is out of scope: two registrations racing on one email, interleaved hook calls, and React's asynchronous state updates. Each operation is one atomic step.
- Floating point is out of scope: amounts, totals and percentages are exact reals, with no rounding.
- The user model file (its save hook and field validators) is not part of this model. A `User.create` rejected by those validators is not modelled.
- `useEffect` refetching when the date bounds change is not modelled (the hook's `fetchExpenses` itself is).
- `formatCurrency`, `formatDate` and `formatDateForInput` in `helpers.ts` are out of scope: they wrap `Intl` and date-fns.
- Prototype keys such as `constructor` in the category tables are not modelled: the tables are finite maps.
- HTTP plumbing is out of scope: controllers, routes, `server.ts`, the error handler, the `validator.ts` module, the environment config and the demo seeding script. They map results to status codes or set up the process. In particular, the update route applying the full expense rules is not modelled; partial update is modelled at the service level.
- Client UI components, the API client and the auth context are out of scope.

## Findings

| source | as written | input that shows it | evidently intended | confidence | as-written member | corrected member |
|---|---|---|---|---|---|---|
| backend/src/services/expenseService.ts:75 | The upper bound of the month window is the month's last day at 23:59:59 with 0 milliseconds, and the query compares with `$lte`. | An expense dated 2025-01-31 23:59:59.500 is in no month's window: it is left out of January 2025's summary and of every other. | The window covers the whole last day, up to 23:59:59.999. | not executed | Calendar.LateInstantEscapesEveryWindow | Calendar.LateInstantInCorrectedWindow |

The as-written window is `Calendar.MonthEndAsWritten`. `Calendar.InMonthWindowAsWritten` characterises which instants it holds. The corrected end is `Calendar.MonthEnd`. `Calendar.InMonthWindow` proves that the corrected window holds exactly the instants of the month. `ExpenseService.ExpenseStore.GetMonthlySummary` uses the corrected window.
