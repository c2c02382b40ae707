# A verified model of the tenant isolation library

TenantKit isolates the tenants of a Go service: it rewrites SQL so that a statement sees one tenant's rows only, limits
how often a tenant may call, and meters what a tenant consumes. This project models the parts of it that compute, in
Dafny, and proves what they promise for every input, every run and every schedule.

- **The SQL rewriter** (`Text`, `Decimal`, `Placeholders`, `Keywords`, `FromClause`, `LockingClause`, `Rewriter`,
  `InsertRewriter`, `WrittenStatements`, `LetterCase`) is modelled character by character: first-index searches, the FROM-clause loop, placeholder scanning,
  right-to-left renumbering and the rearranged argument lists. Slicing out of bounds is a value (`Panic`), not a
  precondition.
- **What a statement means** (`Conditions`, `Bindings`, `Relations`, `Combinations`, `TableReads`, `SelectMeaning`,
  `SliceMeaning`, `MutationMeaning`, `MutationSlice`, `BindingExactness`) is defined on the resolved text: a statement's
  characters, with each placeholder replaced by the argument it is bound to. Conditions are lexed and parsed with AND
  binding tighter than OR and evaluated in three-valued logic; tables are sequences of rows. What an atom of a condition
  says, what SET assigns, what RETURNING gives and what a SELECT does after WHERE are arbitrary functions of the text,
  the rows and the whole database; they may depend on the database only where the text has one of the words that name
  tables (FROM, JOIN, USING, TABLE). The main theorems say that a rewritten statement does to the whole database what
  the original does to the tenant's slice, and exactly for which statements.
- **The entry point and its cache** (`QueryCache`, `TenantDb`, `EntryPoint`): the cache is a class with a map, a bound
  and counters. A lookup compares hashes only, so the hash is an arbitrary function that distinguishes the query at
  hand from the stored ones.
- **The rate limiters** (`Runs`, `SlidingWindow`, `FixedWindow`, `TokenBucket`, `RedisServer`, `RedisLimiter`,
  `RedisTokens`, `RedisAgreement`): classes whose methods are proved against step functions, and theorems about whole
  interleaved runs of those functions. A Redis script is one atomic step on a keyed server state whose entries expire
  strictly after their time to live. All instances of a limiter share the server, so a run of steps is an interleaving of
  any number of them. Times are in nanoseconds; the scripts see whole seconds or milliseconds of them.
- **The quota managers** (`RedisQuota`, `MemoryQuota`) and **identifiers** (`TenantId`): the Redis manager is also a
  distributed protocol in which every call first reads a limit and later runs its script.
- **The smaller rewriters** (`Enforcer`, `SqlxAdapter`, `SqlxCondition`).

Each method written as a loop or as updates of fields is proved equal to a function of its inputs or of the old state;
the theorems are lemmas about those functions. Arithmetic on token counts is over the reals, as the source's rounding is
not the point; integer placeholders and the in-memory quota are 64-bit with wrap-around.

## What turned out not to hold

Where the code does less than it looks like, there is a lemma for the case that fails and one saying exactly when it
works.

- Tables are matched without their schema, so a configured name that has one matches no table (`TenantTableIff`).
- Only statements that start with SELECT, UPDATE, DELETE or INSERT are rewritten. Every other one passes through
  unfiltered, WITH among them (`InjectTenantFilter`).
- Tables separated by commas are not seen (`CommaJoinUnfiltered`).
- A join without ON in front of a join with ON hides the tables in between from the rewriter (`AllTablesFound`), which
  then does not filter them: a hidden tenant table shows other tenants' rows (`HiddenTableLeaks`, `AllFoundExact`).
- Without WHERE, a locking clause is no end of the FROM clause. The tables are still found if and only if that clause
  ends in an ON condition or in an alias that keeps its place (`LockedTablesFound`); otherwise the injected equation
  names the column of a table called FOR (`LockedQueryNamesFor`).
- Only the tables found in the first FROM clause are filtered. A sub-select or a further arm of a UNION reads every
  tenant's rows (`ReadingOutputLeaks`, `VaryingLeaks`, `SubSelectLeaks`). The rewritten SELECT is right on every
  database if and only if column list and tail name no tables, no combination of rows with another tenant's row of a
  hidden table can satisfy the ON and WHERE conditions, and no answer of a sub-select can change whether a combination
  of the tenant's rows satisfies them (`SelectExact`); `OutputExact`, `AllFoundExact` and `OneTableExact` say what
  that comes down to without sub-selects and for one table. For UPDATE and DELETE see `MutationExact`.
- UPDATE and DELETE are filtered whatever their table. On a table that is not a tenant table a DELETE does what it did
  if and only if all rows it deleted carry the tenant (`DeleteAnyTableExact`), and an UPDATE if and only if it leaves
  all other rows it touched as they are (`UpdateAnyTableExact`).
- With white space between the list of columns and VALUES, an INSERT that names the tenant column last gets it a second
  time (`InsertUnchangedIff`).
- An INSERT of several rows gets the new column in its column list and the tenant in its first row only: the rows
  still fit the columns if and only if there is one row (`InsertFitsIff`).
- Under `?`, SELECT and DELETE prepend the tenant argument, which is right exactly when no mark stands before the
  point of insertion; UPDATE without WHERE is right exactly when no mark follows the SET clause (`SelectMarksExact`,
  `DeleteMarksExact`, `UpdateMarksExact`). Under a numbered style the injected numbers are right exactly when there
  are as many arguments as the rewriter counts (`NumberedFilterExact`, `NumberedEquationExact`).
- Under `$N`, a cached INSERT appends the tenant argument that a fresh one prepends (`HitIsFresh`).
- The cache calls itself least-recently-used (tenantkit/query_cache.go:19) but drops arbitrary entries, and drops some
  even when it only replaces one: with room for more than two entries, storing one keeps all others if and only if the
  cache is not full (`Put`).
- The comment on `TenantID` promises at most 100 lower-case characters with dashes (domain/tenant_id.go:10); the code
  accepts more (`UndocumentedAccepted`). An accepted identifier has the documented form if and only if it is not
  longer than that and has neither dot nor underscore (`DocumentedIff`).
- In-memory cleanup forgets windows longer than a day (`LongWindowForgets`) and buckets that more than an hour does
  not refill, and only those (`SlowBucketForgets`, `CleanupInvisibleIff`).
- The Redis scripts are told whole seconds only (adapters/limiter-redis/limiter-redis.go:268). The token script grants
  what a real bucket of rate limit/window grants, and keeps the bound of that rate, if and only if the window is a
  number of whole seconds (`ScriptRefinesRealBucket`, `ScriptSafety`; `FractionalWindowRunsAhead` is the failing run).
  The fixed-window script forgets a window that is open in memory if and only if a part of it is cut off
  (`NeverEarlyIff`, `EarlyCallDiffers`).
- Redis and in-memory windows end at different times within a millisecond, too. Script and in-memory fixed window
  answer the next call alike if and only if the window is open or over for both, which for whole seconds fails in the
  millisecond in which it has just ended (`FixedNextCallExact`, `LateCallDiffers`); script and in-memory sliding
  window if and only if no two grants in the window share a millisecond and none still in it sits in a millisecond
  that is cut off (`NextCallAgreesIff`, `StraddlingGrantDiffers`).
- The Redis token bucket counts a new second in full: whatever its limit and window, it grants at exact times what a
  real bucket of that rate refuses (`WholeSecondsRunAhead`).
- The Redis sliding window counts calls granted in one millisecond once (`SameMillisecondUnlimited`); a window of less
  than a second switches every Redis algorithm off (`SubSecondWindowNeverRefuses`), and a reset time of less than a
  second the Redis quota (`NoTimeToLiveNeverRefuses`).
- A tenant called "limit" can have its usage stored under another tenant's limit (`UsageIsLimitIff`).
- Setting an in-memory limit reaches every tenant that has no usage yet (`SetLimitReaches`), a check does not roll a
  period over (`CheckForeseesConsume`), and a consumption is granted beyond its limit exactly when the sum has no room
  in 64 bits (`NextOverflowExact`), which one run reaches (`OverflowReached`).
- The enforcer's verification reads back another literal exactly when a quoted literal follows the column and an
  equals sign in front of its condition (`VerificationRoundTrip`). White space in front of a query shifts the cuts,
  which is harmless exactly when the condition goes to the end (`LeadingSpaceExact`). Without WHERE the condition goes
  in front of the tail clause whose keyword is listed first, which is the first in the text if and only if no
  later-listed keyword stands before it (`FrontOfTailIff`): with GROUP BY and ORDER BY it goes between them
  (`OrderByTakenFirst`). With WHERE all that follows goes in the parentheses, which is right if and only if no tail
  clause does (`TailInParenthesesIff`).
- The sqlx adapter's condition is not parenthesised, so what follows a top-level OR escapes it (`BareConditionHolds`); without WHERE its argument goes last, which
  is right exactly when no mark follows the condition (`ConditionBindsExactly`), and so it is for INSERT
  (`InsertBindsExactly`). It also appends the argument when the INSERT lacks a part and comes back unchanged, with one
  mark too few (`UnchangedInsertMiscounts`); a well-formed one comes back with as many marks as arguments
  (`InsertCounts`).

## Model

| member | source | states |
|---|---|---|
| Placeholders.RenumberPlaceholders | tenantkit/wrap.go:1001-1028 | replacing the matches from the last to the first, in place, yields the text whose tokens are the query's with every number shifted |
| Placeholders.RenumberCommutesWithScan | tenantkit/wrap.go:1001-1028 | scanning the renumbered query gives the original scan with every number shifted and all other text untouched, while numbers stay below 2^63 |
| Placeholders.RenumberComposes | tenantkit/wrap.go:1001-1028 | renumbering twice is renumbering by the sum |
| Placeholders.TokenizeRender | tenantkit/wrap.go:1011-1027 | printing tokens and scanning them again gives them back, which needs maximal digit runs |
| Decimal.AtoiItoa | tenantkit/wrap.go:1021-1023 | a printed placeholder number is read back as itself up to 2^63-1 |
| Decimal.PlaceValue | tenantkit/wrap.go:1021-1023 | numerals are decimal, the greatest place first |
| Decimal.OutOfRange | tenantkit/wrap.go:1021-1023 | a numeral beyond 64 bits reads as zero |
| Text.Alphabet | tenantkit/wrap.go:536-537 | exactly the 26 letters have two cases, and each is mapped to the other |
| Text.WhiteSpace | tenantkit/wrap.go:287 | white space is the blank, the tab and the four line and page breaks |
| Placeholders.CountPlaceholders | tenantkit/wrap.go:366-387 | under `$N` the highest number among the matches, under `?` the number of marks, otherwise none |
| Placeholders.ResolveNumberedExtend | tenantkit/wrap.go:459-464 | arguments appended beyond the highest number change no numbered binding |
| Placeholders.ResolveMarksShift | tenantkit/wrap.go:456-458 | text after k marks sees the arguments from number k on, wherever these stand in the list |
| Keywords.FindFirst | tenantkit/wrap.go:568-573 | the loop over keywords finds the least position of any, and the first listed keyword there |
| Keywords.FirstKeywordAt | tenantkit/wrap.go:592-601 | after text free of their words, the keyword that is printed next is the one the loop finds |
| FromClause.ExtractAllTables | tenantkit/wrap.go:534-645 | the loop over the FROM section, with every slice in bounds and `remaining` strictly shorter each round, or the panic of a section that ends before it starts |
| FromClause.CollectTables | tenantkit/wrap.go:575-642 | main table and joined tables collected round by round, the round always ending |
| FromClause.TakeJoin | tenantkit/wrap.go:603-641 | one round: the table up to ON or the next JOIN, and the rest after the ON condition |
| FromClause.ExtractPanics | tenantkit/wrap.go:534-563 | the slice of the FROM section is out of bounds exactly when WHERE, or an end marker at or after FROM, starts before ` FROM ` ends |
| FromClause.ParseWritten | tenantkit/wrap.go:649-676 | a reference written as a table, with or without alias and AS, parses to itself |
| LockingClauses.ParseFollowed | tenantkit/wrap.go:649-676 | with a locking clause behind it a reference parses to itself, or to the table with the alias FOR when it has no alias or one that spells AS and is written without AS |
| LockingClauses.LockedTablesFound | tenantkit/wrap.go:534-645 | with a locking clause and no WHERE every table is found if and only if no join without ON precedes a join with ON and the clause ends in an ON condition or in a reference that keeps its alias |
| SelectMeaning.LockedQueryNamesFor | tenantkit/wrap.go:402-531 | the rewritten form of a query on one table whose alias the locking clause takes: the equation is qualified with FOR |
| FromClause.FromRoundTrip | tenantkit/wrap.go:534-645 | extraction from any printed FROM clause yields the main table and, in order, exactly the joins no later ON hides |
| FromClause.AllTablesFound | tenantkit/wrap.go:534-645 | every table of the clause is found if and only if no join without ON precedes a join with ON |
| FromClause.KeptAll | tenantkit/wrap.go:590-642 | the kept joins are all joins if and only if none without ON precedes one with ON |
| WrittenStatements.JoinExtracted | tenantkit/wrap.go:534-645 | each of the nine spelled-out kinds of join yields both tables with their aliases, with and without AS, whatever follows |
| WrittenStatements.ExtractedNamed | tenantkit/wrap.go:575-642 | in any query, no table without a name is found |
| WrittenStatements.CommaJoinUnfiltered | tenantkit/wrap.go:575-676 | of two tables separated by a comma one is found, under a name that ends in the comma, so a query over tenant tables comes back unchanged |
| LetterCase.ExtractUpper | tenantkit/wrap.go:534-645 | the upper-case form of any query yields the same tables up to letter case, or the same panic |
| Rewriter.FilterTenantTables | tenantkit/wrap.go:679-699 | the loop over tables and configured names keeps, in order, the tables some configured name without a schema equals, or equals what follows the last dot of, in any letter case |
| Rewriter.TenantTableIff | tenantkit/wrap.go:683-698 | that is when a table is filtered, for every name; a configured name with a schema never matches |
| Rewriter.SchemaStripped | tenantkit/wrap.go:685-688 | a name and the same name in any schema are tenant tables if and only if the name is configured in some letter case |
| Rewriter.TenantTablesConcat | tenantkit/wrap.go:679-699 | the tables that are kept stay in their order |
| Relations.FetchStripped | tenantkit/wrap.go:683-688 | both fetch the rows stored under the lower-case name |
| Relations.SliceOf | tenantkit/wrap.go:679-699 | the slice of a database cuts exactly the tables so named, to the rows that carry the tenant |
| Rewriter.InjectCondition | tenantkit/wrap.go:471-524 | the builder's output for WHERE, for an end keyword and for neither |
| Rewriter.InjectWhereStatement | tenantkit/wrap.go:471-524 | on a printed statement, injection conjoins the filter with the parenthesised condition, or adds a WHERE, and changes nothing else |
| Rewriter.InjectSelectFilter | tenantkit/wrap.go:402-531 | the loop over tables appends one equation and one argument each, numbered on from the existing placeholders |
| Rewriter.InjectUpdateFilter | tenantkit/wrap.go:702-799 | one equation, with the tenant argument last under `$N` and between SET and WHERE arguments under `?` |
| Rewriter.InjectDeleteFilter | tenantkit/wrap.go:802-887 | one equation, with the tenant argument first under `?` and last under `$N` |
| WrittenStatements.SelectWhere | tenantkit/wrap.go:402-531 | text and arguments of a SELECT from one table, with or without alias, with WHERE, spelled out, for each of the nine keywords that may follow in any letter case: the equation of the table if it is a tenant table, and no change otherwise |
| WrittenStatements.SelectQualified | tenantkit/wrap.go:683-688 | with a schema in front of a configured table the query gets the equation of the qualified table |
| WrittenStatements.SelectAll | tenantkit/wrap.go:402-531 | the same without WHERE, in front of each of five keywords |
| WrittenStatements.SelectWithoutFrom | tenantkit/wrap.go:538-542 | a SELECT without FROM is not changed |
| WrittenStatements.MutationWhere | tenantkit/wrap.go:702-887 | text and arguments of UPDATE and DELETE with WHERE, spelled out, with and without RETURNING, and when UPDATE panics |
| WrittenStatements.MutationAll | tenantkit/wrap.go:702-887 | the same without WHERE |
| LetterCase.LetterCaseDoesNotMatter | tenantkit/wrap.go:402-887 | SELECTs, UPDATEs and DELETEs that differ in letter case only get the same arguments and texts that differ in letter case only |
| Conditions.ParseConjunction | tenantkit/wrap.go:482-497 | `e1 AND ... AND en AND ( c )` parses as the conjunction of the equations with c, even when c has a top-level OR |
| Conditions.BareConjunction | adapters/sqlx/adapter.go:143-148 | without parentheses the conjunction is exact but for what follows a top-level OR, which alone makes it true |
| Bindings.BindingsPreserved | tenantkit/wrap.go:456-464 | when new arguments stand where the new placeholders stand, every original placeholder keeps its value and each injected one is bound to a new value |
| Bindings.PartsAreText | tenantkit/wrap.go:466-531 | the resolved head, condition and tail are the resolved text of the whole statement |
| Bindings.ResolveFilter | tenantkit/wrap.go:436-454 | the filter text, resolved, is one equation of a qualified tenant column with the tenant for each table |
| Relations.SliceEnvs | tenantkit/wrap.go:402-454 | joining the tenant's slices gives exactly the tenant's combinations of the joined whole tables, self-joins included |
| Relations.TenantAtomTruth | tenantkit/wrap.go:436-454 | the equation injected for a table is true exactly on the tenant's rows of that table |
| SelectMeaning.SelectText | tenantkit/wrap.go:402-531 | the rewritten SELECT is the printed query with the tenant filter conjoined, arguments in place |
| SelectMeaning.ConjunctionHolds | tenantkit/wrap.go:471-524 | the injected condition holds exactly when all equations and the original condition hold |
| SliceMeaning.SelectPreservesMeaning | tenantkit/wrap.go:402-531 | for any inner or cross joins, when every tenant table is found and no condition, column list or tail names tables, the rewritten query on the whole database returns what the original returns on the tenant's slice |
| SliceMeaning.SelectExact | tenantkit/wrap.go:402-531 | for any joins and conditions, all tables found or not, that holds on every database, under every meaning of the words, if and only if column list and tail name no tables, no combination with another tenant's row of a hidden table can be selected, and no answer of a sub-select can change whether a combination of the tenant's rows is |
| SliceMeaning.HiddenTableLeaks | tenantkit/wrap.go:603-645 | with conditions free of NOT and of equations with arguments, a tenant table that is not found shows another tenant's row on some database |
| SliceMeaning.AllFoundExact | tenantkit/wrap.go:603-645 | with such conditions that name no tables it holds if and only if column list and tail name none and every tenant table is found |
| Combinations.RowsArePicked | tenantkit/wrap.go:402-531 | joining and filtering picks, in order, the combinations of rows for which every ON condition holds on the rows joined so far and the WHERE condition on all |
| SliceMeaning.OutputExact | tenantkit/wrap.go:466-531 | with conditions that name no tables and all tenant tables found it holds if and only if column list and tail name none either: a further arm is not filtered |
| SliceMeaning.OneTableExact | tenantkit/wrap.go:466-531 | for one tenant table and any condition it holds if and only if column list and tail name no tables and no answer of a sub-select can change whether a row of the tenant is kept |
| TableReads.HoldsSame | tenantkit/wrap.go:471-500 | a condition that names no tables holds or not whatever the tables contain |
| MutationSlice.UpdatePreservesMeaning | tenantkit/wrap.go:702-799 | when no part names tables, every row of another tenant and every other table is unchanged, the tenant's rows end as the original leaves them on the slice, and RETURNING gives the same |
| MutationSlice.UpdateStaysInSlice | tenantkit/wrap.go:702-799 | the slice of the result is the result on the slice if and only if the original leaves the tenant's rows with the tenant |
| MutationSlice.DeletePreservesMeaning | tenantkit/wrap.go:802-887 | when no part names tables, the slice of the result is the result on the slice, every row of another tenant and every other table stays, and RETURNING gives the same |
| MutationSlice.MutationExact | tenantkit/wrap.go:702-887 | for any condition, SET and RETURNING clause, database and slice agree on every database if and only if no sub-select can change which rows of the tenant are touched and neither RETURNING nor the SET of a row that can be touched names tables |
| MutationSlice.SubSelectLeaks | tenantkit/wrap.go:702-887 | they disagree somewhere whenever the condition is nothing but a comparison with a sub-select |
| MutationMeaning.DeleteAnyTableExact | tenantkit/wrap.go:802-887 | the table is not looked at: the rewritten DELETE deletes what the original does if and only if all those rows carry the tenant |
| MutationMeaning.UpdateAnyTableExact | tenantkit/wrap.go:702-799 | the rewritten UPDATE leaves the table as the original does if and only if the original leaves every row it touches without the tenant as it is |
| MutationMeaning.MutationNarrows | tenantkit/wrap.go:702-887 | under one reading of its atoms the rewritten condition touches a row exactly when the row is the tenant's and the original touches it |
| MutationMeaning.SetArgCountIs | tenantkit/wrap.go:722-731 | the split between SET and WHERE arguments is the number of marks before WHERE, or all marks without WHERE |
| BindingExactness.SelectMarksExact | tenantkit/wrap.go:456-458 | under `?` SELECT keeps its bindings if and only if no mark stands in its columns or FROM clause |
| BindingExactness.DeleteMarksExact | tenantkit/wrap.go:822-828 | under `?` DELETE keeps its bindings if and only if no mark stands before its WHERE clause |
| BindingExactness.UpdateMarksExact | tenantkit/wrap.go:722-735 | under `?` UPDATE keeps its bindings if and only if it has a WHERE clause or no mark follows its head |
| BindingExactness.NumberedEquationExact | tenantkit/wrap.go:737-740 | under a numbered style the placeholder injected in UPDATE and DELETE is the tenant if and only if there are as many arguments as are counted |
| BindingExactness.NumberedFilterExact | tenantkit/wrap.go:436-464 | under a numbered style all placeholders injected in SELECT, for any number of tables, are the tenant if and only if there are as many arguments as are counted |
| InsertRewriter.ColumnExistsInList | tenantkit/wrap.go:982-998 | the loop finds the column if and only if some trimmed item of the list is the column |
| InsertRewriter.InsertUnchangedIff | tenantkit/wrap.go:926-932 | an INSERT comes back unchanged if and only if some column of its list is the tenant column in any letter case and with any blanks around; with white space between the list and VALUES, if and only if one that is not the last is |
| InsertRewriter.InsertRefused | tenantkit/wrap.go:893-912 | one without INSERT INTO or without VALUES is an error, INSERT from a SELECT among them |
| InsertRewriter.InsertPanicsIff | tenantkit/wrap.go:896-912 | it panics if and only if VALUES stands in front of the end of INSERT INTO |
| InsertRewriter.InsertWithoutColumns | tenantkit/wrap.go:914-921 | so is one without a list of columns |
| InsertRewriter.InjectInsertFilter | tenantkit/wrap.go:890-978 | column and placeholder put first, old placeholders renumbered, tenant argument prepended; the error and pass-through cases |
| InsertRewriter.CutsRejoin | tenantkit/wrap.go:940-960 | cutting at RETURNING and ON CONFLICT and putting the parts back gives the text before the cuts |
| InsertRewriter.InsertTextIs | tenantkit/wrap.go:890-978 | on a printed INSERT the rewriter adds the column and its placeholder and changes nothing else |
| WrittenStatements.InsertOneRow | tenantkit/wrap.go:890-978 | the same for the text of an INSERT of one row, spelled out |
| InsertRewriter.InsertPreservesBindings | tenantkit/wrap.go:890-978 | the new first column and the tenant stand in front of the columns and of the first row, every old value of every row keeps its binding, and so does the text after the rows |
| InsertRewriter.InsertFitsIff | tenantkit/wrap.go:890-978 | when every row has as many values as there are columns, so it is after the rewriting if and only if there is one row |
| QueryCaching.QueryCache.constructor | tenantkit/query_cache.go:29-37 | an empty cache; a size that is not positive becomes 1000 |
| QueryCaching.QueryCache.Get | tenantkit/query_cache.go:47-61 | the entry under the hash, if any; one hit or one miss is counted |
| QueryCaching.QueryCache.Put | tenantkit/query_cache.go:64-83 | the new entry is stored, the others are old ones, and the bound on the size is kept; all others survive in a cache that is not full or holds no other, and some do not in a full one with more others than half its capacity |
| QueryCaching.QueryCache.EvictHalf | tenantkit/query_cache.go:86-103 | only old entries remain, no more than half the capacity, and nothing is dropped below it |
| QueryCaching.QueryCache.Clear | tenantkit/query_cache.go:106-112 | no entries and all counters zero |
| QueryCaching.QueryCache.Stats | tenantkit/query_cache.go:115-129 | hits plus misses is the number of lookups since the last clear, and the rate is the percentage of hits, between 0 and 100 |
| TenantDb.HitIsFresh | tenantkit/wrap.go:285-363 | a hit on a query's template equals the fresh rewriting if and only if the query is no INSERT, the style is `?`, nothing was added, or all arguments are the tenant |
| TenantDb.DB.InjectTenantFilter | tenantkit/wrap.go:285-363 | whatever the cache holds, the first word of the trimmed query decides: SELECT, UPDATE, DELETE and INSERT give the results of the four rewriters and are in the cache afterwards, every other statement comes back unchanged; only an INSERT found in the cache under a numbered style has its tenant argument last |
| EntryPoint.SelectAnswered | tenantkit/wrap.go:285-364 | what the entry point answers to a printed SELECT gives, on the whole database, what the query gives on the tenant's slice |
| EntryPoint.UpdateAnswered | tenantkit/wrap.go:285-364 | its answer to a printed UPDATE leaves the tenant's rows as the statement leaves the slice and everything else alone |
| EntryPoint.DeleteAnswered | tenantkit/wrap.go:285-364 | its answer to a printed DELETE leaves of the slice what the statement leaves, and everything else alone |
| EntryPoint.InsertAnswered | tenantkit/wrap.go:285-364 | its answer to a printed INSERT has the tenant in front of the columns and the first row and keeps every other binding |
| TenantDb.HitAnswers | tenantkit/wrap.go:290-329 | a cache hit on an INSERT under a numbered style has the fresh text and the tenant argument last |
| TenantDb.DB.CacheHit | tenantkit/wrap.go:290-329 | the tenant arguments of a hit stand first, last, or between SET and WHERE arguments |
| TenantDb.FreshTemplate | tenantkit/wrap.go:358-362 | the stored text and argument count of a successful rewriting do not depend on its arguments or tenant |
| Runs.KeysIndependent | adapters/limiter-memory/limiter_memory_test.go:382-403 | in any interleaving a key is answered as in the run of its own events |
| SlidingWindowLimiter.SlidingWindow.constructor | adapters/limiter-memory/sliding_window.go:32-55 | limit and window raised to at least 1 and one second, nothing stored |
| SlidingWindowLimiter.SlidingWindow.AllowN | adapters/limiter-memory/sliding_window.go:63-117 | hourly cleanup, pruning in a loop, and the decision, as one step on the stored logs |
| SlidingWindowLimiter.SlidingWindow.Cleanup | adapters/limiter-memory/sliding_window.go:161-170 | exactly the entries not read for a day are deleted |
| SlidingWindowLimiter.SlidingWindow.Remaining | adapters/limiter-memory/sliding_window.go:120-141 | the limit less the timestamps counted in the window |
| SlidingWindowLimiter.RefinesHistory | adapters/limiter-memory/sliding_window.go:63-117 | in any run a call is granted exactly when the complete, never pruned history of its key would allow it, whatever other keys and cleanup do |
| SlidingWindowLimiter.SlidingWindowSafety | adapters/limiter-memory/sliding_window.go:63-117 | every interval (a, a+W] of any run contains at most the limit of units granted to a key that is not reset |
| SlidingWindowLimiter.GrantedIffRemaining | adapters/limiter-memory/sliding_window.go:120-141 | what remains is the limit less the units granted in the last window, and a call is granted exactly when it asks for no more |
| SlidingWindowLimiter.SecondCallGrantedIff | adapters/limiter-memory/sliding_window.go:63-117 | of two calls the second is granted if and only if both fit the limit, or it does and the first is a whole window old |
| SlidingWindowLimiter.IdleKeysDropped | adapters/limiter-memory/sliding_window.go:72-75 | a call more than an hour after the last cleanup drops exactly the other keys that were not asked about for 24 hours, one before drops none |
| SlidingWindowLimiter.LongWindowForgets | adapters/limiter-memory/sliding_window.go:161-170 | with a window of more than a day a call is granted that the history refuses |
| FixedWindowLimiter.FixedWindow.constructor | adapters/limiter-memory/fixed_window.go:33-56 | limit and window raised to at least 1 and one second, nothing stored |
| FixedWindowLimiter.FixedWindow.AllowN | adapters/limiter-memory/fixed_window.go:64-113 | cleanup, opening of a window and the decision, as one step on the stored windows |
| FixedWindowLimiter.FixedWindow.Cleanup | adapters/limiter-memory/fixed_window.go:153-162 | exactly the windows not accessed for a day are deleted |
| FixedWindowLimiter.FixedWindow.Remaining | adapters/limiter-memory/fixed_window.go:116-133 | the limit less the count of the open window |
| FixedWindowLimiter.KeyAlone | adapters/limiter-memory/fixed_window.go:64-162 | in any interleaving a key is answered as if alone and never cleaned up, for windows of at most a day |
| FixedWindowLimiter.CallBounded | adapters/limiter-memory/fixed_window.go:85-113 | every call keeps a window's count between 0 and the limit and equal to what was granted in the window |
| FixedWindowLimiter.FixedWindowSafety | adapters/limiter-memory/fixed_window.go:64-113 | any closed interval of one window length contains at most twice the limit |
| FixedWindowLimiter.TwiceTheLimit | adapters/limiter-memory/fixed_window.go:64-113 | that bound is reached, the first window being opened by a refused call |
| FixedWindowLimiter.GrantedIffRemaining | adapters/limiter-memory/fixed_window.go:116-133 | a call is granted exactly when it asks for no more than what remains |
| FixedWindowLimiter.SecondCallGrantedIff | adapters/limiter-memory/fixed_window.go:64-113 | of two calls the second is granted if and only if both fit the limit, or it does and the window that the first opened is over |
| FixedWindowLimiter.IdleKeysDropped | adapters/limiter-memory/fixed_window.go:73-76 | a call more than an hour after the last cleanup drops exactly the other keys that were not asked about for 24 hours, one before drops none |
| FixedWindowLimiter.LongWindowForgets | adapters/limiter-memory/fixed_window.go:153-162 | a window of more than a day is forgotten while it is still open |
| TokenBucketLimiter.TokenBucket.constructor | adapters/limiter-memory/token_bucket.go:33-57 | a rate that is not positive becomes 1, and a burst below 1 the whole part of the rate |
| TokenBucketLimiter.TokenBucket.AllowN | adapters/limiter-memory/token_bucket.go:65-110 | cleanup, capped refill and the decision, as one step on the stored buckets |
| TokenBucketLimiter.TokenBucket.Cleanup | adapters/limiter-memory/token_bucket.go:153-162 | exactly the buckets not refilled for an hour are deleted |
| TokenBucketLimiter.TokenBucket.Remaining | adapters/limiter-memory/token_bucket.go:113-132 | the whole tokens of the refilled bucket |
| TokenBucketLimiter.RefillComposes | adapters/limiter-memory/token_bucket.go:87-96 | refilling twice is refilling once for the sum of the times, capping included |
| TokenBucketLimiter.DeniedInvisible | adapters/limiter-memory/token_bucket.go:106-110 | a refused call leaves a bucket with the same tokens at every later time |
| TokenBucketLimiter.AlikeRuns | adapters/limiter-memory/token_bucket.go:106-110 | buckets that agree at every later time answer every run alike |
| TokenBucketLimiter.KeyAlone | adapters/limiter-memory/token_bucket.go:65-162 | in any interleaving a key is answered as if alone and never cleaned up, when an hour and a nanosecond refill the bucket |
| TokenBucketLimiter.LevelBounds | adapters/limiter-memory/token_bucket.go:87-96 | a bucket holds between 0 and the burst of tokens at all times |
| TokenBucketLimiter.TokenBucketSafety | adapters/limiter-memory/token_bucket.go:65-110 | between t1 and t2 a key is granted at most the burst and what the rate adds from t1 to t2 |
| TokenBucketLimiter.GrantedIffRemaining | adapters/limiter-memory/token_bucket.go:113-132 | a call is granted exactly when it asks for no more than the whole tokens that remain |
| TokenBucketLimiter.SecondCallGrantedIff | adapters/limiter-memory/token_bucket.go:65-110 | of two calls the second is granted if and only if it asks for no more than the burst and what it lacks is earned in between |
| TokenBucketLimiter.IdleKeysDropped | adapters/limiter-memory/token_bucket.go:74-77 | a call more than an hour after the last cleanup drops exactly the other keys that were not called for an hour, one before drops none |
| TokenBucketLimiter.SlowBucketForgets | adapters/limiter-memory/token_bucket.go:153-162 | a bucket they do not refill is full again after cleanup |
| TokenBucketLimiter.CleanupInvisibleIff | adapters/limiter-memory/token_bucket.go:153-162 | cleanup changes no answer in any run if and only if they refill the bucket |
| RedisLimiter.LimiterRedis.New | adapters/limiter-redis/limiter-redis.go:155-195 | a limiter if and only if there is a client, limit and window are positive and the algorithm is known; an empty name is the token bucket |
| RedisLimiter.LimiterRedis.TokenBucketScript | adapters/limiter-redis/limiter-redis.go:46-74 | the script as one step on its key, all other keys unchanged |
| RedisLimiter.LimiterRedis.FixedWindowScript | adapters/limiter-redis/limiter-redis.go:77-99 | the script as one step on its key, with a time to live only on creation |
| RedisLimiter.LimiterRedis.SlidingWindowScript | adapters/limiter-redis/limiter-redis.go:102-126 | removal, count, the loop of additions and the expiry as one step on its key |
| RedisLimiter.LimiterRedis.AllowN | adapters/limiter-redis/limiter-redis.go:258-299 | errors for n below 1, an unknown algorithm and a key of another type; otherwise the script's answer |
| RedisLimiter.LimiterRedis.Remaining | adapters/limiter-redis/limiter-redis.go:302-362 | stored tokens, or the limit less the count, never negative; the sliding window removes old members |
| RedisLimiter.RunByKey | adapters/limiter-redis/limiter-redis.go:258-299 | any number of instances interleaved on one server answer a key by its own entry |
| RedisLimiter.ReplyIsRemaining | adapters/limiter-redis/limiter-redis.go:302-357 | what a script replies with a grant is what Remaining reports right after it |
| RedisLimiter.UnusedReportsLimit | adapters/limiter-redis/limiter-redis.go:302-357 | a key without a live entry reports the limit under every algorithm |
| RedisLimiter.CounterReports | adapters/limiter-redis/limiter-redis.go:325-340 | a fixed window reports what is left of the limit, and nothing when more than the limit is stored |
| RedisLimiter.AnsweredIff | adapters/limiter-redis/limiter-redis.go:258-299 | a call is answered if and only if it asks for something, the algorithm is one of three and the stored value has its type; otherwise it is an error and changes nothing |
| RedisLimiter.SubSecondWindowNeverRefuses | adapters/limiter-redis/limiter-redis.go:266-283 | with a window below a second no call for up to the limit is ever refused, under any algorithm |
| RedisTokenBucket.ExpiryInvisible | adapters/limiter-redis/limiter-redis.go:66-70 | EXPIRE never changes an answer: every key is answered as if its bucket were kept for ever |
| RedisTokenBucket.StoredInRange | adapters/limiter-redis/limiter-redis.go:302-323 | a stored bucket always expires and holds between 0 and the limit of tokens, and whatever Remaining reports is granted |
| RedisTokenBucket.SecondCallGrantedIff | adapters/limiter-redis/limiter-redis.go:46-74 | of two calls the second is granted if and only if it asks for no more than the limit and what it lacks is earned, the limit in a window, in the whole seconds between the two |
| RedisTokenBucket.ScriptRefinesCutBucket | adapters/limiter-redis/limiter-redis.go:46-74 | every sequence of grants of the script is one that a real bucket for the window cut to whole seconds grants, at the whole seconds the script saw |
| RedisTokenBucket.ScriptRefinesRealBucket | adapters/limiter-redis/limiter-redis.go:266-270 | for any window, every sequence of grants in every interleaving is one that a real bucket of the configured rate limit/window grants, at those seconds, if and only if the window is a number of whole seconds |
| RedisTokenBucket.FractionalWindowRunsAhead | adapters/limiter-redis/limiter-redis.go:266-270 | otherwise the script grants the limit again after the whole seconds of the window, and that bucket does not |
| RedisTokenBucket.WholeSecondsRunAhead | adapters/limiter-redis/limiter-redis.go:267-270 | at the exact times it is not, for any limit and window: the script is full again up to a second early |
| RedisTokenBucket.CutWindowSafety | adapters/limiter-redis/limiter-redis.go:46-74 | between t1 and t2 a key is granted at most limit + floor(limit * seconds / window), for the window cut to whole seconds |
| RedisTokenBucket.ScriptSafety | adapters/limiter-redis/limiter-redis.go:266-270 | that bound holds for the configured window, in every run, if and only if the window is a number of whole seconds |
| RedisAgreement.FixedStepExact | adapters/limiter-redis/limiter-redis.go:77-99 | script and in-memory fixed window answer an event alike and stay alike if and only if it is a reset, a call for 1 to the limit while the window is open or over for both, or one for more while it is open for both |
| RedisAgreement.FixedNextCallExact | adapters/limiter-redis/limiter-redis.go:77-99 | they answer every next call for 1 to the limit alike if and only if the window is open or over for both |
| RedisAgreement.OpenAlikeIffNotLate | adapters/limiter-redis/limiter-redis.go:77-99 | for a window of whole seconds that fails exactly in the millisecond in which the window has just ended |
| RedisAgreement.NeverEarlyIff | adapters/limiter-redis/limiter-redis.go:272-274 | a window open in memory is never over on the server if and only if it is a number of whole seconds |
| RedisAgreement.EarlyCallDiffers | adapters/limiter-redis/limiter-redis.go:272-274 | two calls, for every other window, of which the script grants the second and the in-memory window does not |
| RedisAgreement.FixedWindowsAgree | adapters/limiter-redis/limiter-redis.go:77-99 | on any run of such events they give the same decisions |
| RedisAgreement.WholeMillisecondsAlike | adapters/limiter-redis/limiter-redis.go:77-99 | calls for 1 to the limit at whole milliseconds are all such events, for every window of whole seconds |
| RedisAgreement.LateCallDiffers | adapters/limiter-redis/limiter-redis.go:77-99 | two calls at which they do not, for every window of whole seconds: the second comes in the millisecond in which the window has just ended |
| RedisAgreement.TooLargeOpensWindow | adapters/limiter-redis/limiter-redis.go:90-97 | a call for any number above the limit opens a window in memory but not in Redis, and later decisions differ |
| RedisAgreement.GrantedIffRemaining | adapters/limiter-redis/limiter-redis.go:325-357 | for both window scripts a call is granted exactly when it asks for no more than what remains |
| RedisAgreement.SlidingScriptCounts | adapters/limiter-redis/limiter-redis.go:102-126 | removal and expiry never change an answer: a call is granted exactly when the distinct members ever added and scored within the whole seconds of the window leave room |
| RedisAgreement.CountsUnitsIffDistinct | adapters/limiter-redis/limiter-redis.go:115-118 | the set has a member for every granted unit if and only if no two grants in the window share a millisecond |
| RedisAgreement.NextCallAgreesIff | adapters/limiter-redis/limiter-redis.go:102-126 | for any window of at least a second, on one history the script answers every next call as the in-memory window if and only if no two grants that count share a millisecond and none still in the configured window sits in a millisecond the script has cut off |
| RedisAgreement.StraddlesAtStart | adapters/limiter-redis/limiter-redis.go:102-126 | for a window of whole seconds such a grant sits in the very millisecond in which the window starts |
| RedisAgreement.StraddlingGrantDiffers | adapters/limiter-redis/limiter-redis.go:102-126 | two calls at which they differ, for every configuration: the first sits in such a millisecond |
| RedisAgreement.SlidingWindowsAgree | adapters/limiter-redis/limiter-redis.go:102-126 | script and in-memory sliding window decide alike on a key each of whose calls finds such a history |
| RedisAgreement.SpacedIsCountable | adapters/limiter-redis/limiter-redis.go:102-126 | each does when granted calls have distinct milliseconds and no call comes, to the millisecond, a window after a granted one that is still in the window |
| RedisAgreement.SameMillisecondUnlimited | adapters/limiter-redis/limiter-redis.go:115-118 | any number of single calls in one millisecond are all granted if and only if the limit is at least 2 |
| TenantIds.AcceptedLengths | domain/tenant_id.go:30-33 | 1 to 255 characters are accepted |
| TenantIds.AcceptedCharacters | domain/tenant_id.go:22-42 | letters of both cases, digits, dot, underscore and dash are, and no separator is |
| TenantIds.TenantIDStable | domain/tenant_id.go:22-42 | a tenant identifier passes validation unchanged and contains no colon, quote or white space |
| TenantIds.DocumentedIff | domain/tenant_id.go:9-42 | an identifier has the documented form if and only if it has at most 100 characters and neither dot nor underscore |
| TenantIds.SameTenantIff | domain/tenant_id.go:22-27 | two spellings name one tenant if and only if they differ in case only |
| QuotaKeys.UsageKeysDistinct | adapters/quota-redis/quota_manager.go:317-319 | usage keys of tenants without colon are equal if and only if tenant and type are |
| QuotaKeys.LimitKeysDistinct | adapters/quota-redis/quota_manager.go:322-324 | limit keys of tenants without colon are equal if and only if tenant and type are |
| QuotaKeys.UsageIsLimitIff | adapters/quota-redis/quota_manager.go:317-324 | a usage key is a limit key if and only if the tenant is "limit" and its type is the other tenant and type joined by a colon |
| RedisQuota.EveryScheduleAccounts | adapters/quota-redis/quota_manager.go:106-134 | under every schedule of limit reads and scripts a live usage key holds the units granted in the current period and expires, and each grant left the usage within the limit its instance read |
| RedisQuota.PeriodIsSuffix | adapters/quota-redis/quota_manager.go:125-131 | the current period is the tail of the log from its first grant on, without reset or expiry, and its sum is all that was granted |
| RedisQuota.NextKeeps | adapters/quota-redis/quota_manager.go:179-304 | every step of every instance, SetLimit, ResetQuota and the passing of time keep every tenant's account |
| RedisQuota.EveryScheduleSharesTheLimit | adapters/quota-redis/quota_manager.go:179-214 | when the limit set last, or else the configured one, stays in force, then of the m requests for one amount that finish within one period exactly min(m, limit / amount) succeed, whatever the schedule, whatever other tenants do and whatever went before |
| RedisQuota.EveryRequestCarriesTheLimit | adapters/quota-redis/quota_manager.go:261-304 | after any schedule, a request begins with the last limit accepted for its tenant and type, with the configured one if there was none, and does not begin if there is neither |
| RedisQuota.SecondRequestGrantedIff | adapters/quota-redis/quota_manager.go:106-134 | after a request that used the limit up, the next is granted if and only if the time to live in whole seconds is over to the millisecond |
| RedisQuota.NoTimeToLiveNeverRefuses | adapters/quota-redis/quota_manager.go:125-131 | with a reset time of no whole second every request for up to its limit is granted, under every schedule |
| RedisQuota.CheckForeseesConsume | adapters/quota-redis/quota_manager.go:86-134 | on one state and limit the check script says exactly whether the consume script grants |
| RedisQuota.RedisQuotaManager.New | adapters/quota-redis/quota_manager.go:65-82 | a manager if and only if there is a client; the defaults for prefix and reset time |
| RedisQuota.RedisQuotaManager.ResolvedLimit | adapters/quota-redis/quota_manager.go:287-304 | the tenant's own limit, then the configured one, then an error; no visible key changes |
| RedisQuota.RedisQuotaManager.ConsumeQuotaScript | adapters/quota-redis/quota_manager.go:106-134 | the script as one step on its key, all other keys unchanged |
| RedisQuota.RedisQuotaManager.ConsumeQuota | adapters/quota-redis/quota_manager.go:179-214 | errors for a negative amount, no tenant and an unknown type; otherwise the script with the limit that was read decides |
| RedisQuota.RedisQuotaManager.CheckQuota | adapters/quota-redis/quota_manager.go:149-176 | the check script's answer with the limit that was read; no visible key changes |
| RedisQuota.RedisQuotaManager.SetLimit | adapters/quota-redis/quota_manager.go:261-283 | only the tenant's limit key is written, and only for a limit that is not negative |
| RedisQuota.RedisQuotaManager.ResetQuota | adapters/quota-redis/quota_manager.go:249-257 | only the tenant's usage key is deleted |
| MemoryQuota.EveryRunAccounts | adapters/quota-memory/quota_manager.go:99-184 | over any interleaving a quota's usage is what was granted since its last reset or roll-over, and every success left it within the limit in force and returned the rest |
| MemoryQuota.PeriodIsSuffix | adapters/quota-memory/quota_manager.go:128-135 | the current period is the tail of the log from its first item on, without reset, no consumption past its end, and its sum is all that was granted |
| MemoryQuota.CheckForeseesConsume | adapters/quota-memory/quota_manager.go:69-148 | a successful check means the consumption succeeds; a failed one that it fails, except when the period is over and the amount alone fits |
| MemoryQuota.NegativeRefused | adapters/quota-memory/quota_manager.go:69-105 | negative amounts are errors that change nothing |
| MemoryQuota.UnknownTypeUnlimited | adapters/quota-memory/quota_manager.go:80-118 | at any point of any run within 64 bits a type no limit was set for fails every check, and every consumption of it succeeds |
| MemoryQuota.SetLimitReaches | adapters/quota-memory/quota_manager.go:187-205 | setting a limit changes another tenant's if and only if that tenant has no usage yet |
| MemoryQuota.NextOverflowExact | adapters/quota-memory/quota_manager.go:137-147 | after any run within 64 bits the next consumption is granted beyond the limit, and stored as a negative usage, if and only if the sum has no room in 64 bits |
| MemoryQuota.OverflowReached | adapters/quota-memory/quota_manager.go:109-147 | a run of two consumptions of an unknown type that reaches it |
| MemoryQuota.RenewedIff | adapters/quota-memory/quota_manager.go:32-148 | each of the four built-in quotas, used up in one consumption, grants the next unit if and only if 24 hours, 30 days or a tenth of a second have passed, with the built-in limits spelled out |
| MemoryQuota.InMemoryQuotaManager.ConsumeQuota | adapters/quota-memory/quota_manager.go:99-148 | creation, roll-over and decision as one step; only usage changes |
| MemoryQuota.InMemoryQuotaManager.CheckQuota | adapters/quota-memory/quota_manager.go:69-96 | the answer on the stored usage, or an error for an unknown type |
| MemoryQuota.InMemoryQuotaManager.GetUsage | adapters/quota-memory/quota_manager.go:151-164 | stored usage and its limit, or nothing used and the type's limit |
| MemoryQuota.InMemoryQuotaManager.ResetQuota | adapters/quota-memory/quota_manager.go:167-184 | used and start of an existing usage are reset, and the reset is recorded |
| MemoryQuota.InMemoryQuotaManager.SetLimit | adapters/quota-memory/quota_manager.go:187-205 | the type's default and the caller's own limit are set |
| SqlEnforcer.RewriteParts | adapters/sql/enforcer.go:77-107 | a rewritten query is the condition between a head and a tail that do not depend on the tenant |
| SqlEnforcer.EnforcedIff | adapters/sql/enforcer.go:36-70 | a query is rewritten if and only if there is a tenant, it is not empty and mentions none of four operations in any letter case |
| SqlEnforcer.WhereConjoined | adapters/sql/enforcer.go:82-97 | text of a SELECT, UPDATE or DELETE with WHERE, spelled out |
| SqlEnforcer.WhereAdded | adapters/sql/enforcer.go:87-99 | text without WHERE, spelled out, in front of the first-listed of four keywords that occurs, or at the end |
| SqlEnforcer.OthersPass | adapters/sql/enforcer.go:101-105 | every other statement comes back unchanged |
| SqlEnforcer.ColumnAt | adapters/sql/enforcer.go:114-119 | where the column is first found does not depend on what follows its condition; after a space it is in the text before the condition or at the condition |
| SqlEnforcer.VerificationRoundTrip | adapters/sql/enforcer.go:77-136 | every tenant is verified in its rewritten query if and only if no quote follows an equals sign that follows the column in the text before the condition; so it is when that text lacks the column |
| SqlEnforcer.LeadingSpaceExact | adapters/sql/enforcer.go:77-107 | white space in front of a query only moves into the result if and only if no WHERE and, in a SELECT or DELETE, no tail keyword is found |
| SqlEnforcer.FrontOfTailIff | adapters/sql/enforcer.go:87-91 | the condition goes in front of all tail clauses if and only if no keyword listed later than the first listed one that occurs stands before it |
| SqlEnforcer.OrderByTakenFirst | adapters/sql/enforcer.go:87-91 | a SELECT with GROUP BY and ORDER BY gets its WHERE between the two |
| SqlEnforcer.TailInParenthesesIff | adapters/sql/enforcer.go:83-86 | with a WHERE all that follows goes in the parentheses, which leaves the query as it should be if and only if nothing follows the condition |
| SqlxAdapter.InjectTenantCondition | adapters/sqlx/adapter.go:130-163 | the loop over keywords, the rewritten query and the position of the argument |
| SqlxAdapter.InsertArgAtPosition | adapters/sqlx/adapter.go:99-105 | a fresh array with the value at the position and the arguments around it |
| SqlxAdapter.ConditionBindsExactly | adapters/sqlx/adapter.go:130-163 | every binding is kept and the condition bound to the tenant if and only if a WHERE is found or no mark follows the point of insertion |
| SqlxConditions.WhereRewritten | adapters/sqlx/adapter.go:130-148 | text and argument position behind the first `where` in any letter case, spelled out |
| SqlxConditions.TailRewritten | adapters/sqlx/adapter.go:149-160 | text and argument position without one, in front of the first of five keywords or at the end |
| SqlxConditions.WherePieces | adapters/sqlx/adapter.go:130-148 | with the argument in its place the rewritten query is the original one with the bound condition in front |
| SqlxConditions.BareConditionHolds | adapters/sqlx/adapter.go:143-148 | the rewritten condition holds of a row if and only if the row carries the tenant and the original holds, or what follows the first top-level OR does |
| SqlxAdapter.InjectTenantIntoInsert | adapters/sqlx/adapter.go:287-338 | the rewritten INSERT, the unchanged query where a part is missing, or the panic of a slice out of bounds |
| SqlxAdapter.InsertTextIs | adapters/sqlx/adapter.go:287-338 | a well-formed INSERT gets the column and one mark at the end of its lists, and nothing else changes |
| SqlxConditions.InsertSpelled | adapters/sqlx/adapter.go:287-338 | the same for the text of an INSERT, spelled out |
| SqlxConditions.InsertPanicsIff | adapters/sqlx/adapter.go:287-303 | a query without INSERT INTO or VALUES comes back unchanged, and it panics if and only if VALUES stands in front of the end of INSERT INTO |
| SqlxAdapter.InsertBindsExactly | adapters/sqlx/adapter.go:266-273 | every value keeps its binding and the new one is the tenant if and only if no mark follows the value list |
| SqlxAdapter.UnchangedInsertMiscounts | adapters/sqlx/adapter.go:266-273 | an INSERT with a missing part comes back unchanged and with one argument more than marks |
| SqlxAdapter.InsertCounts | adapters/sqlx/adapter.go:266-273 | a well-formed one comes back with as many marks as arguments |

## Left out

- Execution of statements, transactions, row-level security and every call into database drivers or Redis clients: I/O. Connection errors are not modelled; a key of the wrong type is.
- Clocks: one call reads the time once, while the source reads it up to three times under its lock; server and clients of Redis share one clock.
- Locks: every locked method, script or command is one atomic step.
- `sync.Pool` reuse of builders and argument slices: every result is a fresh value.
- FromClause.FromRoundTrip: printed clauses separate words with single spaces, and no part contains a keyword of the clause; sub-selects in FROM and USING are not clauses here, nor are comma joins, for which see WrittenStatements.CommaJoinUnfiltered.
- LockingClauses.LockedTablesFound: arms of EXCEPT and INTERSECT without WHERE, which also do not end the tables, are not clauses here.
- SliceMeaning.SelectPreservesMeaning: inner and cross joins only, with distinct qualifiers; under an outer join the equations in WHERE also drop the rows padded with nulls. Under `?` it requires that no mark stands before the point of insertion, which BindingExactness.SelectMarksExact characterises. Under a locking clause without WHERE it requires that no table is misread, which LockingClauses.LockedTablesFound characterises.
- TableReads.HoldsSame: a function or view that reads tables without naming any is not seen; a text with one of the four words counts as reading tables even where it does not, as in EXTRACT(year FROM d).
- Conditions.ParseConjunction: the AND of BETWEEN is read as a conjunction and quoted literals as words, which is harmless as both sides of the theorems read the same text; a quoted parenthesis is outside the grammar.
- InsertRewriter.InsertPreservesBindings: quoted parentheses and commas in a row of values, and INSERT from a SELECT.
- Relations.SliceEnvs: a database is keyed by the lower-case table name without its schema, as the rewriter compares names, so tables of one name in two schemas are one table.
- Bindings.BindingsPreserved: statements whose placeholders the rewriter counts. It counts none of the `:N` style, as in the source, so under that style statements that have some are left out, and only they. Their injected placeholders are not bound to the tenant (BindingExactness.NumberedFilterExact).
- TenantDb.DB.InjectTenantFilter: the hash distinguishes the query from the stored ones; the source compares hashes only.
- The default of the tenant column: the source does not hand it to the rewriter (tenantkit/wrap.go:50-64), so columns are non-empty here.
- The interceptor's decision which queries to rewrite, the table extractor and the list of system tables: regular expressions and fixed lists.
- TokenBucketLimiter.TokenBucketSafety: rates and tokens are reals; rounding of floating-point numbers is not modelled. Lua numbers are unbounded integers.
- Text outside ASCII: case mapping is that of ASCII.
- RedisTokenBucket.ScriptRefinesCutBucket: windows of at least a second; RedisLimiter.SubSecondWindowNeverRefuses treats the others.
- The skip list and tenant lookup of the sqlx adapter and its transactions: a substring test, and the same rewriting again.
- Statistics, health checks, constructors that only connect, HTTP middleware, resolvers, metrics and configuration presets: one-branch facts or plumbing.
