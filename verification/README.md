# Expense workflow: a Dafny model

This project models the core of a small expense-management application. It has two back ends:

- **The ASP.NET back end.** `DatabaseService` keeps a process-wide "last connection error" slot and an `_isConnected` flag. Every method opens its own connection through `GetConnectionAsync` and disposes it when done. It offers three reads (all expenses, pending expenses, active categories), each falling back to built-in demo data when the database cannot be reached. It also offers four writes (create, submit, approve, reject), which record the failure in the slot and rethrow it. `ExpensesController`, `CategoriesController` and `HealthController` wrap these calls in a JSON envelope `{Success, Data, Error, Message}`. The models `CreateExpenseRequest` (validated input) and `Expense` (a row with its amount in pence) complete this side.
- **The Node back end's database module.** This is the connection-string parser, a `connectionError` slot kept by `initializeConnection` and `query`, and its own demo data served by `getDummyData`.

The database is modelled as three maps. The expense and category tables are keyed by an identity counter, and the user table is a map from ids to names. Each SQL statement becomes the function it computes on those maps:

- joins become predicates;
- `WHERE` becomes a filter;
- `ORDER BY` becomes a sort under a total preorder;
- `INSERT ... SCOPE_IDENTITY()` becomes an append at a fresh key;
- `UPDATE ... WHERE ExpenseId = @id` becomes an update of at most one row.

Whatever the model cannot see is a parameter of type `Env`. That covers the configuration, whether `new SqlConnection` accepts the connection string, whether the token fetch, `OpenAsync` and the statement succeed, the two clocks (`SYSUTCDATETIME()` and `DateTime.Now`), and which users the `TOP 1` sub-selects pick. A service call takes the service state and an `Env` and returns the new state and either a value or the exception it throws.

Module layout:

- `Wrappers`: `Option` and `Outcome`, the latter being a value or a thrown message.
- `Text`: digits and ASCII case folding.
- `Listing`: insertion sort and filter, with their permutation and membership contracts.
- `Records`: rows, the `Expense` object, and identity-keyed tables.
- `Money`: the pence conversion, `AmountGBP` and `FormattedAmount`.
- `Binary64`: rounding a real to the nearest `double`, with its error bound and monotonicity.
- `Requests`: the validation attributes.
- `DatabaseService`: the service.
- `Api`, `ExpensesController`, `CategoriesController`, `HealthController`: the controllers.
- `Workflow`: the properties of whole sequences of calls.
- `NodeDb`: `src/db.js`.

C# `decimal` is modelled as a mathematical real. The cast `(int)` truncates toward zero and throws `OverflowException` outside the Int32 range, and the model writes both out.

Three consequences of the code that the model states as they are:

- **Amount conversion.** `(int)(request.Amount * 100)` truncates toward zero, and validation does not require whole pence, so 0.015 is stored as 1 penny (`Money.ToMinorTruncates`).
- **Transitions.** The `UPDATE` statements do not check the current status. They change whatever row has the id, and an unknown id is a silent no-op. So an expense can be approved without ever being submitted (`Workflow.ApprovedWithoutSubmission`).
- **Reviewer.** The reviewer comes from a `TOP 1` sub-select, which is NULL when no manager exists. The proved invariant (`Workflow.Consistent`) therefore promises a review time but no reviewer.

## Model

| member | source | states |
|---|---|---|
| DatabaseService.GetConnection | src-csharp/Services/DatabaseService.cs:21-58 | Missing or empty configuration: the slot gets the fixed configuration message, that message is thrown, and `_isConnected` is untouched. A connection string that `new SqlConnection` refuses: the exception is thrown before the `try`, and neither field changes. Failed token fetch or open: `_isConnected` becomes false, the slot gets the message tagged with GetConnectionAsync, and the exception is rethrown. Success exactly when the configuration is present, the connection object is built, and the connection opens; success sets `_isConnected` and clears the slot. Never changes the tables. |
| DatabaseService.Tagged | src-csharp/Services/DatabaseService.cs:116 | An error-slot message starts with the operation's summary and ends with the "(DatabaseService.cs:method)" tag. |
| DatabaseService.Execute | src-csharp/Services/DatabaseService.cs:74-95 | Opening a connection and running a SELECT succeeds exactly when the database is reached, and never changes the tables. Success clears the slot. A statement that fails after a successful open throws its own message, and the slot is then still clear until the caller's catch block. |
| DatabaseService.Caught | src-csharp/Services/DatabaseService.cs:113-118 | A catch block sets the slot to a message ending with the method's tag and changes neither the tables nor `_isConnected`. |
| DatabaseService.ListedExpense | src-csharp/Services/DatabaseService.cs:97-108 | The object read for a joined row carries the row's id, amount, status name, expense date and submission time, the joined user's name and the joined category's name. |
| DatabaseService.JoinedExpenses | src-csharp/Services/DatabaseService.cs:86-89 | The inner joins yield each row with an existing user and category exactly once, as its listed object, and nothing else. |
| DatabaseService.AllExpensesQuery | src-csharp/Services/DatabaseService.cs:75-111 | The all-expenses query returns every joined row exactly once and nothing else, sorted by expense date, newest first. |
| DatabaseService.OldestSubmissionFirstIsTotalPreorder | src-csharp/Services/DatabaseService.cs:141 | Ordering by submission time is total and transitive, and an expense with no submission time strictly precedes every submitted one, as SQL Server sorts NULL first. |
| DatabaseService.ListedPending | src-csharp/Services/DatabaseService.cs:148-159 | A pending object is labelled "Submitted" by the reader itself, with the row's id. |
| DatabaseService.PendingExpensesQuery | src-csharp/Services/DatabaseService.cs:126-162 | The pending query returns exactly the joined rows in status Submitted, each once, all labelled "Submitted", by submission time ascending with NULL first. |
| DatabaseService.ListedCategory | src-csharp/Services/DatabaseService.cs:188-193 | A listed category keeps its id and is marked active. |
| DatabaseService.ByNameIsTotalPreorder | src-csharp/Services/DatabaseService.cs:181 | Ordering categories by name is total and transitive, so the sort is well defined. |
| DatabaseService.CategoriesQuery | src-csharp/Services/DatabaseService.cs:177-196 | The categories query returns exactly the active categories, each once, all marked active, sorted by name. |
| DatabaseService.DummyPending | src-csharp/Services/DatabaseService.cs:168 | The pending fallback holds exactly the demo rows whose status name is "Submitted". |
| DatabaseService.DummyPendingIsFirstRow | src-csharp/Services/DatabaseService.cs:168 | The pending fallback is exactly the first demo row. |
| DatabaseService.DummyExpenses | src-csharp/Services/DatabaseService.cs:313-353 | There are three demo rows, with ids 1 to 3, in GBP, with positive amounts, all dated before the clock reading. |
| DatabaseService.DummyExpensesShape | src-csharp/Services/DatabaseService.cs:313-353 | Only the first demo row is labelled Submitted, and the Draft row has no submission time. |
| DatabaseService.DummyExpensesNotNewestFirst | src-csharp/Services/DatabaseService.cs:313-353 | Unlike the live query, the demo rows are not in newest-first order. |
| DatabaseService.DummyCategories | src-csharp/Services/DatabaseService.cs:355-365 | There are five demo categories, numbered 1 to 5, all active, with distinct names. |
| DatabaseService.DummyCategoriesShape | src-csharp/Services/DatabaseService.cs:355-365 | The demo categories are not in name order, unlike the live query. |
| DatabaseService.GetAllExpenses | src-csharp/Services/DatabaseService.cs:70-119 | Never throws and never changes the tables. If the database is reached, the slot is cleared and the query result is returned. Otherwise the slot ends with the GetAllExpensesAsync tag and the demo rows are returned. |
| DatabaseService.GetPendingExpenses | src-csharp/Services/DatabaseService.cs:121-170 | Never throws and never changes the tables. If the database is reached, the slot is cleared and the pending query is returned. Otherwise the slot ends with the GetPendingExpensesAsync tag and the Submitted demo rows are returned. |
| DatabaseService.GetCategories | src-csharp/Services/DatabaseService.cs:172-204 | Never throws and never changes the tables. If the database is reached, the slot is cleared and the active categories are returned. Otherwise the slot ends with the GetCategoriesAsync tag and the five demo categories are returned. |
| DatabaseService.DraftRow | src-csharp/Services/DatabaseService.cs:211-229 | The inserted row is a Draft in GBP with the converted amount and the request's category, date and description. It belongs to the signed-in employee (NULL without one), is stamped with the clock reading, and has no receipt, submission, review or reviewer. |
| DatabaseService.CreateExpense | src-csharp/Services/DatabaseService.cs:206-240 | Returns exactly when the database is reached and the amount fits Int32. The returned id was not in the table before. The table gains exactly that row and the slot is cleared. On any exception the tables are unchanged and the slot ends with the CreateExpenseAsync tag. Categories and users are never changed. |
| DatabaseService.MarkSubmitted | src-csharp/Services/DatabaseService.cs:247-252 | Only the row with the id changes, and it becomes Submitted with the submission time, whatever its status was. Other rows and the key set are unchanged, and an unknown id changes nothing. |
| DatabaseService.MarkReviewed | src-csharp/Services/DatabaseService.cs:270-276 | Only the row with the id changes: status, reviewer and review time are set, whatever its status was. The submission time is untouched, and an unknown id changes nothing. |
| DatabaseService.Write | src-csharp/Services/DatabaseService.cs:242-263 | An UPDATE through a connection succeeds exactly when the database is reached. On success the expenses table becomes the updated one and the slot is cleared. On failure the tables are unchanged and the slot carries the method's tag. |
| DatabaseService.SubmitExpense | src-csharp/Services/DatabaseService.cs:242-263 | Succeeds exactly when the database is reached and then applies the submit update. Otherwise it throws, the tables are unchanged, and the slot ends with the SubmitExpenseAsync tag. |
| DatabaseService.ApproveExpense | src-csharp/Services/DatabaseService.cs:265-287 | Succeeds exactly when the database is reached and then applies the Approved review with the manager picked by the sub-select. Otherwise it throws, the tables are unchanged, and the slot ends with the ApproveExpenseAsync tag. |
| DatabaseService.RejectExpense | src-csharp/Services/DatabaseService.cs:289-311 | Succeeds exactly when the database is reached and then applies the Rejected review. Otherwise it throws, the tables are unchanged, and the slot ends with the RejectExpenseAsync tag. |
| Records.NewExpense | src-csharp/Models/Expense.cs:3-23 | A new Expense has its properties at their defaults and currency "GBP". |
| Records.Append | src-csharp/Services/DatabaseService.cs:212-223 | An identity insert stores the row under a key that was not in use and returns that key. |
| Records.UpdateRow | src-csharp/Services/DatabaseService.cs:248-251 | `UPDATE ... WHERE ExpenseId = @id` changes at most the row with that key. The key set and the identity counter are kept, and an unknown key changes nothing. |
| Money.TruncateTowardZero | src-csharp/Services/DatabaseService.cs:227 | The decimal-to-int cast truncates toward zero on both signs. |
| Money.DecimalToInt32 | src-csharp/Services/DatabaseService.cs:227 | The cast yields the truncated value exactly when that value lies in the Int32 range. Otherwise it overflows. |
| Money.ToMinor | src-csharp/Services/DatabaseService.cs:227 | For a non-negative amount, a successful conversion to pence is at most amount×100 and within one penny of it. |
| Money.ToMinorTruncates | src-csharp/Services/DatabaseService.cs:227 | For any non-negative amount whose cast does not overflow, the stored pence read back as pounds are at most the amount and less than one penny below it. They equal the amount exactly when it is a whole number of pence. |
| Money.ValidAmountMinorBounds | src-csharp/Services/DatabaseService.cs:227 | Every amount in [0.01, 999999.99] converts without overflow to between 1 and 99999999 pence, which lies within Int32. |
| Money.AmountGbp | src-csharp/Models/Expense.cs:24 | AmountGBP times 100 is the pence amount exactly, and has the same sign. |
| Money.AmountGbpMonotone | src-csharp/Models/Expense.cs:24 | AmountGBP preserves the order of pence amounts. |
| Money.Fixed2 | src-csharp/Models/Expense.cs:25 | The F2 rendering ends in a point and two digits, and starts with "-" exactly for negative amounts. |
| Money.Fixed2RoundTrip | src-csharp/Models/Expense.cs:25 | Parsing the F2 rendering gives back the pence amount, so no two amounts render alike. |
| Money.FormattedAmountAsWritten | src-csharp/Models/Expense.cs:25 | The formatted amount as the file is written: the two characters "Â£" followed by the F2 rendering. |
| Money.PoundSignAsWrittenIsMisdecoded | src-csharp/Models/Expense.cs:25 | Those two characters are the UTF-8 bytes of "£" read one byte per character, and the output does not start with "£". |
| Money.FormattedAmount | src-csharp/Models/Expense.cs:25 | The intended formatted amount starts with "£", and what follows parses back to the pence amount. |
| Requests.Validate | src-csharp/Models/CreateExpenseRequest.cs:7-18 | Amount is invalid exactly when its value rounded to a double lies outside the doubles nearest 0.01 and 999999.99. Description is invalid exactly when present and longer than 1000 characters. There are no other errors, and Amount is reported first. |
| Requests.ExactRangeAccepted | src-csharp/Models/CreateExpenseRequest.cs:8 | Every amount in the decimal interval [0.01, 999999.99] passes the double comparison. |
| Requests.AcceptedNearRange | src-csharp/Models/CreateExpenseRequest.cs:8 | Every amount that passes lies within two units of 2^-53, relative, below 0.01 and three above 999999.99. |
| Requests.IsValidCharacterised | src-csharp/Models/CreateExpenseRequest.cs:7-18 | A request is valid exactly when its amount passes the double comparison and its description, if any, has at most 1000 characters. Date and category are unconstrained. The whole decimal interval is valid, and a valid amount is at most a rounding error outside it. |
| Requests.ValidRequestMinorBounds | src-csharp/Models/CreateExpenseRequest.cs:8 | Every valid request converts without overflow to between 0 and 99999999 pence. |
| Requests.MinAmountAsDouble | src-csharp/Models/CreateExpenseRequest.cs:8 | The lower bound 0.01 becomes the double 5764607523034235 / 2^59. |
| Requests.BelowMinAmountAsDouble | src-csharp/Models/CreateExpenseRequest.cs:8 | The decimal 0.0099999999999999999999 becomes that same double. |
| Requests.BelowMinimumAccepted | src-csharp/Models/CreateExpenseRequest.cs:8 | A request for 0.0099999999999999999999 is below 0.01, passes validation, and converts to 0 pence. |
| Requests.ValidateExact | src-csharp/Models/CreateExpenseRequest.cs:8 | The corrected check: Amount is invalid exactly when the decimal lies outside [0.01, 999999.99], and Description as before. |
| Requests.ExactValidMinorBounds | src-csharp/Models/CreateExpenseRequest.cs:8 | Under the corrected check every valid request converts to between 1 and 99999999 pence, and it is also valid under the double check. |
| Binary64.RoundHalfEven | src-csharp/Models/CreateExpenseRequest.cs:8 | The rounded integer is within one half of the real, and it is even on a tie. |
| Binary64.RoundHalfEvenNearest | src-csharp/Models/CreateExpenseRequest.cs:8 | No integer is closer to the real than the rounded one. |
| Binary64.RoundUnitBinadeNearest | src-csharp/Models/CreateExpenseRequest.cs:8 | In [1, 2), no multiple of 2^-52 (the spacing of doubles there) is closer to the real than the rounded value. |
| Binary64.PositiveDoubleHalf | src-csharp/Models/CreateExpenseRequest.cs:8 | Halving or doubling a positive real does not change whether it is a double. |
| Binary64.RoundPositiveFixesDoubles | src-csharp/Models/CreateExpenseRequest.cs:8 | A positive double rounds to itself. |
| Binary64.ToDoubleIdempotent | src-csharp/Models/CreateExpenseRequest.cs:8 | Converting a converted value again changes nothing. |
| Binary64.RoundUnitBinade | src-csharp/Models/CreateExpenseRequest.cs:8 | A real in [1, 2) rounds to a value in [1, 2] within 2^-53 of it. The value is a multiple of 2^-52, so a double. |
| Binary64.RoundPositiveAroundOne | src-csharp/Models/CreateExpenseRequest.cs:8 | Reals below 1 round to at most 1, and reals from 1 on round to at least 1. |
| Binary64.RoundPositiveError | src-csharp/Models/CreateExpenseRequest.cs:8 | A positive real rounds to a double within a factor 1 ± 2^-53 of it. The result is a power of two times an integer significand in [2^52, 2^53). |
| Binary64.RoundPositiveMonotone | src-csharp/Models/CreateExpenseRequest.cs:8 | Rounding never reverses the order of two positive reals. |
| Binary64.ToDoubleError | src-csharp/Models/CreateExpenseRequest.cs:8 | The conversion yields a double. It keeps the sign, maps only 0 to 0, and errs by at most 2^-53 of the magnitude. |
| Binary64.ToDoubleMonotone | src-csharp/Models/CreateExpenseRequest.cs:8 | The conversion to double preserves order. |
| Api.Described | src-csharp/Controllers/ExpensesController.cs:48 | A controller error starts with the summary and ends with "(Controller.cs:Action)". |
| Api.ReadResult | src-csharp/Controllers/ExpensesController.cs:27-51 | A read action always answers 200 with no message. After a normal return, Success holds exactly when the slot is empty, Data is the list and Error is the slot. After an exception, Success is false, Data is empty and Error names the action. |
| ExpensesController.GetAllExpenses | src-csharp/Controllers/ExpensesController.cs:27-51 | Always 200. Success holds exactly when the database was reached, and Error is the slot. Data is the query result on success and the demo rows otherwise. The tables are unchanged. |
| ExpensesController.GetPendingExpenses | src-csharp/Controllers/ExpensesController.cs:59-83 | Always 200. Success holds exactly when the database was reached, and Error is the slot. Data is the pending query on success and the Submitted demo rows otherwise. |
| ExpensesController.WriteFailed | src-csharp/Controllers/ExpensesController.cs:113-122 | A failed write answers 200 with Success false and no Data. Error names the action, and Message is the summary plus " (using demo mode)". |
| ExpensesController.CreateExpense | src-csharp/Controllers/ExpensesController.cs:92-123 | An invalid request gets 400 with "Invalid request data" and the service is not called. For a valid request the answer is 200, and Success holds exactly when the database is reached; Data is then a new id now in the table. A failure leaves the tables unchanged and carries the demo-mode message. |
| ExpensesController.Transition | src-csharp/Controllers/ExpensesController.cs:132-153 | A transition action answers 200 with no Data, and Success holds exactly when the service call returned. Message is the success text, or the demo-mode text with an Error naming the action. |
| ExpensesController.SubmitExpense | src-csharp/Controllers/ExpensesController.cs:132-153 | Success holds exactly when the database is reached, with "Expense submitted successfully". Otherwise the tables are unchanged and the message is "Failed to submit expense (using demo mode)". |
| ExpensesController.ApproveExpense | src-csharp/Controllers/ExpensesController.cs:162-183 | Success holds exactly when the database is reached, with "Expense approved successfully". Otherwise the tables are unchanged and the message is "Failed to approve expense (using demo mode)". |
| ExpensesController.RejectExpense | src-csharp/Controllers/ExpensesController.cs:192-213 | Success holds exactly when the database is reached, with "Expense rejected successfully". Otherwise the tables are unchanged and the message is "Failed to reject expense (using demo mode)". |
| CategoriesController.GetCategories | src-csharp/Controllers/CategoriesController.cs:27-51 | Always 200. Success holds exactly when the database was reached, and Error is the slot. Data is the active categories on success and the five demo categories otherwise. |
| HealthController.GetHealth | src-csharp/Controllers/HealthController.cs:24-33 | The status is "healthy" exactly when the slot is empty and "degraded" exactly when it is set. "disconnected" goes with "degraded", and the error is the slot itself. |
| Workflow.PerformKeepsConsistent | src-csharp/Services/DatabaseService.cs:206-311 | Every write, whether it returns or throws, keeps the status/timestamp invariant. Drafts have no submission or review, Submitted rows have a submission time, and reviewed rows have a review time. |
| Workflow.ReplayKeepsConsistent | src-csharp/Services/DatabaseService.cs:206-311 | Any sequence of writes keeps that invariant. |
| Workflow.ReachableConsistent | src-csharp/Services/DatabaseService.cs:206-311 | Every expenses table reachable from an empty one satisfies the invariant. |
| Workflow.ApprovedWithoutSubmission | src-csharp/Services/DatabaseService.cs:265-287 | Creating an expense and approving it leaves it Approved with no submission time: transitions are not guarded. |
| Workflow.SubmittedIsPending | src-csharp/Services/DatabaseService.cs:242-263 | After a successful submit, a row with an existing user and category is on the pending list. |
| Workflow.ApprovedLeavesPending | src-csharp/Services/DatabaseService.cs:265-287 | After a successful approve, the row is no longer on the pending list. |
| Workflow.RequestKeepsInvariants | src-csharp/Controllers/ExpensesController.cs:92-213 | Every write request through the controller keeps the status invariant. It also keeps every stored amount between 0 and 99999999 pence in GBP. |
| Workflow.ReplayRequestsKeepsInvariants | src-csharp/Controllers/ExpensesController.cs:92-213 | Any sequence of write requests keeps both invariants. |
| Workflow.ReachableThroughApi | src-csharp/Controllers/ExpensesController.cs:92-123 | Through the API, every reachable table satisfies both invariants. |
| Workflow.BelowMinimumThroughApi | src-csharp/Controllers/ExpensesController.cs:92-123 | When the database is reached, one create request for 0.0099999999999999999999 stores an expense of 0 pence, so the lower bound 0 of the amount invariant is attained. |
| Workflow.HealthAfterRead | src-csharp/Controllers/HealthController.cs:24-33 | Right after a list request, the health check is healthy exactly when that response was a success. |
| Workflow.HealthAfterFailedSubmit | src-csharp/Controllers/HealthController.cs:24-33 | Right after a submit that did not reach the database, the health check is degraded. |
| NodeDb.Search | src/db.js:72-73 | A position the scan returns is at or after the start, and the returned alternative matches there. |
| NodeDb.AlternativeAt | src/db.js:73 | The alternation tries its alternatives in order and picks the first that matches at the position. |
| NodeDb.SearchLeftmost | src/db.js:72-73 | A match without the g flag is the leftmost position where the pattern matches, taking the first alternative that fits there. No match means there is none anywhere. |
| NodeDb.SearchFinds | src/db.js:72-73 | Conversely, any leftmost match, with no earlier alternative at its position, is the one the scan returns. |
| NodeDb.Run | src/db.js:72-73 | The greedy `[^...]+` group takes the longest run of characters outside the stop set. |
| NodeDb.CaptureMatches | src/db.js:72-73 | A capture exists exactly when the pattern matches somewhere; it is nonempty and holds no stop character. Which text it is: see the next two rows. |
| NodeDb.CaptureAtLeftmost | src/db.js:72-73 | The scan returns the leftmost match position with the first alternative matching there. The capture is the longest run free of stop characters right after that alternative's text. |
| NodeDb.LeftmostCapture | src/db.js:72-73 | Conversely, for the leftmost match and its first matching alternative, the capture is the run after that alternative's text. |
| NodeDb.ParseConnectionString | src/db.js:71-81 | Parsing succeeds exactly when both patterns match. The server and database are exactly the two captures, so the leftmost matches' runs. The server holds no "," or ";" and the database no ";", and both are nonempty. Otherwise it throws "Invalid connection string format". |
| NodeDb.ParseFailsWithoutMatch | src/db.js:71-77 | Parsing throws exactly when one of the two patterns matches nowhere in the string. |
| NodeDb.TypicalServer | src/db.js:72 | In "Server=tcp:db,1433;Database=app" the server group stops at the port separator: "db". |
| NodeDb.TypicalDatabaseSearch | src/db.js:73 | In "Server=tcp:db,1433;Database=app" the leftmost database match is "Database=" at position 19, via the second alternative. |
| NodeDb.TypicalDatabase | src/db.js:73 | In the same string the database group is found through the second alternative: "app". |
| NodeDb.ParseTypicalConnectionString | src/db.js:71-81 | That string parses to server "db" and database "app". |
| NodeDb.ConnectFailure | src/db.js:64-95 | An unset or empty connection string fails with "SQL_CONNECTION_STRING environment variable not set", and a failed connect always fails. No failure means the string is set and non-empty and the connect succeeded. A failure's message is the not-set message, "Invalid connection string format" or the connect's own message. |
| NodeDb.InitializeConnection | src/db.js:62-108 | On success the pool is present and the slot cleared. On failure the pool is as before and the slot holds an error with location db.js:initializeConnection and the current time. A missing or empty string fails with "SQL_CONNECTION_STRING environment variable not set", and a failed connect always fails. |
| NodeDb.InitializeConnectionOutcome | src/db.js:62-108 | Returns true exactly when the connection string is set and non-empty, parses, and the connection opens. A parse failure stores "Invalid connection string format", and a failed connect stores the driver's message. |
| NodeDb.Query | src/db.js:110-138 | With a pool there is no reconnection: the query succeeds exactly when the statement runs, and a success leaves the state unchanged. A success returns the statement's rows. A failure stores the error with location db.js:query and returns that same object. The message is "Database connection not available" when there is still no pool, and the statement's own message otherwise. |
| NodeDb.QueryInitialisesFirst | src/db.js:110-118 | Without a pool, the query first initialises. It succeeds exactly when that initialisation and the statement both succeed. A failed initialisation yields "Database connection not available" from db.js:query. A success leaves a pool and a cleared slot. |
| NodeDb.SuccessfulQueryKeepsStaleError | src/db.js:110-138 | A successful query does not clear an earlier error. |
| NodeDb.DemoDataShape | src/db.js:11-60 | The demo data has three GBP expenses with ids 1 to 3 and positive amounts. Only the first is Submitted and the Draft has no submission time. The four statuses are numbered 1 to 4, and there are five categories. |
| NodeDb.GetDummyDataAsWritten | src/db.js:144-146 | As written, a key yields an empty list exactly when it is neither a fixture key nor an inherited Object.prototype name. Those names yield the inherited member. |
| NodeDb.GetDummyDataAsWrittenLeaksPrototype | src/db.js:144-146 | As written, "constructor" is not a fixture key, yet it yields an inherited member rather than an empty list. |
| NodeDb.GetDummyData | src/db.js:144-146 | As intended, each of "expenses", "categories" and "statuses" yields its fixture, and every other key yields an empty list. |
| Listing.FilterAppend | src-csharp/Services/DatabaseService.cs:168 | Filtering a concatenation filters each part and concatenates the results, and a one-element list is kept exactly when the element satisfies the predicate. Together these say the filter keeps the original order. |
| NodeDb.GetDummyDataAgrees | src/db.js:144-146 | The as-written and intended lookups agree on every key that is not an inherited name. |

## Left out

- Logging, `console` output, the Azure credential and token fetch, `SqlConnection`/`mssql` I/O and disposal are not modelled. Their outcomes are `Env` parameters: `construct`, `connect`, `command`, the clocks, and the `TOP 1` users.
- Concurrency is not modelled. The error slot is process-wide and last-write-wins; calls are modelled one at a time.
- `GetConnectionError`, `IsConnected` and `getConnectionError` are plain reads of a state field. They are the `connectionError`/`isConnected` fields themselves, with no member of their own.
- Binary64.ToDouble rounds the exact decimal value once, to nearest with ties to even. .NET's decimal-to-double conversion divides a rounded 96-bit integer by a power of ten, which can differ in the last bit for some inputs. For 0.0099999999999999999999 the integer 99999999999999999999 rounds to the double 10^20, so both give the double nearest 0.01.
- Requests.Validate keeps the double comparison the attribute performs. The corrected `Requests.ValidateExact` is proved about but not wired into the controller, so the workflow invariants hold for the program as written, with 0 pence reachable.
- `MaxLength(1000)` counts UTF-16 code units, while a Dafny `char` is a code point. Descriptions with characters outside the Basic Multilingual Plane are counted differently.
- `[Required]` on the value-typed `Date` and `Category` never fails once the body has bound. Model binding itself is not modelled: malformed JSON and missing properties are framework behaviour.
- With `[ApiController]`, ASP.NET answers an invalid model with its own 400 before the action runs. The model follows the action's own `ModelState` branch, which gives the same status code with the action's envelope.
- `ApiResponse<T>` and `ExpenseCategory` are not part of this model's source files. Their shape is taken from how the controllers and the service use them, and an unset `Data` of `ApiResponse<int>` is `None` rather than 0.
- SQL Server collation is not modelled. `ORDER BY CategoryName` is an ordinal, code-point order, and ties in either sort keep no particular order.
- Database constraints (foreign keys, NOT NULL, the identity column's Int32 range) are not modelled. An INSERT that the database would refuse is one whose `command` outcome is a thrown message.
- The status names come from the `ExpenseStatus` table's seed data, which is not part of this model. They are taken to be Draft, Submitted, Approved and Rejected.
- `DateTime` is an integer count of ticks, and `AddDays(-n)` subtracts n days' worth of ticks. In the Node module only `ConnectionError.timestamp`, the `toISOString()` of the error time, is an integer; the demo rows' submission stamps stay strings.
- DatabaseService.DummyExpenses reads the clock once. `GetDummyExpenses` reads `DateTime.Now` five times, so its dates may differ from one another by the ticks that pass between the reads.
- `NodeDb.DemoExpenses` stamps both submitted rows with one load time. `new Date()` is called once per row at module load, so the two stamps may differ by a millisecond.
- `NodeDb.Capture` carries no contract of its own. Its existence and characters are stated by `NodeDb.CaptureMatches`. Which text it extracts, the longest stop-free run after the leftmost match, is stated by `NodeDb.CaptureAtLeftmost` and `NodeDb.LeftmostCapture`. Keeping these in lemmas means that callers of `NodeDb.ParseConnectionString` do not unfold the scan.
- The JavaScript regular expressions' case-insensitive matching is ASCII folding. For these patterns, whose literals are ASCII, that is what a non-Unicode `i` flag does.
- `src/server.js`, the Razor pages and the `sql` export of the Node module are outside the modelled core.

## Findings

| source | as written | input that shows it | evidently intended | confidence | as-written member | corrected member |
|---|---|---|---|---|---|---|
| src-csharp/Models/Expense.cs:25 | The currency prefix is the two characters "Â£": the UTF-8 bytes of "£" read one byte per character. | AmountMinor 2540 formats as "Â£25.40" | "£25.40" | high; not executed | Money.FormattedAmountAsWritten (shown by Money.PoundSignAsWrittenIsMisdecoded) | Money.FormattedAmount |
| src-csharp/Models/CreateExpenseRequest.cs:8 | `[Range(0.01, 999999.99)]` takes double bounds and compares the amount after conversion to double. | Amount 0.0099999999999999999999 converts to the same double as 0.01, passes, and is stored as 0 pence | Amounts below 0.01 are refused, and every stored amount is at least 1 penny | medium; not executed | Requests.Validate (shown by Requests.BelowMinimumAccepted and Workflow.BelowMinimumThroughApi) | Requests.ValidateExact (proved by Requests.ExactValidMinorBounds) |
| src/db.js:145 | The property lookup with an empty-list fallback also finds the members every object inherits from Object.prototype. | `getDummyData("constructor")` yields the `Object` function, not an empty list | An empty list for every key other than expenses, categories and statuses | high; not executed | NodeDb.GetDummyDataAsWritten (shown by NodeDb.GetDummyDataAsWrittenLeaksPrototype) | NodeDb.GetDummyData |
