/** `DatabaseService`: the connection with its "last error" slot, the three
    reads with their demo-data fallback, and the four writes, each SQL
    statement replaced by what it does to the tables. */
module DatabaseService {
  import opened Wrappers
  import opened Text
  import opened Listing
  import opened Money
  import opened Records
  import opened Requests

  /** `SQL_CONNECTION_STRING` and `MANAGED_IDENTITY_CLIENT_ID`. */
  datatype Config = Config(connectionString: Option<string>, managedIdentityClientId: Option<string>)

  predicate IsNullOrEmpty(s: Option<string>) {
    s.None? || |s.value| == 0
  }

  predicate ConfigMissing(c: Config) {
    IsNullOrEmpty(c.connectionString) || IsNullOrEmpty(c.managedIdentityClientId)
  }

  /** What the world outside the service does during one call: whether
      `new SqlConnection` accepts the connection string, whether the token
      fetch and `OpenAsync` succeed, whether the statement runs, the two
      clocks, and the users the `TOP 1` sub-selects pick. */
  datatype Env = Env(
    config: Config,
    construct: Outcome<()>,
    connect: Outcome<()>,
    command: Outcome<()>,
    utcNow: Instant,
    localNow: Instant,
    employee: Option<int>,
    manager: Option<int>)

  /** The call reaches the database and its statement runs. */
  predicate DatabaseReached(env: Env) {
    !ConfigMissing(env.config) && env.construct.Done? && env.connect.Done? && env.command.Done?
  }

  /** The service instance: the database it talks to and its two fields
      `_connectionError` and `_isConnected`. */
  datatype Service = Service(db: Db, connectionError: Option<string>, isConnected: bool)

  /** The state after a call, and what the call returned or threw. */
  datatype Call<T> = Call(state: Service, result: Outcome<T>)

  const ConfigMissingMessage: string :=
    "Database configuration not found. Please ensure SQL_CONNECTION_STRING and MANAGED_IDENTITY_CLIENT_ID are set."

  /** The message of the `OverflowException` .NET throws for `(int)d`. */
  const Int32OverflowMessage: string := "Value was either too large or too small for an Int32."

  /** The suffix naming the method a message comes from. */
  function Tag(operation: string): string {
    " (DatabaseService.cs:" + operation + ")"
  }

  /** An error-slot message: a summary, the exception message, and the
      method it came from. */
  function Tagged(summary: string, message: string, operation: string): (r: string)
    ensures StartsWith(r, summary)
    ensures EndsWith(r, Tag(operation))
  {
    var tag := Tag(operation);
    var r := summary + ": " + message + tag;
    assert r[..|summary|] == summary;
    assert r[|r| - |tag|..] == tag;
    r
  }

  /** `GetConnectionAsync`. Missing configuration sets the slot and throws
      without touching `_isConnected`; a connection string that
      `new SqlConnection` refuses throws before the `try`, touching
      neither field; a failed token fetch or open clears `_isConnected`,
      sets the slot and rethrows; success sets `_isConnected` and clears
      the slot. */
  function GetConnection(s: Service, env: Env): (c: Call<()>)
    ensures c.state.db == s.db
    ensures c.result.Done? <==> !ConfigMissing(env.config) && env.construct.Done? && env.connect.Done?
    ensures c.result.Done? ==> c.state.connectionError.None? && c.state.isConnected
    ensures ConfigMissing(env.config) ==>
      && c.state.connectionError == Some(ConfigMissingMessage)
      && c.state.isConnected == s.isConnected
      && c.result == Threw(ConfigMissingMessage)
    ensures !ConfigMissing(env.config) && env.construct.Threw? ==>
      c == Call(s, Threw(env.construct.message))
    ensures !ConfigMissing(env.config) && env.construct.Done? && env.connect.Threw? ==>
      && !c.state.isConnected
      && c.state.connectionError ==
           Some(Tagged("Database connection failed", env.connect.message, "GetConnectionAsync"))
      && c.result == Threw(env.connect.message)
  {
    if ConfigMissing(env.config) then
      Call(s.(connectionError := Some(ConfigMissingMessage)), Threw(ConfigMissingMessage))
    else if env.construct.Threw? then
      Call(s, Threw(env.construct.message))
    else match env.connect
      case Threw(m) =>
        Call(s.(isConnected := false,
                connectionError := Some(Tagged("Database connection failed", m, "GetConnectionAsync"))),
             Threw(m))
      case Done(_) =>
        Call(s.(isConnected := true, connectionError := None), Done(()))
  }

  /** Opens a connection and runs one statement that does not change the
      tables (a `SELECT`), reporting the first exception. */
  function Execute(s: Service, env: Env): (c: Call<()>)
    ensures c.state.db == s.db
    ensures c.result.Done? <==> DatabaseReached(env)
    ensures c.result.Done? ==> c.state.connectionError.None?
    ensures !ConfigMissing(env.config) && env.construct.Done? && env.connect.Done? && env.command.Threw? ==>
      c.result == Threw(env.command.message) && c.state.connectionError.None?
  {
    var open := GetConnection(s, env);
    if open.result.Threw? then open
    else match env.command
      case Threw(m) => Call(open.state, Threw(m))
      case Done(_) => open
  }

  /** A `catch` block of the service: the slot gets a tagged message. */
  function Caught(s: Service, summary: string, message: string, operation: string): (s': Service)
    ensures s'.db == s.db && s'.isConnected == s.isConnected
    ensures s'.connectionError.Some?
    ensures EndsWith(s'.connectionError.value, Tag(operation))
  {
    s.(connectionError := Some(Tagged(summary, message, operation)))
  }

  // ---------------------------------------------------------------------
  // Reads

  /** The inner joins of the expense queries: the row has a user and a
      category that exist. The status join always succeeds. */
  predicate ExpenseJoins(db: Db, id: int) {
    && id in db.expenses.rows
    && db.expenses.rows[id].userId.Some?
    && db.expenses.rows[id].userId.value in db.users
    && db.expenses.rows[id].categoryId in db.categories.rows
  }

  /** The `Expense` the all-expenses query builds from a joined row. */
  function ListedExpense(db: Db, id: int): (e: Expense)
    requires ExpenseJoins(db, id)
    ensures e.expenseId == id
    ensures e.amountMinor == db.expenses.rows[id].amountMinor
    ensures e.statusName == Some(db.expenses.rows[id].status.Name())
    ensures e.userName == Some(db.users[db.expenses.rows[id].userId.value])
    ensures e.categoryName == Some(db.categories.rows[db.expenses.rows[id].categoryId].name)
    ensures e.expenseDate == db.expenses.rows[id].expenseDate
    ensures e.submittedAt == db.expenses.rows[id].submittedAt
  {
    var row := db.expenses.rows[id];
    NewExpense().(
      expenseId := id,
      userName := Some(db.users[row.userId.value]),
      categoryName := Some(db.categories.rows[row.categoryId].name),
      amountMinor := row.amountMinor,
      currency := row.currency,
      expenseDate := row.expenseDate,
      description := row.description,
      statusName := Some(row.status.Name()),
      submittedAt := row.submittedAt)
  }

  /** `ORDER BY e.ExpenseDate DESC`. */
  predicate NewestFirst(a: Expense, b: Expense) {
    a.expenseDate >= b.expenseDate
  }

  /** The rows of `ids` shown through `view`; distinct ids give distinct
      objects because each object carries its id. */
  lemma ViewsDistinct(ids: seq<int>, views: seq<Expense>)
    requires Distinct(ids) && |views| == |ids|
    requires forall i | 0 <= i < |ids| :: views[i].expenseId == ids[i]
    ensures Distinct(views)
  {
    forall i, j | 0 <= i < j < |views|
      ensures views[i] != views[j]
    {
      assert views[i].expenseId != views[j].expenseId;
    }
  }

  /** The keys of the rows satisfying `p`, each once. */
  function KeysWhere<R>(t: Table<R>, p: int -> bool): (ids: seq<int>)
    ensures Distinct(ids)
    ensures forall k :: k in ids <==> k in t.rows && p(k)
  {
    Filter(Keys(t), p)
  }

  function JoinedIds(db: Db): (ids: seq<int>)
    ensures Distinct(ids)
    ensures forall k :: k in ids <==> ExpenseJoins(db, k)
  {
    KeysWhere(db.expenses, id => ExpenseJoins(db, id))
  }

  /** The objects the query reads for `ids`, in that order. */
  function ExpenseViews(db: Db, ids: seq<int>): (v: seq<Expense>)
    requires forall k | k in ids :: ExpenseJoins(db, k)
    ensures |v| == |ids|
    ensures forall i | 0 <= i < |ids| :: v[i] == ListedExpense(db, ids[i])
  {
    if |ids| == 0 then [] else [ListedExpense(db, ids[0])] + ExpenseViews(db, ids[1..])
  }

  /** Every joined row once, in key order: the result set before sorting. */
  function JoinedExpenses(db: Db): (v: seq<Expense>)
    ensures Distinct(v)
    ensures forall e | e in v :: ExpenseJoins(db, e.expenseId) && e == ListedExpense(db, e.expenseId)
    ensures forall id | ExpenseJoins(db, id) :: ListedExpense(db, id) in v
  {
    var ids := JoinedIds(db);
    var views := ExpenseViews(db, ids);
    ViewsDistinct(ids, views);
    JoinedViewsComplete(db, ids, views);
    views
  }

  lemma JoinedViewsComplete(db: Db, ids: seq<int>, views: seq<Expense>)
    requires forall k :: k in ids <==> ExpenseJoins(db, k)
    requires |views| == |ids|
    requires forall i | 0 <= i < |ids| :: views[i] == ListedExpense(db, ids[i])
    ensures forall e | e in views :: ExpenseJoins(db, e.expenseId) && e == ListedExpense(db, e.expenseId)
    ensures forall id | ExpenseJoins(db, id) :: ListedExpense(db, id) in views
  {
    forall e | e in views
      ensures ExpenseJoins(db, e.expenseId) && e == ListedExpense(db, e.expenseId)
    {
      var i :| 0 <= i < |views| && views[i] == e;
      assert ids[i] in ids;
    }
    forall id | ExpenseJoins(db, id)
      ensures ListedExpense(db, id) in views
    {
      var i :| 0 <= i < |ids| && ids[i] == id;
      assert views[i] == ListedExpense(db, id);
    }
  }

  /** `GetAllExpensesAsync` when the query runs: every joined row exactly
      once, newest expense date first. */
  function AllExpensesQuery(db: Db): (r: seq<Expense>)
    ensures Distinct(r)
    ensures forall e | e in r :: ExpenseJoins(db, e.expenseId) && e == ListedExpense(db, e.expenseId)
    ensures forall id | ExpenseJoins(db, id) :: ListedExpense(db, id) in r
    ensures SortedBy(r, NewestFirst)
  {
    assert TotalPreorder(NewestFirst);
    var joined := JoinedExpenses(db);
    SortDistinct(joined, NewestFirst);
    Sort(joined, NewestFirst)
  }

  predicate PendingJoins(db: Db, id: int) {
    ExpenseJoins(db, id) && db.expenses.rows[id].status == Submitted
  }

  /** The `Expense` the pending query builds; it labels each one
      "Submitted" itself rather than reading the status name. */
  function ListedPending(db: Db, id: int): (e: Expense)
    requires PendingJoins(db, id)
    ensures e.expenseId == id
    ensures e.statusName == Some("Submitted")
  {
    ListedExpense(db, id).(statusName := Some("Submitted"))
  }

  /** `ORDER BY e.SubmittedAt ASC`, where SQL Server puts NULL first. */
  predicate OldestSubmissionFirst(a: Expense, b: Expense) {
    a.submittedAt.None? || (b.submittedAt.Some? && a.submittedAt.value <= b.submittedAt.value)
  }

  /** Ordering by submission time is total and transitive, and an expense
      never submitted strictly precedes every submitted one. */
  lemma OldestSubmissionFirstIsTotalPreorder()
    ensures TotalPreorder(OldestSubmissionFirst)
    ensures forall a: Expense, b: Expense | a.submittedAt.None? && b.submittedAt.Some? ::
      OldestSubmissionFirst(a, b) && !OldestSubmissionFirst(b, a)
  {
  }

  function PendingIds(db: Db): (ids: seq<int>)
    ensures Distinct(ids)
    ensures forall k :: k in ids <==> PendingJoins(db, k)
  {
    KeysWhere(db.expenses, id => PendingJoins(db, id))
  }

  function PendingViews(db: Db, ids: seq<int>): (v: seq<Expense>)
    requires forall k | k in ids :: PendingJoins(db, k)
    ensures |v| == |ids|
    ensures forall i | 0 <= i < |ids| :: v[i] == ListedPending(db, ids[i])
  {
    if |ids| == 0 then [] else [ListedPending(db, ids[0])] + PendingViews(db, ids[1..])
  }

  lemma PendingViewsComplete(db: Db, ids: seq<int>, views: seq<Expense>)
    requires forall k :: k in ids <==> PendingJoins(db, k)
    requires |views| == |ids|
    requires forall i | 0 <= i < |ids| :: views[i] == ListedPending(db, ids[i])
    ensures forall e | e in views :: PendingJoins(db, e.expenseId) && e == ListedPending(db, e.expenseId)
    ensures forall id | PendingJoins(db, id) :: ListedPending(db, id) in views
  {
    forall e | e in views
      ensures PendingJoins(db, e.expenseId) && e == ListedPending(db, e.expenseId)
    {
      var i :| 0 <= i < |views| && views[i] == e;
      assert ids[i] in ids;
    }
    forall id | PendingJoins(db, id)
      ensures ListedPending(db, id) in views
    {
      var i :| 0 <= i < |ids| && ids[i] == id;
      assert views[i] == ListedPending(db, id);
    }
  }

  /** `GetPendingExpensesAsync` when the query runs: exactly the joined
      Submitted rows, oldest submission first. */
  function PendingExpensesQuery(db: Db): (r: seq<Expense>)
    ensures Distinct(r)
    ensures forall e | e in r :: PendingJoins(db, e.expenseId) && e == ListedPending(db, e.expenseId)
    ensures forall id | PendingJoins(db, id) :: ListedPending(db, id) in r
    ensures forall e | e in r :: e.statusName == Some("Submitted")
    ensures SortedBy(r, OldestSubmissionFirst)
  {
    OldestSubmissionFirstIsTotalPreorder();
    var ids := PendingIds(db);
    var views := PendingViews(db, ids);
    ViewsDistinct(ids, views);
    PendingViewsComplete(db, ids, views);
    SortDistinct(views, OldestSubmissionFirst);
    Sort(views, OldestSubmissionFirst)
  }

  predicate ActiveCategory(db: Db, id: int) {
    id in db.categories.rows && db.categories.rows[id].isActive
  }

  function ListedCategory(db: Db, id: int): (c: ExpenseCategory)
    requires ActiveCategory(db, id)
    ensures c.categoryId == id && c.isActive
  {
    ExpenseCategory(id, db.categories.rows[id].name, true)
  }

  /** `ORDER BY CategoryName`. */
  predicate ByName(a: ExpenseCategory, b: ExpenseCategory) {
    StrLe(a.categoryName, b.categoryName)
  }

  lemma ByNameIsTotalPreorder()
    ensures TotalPreorder(ByName)
  {
    forall a, b
      ensures ByName(a, b) || ByName(b, a)
    {
      StrLeTotal(a.categoryName, b.categoryName);
    }
    forall a, b, c | ByName(a, b) && ByName(b, c)
      ensures ByName(a, c)
    {
      StrLeTransitive(a.categoryName, b.categoryName, c.categoryName);
    }
  }

  function ActiveIds(db: Db): (ids: seq<int>)
    ensures Distinct(ids)
    ensures forall k :: k in ids <==> ActiveCategory(db, k)
  {
    KeysWhere(db.categories, id => ActiveCategory(db, id))
  }

  function CategoryViews(db: Db, ids: seq<int>): (v: seq<ExpenseCategory>)
    requires forall k | k in ids :: ActiveCategory(db, k)
    ensures |v| == |ids|
    ensures forall i | 0 <= i < |ids| :: v[i] == ListedCategory(db, ids[i])
  {
    if |ids| == 0 then [] else [ListedCategory(db, ids[0])] + CategoryViews(db, ids[1..])
  }

  lemma CategoryViewsComplete(db: Db, ids: seq<int>, views: seq<ExpenseCategory>)
    requires Distinct(ids)
    requires forall k :: k in ids <==> ActiveCategory(db, k)
    requires |views| == |ids|
    requires forall i | 0 <= i < |ids| :: views[i] == ListedCategory(db, ids[i])
    ensures Distinct(views)
    ensures forall c | c in views :: ActiveCategory(db, c.categoryId) && c == ListedCategory(db, c.categoryId)
    ensures forall id | ActiveCategory(db, id) :: ListedCategory(db, id) in views
  {
    forall i, j | 0 <= i < j < |views|
      ensures views[i] != views[j]
    {
      assert views[i].categoryId != views[j].categoryId;
    }
    forall c | c in views
      ensures ActiveCategory(db, c.categoryId) && c == ListedCategory(db, c.categoryId)
    {
      var i :| 0 <= i < |views| && views[i] == c;
      assert ids[i] in ids;
    }
    forall id | ActiveCategory(db, id)
      ensures ListedCategory(db, id) in views
    {
      var i :| 0 <= i < |ids| && ids[i] == id;
      assert views[i] == ListedCategory(db, id);
    }
  }

  /** `GetCategoriesAsync` when the query runs: exactly the active
      categories, by name, each marked active. */
  function CategoriesQuery(db: Db): (r: seq<ExpenseCategory>)
    ensures Distinct(r)
    ensures forall c | c in r :: ActiveCategory(db, c.categoryId) && c == ListedCategory(db, c.categoryId)
    ensures forall id | ActiveCategory(db, id) :: ListedCategory(db, id) in r
    ensures forall c | c in r :: c.isActive
    ensures SortedBy(r, ByName)
  {
    ByNameIsTotalPreorder();
    var ids := ActiveIds(db);
    var views := CategoryViews(db, ids);
    CategoryViewsComplete(db, ids, views);
    SortDistinct(views, ByName);
    Sort(views, ByName)
  }

  /** `GetDummyExpenses`: three fixed rows, dated relative to the
      application's clock. */
  function DummyExpenses(now: Instant): (r: seq<Expense>)
    ensures |r| == 3
    ensures forall i | 0 <= i < 3 ::
      && r[i].expenseId == i + 1 && r[i].currency == "GBP" && r[i].amountMinor > 0
      && r[i].expenseDate < now
  {
    [ NewExpense().(expenseId := 1, userName := Some("Alice Example"), categoryName := Some("Travel"),
                    amountMinor := 2540, currency := "GBP", expenseDate := now - 7 * TicksPerDay,
                    description := Some("Taxi from airport to client site"), statusName := Some("Submitted"),
                    submittedAt := Some(now - 7 * TicksPerDay)),
      NewExpense().(expenseId := 2, userName := Some("Alice Example"), categoryName := Some("Meals"),
                    amountMinor := 1425, currency := "GBP", expenseDate := now - 15 * TicksPerDay,
                    description := Some("Client lunch meeting"), statusName := Some("Approved"),
                    submittedAt := Some(now - 15 * TicksPerDay)),
      NewExpense().(expenseId := 3, userName := Some("Alice Example"), categoryName := Some("Supplies"),
                    amountMinor := 799, currency := "GBP", expenseDate := now - 2 * TicksPerDay,
                    description := Some("Office stationery"), statusName := Some("Draft")) ]
  }

  /** `GetDummyCategories`: five fixed active categories. */
  function DummyCategories(): (r: seq<ExpenseCategory>)
    ensures |r| == 5
    ensures forall i | 0 <= i < 5 :: r[i].categoryId == i + 1 && r[i].isActive
    ensures forall i, j | 0 <= i < j < 5 :: r[i].categoryName != r[j].categoryName
  {
    [ ExpenseCategory(1, "Travel", true),
      ExpenseCategory(2, "Meals", true),
      ExpenseCategory(3, "Supplies", true),
      ExpenseCategory(4, "Accommodation", true),
      ExpenseCategory(5, "Other", true) ]
  }

  predicate LabelledSubmitted(e: Expense) {
    e.statusName == Some("Submitted")
  }

  /** The pending fallback: the demo rows labelled "Submitted". */
  function DummyPending(now: Instant): (r: seq<Expense>)
    ensures forall e :: e in r <==> e in DummyExpenses(now) && LabelledSubmitted(e)
  {
    Filter(DummyExpenses(now), LabelledSubmitted)
  }

  /** Of the demo rows only the first carries the "Submitted" label, and
      the "Draft" one has no submission time. */
  lemma DummyExpensesShape(now: Instant)
    ensures forall i | 0 <= i < 3 :: LabelledSubmitted(DummyExpenses(now)[i]) <==> i == 0
    ensures DummyExpenses(now)[2].statusName == Some("Draft") && DummyExpenses(now)[2].submittedAt.None?
  {
  }

  /** Unlike the live query, the demo rows are not newest first: the third
      is two days old, the second fifteen. */
  lemma DummyExpensesNotNewestFirst(now: Instant)
    ensures !SortedBy(DummyExpenses(now), NewestFirst)
  {
    assert !NewestFirst(DummyExpenses(now)[1], DummyExpenses(now)[2]);
  }

  /** The pending fallback is exactly the first demo row. */
  lemma DummyPendingIsFirstRow(now: Instant)
    ensures DummyPending(now) == [DummyExpenses(now)[0]]
  {
    var xs := DummyExpenses(now);
    assert Filter(xs[2..], LabelledSubmitted) == [] by {
      assert Filter(xs[2..][1..], LabelledSubmitted) == [];
    }
    assert Filter(xs[1..], LabelledSubmitted) == [] by {
      assert xs[1..][1..] == xs[2..];
    }
  }

  /** The demo categories are not in name order ("Travel" precedes
      "Meals"). */
  lemma DummyCategoriesShape()
    ensures !SortedBy(DummyCategories(), ByName)
  {
    assert !ByName(DummyCategories()[0], DummyCategories()[1]);
  }

  /** `GetAllExpensesAsync`: never throws; on any failure the slot names
      the method and the demo rows come back instead. */
  function GetAllExpenses(s: Service, env: Env): (c: Call<seq<Expense>>)
    ensures c.result.Done?
    ensures c.state.db == s.db
    ensures DatabaseReached(env) ==>
      c.state.connectionError.None? && c.result.value == AllExpensesQuery(s.db)
    ensures !DatabaseReached(env) ==>
      && c.state.connectionError.Some?
      && EndsWith(c.state.connectionError.value, Tag("GetAllExpensesAsync"))
      && c.result.value == DummyExpenses(env.localNow)
  {
    var x := Execute(s, env);
    match x.result
    case Threw(m) =>
      Call(Caught(x.state, "Failed to retrieve expenses", m, "GetAllExpensesAsync"),
           Done(DummyExpenses(env.localNow)))
    case Done(_) => Call(x.state, Done(AllExpensesQuery(s.db)))
  }

  /** `GetPendingExpensesAsync`: never throws; on failure the demo rows
      labelled "Submitted". */
  function GetPendingExpenses(s: Service, env: Env): (c: Call<seq<Expense>>)
    ensures c.result.Done?
    ensures c.state.db == s.db
    ensures DatabaseReached(env) ==>
      c.state.connectionError.None? && c.result.value == PendingExpensesQuery(s.db)
    ensures !DatabaseReached(env) ==>
      && c.state.connectionError.Some?
      && EndsWith(c.state.connectionError.value, Tag("GetPendingExpensesAsync"))
      && c.result.value == DummyPending(env.localNow)
  {
    var x := Execute(s, env);
    match x.result
    case Threw(m) =>
      Call(Caught(x.state, "Failed to retrieve pending expenses", m, "GetPendingExpensesAsync"),
           Done(DummyPending(env.localNow)))
    case Done(_) => Call(x.state, Done(PendingExpensesQuery(s.db)))
  }

  /** `GetCategoriesAsync`: never throws; on failure the five demo
      categories. */
  function GetCategories(s: Service, env: Env): (c: Call<seq<ExpenseCategory>>)
    ensures c.result.Done?
    ensures c.state.db == s.db
    ensures DatabaseReached(env) ==>
      c.state.connectionError.None? && c.result.value == CategoriesQuery(s.db)
    ensures !DatabaseReached(env) ==>
      && c.state.connectionError.Some?
      && EndsWith(c.state.connectionError.value, Tag("GetCategoriesAsync"))
      && c.result.value == DummyCategories()
  {
    var x := Execute(s, env);
    match x.result
    case Threw(m) =>
      Call(Caught(x.state, "Failed to retrieve categories", m, "GetCategoriesAsync"),
           Done(DummyCategories()))
    case Done(_) => Call(x.state, Done(CategoriesQuery(s.db)))
  }

  // ---------------------------------------------------------------------
  // Writes

  /** The row the `INSERT` of `CreateExpenseAsync` adds. */
  function DraftRow(env: Env, req: CreateExpenseRequest, minor: int): (row: ExpenseRow)
    ensures row.status == Draft && row.currency == "GBP" && row.amountMinor == minor
    ensures row.description == req.description && row.categoryId == req.category
    ensures row.submittedAt.None? && row.reviewedAt.None? && row.reviewedBy.None?
    ensures row.expenseDate == req.date && row.receiptFile.None?
    ensures row.userId == env.employee && row.createdAt == env.utcNow
  {
    ExpenseRow(env.employee, req.category, Draft, minor, "GBP", req.date, req.description,
               None, None, None, None, env.utcNow)
  }

  /** The `UPDATE` of `SubmitExpenseAsync`: status and submission time,
      whatever the current status. */
  function MarkSubmitted(t: Table<ExpenseRow>, id: int, now: Instant): (t': Table<ExpenseRow>)
    ensures forall k :: k in t'.rows <==> k in t.rows
    ensures forall k | k in t.rows && k != id :: t'.rows[k] == t.rows[k]
    ensures id in t.rows ==> t'.rows[id] == t.rows[id].(status := Submitted, submittedAt := Some(now))
    ensures id !in t.rows ==> t' == t
  {
    UpdateRow(t, id, (r: ExpenseRow) => r.(status := Submitted, submittedAt := Some(now)))
  }

  /** The `UPDATE` of `ApproveExpenseAsync` (verdict Approved) and of
      `RejectExpenseAsync` (verdict Rejected): status, reviewer and review
      time, whatever the current status; `SubmittedAt` is left alone. */
  function MarkReviewed(t: Table<ExpenseRow>, id: int, verdict: Status, reviewer: Option<int>, now: Instant)
    : (t': Table<ExpenseRow>)
    requires verdict == Approved || verdict == Rejected
    ensures forall k :: k in t'.rows <==> k in t.rows
    ensures forall k | k in t.rows && k != id :: t'.rows[k] == t.rows[k]
    ensures id in t.rows ==>
      t'.rows[id] == t.rows[id].(status := verdict, reviewedBy := reviewer, reviewedAt := Some(now))
    ensures id !in t.rows ==> t' == t
  {
    UpdateRow(t, id, (r: ExpenseRow) => r.(status := verdict, reviewedBy := reviewer, reviewedAt := Some(now)))
  }

  /** `CreateExpenseAsync`: connects, converts the amount (which can
      overflow), inserts one Draft row and returns its new id; any
      exception sets the slot and is rethrown. */
  function CreateExpense(s: Service, env: Env, req: CreateExpenseRequest): (c: Call<int>)
    ensures c.state.db.categories == s.db.categories && c.state.db.users == s.db.users
    ensures c.result.Done? <==> DatabaseReached(env) && ToMinor(req.amount).Some?
    ensures c.result.Done? ==>
      && c.result.value !in s.db.expenses.rows
      && c.state.db.expenses.rows ==
           s.db.expenses.rows[c.result.value := DraftRow(env, req, ToMinor(req.amount).value)]
      && c.state.connectionError.None?
    ensures c.result.Threw? ==>
      && c.state.db == s.db
      && c.state.connectionError.Some?
      && EndsWith(c.state.connectionError.value, Tag("CreateExpenseAsync"))
  {
    var open := GetConnection(s, env);
    match open.result
    case Threw(m) => Call(Caught(open.state, "Failed to create expense", m, "CreateExpenseAsync"), Threw(m))
    case Done(_) =>
      match ToMinor(req.amount)
      case None =>
        Call(Caught(open.state, "Failed to create expense", Int32OverflowMessage, "CreateExpenseAsync"),
             Threw(Int32OverflowMessage))
      case Some(minor) =>
        match env.command
        case Threw(m) => Call(Caught(open.state, "Failed to create expense", m, "CreateExpenseAsync"), Threw(m))
        case Done(_) =>
          var (t, id) := Append(s.db.expenses, DraftRow(env, req, minor));
          Call(open.state.(db := open.state.db.(expenses := t)), Done(id))
  }

  /** Runs one `UPDATE` through a connection: on success the expenses
      table becomes `updated`; on failure the slot is tagged with
      `operation` and the exception is rethrown. */
  function Write(s: Service, env: Env, updated: Table<ExpenseRow>, summary: string, operation: string)
    : (c: Call<()>)
    ensures c.state.db.categories == s.db.categories && c.state.db.users == s.db.users
    ensures c.result.Done? <==> DatabaseReached(env)
    ensures c.result.Done? ==> c.state.db.expenses == updated && c.state.connectionError.None?
    ensures c.result.Threw? ==>
      && c.state.db == s.db
      && c.state.connectionError.Some?
      && EndsWith(c.state.connectionError.value, Tag(operation))
  {
    var x := Execute(s, env);
    match x.result
    case Threw(m) => Call(Caught(x.state, summary, m, operation), Threw(m))
    case Done(_) => Call(x.state.(db := x.state.db.(expenses := updated)), Done(()))
  }

  /** `SubmitExpenseAsync`. */
  function SubmitExpense(s: Service, env: Env, id: int): (c: Call<()>)
    ensures c.result.Done? <==> DatabaseReached(env)
    ensures c.result.Done? ==> c.state.db == s.db.(expenses := MarkSubmitted(s.db.expenses, id, env.utcNow))
    ensures c.result.Threw? ==>
      && c.state.db == s.db
      && EndsWith(c.state.connectionError.GetOr(""), Tag("SubmitExpenseAsync"))
  {
    Write(s, env, MarkSubmitted(s.db.expenses, id, env.utcNow), "Failed to submit expense", "SubmitExpenseAsync")
  }

  /** `ApproveExpenseAsync`. */
  function ApproveExpense(s: Service, env: Env, id: int): (c: Call<()>)
    ensures c.result.Done? <==> DatabaseReached(env)
    ensures c.result.Done? ==>
      c.state.db == s.db.(expenses := MarkReviewed(s.db.expenses, id, Approved, env.manager, env.utcNow))
    ensures c.result.Threw? ==>
      && c.state.db == s.db
      && EndsWith(c.state.connectionError.GetOr(""), Tag("ApproveExpenseAsync"))
  {
    Write(s, env, MarkReviewed(s.db.expenses, id, Approved, env.manager, env.utcNow),
          "Failed to approve expense", "ApproveExpenseAsync")
  }

  /** `RejectExpenseAsync`. */
  function RejectExpense(s: Service, env: Env, id: int): (c: Call<()>)
    ensures c.result.Done? <==> DatabaseReached(env)
    ensures c.result.Done? ==>
      c.state.db == s.db.(expenses := MarkReviewed(s.db.expenses, id, Rejected, env.manager, env.utcNow))
    ensures c.result.Threw? ==>
      && c.state.db == s.db
      && EndsWith(c.state.connectionError.GetOr(""), Tag("RejectExpenseAsync"))
  {
    Write(s, env, MarkReviewed(s.db.expenses, id, Rejected, env.manager, env.utcNow),
          "Failed to reject expense", "RejectExpenseAsync")
  }
}
