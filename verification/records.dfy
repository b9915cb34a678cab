/** The entities of the expense workflow: the rows of the `Expenses` and
    `ExpenseCategories` tables, the `Expense` and `ExpenseCategory` objects
    the service hands to its callers, and the identity-keyed tables that
    hold the rows. */
module Records {
  import opened Wrappers
  import opened Listing

  /** `DateTime` values as 100-nanosecond ticks. */
  type Instant = int

  const TicksPerDay: int := 864_000_000_000

  /** The four rows of the `ExpenseStatus` lookup table. */
  datatype Status = Draft | Submitted | Approved | Rejected {
    /** The `StatusName` column. */
    function Name(): (n: string)
      ensures n == "Draft" <==> this == Draft
      ensures n == "Submitted" <==> this == Submitted
      ensures n == "Approved" <==> this == Approved
      ensures n == "Rejected" <==> this == Rejected
    {
      match this
      case Draft => "Draft"
      case Submitted => "Submitted"
      case Approved => "Approved"
      case Rejected => "Rejected"
    }
  }

  /** One row of `dbo.Expenses`; the key `ExpenseId` is the table's map key.
      `StatusId` is represented by the status it names. */
  datatype ExpenseRow = ExpenseRow(
    userId: Option<int>,
    categoryId: int,
    status: Status,
    amountMinor: int,
    currency: string,
    expenseDate: Instant,
    description: Option<string>,
    receiptFile: Option<string>,
    submittedAt: Option<Instant>,
    reviewedBy: Option<int>,
    reviewedAt: Option<Instant>,
    createdAt: Instant)

  /** One row of `dbo.ExpenseCategories`, keyed by `CategoryId`. */
  datatype CategoryRow = CategoryRow(name: string, isActive: bool)

  /** The `Expense` model object. Properties the reading query does not
      fill keep their C# defaults. */
  datatype Expense = Expense(
    expenseId: int,
    userId: int,
    categoryId: int,
    statusId: int,
    amountMinor: int,
    currency: string,
    expenseDate: Instant,
    description: Option<string>,
    receiptFile: Option<string>,
    submittedAt: Option<Instant>,
    reviewedBy: Option<int>,
    reviewedAt: Option<Instant>,
    createdAt: Instant,
    userName: Option<string>,
    categoryName: Option<string>,
    statusName: Option<string>)

  /** A freshly constructed `Expense`: every property at its default, and
      `Currency` at its initialiser "GBP". */
  function NewExpense(): (e: Expense)
    ensures e.currency == "GBP"
    ensures e.expenseId == 0 && e.amountMinor == 0
    ensures e.description.None? && e.submittedAt.None? && e.statusName.None?
  {
    Expense(0, 0, 0, 0, 0, "GBP", 0, None, None, None, None, None, 0, None, None, None)
  }

  /** The `ExpenseCategory` model object. */
  datatype ExpenseCategory = ExpenseCategory(categoryId: int, categoryName: string, isActive: bool)

  /** A table with an `IDENTITY(1,1)` key: every key was handed out by the
      counter, so all of them lie in [1, nextId). */
  datatype TableState<R> = TableState(rows: map<int, R>, nextId: int)

  predicate IdentityKeyed<R>(t: TableState<R>) {
    && 1 <= t.nextId
    && forall k | k in t.rows :: 1 <= k < t.nextId
  }

  type Table<R> = t: TableState<R> | IdentityKeyed(t) witness TableState(map[], 1)

  function EmptyTable<R>(): (t: Table<R>)
    ensures t.rows == map[]
  {
    TableState(map[], 1)
  }

  /** The keys of `rows` in [lo, hi), ascending. */
  function KeysBetween<R>(rows: map<int, R>, lo: int, hi: int): (ks: seq<int>)
    ensures forall i | 0 <= i < |ks| :: ks[i] in rows && lo <= ks[i] < hi
    ensures forall k | k in rows && lo <= k < hi :: k in ks
    ensures forall i, j | 0 <= i < j < |ks| :: ks[i] < ks[j]
    decreases hi - lo
  {
    if hi <= lo then []
    else
      var rest := KeysBetween(rows, lo + 1, hi);
      if lo in rows then [lo] + rest else rest
  }

  /** Every key of the table once, ascending: a full scan. */
  function Keys<R>(t: Table<R>): (ks: seq<int>)
    ensures forall k :: k in ks <==> k in t.rows
    ensures Distinct(ks)
  {
    KeysBetween(t.rows, 1, t.nextId)
  }

  /** `INSERT` into an identity table: the row gets the next key. */
  function Append<R>(t: Table<R>, row: R): (r: (Table<R>, int))
    ensures r.1 !in t.rows
    ensures r.0.rows == t.rows[r.1 := row]
  {
    (TableState(t.rows[t.nextId := row], t.nextId + 1), t.nextId)
  }

  /** `UPDATE ... WHERE key = id`: the row with key `id`, if there is one,
      becomes `f` of itself; no other row changes and a missing key
      changes nothing. */
  function UpdateRow<R>(t: Table<R>, id: int, f: R -> R): (t': Table<R>)
    ensures t'.nextId == t.nextId
    ensures forall k :: k in t'.rows <==> k in t.rows
    ensures forall k | k in t.rows && k != id :: t'.rows[k] == t.rows[k]
    ensures id in t.rows ==> t'.rows[id] == f(t.rows[id])
    ensures id !in t.rows ==> t' == t
  {
    if id in t.rows then TableState(t.rows[id := f(t.rows[id])], t.nextId) else t
  }

  /** The whole database as far as the workflow sees it; `users` maps
      `UserId` to `UserName`. */
  datatype Db = Db(
    expenses: Table<ExpenseRow>,
    categories: Table<CategoryRow>,
    users: map<int, string>)
}
