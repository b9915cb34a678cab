/** What holds of every expenses table the service can produce, starting
    from an empty one, whatever the outcome of each call. */
module Workflow {
  import opened Wrappers
  import opened Money
  import opened Records
  import opened Requests
  import DS = DatabaseService
  import Expenses = ExpensesController
  import Health = HealthController

  /** The timestamps each status implies. An Approved or Rejected row need
      not have been submitted: approving a Draft is allowed. */
  predicate RowConsistent(r: ExpenseRow) {
    && (r.status == Draft ==> r.submittedAt.None? && r.reviewedAt.None? && r.reviewedBy.None?)
    && (r.status == Submitted ==> r.submittedAt.Some?)
    && (r.status == Approved || r.status == Rejected ==> r.reviewedAt.Some?)
  }

  predicate Consistent(t: Table<ExpenseRow>) {
    forall k | k in t.rows :: RowConsistent(t.rows[k])
  }

  /** One call of a write operation of the service. */
  datatype Command =
    | Create(req: CreateExpenseRequest)
    | Submit(id: int)
    | Approve(id: int)
    | Reject(id: int)

  datatype Step = Step(env: DS.Env, command: Command)

  /** The service after the call, whether it returned or threw. */
  function Perform(s: DS.Service, step: Step): DS.Service {
    match step.command
    case Create(req) => DS.CreateExpense(s, step.env, req).state
    case Submit(id) => DS.SubmitExpense(s, step.env, id).state
    case Approve(id) => DS.ApproveExpense(s, step.env, id).state
    case Reject(id) => DS.RejectExpense(s, step.env, id).state
  }

  function Replay(s: DS.Service, steps: seq<Step>): DS.Service
    decreases |steps|
  {
    if |steps| == 0 then s else Replay(Perform(s, steps[0]), steps[1..])
  }

  /** A service whose expenses table is empty. */
  function Fresh(categories: Table<CategoryRow>, users: map<int, string>): (s: DS.Service)
    ensures s.db.expenses.rows == map[]
  {
    DS.Service(Db(EmptyTable(), categories, users), None, false)
  }

  lemma PerformKeepsConsistent(s: DS.Service, step: Step)
    requires Consistent(s.db.expenses)
    ensures Consistent(Perform(s, step).db.expenses)
  {
    var t := s.db.expenses;
    var t' := Perform(s, step).db.expenses;
    forall k | k in t'.rows
      ensures RowConsistent(t'.rows[k])
    {
      match step.command
      case Create(req) =>
        var c := DS.CreateExpense(s, step.env, req);
        if c.result.Done? && k == c.result.value {
          assert t'.rows[k] == DS.DraftRow(step.env, req, ToMinor(req.amount).value);
        }
      case Submit(id) =>
      case Approve(id) =>
      case Reject(id) =>
    }
  }

  lemma {:induction false} ReplayKeepsConsistent(s: DS.Service, steps: seq<Step>)
    requires Consistent(s.db.expenses)
    ensures Consistent(Replay(s, steps).db.expenses)
    decreases |steps|
  {
    if |steps| > 0 {
      PerformKeepsConsistent(s, steps[0]);
      ReplayKeepsConsistent(Perform(s, steps[0]), steps[1..]);
    }
  }

  /** Every table reachable from an empty one by Create, Submit, Approve
      and Reject has consistent timestamps. */
  lemma ReachableConsistent(categories: Table<CategoryRow>, users: map<int, string>, steps: seq<Step>)
    ensures Consistent(Replay(Fresh(categories, users), steps).db.expenses)
  {
    ReplayKeepsConsistent(Fresh(categories, users), steps);
  }

  /** Approving a Draft skips Submit: the row ends Approved with no
      submission time. */
  lemma ApprovedWithoutSubmission(env: DS.Env, req: CreateExpenseRequest)
    requires DS.DatabaseReached(env) && IsValid(req)
    ensures
      var s := Replay(Fresh(EmptyTable(), map[]), [Step(env, Create(req)), Step(env, Approve(1))]);
      && 1 in s.db.expenses.rows
      && s.db.expenses.rows[1].status == Approved
      && s.db.expenses.rows[1].submittedAt.None?
  {
    ValidRequestMinorBounds(req);
    var s0 := Fresh(EmptyTable(), map[]);
    var c := DS.CreateExpense(s0, env, req);
    assert c.result == Done(1);
    var s1 := Perform(s0, Step(env, Create(req)));
    assert s1.db.expenses.rows[1].submittedAt.None?;
    var s2 := Perform(s1, Step(env, Approve(1)));
    assert Replay(s0, [Step(env, Create(req)), Step(env, Approve(1))]) == Replay(s1, [Step(env, Approve(1))]);
    assert Replay(s1, [Step(env, Approve(1))]) == s2;
  }

  /** Submitting a row whose user and category exist puts it on the
      pending list. */
  lemma SubmittedIsPending(s: DS.Service, env: DS.Env, id: int)
    requires DS.DatabaseReached(env) && DS.ExpenseJoins(s.db, id)
    ensures
      var db := DS.SubmitExpense(s, env, id).state.db;
      DS.PendingJoins(db, id) && DS.ListedPending(db, id) in DS.PendingExpensesQuery(db)
  {
    var db := DS.SubmitExpense(s, env, id).state.db;
    assert db.expenses.rows[id].status == Submitted;
  }

  /** Approving a row takes it off the pending list. */
  lemma ApprovedLeavesPending(s: DS.Service, env: DS.Env, id: int)
    requires DS.DatabaseReached(env)
    ensures
      var db := DS.ApproveExpense(s, env, id).state.db;
      forall e | e in DS.PendingExpensesQuery(db) :: e.expenseId != id
  {
    var db := DS.ApproveExpense(s, env, id).state.db;
    assert !DS.PendingJoins(db, id);
  }

  // ---------------------------------------------------------------------
  // Through the API

  /** One write request to `ExpensesController`. */
  function Request(s: DS.Service, step: Step): DS.Service {
    match step.command
    case Create(req) => Expenses.CreateExpense(s, step.env, req).0
    case Submit(id) => Expenses.SubmitExpense(s, step.env, id).0
    case Approve(id) => Expenses.ApproveExpense(s, step.env, id).0
    case Reject(id) => Expenses.RejectExpense(s, step.env, id).0
  }

  function ReplayRequests(s: DS.Service, steps: seq<Step>): DS.Service
    decreases |steps|
  {
    if |steps| == 0 then s else ReplayRequests(Request(s, steps[0]), steps[1..])
  }

  /** The amount invariant the API keeps for the `Expenses` table: pence
      in [0, 99999999] and currency GBP. Zero is reachable, because the
      range check compares doubles (`BelowMinimumThroughApi`). */
  predicate AmountsValid(t: Table<ExpenseRow>) {
    forall k | k in t.rows :: 0 <= t.rows[k].amountMinor <= 99_999_999 && t.rows[k].currency == "GBP"
  }

  lemma RequestKeepsInvariants(s: DS.Service, step: Step)
    requires Consistent(s.db.expenses) && AmountsValid(s.db.expenses)
    ensures Consistent(Request(s, step).db.expenses)
    ensures AmountsValid(Request(s, step).db.expenses)
  {
    match step.command
    case Create(req) =>
      if IsValid(req) {
        ValidRequestMinorBounds(req);
        assert Request(s, step) == Perform(s, step);
        PerformKeepsConsistent(s, step);
      }
    case Submit(id) =>
      assert Request(s, step) == Perform(s, step);
      PerformKeepsConsistent(s, step);
    case Approve(id) =>
      assert Request(s, step) == Perform(s, step);
      PerformKeepsConsistent(s, step);
    case Reject(id) =>
      assert Request(s, step) == Perform(s, step);
      PerformKeepsConsistent(s, step);
  }

  lemma {:induction false} ReplayRequestsKeepsInvariants(s: DS.Service, steps: seq<Step>)
    requires Consistent(s.db.expenses) && AmountsValid(s.db.expenses)
    ensures Consistent(ReplayRequests(s, steps).db.expenses)
    ensures AmountsValid(ReplayRequests(s, steps).db.expenses)
    decreases |steps|
  {
    if |steps| > 0 {
      RequestKeepsInvariants(s, steps[0]);
      ReplayRequestsKeepsInvariants(Request(s, steps[0]), steps[1..]);
    }
  }

  /** Through the API, every stored expense also has an amount of at most
      99999999 pence, never negative, in GBP. */
  lemma ReachableThroughApi(categories: Table<CategoryRow>, users: map<int, string>, steps: seq<Step>)
    ensures Consistent(ReplayRequests(Fresh(categories, users), steps).db.expenses)
    ensures AmountsValid(ReplayRequests(Fresh(categories, users), steps).db.expenses)
  {
    ReplayRequestsKeepsInvariants(Fresh(categories, users), steps);
  }

  /** One create request for 0.0099999999999999999999 pounds passes
      validation and stores an expense of 0 pence. */
  lemma BelowMinimumThroughApi(env: DS.Env, date: Instant, category: int)
    requires DS.DatabaseReached(env)
    ensures
      var req := CreateExpenseRequest(0.0099999999999999999999, date, category, None);
      var s := ReplayRequests(Fresh(EmptyTable(), map[]), [Step(env, Create(req))]);
      && 1 in s.db.expenses.rows
      && s.db.expenses.rows[1].amountMinor == 0
  {
    var req := CreateExpenseRequest(0.0099999999999999999999, date, category, None);
    BelowMinimumAccepted(date, category);
    var s0 := Fresh(EmptyTable(), map[]);
    var c := DS.CreateExpense(s0, env, req);
    assert c.result == Done(1);
    var s1 := Request(s0, Step(env, Create(req)));
    assert s1 == c.state;
    assert ReplayRequests(s0, [Step(env, Create(req))]) == ReplayRequests(s1, []);
  }

  // ---------------------------------------------------------------------
  // The error slot as the health check sees it

  /** After a list request, the health check reports healthy exactly when
      that request's response was a success. */
  lemma HealthAfterRead(s: DS.Service, env: DS.Env)
    ensures
      var (s', response) := Expenses.GetAllExpenses(s, env);
      Health.GetHealth(s').status == "healthy" <==> response.body.success
  {
  }

  /** A failed write leaves the health check degraded, with the slot
      naming the service method. */
  lemma HealthAfterFailedSubmit(s: DS.Service, env: DS.Env, id: int)
    requires !DS.DatabaseReached(env)
    ensures Health.GetHealth(Expenses.SubmitExpense(s, env, id).0).status == "degraded"
  {
  }
}
