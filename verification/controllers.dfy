/** The `ApiResponse` envelope and the action results the controllers
    return. */
module Api {
  import opened Wrappers
  import opened Text

  /** `{Success, Data, Error, Message}`; an unset property is `None`. */
  datatype ApiResponse<T> = ApiResponse(success: bool, data: Option<T>, error: Option<string>, message: Option<string>)

  /** `Ok(...)` (HTTP 200) or `BadRequest(...)` (HTTP 400). */
  datatype ActionResult<T> = Ok(body: ApiResponse<T>) | BadRequest(body: ApiResponse<T>) {
    function StatusCode(): int {
      if Ok? then 200 else 400
    }
  }

  /** The suffix naming the controller action a message comes from. */
  function Origin(controller: string, action: string): string {
    " (" + controller + ".cs:" + action + ")"
  }

  function Described(summary: string, message: string, controller: string, action: string): (r: string)
    ensures StartsWith(r, summary)
    ensures EndsWith(r, Origin(controller, action))
  {
    var origin := Origin(controller, action);
    var r := summary + ": " + message + origin;
    assert r[..|summary|] == summary;
    assert r[|r| - |origin|..] == origin;
    r
  }

  /** What the read actions make of the service call: the list the service
      returned, successful exactly when the error slot is empty afterwards;
      or, when the call throws, an empty list and an error naming the
      action. Both are HTTP 200. */
  function ReadResult<T>(call: Outcome<seq<T>>, slot: Option<string>, summary: string,
                         controller: string, action: string): (r: ActionResult<seq<T>>)
    ensures r.Ok? && r.StatusCode() == 200
    ensures call.Done? ==>
      && (r.body.success <==> slot.None?)
      && r.body.data == Some(call.value)
      && r.body.error == slot
    ensures call.Threw? ==>
      && !r.body.success
      && r.body.data == Some([])
      && r.body.error.Some? && EndsWith(r.body.error.value, Origin(controller, action))
    ensures r.body.message.None?
  {
    match call
    case Done(items) => Ok(ApiResponse(slot.None?, Some(items), slot, None))
    case Threw(m) => Ok(ApiResponse(false, Some([]), Some(Described(summary, m, controller, action)), None))
  }
}

/** `ExpensesController`: the envelope mapping around the service. */
module ExpensesController {
  import opened Wrappers
  import opened Text
  import opened Records
  import opened Requests
  import DS = DatabaseService
  import opened Api

  const Controller: string := "ExpensesController"

  /** `GET /api/expenses`. */
  function GetAllExpenses(s: DS.Service, env: DS.Env): (r: (DS.Service, ActionResult<seq<Expense>>))
    ensures r.0.db == s.db
    ensures r.1.Ok?
    ensures r.1.body.success <==> DS.DatabaseReached(env)
    ensures r.1.body.error == r.0.connectionError
    ensures r.1.body.success ==> r.1.body.data == Some(DS.AllExpensesQuery(s.db))
    ensures !r.1.body.success ==> r.1.body.data == Some(DS.DummyExpenses(env.localNow))
  {
    var c := DS.GetAllExpenses(s, env);
    (c.state, ReadResult(c.result, c.state.connectionError, "Failed to retrieve expenses", Controller, "GetAllExpenses"))
  }

  /** `GET /api/expenses/pending`. */
  function GetPendingExpenses(s: DS.Service, env: DS.Env): (r: (DS.Service, ActionResult<seq<Expense>>))
    ensures r.0.db == s.db
    ensures r.1.Ok?
    ensures r.1.body.success <==> DS.DatabaseReached(env)
    ensures r.1.body.error == r.0.connectionError
    ensures r.1.body.success ==> r.1.body.data == Some(DS.PendingExpensesQuery(s.db))
    ensures !r.1.body.success ==> r.1.body.data == Some(DS.DummyPending(env.localNow))
  {
    var c := DS.GetPendingExpenses(s, env);
    (c.state, ReadResult(c.result, c.state.connectionError, "Failed to retrieve pending expenses",
                         Controller, "GetPendingExpenses"))
  }

  const InvalidRequestError: string := "Invalid request data"

  /** The `catch` block of a write action: HTTP 200, no data, an error
      naming the action and a "(using demo mode)" message. */
  function WriteFailed<T>(summary: string, message: string, action: string): (r: ActionResult<T>)
    ensures r.Ok? && !r.body.success && r.body.data.None?
    ensures r.body.error.Some? && EndsWith(r.body.error.value, Origin(Controller, action))
    ensures r.body.message == Some(summary + " (using demo mode)")
  {
    Ok(ApiResponse(false, None, Some(Described(summary, message, Controller, action)),
                   Some(summary + " (using demo mode)")))
  }

  /** `POST /api/expenses`. An invalid request is refused before the
      service is called; otherwise the new id, or the failure. */
  function CreateExpense(s: DS.Service, env: DS.Env, req: CreateExpenseRequest)
    : (r: (DS.Service, ActionResult<int>))
    ensures !IsValid(req) ==>
      && r.0 == s
      && r.1 == BadRequest(ApiResponse(false, None, Some(InvalidRequestError), None))
    ensures IsValid(req) ==> r.1.Ok?
    ensures IsValid(req) ==> (r.1.body.success <==> DS.DatabaseReached(env))
    ensures r.1.body.success ==>
      && r.1.body.data.Some?
      && r.1.body.data.value !in s.db.expenses.rows
      && r.1.body.data.value in r.0.db.expenses.rows
      && r.1.body.message == Some("Expense created successfully")
    ensures IsValid(req) && !r.1.body.success ==>
      && r.0.db == s.db
      && EndsWith(r.1.body.message.GetOr(""), " (using demo mode)")
  {
    if !IsValid(req) then
      (s, BadRequest(ApiResponse(false, None, Some(InvalidRequestError), None)))
    else
      ValidRequestMinorBounds(req);
      var c := DS.CreateExpense(s, env, req);
      match c.result
      case Done(id) => (c.state, Ok(ApiResponse(true, Some(id), None, Some("Expense created successfully"))))
      case Threw(m) => (c.state, WriteFailed("Failed to create expense", m, "CreateExpense"))
  }

  /** The three transition actions share one shape. */
  function Transition(c: DS.Call<()>, success: string, summary: string, action: string)
    : (r: (DS.Service, ActionResult<()>))
    ensures r.0 == c.state
    ensures r.1.Ok? && r.1.body.data.None?
    ensures r.1.body.success <==> c.result.Done?
    ensures r.1.body.success ==> r.1.body.message == Some(success) && r.1.body.error.None?
    ensures !r.1.body.success ==>
      && r.1.body.message == Some(summary + " (using demo mode)")
      && r.1.body.error.Some? && EndsWith(r.1.body.error.value, Origin(Controller, action))
  {
    match c.result
    case Done(_) => (c.state, Ok(ApiResponse(true, None, None, Some(success))))
    case Threw(m) => (c.state, WriteFailed(summary, m, action))
  }

  /** `POST /api/expenses/{id}/submit`. */
  function SubmitExpense(s: DS.Service, env: DS.Env, id: int): (r: (DS.Service, ActionResult<()>))
    ensures r.1.Ok?
    ensures r.1.body.success <==> DS.DatabaseReached(env)
    ensures r.1.body.success ==> r.1.body.message == Some("Expense submitted successfully")
    ensures !r.1.body.success ==>
      r.0.db == s.db && r.1.body.message == Some("Failed to submit expense (using demo mode)")
  {
    assert "Failed to submit expense" + " (using demo mode)" == "Failed to submit expense (using demo mode)";
    Transition(DS.SubmitExpense(s, env, id), "Expense submitted successfully",
               "Failed to submit expense", "SubmitExpense")
  }

  /** `POST /api/expenses/{id}/approve`. */
  function ApproveExpense(s: DS.Service, env: DS.Env, id: int): (r: (DS.Service, ActionResult<()>))
    ensures r.1.Ok?
    ensures r.1.body.success <==> DS.DatabaseReached(env)
    ensures r.1.body.success ==> r.1.body.message == Some("Expense approved successfully")
    ensures !r.1.body.success ==>
      r.0.db == s.db && r.1.body.message == Some("Failed to approve expense (using demo mode)")
  {
    assert "Failed to approve expense" + " (using demo mode)" == "Failed to approve expense (using demo mode)";
    Transition(DS.ApproveExpense(s, env, id), "Expense approved successfully",
               "Failed to approve expense", "ApproveExpense")
  }

  /** `POST /api/expenses/{id}/reject`. */
  function RejectExpense(s: DS.Service, env: DS.Env, id: int): (r: (DS.Service, ActionResult<()>))
    ensures r.1.Ok?
    ensures r.1.body.success <==> DS.DatabaseReached(env)
    ensures r.1.body.success ==> r.1.body.message == Some("Expense rejected successfully")
    ensures !r.1.body.success ==>
      r.0.db == s.db && r.1.body.message == Some("Failed to reject expense (using demo mode)")
  {
    assert "Failed to reject expense" + " (using demo mode)" == "Failed to reject expense (using demo mode)";
    Transition(DS.RejectExpense(s, env, id), "Expense rejected successfully",
               "Failed to reject expense", "RejectExpense")
  }
}

/** `CategoriesController`. */
module CategoriesController {
  import opened Wrappers
  import opened Records
  import DS = DatabaseService
  import opened Api

  /** `GET /api/categories`: HTTP 200 always; a failed database read
      still carries the five demo categories. */
  function GetCategories(s: DS.Service, env: DS.Env): (r: (DS.Service, ActionResult<seq<ExpenseCategory>>))
    ensures r.0.db == s.db
    ensures r.1.Ok? && r.1.StatusCode() == 200
    ensures r.1.body.success <==> DS.DatabaseReached(env)
    ensures r.1.body.error == r.0.connectionError
    ensures r.1.body.success ==> r.1.body.data == Some(DS.CategoriesQuery(s.db))
    ensures !r.1.body.success ==> r.1.body.data == Some(DS.DummyCategories()) && |r.1.body.data.value| == 5
  {
    var c := DS.GetCategories(s, env);
    (c.state, ReadResult(c.result, c.state.connectionError, "Failed to retrieve categories",
                         "CategoriesController", "GetCategories"))
  }
}

/** `HealthController`. */
module HealthController {
  import opened Wrappers
  import DS = DatabaseService

  /** `{status, database, error}`. */
  datatype Health = Health(status: string, database: string, error: Option<string>)

  /** `GET /api/health`: reads the error slot and nothing else. */
  function GetHealth(s: DS.Service): (h: Health)
    ensures h.error == s.connectionError
    ensures h.status == "healthy" <==> s.connectionError.None?
    ensures h.status == "degraded" <==> s.connectionError.Some?
    ensures h.database == "connected" <==> s.connectionError.None?
    ensures h.status == "degraded" <==> h.database == "disconnected"
  {
    var degraded := s.connectionError.Some?;
    Health(if degraded then "degraded" else "healthy",
           if degraded then "disconnected" else "connected",
           s.connectionError)
  }
}
