/** The Node stack's database module: the connection-string parser, the
    `connectionError` slot kept by `initializeConnection` and `query`, and
    the demo data. */
module NodeDb {
  import opened Wrappers
  import opened Text

  /** A regular expression of the form `/(?:a1|a2|...)([^stops]+)/i`, with
      each alternative written in lower case. */
  datatype Pattern = Pattern(alternatives: seq<string>, stops: set<char>)

  /** `/Server=tcp:([^,;]+)/i`. */
  const ServerPattern: Pattern := Pattern(["server=tcp:"], {',', ';'})

  /** `/(?:Initial Catalog|Database)=([^;]+)/i`. */
  const DatabasePattern: Pattern := Pattern(["initial catalog=", "database="], {';'})

  /** Alternative `a` matches at position `p`: its text, ignoring ASCII
      case, followed by at least one character outside the stop set. */
  predicate MatchesAt(s: string, pat: Pattern, p: nat, a: nat) {
    && a < |pat.alternatives|
    && p + |pat.alternatives[a]| < |s|
    && LowerAscii(s[p..p + |pat.alternatives[a]|]) == pat.alternatives[a]
    && s[p + |pat.alternatives[a]|] !in pat.stops
  }

  /** The first alternative that matches at `p`, trying them in order. */
  function AlternativeAt(s: string, pat: Pattern, p: nat, a: nat): (r: Option<nat>)
    ensures r.None? ==> forall b | a <= b :: !MatchesAt(s, pat, p, b)
    ensures r.Some? ==> a <= r.value && MatchesAt(s, pat, p, r.value)
    ensures r.Some? ==> forall b | a <= b < r.value :: !MatchesAt(s, pat, p, b)
    decreases |pat.alternatives| - a
  {
    if a >= |pat.alternatives| then None
    else if MatchesAt(s, pat, p, a) then Some(a)
    else AlternativeAt(s, pat, p, a + 1)
  }

  /** `String.prototype.match` without the `g` flag: scanning from `from`,
      the first position at which the pattern matches, with the
      alternative that matched there. */
  function Search(s: string, pat: Pattern, from: nat): (r: Option<(nat, nat)>)
    ensures r.Some? ==> from <= r.value.0 && MatchesAt(s, pat, r.value.0, r.value.1)
    decreases |s| - from
  {
    if from >= |s| then None
    else match AlternativeAt(s, pat, from, 0)
      case Some(a) => Some((from, a))
      case None => Search(s, pat, from + 1)
  }

  /** The scan finds the leftmost match, and the first alternative at it;
      it finds nothing only when nothing matches. */
  lemma {:induction false} SearchLeftmost(s: string, pat: Pattern, from: nat)
    ensures Search(s, pat, from).None? ==> forall p, a | from <= p :: !MatchesAt(s, pat, p, a)
    ensures Search(s, pat, from).Some? ==>
      var (p, a) := Search(s, pat, from).value;
      && from <= p && MatchesAt(s, pat, p, a)
      && (forall q, b | from <= q < p :: !MatchesAt(s, pat, q, b))
      && (forall b | 0 <= b < a :: !MatchesAt(s, pat, p, b))
    decreases |s| - from
  {
    if from < |s| && AlternativeAt(s, pat, from, 0).None? {
      SearchLeftmost(s, pat, from + 1);
    }
  }

  /** Conversely, a leftmost match with no earlier alternative at its
      position is what the scan returns. */
  lemma {:induction false} SearchFinds(s: string, pat: Pattern, from: nat, p: nat, a: nat)
    requires from <= p && MatchesAt(s, pat, p, a)
    requires forall q, b | from <= q < p :: !MatchesAt(s, pat, q, b)
    requires forall b | 0 <= b < a :: !MatchesAt(s, pat, p, b)
    ensures Search(s, pat, from) == Some((p, a))
    decreases p - from
  {
    if from < p {
      SearchFinds(s, pat, from + 1, p, a);
    }
  }

  /** The greedy `[^stops]+` group: the longest run from `i` free of stop
      characters. */
  function Run(s: string, i: nat, stops: set<char>): (r: string)
    requires i <= |s|
    ensures i + |r| <= |s| && s[i..i + |r|] == r
    ensures forall j | 0 <= j < |r| :: r[j] !in stops
    ensures i + |r| == |s| || s[i + |r|] in stops
    decreases |s| - i
  {
    if i == |s| || s[i] in stops then [] else [s[i]] + Run(s, i + 1, stops)
  }

  /** The first capture group of the leftmost match, if there is one. */
  function Capture(s: string, pat: Pattern): Option<string> {
    SearchLeftmost(s, pat, 0);
    match Search(s, pat, 0)
    case None => None
    case Some((p, a)) => Some(Run(s, p + |pat.alternatives[a]|, pat.stops))
  }

  /** A capture exists exactly when the pattern matches somewhere; it is
      the longest stop-free run after the leftmost match, hence nonempty. */
  lemma CaptureMatches(s: string, pat: Pattern)
    ensures Capture(s, pat).None? <==> forall p, a :: !MatchesAt(s, pat, p, a)
    ensures Capture(s, pat).Some? ==>
      && |Capture(s, pat).value| > 0
      && forall j | 0 <= j < |Capture(s, pat).value| :: Capture(s, pat).value[j] !in pat.stops
  {
    SearchLeftmost(s, pat, 0);
  }

  /** What the scan returns is the leftmost match with the first
      alternative at it, and the capture is the longest stop-free run
      that follows its text. */
  lemma CaptureAtLeftmost(s: string, pat: Pattern, p: nat, a: nat)
    requires Search(s, pat, 0) == Some((p, a))
    ensures MatchesAt(s, pat, p, a)
    ensures forall q: nat, b: nat | q < p :: !MatchesAt(s, pat, q, b)
    ensures forall b: nat | b < a :: !MatchesAt(s, pat, p, b)
    ensures Capture(s, pat) == Some(Run(s, p + |pat.alternatives[a]|, pat.stops))
  {
    SearchLeftmost(s, pat, 0);
  }

  /** Conversely, the run after any leftmost match, taken with its first
      matching alternative, is the capture. */
  lemma LeftmostCapture(s: string, pat: Pattern, p: nat, a: nat)
    requires MatchesAt(s, pat, p, a)
    requires forall q: nat, b: nat | q < p :: !MatchesAt(s, pat, q, b)
    requires forall b: nat | b < a :: !MatchesAt(s, pat, p, b)
    ensures Capture(s, pat) == Some(Run(s, p + |pat.alternatives[a]|, pat.stops))
  {
    SearchFinds(s, pat, 0, p, a);
  }

  datatype SqlConfig = SqlConfig(server: string, database: string)

  const InvalidFormatMessage: string := "Invalid connection string format"

  /** The parsing step of `initializeConnection`. */
  function ParseConnectionString(cs: string): (r: Outcome<SqlConfig>)
    ensures r.Done? <==> Capture(cs, ServerPattern).Some? && Capture(cs, DatabasePattern).Some?
    ensures r.Done? ==> Capture(cs, ServerPattern) == Some(r.value.server)
    ensures r.Done? ==> Capture(cs, DatabasePattern) == Some(r.value.database)
    ensures r.Done? ==> |r.value.server| > 0 && |r.value.database| > 0
    ensures r.Done? ==> ',' !in r.value.server && ';' !in r.value.server && ';' !in r.value.database
    ensures r.Threw? ==> r.message == InvalidFormatMessage
  {
    CaptureMatches(cs, ServerPattern);
    CaptureMatches(cs, DatabasePattern);
    match (Capture(cs, ServerPattern), Capture(cs, DatabasePattern))
    case (Some(server), Some(database)) => Done(SqlConfig(server, database))
    case _ => Threw(InvalidFormatMessage)
  }

  /** Parsing fails exactly when one of the two patterns matches nowhere. */
  lemma ParseFailsWithoutMatch(cs: string)
    ensures ParseConnectionString(cs).Threw? <==>
      || (forall p, a :: !MatchesAt(cs, ServerPattern, p, a))
      || (forall p, a :: !MatchesAt(cs, DatabasePattern, p, a))
  {
    CaptureMatches(cs, ServerPattern);
    CaptureMatches(cs, DatabasePattern);
  }

  /** `MatchesAt` character by character. */
  lemma MatchesAtChars(s: string, pat: Pattern, p: nat, a: nat)
    requires a < |pat.alternatives| && p + |pat.alternatives[a]| < |s|
    ensures MatchesAt(s, pat, p, a) <==>
      && (forall i | 0 <= i < |pat.alternatives[a]| :: ToLowerAscii(s[p + i]) == pat.alternatives[a][i])
      && s[p + |pat.alternatives[a]|] !in pat.stops
  {
    var alt := pat.alternatives[a];
    var low := LowerAscii(s[p..p + |alt|]);
    assert forall i | 0 <= i < |alt| :: low[i] == ToLowerAscii(s[p + i]);
    if forall i | 0 <= i < |alt| :: ToLowerAscii(s[p + i]) == alt[i] {
      assert low == alt;
    }
  }

  /** One character that differs rules a match out. */
  lemma Mismatch(s: string, pat: Pattern, p: nat, a: nat, i: nat)
    requires a < |pat.alternatives| && i < |pat.alternatives[a]| && p + |pat.alternatives[a]| < |s|
    requires ToLowerAscii(s[p + i]) != pat.alternatives[a][i]
    ensures !MatchesAt(s, pat, p, a)
  {
    assert LowerAscii(s[p..p + |pat.alternatives[a]|])[i] == ToLowerAscii(s[p + i]);
  }

  /** A typical Azure SQL connection string. */
  const TypicalConnectionString: string := "Server=tcp:db,1433;Database=app"

  lemma TypicalServerMatch()
    ensures MatchesAt(TypicalConnectionString, ServerPattern, 0, 0)
  {
    MatchesAtChars(TypicalConnectionString, ServerPattern, 0, 0);
  }

  lemma TypicalServerRun()
    ensures Run(TypicalConnectionString, 11, ServerPattern.stops) == "db"
  {
    var cs := TypicalConnectionString;
    assert cs[11] == 'd' && cs[12] == 'b' && cs[13] == ',';
    assert Run(cs, 13, ServerPattern.stops) == [];
    assert Run(cs, 12, ServerPattern.stops) == ['b'] + Run(cs, 13, ServerPattern.stops);
    assert Run(cs, 11, ServerPattern.stops) == ['d'] + Run(cs, 12, ServerPattern.stops);
  }

  /** The server group stops at the port separator. */
  lemma TypicalServer()
    ensures Capture(TypicalConnectionString, ServerPattern) == Some("db")
  {
    TypicalServerMatch();
    TypicalServerRun();
    SearchFinds(TypicalConnectionString, ServerPattern, 0, 0, 0);
  }

  lemma TypicalEqualsSigns(k: nat)
    requires 8 <= k < |TypicalConnectionString| && k != 27
    ensures TypicalConnectionString[k] != '='
  {
  }

  /** Neither database alternative matches before position 19. */
  lemma TypicalNoEarlierDatabase(q: nat, a: nat)
    requires q < 19
    ensures !MatchesAt(TypicalConnectionString, DatabasePattern, q, a)
  {
    var cs := TypicalConnectionString;
    if a == 0 && q + 16 < |cs| {
      if q == 12 {
        Mismatch(cs, DatabasePattern, q, 0, 0);
      } else {
        TypicalEqualsSigns(q + 15);
        Mismatch(cs, DatabasePattern, q, 0, 15);
      }
    } else if a == 1 && q + 9 < |cs| {
      TypicalEqualsSigns(q + 8);
      Mismatch(cs, DatabasePattern, q, 1, 8);
    }
  }

  lemma TypicalDatabaseMatch()
    ensures AlternativeAt(TypicalConnectionString, DatabasePattern, 19, 0) == Some(1)
  {
    MatchesAtChars(TypicalConnectionString, DatabasePattern, 19, 1);
  }

  lemma TypicalDatabaseRun()
    ensures Run(TypicalConnectionString, 28, DatabasePattern.stops) == "app"
  {
    assert Run(TypicalConnectionString, 31, DatabasePattern.stops) == [];
  }

  /** The leftmost database match is the second alternative at 19. */
  lemma TypicalDatabaseSearch()
    ensures Search(TypicalConnectionString, DatabasePattern, 0) == Some((19, 1))
  {
    forall q, a | 0 <= q < 19
      ensures !MatchesAt(TypicalConnectionString, DatabasePattern, q, a)
    {
      TypicalNoEarlierDatabase(q, a);
    }
    TypicalDatabaseMatch();
    SearchFinds(TypicalConnectionString, DatabasePattern, 0, 19, 1);
  }

  /** The database group is found through the second alternative. */
  lemma TypicalDatabase()
    ensures Capture(TypicalConnectionString, DatabasePattern) == Some("app")
  {
    TypicalDatabaseSearch();
    TypicalDatabaseRun();
  }

  /** Parsing the typical string yields its host and database. */
  lemma ParseTypicalConnectionString()
    ensures ParseConnectionString(TypicalConnectionString) == Done(SqlConfig("db", "app"))
  {
    TypicalServer();
    TypicalDatabase();
  }

  // ---------------------------------------------------------------------
  // The error slot

  /** `{message, location, timestamp}`. */
  datatype ConnectionError = ConnectionError(message: string, location: string, timestamp: int)

  /** The module's two variables, `pool` (present or null) and
      `connectionError`. */
  datatype State = State(hasPool: bool, connectionError: Option<ConnectionError>)

  /** `process.env.SQL_CONNECTION_STRING`, the outcome of `sql.connect`,
      and the clock. */
  datatype Env = Env(connectionString: Option<string>, connect: Outcome<()>, now: int)

  const NotSetMessage: string := "SQL_CONNECTION_STRING environment variable not set"
  const NotAvailableMessage: string := "Database connection not available"

  /** What `initializeConnection` throws internally, if anything. */
  function ConnectFailure(env: Env): (r: Option<string>)
    ensures (env.connectionString.None? || env.connectionString == Some("")) ==> r == Some(NotSetMessage)
    ensures env.connect.Threw? ==> r.Some?
    ensures r.None? ==> env.connectionString.Some? && |env.connectionString.value| > 0 && env.connect.Done?
    ensures r.Some? ==>
      r.value == NotSetMessage || r.value == InvalidFormatMessage ||
      (env.connect.Threw? && r.value == env.connect.message)
  {
    match env.connectionString
    case None => Some(NotSetMessage)
    case Some(cs) =>
      if |cs| == 0 then Some(NotSetMessage)
      else match ParseConnectionString(cs)
        case Threw(m) => Some(m)
        case Done(_) =>
          match env.connect
          case Threw(m) => Some(m)
          case Done(_) => None
  }

  /** `initializeConnection`: never throws. Success opens the pool, clears
      the slot and returns true; a failure records its message in the slot
      and returns false, leaving the pool as it was. */
  function InitializeConnection(st: State, env: Env): (r: (State, bool))
    ensures r.1 ==> r.0 == State(true, None)
    ensures !r.1 ==>
      && r.0.hasPool == st.hasPool
      && r.0.connectionError.Some?
      && r.0.connectionError.value.location == "db.js:initializeConnection"
      && r.0.connectionError.value.timestamp == env.now
    ensures (env.connectionString.None? || env.connectionString == Some("")) ==>
      !r.1 && r.0.connectionError.value.message == NotSetMessage
    ensures env.connect.Threw? ==> !r.1
  {
    match ConnectFailure(env)
    case None => (State(true, None), true)
    case Some(m) => (st.(connectionError := Some(ConnectionError(m, "db.js:initializeConnection", env.now))), false)
  }

  /** Initialisation succeeds exactly when the connection string is set,
      parses, and the connection opens; otherwise the slot holds the
      message of the step that failed. */
  lemma InitializeConnectionOutcome(st: State, env: Env)
    ensures
      var r := InitializeConnection(st, env);
      r.1 <==>
        && env.connectionString.Some? && |env.connectionString.value| > 0
        && ParseConnectionString(env.connectionString.value).Done?
        && env.connect.Done?
    ensures
      var r := InitializeConnection(st, env);
      env.connectionString.Some? && |env.connectionString.value| > 0 &&
      ParseConnectionString(env.connectionString.value).Threw? ==>
        r.0.connectionError.value.message == InvalidFormatMessage
    ensures
      var r := InitializeConnection(st, env);
      env.connectionString.Some? && |env.connectionString.value| > 0 &&
      ParseConnectionString(env.connectionString.value).Done? && env.connect.Threw? ==>
        r.0.connectionError.value.message == env.connect.message
  {
  }

  /** `{success: true, data}` or `{success: false, error}`. */
  datatype QueryResult<R> = Succeeded(data: seq<R>) | Failed(error: ConnectionError)

  /** `query`: never throws. Without a pool it first tries to initialise
      one; with no pool after that it fails with "Database connection not
      available". A failure is recorded in the slot and the very same
      object is returned; a success leaves the slot alone. */
  function Query<R>(st: State, env: Env, run: Outcome<seq<R>>): (r: (State, QueryResult<R>))
    ensures st.hasPool ==> r.0.hasPool && (r.1.Succeeded? <==> run.Done?)
    ensures st.hasPool && run.Done? ==> r.0 == st
    ensures r.1.Succeeded? ==> r.0.hasPool && run == Done(r.1.data)
    ensures r.1.Failed? ==>
      && r.0.connectionError == Some(r.1.error)
      && r.1.error.location == "db.js:query"
      && r.1.error.timestamp == env.now
    ensures r.1.Failed? && !r.0.hasPool ==> r.1.error.message == NotAvailableMessage
    ensures r.1.Failed? && r.0.hasPool ==> run == Threw(r.1.error.message)
  {
    var st1 := if st.hasPool then st else InitializeConnection(st, env).0;
    if !st1.hasPool then
      var e := ConnectionError(NotAvailableMessage, "db.js:query", env.now);
      (st1.(connectionError := Some(e)), Failed(e))
    else match run
      case Done(rows) => (st1, Succeeded(rows))
      case Threw(m) =>
        var e := ConnectionError(m, "db.js:query", env.now);
        (st1.(connectionError := Some(e)), Failed(e))
  }

  /** Without a pool, `query` first runs `initializeConnection`: it
      succeeds exactly when that initialisation and the statement do, and
      a failed initialisation is reported as "Database connection not
      available". */
  lemma QueryInitialisesFirst<R>(st: State, env: Env, run: Outcome<seq<R>>)
    requires !st.hasPool
    ensures Query(st, env, run).1.Succeeded? <==> InitializeConnection(st, env).1 && run.Done?
    ensures !InitializeConnection(st, env).1 ==>
      Query(st, env, run).1 == Failed(ConnectionError(NotAvailableMessage, "db.js:query", env.now))
    ensures InitializeConnection(st, env).1 && run.Done? ==> Query(st, env, run).0 == State(true, None)
  {
  }

  /** Once a pool exists, only `initializeConnection` clears the slot: a
      successful query keeps a stale error. */
  lemma SuccessfulQueryKeepsStaleError<R>(e: ConnectionError, env: Env, rows: seq<R>)
    ensures Query(State(true, Some(e)), env, Done(rows)).0.connectionError == Some(e)
    ensures Query(State(true, Some(e)), env, Done(rows)).1 == Succeeded(rows)
  {
  }

  // ---------------------------------------------------------------------
  // Demo data

  datatype DemoExpense = DemoExpense(
    expenseId: int, userName: string, categoryName: string, amountMinor: int, currency: string,
    expenseDate: string, description: string, statusName: string, submittedAt: Option<string>)

  datatype DemoCategory = DemoCategory(categoryId: int, categoryName: string)

  datatype DemoStatus = DemoStatus(statusId: int, statusName: string)

  /** The fixture; `loadedAt` is `new Date().toISOString()` when the module
      was loaded. */
  function DemoExpenses(loadedAt: string): seq<DemoExpense> {
    [ DemoExpense(1, "Demo User", "Travel", 2540, "GBP", "2025-10-20",
                  "Taxi from airport to client site", "Submitted", Some(loadedAt)),
      DemoExpense(2, "Demo User", "Meals", 1425, "GBP", "2025-09-15",
                  "Client lunch meeting", "Approved", Some(loadedAt)),
      DemoExpense(3, "Demo User", "Supplies", 799, "GBP", "2025-11-01",
                  "Office stationery", "Draft", None) ]
  }

  const DemoCategories: seq<DemoCategory> :=
    [ DemoCategory(1, "Travel"), DemoCategory(2, "Meals"), DemoCategory(3, "Supplies"),
      DemoCategory(4, "Accommodation"), DemoCategory(5, "Other") ]

  const DemoStatuses: seq<DemoStatus> :=
    [ DemoStatus(1, "Draft"), DemoStatus(2, "Submitted"), DemoStatus(3, "Approved"), DemoStatus(4, "Rejected") ]

  /** The fixture's promises: three GBP expenses with ids 1 to 3 and positive
      amounts, only the first Submitted, the Draft one never submitted; the
      four statuses numbered 1 to 4. */
  lemma DemoDataShape(loadedAt: string)
    ensures |DemoExpenses(loadedAt)| == 3
    ensures forall i | 0 <= i < 3 ::
      var e := DemoExpenses(loadedAt)[i];
      e.expenseId == i + 1 && e.currency == "GBP" && e.amountMinor > 0
    ensures forall i | 0 <= i < 3 ::
      DemoExpenses(loadedAt)[i].statusName == "Submitted" <==> i == 0
    ensures forall i | 0 <= i < 3 ::
      DemoExpenses(loadedAt)[i].statusName == "Draft" ==> DemoExpenses(loadedAt)[i].submittedAt.None?
    ensures |DemoStatuses| == 4
    ensures forall i | 0 <= i < 4 :: DemoStatuses[i].statusId == i + 1
    ensures |DemoCategories| == 5
  {
  }

  /** What `getDummyData` hands back. */
  datatype DummyData =
    | Expenses(expenses: seq<DemoExpense>)
    | Categories(categories: seq<DemoCategory>)
    | Statuses(statuses: seq<DemoStatus>)
    | EmptyList
    | InheritedMember(name: string)

  /** The fixture's own property names. */
  predicate IsFixtureKey(key: string) {
    key == "expenses" || key == "categories" || key == "statuses"
  }

  /** The names every plain object inherits from `Object.prototype`; each
      is a function or object, so `||` keeps it. */
  const PrototypeMembers: seq<string> :=
    [ "constructor", "__defineGetter__", "__defineSetter__", "hasOwnProperty",
      "__lookupGetter__", "__lookupSetter__", "isPrototypeOf", "propertyIsEnumerable",
      "toString", "valueOf", "__proto__", "toLocaleString" ]

  /** `dummyData[type] || []` as written: property lookup also finds the
      inherited members. */
  function GetDummyDataAsWritten(loadedAt: string, key: string): (r: DummyData)
    ensures r.EmptyList? <==> !IsFixtureKey(key) && key !in PrototypeMembers
    ensures r.InheritedMember? <==> key in PrototypeMembers
  {
    if key == "expenses" then Expenses(DemoExpenses(loadedAt))
    else if key == "categories" then Categories(DemoCategories)
    else if key == "statuses" then Statuses(DemoStatuses)
    else if key in PrototypeMembers then InheritedMember(key)
    else EmptyList
  }

  /** A key that is not fixture data still yields something other than an
      empty list. */
  lemma GetDummyDataAsWrittenLeaksPrototype(loadedAt: string)
    ensures !IsFixtureKey("constructor")
    ensures GetDummyDataAsWritten(loadedAt, "constructor") == InheritedMember("constructor")
    ensures GetDummyDataAsWritten(loadedAt, "constructor") != EmptyList
  {
    assert PrototypeMembers[0] == "constructor";
  }

  /** `getDummyData` as intended: the fixture entry for its own three keys,
      an empty list for every other key. */
  function GetDummyData(loadedAt: string, key: string): (r: DummyData)
    ensures r.EmptyList? <==> !IsFixtureKey(key)
    ensures key == "expenses" ==> r == Expenses(DemoExpenses(loadedAt))
    ensures key == "categories" ==> r == Categories(DemoCategories)
    ensures key == "statuses" ==> r == Statuses(DemoStatuses)
    ensures !r.InheritedMember?
  {
    if key == "expenses" then Expenses(DemoExpenses(loadedAt))
    else if key == "categories" then Categories(DemoCategories)
    else if key == "statuses" then Statuses(DemoStatuses)
    else EmptyList
  }

  /** The two agree on every key except the inherited member names. */
  lemma GetDummyDataAgrees(loadedAt: string, key: string)
    requires key !in PrototypeMembers
    ensures GetDummyDataAsWritten(loadedAt, key) == GetDummyData(loadedAt, key)
  {
  }
}
