/**
 * The task repository of repository/postgresql/task.go. Each operation first reads the
 * live pool handle (Db.Pool.GetPool); an absent handle means ErrDatabaseUnavailable and
 * no query. What the database answers is an input: pgx's Query, QueryRow and Scan are
 * replaced by their outcomes.
 */
module Repository {
  import opened Wrappers
  import opened Model
  import opened Entity
  import PoolSpec

  /** Errors that come from pgx: no matching row (pgx.ErrNoRows) or any other failure. */
  datatype PgError = NoRows | PgFailure(detail: string)

  /** The errors the repository returns; `Wrapped` is fmt.Errorf("<context>: %w", inner). */
  datatype RepoError =
    | DatabaseUnavailable
    | Pg(cause: PgError)
    | Wrapped(context: string, inner: RepoError)

  /** errors.Is: the error, or any error it wraps, is the target. */
  function Is(err: RepoError, target: RepoError): (found: bool)
    ensures err == target ==> found
    ensures !err.Wrapped? ==> (found <==> err == target)
    ensures found && target.DatabaseUnavailable? ==> !err.Pg?
    decreases err
  {
    err == target || (err.Wrapped? && Is(err.inner, target))
  }

  const QueryContext := "failed to get tasks"
  const ScanContext := "failed to scan task"
  const CreateContext := "failed to create task"
  const UpdateContext := "failed to update task"
  const GetContext := "failed to get task"

  // ------------------------------------------------------------ GetAllTasks

  /** The answer to the list query: a query error, or the rows with each row's Scan outcome and rows.Err(). */
  datatype QueryResult =
    | QueryFailed(cause: PgError)
    | Rows(scans: seq<Result<TaskEntity, PgError>>, rowsErr: Option<PgError>)

  /** What GetAllTasks returns, and whether it sent a query at all. */
  datatype Listing = Listing(tasks: seq<TaskEntity>, err: Option<RepoError>, queried: bool)

  /** The rows' entities in order, or the error of the first row that failed to scan. */
  function Collect(scans: seq<Result<TaskEntity, PgError>>): (r: Result<seq<TaskEntity>, PgError>)
    ensures r.Ok? ==> |r.value| == |scans|
    ensures r.Err? ==> Err(r.error) in scans
    decreases |scans|
  {
    if scans == [] then Ok([])
    else match scans[0]
      case Err(e) => Err(e)
      case Ok(t) =>
        match Collect(scans[1..])
        case Err(e) => Err(e)
        case Ok(ts) => Ok([t] + ts)
  }

  /** GetAllTasks as a function of the handle and the database's answer. */
  function AllTasks(pool: Option<PoolSpec.Handle>, q: QueryResult): (r: Listing)
    ensures r.queried <==> pool.Some?
    ensures r.err.Some? ==> (Is(r.err.value, DatabaseUnavailable) <==> pool.None?)
    ensures r.tasks != [] ==> pool.Some? && q.Rows? && |r.tasks| == |q.scans|
  {
    if pool.None? then Listing([], Some(DatabaseUnavailable), false)
    else match q
      case QueryFailed(e) => Listing([], Some(Wrapped(QueryContext, Pg(e))), true)
      case Rows(scans, rowsErr) =>
        match Collect(scans)
        case Err(e) => Listing([], Some(Wrapped(ScanContext, Pg(e))), true)
        case Ok(ts) => Listing(ts, if rowsErr.Some? then Some(Pg(rowsErr.value)) else None, true)
  }

  /** When every row scans, the list holds one entity per row, in row order. */
  lemma {:induction false} CollectAllOk(scans: seq<Result<TaskEntity, PgError>>, ts: seq<TaskEntity>)
    requires |ts| == |scans|
    requires forall k :: 0 <= k < |scans| ==> scans[k] == Ok(ts[k])
    ensures Collect(scans) == Ok(ts)
    decreases |scans|
  {
    if scans != [] {
      CollectAllOk(scans[1..], ts[1..]);
      assert [ts[0]] + ts[1..] == ts;
    }
  }

  /** The first row that fails to scan decides the error. */
  lemma {:induction false} CollectFirstFailure(scans: seq<Result<TaskEntity, PgError>>, k: nat)
    requires k < |scans| && scans[k].Err?
    requires forall j :: 0 <= j < k ==> scans[j].Ok?
    ensures Collect(scans) == Err(scans[k].error)
    decreases k
  {
    if k > 0 {
      CollectFirstFailure(scans[1..], k - 1);
    }
  }

  /** Collect succeeds exactly when every row scans, and then gives the rows' entities in order. */
  lemma {:induction false} CollectSucceeds(scans: seq<Result<TaskEntity, PgError>>)
    ensures Collect(scans).Ok? <==> forall k :: 0 <= k < |scans| ==> scans[k].Ok?
    ensures Collect(scans).Ok? ==>
      |Collect(scans).value| == |scans| &&
      forall k :: 0 <= k < |scans| ==> Collect(scans).value[k] == scans[k].value
    decreases |scans|
  {
    if scans != [] {
      CollectSucceeds(scans[1..]);
      if scans[0].Ok? && Collect(scans[1..]).Ok? {
        forall k | 0 <= k < |scans| ensures Collect(scans).value[k] == scans[k].value {
          if k > 0 { assert scans[k] == scans[1..][k - 1]; }
        }
      }
      if forall k :: 0 <= k < |scans| ==> scans[k].Ok? {
        assert forall k :: 0 <= k < |scans| - 1 ==> scans[1..][k] == scans[k + 1];
      } else {
        var k :| 0 <= k < |scans| && scans[k].Err?;
        if k > 0 { assert scans[1..][k - 1] == scans[k]; }
      }
    }
  }

  /**
   * GetAllTasks: with no handle, ErrDatabaseUnavailable and no query; otherwise run the
   * query and scan the rows one by one, stopping at the first that fails.
   */
  method GetAllTasks(pool: Option<PoolSpec.Handle>, q: QueryResult)
    returns (tasks: seq<TaskEntity>, err: Option<RepoError>, queried: bool)
    ensures Listing(tasks, err, queried) == AllTasks(pool, q)
  {
    if pool.None? {
      return [], Some(DatabaseUnavailable), false;
    }
    match q {
      case QueryFailed(e) =>
        return [], Some(Wrapped(QueryContext, Pg(e))), true;
      case Rows(scans, rowsErr) =>
        tasks := [];
        var i := 0;
        while i < |scans|
          invariant 0 <= i <= |scans| && |tasks| == i
          invariant forall k :: 0 <= k < i ==> scans[k] == Ok(tasks[k])
        {
          match scans[i] {
            case Err(e) =>
              CollectFirstFailure(scans, i);
              return [], Some(Wrapped(ScanContext, Pg(e))), true;
            case Ok(t) =>
              tasks := tasks + [t];
          }
          i := i + 1;
        }
        CollectAllOk(scans, tasks);
        err := if rowsErr.Some? then Some(Pg(rowsErr.value)) else None;
        queried := true;
    }
  }

  /** With no handle, GetAllTasks returns ErrDatabaseUnavailable and sends no query. */
  lemma ListUnavailable(q: QueryResult)
    ensures var r := AllTasks(None, q);
      r.tasks == [] && r.err == Some(DatabaseUnavailable) && !r.queried
  {
  }

  /**
   * With a handle, the list is ErrDatabaseUnavailable never; a failed query is wrapped
   * with "failed to get tasks" and the list is empty.
   */
  lemma ListQueryFailure(h: PoolSpec.Handle, e: PgError)
    ensures var r := AllTasks(Some(h), QueryFailed(e));
      && r.queried && r.tasks == []
      && r.err == Some(Wrapped(QueryContext, Pg(e)))
      && Is(r.err.value, Pg(e)) && !Is(r.err.value, DatabaseUnavailable)
  {
  }

  /**
   * With a handle and rows that all scan, the list holds one entity per row in row order;
   * the error is rows.Err(), returned unwrapped beside the list.
   */
  lemma ListRowsInOrder(h: PoolSpec.Handle, scans: seq<Result<TaskEntity, PgError>>, rowsErr: Option<PgError>)
    requires forall k :: 0 <= k < |scans| ==> scans[k].Ok?
    ensures var r := AllTasks(Some(h), Rows(scans, rowsErr));
      && |r.tasks| == |scans|
      && (forall k :: 0 <= k < |scans| ==> r.tasks[k] == scans[k].value)
      && r.err == (if rowsErr.Some? then Some(Pg(rowsErr.value)) else None)
  {
    CollectSucceeds(scans);
  }

  /**
   * The first row that fails to scan aborts the list: an empty list and that row's error
   * wrapped with "failed to scan task".
   */
  lemma ListScanFailure(h: PoolSpec.Handle, scans: seq<Result<TaskEntity, PgError>>, rowsErr: Option<PgError>, k: nat)
    requires k < |scans| && scans[k].Err?
    requires forall j :: 0 <= j < k ==> scans[j].Ok?
    ensures var r := AllTasks(Some(h), Rows(scans, rowsErr));
      && r.tasks == []
      && r.err == Some(Wrapped(ScanContext, Pg(scans[k].error)))
      && !Is(r.err.value, DatabaseUnavailable)
  {
    CollectFirstFailure(scans, k);
  }

  /**
   * Rows after the first that fails to scan are never visited: two answers that agree
   * up to and including that row give the same result, whatever follows and whatever
   * rows.Err() says.
   */
  lemma ListIgnoresLaterRows(h: PoolSpec.Handle, scans: seq<Result<TaskEntity, PgError>>, other: seq<Result<TaskEntity, PgError>>,
                             rowsErr: Option<PgError>, otherErr: Option<PgError>, k: nat)
    requires k < |scans| && scans[k].Err?
    requires forall j :: 0 <= j < k ==> scans[j].Ok?
    requires k < |other| && other[..k + 1] == scans[..k + 1]
    ensures AllTasks(Some(h), Rows(other, otherErr)) == AllTasks(Some(h), Rows(scans, rowsErr))
  {
    assert forall j :: 0 <= j <= k ==> other[j] == other[..k + 1][j] == scans[..k + 1][j] == scans[j];
    CollectFirstFailure(scans, k);
    CollectFirstFailure(other, k);
  }

  // ------------------------------------------------------------- CreateTask

  /** The values bound to the INSERT's placeholders $1 .. $4. */
  datatype InsertArgs = InsertArgs(title: string, description: string, status: TaskStatus, priority: int)

  /** What CreateTask returns, and the INSERT it sent, if any. */
  datatype Saved = Saved(entity: TaskEntity, err: Option<RepoError>, sent: Option<InsertArgs>)

  /**
   * CreateTask: with no handle, the zero entity and ErrDatabaseUnavailable; otherwise the
   * task's title, description, status and priority are inserted, and the row the database
   * returns comes back, or on failure the zero entity and the error wrapped with
   * "failed to create task".
   */
  function CreateTask(pool: Option<PoolSpec.Handle>, task: Task, outcome: Result<TaskEntity, PgError>): (r: Saved)
    ensures r.sent.Some? <==> pool.Some?
    ensures r.sent.Some? ==> r.sent.value == InsertArgs(task.title, task.description, task.status, task.priority)
    ensures r.err.None? <==> pool.Some? && outcome.Ok?
    ensures r.err.None? ==> r.entity == outcome.value
    ensures r.err.Some? ==> r.entity == ZeroEntity
    ensures r.err.Some? ==> (Is(r.err.value, DatabaseUnavailable) <==> pool.None?)
  {
    if pool.None? then Saved(ZeroEntity, Some(DatabaseUnavailable), None)
    else
      var sent := Some(InsertArgs(task.title, task.description, task.status, task.priority));
      match outcome
      case Err(e) => Saved(ZeroEntity, Some(Wrapped(CreateContext, Pg(e))), sent)
      case Ok(row) => Saved(row, None, sent)
  }

  // ------------------------------------------------------------- UpdateTask

  /** The fields of the update request that UpdateTask reads. */
  datatype UpdateRequest = UpdateRequest(id: int, title: string, description: string, priority: int)

  datatype Changed = Changed(entity: TaskEntity, err: Option<RepoError>, queried: bool)

  /**
   * UpdateTask: with no handle, the zero entity and ErrDatabaseUnavailable and no query;
   * otherwise the returned row, or the zero entity and the error wrapped with
   * "failed to update task".
   */
  function UpdateTask(pool: Option<PoolSpec.Handle>, req: UpdateRequest, outcome: Result<TaskEntity, PgError>): (r: Changed)
    ensures r.queried <==> pool.Some?
    ensures r.err.None? <==> pool.Some? && outcome.Ok?
    ensures r.err.None? ==> r.entity == outcome.value
    ensures r.err.Some? ==> r.entity == ZeroEntity
    ensures r.err.Some? ==> (Is(r.err.value, DatabaseUnavailable) <==> pool.None?)
  {
    if pool.None? then Changed(ZeroEntity, Some(DatabaseUnavailable), false)
    else match outcome
      case Err(e) => Changed(ZeroEntity, Some(Wrapped(UpdateContext, Pg(e))), true)
      case Ok(row) => Changed(row, None, true)
  }

  // ------------------------------------------------------------ GetTaskById

  /** What GetTaskById returns, and the id it looked up, if it sent a query. */
  datatype Fetched = Fetched(entity: TaskEntity, err: Option<RepoError>, queried: Option<string>)

  /**
   * The error pgx's Scan returns for the code as written: every destination it is handed
   * is a value, not a pointer, and pgx has no plan for scanning into a value, so the first
   * destination already fails. Only the prefix of pgx's message is kept.
   */
  const NonPointerScan := "can't scan into dest[0]"

  /**
   * GetTaskById as written: Scan is handed copies of the fields of a zero entity. A row
   * that is found makes Scan fail on its first destination, so the caller gets the zero
   * entity and that failure wrapped with "failed to get task"; every other path is the
   * same as in GetTaskById.
   */
  function GetTaskByIdAsWritten(pool: Option<PoolSpec.Handle>, id: string, outcome: Result<TaskEntity, PgError>): (r: Fetched)
    ensures r.entity == ZeroEntity
    ensures r.err.Some?
    ensures pool.Some? && outcome.Ok? ==> r.err == Some(Wrapped(GetContext, Pg(PgFailure(NonPointerScan))))
    ensures pool.None? || outcome.Err? ==> r == GetTaskById(pool, id, outcome)
  {
    if pool.None? then Fetched(ZeroEntity, Some(DatabaseUnavailable), None)
    else match outcome
      case Err(NoRows) => Fetched(ZeroEntity, Some(Pg(NoRows)), Some(id))
      case Err(e) => Fetched(ZeroEntity, Some(Wrapped(GetContext, Pg(e))), Some(id))
      case Ok(_) => Fetched(ZeroEntity, Some(Wrapped(GetContext, Pg(PgFailure(NonPointerScan)))), Some(id))
  }

  /**
   * A stored task is found, yet GetTaskById as written reports a failure that is neither
   * "unavailable" nor "not found" and returns the zero entity; the corrected GetTaskById
   * returns the row with no error.
   */
  lemma GetTaskByIdLosesRow(h: PoolSpec.Handle, id: string, row: TaskEntity)
    ensures GetTaskByIdAsWritten(Some(h), id, Ok(row)).err.Some?
    ensures !Is(GetTaskByIdAsWritten(Some(h), id, Ok(row)).err.value, Pg(NoRows))
    ensures !Is(GetTaskByIdAsWritten(Some(h), id, Ok(row)).err.value, DatabaseUnavailable)
    ensures row != ZeroEntity ==> GetTaskByIdAsWritten(Some(h), id, Ok(row)).entity != row
    ensures GetTaskById(Some(h), id, Ok(row)) == Fetched(row, None, Some(id))
  {
  }

  /**
   * GetTaskById with the row scanned into the entity: with no handle, the zero entity and
   * ErrDatabaseUnavailable; a missing row is pgx.ErrNoRows returned as it is; any other
   * error is wrapped with "failed to get task"; a found row is returned.
   */
  function GetTaskById(pool: Option<PoolSpec.Handle>, id: string, outcome: Result<TaskEntity, PgError>): (r: Fetched)
    ensures r.queried == if pool.Some? then Some(id) else None
    ensures r.err.None? <==> pool.Some? && outcome.Ok?
    ensures r.err.None? ==> r.entity == outcome.value
    ensures r.err.Some? ==> r.entity == ZeroEntity
    ensures pool.None? ==> r.err == Some(DatabaseUnavailable)
    ensures pool.Some? && outcome == Err(NoRows) ==> r.err == Some(Pg(NoRows))
    ensures r.err.Some? ==> (Is(r.err.value, Pg(NoRows)) <==> pool.Some? && outcome == Err(NoRows))
  {
    if pool.None? then Fetched(ZeroEntity, Some(DatabaseUnavailable), None)
    else match outcome
      case Err(NoRows) => Fetched(ZeroEntity, Some(Pg(NoRows)), Some(id))
      case Err(e) => Fetched(ZeroEntity, Some(Wrapped(GetContext, Pg(e))), Some(id))
      case Ok(row) => Fetched(row, None, Some(id))
  }

  /** With no handle every operation answers ErrDatabaseUnavailable and sends nothing. */
  lemma DegradedRepository(q: QueryResult, task: Task, req: UpdateRequest, id: string, outcome: Result<TaskEntity, PgError>)
    ensures AllTasks(None, q).err == Some(DatabaseUnavailable) && !AllTasks(None, q).queried
    ensures CreateTask(None, task, outcome) == Saved(ZeroEntity, Some(DatabaseUnavailable), None)
    ensures UpdateTask(None, req, outcome) == Changed(ZeroEntity, Some(DatabaseUnavailable), false)
    ensures GetTaskById(None, id, outcome) == Fetched(ZeroEntity, Some(DatabaseUnavailable), None)
  {
  }
}
