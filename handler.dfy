/**
 * The HTTP layer of handler/handlers.go: how repository and pool outcomes become status
 * codes and JSON bodies, the default priority of new tasks, and the token check in front
 * of the /api routes. The gin context is replaced by the response each handler writes.
 */
module Handler {
  import opened Wrappers
  import opened Model
  import opened Entity
  import opened Dto
  import Repository
  import PoolSpec

  const StatusOK := 200
  const StatusCreated := 201
  const StatusBadRequest := 400
  const StatusForbidden := 403
  const StatusInternalServerError := 500
  const StatusServiceUnavailable := 503

  /** The JSON values the handlers write. */
  datatype Json =
    | JString(text: string)
    | JBool(flag: bool)
    | JObject(members: seq<(string, Json)>)
    | JEntities(list: seq<TaskEntity>)
    | JTask(task: TaskResponse)

  datatype Response = Response(code: int, body: Json)

  function ErrorBody(message: string): Json {
    JObject([("error", JString(message))])
  }

  /** The repository error that means the pool handle is absent. */
  predicate Unavailable(err: Option<Repository.RepoError>) {
    err.Some? && Repository.Is(err.value, Repository.DatabaseUnavailable)
  }

  // ------------------------------------------------------------- HealthCheck

  function HealthBody(connected: bool): Json {
    JObject([("status", JString("ok")), ("database", JObject([("connected", JBool(connected))]))])
  }

  /**
   * HealthCheck, given its two IsHealthy observations: the body reports the first, the
   * status code follows the second, and "status" is "ok" either way.
   */
  function HealthCheck(first: bool, second: bool): (r: Response)
    ensures r.code == StatusOK || r.code == StatusServiceUnavailable
    ensures r.code == StatusServiceUnavailable <==> !second
    ensures r.body == HealthBody(first)
  {
    var status := HealthBody(first);
    if !second then Response(StatusServiceUnavailable, status) else Response(StatusOK, status)
  }

  /**
   * Against a pool state: a 200 means a live handle answered its ping, and with no handle
   * the answer is 503 with connected false. The two pings may disagree, and then the
   * body says connected while the code says unavailable.
   */
  lemma HealthCheckOfPool(s: PoolSpec.PoolState, ping1: bool, ping2: bool)
    ensures var r := HealthCheck(PoolSpec.Healthy(s, ping1), PoolSpec.Healthy(s, ping2));
      && (r.code == StatusOK ==> s.pool.Some? && ping2)
      && (s.pool.None? ==> r.code == StatusServiceUnavailable && r.body == HealthBody(false))
      && (s.pool.Some? && ping1 && !ping2 ==> r.code == StatusServiceUnavailable && r.body == HealthBody(true))
  {
  }

  /** After Close the health endpoint answers 503 with connected false. */
  lemma HealthCheckAfterClose(s: PoolSpec.PoolState, ping1: bool, ping2: bool)
    ensures var c := PoolSpec.Shutdown(s);
      HealthCheck(PoolSpec.Healthy(c, ping1), PoolSpec.Healthy(c, ping2))
        == Response(StatusServiceUnavailable, HealthBody(false))
  {
  }

  // --------------------------------------------------------- TaskListHandler

  const ListUnavailableMessage := "Database temporarily unavailable"
  const ListFailedMessage := "Не удалось получить список задач"

  /**
   * TaskListHandler: 503 when the error is ErrDatabaseUnavailable, 500 for any other
   * error, and otherwise 200 with the entities under "list".
   */
  function TaskListHandler(tasks: seq<TaskEntity>, err: Option<Repository.RepoError>): (r: Response)
    ensures r.code == StatusServiceUnavailable <==> Unavailable(err)
    ensures r.code == StatusInternalServerError <==> err.Some? && !Unavailable(err)
    ensures r.code == StatusOK <==> err.None?
    ensures r.code == StatusOK ==> r.body == JObject([("list", JEntities(tasks))])
  {
    if Unavailable(err) then Response(StatusServiceUnavailable, ErrorBody(ListUnavailableMessage))
    else if err.Some? then Response(StatusInternalServerError, ErrorBody(ListFailedMessage))
    else Response(StatusOK, JObject([("list", JEntities(tasks))]))
  }

  /**
   * GET /api/task/list end to end: no handle gives 503; a failed query, a row that does not
   * scan or an error from rows.Err() gives 500, even when rows were read; otherwise 200
   * with one entity per row in row order.
   */
  lemma ListEndToEnd(pool: Option<PoolSpec.Handle>, q: Repository.QueryResult)
    ensures var l := Repository.AllTasks(pool, q);
      var r := TaskListHandler(l.tasks, l.err);
      && (pool.None? ==> r == Response(StatusServiceUnavailable, ErrorBody(ListUnavailableMessage)))
      && (pool.Some? && q.QueryFailed? ==> r.code == StatusInternalServerError)
      && (pool.Some? && q.Rows? && q.rowsErr.Some? ==> r.code == StatusInternalServerError)
      && (pool.Some? && q.Rows? && (exists k :: 0 <= k < |q.scans| && q.scans[k].Err?) ==> r.code == StatusInternalServerError)
      && (pool.Some? && q.Rows? && q.rowsErr.None? && (forall k :: 0 <= k < |q.scans| ==> q.scans[k].Ok?) ==>
            r.code == StatusOK && |l.tasks| == |q.scans| &&
            forall k :: 0 <= k < |q.scans| ==> l.tasks[k] == q.scans[k].value)
  {
    var l := Repository.AllTasks(pool, q);
    if pool.Some? {
      match q
      case QueryFailed(e) =>
        assert !Repository.Is(Repository.Pg(e), Repository.DatabaseUnavailable);
        assert !Unavailable(l.err);
      case Rows(scans, rowsErr) =>
        Repository.CollectSucceeds(scans);
        match Repository.Collect(scans)
        case Err(e) =>
          assert !Repository.Is(Repository.Pg(e), Repository.DatabaseUnavailable);
          assert !Unavailable(l.err);
        case Ok(_) =>
          assert !Unavailable(l.err);
    }
  }

  // ------------------------------------------------------- CreateTaskHandler

  /** The outcome of binding the JSON body: an error message, or the task dto.ToTaskModel made of it. */
  datatype Bind = BindFailed(message: string) | Bound(task: Task)

  /** What the repository's CreateTask answers for a task. */
  type Creator = Task -> (TaskEntity, Option<Repository.RepoError>)

  /** The handler's response, and the task it passed to the repository, if any. */
  datatype Exchange = Exchange(response: Response, inserted: Option<Task>)

  const DefaultPriority := 3
  const CreateUnavailableMessage := "Database temporarily unavailable"
  const RetryMessage := "Please retry your request in a few moments"
  const CreateFailedMessage := "Failed to create task"

  /** A priority of 0 is replaced by 3; any other priority, and every other field, is kept. */
  function WithDefaultPriority(t: Task): (d: Task)
    ensures d.priority != 0
    ensures t.priority != 0 ==> d == t
    ensures t.priority == 0 ==> d == t.(priority := DefaultPriority)
  {
    if t.priority == 0 then t.(priority := DefaultPriority) else t
  }

  /** Applying the default twice is applying it once. */
  lemma WithDefaultPriorityIdempotent(t: Task)
    ensures WithDefaultPriority(WithDefaultPriority(t)) == WithDefaultPriority(t)
  {
  }

  /**
   * CreateTaskHandler: a body that does not bind is 400 and the repository is not called;
   * otherwise the task, with the default priority applied, goes to the repository, and its
   * answer gives 503 on ErrDatabaseUnavailable, 500 on any other error, and 201 with the
   * response record of the created row.
   */
  function CreateTaskHandler(req: Bind, create: Creator): (x: Exchange)
    ensures req.BindFailed? ==> x == Exchange(Response(StatusBadRequest, ErrorBody(req.message)), None)
    ensures req.Bound? ==> x.inserted == Some(WithDefaultPriority(req.task))
    ensures req.Bound? ==>
      var (row, err) := create(WithDefaultPriority(req.task));
      && (x.response.code == StatusServiceUnavailable <==> Unavailable(err))
      && (x.response.code == StatusInternalServerError <==> err.Some? && !Unavailable(err))
      && (x.response.code == StatusCreated <==> err.None?)
      && (err.None? ==> x.response.body == JTask(ToTaskResponse(ToModel(row))))
  {
    match req
    case BindFailed(message) => Exchange(Response(StatusBadRequest, ErrorBody(message)), None)
    case Bound(task) =>
      var t := WithDefaultPriority(task);
      var (created, err) := create(t);
      var response :=
        if Unavailable(err) then
          Response(StatusServiceUnavailable,
            JObject([("error", JString(CreateUnavailableMessage)), ("message", JString(RetryMessage))]))
        else if err.Some? then Response(StatusInternalServerError, ErrorBody(CreateFailedMessage))
        else Response(StatusCreated, JTask(ToTaskResponse(ToModel(created))));
      Exchange(response, Some(t))
  }

  /** The repository's CreateTask over a given handle and database answer, as the handler sees it. */
  function RepositoryCreator(pool: Option<PoolSpec.Handle>, outcome: Result<TaskEntity, Repository.PgError>): Creator {
    t => var s := Repository.CreateTask(pool, t, outcome); (s.entity, s.err)
  }

  /**
   * POST /api/task/create end to end: with no handle the answer is 503 and nothing is
   * inserted; with a handle the INSERT carries a nonzero priority (3 for a request that
   * left it 0), a database error is 500, and a stored row comes back as 201 with every
   * field of that row.
   */
  lemma CreateEndToEnd(pool: Option<PoolSpec.Handle>, task: Task, outcome: Result<TaskEntity, Repository.PgError>)
    ensures var x := CreateTaskHandler(Bound(task), RepositoryCreator(pool, outcome));
      var saved := Repository.CreateTask(pool, WithDefaultPriority(task), outcome);
      && (pool.None? ==> x.response.code == StatusServiceUnavailable && saved.sent.None?)
      && (pool.Some? ==> saved.sent.Some? && saved.sent.value.priority != 0)
      && (pool.Some? && task.priority == 0 ==> saved.sent.value.priority == DefaultPriority)
      && (pool.Some? && outcome.Err? ==> x.response.code == StatusInternalServerError)
      && (pool.Some? && outcome.Ok? ==>
            x.response == Response(StatusCreated, JTask(ToTaskResponse(ToModel(outcome.value)))))
  {
    var t := WithDefaultPriority(task);
    var saved := Repository.CreateTask(pool, t, outcome);
    assert RepositoryCreator(pool, outcome)(t) == (saved.entity, saved.err);
    if pool.Some? && outcome.Err? {
      assert saved.err == Some(Repository.Wrapped(Repository.CreateContext, Repository.Pg(outcome.error)));
    }
  }

  // ------------------------------------------------------------ authorization

  /** The token SetupRoutes installs in front of every /api route. */
  const ApiToken := "123"

  /** What the middleware does with a request: abort with a response, or pass it on. */
  datatype Gate = Abort(response: Response) | Next

  /**
   * authMiddlewareGroup: a request whose Authorization header (empty when missing) is not
   * exactly the token is aborted with 403 and {"error": "Forbidden"}; any other passes on.
   */
  function AuthMiddleware(token: string, header: string): (g: Gate)
    ensures g.Next? <==> header == token
    ensures g.Abort? ==> g.response == Response(StatusForbidden, ErrorBody("Forbidden"))
  {
    if header != token then Abort(Response(StatusForbidden, ErrorBody("Forbidden"))) else Next
  }

  /** A request to an /api route: the middleware runs first, and the handler's response is only written after Next. */
  function Guarded(header: string, handler: Response): (r: Response)
    ensures header != ApiToken ==> r.code == StatusForbidden
    ensures header == ApiToken ==> r == handler
  {
    match AuthMiddleware(ApiToken, header)
    case Abort(response) => response
    case Next => handler
  }

  /** Without the exact token no handler is reached: every answer is the same 403, whatever the handler would say. */
  lemma ForbiddenIgnoresHandler(header: string, a: Response, b: Response)
    requires header != ApiToken
    ensures Guarded(header, a) == Guarded(header, b) == Response(StatusForbidden, ErrorBody("Forbidden"))
  {
  }
}
