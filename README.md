# myApi task service: pool manager, repository and handlers in Dafny

myApi is a small Go HTTP service for tasks stored in PostgreSQL. This project models its
core and proves properties about the model:

- **The database pool manager** (`db/db.go`). `NewPool` makes a first connection
  attempt, but a failed connection does not stop the service. A background health
  check wakes every 30 s. It pings the live pool, and when the handle is absent or the
  ping fails it calls `reconnect`. `reconnect` closes and clears the old handle, then
  makes up to 5 build-and-ping attempts and sleeps 2, 4, 6 and 8 s between them.
  `GetPool` and `IsHealthy` read the handle. `Close` cancels the background context and
  closes the live pool.
  - `PoolSpec` (`pool_spec.dfy`) is the manager as a pure state machine.
  - `PoolLemmas` (`pool_lemmas.dfy`) proves what the manager promises.
  - `Db.Pool` (`db_pool.dfy`) is a class whose methods update its fields in place. Each
    method is proved equal to the corresponding state-machine step.
  - pgx is replaced by an oracle. Every build-and-ping is an `Attempt(buildOk, pingOk)`,
    and every later ping is a boolean. Pools are numbered `Handle`s in the order they were
    built. The state also records what the outside world sees: factory calls, pools built,
    pools closed (in order) and the sleeps.
- **The DSN string** built by `ParseConf` (`Dsn`, `db_dsn.dfy`). A reader for that string
  proves the field order by a round trip.
- **The task records**: `Model.Task`, `Entity.TaskEntity` with `ToModel`/`FromModel`, and
  `Dto.TaskResponse` with `ToTaskResponse`.
- **The repository** (`Repository`, `repository/postgresql/task.go`).
  - Every operation first reads the handle, and an absent handle gives
    `ErrDatabaseUnavailable` without sending a query.
  - `GetAllTasks` keeps its row loop as a method.
  - Errors are a datatype with a `Wrapped` case for `fmt.Errorf("...: %w")`, and `Is`
    models `errors.Is`.
- **The HTTP layer** (`Handler`, `handler/handlers.go`): the status codes and JSON bodies
  that the list, create and health handlers write, the default priority of new tasks, and
  the `Authorization` token check in front of `/api`.

Points where the code behaves differently from what one might expect of a pool manager:

- `reconnect` holds the exclusive lock for the whole cycle, including the build, the
  ping and the sleeps (`db/db.go:100-101`), so `GetPool` and `IsHealthy` wait for up to
  five attempts and 20 s of sleep. The model is sequential and claims nothing about
  readers not blocking.
- The backoff is linear, `(i+1)*2` s = 2, 4, 6, 8 (`db/db.go:130-133`), not exponential.
  The delays do strictly increase, and `PoolLemmas.WaitsSchedule` proves it.
- `HealthCheck` calls `IsHealthy` twice (`handler/handlers.go:49`, `53`). The body reports
  the first answer and the status code follows the second, so the two can disagree.
- After `Close`, `GetPool` is not always absent. Cancellation is only noticed by the
  health loop's `select`. When a tick is also pending, Go picks either case at random, and
  a tick that wins reconnects and installs a pool after `Close`.
  `PoolLemmas.TickAfterShutdownReopens` proves this. `PoolLemmas.TicksAfterShutdownInert`
  proves that the loop does nothing when the cancellation wins. This is listed under
  "## Findings" with a corrected wake-up, `PoolSpec.GuardedTick`.

The config package that defines `DatabaseConfig`, and `dto.ToTaskModel` and
`dto.UpdateTaskRequest`, are not part of this model. `Dsn.DatabaseConfig` and
`Repository.UpdateRequest` hold only the fields the modelled code reads.

## Model

| member | source | states |
|---|---|---|
| PoolSpec.Initial | db/db.go:38-50 | After NewPool, one factory call was made and the handle is present iff both the build and the ping succeeded; a pool that was built but failed its ping is closed; every pool is accounted for and the context is not cancelled |
| PoolSpec.FirstSuccess | db/db.go:108-124 | The attempt at which reconnect's loop stops: every earlier attempt failed, and the one it returns (if below 5) succeeded |
| PoolSpec.Healthy | db/db.go:145-158 | IsHealthy can only be true when a handle is present |
| PoolSpec.Backoff | db/db.go:130-133 | The sleep after a failed attempt is an even number of seconds, at least 2, and at most 8 for any attempt that is followed by a sleep |
| PoolSpec.Released | db/db.go:103-106 | The first step of reconnect leaves no handle, appends the old live handle (if any) to the close log and changes nothing else |
| PoolSpec.Failed | db/db.go:109-134 | A failed attempt closes the pool it built, if any, as the newest close, sleeps once unless it was the fifth attempt, and leaves the handle alone |
| PoolSpec.Installed | db/db.go:120-122 | A succeeding attempt makes a freshly built pool the live handle, without closing or sleeping |
| PoolSpec.Attempts | db/db.go:108-134 | The attempt loop from attempt i on makes between 1 and 5-i factory calls, only appends to the close and sleep logs, and any handle it changes to is a pool it built itself |
| PoolSpec.Reconnected | db/db.go:99-137 | A reconnect cycle makes 1 to 5 factory calls, closes the old live handle, and leaves either no handle or one of the pools it built; cancellation is untouched |
| PoolSpec.Tick | db/db.go:72-96 | A wake-up returns exactly when the context is cancelled and the select takes that case; it leaves the state unchanged exactly when it returns or the live handle's ping succeeds, and otherwise reconnects |
| PoolSpec.RunTicks | db/db.go:68-97 | The health loop never changes cancellation, and the factory-call count, the pools built and the close log only grow |
| PoolSpec.GuardedTick | db/db.go:72-96 | The corrected wake-up: it returns exactly when the context is cancelled, whichever case the select took, and then changes nothing |
| PoolSpec.RunGuardedTicks | db/db.go:68-97 | The corrected health loop leaves a cancelled state exactly as it was |
| PoolSpec.Shutdown | db/db.go:160-171 | Close leaves the context cancelled and no handle, and the close log gains exactly the live handle, if there was one |
| PoolLemmas.WaitsSchedule | db/db.go:130-133 | The sleeps are 2(i+1) s after attempt i, and they strictly increase |
| PoolLemmas.SleepsSchedule | db/db.go:108-134 | The loop sleeps after every failed attempt except the last one it makes: the sleeps are exactly Waits(0, last attempt) |
| PoolLemmas.AttemptsDone | db/db.go:108 | After the fifth attempt the loop changes nothing more |
| PoolLemmas.StepSucceeded | db/db.go:113-121 | An attempt whose build and ping succeed installs the pool it built and ends the cycle |
| PoolLemmas.StepFailed | db/db.go:109-134 | A failed attempt (closing a built pool, sleeping unless last) hands the rest of the cycle to the next attempt |
| PoolLemmas.FreshOrLiveNotClosed | db/db.go:16-24 | The live handle and any handle not yet built have never been closed |
| PoolLemmas.ReleasedAccounted | db/db.go:103-106 | Closing and clearing the live handle keeps every pool closed at most once, and none leaked |
| PoolLemmas.FailedAccounted | db/db.go:111-125 | A failed attempt keeps every pool accounted for: a pool that was built and failed its ping is closed exactly once |
| PoolLemmas.InstalledAccounted | db/db.go:117-119 | Installing the newly built pool keeps every pool accounted for |
| PoolLemmas.AttemptsAccounted | db/db.go:108-134 | The whole attempt loop keeps every pool accounted for |
| PoolLemmas.ClosedFromFresh | db/db.go:122-125 | The loop only ever closes pools it built itself |
| PoolLemmas.ReconnectClosesOldHandleFirst | db/db.go:103-106 | reconnect closes the old live handle first, before any pool it builds, and never reinstalls it |
| PoolLemmas.ReconnectInstallsFirstSuccess | db/db.go:108-124 | reconnect makes between 1 and 5 attempts, stops at the first attempt whose build and ping both succeed and installs exactly that pool; with none it makes 5 and leaves the handle absent |
| PoolLemmas.ReconnectBackoff | db/db.go:128-133 | Sleeps come between attempts, one fewer than the attempts made, with durations 2, 4, 6, 8 s in order, never after the last |
| PoolLemmas.ReconnectAllFail | db/db.go:108-136 | If the database never answers: exactly 5 attempts, sleeps 2, 4, 6, 8 s, and reconnect returns with the handle absent |
| PoolLemmas.ReconnectThirdAttemptSucceeds | db/db.go:108-133 | Fail, fail, succeed: 3 attempts, sleeps 2 and 4 s, a live handle |
| PoolLemmas.ReconnectedAccounted | db/db.go:99-137 | After a reconnect cycle every built pool other than the live one has been closed exactly once |
| PoolLemmas.TickAccounted | db/db.go:72-96 | A health wake-up keeps every pool accounted for; when the select takes the cancellation the loop returns and nothing changes |
| PoolLemmas.TickRecovers | db/db.go:78-96 | A tick with an absent handle or a failing ping reconnects and recovers if any attempt succeeds; a successful ping changes nothing |
| PoolLemmas.RunTicksAccounted | db/db.go:68-97 | Any run of the health loop keeps every pool accounted for |
| PoolLemmas.ShutdownClosesLiveOnce | db/db.go:160-171 | Close sets cancelled, closes a live handle exactly once and clears it; afterwards IsHealthy is false whatever the ping says |
| PoolLemmas.ShutdownIdempotent | db/db.go:160-171 | A second Close closes nothing and changes nothing |
| PoolLemmas.TicksAfterShutdownInert | db/db.go:72-75 | After Close, the health loop returns at a wake-up whose select takes the cancellation, leaving the state as Close left it |
| PoolLemmas.TickAfterShutdownReopens | db/db.go:72-84 | After Close, a wake-up whose select takes a pending tick reconnects and can install a live pool although the context is cancelled, so the manager is no longer quiescent |
| PoolLemmas.GuardedShutdownFinal | db/db.go:160-171 | With the corrected wake-up, Close is final: any run of the health loop leaves the closed state unchanged and without a handle |
| PoolLemmas.GuardedTicksAgree | db/db.go:68-97 | Before Close the corrected health loop does exactly what the loop as written does |
| PoolLemmas.GuardedTicksAccounted | db/db.go:68-97 | The corrected health loop keeps every pool accounted for and keeps a closed manager without a handle |
| Db.Pool.constructor | db/db.go:38-50 | The new Pool's state is PoolSpec.Initial of the first attempt, and it is valid |
| Db.Pool.GetPool | db/db.go:139-143 | Returns the live handle, which was built and has never been closed |
| Db.Pool.IsHealthy | db/db.go:145-158 | False without a handle, otherwise the ping's answer; a true answer comes from a live pool that has not been closed |
| Db.Pool.Reconnect | db/db.go:99-137 | The new state is PoolSpec.Reconnected of the old state and the cycle's outcomes, and every pool is still accounted for |
| Db.Pool.Release | db/db.go:103-106 | Closes and clears the live handle |
| Db.Pool.Retry | db/db.go:108-136 | The loop's final state is PoolSpec.Attempts of its start state: proved with the loop invariant that the remaining attempts lead to it |
| Db.Pool.TryConnect | db/db.go:109-134 | One attempt installs the pool when build and ping succeed, otherwise closes a built pool and sleeps Backoff(i) unless it was the last |
| Db.Pool.HealthTick | db/db.go:72-96 | One wake-up's result and new state are PoolSpec.Tick of the old state |
| Db.Pool.HealthCheck | db/db.go:68-97 | The loop over wake-ups ends in PoolSpec.RunTicks of the start state, keeping every pool accounted for |
| Db.Pool.Close | db/db.go:160-171 | The new state is PoolSpec.Shutdown of the old: cancelled, live handle closed and cleared |
| Db.NewPool | db/db.go:26-66 | An error, "failed to parse database URL", exactly when the config does not parse; otherwise a fresh Pool in the initial state, even when the connection failed |
| Dsn.IntToString | db/db.go:201-207 | The port's %d text contains no space and is all digits for a non-negative port |
| Dsn.IntRoundTrip | db/db.go:201-207 | The port's text reads back as the same number |
| Dsn.ParseConf | db/db.go:200-209 | The DSN starts with the user field |
| Dsn.ParseConfRoundTrip | db/db.go:200-209 | Reading the DSN back field by field (user, password, host, port, dbname, sslmode=disable) gives the same config when no value contains a space |
| Dsn.ParseConfInjective | db/db.go:200-209 | Distinct space-free configs give distinct DSNs |
| Dsn.UnquotedValuesCollide | db/db.go:201-202 | Values are not quoted: a user name containing " password=" and a different user/password split give the same DSN |
| Entity.ToModel | db/entity/entity.go:18-28 | The task agrees with the entity in every field, with Status carried across as a TaskStatus |
| Entity.FromModel | db/entity/entity.go:30-40 | The entity agrees with the task in every field, with Status as its string |
| Entity.AgreesUnique | db/entity/entity.go:18-40 | Agreement between entities and tasks is one-to-one in both directions |
| Entity.EntityRoundTrip | db/entity/entity.go:18-40 | FromModel(ToModel(e)) == e |
| Entity.TaskRoundTrip | db/entity/entity.go:18-40 | ToModel(FromModel(t)) == t |
| Dto.ToTaskResponse | dto/task_dto.go:18-28 | The response presents the task: every field equal, Status as the status string |
| Dto.ToTaskResponseInjective | dto/task_dto.go:18-28 | Distinct tasks give distinct responses |
| Dto.CreateResponseMatchesEntity | dto/task_dto.go:18-28 | ToTaskResponse(e.ToModel()) repeats the entity field for field |
| Repository.Is | repository/postgresql/task.go:174 | errors.Is: an error is its own target, an unwrapped error matches only itself, and no pgx error is ErrDatabaseUnavailable |
| Repository.Collect | repository/postgresql/task.go:50-67 | Collecting rows gives one entity per row, or the error of a row that failed to scan |
| Repository.AllTasks | repository/postgresql/task.go:30-71 | A query is sent exactly when there is a handle; an error is ErrDatabaseUnavailable exactly when there is none; a non-empty list holds one entity per row |
| Repository.CollectAllOk | repository/postgresql/task.go:50-67 | When every row scans, the list is those rows' entities in order |
| Repository.CollectFirstFailure | repository/postgresql/task.go:62-65 | The first row that fails to scan decides the error |
| Repository.CollectSucceeds | repository/postgresql/task.go:50-67 | Collecting succeeds exactly when every row scans, and then holds one entity per row in row order |
| Repository.GetAllTasks | repository/postgresql/task.go:30-71 | The loop's result is AllTasks of the handle and the database's answer: proved with the invariant that the collected list is the rows read so far |
| Repository.ListUnavailable | repository/postgresql/task.go:31-35 | With no handle: an empty list, ErrDatabaseUnavailable, and no query sent |
| Repository.ListQueryFailure | repository/postgresql/task.go:43-47 | A failed query gives an empty list and the error wrapped with "failed to get tasks", which is not ErrDatabaseUnavailable |
| Repository.ListRowsInOrder | repository/postgresql/task.go:50-70 | With rows that all scan: one entity per row in row order, and rows.Err() returned unwrapped beside the list |
| Repository.ListScanFailure | repository/postgresql/task.go:62-65 | The first scan failure gives an empty list and that error wrapped with "failed to scan task" |
| Repository.ListIgnoresLaterRows | repository/postgresql/task.go:51-65 | Rows after the first scan failure are never visited: answers agreeing up to that row give the same result |
| Repository.CreateTask | repository/postgresql/task.go:73-118 | With no handle: the zero entity, ErrDatabaseUnavailable, no insert; otherwise inserts title, description, status and priority and returns the stored row, or the zero entity and a wrapped error that is not ErrDatabaseUnavailable |
| Repository.UpdateTask | repository/postgresql/task.go:119-153 | With no handle: the zero entity, ErrDatabaseUnavailable and no query; otherwise the returned row, or the zero entity and an error that is not ErrDatabaseUnavailable |
| Repository.GetTaskByIdAsWritten | repository/postgresql/task.go:154-183 | As written, the entity returned is always the zero entity and there is always an error: a found row fails pgx's Scan, which has value destinations, and gives that failure wrapped with "failed to get task"; every other outcome is answered as the corrected GetTaskById answers it |
| Repository.GetTaskByIdLosesRow | repository/postgresql/task.go:163-179 | For a found row the code as written reports an error that is neither ErrDatabaseUnavailable nor ErrNoRows and loses a non-zero row; the corrected GetTaskById returns the row with no error |
| Repository.GetTaskById | repository/postgresql/task.go:154-183 | With no handle: ErrDatabaseUnavailable and no query; a missing row is pgx.ErrNoRows unwrapped; any other error is wrapped and is not ErrNoRows; a found row is returned |
| Repository.DegradedRepository | repository/postgresql/task.go:31-161 | With no handle every operation answers ErrDatabaseUnavailable, returns the zero entity or an empty list, and sends nothing |
| Handler.HealthCheck | handler/handlers.go:45-58 | 503 iff the second IsHealthy observation is false, else 200; the body always has status "ok" and reports the first observation as connected |
| Handler.HealthCheckOfPool | handler/handlers.go:45-58 | A 200 means a live handle answered; no handle gives 503 with connected false; the two pings can disagree and give 503 with connected true |
| Handler.HealthCheckAfterClose | handler/handlers.go:45-58 | After Close the health endpoint answers 503 with connected false |
| Handler.TaskListHandler | handler/handlers.go:72-91 | 503 iff the error is ErrDatabaseUnavailable, 500 iff it is another error, 200 with the list otherwise |
| Handler.ListEndToEnd | handler/handlers.go:72-91 | Over the repository: no handle gives 503; a failed query, a scan failure or a rows.Err() gives 500; otherwise 200 with one entity per row in order |
| Handler.WithDefaultPriority | handler/handlers.go:117-119 | The priority is never 0 afterwards; 0 becomes 3, any other priority and every other field are kept |
| Handler.WithDefaultPriorityIdempotent | handler/handlers.go:117-119 | Applying the default twice is applying it once |
| Handler.CreateTaskHandler | handler/handlers.go:108-138 | A bind failure is 400 with the bind error and the repository is not called; otherwise the task with the default priority is passed on, and the answer is 503 iff ErrDatabaseUnavailable, 500 iff another error, 201 with the created row's response otherwise |
| Handler.CreateEndToEnd | handler/handlers.go:108-138 | Over the repository: no handle gives 503 and no insert; the insert's priority is never 0 (3 for a request that left it 0); a database error gives 500; a stored row gives 201 with that row |
| Handler.AuthMiddleware | handler/handlers.go:202-209 | The request passes iff the Authorization header equals the token; otherwise it is aborted with 403 {"error": "Forbidden"} |
| Handler.Guarded | handler/handlers.go:202-209 | Under the token "123", a wrong header gives 403 and the right one gives the handler's response |
| Handler.ForbiddenIgnoresHandler | handler/handlers.go:202-209 | With a wrong header the answer does not depend on the handler at all: the handler is never reached |

## Left out

- Concurrency: the `sync.RWMutex`, the health-check goroutine and the ticker are left out. All operations are sequential steps. The model makes no claim that readers are not blocked during `reconnect`, since the code holds the lock throughout.
- Time: the context timeouts (10 s build, 5 s ping, 2 s IsHealthy) and the 30 s tick interval are not modelled. Sleeps are recorded as a list of durations in seconds.
- Logging through `slog` is left out.
- pgx internals are oracle inputs: `ParseConfig`, `NewWithConfig`, `Ping`, `Query`, `QueryRow`, `Scan`, `rows.Err`.
- Db.NewPool: whether the DSN parses is an input; the DSN text is not connected to pgx's parser.
- The pool size settings (`db/db.go:32-36`) are constants passed to pgx, with no behaviour.
- `ExecQuery` (`db/db.go:212-219`) is a raw pgx call. It dereferences the pool without a nil check or the lock.
- `BuildDSN` and `LoadConfig` (`db/db.go:174-198`) are INI file input.
- SQL text and argument binding are left out.
  - `UpdateTask` binds the ID as `$1`, where the SQL expects the title. It also passes four arguments for five placeholders (`repository/postgresql/task.go:127-138`).
- Repository.UpdateTask: the arguments sent are not recorded, only whether a query was sent. The model keeps a success branch for a returned row, but the code as written cannot reach it: pgx rejects four arguments for five placeholders before the statement runs, so with a handle the code as written always takes the "failed to update task" path.
- Repository.GetAllTasks: Go's nil slice and empty slice are both the empty sequence. JSON's `null` versus `[]` is therefore not distinguished.
- The unfinished handlers are left out. `GetTaskByIdHandler` writes no response and has no route (`handler/handlers.go:141-149`). `UpdateTaskHandler` is commented out (`handler/handlers.go:151-160`).
- `dto.ToTaskModel` is opaque: a bound request is given as the task it produces.
- gin routing is left out, except that every `/api` route sits behind the token check. Also left out: the swagger annotations, `ListNoteHandler`, and `HealthHandler`, which reports `time.Now()`.
- `cmd/server/main.go` is left out: server start, signals, log rotation and slog fan-out.
- The earlier variant under `server/` is left out. It does not build against the current `db` package.
- Dsn.ParseConfRoundTrip: the DSN is read back by `Dsn.ParseDsn`, the model's own reader, which splits at spaces and takes each value literally. Under that reader the round trip holds when no value contains a space; the code writes values unquoted, so a value with a space does not read back (Dsn.UnquotedValuesCollide). The keyword/value parser of libpq that pgx applies also skips whitespace after `=`, treats `\` as an escape and a leading `'` as a quote, so for the program the round trip further needs non-empty values with no other whitespace, no `\` and no leading `'`; that parser is not part of this model.
- PoolSpec.Healthy: the ping is an input and is not tied to the live pool's actual state.

## Findings

| source | as written | input that shows it | evidently intended | confidence | as-written member | corrected member |
|---|---|---|---|---|---|---|
| repository/postgresql/task.go:164-172 | `Scan` receives the entity's field values, not their addresses, and in a different column order (UpdatedAt, CreatedAt, Priority). pgx cannot scan into a value, so a found row gives the zero entity and the error "failed to get task: can't scan into dest[0]: …"; the local `task` is never written | `GetTaskById` with a handle and any id whose row exists and is not all zero values; `Repository.GetTaskByIdLosesRow` | Scan the row into `&task.ID, …` in column order and return it | high (not executed) | Repository.GetTaskByIdAsWritten | Repository.GetTaskById |
| db/db.go:72-84 | The health loop's `select` notices cancellation only when it takes the `Done` case. When `Close` cancels while a tick is pending, Go may take the tick: the handle is absent, so the loop reconnects and installs a live pool after `Close`. `cmd/server/main.go:56` calls `Close` once, so nothing closes that pool | `Close` while a tick is pending, then a select that takes the tick with a database that answers; `PoolLemmas.TickAfterShutdownReopens` | A tick taken after cancellation returns without reconnecting; with that, Close is final (`PoolLemmas.GuardedShutdownFinal`) and nothing changes before Close (`PoolLemmas.GuardedTicksAgree`) | medium (not executed) | PoolSpec.Tick | PoolSpec.GuardedTick |
