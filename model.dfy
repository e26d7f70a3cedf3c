/** The task records of model/task.go. */
module Model {
  /**
   * A time.Time value. The model never computes with times, it only copies them, so an
   * instant is a count of nanoseconds since Go's zero time (January 1 of year 1, UTC).
   */
  datatype Time = Time(nanos: int)

  /** The zero time.Time. */
  const ZeroTime := Time(0)

  /** TaskStatus: a named string type. */
  datatype TaskStatus = TaskStatus(name: string)

  const StatusPending := TaskStatus("pending")
  const StatusInProgress := TaskStatus("in_progress")
  const StatusCompleted := TaskStatus("completed")

  datatype Task = Task(
    id: int,
    title: string,
    description: string,
    status: TaskStatus,
    priority: int,
    createdAt: Time,
    updatedAt: Time
  )
}
