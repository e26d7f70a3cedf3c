/** The database row record of db/entity/entity.go and its conversions to and from Task. */
module Entity {
  import opened Model

  /** TaskEntity: a Task whose status is a plain string, as stored in md.tasks. */
  datatype TaskEntity = TaskEntity(
    id: int,
    title: string,
    description: string,
    status: string,
    priority: int,
    createdAt: Time,
    updatedAt: Time
  )

  /** The zero value entity.TaskEntity{} that the repository returns with an error. */
  const ZeroEntity := TaskEntity(0, "", "", "", 0, ZeroTime, ZeroTime)

  /** An entity and a task describe the same task: every field equal, the status by its name. */
  predicate Agrees(e: TaskEntity, t: Task) {
    && e.id == t.id
    && e.title == t.title
    && e.description == t.description
    && e.status == t.status.name
    && e.priority == t.priority
    && e.createdAt == t.createdAt
    && e.updatedAt == t.updatedAt
  }

  /** ToModel: the task that agrees with the entity. */
  function ToModel(e: TaskEntity): (t: Task)
    ensures Agrees(e, t)
  {
    Task(e.id, e.title, e.description, TaskStatus(e.status), e.priority, e.createdAt, e.updatedAt)
  }

  /** FromModel: the entity that agrees with the task. */
  function FromModel(t: Task): (e: TaskEntity)
    ensures Agrees(e, t)
  {
    TaskEntity(t.id, t.title, t.description, t.status.name, t.priority, t.createdAt, t.updatedAt)
  }

  /** Agreement is one-to-one in both directions. */
  lemma AgreesUnique(e: TaskEntity, e': TaskEntity, t: Task, t': Task)
    ensures Agrees(e, t) && Agrees(e', t) ==> e == e'
    ensures Agrees(e, t) && Agrees(e, t') ==> t == t'
  {
  }

  /** Converting an entity to a task and back gives the same entity. */
  lemma EntityRoundTrip(e: TaskEntity)
    ensures FromModel(ToModel(e)) == e
  {
    AgreesUnique(FromModel(ToModel(e)), e, ToModel(e), ToModel(e));
  }

  /** Converting a task to an entity and back gives the same task. */
  lemma TaskRoundTrip(t: Task)
    ensures ToModel(FromModel(t)) == t
  {
    AgreesUnique(FromModel(t), FromModel(t), ToModel(FromModel(t)), t);
  }
}
