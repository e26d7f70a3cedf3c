/** The JSON response record of dto/task_dto.go. */
module Dto {
  import opened Model
  import opened Entity

  datatype TaskResponse = TaskResponse(
    id: int,
    title: string,
    description: string,
    status: string,
    priority: int,
    createdAt: Time,
    updatedAt: Time
  )

  /** A response presents a task: every field equal, the status by its name. */
  predicate Presents(r: TaskResponse, t: Task) {
    && r.id == t.id
    && r.title == t.title
    && r.description == t.description
    && r.status == t.status.name
    && r.priority == t.priority
    && r.createdAt == t.createdAt
    && r.updatedAt == t.updatedAt
  }

  /** ToTaskResponse: the response that presents the task. */
  function ToTaskResponse(t: Task): (r: TaskResponse)
    ensures Presents(r, t)
  {
    TaskResponse(t.id, t.title, t.description, t.status.name, t.priority, t.createdAt, t.updatedAt)
  }

  /** Distinct tasks give distinct responses. */
  lemma ToTaskResponseInjective(t: Task, t': Task)
    ensures ToTaskResponse(t) == ToTaskResponse(t') ==> t == t'
  {
  }

  /** The create response, ToTaskResponse(e.ToModel()), repeats the stored entity field for field. */
  lemma CreateResponseMatchesEntity(e: TaskEntity)
    ensures var r := ToTaskResponse(ToModel(e));
      && r.id == e.id && r.title == e.title && r.description == e.description
      && r.status == e.status && r.priority == e.priority
      && r.createdAt == e.createdAt && r.updatedAt == e.updatedAt
  {
  }
}
