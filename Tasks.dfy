/** The task record the ingestion clients produce and the sync route stores. */
module Tasks {
  import opened Wrappers

  datatype TaskSource = Manual | BrightspaceSource | CalendarSource

  datatype TaskStatus = Pending | InProgress | Completed | Cancelled

  /** Points in time as integer microseconds since the epoch; the ISO 8601
      text forms are produced and parsed outside the model. */
  type Instant = int

  /** The fields of `TaskCreate`: one task as a client hands it over. */
  datatype TaskData = TaskData(
    title: string,
    description: string,
    dueDate: Option<Instant>,
    estimatedTime: int,
    source: TaskSource,
    status: TaskStatus)
}
