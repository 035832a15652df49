/**
  The one domain entity of the task list, as the page receives it from the
  task service.
 */
module Tasks {

  /** A value that may be absent: TypeScript's `T | null`. */
  datatype Option<+T> = None | Some(value: T)

  /** The three priority tiers a task can carry. */
  datatype Priority = Low | Medium | High

  /** The server-assigned creation time. The page never looks inside it:
      ordering by it is done by the backend. */
  datatype Timestamp = Timestamp(raw: int)

  /** A task record: an opaque id, the title, the completion flag, the
      creation time, the priority and an optional free-text category. */
  datatype Task = Task(
    id: string,
    title: string,
    completed: bool,
    createdAt: Timestamp,
    priority: Priority,
    category: Option<string>)
}
