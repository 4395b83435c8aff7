/**
 * The shared record shapes of the application (src/types/index.ts) and the
 * signed-in identity the authentication provider hands to components.
 */
module Types {
  import opened Wrappers

  /**
   * A point in time, in milliseconds since the Unix epoch. The application
   * stores and passes every date as the ISO-8601 text of such an instant
   * (`toISOString()`); the model keeps the instant that text denotes.
   */
  datatype Instant = Instant(millis: int)

  datatype Status = Backlog | ToDo | InProgress | Done

  datatype Priority = Low | Medium | High

  /** The text of a status, as stored and as shown in activity sentences. */
  function StatusName(s: Status): (name: string)
    ensures name != ""
  {
    match s
    case Backlog => "Backlog"
    case ToDo => "To-do"
    case InProgress => "In Progress"
    case Done => "Done"
  }

  /** `columns.find(c => c === text)`: the status whose text is `text`, if any. */
  function ParseStatus(text: string): (r: Option<Status>)
    ensures r.Some? ==> StatusName(r.value) == text
    ensures forall s: Status :: StatusName(s) == text ==> r == Some(s)
  {
    if text == "Backlog" then Some(Backlog)
    else if text == "To-do" then Some(ToDo)
    else if text == "In Progress" then Some(InProgress)
    else if text == "Done" then Some(Done)
    else None
  }

  datatype User = User(id: string, name: string, email: string, avatarUrl: string, initials: string)

  datatype Task = Task(
    id: string,
    title: string,
    status: Status,
    priority: Priority,
    dueDate: Option<Instant>,
    assignee: Option<User>)

  datatype Activity = Activity(id: string, text: string, timestamp: Instant, user: User)

  datatype FileRecord = FileRecord(name: string, fileType: string, size: string, url: string)

  /** A project as the services hand it to the components. */
  datatype Project = Project(
    id: string,
    name: string,
    owner: User,
    deadline: Instant,
    completionPercentage: nat,
    progressNotes: string,
    tasks: seq<Task>,
    activities: seq<Activity>,
    files: seq<FileRecord>)

  /** The signed-in identity: uid, displayName, email and photoURL, each but uid nullable. */
  datatype AuthUser = AuthUser(
    uid: string,
    displayName: Option<string>,
    email: Option<string>,
    photoURL: Option<string>)

  /** JavaScript truthiness of a nullable string: present and not empty. */
  predicate Truthy(o: Option<string>)
  {
    o.Some? && o.value != ""
  }
}
