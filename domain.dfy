/** The records the task board stores and the messages it emits. Python `None` and SQL NULL are
    `None`; timestamps are ticks of a monotone counter standing for `datetime.now()`. */
module Domain {
  import opened Wrappers

  /** Branding defaults (MAIN_AGENT_NAME, and the literal human identity the code compares with). */
  const MainAgentName: string := "Jarvis"
  const Human: string := "User"
  const SystemAuthor: string := "System"

  const Statuses: seq<string> := ["Backlog", "In Progress", "Review", "Done", "Blocked"]
  const Priorities: seq<string> := ["Critical", "High", "Medium", "Low"]

  /** The agents known to the agent gateway, in the insertion order of AGENT_TO_CLAWDBOT_ID; this is
      also the order in which the mention pattern tries its alternatives. */
  const Roster: seq<string> := [MainAgentName, "Architect", "Security Auditor", "Code Reviewer", "UX Manager"]

  /** AGENT_TO_CLAWDBOT_ID: the gateway's identifier for a board agent. */
  function GatewayId(agent: string): (r: Option<string>)
    ensures r.Some? <==> agent in Roster
    ensures r.Some? ==> r.value != ""
  {
    if agent == MainAgentName then Some("main")
    else if agent == "Architect" then Some("architect")
    else if agent == "Security Auditor" then Some("security-auditor")
    else if agent == "Code Reviewer" then Some("code-reviewer")
    else if agent == "UX Manager" then Some("ux-manager")
    else None
  }

  /** Content limit of a comment (MAX_ATTACHMENT_SIZE_BYTES, counted in characters by `len`). */
  const MaxContentLength: nat := 10 * 1024 * 1024
  const MaxAgentNameLength: nat := 100

  /** A row of the `tasks` table. `status` is nullable because a move without a status writes NULL. */
  datatype Task = Task(
    id: int,
    title: string,
    description: string,
    status: Option<string>,
    priority: string,
    agent: string,
    dueDate: Option<string>,
    createdAt: nat,
    updatedAt: nat,
    board: string,
    sourceFile: Option<string>,
    sourceRef: Option<string>,
    workingAgent: Option<string>,
    sessionKey: Option<string>)

  /** The body of a create request (TaskCreate), with its defaults. */
  datatype NewTask = NewTask(
    title: string,
    description: string,
    status: string,
    priority: string,
    agent: string,
    dueDate: Option<string>,
    board: string,
    sourceFile: Option<string>,
    sourceRef: Option<string>)

  function DefaultNewTask(title: string): NewTask
  {
    NewTask(title, "", "Backlog", "Medium", "Unassigned", None, "tasks", None, None)
  }

  /** A row of `comments`: never updated, never deleted. */
  datatype Comment = Comment(id: int, taskId: int, agent: string, content: string, createdAt: nat)

  /** A row of `action_items`; `resolved` and `archived` are independent flags. */
  datatype ActionItem = ActionItem(
    id: int,
    taskId: int,
    commentId: Option<int>,
    agent: string,
    content: string,
    itemType: string,
    resolved: bool,
    archived: bool,
    createdAt: nat,
    resolvedAt: Option<nat>)

  /** A row of `activity_log`: append-only. */
  datatype Activity = Activity(taskId: int, action: string, agent: Option<string>, details: Option<string>, timestamp: nat)

  /** The JSON messages handed to the live-update broadcaster, by their `type` tag. */
  datatype Event =
    | TaskCreated(task: Task)
    | TaskUpdated(task: Task)
    | TaskDeleted(taskId: int)
    | WorkStarted(taskId: int, agent: string)
    | WorkStopped(taskId: int)
    | CommentAdded(taskId: int, comment: Comment)
    | ActionItemAdded(taskId: int, item: ActionItem)
    | ActionItemResolved(taskId: int, itemId: int)
    | ActionItemArchived(taskId: int, itemId: int)
    | ActionItemUnarchived(taskId: int, itemId: int)
    | ActionItemDeleted(taskId: int, itemId: int)

  /** One excerpt of an earlier comment, as a spawned agent is shown it: `**agent:** content[:500]`. */
  datatype ContextLine = ContextLine(agent: string, excerpt: string)

  /** The calls the board makes into the agent gateway helpers, with the data each one carries.
      Prompt wording is not part of the model; each request names what the prompt is built from. */
  datatype Request =
    | SpawnWork(taskId: int, title: string, description: string, agent: string)
    | DoneNotice(sessionKey: string, taskId: int)
    | SpawnMention(taskId: int, title: string, description: string, agent: string, mentioner: string,
                   comment: string, context: seq<ContextLine>)
    | UserReply(sessionKey: string, taskId: int, content: string)
    | SpawnFollowup(taskId: int, title: string, agent: string, context: seq<ContextLine>, message: string)
    | NotifyWake(taskId: int, title: string, agent: string, excerpt: string)

  /** What a `sessions_spawn` call came back with: failure (gateway disabled, an error, a non-ok
      reply), or success with the child session key if the reply carried one. */
  datatype SpawnResult = SpawnFailed | Spawned(childSessionKey: Option<string>)

  /** The HTTP errors the core raises. */
  datatype Failure =
    | TaskNotFound        // 404 "Task not found"
    | ItemNotFound        // 404 "Action item not found"
    | OnlyUserCanFinish   // 403 "Only User can move tasks to Done"
    | InvalidComment      // 422 from the CommentCreate validators
    | InvalidResponse     // 500 when a reply does not fit its declared response model

  datatype Result<+T> = Ok(value: T) | Err(error: Failure)

  /** Python's `f"{x}"` of a nullable string. */
  function Show(x: Option<string>): string
  {
    if x.Some? then x.value else "None"
  }
}
