/** The board's state as a value and every state-changing endpoint as a function on it: what each
    request writes, logs, broadcasts and asks of the agent gateway, in the order the code does it. */
module Lifecycle {
  import opened Wrappers
  import opened Text
  import opened Domain
  import opened Mentions

  /** The database tables, the messages broadcast so far, the gateway calls made so far, and the
      clock. `nextTaskId`, `nextCommentId` and `nextItemId` are the AUTOINCREMENT counters. */
  datatype Board = Board(
    tasks: map<int, Task>,
    comments: seq<Comment>,
    items: seq<ActionItem>,
    log: seq<Activity>,
    events: seq<Event>,
    outbox: seq<Request>,
    clock: nat,
    nextTaskId: nat,
    nextCommentId: nat,
    nextItemId: nat)

  const EmptyBoard: Board := Board(map[], [], [], [], [], [], 0, 1, 1, 1)

  /** An endpoint's reply together with the board after it. */
  datatype Step<+T> = Step(result: Result<T>, board: Board)

  ghost predicate TaskWellformed(b: Board, id: int)
    requires id in b.tasks
  {
    var t := b.tasks[id];
    && t.id == id && 0 <= id < b.nextTaskId
    && t.createdAt <= t.updatedAt <= b.clock
    && t.sessionKey != Some("")
  }

  /** What every endpoint keeps: ids below their counters, rows of `comments` and `action_items` in
      id and time order, timestamps not in the future, and no task bound to an empty session key. */
  ghost predicate Wellformed(b: Board)
  {
    && (forall id :: id in b.tasks ==> TaskWellformed(b, id))
    && (forall i :: 0 <= i < |b.items| ==> b.items[i].id < b.nextItemId && b.items[i].createdAt <= b.clock)
    && (forall i, j :: 0 <= i < j < |b.items| ==>
          b.items[i].id < b.items[j].id && b.items[i].createdAt < b.items[j].createdAt)
    && (forall i :: 0 <= i < |b.comments| ==> b.comments[i].id < b.nextCommentId && b.comments[i].createdAt <= b.clock)
    && (forall i, j :: 0 <= i < j < |b.comments| ==>
          b.comments[i].id < b.comments[j].id && b.comments[i].createdAt < b.comments[j].createdAt)
  }

  lemma EmptyBoardWellformed()
    ensures Wellformed(EmptyBoard)
  {
  }

  // ---------------------------------------------------------------------------------------------
  // The persistence primitives the endpoints are built from

  /** `log_activity`: one row, stamped with a fresh timestamp. */
  function LogActivity(b: Board, taskId: int, action: string, agent: Option<string>, details: Option<string>): Board
  {
    b.(log := b.log + [Activity(taskId, action, agent, details, b.clock + 1)], clock := b.clock + 1)
  }

  /** `manager.broadcast(...)`, once per message. */
  function Emit(b: Board, es: seq<Event>): Board
  {
    b.(events := b.events + es)
  }

  /** A call into one of the agent gateway helpers. */
  function Call(b: Board, rs: seq<Request>): Board
  {
    b.(outbox := b.outbox + rs)
  }

  /** `set_task_session`: binds or clears the session key and refreshes `updated_at`. */
  function SetSession(b: Board, id: int, key: Option<string>): (r: Board)
    requires id in b.tasks
    ensures Wellformed(b) && key != Some("") ==> Wellformed(r)
  {
    var now := b.clock + 1;
    b.(tasks := b.tasks[id := b.tasks[id].(sessionKey := key, updatedAt := now)], clock := now)
  }

  /** After a `sessions_spawn` for a task: a reply carrying a non-empty child key binds it. */
  function BindSpawned(b: Board, id: int, r: SpawnResult): (r': Board)
    requires id in b.tasks
    ensures Wellformed(b) ==> Wellformed(r')
  {
    if r.Spawned? && Truthy(r.childSessionKey) then SetSession(b, id, r.childSessionKey) else b
  }

  /** Binding a spawned session touches the task row and the clock only. */
  lemma BindSpawnedTouchesOneRow(b: Board, id: int, r: SpawnResult)
    requires id in b.tasks
    ensures var b' := BindSpawned(b, id, r);
      && b'.comments == b.comments && b'.events == b.events && b'.items == b.items && b'.log == b.log
      && b'.outbox == b.outbox
      && b'.tasks == if r.Spawned? && Truthy(r.childSessionKey)
                     then b.tasks[id := b.tasks[id].(sessionKey := r.childSessionKey, updatedAt := b.clock + 1)]
                     else b.tasks
  {
  }

  // ---------------------------------------------------------------------------------------------
  // Tasks: create, delete, start and stop work

  /** POST /api/tasks. */
  function CreateTask(b: Board, n: NewTask): (s: Step<Task>)
    ensures Wellformed(b) ==> Wellformed(s.board)
  {
    var now := b.clock + 1;
    var t := Task(b.nextTaskId, n.title, n.description, Some(n.status), n.priority, n.agent, n.dueDate,
                  now, now, n.board, n.sourceFile, n.sourceRef, None, None);
    var b1 := b.(tasks := b.tasks[t.id := t], nextTaskId := b.nextTaskId + 1, clock := now);
    var b2 := LogActivity(b1, t.id, "created", Some(n.agent), Some("Created: " + n.title));
    Step(Ok(t), Emit(b2, [TaskCreated(t)]))
  }

  /** DELETE /api/tasks/{id}; the task's comments and action items stay (no cascade). */
  function DeleteTask(b: Board, id: int): (s: Step<int>)
    ensures Wellformed(b) ==> Wellformed(s.board)
  {
    if id !in b.tasks then Step(Err(TaskNotFound), b)
    else
      var title := b.tasks[id].title;
      var b1 := LogActivity(b.(tasks := b.tasks - {id}), id, "deleted", None, Some("Deleted: " + title));
      Step(Ok(id), Emit(b1, [TaskDeleted(id)]))
  }

  /** POST /api/tasks/{id}/start-work. */
  function StartWork(b: Board, id: int, agent: string): (s: Step<int>)
    ensures Wellformed(b) ==> Wellformed(s.board)
  {
    if id !in b.tasks then Step(Err(TaskNotFound), b)
    else
      var now := b.clock + 1;
      var t := b.tasks[id].(workingAgent := Some(agent), updatedAt := now);
      Step(Ok(id), Emit(b.(tasks := b.tasks[id := t], clock := now), [WorkStarted(id, agent)]))
  }

  /** POST /api/tasks/{id}/stop-work: clears the indicator and refreshes `updated_at` even when no
      agent was working. */
  function StopWork(b: Board, id: int): (s: Step<int>)
    ensures Wellformed(b) ==> Wellformed(s.board)
  {
    if id !in b.tasks then Step(Err(TaskNotFound), b)
    else
      var now := b.clock + 1;
      var t := b.tasks[id].(workingAgent := None, updatedAt := now);
      Step(Ok(id), Emit(b.(tasks := b.tasks[id := t], clock := now), [WorkStopped(id)]))
  }

  // ---------------------------------------------------------------------------------------------
  // PATCH /api/tasks/{id}: the diffing update

  datatype Field = Title | Description | Status | Priority | AgentField | DueDate | SourceFile | SourceRef

  /** The fields the update loop visits, in its order. */
  const UpdatableFields: seq<Field> := [Title, Description, Status, Priority, AgentField, DueDate, SourceFile, SourceRef]

  function FieldName(f: Field): string
  {
    match f
    case Title => "title"
    case Description => "description"
    case Status => "status"
    case Priority => "priority"
    case AgentField => "agent"
    case DueDate => "due_date"
    case SourceFile => "source_file"
    case SourceRef => "source_ref"
  }

  /** The body of a PATCH request (TaskUpdate): None means "not given". */
  datatype TaskPatch = TaskPatch(
    title: Option<string>,
    description: Option<string>,
    status: Option<string>,
    priority: Option<string>,
    agent: Option<string>,
    dueDate: Option<string>,
    sourceFile: Option<string>,
    sourceRef: Option<string>)

  /** `current[field]`. */
  function Current(t: Task, f: Field): Option<string>
  {
    match f
    case Title => Some(t.title)
    case Description => Some(t.description)
    case Status => t.status
    case Priority => Some(t.priority)
    case AgentField => Some(t.agent)
    case DueDate => t.dueDate
    case SourceFile => t.sourceFile
    case SourceRef => t.sourceRef
  }

  /** `getattr(updates, field)`. */
  function Requested(p: TaskPatch, f: Field): Option<string>
  {
    match f
    case Title => p.title
    case Description => p.description
    case Status => p.status
    case Priority => p.priority
    case AgentField => p.agent
    case DueDate => p.dueDate
    case SourceFile => p.sourceFile
    case SourceRef => p.sourceRef
  }

  /** `new_value is not None and new_value != current[field]`. */
  predicate Differs(t: Task, p: TaskPatch, f: Field)
  {
    Requested(p, f).Some? && Requested(p, f) != Current(t, f)
  }

  /** Two rows that agree on every column the update loop does not visit. */
  predicate SameUnlistedColumns(t: Task, u: Task)
  {
    t.id == u.id && t.createdAt == u.createdAt && t.updatedAt == u.updatedAt && t.board == u.board
    && t.workingAgent == u.workingAgent && t.sessionKey == u.sessionKey
  }

  /** One `field = ?` assignment of the UPDATE statement. */
  function WithField(t: Task, f: Field, v: string): (r: Task)
    ensures Current(r, f) == Some(v)
    ensures SameUnlistedColumns(t, r)
  {
    match f
    case Title => t.(title := v)
    case Description => t.(description := v)
    case Status => t.(status := Some(v))
    case Priority => t.(priority := v)
    case AgentField => t.(agent := v)
    case DueDate => t.(dueDate := Some(v))
    case SourceFile => t.(sourceFile := Some(v))
    case SourceRef => t.(sourceRef := Some(v))
  }

  /** An assignment to one field leaves every other field as it was. */
  lemma WithFieldKeepsOthers(t: Task, f: Field, v: string, g: Field)
    requires g != f
    ensures Current(WithField(t, f, v), g) == Current(t, g)
  {
  }

  /** The fields among `fs` the update writes, in loop order (`update_fields`). */
  function Differing(fs: seq<Field>, t: Task, p: TaskPatch): (r: seq<Field>)
    ensures |r| <= |fs|
    ensures forall f :: f in r ==> f in fs && Differs(t, p, f)
  {
    if fs == [] then []
    else
      var last := fs[|fs| - 1];
      Differing(fs[..|fs| - 1], t, p) + (if Differs(t, p, last) then [last] else [])
  }

  /** The entry of `changes` for one field: `"field: old → new"`. */
  function ChangeLine(t: Task, p: TaskPatch, f: Field): string
  {
    FieldName(f) + ": " + Show(Current(t, f)) + " \U{2192} " + Show(Requested(p, f))
  }

  function ChangeLines(t: Task, p: TaskPatch, fs: seq<Field>): (r: seq<string>)
    ensures |r| == |fs|
  {
    seq(|fs|, i requires 0 <= i < |fs| => ChangeLine(t, p, fs[i]))
  }

  /** The row after the UPDATE statement has set the given fields among `fs`. */
  function ApplyChanges(t: Task, p: TaskPatch, fs: seq<Field>): (r: Task)
    ensures SameUnlistedColumns(t, r)
  {
    if fs == [] then t
    else
      var last := fs[|fs| - 1];
      var rest := ApplyChanges(t, p, fs[..|fs| - 1]);
      if Requested(p, last).Some? then WithField(rest, last, Requested(p, last).value) else rest
  }

  /** The reply of an endpoint declared with `response_model=Task`. The model's `status: str` does
      not admit NULL, which a move without a status stores, so such a row is answered with a 500
      after the handler's writes have been made. */
  function TaskReply(t: Task): (r: Result<Task>)
    ensures r.Ok? <==> t.status.Some?
    ensures r.Ok? ==> r.value == t
    ensures r.Err? ==> r.error == InvalidResponse
  {
    if t.status.Some? then Ok(t) else Err(InvalidResponse)
  }

  /** PATCH /api/tasks/{id}. A no-op patch writes nothing and logs nothing; either way the row is
      broadcast. */
  function UpdateTask(b: Board, id: int, p: TaskPatch): (s: Step<Task>)
    ensures Wellformed(b) ==> Wellformed(s.board)
    ensures s.result == Err(TaskNotFound) <==> id !in b.tasks
    ensures id !in b.tasks ==> s.board == b
    ensures id in b.tasks ==> id in s.board.tasks && s.result == TaskReply(s.board.tasks[id])
  {
    if id !in b.tasks then Step(Err(TaskNotFound), b)
    else
      var cur := b.tasks[id];
      var changed := Differing(UpdatableFields, cur, p);
      if changed == [] then Step(TaskReply(cur), Emit(b, [TaskUpdated(cur)]))
      else Patched(b, id, p, changed)
  }

  /** The write of a patch that changes something: the changed fields and a fresh `updated_at`,
      one "updated" entry listing the changes, then the broadcast of the row. */
  function Patched(b: Board, id: int, p: TaskPatch, changed: seq<Field>): (s: Step<Task>)
    requires id in b.tasks
    ensures Wellformed(b) ==> Wellformed(s.board)
    ensures id in s.board.tasks && s.result == TaskReply(s.board.tasks[id])
  {
    var cur := b.tasks[id];
    var now := b.clock + 1;
    var t := ApplyChanges(cur, p, changed).(updatedAt := now);
    var b1 := b.(tasks := b.tasks[id := t], clock := now);
    var b2 := LogActivity(b1, id, "updated", Some(OrElse(p.agent, cur.agent)),
                          Some(Join(ChangeLines(cur, p, changed), "; ")));
    Step(TaskReply(t), Emit(b2, [TaskUpdated(t)]))
  }

  // ---------------------------------------------------------------------------------------------
  // POST /api/tasks/{id}/move: the lifecycle state machine

  /** The JSON reply of a successful move. */
  datatype MoveReply = MoveReply(newStatus: Option<string>, actionItemCreated: bool, agentSpawned: bool,
                                 sessionCleared: bool)

  /** The action item a move creates on entering Review or Blocked from another status. */
  function AutoItem(taskId: int, task: Task, status: Option<string>, agent: Option<string>, reason: Option<string>,
                    id: int, now: nat): Option<ActionItem>
  {
    if status == Some("Review") && task.status != Some("Review") then
      Some(ActionItem(id, taskId, None, OrElse(agent, task.agent),
                      OrElse(reason, "Ready for review: " + task.title), "completion", false, false, now, None))
    else if status == Some("Blocked") && task.status != Some("Blocked") then
      Some(ActionItem(id, taskId, None, OrElse(agent, task.agent),
                      OrElse(reason, "Blocked: " + task.title + " - reason not specified"), "blocker",
                      false, false, now, None))
    else None
  }

  /** The auto-spawn rule: entering In Progress from another status, with an assignee the gateway
      knows that is not the human. */
  predicate SpawnWanted(oldStatus: Option<string>, status: Option<string>, assignee: string)
  {
    status == Some("In Progress") && oldStatus != Some("In Progress") && GatewayId(assignee).Some?
    && assignee != Human
  }

  datatype Cleanup = Cleanup(board: Board, cleared: bool)

  /** An item that can be appended to `action_items`: the next id, stamped after every row there. */
  ghost predicate FreshItem(b: Board, item: Option<ActionItem>)
  {
    item.Some? ==>
      && item.value.id == b.nextItemId && item.value.createdAt <= b.clock
      && forall i :: 0 <= i < |b.items| ==> b.items[i].createdAt < item.value.createdAt
  }

  /** The writes after the status change: the action item, if any, is inserted; then the updated
      row is broadcast, followed by the new item. */
  function Announce(b: Board, id: int, item: Option<ActionItem>): (r: Board)
    requires id in b.tasks
    ensures Wellformed(b) && FreshItem(b, item) ==> Wellformed(r)
    ensures r.tasks == b.tasks && r.comments == b.comments && r.log == b.log && r.outbox == b.outbox && r.clock == b.clock
    ensures r.items == b.items + (if item.Some? then [item.value] else [])
    ensures r.nextItemId == b.nextItemId + (if item.Some? then 1 else 0)
  {
    var b1 := if item.Some? then b.(items := b.items + [item.value], nextItemId := b.nextItemId + 1) else b;
    var b2 := Emit(b1, [TaskUpdated(b1.tasks[id])]);
    if item.Some? then Emit(b2, [ActionItemAdded(id, item.value)]) else b2
  }

  /** The auto-spawn: a `sessions_spawn` for the assignee, whose child key is then bound. */
  function AutoSpawn(b: Board, id: int, spawned: bool, spawn: SpawnResult): (r: Board)
    requires id in b.tasks
    ensures Wellformed(b) ==> Wellformed(r)
    ensures r.comments == b.comments && r.items == b.items && r.log == b.log && r.events == b.events
    ensures r.tasks.Keys == b.tasks.Keys && forall k :: k in b.tasks && k != id ==> r.tasks[k] == b.tasks[k]
    ensures r.tasks[id] == b.tasks[id].(sessionKey := r.tasks[id].sessionKey, updatedAt := r.tasks[id].updatedAt)
  {
    var t := b.tasks[id];
    if spawned then BindSpawned(Call(b, [SpawnWork(id, t.title, t.description, t.agent)]), id, spawn) else b
  }

  /** The Done cleanup: clear the working indicator (without touching `updated_at`), broadcast
      `work_stopped`, and if a session is bound, notify it and unbind it. */
  function DoneCleanup(b: Board, id: int): (c: Cleanup)
    requires id in b.tasks
    ensures Wellformed(b) ==> Wellformed(c.board)
    ensures c.board.comments == b.comments && c.board.items == b.items && c.board.log == b.log
    ensures c.board.tasks.Keys == b.tasks.Keys && forall k :: k in b.tasks && k != id ==> c.board.tasks[k] == b.tasks[k]
    ensures c.board.tasks[id] == b.tasks[id].(workingAgent := None, sessionKey := c.board.tasks[id].sessionKey,
                                              updatedAt := c.board.tasks[id].updatedAt)
    ensures c.cleared == Truthy(b.tasks[id].sessionKey)
    ensures c.board.tasks[id].sessionKey == if c.cleared then None else b.tasks[id].sessionKey
    ensures c.board.events == b.events + [WorkStopped(id)]
    ensures c.board.outbox == b.outbox + if c.cleared then [DoneNotice(b.tasks[id].sessionKey.value, id)] else []
    ensures c.board.tasks[id].updatedAt == if c.cleared then b.clock + 1 else b.tasks[id].updatedAt
    ensures c.board.clock == b.clock + if c.cleared then 1 else 0
  {
    var t := b.tasks[id];
    var b1 := Emit(b.(tasks := b.tasks[id := t.(workingAgent := None)]), [WorkStopped(id)]);
    if Truthy(t.sessionKey) then
      Cleanup(SetSession(Call(b1, [DoneNotice(t.sessionKey.value, id)]), id, None), true)
    else Cleanup(b1, false)
  }

  /** The status write of an accepted move and its activity row. */
  function Moved(b: Board, id: int, status: Option<string>, agent: Option<string>): (r: Board)
    requires id in b.tasks
    ensures Wellformed(b) ==> Wellformed(r)
    ensures r.tasks == b.tasks[id := b.tasks[id].(status := status, updatedAt := b.clock + 1)]
    ensures r.items == b.items && r.nextItemId == b.nextItemId && r.clock == b.clock + 2
    ensures r.comments == b.comments && r.events == b.events && r.outbox == b.outbox
    ensures r.log == b.log + [Activity(id, "moved", agent, Some("Moved to " + Show(status)), b.clock + 2)]
  {
    var now := b.clock + 1;
    var moved := b.tasks[id].(status := status, updatedAt := now);
    assert Wellformed(b) ==> Wellformed(b.(tasks := b.tasks[id := moved], clock := now)) by {
      if Wellformed(b) {
        RowWriteKeepsWellformed(b.(clock := now), id, moved);
      }
    }
    LogActivity(b.(tasks := b.tasks[id := moved], clock := now), id, "moved", agent, Some("Moved to " + Show(status)))
  }

  /** The last stage of a move: the Done cleanup when the new status is Done, nothing otherwise. */
  function Finish(b: Board, id: int, status: Option<string>): (c: Cleanup)
    requires id in b.tasks
    ensures Wellformed(b) ==> Wellformed(c.board)
    ensures status != Some("Done") ==> c == Cleanup(b, false)
  {
    if status == Some("Done") then DoneCleanup(b, id) else Cleanup(b, false)
  }

  /** The broadcasts of a move: the updated row, then the new action item if there is one. */
  lemma AnnounceEvents(b: Board, id: int, item: Option<ActionItem>)
    requires id in b.tasks
    ensures Announce(b, id, item).events
         == b.events + [TaskUpdated(b.tasks[id])] + (if item.Some? then [ActionItemAdded(id, item.value)] else [])
  {
  }

  /** The Done cleanup broadcasts `work_stopped`; any other move broadcasts nothing more. */
  lemma FinishEvents(b: Board, id: int, status: Option<string>)
    requires id in b.tasks
    ensures Finish(b, id, status).board.events == b.events + (if status == Some("Done") then [WorkStopped(id)] else [])
  {
  }

  /** The item a move creates is stamped with the next item id and the move's own time, after every
      item already on the board. */
  lemma AutoItemIsFresh(b: Board, b1: Board, item: Option<ActionItem>)
    requires Wellformed(b)
    requires b1.items == b.items && b1.nextItemId == b.nextItemId && b1.clock == b.clock + 2
    requires item.Some? ==> item.value.id == b.nextItemId && item.value.createdAt == b.clock + 1
    ensures FreshItem(b1, item)
  {
  }

  /** An accepted `Move` is its four stages in order; the class method follows them one by one. */
  lemma MoveIsStaged(b: Board, id: int, status: Option<string>, agent: Option<string>, reason: Option<string>,
                     spawn: SpawnResult, b1: Board, item: Option<ActionItem>, b2: Board, spawned: bool, b3: Board,
                     c: Cleanup)
    requires id in b.tasks && !(status == Some("Done") && agent != Some(Human))
    requires b1 == Moved(b, id, status, agent)
    requires item == AutoItem(id, b.tasks[id], status, agent, reason, b.nextItemId, b.clock + 1)
    requires b2 == Announce(b1, id, item)
    requires spawned == SpawnWanted(b.tasks[id].status, status, b.tasks[id].agent)
    requires b3 == AutoSpawn(b2, id, spawned, spawn)
    requires c == Finish(b3, id, status)
    ensures Move(b, id, status, agent, reason, spawn) == Step(Ok(MoveReply(status, item.Some?, spawned, c.cleared)), c.board)
  {
  }

  /** POST /api/tasks/{id}/move. `spawn` is what the gateway answers if the move spawns an agent;
      the reply's `agentSpawned` does not depend on it. */
  function Move(b: Board, id: int, status: Option<string>, agent: Option<string>, reason: Option<string>,
                spawn: SpawnResult): (s: Step<MoveReply>)
    ensures s.result.Err? ==> s.board == b
    ensures Wellformed(b) ==> Wellformed(s.board)
  {
    if id !in b.tasks then Step(Err(TaskNotFound), b)
    else if status == Some("Done") && agent != Some(Human) then Step(Err(OnlyUserCanFinish), b)
    else AcceptedMove(b, id, status, agent, reason, spawn)
  }

  /** A move that passed both checks: the status write, the automatic action item and broadcasts, the
      automatic spawn, and the cleanup on Done. */
  function AcceptedMove(b: Board, id: int, status: Option<string>, agent: Option<string>, reason: Option<string>,
                        spawn: SpawnResult): (s: Step<MoveReply>)
    requires id in b.tasks
    ensures s.result.Ok? && (Wellformed(b) ==> Wellformed(s.board))
  {
    var task := b.tasks[id];
    var b1 := Moved(b, id, status, agent);
    var item := AutoItem(id, task, status, agent, reason, b.nextItemId, b.clock + 1);
    assert Wellformed(b) ==> FreshItem(b1, item) by {
      if Wellformed(b) {
        AutoItemIsFresh(b, b1, item);
      }
    }
    var b2 := Announce(b1, id, item);
    var spawned := SpawnWanted(task.status, status, task.agent);
    var b3 := AutoSpawn(b2, id, spawned, spawn);
    var done := Finish(b3, id, status);
    Step(Ok(MoveReply(status, item.Some?, spawned, done.cleared)), done.board)
  }

  // ---------------------------------------------------------------------------------------------
  // POST /api/tasks/{id}/comments

  /** The spawn requests for the mentioned agents, in dispatch order. */
  function MentionRequests(id: int, task: Task, author: string, content: string, context: seq<ContextLine>,
                           dispatched: seq<string>): (r: seq<Request>)
    ensures |r| == |dispatched|
  {
    seq(|dispatched|, i requires 0 <= i < |dispatched| =>
      SpawnMention(id, task.title, task.description, dispatched[i], author, content, context))
  }

  /** An author that gets the generic wake notification: not System, not the human, not a roster agent. */
  predicate IsExternalAuthor(author: string)
  {
    author !in [SystemAuthor, Human] + Roster
  }

  /** A human comment on an active task assigned to a known agent other than the human: it is
      meant for that agent. */
  predicate ReachesAssignee(task: Task, author: string)
  {
    author == Human && task.status in {Some("In Progress"), Some("Review")}
    && GatewayId(task.agent).Some? && task.agent != Human
  }

  /** Such a comment spawns a follow-up session when no session is bound or the send failed. */
  predicate FollowsUp(task: Task, author: string, sendOk: bool)
  {
    ReachesAssignee(task, author) && !(Truthy(task.sessionKey) && sendOk)
  }

  /** The gateway calls after the mentions: the reply to the bound session and, failing that, a
      follow-up spawn; or, for a comment from an external author, the wake notification. */
  function RoutingRequests(id: int, task: Task, c: Comment, context: seq<ContextLine>, sendOk: bool): (r: seq<Request>)
    ensures |r| <= 2
    ensures r == [] <==> !ReachesAssignee(task, c.agent) && !IsExternalAuthor(c.agent)
  {
    if ReachesAssignee(task, c.agent) then
      (if Truthy(task.sessionKey) then [UserReply(task.sessionKey.value, id, c.content)] else [])
      + (if FollowsUp(task, c.agent, sendOk) then [SpawnFollowup(id, task.title, task.agent, context, c.content)] else [])
    else if IsExternalAuthor(c.agent) then
      [NotifyWake(id, task.title, c.agent, NotifyExcerpt(c.content))]
    else []
  }

  /** Rewriting one row with timestamps no later than the clock keeps the board well formed. */
  lemma RowWriteKeepsWellformed(b: Board, id: int, t: Task)
    requires Wellformed(b) && id in b.tasks
    requires t.id == id && t.createdAt <= t.updatedAt <= b.clock && t.sessionKey != Some("")
    ensures Wellformed(b.(tasks := b.tasks[id := t]))
  {
  }

  /** Broadcasting and calling the gateway touch no table. */
  lemma SameTablesWellformed(b: Board, b': Board)
    requires Wellformed(b)
    requires b'.tasks == b.tasks && b'.comments == b.comments && b'.items == b.items && b'.clock == b.clock
    requires b'.nextTaskId == b.nextTaskId && b'.nextCommentId == b.nextCommentId && b'.nextItemId == b.nextItemId
    ensures Wellformed(b')
  {
  }

  lemma InsertCommentKeepsWellformed(b: Board, c: Comment)
    requires Wellformed(b) && c.id == b.nextCommentId && c.createdAt == b.clock + 1
    ensures Wellformed(b.(comments := b.comments + [c], nextCommentId := b.nextCommentId + 1, clock := b.clock + 1))
  {
  }

  /** The new comment row and its `comment_added` broadcast. */
  function Posted(b: Board, c: Comment): (r: Board)
    ensures Wellformed(b) && c.id == b.nextCommentId && c.createdAt == b.clock + 1 ==> Wellformed(r)
  {
    var b0 := b.(comments := b.comments + [c], nextCommentId := b.nextCommentId + 1, clock := b.clock + 1);
    assert Wellformed(b) && c.id == b.nextCommentId && c.createdAt == b.clock + 1 ==> Wellformed(b0) by {
      if Wellformed(b) && c.id == b.nextCommentId && c.createdAt == b.clock + 1 {
        InsertCommentKeepsWellformed(b, c);
      }
    }
    Emit(b0, [CommentAdded(c.taskId, c)])
  }

  /** The gateway calls a new comment `c` on task `id` causes, given the two contexts taken from the
      task's thread. */
  function Routed(b: Board, id: int, task: Task, c: Comment, mentionContext: seq<ContextLine>,
                  replyContext: seq<ContextLine>, dispatched: seq<string>, sendOk: bool): (r: Board)
    ensures Wellformed(b) ==> Wellformed(r)
  {
    var r := Call(Call(b, MentionRequests(id, task, c.agent, c.content, mentionContext, dispatched)),
                  RoutingRequests(id, task, c, replyContext, sendOk));
    assert Wellformed(b) ==> Wellformed(r) by {
      if Wellformed(b) { SameTablesWellformed(b, r); }
    }
    r
  }

  /** The insert stage writes the comment table and the event log only. */
  lemma PostedTouchesComments(b: Board, c: Comment)
    ensures var b' := Posted(b, c);
      && b'.comments == b.comments + [c] && b'.events == b.events + [CommentAdded(c.taskId, c)]
      && b'.tasks == b.tasks && b'.items == b.items && b'.log == b.log && b'.clock == b.clock + 1
      && b'.outbox == b.outbox
  {
  }

  /** The routing stage writes the outbox only: the mention spawns, then the reply routing. */
  lemma RoutedTouchesOutbox(b: Board, id: int, task: Task, c: Comment, mentionContext: seq<ContextLine>,
                            replyContext: seq<ContextLine>, dispatched: seq<string>, sendOk: bool)
    ensures var b' := Routed(b, id, task, c, mentionContext, replyContext, dispatched, sendOk);
      && b'.comments == b.comments && b'.events == b.events && b'.tasks == b.tasks
      && b'.items == b.items && b'.log == b.log && b'.clock == b.clock
      && b'.outbox == b.outbox + MentionRequests(id, task, c.agent, c.content, mentionContext, dispatched)
                              + RoutingRequests(id, task, c, replyContext, sendOk)
  {
  }

  /** POST /api/tasks/{id}/comments. `dispatched` is the list of agents the mention loop spawns (see
      `Mentions.MentionTargets`); `sendOk` and `followup` are the gateway's answers. */
  function AddComment(b: Board, id: int, author: string, content: string, dispatched: seq<string>,
                      sendOk: bool, followup: SpawnResult): (s: Step<Comment>)
    ensures Wellformed(b) ==> Wellformed(s.board)
  {
    if |content| > MaxContentLength || |author| > MaxAgentNameLength then Step(Err(InvalidComment), b)
    else if id !in b.tasks then Step(Err(TaskNotFound), b)
    else
      var c := Comment(b.nextCommentId, id, author, content, b.clock + 1);
      Step(Ok(c), Accepted(b, id, c, dispatched, sendOk, followup))
  }

  /** The board after an accepted comment `c` on task `id`: the insert, the mention spawns and the
      reply routing with the contexts read after the insert, and the binding of a follow-up session. */
  function Accepted(b: Board, id: int, c: Comment, dispatched: seq<string>, sendOk: bool,
                    followup: SpawnResult): (r: Board)
    requires id in b.tasks
    ensures Wellformed(b) && c.id == b.nextCommentId && c.createdAt == b.clock + 1 ==> Wellformed(r)
  {
    var task := b.tasks[id];
    var b1 := Posted(b, c);
    var thread := Thread(b1.comments, id);
    var b3 := Routed(b1, id, task, c, MentionContext(thread, c.id), ReplyContext(thread), dispatched, sendOk);
    if FollowsUp(task, c.agent, sendOk) then BindSpawned(b3, id, followup) else b3
  }

  /** An accepted `AddComment` is its stages in order. */
  lemma AddCommentIsStaged(b: Board, id: int, c: Comment, dispatched: seq<string>, sendOk: bool,
                           followup: SpawnResult)
    requires id in b.tasks
    ensures var b1 := Posted(b, c);
      var thread := Thread(b1.comments, id);
      var b3 := Routed(b1, id, b.tasks[id], c, MentionContext(thread, c.id), ReplyContext(thread), dispatched, sendOk);
      Accepted(b, id, c, dispatched, sendOk, followup)
        == if FollowsUp(b.tasks[id], c.agent, sendOk) then BindSpawned(b3, id, followup) else b3
  {
  }

  // ---------------------------------------------------------------------------------------------
  // Action items

  /** The position of the action item with this id. */
  function FindItem(items: seq<ActionItem>, id: int): (r: Option<nat>)
    ensures r.Some? ==> r.value < |items| && items[r.value].id == id
    ensures r.None? ==> forall i :: 0 <= i < |items| ==> items[i].id != id
  {
    if items == [] then None
    else if items[|items| - 1].id == id then Some(|items| - 1)
    else FindItem(items[..|items| - 1], id)
  }

  /** POST /api/tasks/{id}/action-items. */
  function AddActionItem(b: Board, taskId: int, agent: string, content: string, itemType: string,
                         commentId: Option<int>): (s: Step<ActionItem>)
    ensures Wellformed(b) ==> Wellformed(s.board)
    ensures s.result == Err(TaskNotFound) <==> taskId !in b.tasks
    ensures taskId !in b.tasks ==> s.board == b
  {
    if taskId !in b.tasks then Step(Err(TaskNotFound), b)
    else
      var now := b.clock + 1;
      var item := ActionItem(b.nextItemId, taskId, commentId, agent, content, itemType, false, false, now, None);
      var b1 := b.(items := b.items + [item], nextItemId := b.nextItemId + 1, clock := now);
      Step(Ok(item), Emit(b1, [ActionItemAdded(taskId, item)]))
  }

  /** POST /api/action-items/{id}/resolve: sets the flag and `resolved_at`. */
  function ResolveActionItem(b: Board, itemId: int): (s: Step<int>)
    ensures Wellformed(b) ==> Wellformed(s.board)
  {
    match FindItem(b.items, itemId)
    case None => Step(Err(ItemNotFound), b)
    case Some(k) =>
      var now := b.clock + 1;
      var item := b.items[k];
      var b1 := b.(items := b.items[k := item.(resolved := true, resolvedAt := Some(now))], clock := now);
      Step(Ok(itemId), Emit(b1, [ActionItemResolved(item.taskId, itemId)]))
  }

  /** POST /api/action-items/{id}/archive. */
  function ArchiveActionItem(b: Board, itemId: int): (s: Step<int>)
    ensures Wellformed(b) ==> Wellformed(s.board)
  {
    match FindItem(b.items, itemId)
    case None => Step(Err(ItemNotFound), b)
    case Some(k) =>
      var item := b.items[k];
      Step(Ok(itemId), Emit(b.(items := b.items[k := item.(archived := true)]), [ActionItemArchived(item.taskId, itemId)]))
  }

  /** POST /api/action-items/{id}/unarchive. */
  function UnarchiveActionItem(b: Board, itemId: int): (s: Step<int>)
    ensures Wellformed(b) ==> Wellformed(s.board)
  {
    match FindItem(b.items, itemId)
    case None => Step(Err(ItemNotFound), b)
    case Some(k) =>
      var item := b.items[k];
      Step(Ok(itemId), Emit(b.(items := b.items[k := item.(archived := false)]), [ActionItemUnarchived(item.taskId, itemId)]))
  }

  /** DELETE /api/action-items/{id}. */
  function DeleteActionItem(b: Board, itemId: int): (s: Step<int>)
    ensures Wellformed(b) ==> Wellformed(s.board)
  {
    match FindItem(b.items, itemId)
    case None => Step(Err(ItemNotFound), b)
    case Some(k) =>
      var item := b.items[k];
      Step(Ok(itemId), Emit(b.(items := b.items[..k] + b.items[k + 1..]), [ActionItemDeleted(item.taskId, itemId)]))
  }
}
