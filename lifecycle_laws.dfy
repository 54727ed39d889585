/** What the endpoints of the task board promise, stated over the `Lifecycle` functions. */
module LifecycleLaws {
  import opened Wrappers
  import opened Text
  import opened Domain
  import opened Mentions
  import opened Lifecycle

  // ---------------------------------------------------------------------------------------------
  // Create, delete, start and stop work

  /** A created task gets the next id, which no stored task holds, and starts with nobody working
      on it and no session bound. */
  lemma CreateStoresNewRow(b: Board, n: NewTask)
    requires Wellformed(b)
    ensures var s := CreateTask(b, n);
      && s.result.Ok?
      && var t := s.result.value;
      && t.id == b.nextTaskId && t.id !in b.tasks
      && s.board.tasks == b.tasks[t.id := t]
      && t.title == n.title && t.description == n.description && t.status == Some(n.status)
      && t.priority == n.priority && t.agent == n.agent && t.board == n.board
      && t.workingAgent == None && t.sessionKey == None && t.createdAt == t.updatedAt
      && s.board.log == b.log + [Activity(t.id, "created", Some(n.agent), Some("Created: " + n.title), t.createdAt + 1)]
      && s.board.events == b.events + [TaskCreated(t)]
  {
  }

  /** Creating a task and then patching its description gives the created row with the new
      description ... */
  lemma CreateThenUpdateDescription(b: Board, n: NewTask, d: string)
    requires Wellformed(b)
    ensures var s1 := CreateTask(b, n);
      s1.result.Ok? &&
      var t := s1.result.value;
      var s2 := UpdateTask(s1.board, t.id, TaskPatch(None, Some(d), None, None, None, None, None, None));
      && s2.result.Ok?
      && s2.result.value.description == d
      && s2.result.value.title == n.title && s2.result.value.status == Some(n.status)
      && s2.result.value.agent == n.agent && s2.result.value.priority == n.priority
      && s2.board.tasks[t.id] == s2.result.value
  {
    CreateStoresNewRow(b, n);
    var s1 := CreateTask(b, n);
    var t := s1.result.value;
    var p := TaskPatch(None, Some(d), None, None, None, None, None, None);
    UpdateAppliesPatch(s1.board, t.id, p);
    var t2 := UpdateTask(s1.board, t.id, p).board.tasks[t.id];
    assert Current(t2, Description) == Some(d);
    assert Current(t2, Title) == Some(t.title);
    assert Current(t2, Status) == t.status;
    assert Current(t2, AgentField) == Some(t.agent);
    assert Current(t2, Priority) == Some(t.priority);
  }

  /** ... and the patch is logged exactly when the description changed. */
  lemma CreateThenUpdateLogsChange(b: Board, n: NewTask, d: string)
    requires Wellformed(b)
    ensures var s1 := CreateTask(b, n);
      s1.result.Ok? &&
      var s2 := UpdateTask(s1.board, s1.result.value.id, TaskPatch(None, Some(d), None, None, None, None, None, None));
      s2.board.log != s1.board.log <==> d != n.description
  {
    CreateStoresNewRow(b, n);
    var s1 := CreateTask(b, n);
    var t := s1.result.value;
    var p := TaskPatch(None, Some(d), None, None, None, None, None, None);
    UpdateWritesOnlyOnChange(s1.board, t.id, p);
    NoChangeIffPatchAgrees(t, p);
    if d == n.description {
      forall f | Requested(p, f).Some? ensures Requested(p, f) == Current(t, f) {
        assert f == Description;
      }
    } else {
      assert Requested(p, Description) != Current(t, Description);
      assert |UpdateTask(s1.board, t.id, p).board.log| == |s1.board.log| + 1;
    }
  }

  /** Deleting removes the task and nothing else: its comments and action items stay, and a second
      delete of the same id is a 404. */
  lemma DeleteRemovesOnlyTheRow(b: Board, id: int)
    requires id in b.tasks
    ensures var s := DeleteTask(b, id);
      && s.result == Ok(id)
      && s.board.tasks == b.tasks - {id}
      && s.board.comments == b.comments && s.board.items == b.items
      && s.board.events == b.events + [TaskDeleted(id)]
      && DeleteTask(s.board, id) == Step(Err(TaskNotFound), s.board)
  {
  }

  /** Start-work then stop-work leaves the working indicator empty and broadcasts both events, in
      order; stop-work refreshes `updated_at` even if nobody was working. */
  lemma StartThenStopWork(b: Board, id: int, agent: string)
    requires id in b.tasks
    ensures var s1 := StartWork(b, id, agent);
      var s2 := StopWork(s1.board, id);
      && s1.board.tasks[id].workingAgent == Some(agent)
      && s2.result == Ok(id)
      && s2.board.tasks[id] == b.tasks[id].(workingAgent := None, updatedAt := b.clock + 2)
      && s2.board.events == b.events + [WorkStarted(id, agent), WorkStopped(id)]
  {
  }

  // ---------------------------------------------------------------------------------------------
  // The diffing update

  lemma AllFieldsListed(f: Field)
    ensures f in UpdatableFields
  {
  }

  /** `update_fields` holds exactly the listed fields whose given value differs from the stored one. */
  lemma {:induction false} DifferingMembers(fs: seq<Field>, t: Task, p: TaskPatch)
    ensures forall f :: f in Differing(fs, t, p) <==> f in fs && Differs(t, p, f)
  {
    if fs != [] {
      var init := fs[..|fs| - 1];
      DifferingMembers(init, t, p);
      assert fs == init + [fs[|fs| - 1]];
    }
  }

  /** The UPDATE statement sets each listed field that the patch gives, and only those. */
  lemma {:induction false} ApplyChangesFields(t: Task, p: TaskPatch, fs: seq<Field>)
    ensures forall g :: Current(ApplyChanges(t, p, fs), g) ==
                        if g in fs && Requested(p, g).Some? then Requested(p, g) else Current(t, g)
  {
    if fs != [] {
      var init := fs[..|fs| - 1];
      var last := fs[|fs| - 1];
      var rest := ApplyChanges(t, p, init);
      ApplyChangesFields(t, p, init);
      assert fs == init + [last];
      forall g ensures Current(ApplyChanges(t, p, fs), g) ==
                       if g in fs && Requested(p, g).Some? then Requested(p, g) else Current(t, g) {
        if g != last && Requested(p, last).Some? {
          WithFieldKeepsOthers(rest, last, Requested(p, last).value, g);
        }
      }
    }
  }

  /** After a PATCH every given field has the requested value and every other column is as it was;
      the other tasks are untouched. */
  lemma UpdateAppliesPatch(b: Board, id: int, p: TaskPatch)
    requires id in b.tasks
    ensures var s := UpdateTask(b, id, p);
      && id in s.board.tasks
      && var t := s.board.tasks[id]; var cur := b.tasks[id];
      && s.result == TaskReply(t)
      && s.board.tasks == b.tasks[id := t]
      && (forall f :: Current(t, f) == if Requested(p, f).Some? then Requested(p, f) else Current(cur, f))
      && t.id == cur.id && t.createdAt == cur.createdAt && t.board == cur.board
      && t.workingAgent == cur.workingAgent && t.sessionKey == cur.sessionKey
      && s.board.comments == b.comments && s.board.items == b.items && s.board.outbox == b.outbox
  {
    var cur := b.tasks[id];
    var changed := Differing(UpdatableFields, cur, p);
    DifferingMembers(UpdatableFields, cur, p);
    ApplyChangesFields(cur, p, changed);
    if changed != [] {
      var applied := ApplyChanges(cur, p, changed);
      forall f ensures Current(applied.(updatedAt := b.clock + 1), f) ==
                       if Requested(p, f).Some? then Requested(p, f) else Current(cur, f) {
        AllFieldsListed(f);
        assert Current(applied.(updatedAt := b.clock + 1), f) == Current(applied, f);
      }
    } else {
      forall f ensures Current(cur, f) == if Requested(p, f).Some? then Requested(p, f) else Current(cur, f) {
        AllFieldsListed(f);
      }
    }
  }

  /** A patch changes nothing exactly when every field it gives already has that value. */
  lemma NoChangeIffPatchAgrees(t: Task, p: TaskPatch)
    ensures Differing(UpdatableFields, t, p) == [] <==>
            forall f :: Requested(p, f).Some? ==> Requested(p, f) == Current(t, f)
  {
    var changed := Differing(UpdatableFields, t, p);
    DifferingMembers(UpdatableFields, t, p);
    if changed != [] {
      assert Differs(t, p, changed[0]);
    } else {
      forall f | Requested(p, f).Some? ensures Requested(p, f) == Current(t, f) {
        AllFieldsListed(f);
      }
    }
  }

  /** A no-op patch writes no row, logs nothing and does not tick the clock, but still broadcasts the
      row; any other patch refreshes `updated_at` and logs one "updated" entry that lists the
      changes, attributed to the patch's agent or else the task's. */
  lemma UpdateWritesOnlyOnChange(b: Board, id: int, p: TaskPatch)
    requires id in b.tasks
    ensures var s := UpdateTask(b, id, p); var cur := b.tasks[id];
      var changed := Differing(UpdatableFields, cur, p);
      && (changed == [] ==>
            s.board.tasks == b.tasks && s.board.log == b.log && s.board.clock == b.clock
            && s.board.events == b.events + [TaskUpdated(cur)])
      && (changed != [] ==>
            s.board.tasks[id].updatedAt == b.clock + 1
            && s.board.log == b.log + [Activity(id, "updated", Some(OrElse(p.agent, cur.agent)),
                                                Some(Join(ChangeLines(cur, p, changed), "; ")), b.clock + 2)]
            && s.board.events == b.events + [TaskUpdated(s.board.tasks[id])])
  {
    var cur := b.tasks[id];
    var changed := Differing(UpdatableFields, cur, p);
    if changed != [] {
      var t := ApplyChanges(cur, p, changed).(updatedAt := b.clock + 1);
      var b2 := LogActivity(b.(tasks := b.tasks[id := t], clock := b.clock + 1), id, "updated",
                            Some(OrElse(p.agent, cur.agent)), Some(Join(ChangeLines(cur, p, changed), "; ")));
      assert UpdateTask(b, id, p) == Step(TaskReply(t), Emit(b2, [TaskUpdated(t)]));
    }
  }

  /** The update endpoint does not apply the lifecycle rules: any caller can set "Done" through it,
      and the working indicator and bound session are left in place. */
  lemma UpdateBypassesDoneRule(b: Board, id: int, p: TaskPatch)
    requires id in b.tasks && p.status == Some("Done")
    ensures var s := UpdateTask(b, id, p);
      && s.result.Ok?
      && s.board.tasks[id].status == Some("Done")
      && s.board.tasks[id].workingAgent == b.tasks[id].workingAgent
      && s.board.tasks[id].sessionKey == b.tasks[id].sessionKey
      && s.board.outbox == b.outbox && s.board.items == b.items
  {
    UpdateAppliesPatch(b, id, p);
    assert Requested(p, Status) == Some("Done");
  }

  /** A PATCH that leaves a NULL status in place is answered with a 500, yet its writes stand: the
      row is updated, the change logged and the row broadcast as for any other patch. */
  lemma UpdateOfNullStatusFails(b: Board, id: int, p: TaskPatch)
    requires id in b.tasks && b.tasks[id].status == None && p.status == None
    ensures var s := UpdateTask(b, id, p);
      && s.result == Err(InvalidResponse)
      && s.board.tasks[id].status == None
      && s.board.events == b.events + [TaskUpdated(s.board.tasks[id])]
      && (Differing(UpdatableFields, b.tasks[id], p) != [] ==> |s.board.log| == |b.log| + 1)
  {
    UpdateAppliesPatch(b, id, p);
    UpdateWritesOnlyOnChange(b, id, p);
    assert Requested(p, Status) == None;
    assert Current(UpdateTask(b, id, p).board.tasks[id], Status) == None;
  }

  /** A move without a status stores NULL, after which patching the title answers 500 although the
      new title is written and logged. */
  lemma MoveWithoutStatusThenPatchFails(b: Board, id: int, agent: Option<string>, spawn: SpawnResult, title: string)
    requires Wellformed(b) && id in b.tasks && title != b.tasks[id].title
    ensures var s1 := Move(b, id, None, agent, None, spawn);
      var s2 := UpdateTask(s1.board, id, TaskPatch(Some(title), None, None, None, None, None, None, None));
      && s1.result.Ok?
      && s2.result == Err(InvalidResponse)
      && s2.board.tasks[id].title == title
      && |s2.board.log| == |s1.board.log| + 1
  {
    MoveWritesStatus(b, id, None, agent, None, spawn);
    var s1 := Move(b, id, None, agent, None, spawn);
    var p := TaskPatch(Some(title), None, None, None, None, None, None, None);
    UpdateOfNullStatusFails(s1.board, id, p);
    UpdateAppliesPatch(s1.board, id, p);
    DifferingMembers(UpdatableFields, s1.board.tasks[id], p);
    assert Requested(p, Title) == Some(title);
    assert Current(UpdateTask(s1.board, id, p).board.tasks[id], Title) == Some(title);
    assert Differs(s1.board.tasks[id], p, Title);
  }

  // ---------------------------------------------------------------------------------------------
  // The move state machine

  /** A move is refused exactly for an unknown task, or for "Done" asked by anyone but the human;
      a refused move changes nothing. */
  lemma MoveRefusals(b: Board, id: int, status: Option<string>, agent: Option<string>, reason: Option<string>,
                     spawn: SpawnResult)
    ensures var s := Move(b, id, status, agent, reason, spawn);
      && (s.result.Err? <==> id !in b.tasks || (status == Some("Done") && agent != Some(Human)))
      && (id !in b.tasks ==> s == Step(Err(TaskNotFound), b))
      && (id in b.tasks && status == Some("Done") && agent != Some(Human) ==> s == Step(Err(OnlyUserCanFinish), b))
  {
  }

  /** An accepted move writes the new status (NULL when none is given), logs one "moved" entry, and
      leaves the task's other columns and the other tasks as they were, except for what the spawn
      and the Done cleanup bind or clear. */
  lemma MoveWritesStatus(b: Board, id: int, status: Option<string>, agent: Option<string>, reason: Option<string>,
                         spawn: SpawnResult)
    requires id in b.tasks && (status == Some("Done") ==> agent == Some(Human))
    ensures var s := Move(b, id, status, agent, reason, spawn); var t := b.tasks[id];
      && s.result.Ok? && s.result.value.newStatus == status
      && s.board.tasks.Keys == b.tasks.Keys
      && (forall k :: k in b.tasks && k != id ==> s.board.tasks[k] == b.tasks[k])
      && var t' := s.board.tasks[id];
      && t'.status == status && t'.title == t.title && t'.description == t.description
      && t'.priority == t.priority && t'.agent == t.agent && t'.dueDate == t.dueDate
      && t'.createdAt == t.createdAt && t'.board == t.board
      && t'.workingAgent == (if status == Some("Done") then None else t.workingAgent)
      && s.board.log == b.log + [Activity(id, "moved", agent, Some("Moved to " + Show(status)), b.clock + 2)]
      && s.board.comments == b.comments
  {
  }

  /** The action item rule is edge-triggered: an item is created exactly when the move enters Review
      or Blocked from another status, as a "completion" or "blocker" item carrying the reason or
      else the default text, owned by the moving agent or else the assignee. */
  lemma MoveCreatesItemOnEntry(b: Board, id: int, status: Option<string>, agent: Option<string>,
                               reason: Option<string>, spawn: SpawnResult)
    requires id in b.tasks && (status == Some("Done") ==> agent == Some(Human))
    ensures var s := Move(b, id, status, agent, reason, spawn); var t := b.tasks[id];
      var entering := (status == Some("Review") && t.status != Some("Review"))
                      || (status == Some("Blocked") && t.status != Some("Blocked"));
      && (s.result.value.actionItemCreated <==> entering)
      && (!entering ==> s.board.items == b.items && s.board.nextItemId == b.nextItemId)
      && (entering ==>
            && |s.board.items| == |b.items| + 1 && s.board.items[..|b.items|] == b.items
            && var item := s.board.items[|b.items|];
            && item.id == b.nextItemId && item.taskId == id && item.commentId == None
            && item.agent == (if Truthy(agent) then agent.value else t.agent)
            && item.itemType == (if status == Some("Review") then "completion" else "blocker")
            && item.content == (if Truthy(reason) then reason.value
                                else if status == Some("Review") then "Ready for review: " + t.title
                                else "Blocked: " + t.title + " - reason not specified")
            && !item.resolved && !item.archived && item.resolvedAt == None)
  {
    var s := Move(b, id, status, agent, reason, spawn);
    var t := b.tasks[id];
    var entering := (status == Some("Review") && t.status != Some("Review"))
                    || (status == Some("Blocked") && t.status != Some("Blocked"));
    if entering {
      assert s.board.items == b.items + [s.board.items[|b.items|]];
    }
  }

  /** Moving to Review twice creates exactly one action item. */
  lemma ReviewTwiceCreatesOneItem(b: Board, id: int, agent: Option<string>, reason: Option<string>,
                                  agent2: Option<string>, reason2: Option<string>, spawn: SpawnResult,
                                  spawn2: SpawnResult)
    requires id in b.tasks
    ensures var s1 := Move(b, id, Some("Review"), agent, reason, spawn);
      var s2 := Move(s1.board, id, Some("Review"), agent2, reason2, spawn2);
      && s1.result.Ok? && s2.result.Ok?
      && !s2.result.value.actionItemCreated
      && s2.board.items == s1.board.items
      && |s2.board.items| == |b.items| + (if b.tasks[id].status == Some("Review") then 0 else 1)
  {
    MoveWritesStatus(b, id, Some("Review"), agent, reason, spawn);
    var s1 := Move(b, id, Some("Review"), agent, reason, spawn);
    MoveCreatesItemOnEntry(b, id, Some("Review"), agent, reason, spawn);
    MoveCreatesItemOnEntry(s1.board, id, Some("Review"), agent2, reason2, spawn2);
  }

  /** The reply's `agentSpawned` is the auto-spawn rule itself, whatever the gateway answered; the
      spawn request carries the task's title, description and assignee. */
  lemma MoveSpawnsOnEntryToInProgress(b: Board, id: int, status: Option<string>, agent: Option<string>,
                                       reason: Option<string>, spawn: SpawnResult, other: SpawnResult)
    requires id in b.tasks && (status == Some("Done") ==> agent == Some(Human))
    ensures var s := Move(b, id, status, agent, reason, spawn); var t := b.tasks[id];
      var wanted := SpawnWanted(t.status, status, t.agent);
      && (s.result.value.agentSpawned <==> wanted)
      && s.result == Move(b, id, status, agent, reason, other).result
      && s.board.outbox == b.outbox
           + (if wanted then [SpawnWork(id, t.title, t.description, t.agent)] else [])
           + (if status == Some("Done") && Truthy(t.sessionKey) then [DoneNotice(t.sessionKey.value, id)] else [])
      && (wanted ==> s.board.tasks[id].sessionKey ==
                       if spawn.Spawned? && Truthy(spawn.childSessionKey) then spawn.childSessionKey
                       else t.sessionKey)
  {
  }

  /** Entering In Progress wakes a known agent only: an unassigned task, or one assigned to the
      human, is moved without a spawn. */
  lemma NoSpawnForHumanOrUnknownAssignee(oldStatus: Option<string>, assignee: string)
    requires assignee == Human || assignee !in Roster
    ensures !SpawnWanted(oldStatus, Some("In Progress"), assignee)
  {
  }

  /** The Done cleanup clears the working indicator and, on a well-formed board, leaves no session
      bound; `sessionCleared` says whether a session was bound before. */
  lemma MoveToDoneCleansUp(b: Board, id: int, reason: Option<string>, spawn: SpawnResult)
    requires Wellformed(b) && id in b.tasks
    ensures var s := Move(b, id, Some("Done"), Some(Human), reason, spawn); var t := b.tasks[id];
      && s.result.Ok?
      && s.board.tasks[id].workingAgent == None
      && s.board.tasks[id].sessionKey == None
      && (s.result.value.sessionCleared <==> Truthy(t.sessionKey))
      && !s.result.value.agentSpawned && !s.result.value.actionItemCreated
      && Wellformed(s.board)
      && s.board.events == b.events + [TaskUpdated(t.(status := Some("Done"), updatedAt := b.clock + 1)), WorkStopped(id)]
      && s.board.outbox == b.outbox + (if Truthy(t.sessionKey) then [DoneNotice(t.sessionKey.value, id)] else [])
      && s.board.log == b.log + [Activity(id, "moved", Some(Human), Some("Moved to Done"), b.clock + 2)]
  {
    assert TaskWellformed(b, id);
    MoveToDoneSteps(b, id, reason, spawn);
    assert "Moved to " + Show(Some("Done")) == "Moved to Done";
  }

  /** A move to Done by the human is the status write, the broadcast of the row, and the cleanup. */
  lemma MoveToDoneSteps(b: Board, id: int, reason: Option<string>, spawn: SpawnResult)
    requires id in b.tasks
    ensures var c := DoneCleanup(Announce(Moved(b, id, Some("Done"), Some(Human)), id, None), id);
      Move(b, id, Some("Done"), Some(Human), reason, spawn) == Step(Ok(MoveReply(Some("Done"), false, false, c.cleared)), c.board)
  {
    var status := Some("Done");
    var b1 := Moved(b, id, status, Some(Human));
    var item := AutoItem(id, b.tasks[id], status, Some(Human), reason, b.nextItemId, b.clock + 1);
    var b2 := Announce(b1, id, item);
    var spawned := SpawnWanted(b.tasks[id].status, status, b.tasks[id].agent);
    MoveIsStaged(b, id, status, Some(Human), reason, spawn, b1, item, b2, spawned, b2, Finish(b2, id, status));
  }

  /** The messages of a move, in order: the updated row, the new action item if any, and
      `work_stopped` for a move to Done. */
  lemma MoveEventOrder(b: Board, id: int, status: Option<string>, agent: Option<string>, reason: Option<string>,
                       spawn: SpawnResult)
    requires id in b.tasks && (status == Some("Done") ==> agent == Some(Human))
    ensures var s := Move(b, id, status, agent, reason, spawn); var t := b.tasks[id];
      var item := AutoItem(id, t, status, agent, reason, b.nextItemId, b.clock + 1);
      s.board.events == b.events
        + [TaskUpdated(t.(status := status, updatedAt := b.clock + 1))]
        + (if item.Some? then [ActionItemAdded(id, item.value)] else [])
        + (if status == Some("Done") then [WorkStopped(id)] else [])
  {
    var t := b.tasks[id];
    var b1 := Moved(b, id, status, agent);
    var item := AutoItem(id, t, status, agent, reason, b.nextItemId, b.clock + 1);
    var b2 := Announce(b1, id, item);
    AnnounceEvents(b1, id, item);
    var spawned := SpawnWanted(t.status, status, t.agent);
    var b3 := AutoSpawn(b2, id, spawned, spawn);
    FinishEvents(b3, id, status);
    MoveIsStaged(b, id, status, agent, reason, spawn, b1, item, b2, spawned, b3, Finish(b3, id, status));
  }

  // ---------------------------------------------------------------------------------------------
  // Comments

  /** A comment is refused exactly when the content or the author is too long, or the task is
      unknown; a refused comment changes nothing. */
  lemma CommentRefusals(b: Board, id: int, author: string, content: string, dispatched: seq<string>,
                        sendOk: bool, followup: SpawnResult)
    ensures var s := AddComment(b, id, author, content, dispatched, sendOk, followup);
      && (s.result == Err(InvalidComment) <==> |content| > MaxContentLength || |author| > MaxAgentNameLength)
      && (s.result.Err? <==> |content| > MaxContentLength || |author| > MaxAgentNameLength || id !in b.tasks)
      && (s.result.Err? ==> s.board == b)
  {
  }

  /** An accepted comment is stored with the next id and a fresh time, and broadcast. */
  lemma CommentAppended(b: Board, id: int, author: string, content: string, dispatched: seq<string>,
                        sendOk: bool, followup: SpawnResult)
    requires |content| <= MaxContentLength && |author| <= MaxAgentNameLength && id in b.tasks
    ensures var s := AddComment(b, id, author, content, dispatched, sendOk, followup);
      var c := Comment(b.nextCommentId, id, author, content, b.clock + 1);
      && s.result == Ok(c)
      && s.board.comments == b.comments + [c]
      && s.board.events == b.events + [CommentAdded(id, c)]
  {
    var c := Comment(b.nextCommentId, id, author, content, b.clock + 1);
    var b1 := Posted(b, c);
    PostedTouchesComments(b, c);
    var thread := Thread(b1.comments, id);
    var b3 := Routed(b1, id, b.tasks[id], c, MentionContext(thread, c.id), ReplyContext(thread), dispatched, sendOk);
    RoutedTouchesOutbox(b1, id, b.tasks[id], c, MentionContext(thread, c.id), ReplyContext(thread), dispatched, sendOk);
    AddCommentIsStaged(b, id, c, dispatched, sendOk, followup);
    BindSpawnedTouchesOneRow(b3, id, followup);
  }

  /** A comment creates no action item and logs no activity. */
  lemma CommentLogsNothing(b: Board, id: int, author: string, content: string, dispatched: seq<string>,
                           sendOk: bool, followup: SpawnResult)
    requires |content| <= MaxContentLength && |author| <= MaxAgentNameLength && id in b.tasks
    ensures var s := AddComment(b, id, author, content, dispatched, sendOk, followup);
      s.board.items == b.items && s.board.log == b.log
  {
    var c := Comment(b.nextCommentId, id, author, content, b.clock + 1);
    var b1 := Posted(b, c);
    PostedTouchesComments(b, c);
    var thread := Thread(b1.comments, id);
    var b3 := Routed(b1, id, b.tasks[id], c, MentionContext(thread, c.id), ReplyContext(thread), dispatched, sendOk);
    RoutedTouchesOutbox(b1, id, b.tasks[id], c, MentionContext(thread, c.id), ReplyContext(thread), dispatched, sendOk);
    AddCommentIsStaged(b, id, c, dispatched, sendOk, followup);
    BindSpawnedTouchesOneRow(b3, id, followup);
  }

  /** The follow-up binding on a board whose task rows and clock are those of `b` one tick later. */
  lemma FollowupBinding(b: Board, b3: Board, id: int, follows: bool, followup: SpawnResult)
    requires id in b.tasks && b3.tasks == b.tasks && b3.clock == b.clock + 1
    ensures (if follows then BindSpawned(b3, id, followup) else b3).tasks
         == if follows && followup.Spawned? && Truthy(followup.childSessionKey)
            then b.tasks[id := b.tasks[id].(sessionKey := followup.childSessionKey, updatedAt := b.clock + 2)]
            else b.tasks
  {
    if follows {
      BindSpawnedTouchesOneRow(b3, id, followup);
    }
  }

  /** A comment writes no task row, except that a follow-up spawn binds the new session to the
      comment's own task. */
  lemma CommentBindsOnlyFollowup(b: Board, id: int, author: string, content: string, dispatched: seq<string>,
                                 sendOk: bool, followup: SpawnResult)
    requires |content| <= MaxContentLength && |author| <= MaxAgentNameLength && id in b.tasks
    ensures var s := AddComment(b, id, author, content, dispatched, sendOk, followup);
      s.board.tasks == (if FollowsUp(b.tasks[id], author, sendOk) && followup.Spawned? && Truthy(followup.childSessionKey)
                        then b.tasks[id := b.tasks[id].(sessionKey := followup.childSessionKey, updatedAt := b.clock + 2)]
                        else b.tasks)
  {
    var c := Comment(b.nextCommentId, id, author, content, b.clock + 1);
    var b1 := Posted(b, c);
    PostedTouchesComments(b, c);
    var thread := Thread(b1.comments, id);
    var b3 := Routed(b1, id, b.tasks[id], c, MentionContext(thread, c.id), ReplyContext(thread), dispatched, sendOk);
    RoutedTouchesOutbox(b1, id, b.tasks[id], c, MentionContext(thread, c.id), ReplyContext(thread), dispatched, sendOk);
    AddCommentIsStaged(b, id, c, dispatched, sendOk, followup);
    FollowupBinding(b, b3, id, FollowsUp(b.tasks[id], author, sendOk), followup);
  }

  /** The gateway calls of an accepted comment: one spawn per dispatched mention, then the reply
      routing. */
  lemma CommentOutbox(b: Board, id: int, author: string, content: string, dispatched: seq<string>,
                      sendOk: bool, followup: SpawnResult)
    requires |content| <= MaxContentLength && |author| <= MaxAgentNameLength && id in b.tasks
    ensures var c := Comment(b.nextCommentId, id, author, content, b.clock + 1);
      var thread := Thread(b.comments + [c], id);
      AddComment(b, id, author, content, dispatched, sendOk, followup).board.outbox
        == b.outbox + MentionRequests(id, b.tasks[id], author, content, MentionContext(thread, c.id), dispatched)
           + RoutingRequests(id, b.tasks[id], c, ReplyContext(thread), sendOk)
  {
    var c := Comment(b.nextCommentId, id, author, content, b.clock + 1);
    var b1 := Posted(b, c);
    var thread := Thread(b1.comments, id);
    var b3 := Routed(b1, id, b.tasks[id], c, MentionContext(thread, c.id), ReplyContext(thread), dispatched, sendOk);
    PostedTouchesComments(b, c);
    AddCommentIsStaged(b, id, c, dispatched, sendOk, followup);
    AcceptedOutbox(b, id, c, dispatched, sendOk, followup);
  }

  /** The outbox after an accepted comment: the insert sends nothing, the dispatch appends its
      requests, and the follow-up binding sends nothing. */
  lemma AcceptedOutbox(b: Board, id: int, c: Comment, dispatched: seq<string>, sendOk: bool, followup: SpawnResult)
    requires id in b.tasks
    ensures var thread := Thread(b.comments + [c], id);
      Accepted(b, id, c, dispatched, sendOk, followup).outbox
        == b.outbox + MentionRequests(id, b.tasks[id], c.agent, c.content, MentionContext(thread, c.id), dispatched)
           + RoutingRequests(id, b.tasks[id], c, ReplyContext(thread), sendOk)
  {
    var b1 := Posted(b, c);
    var thread := Thread(b1.comments, id);
    var b3 := Routed(b1, id, b.tasks[id], c, MentionContext(thread, c.id), ReplyContext(thread), dispatched, sendOk);
    PostedTouchesComments(b, c);
    RoutedTouchesOutbox(b1, id, b.tasks[id], c, MentionContext(thread, c.id), ReplyContext(thread), dispatched, sendOk);
    AddCommentIsStaged(b, id, c, dispatched, sendOk, followup);
    BindSpawnedTouchesOneRow(b3, id, followup);
  }


  /** The routing of a human reply on an active task assigned to a known agent: the message goes to
      the bound session, and only when there is none or it is not delivered does a follow-up spawn
      get the reply context. */
  lemma HumanReplyRouting(id: int, t: Task, c: Comment, context: seq<ContextLine>, sendOk: bool)
    requires c.agent == Human && t.status in {Some("In Progress"), Some("Review")}
    requires t.agent in Roster && t.agent != Human
    ensures RoutingRequests(id, t, c, context, sendOk)
      == (if Truthy(t.sessionKey) then [UserReply(t.sessionKey.value, id, c.content)] else [])
         + (if Truthy(t.sessionKey) && sendOk then [] else [SpawnFollowup(id, t.title, t.agent, context, c.content)])
  {
  }

  /** A human comment on a task that is not active, or not assigned to a known agent, causes no
      routing call. */
  lemma IdleHumanCommentIsNotRouted(id: int, t: Task, c: Comment, context: seq<ContextLine>, sendOk: bool)
    requires c.agent == Human
    requires t.status !in {Some("In Progress"), Some("Review")} || t.agent !in Roster || t.agent == Human
    ensures RoutingRequests(id, t, c, context, sendOk) == []
  {
  }

  /** A comment from an author outside the board's known identities wakes the main agent with an
      excerpt; one from a roster agent or System causes no routing call. */
  lemma OtherAuthorRouting(id: int, t: Task, c: Comment, context: seq<ContextLine>, sendOk: bool)
    requires c.agent != Human
    ensures RoutingRequests(id, t, c, context, sendOk)
      == if IsExternalAuthor(c.agent) then [NotifyWake(id, t.title, c.agent, NotifyExcerpt(c.content))] else []
  {
  }

  /** The two contexts an accepted comment hands on: the five comments before it for a mentioned
      agent, the four before it for a follow-up. */
  lemma CommentContexts(b: Board, id: int, author: string, content: string)
    requires Wellformed(b)
    ensures var c := Comment(b.nextCommentId, id, author, content, b.clock + 1);
      && MentionContext(Thread(b.comments + [c], id), c.id) == Excerpts(LastN(Thread(b.comments, id), 5))
      && ReplyContext(Thread(b.comments + [c], id)) == Excerpts(LastN(Thread(b.comments, id), 4))
  {
    var c := Comment(b.nextCommentId, id, author, content, b.clock + 1);
    var previous := Thread(b.comments, id);
    ThreadAppend(b.comments, c);
    ThreadMembers(b.comments, id);
    forall x | x in previous ensures x.id != c.id {
      var i :| 0 <= i < |b.comments| && b.comments[i] == x;
    }
    MentionContextIsFivePrevious(previous, c);
    ReplyContextIsFourPrevious(previous, c);
  }

  // ---------------------------------------------------------------------------------------------
  // Action items

  /** Every action-item endpoint answers 404, and changes nothing, exactly when no item has the id. */
  lemma UnknownItemIsNotFound(b: Board, itemId: int)
    ensures var absent := forall i :: 0 <= i < |b.items| ==> b.items[i].id != itemId;
      && (ResolveActionItem(b, itemId).result.Err? <==> absent)
      && (ArchiveActionItem(b, itemId).result.Err? <==> absent)
      && (UnarchiveActionItem(b, itemId).result.Err? <==> absent)
      && (DeleteActionItem(b, itemId).result.Err? <==> absent)
      && (absent ==>
            && ResolveActionItem(b, itemId) == Step(Err(ItemNotFound), b)
            && ArchiveActionItem(b, itemId) == Step(Err(ItemNotFound), b)
            && UnarchiveActionItem(b, itemId) == Step(Err(ItemNotFound), b)
            && DeleteActionItem(b, itemId) == Step(Err(ItemNotFound), b))
  {
  }

  /** On a well-formed board an item id names exactly one position. */
  lemma FindItemLocates(b: Board, k: nat)
    requires Wellformed(b) && k < |b.items|
    ensures FindItem(b.items, b.items[k].id) == Some(k)
  {
  }

  /** Resolving sets `resolved` and `resolved_at` on that item only; archiving and unarchiving set
      `archived` only; the two flags are independent. */
  lemma ItemFlagsAreIndependent(b: Board, k: nat)
    requires Wellformed(b) && k < |b.items|
    ensures var it := b.items[k];
      && ResolveActionItem(b, it.id).board.items == b.items[k := it.(resolved := true, resolvedAt := Some(b.clock + 1))]
      && ArchiveActionItem(b, it.id).board.items == b.items[k := it.(archived := true)]
      && UnarchiveActionItem(b, it.id).board.items == b.items[k := it.(archived := false)]
      && ResolveActionItem(b, it.id).board.events == b.events + [ActionItemResolved(it.taskId, it.id)]
  {
    FindItemLocates(b, k);
  }

  /** Archiving and then unarchiving an item that was not archived gives the items back. */
  lemma ArchiveUnarchiveRoundTrip(b: Board, k: nat)
    requires Wellformed(b) && k < |b.items| && !b.items[k].archived
    ensures var id := b.items[k].id;
      UnarchiveActionItem(ArchiveActionItem(b, id).board, id).board.items == b.items
  {
    var id := b.items[k].id;
    FindItemLocates(b, k);
    var b1 := ArchiveActionItem(b, id).board;
    assert Wellformed(b1) && b1.items[k].id == id;
    FindItemLocates(b1, k);
  }

  /** Deleting removes that item only, keeping the others in order; the id is then unknown. */
  lemma DeleteItemRemovesIt(b: Board, k: nat)
    requires Wellformed(b) && k < |b.items|
    ensures var id := b.items[k].id; var s := DeleteActionItem(b, id);
      && s.result == Ok(id)
      && s.board.items == b.items[..k] + b.items[k + 1..]
      && ResolveActionItem(s.board, id).result == Err(ItemNotFound)
  {
    var id := b.items[k].id;
    FindItemLocates(b, k);
    var rest := b.items[..k] + b.items[k + 1..];
    forall i | 0 <= i < |rest| ensures rest[i].id != id {
      if i < k { assert rest[i] == b.items[i]; } else { assert rest[i] == b.items[i + 1]; }
    }
  }

  /** An added action item carries the request's fields, starts unresolved and unarchived, takes an
      id and a time no stored item has, and is appended and broadcast; nothing else changes. */
  lemma AddedItemIsStored(b: Board, taskId: int, agent: string, content: string, itemType: string,
                          commentId: Option<int>)
    requires Wellformed(b) && taskId in b.tasks
    ensures var s := AddActionItem(b, taskId, agent, content, itemType, commentId);
      && s.result.Ok?
      && var it := s.result.value;
      && it.taskId == taskId && it.commentId == commentId && it.agent == agent && it.content == content
      && it.itemType == itemType && !it.resolved && !it.archived && it.resolvedAt == None
      && (forall i :: 0 <= i < |b.items| ==> b.items[i].id != it.id && b.items[i].createdAt < it.createdAt)
      && s.board.items == b.items + [it]
      && FindItem(s.board.items, it.id) == Some(|b.items|)
      && s.board.events == b.events + [ActionItemAdded(taskId, it)]
      && s.board.tasks == b.tasks && s.board.comments == b.comments && s.board.log == b.log
      && s.board.outbox == b.outbox
  {
  }

}
