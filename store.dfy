/** The board as the server holds it: the tables and the counters are fields that each endpoint
    updates statement by statement, in the order the code issues its writes. Every endpoint is
    tied to its `Lifecycle` function, which carries the properties. */
module Store {
  import opened Wrappers
  import opened Text
  import opened Domain
  import opened Mentions
  import Lifecycle

  class TaskBoard {
    var tasks: map<int, Task>
    var comments: seq<Comment>
    var items: seq<ActionItem>
    var log: seq<Activity>
    var events: seq<Event>
    var outbox: seq<Request>
    var clock: nat
    var nextTaskId: nat
    var nextCommentId: nat
    var nextItemId: nat

    /** The tables as a value. */
    function Model(): Lifecycle.Board
      reads this
    {
      Lifecycle.Board(tasks, comments, items, log, events, outbox, clock, nextTaskId, nextCommentId, nextItemId)
    }

    /** `init_db` on an empty database file. */
    constructor ()
      ensures Model() == Lifecycle.EmptyBoard
    {
      tasks, comments, items, log, events, outbox := map[], [], [], [], [], [];
      clock, nextTaskId, nextCommentId, nextItemId := 0, 1, 1, 1;
    }

    /** `datetime.now()`. */
    method Now() returns (t: nat)
      modifies this`clock
      ensures clock == old(clock) + 1 && t == clock
    {
      clock := clock + 1;
      t := clock;
    }

    /** `log_activity`. */
    method LogActivity(taskId: int, action: string, agent: Option<string>, details: Option<string>)
      modifies this`log, this`clock
      ensures clock == old(clock) + 1
      ensures log == old(log) + [Activity(taskId, action, agent, details, clock)]
    {
      var now := Now();
      log := log + [Activity(taskId, action, agent, details, now)];
    }

    /** `set_task_session`. */
    method SetTaskSession(id: int, key: Option<string>)
      requires id in tasks
      modifies this`tasks, this`clock
      ensures clock == old(clock) + 1
      ensures tasks == old(tasks)[id := old(tasks)[id].(sessionKey := key, updatedAt := clock)]
    {
      var now := Now();
      tasks := tasks[id := tasks[id].(sessionKey := key, updatedAt := now)];
    }

    /** The tail of the spawn helpers: a reply with a non-empty child key is bound to the task. */
    method BindSpawned(id: int, r: SpawnResult)
      requires id in tasks
      modifies this`tasks, this`clock
      ensures Model() == Lifecycle.BindSpawned(old(Model()), id, r)
    {
      if r.Spawned? && Truthy(r.childSessionKey) {
        SetTaskSession(id, r.childSessionKey);
      }
    }

    /** POST /api/tasks. */
    method CreateTask(n: NewTask) returns (t: Task)
      modifies this
      ensures var s := Lifecycle.CreateTask(old(Model()), n); s.result == Ok(t) && Model() == s.board
    {
      var now := Now();
      t := Task(nextTaskId, n.title, n.description, Some(n.status), n.priority, n.agent, n.dueDate,
                now, now, n.board, n.sourceFile, n.sourceRef, None, None);
      tasks := tasks[t.id := t];
      nextTaskId := nextTaskId + 1;
      LogActivity(t.id, "created", Some(n.agent), Some("Created: " + n.title));
      events := events + [TaskCreated(t)];
    }

    /** DELETE /api/tasks/{id}. */
    method DeleteTask(id: int) returns (r: Result<int>)
      modifies this
      ensures var s := Lifecycle.DeleteTask(old(Model()), id); r == s.result && Model() == s.board
    {
      if id !in tasks {
        return Err(TaskNotFound);
      }
      var title := tasks[id].title;
      tasks := tasks - {id};
      LogActivity(id, "deleted", None, Some("Deleted: " + title));
      events := events + [TaskDeleted(id)];
      r := Ok(id);
    }

    /** POST /api/tasks/{id}/start-work. */
    method StartWork(id: int, agent: string) returns (r: Result<int>)
      modifies this
      ensures var s := Lifecycle.StartWork(old(Model()), id, agent); r == s.result && Model() == s.board
    {
      if id !in tasks {
        return Err(TaskNotFound);
      }
      var now := Now();
      tasks := tasks[id := tasks[id].(workingAgent := Some(agent), updatedAt := now)];
      events := events + [WorkStarted(id, agent)];
      r := Ok(id);
    }

    /** POST /api/tasks/{id}/stop-work. */
    method StopWork(id: int) returns (r: Result<int>)
      modifies this
      ensures var s := Lifecycle.StopWork(old(Model()), id); r == s.result && Model() == s.board
    {
      if id !in tasks {
        return Err(TaskNotFound);
      }
      var now := Now();
      tasks := tasks[id := tasks[id].(workingAgent := None, updatedAt := now)];
      events := events + [WorkStopped(id)];
      r := Ok(id);
    }

    /** PATCH /api/tasks/{id}. */
    method UpdateTask(id: int, p: Lifecycle.TaskPatch) returns (r: Result<Task>)
      modifies this
      ensures var s := Lifecycle.UpdateTask(old(Model()), id, p); r == s.result && Model() == s.board
    {
      if id !in tasks {
        return Err(TaskNotFound);
      }
      var cur := tasks[id];
      var changed, changes := Diff(cur, p);
      if changed != [] {
        r := WritePatch(id, p, changed, changes);
      } else {
        events := events + [TaskUpdated(cur)];
        r := Lifecycle.TaskReply(cur);
      }
    }

    /** The `if update_fields:` block and the broadcast of the written row. */
    method WritePatch(id: int, p: Lifecycle.TaskPatch, changed: seq<Lifecycle.Field>, changes: seq<string>)
      returns (r: Result<Task>)
      requires id in tasks && changes == Lifecycle.ChangeLines(tasks[id], p, changed)
      modifies this
      ensures var s := Lifecycle.Patched(old(Model()), id, p, changed); r == s.result && Model() == s.board
    {
      var cur := tasks[id];
      var now := Now();
      tasks := tasks[id := Lifecycle.ApplyChanges(cur, p, changed).(updatedAt := now)];
      LogActivity(id, "updated", Some(OrElse(p.agent, cur.agent)), Some(Join(changes, "; ")));
      var t := tasks[id];
      events := events + [TaskUpdated(t)];
      r := Lifecycle.TaskReply(t);
    }

    /** POST /api/tasks/{id}/move. `spawn` is the gateway's answer to the auto-spawn, if one is made. */
    method Move(id: int, status: Option<string>, agent: Option<string>, reason: Option<string>, spawn: SpawnResult)
      returns (r: Result<Lifecycle.MoveReply>)
      modifies this
      ensures var s := Lifecycle.Move(old(Model()), id, status, agent, reason, spawn); r == s.result && Model() == s.board
    {
      if id !in tasks {
        return Err(TaskNotFound);
      }
      if status == Some("Done") && agent != Some(Human) {
        return Err(OnlyUserCanFinish);
      }
      r := MoveAccepted(id, status, agent, reason, spawn);
    }

    /** A move that passed both refusals, stage by stage. */
    method MoveAccepted(id: int, status: Option<string>, agent: Option<string>, reason: Option<string>, spawn: SpawnResult)
      returns (r: Result<Lifecycle.MoveReply>)
      requires id in tasks && !(status == Some("Done") && agent != Some(Human))
      modifies this
      ensures var s := Lifecycle.Move(old(Model()), id, status, agent, reason, spawn); r == s.result && Model() == s.board
    {
      var task := tasks[id];
      ghost var b := Model();
      var now := clock + 1;
      MarkMoved(id, status, agent);
      ghost var b1 := Model();
      assert b1 == Lifecycle.Moved(b, id, status, agent);
      var item := Lifecycle.AutoItem(id, task, status, agent, reason, nextItemId, now);
      assert item == Lifecycle.AutoItem(id, b.tasks[id], status, agent, reason, b.nextItemId, b.clock + 1);
      Announce(id, item);
      ghost var b2 := Model();
      assert b2 == Lifecycle.Announce(b1, id, item);
      var spawned := Lifecycle.SpawnWanted(task.status, status, task.agent);
      AutoSpawn(id, spawned, spawn);
      ghost var b3 := Model();
      assert b3 == Lifecycle.AutoSpawn(b2, id, spawned, spawn);
      var cleared := Finish(id, status);
      ghost var c := Lifecycle.Finish(b3, id, status);
      assert Model() == c.board && cleared == c.cleared;
      Lifecycle.MoveIsStaged(b, id, status, agent, reason, spawn, b1, item, b2, spawned, b3, c);
      r := Ok(Lifecycle.MoveReply(status, item.Some?, spawned, cleared));
    }

    /** The last stage of a move: the Done cleanup, when the new status is Done. */
    method Finish(id: int, status: Option<string>) returns (cleared: bool)
      requires id in tasks
      modifies this`tasks, this`events, this`outbox, this`clock
      ensures var c := Lifecycle.Finish(old(Model()), id, status); Model() == c.board && cleared == c.cleared
    {
      cleared := false;
      if status == Some("Done") {
        cleared := DoneCleanup(id);
      }
    }

    /** The status write of an accepted move and its activity row. */
    method MarkMoved(id: int, status: Option<string>, agent: Option<string>)
      requires id in tasks
      modifies this`tasks, this`log, this`clock
      ensures Model() == Lifecycle.Moved(old(Model()), id, status, agent)
    {
      var now := Now();
      tasks := tasks[id := tasks[id].(status := status, updatedAt := now)];
      LogActivity(id, "moved", agent, Some("Moved to " + Show(status)));
    }

    /** The action item insert of a move, then its two broadcasts. */
    method Announce(id: int, item: Option<ActionItem>)
      requires id in tasks
      modifies this`items, this`nextItemId, this`events
      ensures Model() == Lifecycle.Announce(old(Model()), id, item)
    {
      if item.Some? {
        items := items + [item.value];
        nextItemId := nextItemId + 1;
      }
      events := events + [TaskUpdated(tasks[id])];
      if item.Some? {
        events := events + [ActionItemAdded(id, item.value)];
      }
    }

    /** `spawn_agent_session` for the task's assignee, when the move asks for it. */
    method AutoSpawn(id: int, spawned: bool, spawn: SpawnResult)
      requires id in tasks
      modifies this`outbox, this`tasks, this`clock
      ensures Model() == Lifecycle.AutoSpawn(old(Model()), id, spawned, spawn)
    {
      if spawned {
        var t := tasks[id];
        outbox := outbox + [SpawnWork(id, t.title, t.description, t.agent)];
        BindSpawned(id, spawn);
      }
    }

    /** The cleanup of a move to Done; `cleared` says whether a session was unbound. */
    method DoneCleanup(id: int) returns (cleared: bool)
      requires id in tasks
      modifies this`tasks, this`events, this`outbox, this`clock
      ensures var c := Lifecycle.DoneCleanup(old(Model()), id); Model() == c.board && cleared == c.cleared
    {
      tasks := tasks[id := tasks[id].(workingAgent := None)];
      events := events + [WorkStopped(id)];
      var key := tasks[id].sessionKey;
      cleared := false;
      if Truthy(key) {
        outbox := outbox + [DoneNotice(key.value, id)];
        SetTaskSession(id, None);
        cleared := true;
      }
    }

    /** POST /api/tasks/{id}/comments. The mention loop spawns each agent `MentionTargets` yields;
        `dispatched` returns them in the order spawned. `sendOk` and `followup` are the gateway's
        answers to the reply routing. */
    method AddComment(id: int, author: string, content: string, sendOk: bool, followup: SpawnResult)
      returns (r: Result<Comment>, dispatched: seq<string>)
      modifies this
      ensures r.Err? ==> dispatched == []
      ensures r.Ok? ==> forall a :: multiset(dispatched)[a] == DispatchCount(FindMentions(content), author, a)
      ensures var s := Lifecycle.AddComment(old(Model()), id, author, content, dispatched, sendOk, followup);
        r == s.result && Model() == s.board
    {
      if |content| > MaxContentLength || |author| > MaxAgentNameLength {
        return Err(InvalidComment), [];
      }
      if id !in tasks {
        return Err(TaskNotFound), [];
      }
      var task := tasks[id];
      ghost var b := Model();
      var c := Post(id, author, content);
      ghost var b1 := Model();
      assert b1 == Lifecycle.Posted(b, c) && c == Comment(b.nextCommentId, id, author, content, b.clock + 1);
      var thread := Thread(comments, id);
      assert thread == Thread(b1.comments, id);
      dispatched := Route(id, task, c, MentionContext(thread, c.id), ReplyContext(thread), sendOk);
      ghost var b3 := Model();
      if Lifecycle.FollowsUp(task, author, sendOk) {
        BindSpawned(id, followup);
      }
      Lifecycle.AddCommentIsStaged(b, id, c, dispatched, sendOk, followup);
      r := Ok(c);
    }

    /** The comment row and its broadcast. */
    method Post(id: int, author: string, content: string) returns (c: Comment)
      modifies this`comments, this`nextCommentId, this`clock, this`events
      ensures c == Comment(old(nextCommentId), id, author, content, old(clock) + 1)
      ensures Model() == Lifecycle.Posted(old(Model()), c)
    {
      var now := Now();
      c := Comment(nextCommentId, id, author, content, now);
      comments := comments + [c];
      nextCommentId := nextCommentId + 1;
      events := events + [CommentAdded(id, c)];
    }

    /** The mention loop, then the reply routing; `dispatched` lists the agents the loop spawns. */
    method Route(id: int, task: Task, c: Comment, mentionContext: seq<ContextLine>, replyContext: seq<ContextLine>,
                 sendOk: bool) returns (dispatched: seq<string>)
      modifies this`outbox
      ensures forall a :: multiset(dispatched)[a] == DispatchCount(FindMentions(c.content), c.agent, a)
      ensures Model() == Lifecycle.Routed(old(Model()), id, task, c, mentionContext, replyContext, dispatched, sendOk)
    {
      dispatched := MentionTargets(FindMentions(c.content), c.agent);
      var i := 0;
      while i < |dispatched|
        invariant 0 <= i <= |dispatched|
        invariant outbox == old(outbox) + Lifecycle.MentionRequests(id, task, c.agent, c.content, mentionContext, dispatched[..i])
      {
        assert dispatched[..i + 1] == dispatched[..i] + [dispatched[i]];
        outbox := outbox + [SpawnMention(id, task.title, task.description, dispatched[i], c.agent, c.content, mentionContext)];
        i := i + 1;
      }
      assert dispatched[..i] == dispatched;
      outbox := outbox + Lifecycle.RoutingRequests(id, task, c, replyContext, sendOk);
    }

    /** The field loop of the update: the fields whose requested value is given and differs from
        the stored one, in loop order, with one change line each. Changes nothing. */
    method Diff(cur: Task, p: Lifecycle.TaskPatch) returns (changed: seq<Lifecycle.Field>, lines: seq<string>)
      ensures changed == Lifecycle.Differing(Lifecycle.UpdatableFields, cur, p)
      ensures lines == Lifecycle.ChangeLines(cur, p, changed)
    {
      changed, lines := [], [];
      var i := 0;
      while i < |Lifecycle.UpdatableFields|
        invariant 0 <= i <= |Lifecycle.UpdatableFields|
        invariant changed == Lifecycle.Differing(Lifecycle.UpdatableFields[..i], cur, p)
        invariant lines == Lifecycle.ChangeLines(cur, p, changed)
      {
        var f := Lifecycle.UpdatableFields[i];
        assert Lifecycle.UpdatableFields[..i + 1][..i] == Lifecycle.UpdatableFields[..i];
        var given := Lifecycle.Requested(p, f);
        if given.Some? && given != Lifecycle.Current(cur, f) {
          assert Lifecycle.ChangeLines(cur, p, changed + [f]) == Lifecycle.ChangeLines(cur, p, changed) + [Lifecycle.ChangeLine(cur, p, f)];
          changed := changed + [f];
          lines := lines + [Lifecycle.ChangeLine(cur, p, f)];
        }
        i := i + 1;
      }
      assert Lifecycle.UpdatableFields[..i] == Lifecycle.UpdatableFields;
    }

    /** POST /api/tasks/{id}/action-items. */
    method AddActionItem(taskId: int, agent: string, content: string, itemType: string, commentId: Option<int>)
      returns (r: Result<ActionItem>)
      modifies this
      ensures var s := Lifecycle.AddActionItem(old(Model()), taskId, agent, content, itemType, commentId);
        r == s.result && Model() == s.board
    {
      if taskId !in tasks {
        return Err(TaskNotFound);
      }
      var now := Now();
      var item := ActionItem(nextItemId, taskId, commentId, agent, content, itemType, false, false, now, None);
      items := items + [item];
      nextItemId := nextItemId + 1;
      events := events + [ActionItemAdded(taskId, item)];
      r := Ok(item);
    }

    /** `SELECT * FROM action_items WHERE id = ?`: the position of the row, by a scan. Changes
        nothing. */
    method Lookup(itemId: int) returns (k: Option<nat>)
      ensures k == Lifecycle.FindItem(items, itemId)
    {
      var n := |items|;
      assert items[..n] == items;
      while n > 0 && items[n - 1].id != itemId
        invariant 0 <= n <= |items|
        invariant Lifecycle.FindItem(items, itemId) == Lifecycle.FindItem(items[..n], itemId)
      {
        assert items[..n - 1] == items[..n][..n - 1];
        n := n - 1;
      }
      if n == 0 {
        k := None;
      } else {
        k := Some(n - 1);
        assert items[..n][n - 1] == items[n - 1];
      }
    }

    /** POST /api/action-items/{id}/resolve. */
    method ResolveActionItem(itemId: int) returns (r: Result<int>)
      modifies this
      ensures var s := Lifecycle.ResolveActionItem(old(Model()), itemId); r == s.result && Model() == s.board
    {
      var k := Lookup(itemId);
      if k.None? {
        return Err(ItemNotFound);
      }
      var now := Now();
      var item := items[k.value];
      items := items[k.value := item.(resolved := true, resolvedAt := Some(now))];
      events := events + [ActionItemResolved(item.taskId, itemId)];
      r := Ok(itemId);
    }

    /** POST /api/action-items/{id}/archive. */
    method ArchiveActionItem(itemId: int) returns (r: Result<int>)
      modifies this
      ensures var s := Lifecycle.ArchiveActionItem(old(Model()), itemId); r == s.result && Model() == s.board
    {
      var k := Lookup(itemId);
      if k.None? {
        return Err(ItemNotFound);
      }
      var item := items[k.value];
      items := items[k.value := item.(archived := true)];
      events := events + [ActionItemArchived(item.taskId, itemId)];
      r := Ok(itemId);
    }

    /** POST /api/action-items/{id}/unarchive. */
    method UnarchiveActionItem(itemId: int) returns (r: Result<int>)
      modifies this
      ensures var s := Lifecycle.UnarchiveActionItem(old(Model()), itemId); r == s.result && Model() == s.board
    {
      var k := Lookup(itemId);
      if k.None? {
        return Err(ItemNotFound);
      }
      var item := items[k.value];
      items := items[k.value := item.(archived := false)];
      events := events + [ActionItemUnarchived(item.taskId, itemId)];
      r := Ok(itemId);
    }

    /** DELETE /api/action-items/{id}. */
    method DeleteActionItem(itemId: int) returns (r: Result<int>)
      modifies this
      ensures var s := Lifecycle.DeleteActionItem(old(Model()), itemId); r == s.result && Model() == s.board
    {
      var k := Lookup(itemId);
      if k.None? {
        return Err(ItemNotFound);
      }
      var item := items[k.value];
      items := items[..k.value] + items[k.value + 1..];
      events := events + [ActionItemDeleted(item.taskId, itemId)];
      r := Ok(itemId);
    }
  }
}
