/** The read endpoints over the board: the task list, an agent's open tasks and a task's action
    items, as the `SELECT ... WHERE ... ORDER BY` statements choose and order rows. */
module Queries {
  import opened Wrappers
  import opened Text
  import opened Domain
  import opened Sequences
  import opened Lifecycle
  import LifecycleLaws

  /** The rows of `tasks` with ids below `n`, in id order: the order the table is scanned in. */
  function TableRows(tasks: map<int, Task>, n: nat): (r: seq<Task>)
    ensures |r| <= n
  {
    if n == 0 then []
    else TableRows(tasks, n - 1) + (if n - 1 in tasks then [tasks[n - 1]] else [])
  }

  lemma {:induction false} TableRowsMembers(tasks: map<int, Task>, n: nat)
    ensures forall t :: t in TableRows(tasks, n) <==> exists id :: 0 <= id < n && id in tasks && tasks[id] == t
  {
    if n > 0 {
      TableRowsMembers(tasks, n - 1);
    }
  }

  /** When every row carries its own key, the scan meets the rows in strictly increasing id order. */
  lemma {:induction false} TableRowsIncreasing(tasks: map<int, Task>, n: nat)
    requires forall id :: id in tasks ==> tasks[id].id == id
    ensures forall i :: 0 <= i < |TableRows(tasks, n)| ==> TableRows(tasks, n)[i].id < n
    ensures forall i, j :: 0 <= i < j < |TableRows(tasks, n)| ==> TableRows(tasks, n)[i].id < TableRows(tasks, n)[j].id
  {
    if n > 0 {
      TableRowsIncreasing(tasks, n - 1);
      var prev := TableRows(tasks, n - 1);
      var r := TableRows(tasks, n);
      if n - 1 in tasks {
        assert r == prev + [tasks[n - 1]];
        assert tasks[n - 1].id == n - 1;
        forall i | 0 <= i < |r| ensures r[i].id < n {
          if i < |prev| { assert r[i] == prev[i]; }
        }
        forall i, j | 0 <= i < j < |r| ensures r[i].id < r[j].id {
          if j < |prev| { assert r[i] == prev[i] && r[j] == prev[j]; }
          else { assert r[i] == prev[i]; }
        }
      } else {
        assert r == prev;
      }
    }
  }

  /** On a well-formed board the scan meets every stored task once and nothing else. */
  lemma BoardRows(b: Board)
    requires Wellformed(b)
    ensures forall t :: t in TableRows(b.tasks, b.nextTaskId) <==> t in b.tasks.Values
    ensures forall i, j :: 0 <= i < j < |TableRows(b.tasks, b.nextTaskId)| ==>
              TableRows(b.tasks, b.nextTaskId)[i].id < TableRows(b.tasks, b.nextTaskId)[j].id
  {
    TableRowsMembers(b.tasks, b.nextTaskId);
    TableRowsIncreasing(b.tasks, b.nextTaskId);
    forall t | t in b.tasks.Values ensures t in TableRows(b.tasks, b.nextTaskId) {
      var id :| id in b.tasks && b.tasks[id] == t;
      assert TaskWellformed(b, id);
    }
  }

  // ---------------------------------------------------------------------------------------------
  // GET /api/tasks

  /** `CASE priority WHEN 'Critical' THEN 1 WHEN 'High' THEN 2 WHEN 'Medium' THEN 3 ELSE 4 END`. */
  function PriorityRank(priority: string): int
  {
    if priority == "Critical" then 1
    else if priority == "High" then 2
    else if priority == "Medium" then 3
    else 4
  }

  /** The board's order: by priority rank, most urgent first; within a rank, newest first. */
  predicate ListedBefore(t: Task, u: Task)
  {
    PriorityRank(t.priority) < PriorityRank(u.priority)
    || (PriorityRank(t.priority) == PriorityRank(u.priority) && t.createdAt >= u.createdAt)
  }

  /** The `WHERE` of the list query; an empty or absent `agent` or `status` filter is no filter, and
      a status filter never matches a task whose status is NULL. */
  predicate Listed(t: Task, board: string, agent: Option<string>, status: Option<string>)
  {
    t.board == board && (Truthy(agent) ==> t.agent == agent.value) && (Truthy(status) ==> t.status == status)
  }

  /** The rows the list query selects, in the order it returns them. */
  function ListedRows(b: Board, board: string, agent: Option<string>, status: Option<string>): seq<Task>
  {
    SortBy(Filter(TableRows(b.tasks, b.nextTaskId), t => Listed(t, board, agent, status)), ListedBefore)
  }

  /** GET /api/tasks: the selected rows, checked against `response_model=List[Task]`. A selected row
      whose status is NULL does not fit `status: str`, and the whole reply becomes a 500. */
  function ListTasks(b: Board, board: string, agent: Option<string>, status: Option<string>): Result<seq<Task>>
  {
    var rows := ListedRows(b, board, agent, status);
    if forall i | 0 <= i < |rows| :: rows[i].status.Some? then Ok(rows) else Err(InvalidResponse)
  }

  lemma ListedBeforeIsTotalPreorder()
    ensures TotalPreorder(ListedBefore)
  {
  }

  predicate IdBefore(t: Task, u: Task)
  {
    t.id < u.id
  }

  /** A filtered scan of a well-formed board holds each matching task once. */
  lemma {:induction false} ScanOnce(b: Board, p: Task -> bool, t: Task)
    requires Wellformed(b)
    ensures multiset(Filter(TableRows(b.tasks, b.nextTaskId), p))[t] == if t in b.tasks.Values && p(t) then 1 else 0
  {
    var rows := TableRows(b.tasks, b.nextTaskId);
    var f := Filter(rows, p);
    BoardRows(b);
    forall i, j | 0 <= i < j < |rows| ensures IdBefore(rows[i], rows[j]) {
    }
    FilterKeepsOrder(rows, p, IdBefore);
    assert forall i, j :: 0 <= i < j < |f| ==> f[i].id < f[j].id;
    NoRepeatsOccurOnce(f, t);
  }

  /** The task list holds exactly the board's matching tasks, each once, ordered by priority rank
      and then newest first. */
  lemma ListTasksSpec(b: Board, board: string, agent: Option<string>, status: Option<string>)
    requires Wellformed(b)
    ensures var r := ListedRows(b, board, agent, status);
      && SortedBy(r, ListedBefore)
      && (forall t :: t in r <==> t in b.tasks.Values && Listed(t, board, agent, status))
      && (forall t :: multiset(r)[t] == if t in b.tasks.Values && Listed(t, board, agent, status) then 1 else 0)
  {
    var p := t => Listed(t, board, agent, status);
    var f := Filter(TableRows(b.tasks, b.nextTaskId), p);
    ListedBeforeIsTotalPreorder();
    SortBySorted(f, ListedBefore);
    BoardRows(b);
    forall t ensures multiset(ListedRows(b, board, agent, status))[t] ==
                     if t in b.tasks.Values && Listed(t, board, agent, status) then 1 else 0 {
      ScanOnce(b, p, t);
    }
    forall t ensures t in ListedRows(b, board, agent, status) <==> t in b.tasks.Values && Listed(t, board, agent, status) {
      assert t in ListedRows(b, board, agent, status) <==> t in multiset(ListedRows(b, board, agent, status));
    }
  }

  /** The list is answered exactly when none of the matching tasks has a NULL status; otherwise the
      reply is a 500. */
  lemma ListTasksReply(b: Board, board: string, agent: Option<string>, status: Option<string>)
    requires Wellformed(b)
    ensures var r := ListTasks(b, board, agent, status);
      && (r == Ok(ListedRows(b, board, agent, status)) <==>
            forall t :: t in b.tasks.Values && Listed(t, board, agent, status) ==> t.status.Some?)
      && (r.Err? ==> r == Err(InvalidResponse))
  {
    var rows := ListedRows(b, board, agent, status);
    assert forall t :: t in rows <==> t in b.tasks.Values && Listed(t, board, agent, status) by {
      ListTasksSpec(b, board, agent, status);
    }
    if forall t :: t in b.tasks.Values && Listed(t, board, agent, status) ==> t.status.Some? {
      forall i | 0 <= i < |rows| ensures rows[i].status.Some? {
        assert rows[i] in rows;
      }
    } else {
      var t :| t in b.tasks.Values && Listed(t, board, agent, status) && t.status.None?;
      assert t in rows;
    }
  }

  // ---------------------------------------------------------------------------------------------
  // GET /api/agents/{agent}/tasks

  /** `ORDER BY priority, created_at`: the priority TEXT in collation order, then oldest first. */
  predicate AgentOrder(t: Task, u: Task)
  {
    LexLess(t.priority, u.priority) || (t.priority == u.priority && t.createdAt <= u.createdAt)
  }

  /** `agent = ? AND status NOT IN ('Done', 'Blocked')`: a NULL status fails the test too. */
  predicate OpenFor(t: Task, agent: string)
  {
    t.agent == agent && t.status.Some? && t.status.value != "Done" && t.status.value != "Blocked"
  }

  function AgentTasks(b: Board, agent: string): seq<Task>
  {
    SortBy(Filter(TableRows(b.tasks, b.nextTaskId), t => OpenFor(t, agent)), AgentOrder)
  }

  lemma AgentOrderIsTotalPreorder()
    ensures TotalPreorder(AgentOrder)
  {
    forall t: Task, u: Task ensures AgentOrder(t, u) || AgentOrder(u, t) {
      LexTrichotomy(t.priority, u.priority);
    }
    forall t: Task, u: Task, v: Task | AgentOrder(t, u) && AgentOrder(u, v) ensures AgentOrder(t, v) {
      if LexLess(t.priority, u.priority) && LexLess(u.priority, v.priority) {
        LexTransitive(t.priority, u.priority, v.priority);
      }
    }
  }

  /** An agent's task list holds exactly its tasks that are neither Done nor Blocked (nor without a
      status), each once, in the order of the query. */
  lemma AgentTasksSpec(b: Board, agent: string)
    requires Wellformed(b)
    ensures var r := AgentTasks(b, agent);
      && SortedBy(r, AgentOrder)
      && (forall t :: t in r <==> t in b.tasks.Values && OpenFor(t, agent))
      && (forall t :: multiset(r)[t] == if t in b.tasks.Values && OpenFor(t, agent) then 1 else 0)
  {
    var p := t => OpenFor(t, agent);
    var f := Filter(TableRows(b.tasks, b.nextTaskId), p);
    AgentOrderIsTotalPreorder();
    SortBySorted(f, AgentOrder);
    BoardRows(b);
    forall t ensures multiset(AgentTasks(b, agent))[t] == if t in b.tasks.Values && OpenFor(t, agent) then 1 else 0 {
      ScanOnce(b, p, t);
    }
    forall t ensures t in AgentTasks(b, agent) <==> t in b.tasks.Values && OpenFor(t, agent) {
      assert t in AgentTasks(b, agent) <==> t in multiset(AgentTasks(b, agent));
    }
  }

  /** The agent list sorts priorities as text, so a Low task comes before a Medium one, where the
      board list puts Medium first. */
  lemma AgentTasksPutLowBeforeMedium(low: Task, medium: Task)
    requires low.priority == "Low" && medium.priority == "Medium"
    ensures AgentOrder(low, medium) && !AgentOrder(medium, low)
    ensures ListedBefore(medium, low) && !ListedBefore(low, medium)
  {
    assert LexLess("Low", "Medium");
    LexAsymmetric("Low", "Medium");
  }

  // ---------------------------------------------------------------------------------------------
  // GET /api/tasks/{id}/action-items

  /** The `WHERE` of the query: with `archived` set, the task's archived items whatever their
      resolution; otherwise its unarchived items with the requested resolution. */
  predicate Shown(it: ActionItem, taskId: int, resolved: bool, archived: bool)
  {
    it.taskId == taskId && (if archived then it.archived else !it.archived && it.resolved == resolved)
  }

  function GetActionItems(b: Board, taskId: int, resolved: bool, archived: bool): seq<ActionItem>
  {
    Filter(b.items, it => Shown(it, taskId, resolved, archived))
  }

  predicate CreatedBefore(x: ActionItem, y: ActionItem)
  {
    x.createdAt < y.createdAt
  }

  /** The items come back in creation order (`ORDER BY created_at ASC`), each exactly when the
      filter admits it. */
  lemma GetActionItemsSpec(b: Board, taskId: int, resolved: bool, archived: bool)
    requires Wellformed(b)
    ensures var r := GetActionItems(b, taskId, resolved, archived);
      && SortedBy(r, CreatedBefore)
      && (forall it :: it in r <==> it in b.items && it.taskId == taskId &&
                                    (if archived then it.archived else !it.archived && it.resolved == resolved))
  {
    assert SortedBy(b.items, CreatedBefore);
    FilterKeepsOrder(b.items, it => Shown(it, taskId, resolved, archived), CreatedBefore);
  }

  /** The archived view ignores the `resolved` parameter. */
  lemma ArchivedViewIgnoresResolved(b: Board, taskId: int)
    ensures GetActionItems(b, taskId, true, true) == GetActionItems(b, taskId, false, true)
  {
    FilterAgrees(b.items, it => Shown(it, taskId, true, true), it => Shown(it, taskId, false, true));
  }

  /** Archiving takes an item out of the default views and into the archived one. */
  lemma ArchiveHidesItem(b: Board, k: nat, resolved: bool)
    requires Wellformed(b) && k < |b.items|
    ensures var it := b.items[k]; var b1 := ArchiveActionItem(b, it.id).board;
      && it.(archived := true) in GetActionItems(b1, it.taskId, resolved, true)
      && (forall x :: x in GetActionItems(b1, it.taskId, resolved, false) ==> x.id != it.id)
  {
    var it := b.items[k];
    LifecycleLaws.FindItemLocates(b, k);
    var b1 := ArchiveActionItem(b, it.id).board;
    assert b1.items == b.items[k := it.(archived := true)];
    assert b1.items[k] == it.(archived := true);
    forall x | x in GetActionItems(b1, it.taskId, resolved, false) ensures x.id != it.id {
      var i :| 0 <= i < |b1.items| && b1.items[i] == x;
      if i != k {
        assert x == b.items[i];
      }
    }
  }

  /** Unarchiving brings an item back into the default view of its resolution and out of the
      archived one. */
  lemma UnarchiveShowsItem(b: Board, k: nat, resolved: bool)
    requires Wellformed(b) && k < |b.items|
    ensures var it := b.items[k]; var b1 := UnarchiveActionItem(b, it.id).board;
      && it.(archived := false) in GetActionItems(b1, it.taskId, it.resolved, false)
      && (forall x :: x in GetActionItems(b1, it.taskId, resolved, true) ==> x.id != it.id)
  {
    var it := b.items[k];
    LifecycleLaws.FindItemLocates(b, k);
    var b1 := UnarchiveActionItem(b, it.id).board;
    assert b1.items == b.items[k := it.(archived := false)];
    assert b1.items[k] == it.(archived := false);
    forall x | x in GetActionItems(b1, it.taskId, resolved, true) ensures x.id != it.id {
      var i :| 0 <= i < |b1.items| && b1.items[i] == x;
      if i != k {
        assert x == b.items[i];
      }
    }
  }
}
