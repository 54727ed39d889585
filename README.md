# Task board core, modelled in Dafny

This project models the business logic of a small FastAPI task board. It covers:

- tasks moving through Backlog, In Progress, Review, Blocked and Done;
- action items (questions, completions, blockers) attached to tasks;
- comments with `@mentions`;
- a live-update websocket fan-out;
- the agent gateway's sessions.

The board is held in SQLite and talks to an external agent gateway over HTTP. Here both are replaced:

- **The database** is an in-memory `Lifecycle.Board`. It holds tasks keyed by id, comments, action items and the activity log. Each table has an id counter, as SQLite's `lastrowid` would give.
- **The clock** is a counter that ticks once per stored timestamp: each write of `created_at`, `updated_at` or `resolved_at`, and each activity row.
- **Broadcasts** go into an `events` log, one entry per message handed to the broadcast.
- **Gateway calls** go into an `outbox` of requests: spawn, send, wake. Their outcomes are parameters (oracles).

The model has two layers:

- **Specification functions.** `Lifecycle` gives every endpoint as a pure function from a board to a `Step` (the reply plus the new board). `LifecycleLaws` proves what the endpoints promise about those functions.
- **Implementation.** `Store.TaskBoard` is a class whose fields are the tables. Its methods perform the endpoint's writes one after another, the way the handler does. Each method is proved to leave exactly the board the specification function gives.

The other modules are as follows:

- `Broadcast` is the `ConnectionManager` as a class over a set of channel objects.
- `Mentions` covers mention matching, the dispatch loop and the context windows.
- `Queries` covers the three read queries.
- `Access` is the API-key check.
- `Sessions` covers the session list and the emergency stop.
- `Text` and `Sequences` are string and sequence helpers. `Sequences` includes a stable insertion sort proved to sort and to permute.

Python `None` and SQL `NULL` are `Option.None`. `x or y` is modelled with `Truthy`: a present, non-empty string. Every 404 or 403 reply leaves the whole board unchanged, clock included. The 500 that `response_model` validation gives for a row whose status is NULL comes after the handler's writes, which stay made (`Domain.Failure.InvalidResponse`).

Where the code and its design notes disagree, the model follows the code:

- **`move_task` and `update_task` accept any status string.** Neither checks it against the list of statuses. `status` is a free `Option<string>`, and a move without a status writes NULL.
- **`update_task` can set "Done" for any caller.** The rule that only the human may finish a task is checked only in `move_task`. See `LifecycleLaws.UpdateBypassesDoneRule`.
- **Concurrent moves are not excluded.** Nothing in the code locks a task against a second move, so the model claims no such exclusion.
- **A follow-up spawn sees four previous comments, not five.** The query takes the five most recent comments including the new one and then drops the new one. The mention context excludes the new comment by id, so it does see five. This holds for the comments the model writes. A System comment that a mention spawn posts back through the API lands before the reply query runs, and would take one of the four places; those comments are left out (see below).
- **A NULL status breaks two replies.** A move without a status stores NULL. Afterwards `update_task` answers 500 although its UPDATE, log row and broadcast are made, and `list_tasks` answers 500 for any listing that includes the row. See `LifecycleLaws.MoveWithoutStatusThenPatchFails` and `Queries.ListTasksReply`.
- **Any failed send falls back to a follow-up spawn.** This includes a send to a session that still exists.
- **`get_agent_tasks` sorts priority as text.** Its `ORDER BY priority` therefore puts Low before Medium, while `list_tasks` ranks Critical, High, Medium, then the rest. This is modelled as written (`Queries.AgentTasksPutLowBeforeMedium`).

## Model

| member | source | states |
|---|---|---|
| Domain.GatewayId | app.py:49-59 | an agent has a gateway id exactly when it is one of the five roster names, and that id is non-empty |
| Lifecycle.CreateTask | app.py:869-888 | creating a task keeps the board well formed (ids below the counter, each row under its own id, no empty session key) |
| Lifecycle.DeleteTask | app.py:930-945 | deleting keeps the board well formed |
| Lifecycle.StartWork | app.py:964-982 | setting the working indicator keeps the board well formed |
| Lifecycle.StopWork | app.py:984-999 | clearing the working indicator keeps the board well formed |
| Lifecycle.SetSession | app.py:258-266 | binding a non-empty session key (or none) keeps the board well formed |
| Lifecycle.BindSpawned | app.py:557-561 | binding the session a successful spawn reports keeps the board well formed |
| Lifecycle.BindSpawnedTouchesOneRow | app.py:557-561 | only a successful spawn with a non-empty session key writes anything: that key and a fresh update time on the task's own row |
| Lifecycle.WithField | app.py:906-910 | writing one updatable column gives it the new value and leaves every column outside the list as it was |
| Lifecycle.WithFieldKeepsOthers | app.py:906-910 | writing one column leaves every other listed column as it was |
| Lifecycle.Differing | app.py:906-908 | the changed fields are among the listed fields, no more of them than are listed, and each is one the patch changes |
| Lifecycle.ChangeLines | app.py:911 | one "field: old → new" line per changed field |
| Lifecycle.ApplyChanges | app.py:909-918 | the UPDATE leaves the id, board, creation time, working agent and session untouched |
| Lifecycle.UpdateTask | app.py:890-928 | a PATCH keeps the board well formed; it is a 404 exactly when the task is missing, and then nothing changes; otherwise the reply is the stored row, or a 500 when that row's status is NULL |
| Lifecycle.TaskReply | app.py:748-752 | a row is answered as itself exactly when its status is present, and with a 500 otherwise |
| Lifecycle.Patched | app.py:913-927 | a PATCH that changes something keeps the board well formed |
| Lifecycle.Moved | app.py:1023-1029 | the status write sets only the task's status and update time, ticks the clock twice (write and log) and appends the "moved" activity with the agent and "Moved to <status>" |
| Lifecycle.Announce | app.py:1032-1066 | the step appends the new action item, if any, to the items and advances the item counter, then broadcasts; tasks, comments, log, outbox and clock are unchanged |
| Lifecycle.AutoSpawn | app.py:1068-1079 | the auto-spawn step changes no other task and, on the moved task, only its session binding |
| Lifecycle.DoneCleanup | app.py:1083-1101 | Done clears the working agent of that task only; the session is cleared, and the completion notice sent to it, exactly when one is bound; it broadcasts work_stopped; the update time is refreshed (and the clock ticks) only when the session is cleared; comments, items and log unchanged |
| Lifecycle.Finish | app.py:1081-1101 | the cleanup runs only for a move to Done; otherwise the board and the flag are untouched |
| Lifecycle.Move | app.py:1006-1103 | a refused move (404 or 403) changes nothing, and every move keeps the board well formed |
| Lifecycle.AcceptedMove | app.py:1023-1103 | a move past both checks is answered with success and keeps the board well formed |
| Lifecycle.AutoItemIsFresh | app.py:1034-1058 | the item a move creates takes the next item id and a time later than every stored item |
| Lifecycle.AnnounceEvents | app.py:1063-1066 | the broadcast step appends task_updated with the moved row, then action_item_added when an item was made |
| Lifecycle.FinishEvents | app.py:1081-1091 | a move to Done appends work_stopped; any other move appends no event here |
| Lifecycle.MentionRequests | app.py:1191-1211 | one spawn request per dispatched mention |
| Lifecycle.RoutingRequests | app.py:1214-1256 | a comment causes at most two gateway calls after its mentions, and none exactly when it neither reaches an assignee nor comes from an outside author |
| Lifecycle.RowWriteKeepsWellformed | app.py:1024-1027 | rewriting a row in place without an empty session key keeps the board well formed |
| Lifecycle.InsertCommentKeepsWellformed | app.py:1156-1160 | inserting a comment with the next id keeps the board well formed |
| Lifecycle.Posted | app.py:1156-1171 | the insert and broadcast of a comment keep the board well formed |
| Lifecycle.PostedTouchesComments | app.py:1156-1171 | the insert appends the comment and one comment_added event and ticks the clock once; tasks, items, log and outbox are untouched |
| Lifecycle.Routed | app.py:1173-1256 | the dispatch of a comment keeps the board well formed |
| Lifecycle.RoutedTouchesOutbox | app.py:1173-1256 | the dispatch only appends to the outbox: the mention spawns, then the reply routing |
| Lifecycle.AddComment | app.py:1138-1258 | adding a comment keeps the board well formed |
| Lifecycle.Accepted | app.py:1156-1256 | the writes of an accepted comment keep the board well formed |
| Lifecycle.FindItem | app.py:1326-1328 | the lookup returns a position holding the id, or None when no item has it |
| Lifecycle.AddActionItem | app.py:1288-1319 | adding an item keeps the board well formed; it is a 404 exactly when the task is unknown, and then nothing changes |
| Lifecycle.ResolveActionItem | app.py:1321-1342 | resolving keeps the board well formed |
| Lifecycle.ArchiveActionItem | app.py:1344-1365 | archiving keeps the board well formed |
| Lifecycle.UnarchiveActionItem | app.py:1367-1386 | unarchiving keeps the board well formed |
| Lifecycle.DeleteActionItem | app.py:1388-1403 | deleting an item keeps the board well formed |
| Lifecycle.EmptyBoardWellformed | app.py:612-703 | an empty board (with the columns the handlers use, see below) is well formed |
| Store.TaskBoard.constructor | app.py:612-703 | the tables start empty |
| Store.TaskBoard.Now | app.py:1009 | each timestamp is later than every earlier one |
| Store.TaskBoard.LogActivity | app.py:714-721 | one activity row is appended, stamped with a fresh time |
| Store.TaskBoard.SetTaskSession | app.py:258-266 | the task's session column and update time are written, nothing else |
| Store.TaskBoard.BindSpawned | app.py:557-561 | the new state is the specification's binding of the spawned session |
| Store.TaskBoard.CreateTask | app.py:869-888 | the reply and new state are those of `Lifecycle.CreateTask` |
| Store.TaskBoard.DeleteTask | app.py:930-945 | the reply and new state are those of `Lifecycle.DeleteTask` |
| Store.TaskBoard.StartWork | app.py:964-982 | the reply and new state are those of `Lifecycle.StartWork` |
| Store.TaskBoard.StopWork | app.py:984-999 | the reply and new state are those of `Lifecycle.StopWork` |
| Store.TaskBoard.UpdateTask | app.py:890-928 | the reply (including the 500 for a NULL status) and the new state are those of `Lifecycle.UpdateTask` |
| Store.TaskBoard.WritePatch | app.py:913-927 | the UPDATE, the "updated" entry and the broadcast give the state of `Lifecycle.Patched` |
| Store.TaskBoard.Diff | app.py:903-911 | the loop collects exactly the differing fields, in the listed order, with their change lines |
| Store.TaskBoard.Move | app.py:1006-1103 | the reply and new state are those of `Lifecycle.Move` |
| Store.TaskBoard.MoveAccepted | app.py:1023-1103 | an accepted move's sequential writes give the state of `Lifecycle.Move` |
| Store.TaskBoard.MarkMoved | app.py:1023-1029 | the status write and "moved" entry, as `Lifecycle.Moved` |
| Store.TaskBoard.Announce | app.py:1032-1066 | the action item insert and the broadcasts, as `Lifecycle.Announce` |
| Store.TaskBoard.AutoSpawn | app.py:1068-1079 | the auto-spawn, as `Lifecycle.AutoSpawn` |
| Store.TaskBoard.Finish | app.py:1081-1101 | the Done branch, as `Lifecycle.Finish` |
| Store.TaskBoard.DoneCleanup | app.py:1083-1101 | the Done cleanup and its `session_cleared` flag, as `Lifecycle.DoneCleanup` |
| Store.TaskBoard.AddComment | app.py:1138-1258 | the reply and new state are those of `Lifecycle.AddComment`; each agent is dispatched as often as the mention rule says, and a refused comment dispatches nothing |
| Store.TaskBoard.Post | app.py:1156-1171 | the comment gets the next id and a fresh time, as `Lifecycle.Posted` |
| Store.TaskBoard.Route | app.py:1173-1256 | the dispatch loop spawns each agent as often as the mention rule says and leaves the state of `Lifecycle.Routed` |
| Store.TaskBoard.AddActionItem | app.py:1288-1319 | the reply and new state are those of `Lifecycle.AddActionItem` |
| Store.TaskBoard.Lookup | app.py:1325-1328 | the lookup loop finds the item as `Lifecycle.FindItem` does |
| Store.TaskBoard.ResolveActionItem | app.py:1321-1342 | the reply and new state are those of `Lifecycle.ResolveActionItem` |
| Store.TaskBoard.ArchiveActionItem | app.py:1344-1365 | the reply and new state are those of `Lifecycle.ArchiveActionItem` |
| Store.TaskBoard.UnarchiveActionItem | app.py:1367-1386 | the reply and new state are those of `Lifecycle.UnarchiveActionItem` |
| Store.TaskBoard.DeleteActionItem | app.py:1388-1403 | the reply and new state are those of `Lifecycle.DeleteActionItem` |
| LifecycleLaws.CreateStoresNewRow | app.py:869-888 | a created task gets an id no stored task holds, with nobody working and no session, and is logged and broadcast |
| LifecycleLaws.CreateThenUpdateDescription | app.py:869-928 | creating then patching the description gives the created row with the new description |
| LifecycleLaws.CreateThenUpdateLogsChange | app.py:869-928 | that patch is logged exactly when the description changed |
| LifecycleLaws.DeleteRemovesOnlyTheRow | app.py:930-945 | deleting removes the task only (its comments and items stay), and a second delete answers 404 |
| LifecycleLaws.StartThenStopWork | app.py:964-999 | start then stop leaves no working agent and broadcasts work_started then work_stopped |
| LifecycleLaws.AllFieldsListed | app.py:906 | the update loop covers all eight updatable fields |
| LifecycleLaws.DifferingMembers | app.py:906-908 | a field is collected exactly when the patch gives it and it differs from the stored value |
| LifecycleLaws.ApplyChangesFields | app.py:909-918 | the UPDATE sets each collected field to its requested value and leaves the others |
| LifecycleLaws.UpdateAppliesPatch | app.py:890-928 | after a PATCH every given field has its requested value and every other column is as it was, and the reply is the stored row checked against the response model |
| LifecycleLaws.UpdateOfNullStatusFails | app.py:890-928 | a PATCH that leaves a NULL status answers 500, yet broadcasts the row and, when something changed, logs it |
| LifecycleLaws.MoveWithoutStatusThenPatchFails | app.py:1006-1029 | a move without a status succeeds, and a later title change of that task is written and logged but answered with a 500 |
| LifecycleLaws.NoChangeIffPatchAgrees | app.py:906-913 | a patch changes nothing exactly when every field it gives already has that value |
| LifecycleLaws.UpdateWritesOnlyOnChange | app.py:913-927 | a no-op patch writes nothing and logs nothing but still broadcasts; a real change logs one "updated" entry with the change lines joined by "; " |
| LifecycleLaws.UpdateBypassesDoneRule | app.py:890-928 | any caller can set the status to Done through the update endpoint |
| LifecycleLaws.MoveRefusals | app.py:1012-1021 | a move is refused exactly for an unknown task (404) or for Done by anyone but "User" (403), and then nothing changes |
| LifecycleLaws.MoveWritesStatus | app.py:1023-1029 | an accepted move writes the status (NULL when absent) and appends exactly one "moved" entry |
| LifecycleLaws.MoveCreatesItemOnEntry | app.py:1031-1058 | an item is created exactly on entering Review or Blocked, with the reason or the default text, the mover or assignee as agent, unresolved, and the reply says so |
| LifecycleLaws.ReviewTwiceCreatesOneItem | app.py:1034-1046 | moving to Review twice creates one action item |
| LifecycleLaws.MoveSpawnsOnEntryToInProgress | app.py:1068-1079 | `agent_spawned` is true exactly on entering In Progress with a roster assignee other than User, whatever the spawn returned |
| LifecycleLaws.NoSpawnForHumanOrUnknownAssignee | app.py:1071-1072 | an unassigned task, or one assigned to User, wakes nobody |
| LifecycleLaws.MoveToDoneCleansUp | app.py:1006-1101 | a Done move by the human succeeds, clears the working agent and the session, logs "Moved to Done", broadcasts the row then work_stopped, notifies a bound session and no other, and `session_cleared` says whether one was bound |
| LifecycleLaws.MoveToDoneSteps | app.py:1006-1101 | a Done move by the human is the status write, the row broadcast and the cleanup, with no item and no spawn |
| LifecycleLaws.MoveEventOrder | app.py:1063-1091 | a move broadcasts task_updated, then action_item_added if an item was made, then work_stopped if Done |
| LifecycleLaws.CommentRefusals | app.py:1113-1150 | a comment is refused exactly when the content is over 10 MiB, the author over 100 characters, or the task unknown; nothing changes then |
| LifecycleLaws.CommentAppended | app.py:1156-1171 | an accepted comment is stored with the next id and a fresh time, answered, and broadcast as comment_added |
| LifecycleLaws.CommentLogsNothing | app.py:1138-1258 | a comment creates no action item and logs no activity |
| LifecycleLaws.CommentBindsOnlyFollowup | app.py:1138-1258 | a comment writes no task row, except that a successful follow-up spawn binds its session to the comment's task |
| LifecycleLaws.FollowupBinding | app.py:1243-1252 | a comment can bind a session only through a follow-up spawn, and then to the comment's task with a fresh update time |
| LifecycleLaws.CommentOutbox | app.py:1173-1256 | the gateway calls are one spawn per dispatched mention, then the reply routing |
| LifecycleLaws.AcceptedOutbox | app.py:1156-1253 | for an accepted comment, the outbox gains the mention spawns with the context read after the insert, then the routing requests, and nothing else |
| LifecycleLaws.HumanReplyRouting | app.py:1215-1253 | a human reply on an active task of a roster agent goes to the bound session, and a follow-up is spawned when there is none or the send failed |
| LifecycleLaws.IdleHumanCommentIsNotRouted | app.py:1215-1221 | a human comment on an inactive task, or one not assigned to a roster agent, is routed nowhere |
| LifecycleLaws.OtherAuthorRouting | app.py:1254-1256 | an author outside System, User and the roster wakes the main agent with a 200-character excerpt |
| LifecycleLaws.CommentContexts | app.py:1184-1231 | mentioned agents see the five previous comments of the task, a follow-up the four previous ones |
| LifecycleLaws.UnknownItemIsNotFound | app.py:1321-1403 | every action-item endpoint answers 404 and changes nothing exactly when no item has the id |
| LifecycleLaws.FindItemLocates | app.py:1325-1328 | on a well-formed board an item id names exactly one position |
| LifecycleLaws.ItemFlagsAreIndependent | app.py:1330-1377 | resolve sets resolved and resolved_at only, archive and unarchive set archived only, each on that item only |
| LifecycleLaws.ArchiveUnarchiveRoundTrip | app.py:1344-1386 | archiving then unarchiving an unarchived item gives the items back |
| LifecycleLaws.DeleteItemRemovesIt | app.py:1388-1403 | deleting removes that item only, keeps the others in order, and the id becomes unknown |
| LifecycleLaws.AddedItemIsStored | app.py:1288-1319 | an added item carries the request's task, comment, agent, content and type, is unresolved and unarchived with no resolution time, has an id and time no stored item has, is appended and broadcast as action_item_added, and nothing else changes |
| Broadcast.Channel.Send | app.py:601-603 | a send delivers the message exactly when the connection is open, and reports failure otherwise |
| Broadcast.ConnectionManager.constructor | app.py:586-587 | no connection is registered at first |
| Broadcast.ConnectionManager.Connect | app.py:589-591 | the channel is added to the set |
| Broadcast.ConnectionManager.Disconnect | app.py:593-594 | the channel is removed; removing an absent one changes nothing |
| Broadcast.ConnectionManager.Broadcast | app.py:596-604 | afterwards the set is the one before minus exactly the failed channels; every open channel got the message once and no failure escapes |
| Mentions.PrefixMatch | app.py:61-62 | the alternative matched at a position is a roster name the text starts with, ignoring case; none when no name fits |
| Mentions.FirstSameLower | app.py:1193-1197 | the name found equals the mention ignoring case, or no roster name does |
| Mentions.MatchesDenoteNames | app.py:61-62 | every match equals one of the pattern's names, ignoring case |
| Mentions.MentionsDenoteAgents | app.py:1174 | every mention found denotes a roster agent |
| Mentions.NoAtNoMatches | app.py:61-62 | text without an `@` holds no match |
| Mentions.MatchedMentionOccurs | app.py:1174 | past a matched `@name`, that name and every later mention are written in the comment after an `@` |
| Mentions.MentionsOccurInContent | app.py:1174 | every match found is written in the comment right after an `@` |
| Mentions.MatchHoldsNoAt | app.py:61-62 | a matched name contains no `@` |
| Mentions.MatchEndsBeforeAt | app.py:61-62 | a match that starts before an `@` ends before it |
| Mentions.MatchesFound | app.py:61-62 | every `@` followed by a name is found, as written, by the left-to-right scan |
| Mentions.MentionsFound | app.py:1174 | every `@` followed by a roster name, in any case, yields that name as written among the mentions |
| Mentions.LowerCaseMentionFound | app.py:1174 | "@architect hi" yields exactly one mention, "architect" as written |
| Mentions.LowerCaseMentionDispatchesOnce | app.py:1174-1199 | the mentions of "@architect hi" dispatch the Architect once |
| Mentions.Normalise | app.py:1193-1197 | the normalising loop returns the first roster name equal to the mention ignoring case |
| Mentions.CountStep | app.py:1191 | one more raw spelling counts once for the agent it denotes |
| Mentions.DispatchStep | app.py:1191-1211 | one turn of the dispatch loop keeps each agent's count equal to its distinct spellings seen, the author excluded |
| Mentions.MentionTargets | app.py:1191-1211 | each agent is dispatched once per distinct raw spelling that denotes it, never the author |
| Mentions.RosterSpellings | app.py:1193-1197 | the roster names used in the examples below denote themselves, and "architect" denotes the Architect |
| Mentions.CaseVariantsDispatchTwice | app.py:1191 | "@Architect" and "@architect" dispatch the Architect twice |
| Mentions.TwoAgentsAndSelfMention | app.py:1199 | two other agents are dispatched once each and the author's self-mention not at all |
| Mentions.ThreadMembers | app.py:1184-1187 | a task's thread holds exactly that task's comments |
| Mentions.ThreadAppend | app.py:1156-1160 | a new comment goes to the end of its task's thread |
| Mentions.OthersOfFresh | app.py:1185 | excluding an id that no earlier comment has removes nothing |
| Mentions.Excerpts | app.py:1189 | one line per comment, each its excerpt |
| Mentions.MentionContext | app.py:1184-1189 | at most five lines, each excerpt at most 500 characters |
| Mentions.ReplyContext | app.py:1224-1231 | at most four lines |
| Mentions.MentionContextIsFivePrevious | app.py:1184-1189 | mentioned agents see the five comments before the new one, oldest first |
| Mentions.ReplyContextIsFourPrevious | app.py:1224-1231 | a follow-up sees only the four comments before the new one, among those the model writes |
| Mentions.NotifyExcerpt | app.py:135 | content of at most 200 characters is kept whole; longer content is its first 200 characters plus "..." |
| Queries.TableRowsMembers | app.py:857 | the table scan meets exactly the stored rows with ids below the counter |
| Queries.TableRowsIncreasing | app.py:857 | the scan meets rows in strictly increasing id order |
| Queries.BoardRows | app.py:857 | on a well-formed board the scan meets every stored task and nothing else |
| Queries.ListedBeforeIsTotalPreorder | app.py:855 | the list order (priority rank, then newest first) compares every two tasks, transitively |
| Queries.ScanOnce | app.py:845-858 | a filtered scan holds each matching task once |
| Queries.ListTasksSpec | app.py:841-858 | the selected rows are exactly the board's matching tasks, each once, ordered by priority rank then newest first |
| Queries.ListTasksReply | app.py:841-858 | the listing is those rows exactly when none of the matching tasks has a NULL status, and a 500 otherwise |
| Queries.AgentOrderIsTotalPreorder | app.py:955 | the agent-list order (priority text, then oldest first) compares every two tasks, transitively |
| Queries.AgentTasksSpec | app.py:950-958 | an agent's list holds exactly its tasks not Done, not Blocked and not NULL, each once, in priority-text then creation order |
| Queries.AgentTasksPutLowBeforeMedium | app.py:855-955 | the agent list puts a Low task before a Medium one, where the board list puts it after |
| Queries.GetActionItemsSpec | app.py:1270-1286 | the items come back in creation order, each exactly when it is the task's and archived (archived view) or unarchived with the asked resolution |
| Queries.ArchivedViewIgnoresResolved | app.py:1274-1279 | the archived view ignores the resolved parameter |
| Queries.ArchiveHidesItem | app.py:1344-1365 | archiving takes an item out of the default views and into the archived one |
| Queries.UnarchiveShowsItem | app.py:1367-1386 | unarchiving brings an item back into the default view of its resolution and out of the archived one |
| Access.VerifyApiKey | app.py:91-108 | with no key every request passes; a request passes only by presenting the key as bearer token or X-API-Key; a non-ASCII key never passes; ASCII inputs never cause a 500 |
| Sessions.MainAndLabelledSessions | app.py:1488-1492 | the main session is always labelled as such; any other labelled session shows its label |
| Sessions.SubagentShortId | app.py:1493-1496 | an unlabelled subagent shows a short id of at most eight characters from its key's last part |
| Sessions.AgentKeyLabel | app.py:1497-1500 | an unlabelled `agent:<name>:…` session shows the agent name in title case |
| Sessions.FormatAll | app.py:1481-1510 | one row per reported session, each its formatting |
| Sessions.MainFirstIsTotalPreorder | app.py:1531 | the sort key compares every two sessions, transitively |
| Sessions.ListSessionsSpec | app.py:1512-1531 | the list shows every reported session not deleted, main sessions first then newest first; the deleted keys kept are exactly those still reported |
| Sessions.MainSessionsLead | app.py:1531 | no session without "main" in its key precedes one with it |
| Sessions.StopAll | app.py:1670-1680 | the stop loop collects stopped and failed keys as the specification lists them |
| Sessions.StopAllPartition | app.py:1670-1680 | every targeted key lands in exactly one of the two lists, as often as listed, and no key containing "main" is ever stopped |

## Left out

- HTTP calls to the agent gateway are not modelled: `send_to_agent_session`, `spawn_agent_session`, `spawn_mentioned_agent`, `spawn_followup_session`, `notify_MOLTBOT`, `sessions_list` and `sessions_stop`. They are requests in the outbox, and their outcomes (success, the reported session key, the reported session list) are parameters. The `MOLTBOT_ENABLED` switch and the main-agent early return inside them are part of what these parameters stand for.
- The system comments the spawn helpers post back to the board after a successful spawn are not modelled. They go through an HTTP call to the board itself. A reply context computed after such a comment has landed would include it.
- Prompt texts and message templates are not modelled. They are string formatting with nothing to prove. Requests carry the data they are built from.
- SQLite, the schema migration and `get_db` are replaced by in-memory tables. Ties in `ORDER BY` are broken by table order, which SQLite does not promise.
- Timestamps are replaced by a counter. A time is the number of timestamps stored so far. The model's times are therefore distinct and increasing, while in the code two timestamps written by one handler can be equal.
- The schema `init_db` creates has no `source_file` or `source_ref` column in `tasks`. On a database it creates, `create_task`'s INSERT and `update_task`'s read of `current["source_file"]` fail with a 500. The model assumes those columns exist, as on a database migrated by hand.
- The websocket endpoint's accept loop, CORS, static files and `read_root` are not modelled. They are framework plumbing.
- Session deletion from the gateway's files, chat history, chat forwarding and attachments are not modelled. They are file I/O and network calls.
- Concurrency is not modelled. The handlers run one after another in the model, and the code itself has no lock that would exclude concurrent moves.
- The regex engine is not modelled. Mention matching is a leftmost scan for `@` followed by a roster name, ignoring case, taking the first name that fits, as the alternation does.
- Case folding is modelled for ASCII only: `Lower` and `Title` leave other characters unchanged.
- `Access.VerifyApiKey`: the constant-time behaviour of `compare_digest` is not modelled, only its result and its TypeError on non-ASCII text.
- `Sequences.SortBy`: it is stable by construction, but stability is not stated as a proved property. The listings are proved sorted and permuted, not tie-ordered.
- `get_task`, `get_comments`, `get_activity`, `get_config`, `verify_internal_only`, `create_session`, `stop_session` and `delete_session` are not modelled. They are single reads, or calls into the gateway with no board logic.
- `list_sessions` and `stop_all_sessions` are modelled after the gateway has answered. The gateway failure paths return an error reply without touching the board.
