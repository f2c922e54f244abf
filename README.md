# GO-Panel task board, modelled in Dafny

GO-Panel is a kanban board: a Go server in front of a hosted REST database,
and a React client. This project models the parts of both that decide what
the user sees.

- **Board page** (`BoardTasks`, `BoardView`). The client's priority weight
  and comparator (`sortTasks`) and the column split (`getTasksByColumn`).
  Every handler of the board page is a method of the `Board` class over its
  single `tasks` state. Each method states the optimistic update, the
  request it sends and the rollback or reload on failure.
- **Task handlers of the server** (`Handlers`):
  - the bearer-token slice;
  - the required id and status parameters;
  - the rule that an upstream status of 400 or more is an error;
  - the stable in-place sort `GetTasks` applies before answering.
- **Client and server order together** (`OrderAgreement`): when the
  client's re-sort of the server's answer keeps the server's order, and two
  inputs where it does not: a mixed-case priority and an empty due date.
- **Notification store** (`Notifications`): the list and the unread
  counter. All four operations keep the counter equal to the number of
  unread entries.
- **Chat sidebar** (`Chat`): the message buffer `onmessage` rewrites, the
  notification a message may raise, the send guard, and the `http`→`ws`
  rewrite of the API address.
- **Task card** (`TaskCard`): the overdue flag, the displayed priority and
  its label, the subtask badge and the avatars.

Shared modules:

- `Sorting`: a stable insertion sort, as a function and as an in-place
  array method, with the sortedness, stability and idempotence lemmas. It
  is the model of Go's `sort.SliceStable` and of the chat's timestamp sort.
  For these the comparator is consistent, so every stable sort gives the
  same order. For the board's `sortTasks` it is one admissible engine
  order; the board lemmas state only what holds for every stable sort
  with that comparator.
- `JsString`: `trim`, `toLowerCase`, `replace` and `split('@')[0]` of
  JavaScript, and Go's `<` on strings.
- `Lists`: `filter`.
- `Wrappers`: `Option` and `Result`.

Network calls, the confirmation dialog, the clock and random ids are
parameters of the methods. A date is a day number; `today` is the current
day.

Facts the proofs bring out:

- The client's comparator is antisymmetric but not transitive. A missing
  position makes the difference NaN, which the sort reads as 0. The order
  of `sortTasks` is therefore proved against two total preorders the
  comparator respects: weight then date always, and the position tie-break
  when every task has a position.
- The server recognises fifteen exact priority spellings. The client
  lower-cases first, so `"hIgH"` weighs 3 on the client and 0 on the server
  (`OrderAgreement.ReSortCanReorder`).
- The server encodes `position` with `omitempty`, so position 0 reaches the
  client as a missing field.
- A due date that is present but empty survives the server's `omitempty`,
  because the field is a pointer. The server sorts it before every real
  date, and the client reads it as no date and sorts it after them
  (`OrderAgreement.EmptyDateReordered`). The client itself never writes
  one: it sends `null` for an empty date field.
- The chat socket can outlive the sidebar. The effect's cleanup closes
  `ws` only if it is already assigned. If the sidebar closes while
  `getToken` is pending, the socket opens afterwards and is never closed.
  Its handlers still see the `isOpen` of the effect that created them,
  which was true. So the notification branch of `onmessage` never fires
  on any socket (`Chat.ConnectedSocketNeverNotifies`).
- `clearBoardNotifications` clamps the counter at 0. While the invariant
  holds the clamp never applies, and the method's contract states the exact
  decrease.

## Model

| member | source | states |
|---|---|---|
| BoardTasks.Weight | frontend/src/pages/Board.jsx:180-186 | the client weight is 0..3 and 0 for a missing priority |
| BoardTasks.WeightIgnoresCase | frontend/src/pages/Board.jsx:181 | two priorities that lower-case alike weigh the same |
| BoardTasks.WeightMixedCaseHigh | frontend/src/pages/Board.jsx:181-183 | "hIgH" weighs 3 on the client |
| BoardTasks.WeightUpperTurkish | frontend/src/pages/Board.jsx:181-185 | "YÜKSEK" weighs 3 and "DÜŞÜK" weighs 1 |
| BoardTasks.Compare | frontend/src/pages/Board.jsx:188-200 | a heavier task sorts first; at equal weight a dated task sorts before an undated one, and two dated tasks by day; at equal weight and day, a missing position gives 0 |
| BoardTasks.Before | frontend/src/pages/Board.jsx:188-200 | a task goes first only if it weighs at least as much, and an undated one only before another undated one of its weight |
| BoardTasks.CompareAntisymmetric | frontend/src/pages/Board.jsx:188-200 | swapping the arguments of the comparator negates its result, a NaN position difference included |
| BoardTasks.HeavierFirst | frontend/src/pages/Board.jsx:188-192 | a task of greater weight goes before a lighter one |
| BoardTasks.BeforeAsymmetric | frontend/src/pages/Board.jsx:188-200 | the comparator never puts each of two tasks before the other |
| BoardTasks.SortTasks | frontend/src/pages/Board.jsx:179-200 | `sortTasks` returns a permutation of its input |
| BoardTasks.DateLeFits | frontend/src/pages/Board.jsx:188-200 | weight-then-date is a total preorder the comparator always respects |
| BoardTasks.FullLeFits | frontend/src/pages/Board.jsx:188-200 | with every position present, weight, date, then position is a total preorder the comparator respects |
| BoardTasks.SortTasksByDate | frontend/src/pages/Board.jsx:179-200 | the sorted list runs in weight-then-date order |
| BoardTasks.SortTasksByPosition | frontend/src/pages/Board.jsx:179-200 | with every position present, the sorted list also runs by position within weight and date |
| BoardTasks.SortTasksOrdered | frontend/src/pages/Board.jsx:188-200 | in the sorted list, weight never increases; within a weight, dated tasks come before undated ones and dates never decrease |
| BoardTasks.SortTasksTieBreak | frontend/src/pages/Board.jsx:196-199 | with every position present, tasks of one weight and one due date (or none) run by ascending position |
| BoardTasks.SortTasksIdempotent | frontend/src/pages/Board.jsx:179-200 | re-sorting a sorted list changes nothing |
| BoardTasks.SortedInsertRollback | frontend/src/pages/Board.jsx:291-305 | adding a task with a fresh id, sorting, and filtering that id out gives the sorted old list |
| BoardTasks.InColumn | frontend/src/pages/Board.jsx:349-352 | a task with a status shows in the column of that status; a task without one shows in Todo only |
| BoardTasks.TasksByColumn | frontend/src/pages/Board.jsx:349-352 | a column shows exactly the tasks with that status, plus those without status in Todo, each no more often than the list holds it |
| Lists.FilterSubMultiset | frontend/src/pages/Board.jsx:349-352 | `filter` only drops elements: it never adds one or repeats one |
| BoardTasks.ColumnOf | frontend/src/pages/Board.jsx:10-14 | a task with a column status or none shows in exactly one column; any other status shows in none |
| BoardTasks.ColumnsPartition | frontend/src/pages/Board.jsx:349-352 | the three column sizes add up to the number of placed tasks |
| BoardTasks.FindIndex | frontend/src/pages/Board.jsx:234 | the first index with that id, or none exactly when no task has it |
| BoardTasks.Find | frontend/src/pages/Board.jsx:121 | the first task of the list with that id, or none exactly when no task has it |
| BoardTasks.MapWhere | frontend/src/pages/Board.jsx:132 | same length; tasks with the id are transformed, the others are kept |
| BoardTasks.DropTarget | frontend/src/pages/Board.jsx:236-238 | a column id is its own target; otherwise the non-empty status of the task dropped on, or none |
| BoardTasks.DropMove | frontend/src/pages/Board.jsx:221-243 | no move without a target, onto itself, for an unknown task, or into its own column; a drop on a column or on a task whose column differs from the dragged task's moves it there; a move is always to the drop target and changes the status |
| BoardTasks.MoveTask | frontend/src/pages/Board.jsx:245-250 | the dragged task gets the new status, every other task is unchanged |
| BoardTasks.WithoutId | frontend/src/pages/Board.jsx:320 | exactly the tasks with another id remain |
| BoardTasks.WithoutStatus | frontend/src/pages/Board.jsx:338 | exactly the tasks not in Done remain |
| BoardTasks.Edited | frontend/src/pages/Board.jsx:122-129 | the edit sets title, description, status, priority and due date and keeps every other field |
| BoardTasks.ApplyEdit | frontend/src/pages/Board.jsx:121-132 | tasks with the edited id become the edit of the first such task; the others are unchanged |
| BoardTasks.ReplaceSubtask | frontend/src/pages/Board.jsx:457 | the subtask with the id is replaced, the others kept, in place |
| BoardTasks.WithoutSubtask | frontend/src/pages/Board.jsx:473 | exactly the subtasks with another id remain |
| BoardTasks.WithSubtasks | frontend/src/pages/Board.jsx:458 | the task with the id gets the new subtasks; nothing else changes |
| BoardTasks.SwapSubtask | frontend/src/pages/Board.jsx:510-518 | in the edited task, the temporary subtask is replaced by the created one |
| BoardTasks.AppendThenReplace | frontend/src/pages/Board.jsx:502-514 | appending a temporary subtask and then replacing it equals appending the created one, when the temporary id is fresh |
| BoardTasks.Reload | frontend/src/pages/Board.jsx:203-215 | after a failed fetch the list is kept; otherwise it is a permutation of the data, empty for `null` |
| BoardTasks.FormDate | frontend/src/pages/Board.jsx:127 | an empty date field becomes no due date, anything else a day |
| BoardView.TemporaryTask | frontend/src/pages/Board.jsx:281-289 | the optimistic task has the temporary id, the column, priority and due date, no position and no subtasks |
| BoardView.Board.constructor | frontend/src/pages/Board.jsx:92 | the board starts with no tasks |
| BoardView.Board.FetchTasks | frontend/src/pages/Board.jsx:203-215 | the list becomes `Reload` of the old list and the fetch outcome |
| BoardView.Board.DragEnd | frontend/src/pages/Board.jsx:221-267 | a no-op drop changes nothing and sends nothing; a move re-sorts, sends `{id, status}` and reloads when the request fails |
| BoardView.Board.CreateTask | frontend/src/pages/Board.jsx:277-307 | a blank title does nothing; otherwise the sorted list with the temporary task, the request with position = old length, a reload on success and removal on failure; with a fresh id, failure leaves the sorted old list |
| BoardView.Board.UpdateTaskDetails | frontend/src/pages/Board.jsx:116-149 | without an edited task nothing happens; otherwise the sorted edited list, the edit sent, a reload on failure |
| BoardView.Board.DeleteTask | frontend/src/pages/Board.jsx:315-328 | the delete request for the task's id is sent exactly when confirmed; unconfirmed or failed: the list is as before; else the task is gone |
| BoardView.Board.ClearColumn | frontend/src/pages/Board.jsx:332-347 | the delete-by-status request for Done is sent exactly when the column is Done and the user confirms; otherwise, or on failure, the list is as before; else the Done tasks are gone |
| BoardView.Board.ToggleSubtask | frontend/src/pages/Board.jsx:453-461 | the subtask in the edited task gets the new flag and the update is sent; no rollback |
| BoardView.Board.RemoveSubtask | frontend/src/pages/Board.jsx:469-477 | once confirmed, the subtask leaves the edited task and its id is sent; no rollback |
| BoardView.Board.AddSubtask | frontend/src/pages/Board.jsx:527-551 | a blank title does nothing; otherwise the temporary subtask is appended, the request sent, and it is swapped for the created one on success |
| BoardView.AddSubtaskResult | frontend/src/pages/Board.jsx:492-523 | after a successful add the edited task holds its old subtasks followed by the created one |
| Handlers.PriorityWeight | backend/api/handlers.go:109-130 | the server weight is 0..3, 0 for the empty priority |
| Handlers.PriorityWeightIsCaseSensitive | backend/api/handlers.go:120-129 | only the listed spellings count: "hIgH", "YÜKSEK" and "ORTA" weigh 0 |
| Handlers.RankLeFits | backend/api/handlers.go:133-158 | weight, then date string with undated last, then position, is a total preorder the comparator respects |
| Handlers.Less | backend/api/handlers.go:133-158 | a heavier task goes first; a task goes first only if it weighs at least as much; at equal weight an undated task goes first only before an undated one with a larger position |
| Handlers.LessAsymmetric | backend/api/handlers.go:133-158 | the comparator never orders two tasks both ways |
| Handlers.SortedByRank | backend/api/handlers.go:133-158 | the answer runs by weight descending; within a weight, dated tasks first by date string, then undated ones by position |
| Handlers.SameDateKeepsOrder | backend/api/handlers.go:133 | tasks of one weight and one due date keep their upstream order |
| Handlers.Token | backend/api/handlers.go:85-89 | no token exactly for a header shorter than 8; otherwise everything after the first 7 characters |
| Handlers.TokenOfBearer | backend/api/handlers.go:89 | a `Bearer` header yields its token |
| Handlers.TokenIgnoresScheme | backend/api/handlers.go:85-89 | the scheme is not checked: "Basic abcd" yields "bcd" |
| Handlers.Perform | backend/api/handlers.go:35-80 | success exactly for an upstream status below 400, with its body; otherwise the error carries status and body |
| Handlers.Forward | backend/api/handlers.go:189-199 | the upstream body on success, 500 otherwise |
| Handlers.Acknowledge | backend/api/handlers.go:250-261 | the fixed message and upstream details on success, 500 otherwise |
| Handlers.CreateTask | backend/api/handlers.go:167-200 | 401 without token, 400 for an unreadable body, else a POST with the token |
| Handlers.UpdateTask | backend/api/handlers.go:203-233 | 401, then 400 for an unreadable body or empty id, else a PATCH of that id |
| Handlers.DeleteTask | backend/api/handlers.go:236-262 | 401, then 400 for an empty id, else a DELETE of that id |
| Handlers.DeleteTasksByStatus | backend/api/handlers.go:265-290 | 401, then 400 for an empty status, else a DELETE of every task with that status |
| Handlers.CreateSubtask | backend/api/handlers.go:293-324 | 401, then 400 for an unreadable body, else a POST to subtasks |
| Handlers.UpdateSubtask | backend/api/handlers.go:327-356 | 401, then 400 for an unreadable body or empty id, else a PATCH of that subtask |
| Handlers.DeleteSubtask | backend/api/handlers.go:359-383 | 401, then 400 for an empty id, else a DELETE of that subtask |
| Handlers.GetTasks | backend/api/handlers.go:83-164 | 401 without token; 500 for an upstream or decode failure; else the decoded tasks, stably sorted in place |
| Handlers.NoCallWithoutToken | backend/api/handlers.go:167-383 | no handler calls upstream without a token |
| OrderAgreement.Omitted | backend/api/handlers.go:22-32 | an `omitempty` string reaches the client as missing exactly when it is empty |
| OrderAgreement.OmittedPosition | backend/api/handlers.go:29 | position 0 reaches the client as missing |
| OrderAgreement.ToClientSubtasks | backend/api/handlers.go:14-20 | each server subtask becomes the client subtask with the same fields |
| OrderAgreement.ToClient | backend/api/handlers.go:22-32 | the client task carries the omitted priority, status and position; a due date that is present and non-empty is read as a day, and a missing or empty one reaches the client as no date, as `!a.due_date` reads it |
| OrderAgreement.ToClientAll | backend/api/handlers.go:160-163 | the answer becomes the client list element by element |
| OrderAgreement.ServerSpellingsAgree | backend/api/handlers.go:120-129 | every spelling the server recognises weighs the same on the client |
| OrderAgreement.HighLowers | frontend/src/pages/Board.jsx:181-182 | "High", "high" and "HIGH" lower-case to the name the client weighs 3 |
| OrderAgreement.YuksekLowers | frontend/src/pages/Board.jsx:181-182 | both server spellings of "yüksek" lower-case to "yüksek" |
| OrderAgreement.MediumLowers | frontend/src/pages/Board.jsx:181-183 | "Medium", "medium" and "MEDIUM" lower-case to "medium" |
| OrderAgreement.OrtaLowers | frontend/src/pages/Board.jsx:181-183 | "Orta" and "orta" lower-case to "orta" |
| OrderAgreement.LowLowers | frontend/src/pages/Board.jsx:181-184 | "Low", "low" and "LOW" lower-case to "low" |
| OrderAgreement.DusukLowers | frontend/src/pages/Board.jsx:181-184 | both server spellings of "düşük" lower-case to "düşük" |
| OrderAgreement.MixedCaseDisagrees | backend/api/handlers.go:120-129 | "hIgH" weighs 0 on the server and 3 on the client |
| OrderAgreement.NeighboursAgree | backend/api/handlers.go:133-158 | where the server puts y after x, the client does not move y in front of x, when the weights agree, no due date is empty, the day reading keeps the string order of the dates in the answer, and same-day tasks of one weight share a position |
| OrderAgreement.ClientKeepsServerOrder | frontend/src/pages/Board.jsx:208 | under the same four conditions, the client's re-sort of the server's answer changes nothing |
| OrderAgreement.EmptyDateReordered | backend/api/handlers.go:150-157 | two tasks of one weight, one with an empty due date: the server puts the empty date first, and the client's re-sort puts it last |
| OrderAgreement.DistinctDaysSuffice | backend/api/handlers.go:150-157 | distinct due days among same-weight tasks meet the position condition |
| OrderAgreement.ServerRanksLowFirst | backend/api/handlers.go:137-139 | the server puts "Low" before "hIgH" |
| OrderAgreement.ClientRanksHeavierFirst | frontend/src/pages/Board.jsx:192 | the client puts a heavier task first |
| OrderAgreement.ReSortCanReorder | frontend/src/pages/Board.jsx:208 | the client re-sort of that server answer puts "hIgH" first |
| Notifications.CountUnread | frontend/src/context/NotificationContext.jsx:8 | the unread count is at most the number of entries |
| Notifications.MarkRead | frontend/src/context/NotificationContext.jsx:17 | same length, every entry with `read` set and nothing else changed |
| Notifications.MarkReadLeavesNoneUnread | frontend/src/context/NotificationContext.jsx:16-19 | after marking all read nothing is unread |
| Notifications.RemoveBoard | frontend/src/context/NotificationContext.jsx:23 | exactly the entries of other boards remain |
| Notifications.RemovedUnread | frontend/src/context/NotificationContext.jsx:24 | the removed unread count is at most the number of entries |
| Notifications.UnreadSplitsByBoard | frontend/src/context/NotificationContext.jsx:21-28 | the unread count is the unread count after removal plus the unread entries removed |
| Notifications.RemoveBoardIdempotent | frontend/src/context/NotificationContext.jsx:23-25 | removing a board twice is removing it once, and leaves none of its unread entries |
| Notifications.NotificationStore.constructor | frontend/src/context/NotificationContext.jsx:7-8 | the store starts empty with counter 0 |
| Notifications.NotificationStore.AddNotification | frontend/src/context/NotificationContext.jsx:11-14 | one unread entry appended, counter plus one, invariant kept |
| Notifications.NotificationStore.MarkAllAsRead | frontend/src/context/NotificationContext.jsx:16-19 | every entry read, counter 0, invariant kept |
| Notifications.NotificationStore.ClearBoardNotifications | frontend/src/context/NotificationContext.jsx:21-28 | the board's entries go; the counter drops by the unread ones removed; invariant kept |
| Notifications.NotificationStore.ClearAll | frontend/src/context/NotificationContext.jsx:30-33 | empty list, counter 0, invariant kept |
| Notifications.ClearBoardTwice | frontend/src/context/NotificationContext.jsx:21-28 | a second clear of the same board changes neither list nor counter |
| Chat.Received | frontend/src/components/ChatSidebar.jsx:56-63 | a known history frame leaves the buffer; a new one adds exactly itself; a live frame is appended |
| Chat.HistoryRecorded | frontend/src/components/ChatSidebar.jsx:57-61 | after a history frame the buffer holds its timestamp and content |
| Chat.HistoryIdempotent | frontend/src/components/ChatSidebar.jsx:59 | a history frame delivered twice counts once |
| Chat.HistorySorted | frontend/src/components/ChatSidebar.jsx:60 | after a new history frame the buffer is in timestamp order |
| Chat.HistoryStable | frontend/src/components/ChatSidebar.jsx:60 | frames with equal timestamps keep their order, the new one last |
| Chat.TitleOr | frontend/src/components/ChatSidebar.jsx:69 | the board title, or "Pano" when it is missing or empty; never empty |
| Chat.Seen | frontend/src/components/ChatSidebar.jsx:59 | a frame already in the buffer is seen; nothing is seen in an empty buffer |
| Chat.Notice | frontend/src/components/ChatSidebar.jsx:66-74 | a notification exactly for another sender while closed, carrying board, title, content, time and the address up to its first `@` (the whole address when it has none) |
| Chat.ShouldConnect | frontend/src/components/ChatSidebar.jsx:36 | the effect connects only while open, with a board and a user |
| Chat.ConnectedSocketNeverNotifies | frontend/src/components/ChatSidebar.jsx:36 | on a socket the guard let through, no frame raises a notification |
| Chat.ApiUrl | frontend/src/components/ChatSidebar.jsx:8 | the configured address, or the local default |
| Chat.WsUrl | frontend/src/components/ChatSidebar.jsx:9 | an address without `http` is kept; otherwise its one rewritten occurrence makes it two characters shorter |
| Chat.TokenText | frontend/src/components/ChatSidebar.jsx:42-44 | the token, or `undefined` when there is none |
| Chat.ChatUrl | frontend/src/components/ChatSidebar.jsx:44 | the socket address starts with the `ws` address and ends with the token text |
| Chat.WsUrlOfHttps | frontend/src/components/ChatSidebar.jsx:9 | an https address becomes wss, the rest untouched |
| Chat.WsUrlOfHttp | frontend/src/components/ChatSidebar.jsx:9 | an http address becomes ws; only the first `http` is rewritten |
| Chat.DefaultWsUrl | frontend/src/components/ChatSidebar.jsx:8-9 | the default socket address is ws://localhost:9092/api |
| Chat.ChatSidebar.constructor | frontend/src/components/ChatSidebar.jsx:14-17 | empty buffer and input, no socket, not connected |
| Chat.ChatSidebar.SetInput | frontend/src/components/ChatSidebar.jsx:15 | the input takes the typed text; nothing else changes |
| Chat.ChatSidebar.SocketCreated | frontend/src/components/ChatSidebar.jsx:86 | the socket is set; nothing else changes |
| Chat.ChatSidebar.SetConnected | frontend/src/components/ChatSidebar.jsx:48-51 | the connected flag follows open and close; nothing else changes |
| Chat.ChatSidebar.OnMessage | frontend/src/components/ChatSidebar.jsx:53-79 | the buffer becomes `Received` of the old buffer, sorted in place for a new history frame; a live frame yields `Notice` |
| Chat.ChatSidebar.SendMessage | frontend/src/components/ChatSidebar.jsx:108-120 | blank input, no socket or no connection: nothing; else the untrimmed text as a text frame and the input cleared |
| Chat.OpenEffect | frontend/src/components/ChatSidebar.jsx:100-106 | opening the chat for a board removes its notifications and leaves none of them unread |
| TaskCard.IsOverdue | frontend/src/components/TaskCard.jsx:22-28 | never overdue without a due date or in Done; overdue only before today |
| TaskCard.OverdueStaysOverdue | frontend/src/components/TaskCard.jsx:22-28 | an overdue card stays overdue on later days |
| TaskCard.OverdueFromNextDay | frontend/src/components/TaskCard.jsx:27 | a dated card not in Done is overdue exactly after its due day |
| TaskCard.DisplayPriority | frontend/src/components/TaskCard.jsx:31 | the priority, or "Medium" when it is missing or empty |
| TaskCard.PriorityLabel | frontend/src/components/TaskCard.jsx:95 | "Yüksek" exactly for "High", "Orta" exactly for "Medium", "Düşük" otherwise |
| TaskCard.UnprioritisedShowsMedium | frontend/src/components/TaskCard.jsx:31 | a card without priority reads "Orta" but has weight 0 |
| TaskCard.LowerCaseHighShowsLow | frontend/src/components/TaskCard.jsx:95 | a "high" card reads "Düşük" but has weight 3 |
| TaskCard.SubtaskBadge | frontend/src/components/TaskCard.jsx:104-113 | a badge exactly for a non-empty list; completed ≤ total; green exactly when all are completed, i.e. the counts are equal |
| TaskCard.ShowCreator | frontend/src/components/TaskCard.jsx:123 | the creator avatar shows without an assignee or when the addresses differ |
| TaskCard.AvatarCount | frontend/src/components/TaskCard.jsx:121-136 | at most two avatars |
| TaskCard.AvatarShown | frontend/src/components/TaskCard.jsx:121-136 | at least one avatar, and two exactly when the assignee's address differs from the creator's |
| Sorting.Sort | frontend/src/pages/Board.jsx:188 | the stable sort keeps the length of its input |
| Sorting.SortPermutes | frontend/src/pages/Board.jsx:188 | the stable sort returns a permutation of its input |
| Sorting.SortPair | backend/api/handlers.go:133 | two elements come out swapped exactly when the second is less than the first |
| Sorting.SortSorted | backend/api/handlers.go:133 | the sort puts its input in the order of any total preorder its comparator respects |
| Sorting.SortStable | backend/api/handlers.go:133 | elements the comparator does not order keep their input order |
| Sorting.SortNoDescent | frontend/src/pages/Board.jsx:188 | for an asymmetric comparator, no element is less than its predecessor, even without transitivity |
| Sorting.SortIdempotent | frontend/src/pages/Board.jsx:188 | for an asymmetric comparator, sorting twice is sorting once |
| Sorting.SortInPlace | backend/api/handlers.go:133 | the array ends as the stable sort of its old contents |
| JsString.Trim | frontend/src/pages/Board.jsx:279 | the trimmed text is the slice of the input left after removing all white space at both ends, and neither starts nor ends with white space |
| JsString.TrimEmptyIffAllSpace | frontend/src/components/ChatSidebar.jsx:110 | the trimmed text is empty exactly when the text is all white space |
| JsString.ToLower | frontend/src/pages/Board.jsx:181 | lower-casing maps each character on its own and keeps the length |
| JsString.ToLowerIdempotent | frontend/src/pages/Board.jsx:181 | lower-casing twice is lower-casing once |
| JsString.ReplaceFirst | frontend/src/components/ChatSidebar.jsx:9 | `replace` rewrites only the first occurrence, or nothing |
| JsString.BeforeFirst | frontend/src/components/ChatSidebar.jsx:71 | the prefix before the first separator, which it does not contain |
| JsString.StrLessTransitive | backend/api/handlers.go:157 | Go's string order is transitive |
| JsString.StrLessTotal | backend/api/handlers.go:157 | Go's string order is total |

## Left out

- The upstream REST calls, the database, the auth middleware, the board handlers of the server, the router, and the server's start-up. The upstream answer and the JSON decoding of a request or answer are parameters.
- The chat server: its rooms and hub are goroutines and channels, and its history load is a database call. The server replays history tagged `text`, so the client's `history` path is modelled on its own terms.
- The client API wrappers: every request is a success or failure parameter.
- The WebSocket lifecycle: connect, close and reconnect. The socket's state is the two flags its callbacks set; a frame that fails to parse is not modelled.
- Races between in-flight requests: each handler is one atomic step with its network outcome given.
- Date parsing, time zones and invalid dates: a due date is a day number, and the reading of a date string is a parameter of `OrderAgreement`.
- The random temporary ids, `Date.now()` notification ids and today's date: all are parameters.
- The floating-point completion percentage of the edit dialog, and all layout: modals, menus and the mobile column filter.
- The dashboard and the login, layout and install pages.
- The `alert` and console messages on failure.
- A failed JSON encode of the `GetTasks` answer.
- React's double-run of effects in development.
- BoardView.Board.AddSubtask: a successful create that answers an empty array (`realSub[0]` undefined) is not modelled; the created subtask is a parameter.
- BoardView.Board.ToggleSubtask, BoardView.Board.RemoveSubtask and BoardView.Board.AddSubtask: when the edited task is gone, the source throws before changing the list; the model leaves the list unchanged and sends nothing.
- OrderAgreement.ToClient: an empty id or title, which the server omits, reaches the model as the empty string rather than as a missing field.
- Chat.ChatSidebar.OnMessage: the notification is returned rather than passed to the store; `Chat.OpenEffect` is the store's side.
- BoardTasks.SortTasks: the exact order is engine-specific whenever a task has no position. The comparator then reads the difference as NaN, i.e. 0, and is not transitive, so ECMAScript leaves the order to the engine. The model's insertion sort gives one admissible order, and the `Board` methods' `SortTasks(...)` results name that one. What holds for every engine is the permutation (`SortTasks`) and the order stated by `SortTasksByDate` and `SortTasksOrdered`. With every position present, `SortTasksByPosition` adds the position order.
- Handlers.Token: the header is a sequence of characters, while Go's `len` and `[7:]` count UTF-8 bytes. For a header with non-ASCII characters the length test and the cut can differ from the source, which may even cut a character in half.
- Handlers.Forward: an error reply carries only its status code. The source also sends the upstream error text (`err.Error()`) as the body of the error.
- Handlers.CreateTask, Handlers.UpdateTask, Handlers.CreateSubtask and Handlers.UpdateSubtask: the upstream call records its verb, endpoint and token but not the forwarded body. The server decodes the request and re-encodes it with `omitempty`, so a field set to `null` or to its zero value, such as `due_date: null` to clear a due date, never reaches upstream. The model does not show this.
- Chat.ShouldConnect: the cleanup of the connection effect closes the socket only once it is assigned. A socket whose token arrives after the sidebar closed stays open, and the model does not capture its lifetime. Its frames still raise no notification.
