/**
 * The client's view of a board: the task record as the board page holds it,
 * the priority weight and comparator of `sortTasks`, the column split of
 * `getTasksByColumn`, and the decisions the drag, create and fetch handlers
 * make about the list.
 */
module BoardTasks {
  import opened Wrappers
  import opened Lists
  import opened JsString
  import opened Sorting

  datatype Subtask = Subtask(id: string, taskId: string, title: string, isCompleted: bool)

  /** A joined profile row (`profiles` for the creator, `assignees` for the assignee). */
  datatype Person = Person(email: Option<string>)

  /**
   * A task as the client holds it. A missing field is `None`. `dueDate` is the
   * due day already decoded to a day number; `position` is `None` when the
   * server omitted it (a zero position) and on the temporary task of an
   * optimistic create. A task without subtasks has `subtasks == []`.
   */
  datatype Task = Task(
    id: string,
    title: string,
    description: Option<string>,
    status: Option<string>,
    priority: Option<string>,
    dueDate: Option<int>,
    position: Option<int>,
    userId: Option<string>,
    subtasks: seq<Subtask>,
    creator: Option<Person>,
    assignee: Option<Person>)

  /** The three column ids of the board, in display order. */
  const Columns: seq<string> := ["Todo", "Doing", "Done"]

  /** JavaScript truthiness of an optional string: present and non-empty. */
  predicate Truthy(s: Option<string>) {
    s.Some? && s.value != ""
  }

  /** `p?.toLowerCase() || ''`: the lower-cased priority, or the empty string. */
  function LoweredPriority(p: Option<string>): string {
    if p.Some? then ToLower(p.value) else ""
  }

  /**
   * The client's priority weight: High/Yüksek 3, Medium/Orta 2, Low/Düşük 1,
   * anything else (and no priority) 0, compared after lower-casing.
   */
  function Weight(p: Option<string>): (w: int)
    ensures 0 <= w <= 3
    ensures p.None? ==> w == 0
  {
    var q := LoweredPriority(p);
    if q == "high" || q == "y\U{FC}ksek" then 3
    else if q == "medium" || q == "orta" then 2
    else if q == "low" || q == "d\U{FC}\U{15F}\U{FC}k" then 1
    else 0
  }

  /** The weight ignores letter case: two spellings that lower-case alike weigh the same. */
  lemma WeightIgnoresCase(p: string, q: string)
    requires ToLower(p) == ToLower(q)
    ensures Weight(Some(p)) == Weight(Some(q))
  {
  }

  /** Any mix of cases of "high" weighs 3 on the client. */
  lemma WeightMixedCaseHigh()
    ensures Weight(Some("hIgH")) == 3
  {
    LowersTo("hIgH", "high");
  }

  /** Upper-case Turkish names weigh like their lower-case forms. */
  lemma WeightUpperTurkish()
    ensures Weight(Some("Y\U{DC}KSEK")) == 3
    ensures Weight(Some("D\U{DC}\U{15E}\U{DC}K")) == 1
  {
    LowersTo("Y\U{DC}KSEK", "y\U{FC}ksek");
    LowersTo("D\U{DC}\U{15E}\U{DC}K", "d\U{FC}\U{15F}\U{FC}k");
  }

  /**
   * `a.position - b.position` as the sort reads it: a missing position makes
   * the difference NaN, which the sort treats as 0.
   */
  function PositionDiff(a: Option<int>, b: Option<int>): int {
    if a.Some? && b.Some? then a.value - b.value else 0
  }

  /** The comparator of `sortTasks`; a negative result puts `a` before `b`. */
  function Compare(a: Task, b: Task): (r: int)
    ensures Weight(a.priority) != Weight(b.priority) ==> (r < 0 <==> Weight(a.priority) > Weight(b.priority))
    ensures Weight(a.priority) == Weight(b.priority) && a.dueDate.Some? && b.dueDate.None? ==> r == -1
    ensures (Weight(a.priority) == Weight(b.priority) && a.dueDate.Some? && b.dueDate.Some?
      && a.dueDate.value != b.dueDate.value) ==> (r < 0 <==> a.dueDate.value < b.dueDate.value)
    ensures (Weight(a.priority) == Weight(b.priority) && a.dueDate == b.dueDate
      && (a.position.None? || b.position.None?)) ==> r == 0
  {
    var p1, p2 := Weight(a.priority), Weight(b.priority);
    if p1 != p2 then p2 - p1
    else if a.dueDate.None? && b.dueDate.None? then PositionDiff(a.position, b.position)
    else if a.dueDate.None? then 1
    else if b.dueDate.None? then -1
    else if a.dueDate.value - b.dueDate.value != 0 then a.dueDate.value - b.dueDate.value
    else PositionDiff(a.position, b.position)
  }

  /** `a` must come before `b`. */
  predicate Before(a: Task, b: Task): (r: bool)
    ensures r ==> Weight(a.priority) >= Weight(b.priority)
    ensures r && Weight(a.priority) == Weight(b.priority) && a.dueDate.None? ==> b.dueDate.None?
  {
    Compare(a, b) < 0
  }

  /** A heavier task goes first, whatever its date and position. */
  lemma HeavierFirst(a: Task, b: Task)
    requires Weight(a.priority) > Weight(b.priority)
    ensures Before(a, b)
  {
  }

  /** The comparator is antisymmetric. */
  lemma CompareAntisymmetric(a: Task, b: Task)
    ensures Compare(a, b) == -Compare(b, a)
  {
  }

  /** So `Before` never holds both ways. */
  lemma BeforeAsymmetric()
    ensures Asymmetric(Before)
  {
    forall a, b ensures Before(a, b) ==> !Before(b, a) {
      CompareAntisymmetric(a, b);
    }
  }

  /** `sortTasks(list)`: a stably sorted copy of `list`. */
  function SortTasks(s: seq<Task>): (r: seq<Task>)
    ensures multiset(r) == multiset(s)
  {
    SortPermutes(s, Before);
    Sort(s, Before)
  }

  /**
   * The coarse order the comparator always respects: higher weight first,
   * then, within a weight, dated tasks before undated ones and earlier
   * dates first.
   */
  predicate DateLe(a: Task, b: Task) {
    var p1, p2 := Weight(a.priority), Weight(b.priority);
    p1 > p2 || (p1 == p2 && (b.dueDate.None? || (a.dueDate.Some? && a.dueDate.value <= b.dueDate.value)))
  }

  /** `DateLe` followed by the position tie-break, for tasks that all have a position. */
  predicate FullLe(a: Task, b: Task) {
    var p1, p2 := Weight(a.priority), Weight(b.priority);
    p1 > p2 || (p1 == p2 && SameWeightLe(a, b))
  }

  /** The order of `FullLe` among tasks of one weight. */
  predicate SameWeightLe(a: Task, b: Task) {
    if a.dueDate.None? && b.dueDate.None? then a.position.GetOr(0) <= b.position.GetOr(0)
    else if a.dueDate.None? then false
    else if b.dueDate.None? then true
    else (a.dueDate.value < b.dueDate.value
      || (a.dueDate.value == b.dueDate.value && a.position.GetOr(0) <= b.position.GetOr(0)))
  }

  ghost predicate AllPositioned(s: seq<Task>) {
    forall t :: t in s ==> t.position.Some?
  }

  lemma DateLeFits(s: seq<Task>)
    ensures TotalPreorderOn(DateLe, s) && CompatibleOn(Before, DateLe, s)
  {
  }

  lemma FullLeFits(s: seq<Task>)
    requires AllPositioned(s)
    ensures TotalPreorderOn(FullLe, s) && CompatibleOn(Before, FullLe, s)
  {
  }

  /** `sortTasks` always respects `DateLe`. */
  lemma SortTasksByDate(s: seq<Task>)
    ensures SortedBy(SortTasks(s), DateLe)
  {
    DateLeFits(s);
    SortSorted(s, Before, DateLe);
  }

  /** When every task has a position, `sortTasks` respects `FullLe`. */
  lemma SortTasksByPosition(s: seq<Task>)
    requires AllPositioned(s)
    ensures SortedBy(SortTasks(s), FullLe)
  {
    FullLeFits(s);
    SortSorted(s, Before, FullLe);
  }

  /**
   * The order `sortTasks` produces: weight never increases; within a weight,
   * dated tasks precede undated ones and dates never decrease.
   */
  lemma SortTasksOrdered(s: seq<Task>, i: int, j: int)
    requires 0 <= i < j < |s|
    ensures var r := SortTasks(s);
      && Weight(r[i].priority) >= Weight(r[j].priority)
      && (Weight(r[i].priority) == Weight(r[j].priority) && r[i].dueDate.None? ==> r[j].dueDate.None?)
      && (Weight(r[i].priority) == Weight(r[j].priority) && r[i].dueDate.Some? && r[j].dueDate.Some? ==>
            r[i].dueDate.value <= r[j].dueDate.value)
  {
    SortTasksByDate(s);
  }

  /**
   * When every task has a position, tasks of one weight and the same due date
   * (or none) run by ascending position.
   */
  lemma SortTasksTieBreak(s: seq<Task>, i: int, j: int)
    requires AllPositioned(s)
    requires 0 <= i < j < |s|
    requires var r := SortTasks(s);
      Weight(r[i].priority) == Weight(r[j].priority) && r[i].dueDate == r[j].dueDate
    ensures SortTasks(s)[i].position.Some? && SortTasks(s)[j].position.Some?
    ensures SortTasks(s)[i].position.value <= SortTasks(s)[j].position.value
  {
    var r := SortTasks(s);
    SortTasksByPosition(s);
    assert r[i] in multiset(s) && r[j] in multiset(s);
    assert FullLe(r[i], r[j]);
  }

  /** Re-sorting a sorted list changes nothing. */
  lemma SortTasksIdempotent(s: seq<Task>)
    ensures SortTasks(SortTasks(s)) == SortTasks(s)
  {
    BeforeAsymmetric();
    SortIdempotent(s, Before);
  }

  /**
   * Adding a task whose id no other task has, sorting, then filtering that id
   * out again gives the sorted list without it.
   */
  lemma {:induction false} SortedInsertRollback(s: seq<Task>, temp: Task)
    requires forall t :: t in s ==> t.id != temp.id
    ensures Filter(SortTasks(s + [temp]), (t: Task) => t.id != temp.id) == SortTasks(s)
  {
    var p := (t: Task) => t.id != temp.id;
    SortSnoc(s, temp, Before);
    var sorted := SortTasks(s);
    forall e | e in sorted ensures p(e) {
      assert e in multiset(sorted);
    }
    InsertFilter(sorted, temp, Before, p);
    FilterAll(sorted, p);
  }

  /** `getTasksByColumn(c)` keeps a task: its status is `c`, or `c` is Todo and it has no status. */
  predicate InColumn(t: Task, c: string): (r: bool)
    ensures Truthy(t.status) ==> (r <==> t.status == Some(c))
    ensures t.status.None? ==> (r <==> c == "Todo")
  {
    (c == "Todo" && !Truthy(t.status)) || t.status == Some(c)
  }

  /** `getTasksByColumn(c)`: the tasks shown in column `c`, in list order. */
  function TasksByColumn(tasks: seq<Task>, c: string): (r: seq<Task>)
    ensures forall t :: t in r <==> t in tasks && InColumn(t, c)
    ensures forall t :: t in r ==> t.status == Some(c) || (c == "Todo" && (t.status.None? || t.status == Some("")))
    ensures multiset(r) <= multiset(tasks)
  {
    FilterSubMultiset(tasks, t => InColumn(t, c));
    Filter(tasks, t => InColumn(t, c))
  }

  /** A task some column shows: its status is a column id, or missing. */
  predicate Placed(t: Task) {
    !Truthy(t.status) || t.status.value in Columns
  }

  /** A placed task shows in exactly one column; any other task shows in none. */
  lemma ColumnOf(t: Task)
    ensures Placed(t) ==> exists c :: c in Columns && InColumn(t, c)
    ensures forall c, d :: c in Columns && d in Columns && InColumn(t, c) && InColumn(t, d) ==> c == d
    ensures !Placed(t) ==> forall c :: c in Columns ==> !InColumn(t, c)
  {
    if !Truthy(t.status) {
      assert InColumn(t, Columns[0]);
    } else if t.status.value in Columns {
      assert InColumn(t, t.status.value);
    }
  }

  /** The three columns together hold every placed task once: their sizes add up. */
  lemma {:induction false} ColumnsPartition(tasks: seq<Task>)
    ensures |TasksByColumn(tasks, "Todo")| + |TasksByColumn(tasks, "Doing")| + |TasksByColumn(tasks, "Done")|
      == |Filter(tasks, Placed)|
  {
    if tasks != [] {
      var init, last := tasks[..|tasks| - 1], tasks[|tasks| - 1];
      ColumnsPartition(init);
      assert tasks == init + [last];
      FilterSnoc(init, last, t => InColumn(t, "Todo"));
      FilterSnoc(init, last, t => InColumn(t, "Doing"));
      FilterSnoc(init, last, t => InColumn(t, "Done"));
      FilterSnoc(init, last, Placed);
    }
  }

  /** `tasks.findIndex(t => t.id === id)`: the first task with that id, if any. */
  function FindIndex(tasks: seq<Task>, id: string): (r: Option<nat>)
    ensures r.Some? ==> r.value < |tasks| && tasks[r.value].id == id
    ensures r.Some? ==> forall k :: 0 <= k < r.value ==> tasks[k].id != id
    ensures r.None? <==> forall t :: t in tasks ==> t.id != id
  {
    if tasks == [] then None
    else if tasks[0].id == id then Some(0)
    else match FindIndex(tasks[1..], id)
      case None => None
      case Some(k) => Some(k + 1)
  }

  /** `tasks.find(t => t.id === id)`. */
  function Find(tasks: seq<Task>, id: string): (r: Option<Task>)
    ensures r.Some? ==> r.value in tasks && r.value.id == id
    ensures r.Some? ==> exists k :: 0 <= k < |tasks| && tasks[k] == r.value && forall j :: 0 <= j < k ==> tasks[j].id != id
    ensures r.None? <==> forall t :: t in tasks ==> t.id != id
  {
    match FindIndex(tasks, id)
    case None => None
    case Some(k) => Some(tasks[k])
  }

  /** `tasks.map(t => t.id === id ? f(t) : t)`. */
  function MapWhere(tasks: seq<Task>, id: string, f: Task -> Task): (r: seq<Task>)
    ensures |r| == |tasks|
    ensures forall i :: 0 <= i < |tasks| ==> r[i] == if tasks[i].id == id then f(tasks[i]) else tasks[i]
  {
    if tasks == [] then []
    else [if tasks[0].id == id then f(tasks[0]) else tasks[0]] + MapWhere(tasks[1..], id, f)
  }

  /**
   * The column a drop on `overId` aims at: `overId` itself when it names a
   * column, else the status of the task with that id, when it has one.
   */
  function DropTarget(tasks: seq<Task>, overId: string): (r: Option<string>)
    ensures overId in Columns ==> r == Some(overId)
    ensures r.Some? ==> r.value != ""
    ensures overId !in Columns && r.Some? ==> exists t :: t in tasks && t.id == overId && t.status == r
    ensures overId !in Columns && (forall t :: t in tasks ==> t.id != overId) ==> r.None?
  {
    if overId in Columns then Some(overId)
    else match Find(tasks, overId)
      case None => None
      case Some(t) => if Truthy(t.status) then t.status else None
  }

  /**
   * `handleDragEnd`: the status the dragged task moves to, or `None` when the
   * drop changes nothing (no target, a drop on itself, an unknown task, a
   * target without a column, or a target column equal to the task's status).
   */
  function DropMove(tasks: seq<Task>, activeId: string, overId: Option<string>): (r: Option<string>)
    ensures overId.None? || overId == Some(activeId) ==> r.None?
    ensures (forall t :: t in tasks ==> t.id != activeId) ==> r.None?
    ensures r.Some? ==> overId.Some? && r == DropTarget(tasks, overId.value)
    ensures r.Some? ==> exists t :: t in tasks && t.id == activeId && t.status != r
    ensures (overId.Some? && overId.value in Columns && overId.value != activeId && Find(tasks, activeId).Some?
      && Find(tasks, activeId).value.status != overId) ==> r == overId
    ensures (overId.Some? && overId.value != activeId && Find(tasks, activeId).Some?
      && DropTarget(tasks, overId.value).Some?
      && Find(tasks, activeId).value.status != DropTarget(tasks, overId.value)) ==> r == DropTarget(tasks, overId.value)
  {
    if overId.None? || overId.value == activeId then None
    else
      var active := Find(tasks, activeId);
      var target := DropTarget(tasks, overId.value);
      if active.None? || target.None? then None
      else if active.value.status == target then None
      else target
  }

  /** The task with its status replaced. */
  function WithStatus(t: Task, status: string): Task {
    t.(status := Some(status))
  }

  /** The list with the task `id` moved to column `status`. */
  function MoveTask(tasks: seq<Task>, id: string, status: string): (r: seq<Task>)
    ensures |r| == |tasks|
    ensures forall i :: 0 <= i < |tasks| ==>
      r[i] == if tasks[i].id == id then tasks[i].(status := Some(status)) else tasks[i]
  {
    MapWhere(tasks, id, t => WithStatus(t, status))
  }

  /** `tasks.filter(t => t.id !== id)`. */
  function WithoutId(tasks: seq<Task>, id: string): (r: seq<Task>)
    ensures forall t :: t in r <==> t in tasks && t.id != id
  {
    Filter(tasks, (t: Task) => t.id != id)
  }

  /** `tasks.filter(t => t.status !== status)`. */
  function WithoutStatus(tasks: seq<Task>, status: string): (r: seq<Task>)
    ensures forall t :: t in r <==> t in tasks && t.status != Some(status)
  {
    Filter(tasks, (t: Task) => t.status != Some(status))
  }

  /** The fields the edit form sends: the request body of the update and the new values of the task. */
  datatype TaskEdit = TaskEdit(
    id: string, title: string, description: string, status: string, priority: string, dueDate: Option<int>)

  /** `{ ...current, title, description, priority, status, due_date }`. */
  function Edited(current: Task, e: TaskEdit): (r: Task)
    ensures r.id == current.id && r.position == current.position && r.userId == current.userId
    ensures r.subtasks == current.subtasks && r.creator == current.creator && r.assignee == current.assignee
    ensures r.title == e.title && r.description == Some(e.description) && r.status == Some(e.status)
    ensures r.priority == Some(e.priority) && r.dueDate == e.dueDate
  {
    current.(title := e.title, description := Some(e.description), status := Some(e.status),
             priority := Some(e.priority), dueDate := e.dueDate)
  }

  /**
   * The optimistic edit: every task with the edited id becomes the edit
   * applied to the first such task; the other tasks stay as they are.
   */
  function ApplyEdit(tasks: seq<Task>, e: TaskEdit): (r: seq<Task>)
    ensures |r| == |tasks|
    ensures forall i :: 0 <= i < |tasks| && tasks[i].id != e.id ==> r[i] == tasks[i]
    ensures forall i :: 0 <= i < |tasks| && tasks[i].id == e.id ==> r[i] == Edited(Find(tasks, e.id).value, e)
  {
    match Find(tasks, e.id)
    case None => tasks
    case Some(current) => MapWhere(tasks, e.id, _ => Edited(current, e))
  }

  /** `subs.map(s => s.id === id ? sub : s)`. */
  function ReplaceSubtask(subs: seq<Subtask>, id: string, sub: Subtask): (r: seq<Subtask>)
    ensures |r| == |subs|
    ensures forall i :: 0 <= i < |subs| ==> r[i] == if subs[i].id == id then sub else subs[i]
  {
    if subs == [] then []
    else [if subs[0].id == id then sub else subs[0]] + ReplaceSubtask(subs[1..], id, sub)
  }

  /** `subs.filter(s => s.id !== id)`. */
  function WithoutSubtask(subs: seq<Subtask>, id: string): (r: seq<Subtask>)
    ensures forall s :: s in r <==> s in subs && s.id != id
  {
    Filter(subs, (s: Subtask) => s.id != id)
  }

  /** The tasks with id `taskId` get `subs` as their subtasks. */
  function WithSubtasks(tasks: seq<Task>, taskId: string, subs: seq<Subtask>): (r: seq<Task>)
    ensures |r| == |tasks|
    ensures forall i :: 0 <= i < |tasks| ==>
      r[i] == if tasks[i].id == taskId then tasks[i].(subtasks := subs) else tasks[i]
  {
    MapWhere(tasks, taskId, (t: Task) => t.(subtasks := subs))
  }

  /** In every task with id `taskId`, the subtask `subId` is replaced by `sub`. */
  function SwapSubtask(tasks: seq<Task>, taskId: string, subId: string, sub: Subtask): (r: seq<Task>)
    ensures |r| == |tasks|
    ensures forall i :: 0 <= i < |tasks| ==>
      r[i] == if tasks[i].id == taskId then tasks[i].(subtasks := ReplaceSubtask(tasks[i].subtasks, subId, sub))
              else tasks[i]
  {
    MapWhere(tasks, taskId, (t: Task) => t.(subtasks := ReplaceSubtask(t.subtasks, subId, sub)))
  }

  /**
   * Appending a temporary subtask and later replacing it by the created one
   * leaves the list as if the created one had been appended, provided no
   * existing subtask has the temporary id.
   */
  lemma AppendThenReplace(subs: seq<Subtask>, temp: Subtask, created: Subtask)
    requires forall s :: s in subs ==> s.id != temp.id
    ensures ReplaceSubtask(subs + [temp], temp.id, created) == subs + [created]
  {
    var r := ReplaceSubtask(subs + [temp], temp.id, created);
    forall i | 0 <= i < |subs| ensures r[i] == subs[i] {
      assert (subs + [temp])[i] == subs[i];
    }
  }

  /** The outcome of `getTasks()`: a failure, or the parsed body (`null` as `None`). */
  datatype Fetch = FetchFailed | Fetched(data: Option<seq<Task>>)

  /** `fetchTasks()`: the sorted server list (`data || []`), or the current list after a failure. */
  function Reload(current: seq<Task>, f: Fetch): (r: seq<Task>)
    ensures f.FetchFailed? ==> r == current
    ensures f.Fetched? ==> multiset(r) == multiset(f.data.GetOr([]))
    ensures f.Fetched? && f.data.None? ==> r == []
  {
    match f
    case FetchFailed => current
    case Fetched(data) => SortTasks(data.GetOr([]))
  }

  /** A date form field: the empty field is `null`, anything else the day it names. */
  function FormDate(field: string, day: string -> int): (r: Option<int>)
    ensures r.None? <==> field == ""
  {
    if field == "" then None else Some(day(field))
  }
}
