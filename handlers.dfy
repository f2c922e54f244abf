/**
 * The task API handlers of the Go server: the bearer-token slice every
 * handler starts with, the required id and status parameters, the rule that
 * turns an upstream status of 400 or more into an error, and the stable
 * priority/due-date ordering `GetTasks` applies before answering.
 * The upstream REST service is a parameter: what it answered, and how the
 * handler's JSON decoder read the request or the answer.
 */
module Handlers {
  import opened Wrappers
  import opened Lists
  import opened JsString
  import opened Sorting

  datatype Subtask = Subtask(id: string, taskId: string, title: string, isCompleted: bool, position: int)

  /** The server's task record; absent JSON fields decode to "" and 0, a missing description or due date to `None`. */
  datatype Task = Task(
    id: string,
    title: string,
    description: Option<string>,
    status: string,
    priority: string,
    dueDate: Option<string>,
    position: int,
    userId: string,
    subtasks: seq<Subtask>)

  /** The server's priority weight: only the listed spellings count; anything else weighs 0. */
  function PriorityWeight(p: string): (w: int)
    ensures 0 <= w <= 3
    ensures p == "" ==> w == 0
  {
    if p == "High" || p == "high" || p == "HIGH" || p == "Y\U{FC}ksek" || p == "y\U{FC}ksek" then 3
    else if p == "Medium" || p == "medium" || p == "MEDIUM" || p == "Orta" || p == "orta" then 2
    else if p == "Low" || p == "low" || p == "LOW" || p == "D\U{FC}\U{15F}\U{FC}k" || p == "d\U{FC}\U{15F}\U{FC}k" then 1
    else 0
  }

  /** Spellings outside the list weigh 0 even when they differ from a listed one only in case. */
  lemma PriorityWeightIsCaseSensitive()
    ensures PriorityWeight("hIgH") == 0
    ensures PriorityWeight("Y\U{DC}KSEK") == 0
    ensures PriorityWeight("ORTA") == 0
    ensures PriorityWeight("High") == 3 && PriorityWeight("orta") == 2 && PriorityWeight("LOW") == 1
  {
  }

  /** The `sort.SliceStable` comparator of `GetTasks`: `a` goes before `b`. */
  predicate Less(a: Task, b: Task): (r: bool)
    ensures r ==> PriorityWeight(a.priority) >= PriorityWeight(b.priority)
    ensures PriorityWeight(a.priority) > PriorityWeight(b.priority) ==> r
    ensures r && PriorityWeight(a.priority) == PriorityWeight(b.priority) && a.dueDate.None? ==>
      b.dueDate.None? && a.position < b.position
  {
    var p1, p2 := PriorityWeight(a.priority), PriorityWeight(b.priority);
    if p1 != p2 then p1 > p2
    else if a.dueDate.None? && b.dueDate.None? then a.position < b.position
    else if a.dueDate.None? then false
    else if b.dueDate.None? then true
    else StrLess(a.dueDate.value, b.dueDate.value)
  }

  /**
   * The total preorder `Less` sorts by: higher weight first; within a weight,
   * dated tasks by date string, then undated ones by position.
   */
  predicate RankLe(a: Task, b: Task) {
    var p1, p2 := PriorityWeight(a.priority), PriorityWeight(b.priority);
    p1 > p2 || (p1 == p2 && SameWeightLe(a, b))
  }

  predicate SameWeightLe(a: Task, b: Task) {
    if a.dueDate.None? && b.dueDate.None? then a.position <= b.position
    else if a.dueDate.None? then false
    else if b.dueDate.None? then true
    else !StrLess(b.dueDate.value, a.dueDate.value)
  }

  lemma RankLeFits(d: seq<Task>)
    ensures TotalPreorderOn(RankLe, d) && CompatibleOn(Less, RankLe, d)
  {
    forall a, b | a in d && b in d ensures RankLe(a, b) || RankLe(b, a) {
      if a.dueDate.Some? && b.dueDate.Some? {
        StrLessAsymmetric(a.dueDate.value, b.dueDate.value);
      }
    }
    forall a, b, c | a in d && b in d && c in d && RankLe(a, b) && RankLe(b, c) ensures RankLe(a, c) {
      if a.dueDate.Some? && b.dueDate.Some? && c.dueDate.Some? {
        var x, y, z := a.dueDate.value, b.dueDate.value, c.dueDate.value;
        StrLessTotal(x, y);
        if StrLess(z, x) && StrLess(x, y) {
          StrLessTransitive(z, x, y);
        }
      }
    }
    forall a, b | a in d && b in d ensures Less(a, b) ==> RankLe(a, b) {
      if a.dueDate.Some? && b.dueDate.Some? {
        StrLessAsymmetric(a.dueDate.value, b.dueDate.value);
      }
    }
  }

  lemma LessAsymmetric()
    ensures Asymmetric(Less)
  {
    forall a, b ensures Less(a, b) ==> !Less(b, a) {
      if a.dueDate.Some? && b.dueDate.Some? {
        StrLessAsymmetric(a.dueDate.value, b.dueDate.value);
      }
    }
  }

  /**
   * The order of the `GetTasks` answer: weight never increases; within a
   * weight, dated tasks come first, date strings never decrease, and
   * undated tasks run by position.
   */
  lemma SortedByRank(s: seq<Task>, i: int, j: int)
    requires 0 <= i < j < |s|
    ensures var r := Sort(s, Less);
      var p1, p2 := PriorityWeight(r[i].priority), PriorityWeight(r[j].priority);
      && p1 >= p2
      && (p1 == p2 && r[i].dueDate.None? ==> r[j].dueDate.None? && r[i].position <= r[j].position)
      && (p1 == p2 && r[i].dueDate.Some? && r[j].dueDate.Some? ==> !StrLess(r[j].dueDate.value, r[i].dueDate.value))
  {
    var r := Sort(s, Less);
    RankLeFits(s);
    SortSorted(s, Less, RankLe);
    assert RankLe(r[i], r[j]);
  }

  /** Tasks of one weight and one due-date string keep their input order. */
  lemma {:induction false} SameDateKeepsOrder(s: seq<Task>, w: int, date: string)
    ensures var same := (t: Task) => PriorityWeight(t.priority) == w && t.dueDate == Some(date);
      Filter(Sort(s, Less), same) == Filter(s, same)
  {
    var same := (t: Task) => PriorityWeight(t.priority) == w && t.dueDate == Some(date);
    StrLessIrreflexive(date);
    SortStable(s, Less, same);
  }

  /** `authHeader[7:]` after the length check: the token, or `None` for a 401. */
  function Token(header: string): (r: Option<string>)
    ensures r.None? <==> |header| < 8
    ensures r.Some? ==> |r.value| == |header| - 7 && header == header[..7] + r.value
  {
    if |header| < 8 then None else Some(header[7..])
  }

  /** A `Bearer` header yields its token. */
  lemma TokenOfBearer(t: string)
    requires t != []
    ensures Token("Bearer " + t) == Some(t)
  {
    assert ("Bearer " + t)[7..] == t;
  }

  /** The scheme is not checked: the first seven characters are dropped whatever they are. */
  lemma TokenIgnoresScheme()
    ensures Token("Basic abcd") == Some("bcd")
  {
    assert "Basic abcd"[7..] == "bcd";
  }

  /** What the upstream REST service did with a request. */
  datatype Upstream = TransportFailed | Replied(statusCode: int, body: string)

  datatype UpstreamError = Transport | Status(code: int, body: string)

  /** `performSupabaseRequest`'s result: the body for a status below 400, an error otherwise. */
  function Perform(u: Upstream): (r: Result<string, UpstreamError>)
    ensures r.Ok? <==> u.Replied? && u.statusCode < 400
    ensures r.Ok? ==> r.value == u.body
    ensures u.Replied? && u.statusCode >= 400 ==> r == Err(Status(u.statusCode, u.body))
  {
    match u
    case TransportFailed => Err(Transport)
    case Replied(code, body) => if code >= 400 then Err(Status(code, body)) else Ok(body)
  }

  /** The upstream request a handler makes. */
  datatype Call = Call(verb: string, endpoint: string, token: string)

  /** What a handler writes back. */
  datatype Reply =
    | HttpError(code: int)
    | Raw(body: string)
    | Deleted(message: string, details: string)
    | Listed(tasks: seq<Task>)

  datatype Handled = Handled(call: Option<Call>, reply: Reply)

  /** The reply of a handler that passes the upstream body through. */
  function Forward(u: Upstream): (r: Reply)
    ensures r == HttpError(500) || (u.Replied? && r == Raw(u.body))
    ensures r.Raw? <==> Perform(u).Ok?
  {
    match Perform(u)
    case Ok(body) => Raw(body)
    case Err(_) => HttpError(500)
  }

  /** The reply of a delete handler. */
  function Acknowledge(message: string, u: Upstream): (r: Reply)
    ensures r == HttpError(500) || (u.Replied? && r == Deleted(message, u.body))
    ensures r.Deleted? <==> Perform(u).Ok?
  {
    match Perform(u)
    case Ok(body) => Deleted(message, body)
    case Err(_) => HttpError(500)
  }

  /** `CreateTask`: 401 without a token, 400 for an unreadable body, else POST to `tasks`. */
  function CreateTask(header: string, decoded: Option<Task>, u: Upstream): (h: Handled)
    ensures Token(header).None? ==> h == Handled(None, HttpError(401))
    ensures Token(header).Some? && decoded.None? ==> h == Handled(None, HttpError(400))
    ensures Token(header).Some? && decoded.Some? ==>
      h == Handled(Some(Call("POST", "tasks", Token(header).value)), Forward(u))
  {
    match Token(header)
    case None => Handled(None, HttpError(401))
    case Some(token) =>
      if decoded.None? then Handled(None, HttpError(400))
      else Handled(Some(Call("POST", "tasks", token)), Forward(u))
  }

  /** `UpdateTask`: as create, and 400 for an empty task id; else PATCH the task with that id. */
  function UpdateTask(header: string, decoded: Option<Task>, u: Upstream): (h: Handled)
    ensures Token(header).None? ==> h == Handled(None, HttpError(401))
    ensures Token(header).Some? && (decoded.None? || decoded.value.id == "") ==> h == Handled(None, HttpError(400))
    ensures Token(header).Some? && decoded.Some? && decoded.value.id != "" ==>
      h == Handled(Some(Call("PATCH", "tasks?id=eq." + decoded.value.id, Token(header).value)), Forward(u))
  {
    match Token(header)
    case None => Handled(None, HttpError(401))
    case Some(token) =>
      if decoded.None? || decoded.value.id == "" then Handled(None, HttpError(400))
      else Handled(Some(Call("PATCH", "tasks?id=eq." + decoded.value.id, token)), Forward(u))
  }

  /** `DeleteTask`: 400 for an empty `id` parameter; else DELETE the task with that id. */
  function DeleteTask(header: string, id: string, u: Upstream): (h: Handled)
    ensures Token(header).None? ==> h == Handled(None, HttpError(401))
    ensures Token(header).Some? && id == "" ==> h == Handled(None, HttpError(400))
    ensures Token(header).Some? && id != "" ==>
      h == Handled(Some(Call("DELETE", "tasks?id=eq." + id, Token(header).value)), Acknowledge("G\U{F6}rev silindi", u))
  {
    match Token(header)
    case None => Handled(None, HttpError(401))
    case Some(token) =>
      if id == "" then Handled(None, HttpError(400))
      else Handled(Some(Call("DELETE", "tasks?id=eq." + id, token)), Acknowledge("G\U{F6}rev silindi", u))
  }

  /** `DeleteTasksByStatus`: 400 for an empty `status` parameter; else DELETE every task with that status. */
  function DeleteTasksByStatus(header: string, status: string, u: Upstream): (h: Handled)
    ensures Token(header).None? ==> h == Handled(None, HttpError(401))
    ensures Token(header).Some? && status == "" ==> h == Handled(None, HttpError(400))
    ensures Token(header).Some? && status != "" ==>
      h == Handled(Some(Call("DELETE", "tasks?status=eq." + status, Token(header).value)),
                   Acknowledge("G\U{F6}revler silindi", u))
  {
    match Token(header)
    case None => Handled(None, HttpError(401))
    case Some(token) =>
      if status == "" then Handled(None, HttpError(400))
      else Handled(Some(Call("DELETE", "tasks?status=eq." + status, token)), Acknowledge("G\U{F6}revler silindi", u))
  }

  /** `CreateSubtask`: 400 for an unreadable body; else POST to `subtasks`. */
  function CreateSubtask(header: string, decoded: Option<Subtask>, u: Upstream): (h: Handled)
    ensures Token(header).None? ==> h == Handled(None, HttpError(401))
    ensures Token(header).Some? && decoded.None? ==> h == Handled(None, HttpError(400))
    ensures Token(header).Some? && decoded.Some? ==>
      h == Handled(Some(Call("POST", "subtasks", Token(header).value)), Forward(u))
  {
    match Token(header)
    case None => Handled(None, HttpError(401))
    case Some(token) =>
      if decoded.None? then Handled(None, HttpError(400))
      else Handled(Some(Call("POST", "subtasks", token)), Forward(u))
  }

  /** `UpdateSubtask`: 400 for an unreadable body or an empty subtask id; else PATCH that subtask. */
  function UpdateSubtask(header: string, decoded: Option<Subtask>, u: Upstream): (h: Handled)
    ensures Token(header).None? ==> h == Handled(None, HttpError(401))
    ensures Token(header).Some? && (decoded.None? || decoded.value.id == "") ==> h == Handled(None, HttpError(400))
    ensures Token(header).Some? && decoded.Some? && decoded.value.id != "" ==>
      h == Handled(Some(Call("PATCH", "subtasks?id=eq." + decoded.value.id, Token(header).value)), Forward(u))
  {
    match Token(header)
    case None => Handled(None, HttpError(401))
    case Some(token) =>
      if decoded.None? || decoded.value.id == "" then Handled(None, HttpError(400))
      else Handled(Some(Call("PATCH", "subtasks?id=eq." + decoded.value.id, token)), Forward(u))
  }

  /** `DeleteSubtask`: 400 for an empty `id` parameter; else DELETE that subtask. */
  function DeleteSubtask(header: string, id: string, u: Upstream): (h: Handled)
    ensures Token(header).None? ==> h == Handled(None, HttpError(401))
    ensures Token(header).Some? && id == "" ==> h == Handled(None, HttpError(400))
    ensures Token(header).Some? && id != "" ==>
      h == Handled(Some(Call("DELETE", "subtasks?id=eq." + id, Token(header).value)),
                   Acknowledge("Alt g\U{F6}rev silindi", u))
  {
    match Token(header)
    case None => Handled(None, HttpError(401))
    case Some(token) =>
      if id == "" then Handled(None, HttpError(400))
      else Handled(Some(Call("DELETE", "subtasks?id=eq." + id, token)), Acknowledge("Alt g\U{F6}rev silindi", u))
  }

  /**
   * `GetTasks`: 401 without a token; 500 when the upstream call fails or its
   * body cannot be decoded; otherwise the decoded tasks, stably sorted in
   * place by `Less`.
   */
  method GetTasks(header: string, u: Upstream, decode: string -> Option<seq<Task>>) returns (h: Handled)
    ensures Token(header).None? ==> h == Handled(None, HttpError(401))
    ensures Token(header).Some? ==> h.call == Some(Call("GET", "tasks?select=*,subtasks(*)", Token(header).value))
    ensures Token(header).Some? && (Perform(u).Err? || decode(u.body).None?) ==> h.reply == HttpError(500)
    ensures Token(header).Some? && Perform(u).Ok? && decode(u.body).Some? ==>
      h.reply == Listed(Sort(decode(u.body).value, Less))
  {
    if |header| < 8 {
      return Handled(None, HttpError(401));
    }
    var call := Some(Call("GET", "tasks?select=*,subtasks(*)", header[7..]));
    var body := Perform(u);
    if body.Err? {
      return Handled(call, HttpError(500));
    }
    var decoded := decode(body.value);
    if decoded.None? {
      return Handled(call, HttpError(500));
    }
    var tasks := decoded.value;
    var a := new Task[|tasks|](i requires 0 <= i < |tasks| => tasks[i]);
    assert a[..] == tasks;
    SortInPlace(a, Less);
    h := Handled(call, Listed(a[..]));
  }

  /** Without a token no handler calls upstream; each answers 401 first. */
  lemma NoCallWithoutToken(header: string, u: Upstream, t: Option<Task>, st: Option<Subtask>, param: string)
    requires Token(header).None?
    ensures CreateTask(header, t, u).call.None? && UpdateTask(header, t, u).call.None?
    ensures DeleteTask(header, param, u).call.None? && DeleteTasksByStatus(header, param, u).call.None?
    ensures CreateSubtask(header, st, u).call.None? && UpdateSubtask(header, st, u).call.None?
    ensures DeleteSubtask(header, param, u).call.None?
  {
  }
}
