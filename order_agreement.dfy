/**
 * How the server's answer to `GetTasks` looks to the client, and when the
 * client's re-sort of it in `fetchTasks` keeps the server's order.
 */
module OrderAgreement {
  import opened Wrappers
  import opened JsString
  import opened Sorting
  import C = BoardTasks
  import S = Handlers

  /** A field the server encodes with `omitempty`: the empty string is left out. */
  function Omitted(s: string): (r: Option<string>)
    ensures r.None? <==> s == ""
    ensures r.Some? ==> r.value == s
  {
    if s == "" then None else Some(s)
  }

  /** The position as the client reads it: a zero position is left out of the JSON. */
  function OmittedPosition(n: int): (r: Option<int>)
    ensures r.None? <==> n == 0
    ensures r.Some? ==> r.value == n
  {
    if n == 0 then None else Some(n)
  }

  function ToClientSubtask(s: S.Subtask): C.Subtask {
    C.Subtask(s.id, s.taskId, s.title, s.isCompleted)
  }

  function ToClientSubtasks(subs: seq<S.Subtask>): (r: seq<C.Subtask>)
    ensures |r| == |subs|
    ensures forall i :: 0 <= i < |subs| ==> r[i] == ToClientSubtask(subs[i])
  {
    if subs == [] then [] else [ToClientSubtask(subs[0])] + ToClientSubtasks(subs[1..])
  }

  /**
   * A server task as the client decodes it; `day` reads a due-date string as
   * a day number. The server record has no creator or assignee.
   */
  function ToClient(t: S.Task, day: string -> int): (c: C.Task)
    ensures c.priority == Omitted(t.priority) && c.status == Omitted(t.status)
    ensures c.position == OmittedPosition(t.position)
    ensures c.dueDate.Some? <==> t.dueDate.Some? && t.dueDate.value != ""
    ensures c.dueDate.Some? ==> c.dueDate.value == day(t.dueDate.value)
  {
    C.Task(t.id, t.title, t.description, Omitted(t.status), Omitted(t.priority),
           if t.dueDate.Some? && t.dueDate.value != "" then Some(day(t.dueDate.value)) else None,
           OmittedPosition(t.position), Omitted(t.userId), ToClientSubtasks(t.subtasks), None, None)
  }

  function ToClientAll(s: seq<S.Task>, day: string -> int): (r: seq<C.Task>)
    ensures |r| == |s|
    ensures forall i :: 0 <= i < |s| ==> r[i] == ToClient(s[i], day)
  {
    if s == [] then [] else [ToClient(s[0], day)] + ToClientAll(s[1..], day)
  }

  /** Every spelling the server recognises weighs the same on the client. */
  lemma ServerSpellingsAgree(p: string)
    requires S.PriorityWeight(p) != 0
    ensures C.Weight(Omitted(p)) == S.PriorityWeight(p)
  {
    if p == "High" || p == "high" || p == "HIGH" {
      HighLowers(p);
    } else if p == "Y\U{FC}ksek" || p == "y\U{FC}ksek" {
      YuksekLowers(p);
    } else if p == "Medium" || p == "medium" || p == "MEDIUM" {
      MediumLowers(p);
    } else if p == "Orta" || p == "orta" {
      OrtaLowers(p);
    } else if p == "Low" || p == "low" || p == "LOW" {
      LowLowers(p);
    } else {
      DusukLowers(p);
    }
  }

  /** Each server spelling lower-cases to the name the client weighs. */
  lemma HighLowers(p: string)
    requires p == "High" || p == "high" || p == "HIGH"
    ensures ToLower(p) == "high"
  {
    LowersTo(p, "high");
  }

  lemma YuksekLowers(p: string)
    requires p == "Y\U{FC}ksek" || p == "y\U{FC}ksek"
    ensures ToLower(p) == "y\U{FC}ksek"
  {
    LowersTo(p, "y\U{FC}ksek");
  }

  lemma MediumLowers(p: string)
    requires p == "Medium" || p == "medium" || p == "MEDIUM"
    ensures ToLower(p) == "medium"
  {
    LowersTo(p, "medium");
  }

  lemma OrtaLowers(p: string)
    requires p == "Orta" || p == "orta"
    ensures ToLower(p) == "orta"
  {
    LowersTo(p, "orta");
  }

  lemma LowLowers(p: string)
    requires p == "Low" || p == "low" || p == "LOW"
    ensures ToLower(p) == "low"
  {
    LowersTo(p, "low");
  }

  lemma DusukLowers(p: string)
    requires p == "D\U{FC}\U{15F}\U{FC}k" || p == "d\U{FC}\U{15F}\U{FC}k"
    ensures ToLower(p) == "d\U{FC}\U{15F}\U{FC}k"
  {
    LowersTo(p, "d\U{FC}\U{15F}\U{FC}k");
  }

  /** A spelling only the client recognises: the two sides weigh it differently. */
  lemma MixedCaseDisagrees()
    ensures S.PriorityWeight("hIgH") == 0 && C.Weight(Omitted("hIgH")) == 3
  {
    LowersTo("hIgH", "high");
  }

  /** Both sides give every task of `s` the same weight. */
  ghost predicate WeightsAgree(s: seq<S.Task>) {
    forall t :: t in s ==> C.Weight(Omitted(t.priority)) == S.PriorityWeight(t.priority)
  }

  /** Reading the due dates of `s` as days respects the server's string order. */
  ghost predicate DayMonotone(s: seq<S.Task>, day: string -> int) {
    forall a, b :: (a in s && b in s && a.dueDate.Some? && b.dueDate.Some?
      && StrLess(a.dueDate.value, b.dueDate.value)) ==> day(a.dueDate.value) <= day(b.dueDate.value)
  }

  /**
   * No task of `s` carries a present but empty due date. The server sorts
   * such a date before every other; the client reads it as no date at all.
   */
  ghost predicate NoEmptyDates(s: seq<S.Task>) {
    forall t :: t in s && t.dueDate.Some? ==> t.dueDate.value != ""
  }

  /** Dated tasks of one weight that fall on the same day share a position. */
  ghost predicate SameDaySamePosition(s: seq<S.Task>, day: string -> int) {
    forall a, b :: (a in s && b in s && S.PriorityWeight(a.priority) == S.PriorityWeight(b.priority)
      && a.dueDate.Some? && b.dueDate.Some? && day(a.dueDate.value) == day(b.dueDate.value)) ==>
        a.position == b.position
  }

  /** Where the server puts `y` right after `x`, the client does not move `y` in front of `x`. */
  lemma {:induction false} NeighboursAgree(s: seq<S.Task>, day: string -> int, x: S.Task, y: S.Task)
    requires WeightsAgree(s) && NoEmptyDates(s) && DayMonotone(s, day) && SameDaySamePosition(s, day)
    requires x in s && y in s && !S.Less(y, x)
    ensures !C.Before(ToClient(y, day), ToClient(x, day))
  {
    var cx, cy := ToClient(x, day), ToClient(y, day);
    assert C.Weight(cx.priority) == S.PriorityWeight(x.priority);
    assert C.Weight(cy.priority) == S.PriorityWeight(y.priority);
    if S.PriorityWeight(x.priority) == S.PriorityWeight(y.priority) && x.dueDate.Some? && y.dueDate.Some? {
      var dx, dy := x.dueDate.value, y.dueDate.value;
      StrLessTotal(dx, dy);
      if dx != dy {
        assert day(dx) <= day(dy);
      }
    }
  }

  /**
   * When both sides weigh every priority alike, dates are read in string
   * order, and same-day tasks of one weight share a position, the client's
   * re-sort of the `GetTasks` answer leaves it as the server sent it.
   */
  lemma {:induction false} ClientKeepsServerOrder(s: seq<S.Task>, day: string -> int)
    requires WeightsAgree(s) && NoEmptyDates(s) && DayMonotone(s, day) && SameDaySamePosition(s, day)
    ensures var shown := ToClientAll(Sort(s, S.Less), day);
      C.SortTasks(shown) == shown
  {
    var r := Sort(s, S.Less);
    var shown := ToClientAll(r, day);
    S.LessAsymmetric();
    SortNoDescent(s, S.Less);
    SortPermutes(s, S.Less);
    forall i | 0 < i < |shown| ensures !C.Before(shown[i], shown[i - 1]) {
      assert r[i] in multiset(s) && r[i - 1] in multiset(s);
      NeighboursAgree(s, day, r[i - 1], r[i]);
    }
    SortIdentity(shown, C.Before);
  }

  /**
   * Why the empty date is excluded: of two tasks of one weight, the server
   * puts the one with an empty due date first, and the client moves it
   * after the one with a real date.
   */
  lemma EmptyDateReordered(blank: S.Task, dated: S.Task, day: string -> int)
    requires blank.priority == dated.priority
    requires blank.dueDate == Some("") && dated.dueDate.Some? && dated.dueDate.value != ""
    ensures Sort([dated, blank], S.Less) == [blank, dated]
    ensures C.SortTasks(ToClientAll([blank, dated], day)) == [ToClient(dated, day), ToClient(blank, day)]
  {
    SortPair(dated, blank, S.Less);
    var cb, cd := ToClient(blank, day), ToClient(dated, day);
    assert ToClientAll([blank, dated], day) == [cb, cd];
    assert C.Before(cd, cb);
    SortPair(cb, cd, C.Before);
  }

  /** With distinct due days among same-weight tasks, the position condition holds. */
  lemma DistinctDaysSuffice(s: seq<S.Task>, day: string -> int)
    requires forall a, b :: (a in s && b in s && a != b && S.PriorityWeight(a.priority) == S.PriorityWeight(b.priority)
      && a.dueDate.Some? && b.dueDate.Some?) ==> day(a.dueDate.value) != day(b.dueDate.value)
    ensures SameDaySamePosition(s, day)
  {
  }

  /** The server ranks a "Low" task above a mixed-case "hIgH" one. */
  lemma ServerRanksLowFirst(low: S.Task, high: S.Task)
    requires low.priority == "Low" && high.priority == "hIgH"
    ensures Sort([high, low], S.Less) == [low, high]
  {
    assert S.PriorityWeight(low.priority) == 1 && S.PriorityWeight(high.priority) == 0;
    SortPair(high, low, S.Less);
  }

  /** The client puts a heavier task first. */
  lemma ClientRanksHeavierFirst(light: C.Task, heavy: C.Task)
    requires C.Weight(heavy.priority) > C.Weight(light.priority)
    ensures C.SortTasks([light, heavy]) == [heavy, light]
  {
    C.HeavierFirst(heavy, light);
    SortPair(light, heavy, C.Before);
  }

  /**
   * A case where the two orders differ: the client's re-sort of that answer
   * puts the "hIgH" task first.
   */
  lemma ReSortCanReorder(low: S.Task, high: S.Task, day: string -> int)
    requires low.priority == "Low" && high.priority == "hIgH"
    ensures C.SortTasks(ToClientAll(Sort([high, low], S.Less), day)) == [ToClient(high, day), ToClient(low, day)]
  {
    ServerRanksLowFirst(low, high);
    MixedCaseDisagrees();
    LowLowers("Low");
    var cl, ch := ToClient(low, day), ToClient(high, day);
    assert ToClientAll([low, high], day) == [cl, ch];
    ClientRanksHeavierFirst(cl, ch);
  }
}
