/**
 * What a task card derives from its task: the overdue flag, the priority it
 * displays and the label for it, the subtask progress badge, and which
 * avatars it shows. Dates are day numbers; `today` is the current day.
 */
module TaskCard {
  import opened Wrappers
  import opened Lists
  import opened BoardTasks

  /** The card is overdue when it has a due day before today and is not Done. */
  function IsOverdue(t: Task, today: int): (r: bool)
    ensures t.dueDate.None? || t.status == Some("Done") ==> !r
    ensures r ==> t.dueDate.value < today
  {
    if t.dueDate.None? || t.status == Some("Done") then false
    else t.dueDate.value < today
  }

  /** A card overdue today stays overdue on every later day. */
  lemma OverdueStaysOverdue(t: Task, today: int, later: int)
    requires today <= later && IsOverdue(t, today)
    ensures IsOverdue(t, later)
  {
  }

  /** A dated card not in Done is overdue exactly from the day after its due day. */
  lemma OverdueFromNextDay(t: Task, today: int)
    requires t.dueDate.Some? && t.status != Some("Done")
    ensures IsOverdue(t, today) <==> today > t.dueDate.value
  {
  }

  /** `task.priority || 'Medium'`. */
  function DisplayPriority(t: Task): (r: string)
    ensures Truthy(t.priority) ==> r == t.priority.value
    ensures !Truthy(t.priority) ==> r == "Medium"
  {
    if Truthy(t.priority) then t.priority.value else "Medium"
  }

  /** The label shown for a displayed priority; the match is case-sensitive. */
  function PriorityLabel(p: string): (r: string)
    ensures r == "Y\U{FC}ksek" <==> p == "High"
    ensures r == "Orta" <==> p == "Medium"
    ensures r == "Y\U{FC}ksek" || r == "Orta" || r == "D\U{FC}\U{15F}\U{FC}k"
  {
    if p == "High" then "Y\U{FC}ksek" else if p == "Medium" then "Orta" else "D\U{FC}\U{15F}\U{FC}k"
  }

  /** A card without a priority reads "Orta" but sorts below every prioritised task. */
  lemma UnprioritisedShowsMedium(t: Task)
    requires !Truthy(t.priority)
    ensures PriorityLabel(DisplayPriority(t)) == "Orta"
    ensures Weight(t.priority) == 0
  {
  }

  /** A lower-case "high" sorts as high but is labelled as low. */
  lemma LowerCaseHighShowsLow(t: Task)
    requires t.priority == Some("high")
    ensures PriorityLabel(DisplayPriority(t)) == "D\U{FC}\U{15F}\U{FC}k"
    ensures Weight(t.priority) == 3
  {
    JsString.LowersTo("high", "high");
  }

  /** The progress badge: completed count, total count, and whether it is green. */
  datatype Badge = Badge(completed: nat, total: nat, green: bool)

  function IsCompleted(s: Subtask): bool {
    s.isCompleted
  }

  /**
   * The badge appears for a non-empty subtask list and shows how many are
   * completed out of how many; it is green exactly when all are completed,
   * which is when the two counts are equal.
   */
  function SubtaskBadge(subs: seq<Subtask>): (r: Option<Badge>)
    ensures r.None? <==> subs == []
    ensures r.Some? ==> r.value.total == |subs| && r.value.completed <= r.value.total
    ensures r.Some? ==> r.value.completed == |Filter(subs, IsCompleted)|
    ensures r.Some? ==> (r.value.green <==> forall s :: s in subs ==> s.isCompleted)
    ensures r.Some? ==> (r.value.green <==> r.value.completed == r.value.total)
  {
    if subs == [] then None
    else
      FilterKeepsAllIff(subs, IsCompleted);
      Some(Badge(|Filter(subs, IsCompleted)|, |subs|, forall s :: s in subs ==> s.isCompleted))
  }

  /** `task.profiles?.email`: missing when there is no creator row. */
  function CreatorEmail(t: Task): Option<string> {
    if t.creator.Some? then t.creator.value.email else None
  }

  /** The creator avatar shows unless an assignee with the creator's address is shown. */
  function ShowCreator(t: Task): (r: bool)
    ensures t.assignee.None? ==> r
    ensures t.assignee.Some? ==> (r <==> t.assignee.value.email != CreatorEmail(t))
  {
    t.assignee.None? || t.assignee.value.email != CreatorEmail(t)
  }

  /** How many avatars the card shows. */
  function AvatarCount(t: Task): (n: nat)
    ensures n <= 2
  {
    (if ShowCreator(t) then 1 else 0) + (if t.assignee.Some? then 1 else 0)
  }

  /** Every card shows at least one avatar, and two only when the addresses differ. */
  lemma AvatarShown(t: Task)
    ensures AvatarCount(t) >= 1
    ensures AvatarCount(t) == 2 <==> t.assignee.Some? && t.assignee.value.email != CreatorEmail(t)
  {
  }
}
