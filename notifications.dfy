/**
 * The notification store of the client: a list of notifications and an
 * unread counter, kept equal to the number of unread entries by all four
 * operations.
 */
module Notifications {
  import opened Lists

  /** What a caller passes to `addNotification`. */
  datatype Payload = Payload(boardId: string, boardTitle: string, message: string, sender: string, timestamp: int)

  /** A stored notification: the payload, the id stamped on it, and the read flag. */
  datatype Notification = Notification(payload: Payload, id: int, read: bool)

  function IsUnread(n: Notification): bool {
    !n.read
  }

  /** The entries of another board than `b`. */
  function NotOnBoard(b: string): Notification -> bool {
    (n: Notification) => n.payload.boardId != b
  }

  /** The unread entries of board `b`. */
  function UnreadOnBoard(b: string): Notification -> bool {
    (n: Notification) => n.payload.boardId == b && !n.read
  }

  /** The number of entries with `read == false`. */
  function CountUnread(s: seq<Notification>): (c: nat)
    ensures c <= |s|
  {
    |Filter(s, IsUnread)|
  }

  /** `prev.map(n => ({ ...n, read: true }))`. */
  function MarkRead(s: seq<Notification>): (r: seq<Notification>)
    ensures |r| == |s|
    ensures forall i :: 0 <= i < |s| ==> r[i] == s[i].(read := true)
  {
    if s == [] then [] else [s[0].(read := true)] + MarkRead(s[1..])
  }

  /** After marking all as read nothing is unread. */
  lemma MarkReadLeavesNoneUnread(s: seq<Notification>)
    ensures CountUnread(MarkRead(s)) == 0
  {
    var r := MarkRead(s);
    forall n | n in r ensures !IsUnread(n) {
      var i :| 0 <= i < |r| && r[i] == n;
    }
    FilterNone(r, IsUnread);
  }

  /** `prev.filter(n => n.boardId !== b)`. */
  function RemoveBoard(s: seq<Notification>, b: string): (r: seq<Notification>)
    ensures forall n :: n in r <==> n in s && n.payload.boardId != b
  {
    Filter(s, NotOnBoard(b))
  }

  /** `prev.filter(n => n.boardId === b && !n.read).length`. */
  function RemovedUnread(s: seq<Notification>, b: string): (c: nat)
    ensures c <= |s|
  {
    |Filter(s, UnreadOnBoard(b))|
  }

  /** The unread entries split into those of board `b` and those of the other boards. */
  lemma {:induction false} UnreadSplitsByBoard(s: seq<Notification>, b: string)
    ensures CountUnread(s) == CountUnread(RemoveBoard(s, b)) + RemovedUnread(s, b)
  {
    if s != [] {
      var init, last := s[..|s| - 1], s[|s| - 1];
      UnreadSplitsByBoard(init, b);
      assert s == init + [last];
      FilterSnoc(init, last, IsUnread);
      FilterSnoc(init, last, UnreadOnBoard(b));
      var kept := RemoveBoard(init, b);
      if last.payload.boardId == b {
        assert RemoveBoard(s, b) == kept;
      } else {
        assert RemoveBoard(s, b) == kept + [last];
        FilterSnoc(kept, last, IsUnread);
      }
    }
  }

  /** Removing a board's entries twice is removing them once; none of its unread entries remain. */
  lemma RemoveBoardIdempotent(s: seq<Notification>, b: string)
    ensures RemoveBoard(RemoveBoard(s, b), b) == RemoveBoard(s, b)
    ensures RemovedUnread(RemoveBoard(s, b), b) == 0
  {
    FilterIdempotent(s, NotOnBoard(b));
    FilterNone(RemoveBoard(s, b), UnreadOnBoard(b));
  }

  class NotificationStore {
    var notifications: seq<Notification>
    var unreadCount: int

    /** The counter equals the number of unread entries. */
    ghost predicate Valid()
      reads this
    {
      unreadCount == CountUnread(notifications)
    }

    constructor ()
      ensures Valid() && notifications == [] && unreadCount == 0
    {
      notifications := [];
      unreadCount := 0;
    }

    /** `addNotification`: one unread entry at the end, stamped with `now`; the counter goes up by one. */
    method AddNotification(p: Payload, now: int)
      requires Valid()
      modifies this
      ensures Valid()
      ensures notifications == old(notifications) + [Notification(p, now, false)]
      ensures unreadCount == old(unreadCount) + 1
    {
      FilterSnoc(notifications, Notification(p, now, false), IsUnread);
      notifications := notifications + [Notification(p, now, false)];
      unreadCount := unreadCount + 1;
    }

    /** `markAllAsRead`: every entry read, nothing else changed; the counter is 0. */
    method MarkAllAsRead()
      requires Valid()
      modifies this
      ensures Valid()
      ensures notifications == MarkRead(old(notifications))
      ensures unreadCount == 0
    {
      MarkReadLeavesNoneUnread(notifications);
      notifications := MarkRead(notifications);
      unreadCount := 0;
    }

    /**
     * `clearBoardNotifications(b)`: the entries of board `b` go, the others
     * keep their order, and the counter drops by the unread entries removed,
     * but not below 0.
     */
    method ClearBoardNotifications(b: string)
      requires Valid()
      modifies this
      ensures Valid()
      ensures notifications == RemoveBoard(old(notifications), b)
      ensures unreadCount == old(unreadCount) - RemovedUnread(old(notifications), b)
    {
      var removed := RemovedUnread(notifications, b);
      UnreadSplitsByBoard(notifications, b);
      notifications := RemoveBoard(notifications, b);
      unreadCount := if unreadCount - removed < 0 then 0 else unreadCount - removed;
    }

    /** `clearAll`: no entries, counter 0. */
    method ClearAll()
      modifies this
      ensures Valid() && notifications == [] && unreadCount == 0
    {
      notifications := [];
      unreadCount := 0;
    }
  }

  /** Clearing a board twice changes nothing the second time. */
  method ClearBoardTwice(store: NotificationStore, b: string)
    requires store.Valid()
    modifies store
    ensures store.Valid()
    ensures store.notifications == RemoveBoard(old(store.notifications), b)
    ensures store.unreadCount == old(store.unreadCount) - RemovedUnread(old(store.notifications), b)
  {
    store.ClearBoardNotifications(b);
    ghost var once := store.notifications;
    ghost var count := store.unreadCount;
    store.ClearBoardNotifications(b);
    RemoveBoardIdempotent(old(store.notifications), b);
    assert store.notifications == once && store.unreadCount == count;
  }
}
