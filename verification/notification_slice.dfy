/** The notification feed (src/lib/features/notificationSlice.ts): a list
    of notifications, newest first, and a counter of the unread ones that
    every reducer adjusts by hand. */
module NotificationSlice {
  import opened Optional
  import opened Sequences
  import opened Strings
  import opened Types

  /** `Math.max`. */
  function Max(a: int, b: int): int
  {
    if a < b then b else a
  }

  /** How many notifications in the list are unread. */
  function UnreadCount(ns: seq<Notification>): (n: nat)
    ensures n <= |ns|
    ensures n == 0 <==> forall k :: 0 <= k < |ns| ==> ns[k].read
  {
    if ns == [] then 0 else (if ns[0].read then 0 else 1) + UnreadCount(ns[1..])
  }

  function NotificationId(n: Notification): string
  {
    n.id
  }

  /** No two notifications share an id. */
  ghost predicate DistinctIds(ns: seq<Notification>)
  {
    DistinctBy(ns, NotificationId)
  }

  /** `notifications.find(n => n.id === id)`, as the index of what it finds. */
  function FindIndex(ns: seq<Notification>, id: string): (r: Option<nat>)
    ensures r.Some? ==> r.value < |ns| && ns[r.value].id == id
    ensures r.Some? ==> forall k :: 0 <= k < r.value ==> ns[k].id != id
    ensures r.None? <==> forall k :: 0 <= k < |ns| ==> ns[k].id != id
  {
    FirstIndex(ns, (n: Notification) => n.id == id)
  }

  /** The guard `notification && !notification.read` of `markAsRead` and
      `deleteNotification`: the first notification with this id exists
      and is unread. */
  predicate FoundUnread(ns: seq<Notification>, id: string)
  {
    match FindIndex(ns, id)
    case Some(i) => !ns[i].read
    case None => false
  }

  /** The list after `markAsRead(id)`: the first notification with that id
      becomes read if it was unread; nothing else changes. */
  function MarkedAsRead(ns: seq<Notification>, id: string): (r: seq<Notification>)
    ensures |r| == |ns|
    ensures forall k :: 0 <= k < |r| ==> r[k].id == ns[k].id
    ensures forall k :: 0 <= k < |r| && r[k] != ns[k] ==>
      FindIndex(ns, id) == Some(k) && r[k] == ns[k].(read := true)
    ensures FoundUnread(ns, id) ==> UnreadCount(r) == UnreadCount(ns) - 1
    ensures FoundUnread(ns, id) ==> r[FindIndex(ns, id).value].read
    ensures !FoundUnread(ns, id) ==> r == ns
  {
    match FindIndex(ns, id)
    case Some(i) =>
      if ns[i].read then ns
      else
        UnreadCountMarkRead(ns, i);
        ns[i := ns[i].(read := true)]
    case None => ns
  }

  /** The list after `markAllAsRead`: same notifications in the same order,
      all of them read. */
  function AllRead(ns: seq<Notification>): (r: seq<Notification>)
    ensures |r| == |ns|
    ensures forall k :: 0 <= k < |r| ==> r[k].read && r[k].(read := ns[k].read) == ns[k]
    ensures UnreadCount(r) == 0
  {
    seq(|ns|, k requires 0 <= k < |ns| => ns[k].(read := true))
  }

  /** `notifications.filter(n => n.id !== id)`: every notification with the
      id goes, the others stay in order. */
  function WithoutId(ns: seq<Notification>, id: string): (r: seq<Notification>)
    ensures forall k :: 0 <= k < |r| ==> r[k].id != id
    ensures forall k :: 0 <= k < |ns| && ns[k].id != id ==> ns[k] in r
    ensures IsSubsequence(r, ns)
    ensures FindIndex(ns, id).None? ==> r == ns
  {
    var keep := (n: Notification) => n.id != id;
    if FindIndex(ns, id).None? then
      FilterKeepsAll(ns, keep);
      Filter(ns, keep)
    else
      Filter(ns, keep)
  }

  /** Marking one unread notification read lowers the unread count by one. */
  lemma {:induction false} UnreadCountMarkRead(ns: seq<Notification>, i: nat)
    requires i < |ns| && !ns[i].read
    ensures UnreadCount(ns[i := ns[i].(read := true)]) == UnreadCount(ns) - 1
    decreases i
  {
    var ms := ns[i := ns[i].(read := true)];
    if i > 0 {
      assert ms[1..] == ns[1..][i - 1 := ns[1..][i - 1].(read := true)];
      UnreadCountMarkRead(ns[1..], i - 1);
    } else {
      assert ms[1..] == ns[1..];
    }
  }

  /** With distinct ids, deleting an id removes exactly one notification,
      so the unread count falls by one exactly when that one was unread. */
  lemma {:induction false} UnreadCountWithoutId(ns: seq<Notification>, id: string)
    requires DistinctIds(ns)
    ensures UnreadCount(WithoutId(ns, id)) == UnreadCount(ns) - (if FoundUnread(ns, id) then 1 else 0)
    decreases |ns|
  {
    if ns != [] {
      var keep := (n: Notification) => n.id != id;
      var t := ns[1..];
      assert DistinctIds(t) by {
        forall i, j | 0 <= i < j < |t| ensures t[i].id != t[j].id {
          assert t[i] == ns[i + 1] && t[j] == ns[j + 1];
        }
      }
      assert Filter(ns, keep) == if keep(ns[0]) then [ns[0]] + Filter(t, keep) else Filter(t, keep);
      if ns[0].id == id {
        assert FindIndex(ns, id) == Some(0);
        forall k | 0 <= k < |t| ensures keep(t[k]) {
          assert t[k] == ns[k + 1];
        }
        FilterKeepsAll(t, keep);
      } else {
        assert FindIndex(t, id).Some? ==> FindIndex(ns, id) == Some(FindIndex(t, id).value + 1);
        assert FindIndex(t, id).None? ==> FindIndex(ns, id).None?;
        assert FoundUnread(ns, id) == FoundUnread(t, id);
        assert WithoutId(ns, id) == [ns[0]] + WithoutId(t, id);
        assert ([ns[0]] + WithoutId(t, id))[1..] == WithoutId(t, id);
        UnreadCountWithoutId(t, id);
      }
    }
  }

  /** Why the counter needs distinct ids: two unread notifications with one
      id are both deleted while the counter drops by one. */
  lemma DuplicateIdsBreakDeleteCount(n: Notification)
    requires !n.read
    ensures UnreadCount([n, n]) == 2
    ensures UnreadCount(WithoutId([n, n], n.id)) == 0
    ensures FoundUnread([n, n], n.id)
  {
    assert [n, n][1..] == [n];
    assert FindIndex([n, n], n.id) == Some(0);
  }

  /** The two notifications the feed starts with; their timestamps come from
      the clock. */
  function InitialNotifications(welcomeDate: string, flashSaleDate: string): (r: seq<Notification>)
    ensures |r| == 2 && UnreadCount(r) == 2 && DistinctIds(r)
  {
    [ Notification("1", "Welcome to ShopHub Pro! \U{1F389}",
        "Explore our amazing collection of products",
        Success, welcomeDate, false, None),
      Notification("2", "Flash Sale Alert! \U{26A1}",
        "Up to 50% off on selected items. Limited time only!",
        Warning, flashSaleDate, false, Some("/products")) ]
  }

  class NotificationFeed {
    var notifications: seq<Notification>
    var unreadCount: int

    /** The counter agrees with the list, and ids identify notifications. */
    ghost predicate Consistent()
      reads this
    {
      DistinctIds(notifications) && unreadCount == UnreadCount(notifications)
    }

    constructor (welcomeDate: string, flashSaleDate: string)
      ensures notifications == InitialNotifications(welcomeDate, flashSaleDate)
      ensures unreadCount == 2
      ensures Consistent()
    {
      notifications := InitialNotifications(welcomeDate, flashSaleDate);
      unreadCount := 2;
    }

    /** `addNotification` with the clock reading `now` (milliseconds): the
        payload, under the id `Date.now().toString()`, goes to the front;
        the counter grows by one if it is unread. */
    method AddNotification(payload: Notification, now: nat)
      modifies this
      ensures notifications == [payload.(id := DecimalString(now))] + old(notifications)
      ensures unreadCount == old(unreadCount) + (if payload.read then 0 else 1)
      ensures old(Consistent()) && FindIndex(old(notifications), DecimalString(now)).None? ==> Consistent()
    {
      var notification := payload.(id := DecimalString(now));
      notifications := [notification] + notifications;
      if !notification.read {
        unreadCount := unreadCount + 1;
      }
      assert notifications[1..] == old(notifications);
    }

    method MarkAsRead(id: string)
      modifies this
      ensures notifications == MarkedAsRead(old(notifications), id)
      ensures unreadCount ==
        if FoundUnread(old(notifications), id) then Max(0, old(unreadCount) - 1) else old(unreadCount)
      ensures old(Consistent()) ==> Consistent()
    {
      var found := FindIndex(notifications, id);
      if found.Some? && !notifications[found.value].read {
        var i := found.value;
        notifications := notifications[i := notifications[i].(read := true)];
        unreadCount := Max(0, unreadCount - 1);
      }
    }

    method MarkAllAsRead()
      modifies this
      ensures notifications == AllRead(old(notifications))
      ensures unreadCount == 0
      ensures old(Consistent()) ==> Consistent()
    {
      var i := 0;
      while i < |notifications|
        invariant 0 <= i <= |notifications| == |old(notifications)|
        invariant forall k :: 0 <= k < i ==> notifications[k] == old(notifications)[k].(read := true)
        invariant forall k :: i <= k < |notifications| ==> notifications[k] == old(notifications)[k]
      {
        notifications := notifications[i := notifications[i].(read := true)];
        i := i + 1;
      }
      unreadCount := 0;
      assert forall k :: 0 <= k < |notifications| ==> notifications[k].id == old(notifications)[k].id;
    }

    method DeleteNotification(id: string)
      modifies this
      ensures notifications == WithoutId(old(notifications), id)
      ensures unreadCount ==
        if FoundUnread(old(notifications), id) then Max(0, old(unreadCount) - 1) else old(unreadCount)
      ensures old(Consistent()) ==> Consistent()
    {
      var found := FindIndex(notifications, id);
      if found.Some? && !notifications[found.value].read {
        unreadCount := Max(0, unreadCount - 1);
      }
      if old(Consistent()) {
        UnreadCountWithoutId(notifications, id);
        SubsequenceDistinctBy(WithoutId(notifications, id), notifications, NotificationId);
      }
      notifications := WithoutId(notifications, id);
    }

    method ClearAllNotifications()
      modifies this
      ensures notifications == [] && unreadCount == 0
      ensures Consistent()
    {
      notifications := [];
      unreadCount := 0;
    }
  }
}
