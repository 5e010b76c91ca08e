/** The notification bell (src/components/common/NotificationBell.tsx): the
    latest notifications, kept up to date in real time, and the count of
    unread ones shown on a badge. */
module Notifications {
  import opened Wrappers
  import opened Text
  import opened Entities

  /** A row of `notifications`. */
  datatype Notification = Notification(id: string, title: string, message: string,
                                       isRead: bool, link: Option<string>, createdAt: int)

  /** The bell's state: the list shown, the unread counter and whether the
      dropdown is open. */
  datatype Bell = Bell(list: seq<Notification>, unreadCount: nat, open: bool)

  /** The list keeps at most this many notifications after a realtime insert. */
  const MaxShown: nat := 20

  /** Unread notifications in the list. */
  function UnreadShown(list: seq<Notification>): (n: nat)
    ensures n <= |list|
  {
    Count(list, (n: Notification) => !n.isRead)
  }

  /** The counter covers every unread notification the list shows (the
      list is a part of the user's notifications, the counter is over all of
      them). */
  predicate CountCoversList(b: Bell) {
    UnreadShown(b.list) <= b.unreadCount
  }

  /** The realtime handler: the new notification first, the list cut to
      twenty, and the counter one higher. */
  function Receive(b: Bell, n: Notification): (r: Bell)
    ensures r.list == ([n] + b.list)[..if |b.list| + 1 < MaxShown then |b.list| + 1 else MaxShown]
    ensures |r.list| <= MaxShown && r.list[0] == n
    ensures r.unreadCount == b.unreadCount + 1 && r.open == b.open
  {
    var all := [n] + b.list;
    b.(list := all[..if |all| < MaxShown then |all| else MaxShown], unreadCount := b.unreadCount + 1)
  }

  /** Marks every notification with the given id read. */
  function MarkRead(list: seq<Notification>, id: string): (r: seq<Notification>)
    ensures |r| == |list|
    ensures forall i :: 0 <= i < |list| ==>
              r[i] == if list[i].id == id then list[i].(isRead := true) else list[i]
  {
    seq(|list|, i requires 0 <= i < |list| => if list[i].id == id then list[i].(isRead := true) else list[i])
  }

  /** handleNotificationClick: an unread notification is marked read and
      the counter drops by one, never below zero; a read one changes
      neither. The dropdown closes, and the page follows the link if there
      is one. */
  function Click(b: Bell, n: Notification): (r: (Bell, Option<string>))
    ensures !n.isRead ==> (r.0.list == MarkRead(b.list, n.id)
                           && r.0.unreadCount == if b.unreadCount > 0 then b.unreadCount - 1 else 0)
    ensures n.isRead ==> r.0.list == b.list && r.0.unreadCount == b.unreadCount
    ensures !r.0.open
    ensures r.1.Some? <==> Truthy(n.link)
    ensures r.1.Some? ==> r.1.value == n.link.value
  {
    var b' := if n.isRead then b
              else b.(list := MarkRead(b.list, n.id),
                      unreadCount := if b.unreadCount > 0 then b.unreadCount - 1 else 0);
    (b'.(open := false), if Truthy(n.link) then n.link else None)
  }

  /** markAllRead: the counter is 0 and every notification is read. */
  function MarkAllRead(b: Bell): (r: Bell)
    ensures r.unreadCount == 0 && r.open == b.open && |r.list| == |b.list|
    ensures forall i :: 0 <= i < |b.list| ==> r.list[i] == b.list[i].(isRead := true)
  {
    b.(list := seq(|b.list|, i requires 0 <= i < |b.list| => b.list[i].(isRead := true)), unreadCount := 0)
  }

  /** The badge: hidden at 0, otherwise the count, "9+" above 9. */
  function Badge(b: Bell): (s: Option<string>)
    ensures s.None? <==> b.unreadCount == 0
    ensures s.Some? ==> ParseInt(s.value) == Some(if b.unreadCount > 9 then 9 else b.unreadCount)
  {
    if b.unreadCount > 0 then
      BadgeReadsCapped(b.unreadCount);
      Some(BadgeText(b.unreadCount))
    else None
  }

  lemma {:induction false} CountPrefix<T>(s: seq<T>, k: nat, p: T -> bool)
    requires k <= |s|
    ensures Count(s[..k], p) <= Count(s, p)
    decreases |s|
  {
    if k > 0 {
      assert s[..k][1..] == s[1..][..k - 1];
      CountPrefix(s[1..], k - 1, p);
    }
  }

  /** Marking one notification read removes at least one unread entry when
      it is shown unread, and never adds one. */
  lemma {:induction false} MarkReadLowers(list: seq<Notification>, id: string)
    ensures UnreadShown(MarkRead(list, id)) <= UnreadShown(list)
    ensures (exists i :: 0 <= i < |list| && list[i].id == id && !list[i].isRead) ==>
              UnreadShown(MarkRead(list, id)) < UnreadShown(list)
    decreases |list|
  {
    if list != [] {
      var r := MarkRead(list, id);
      assert r[1..] == MarkRead(list[1..], id);
      MarkReadLowers(list[1..], id);
      if exists i :: 0 <= i < |list| && list[i].id == id && !list[i].isRead {
        var i :| 0 <= i < |list| && list[i].id == id && !list[i].isRead;
        if i > 0 {
          assert list[1..][i - 1] == list[i];
        }
      }
    }
  }

  /** A realtime insert keeps the counter at or above the unread
      notifications shown: it adds at most one and the cut only drops some. */
  lemma ReceiveKeepsCount(b: Bell, n: Notification)
    requires CountCoversList(b)
    ensures CountCoversList(Receive(b, n))
  {
    var all := [n] + b.list;
    var k := if |all| < MaxShown then |all| else MaxShown;
    CountPrefix(all, k, (x: Notification) => !x.isRead);
    assert all[1..] == b.list;
  }

  /** Clicking a shown notification keeps the counter at or above the
      unread notifications shown. */
  lemma ClickKeepsCount(b: Bell, n: Notification)
    requires CountCoversList(b) && n in b.list
    ensures CountCoversList(Click(b, n).0)
  {
    if !n.isRead {
      var i :| 0 <= i < |b.list| && b.list[i] == n;
      MarkReadLowers(b.list, n.id);
    }
  }

  /** After markAllRead nothing shown is unread. */
  lemma MarkAllReadClears(b: Bell)
    ensures UnreadShown(MarkAllRead(b).list) == 0 && CountCoversList(MarkAllRead(b))
  {
    CountNoneRead(MarkAllRead(b).list);
  }

  lemma {:induction false} CountNoneRead(list: seq<Notification>)
    requires forall i :: 0 <= i < |list| ==> list[i].isRead
    ensures UnreadShown(list) == 0
    decreases |list|
  {
    if list != [] {
      CountNoneRead(list[1..]);
    }
  }

  /** Clicking a notification twice has the effect of clicking it once. */
  lemma ClickTwice(b: Bell, n: Notification)
    ensures Click(Click(b, n).0, n.(isRead := true)).0 == Click(b, n).0
  {
  }
}
