/** The notification bell (src/components/NotificationCenter.tsx): a list of
    notifications, newest first, and a separately kept unread counter that
    adding, marking one read and marking all read update. */
module Notifications {
  import opened Common
  import opened Text
  import Rows

  datatype Kind = Info | Warning | Success | Error

  datatype Category = Expense | Inventory | Member | Menu | General

  /** A notification; its timestamp, which only feeds the "30 minutes ago"
      label, is not part of this model. */
  datatype Notification = Notification(id: string, title: string, message: string, kind: Kind,
                                       read: bool, category: Category)

  /** How many notifications are unread: what the counter is meant to hold. */
  function UnreadCount(ns: seq<Notification>): nat
  {
    if ns == [] then 0 else UnreadCount(ns[..|ns| - 1]) + (if ns[|ns| - 1].read then 0 else 1)
  }

  /** How many unread notifications carry the id `id`. */
  function UnreadWithId(ns: seq<Notification>, id: string): (r: nat)
    ensures r <= UnreadCount(ns)
  {
    if ns == [] then 0
    else
      var last := ns[|ns| - 1];
      UnreadWithId(ns[..|ns| - 1], id) + (if !last.read && last.id == id then 1 else 0)
  }

  /** The list after clicking notification `id`. */
  function MarkedRead(ns: seq<Notification>, id: string): (r: seq<Notification>)
    ensures |r| == |ns|
    ensures forall i :: 0 <= i < |ns| && ns[i].id != id ==> r[i] == ns[i]
    ensures forall i :: 0 <= i < |ns| && ns[i].id == id ==> r[i] == ns[i].(read := true)
  {
    seq(|ns|, i requires 0 <= i < |ns| => if ns[i].id == id then ns[i].(read := true) else ns[i])
  }

  /** The list after "Mark all read". */
  function AllRead(ns: seq<Notification>): (r: seq<Notification>)
    ensures |r| == |ns|
    ensures forall i :: 0 <= i < |ns| ==> r[i] == ns[i].(read := true)
  {
    seq(|ns|, i requires 0 <= i < |ns| => ns[i].(read := true))
  }

  /** Marking `id` read leaves exactly the unread notifications with other
      ids unread. */
  lemma {:induction false} UnreadAfterMark(ns: seq<Notification>, id: string)
    ensures UnreadCount(MarkedRead(ns, id)) == UnreadCount(ns) - UnreadWithId(ns, id)
  {
    if ns != [] {
      var pre := ns[..|ns| - 1];
      UnreadAfterMark(pre, id);
      assert MarkedRead(ns, id)[..|ns| - 1] == MarkedRead(pre, id);
    }
  }

  /** After "Mark all read" nothing is unread, and doing it again changes
      nothing. */
  lemma {:induction false} AllReadClears(ns: seq<Notification>)
    ensures UnreadCount(AllRead(ns)) == 0
    ensures AllRead(AllRead(ns)) == AllRead(ns)
  {
    if ns != [] {
      AllReadClears(ns[..|ns| - 1]);
      assert AllRead(ns)[..|ns| - 1] == AllRead(ns[..|ns| - 1]);
    }
  }

  /** A new notification in front of the list adds one unread notification. */
  lemma {:induction false} UnreadPrepend(n: Notification, ns: seq<Notification>)
    ensures UnreadCount([n] + ns) == UnreadCount(ns) + (if n.read then 0 else 1)
  {
    if ns != [] {
      UnreadPrepend(n, ns[..|ns| - 1]);
      assert ([n] + ns)[..|ns|] == [n] + ns[..|ns| - 1];
    }
  }

  /** The five sample notifications the bell starts with. */
  const Samples: seq<Notification> := [
    Notification("1", "Low Stock Alert", "Rice is running low (2 kg remaining). Consider restocking soon.",
                 Warning, false, Inventory),
    Notification("2", "New Expense Added", "Monthly groceries expense of ₹5,200 has been recorded.",
                 Info, false, Expense),
    Notification("3", "Payment Received", "Member payment of ₹3,000 received from John Doe.",
                 Kind.Success, true, Member),
    Notification("4", "Menu Updated", "This week's menu has been updated with new items.",
                 Info, true, Menu),
    Notification("5", "Critical Stock Alert", "Onions are out of stock! Please restock immediately.",
                 Error, false, Inventory)]

  /** The counter after clicking a notification, as the bell computes it:
      one less, but never below zero, whatever was clicked. */
  function CountAfterClickAsWritten(count: int): (r: int)
    ensures r >= 0
    ensures count > 0 ==> r == count - 1
    ensures count <= 0 ==> r == 0
  {
    Max(0, count - 1)
  }

  /** Clicking the sample notification "3", which is already read, still
      lowers the counter: the badge says 2 while 3 notifications are
      unread. */
  lemma ClickOnReadDrifts()
    ensures UnreadCount(Samples) == 3
    ensures UnreadCount(MarkedRead(Samples, "3")) == 3
    ensures CountAfterClickAsWritten(UnreadCount(Samples)) == 2
  {
    assert Samples[..1][..0] == [];
    assert Samples[..2][..1] == Samples[..1];
    assert Samples[..3][..2] == Samples[..2];
    assert Samples[..4][..3] == Samples[..3];
    assert Samples[..4] == Samples[..|Samples| - 1];
    assert UnreadCount(Samples[..1]) == 1;
    assert UnreadCount(Samples[..2]) == 2;
    assert UnreadCount(Samples[..3]) == 2;
    assert UnreadCount(Samples[..4]) == 2;
    assert MarkedRead(Samples, "3") == Samples;
  }

  /** The counter after clicking a notification, lowered by the unread
      notifications the click actually marks read. */
  function CountAfterClick(count: int, ns: seq<Notification>, id: string): (r: int)
    ensures count == UnreadCount(ns) ==> r == UnreadCount(MarkedRead(ns, id))
    ensures count == UnreadCount(ns) ==> 0 <= r <= count
  {
    UnreadAfterMark(ns, id);
    count - UnreadWithId(ns, id)
  }

  /** Both counters agree when the click is on the one unread notification
      with that id: the common case, and the only one the bell gets right. */
  lemma ClickCountsAgree(ns: seq<Notification>, id: string)
    requires UnreadWithId(ns, id) == 1
    ensures CountAfterClickAsWritten(UnreadCount(ns)) == CountAfterClick(UnreadCount(ns), ns, id)
  {
  }

  /** The bell's state. */
  class NotificationCenter {
    var notifications: seq<Notification>
    var unreadCount: int

    /** The counter says how many notifications are unread. */
    ghost predicate Consistent()
      reads this
    {
      unreadCount == UnreadCount(notifications)
    }

    constructor()
      ensures notifications == [] && unreadCount == 0
      ensures Consistent()
    {
      notifications := [];
      unreadCount := 0;
    }

    /** Load the samples and count the unread ones. */
    method GenerateNotifications()
      modifies this
      ensures notifications == Samples
      ensures unreadCount == 3
      ensures Consistent()
    {
      notifications := Samples;
      unreadCount := UnreadCount(Samples);
      ClickOnReadDrifts();
    }

    /** Put a new unread notification in front; `id` stands for the clock
      reading the bell uses as id. */
    method AddNotification(id: string, title: string, message: string, kind: Kind, category: Category)
      modifies this
      ensures notifications == [Notification(id, title, message, kind, false, category)] + old(notifications)
      ensures unreadCount == old(unreadCount) + 1
      ensures old(Consistent()) ==> Consistent()
    {
      var n := Notification(id, title, message, kind, false, category);
      UnreadPrepend(n, notifications);
      notifications := [n] + notifications;
      unreadCount := unreadCount + 1;
    }

    /** Clicking notification `id`, as the bell does it: the counter drops
      by one even when nothing unread was marked. */
    method MarkAsRead(id: string)
      modifies this
      ensures notifications == MarkedRead(old(notifications), id)
      ensures unreadCount == CountAfterClickAsWritten(old(unreadCount))
      ensures old(Consistent()) && UnreadWithId(old(notifications), id) == 1 ==> Consistent()
    {
      UnreadAfterMark(notifications, id);
      notifications := MarkedRead(notifications, id);
      unreadCount := Max(0, unreadCount - 1);
    }

    /** Clicking notification `id`, lowering the counter by what the click
      marks read, so the counter stays right. */
    method MarkAsReadCounted(id: string)
      modifies this
      ensures notifications == MarkedRead(old(notifications), id)
      ensures unreadCount == old(unreadCount) - UnreadWithId(old(notifications), id)
      ensures old(Consistent()) ==> Consistent()
    {
      UnreadAfterMark(notifications, id);
      unreadCount := unreadCount - UnreadWithId(notifications, id);
      notifications := MarkedRead(notifications, id);
    }

    /** "Mark all read". */
    method MarkAllAsRead()
      modifies this
      ensures notifications == AllRead(old(notifications))
      ensures unreadCount == 0
      ensures Consistent()
    {
      AllReadClears(notifications);
      notifications := AllRead(notifications);
      unreadCount := 0;
    }
  }

  /** What an inventory update raises: a low-stock warning exactly when the
      stock is at or below its minimum. Its message, which prints the stock
      figure, is not part of this model. */
  function LowStockNotice(item: Rows.InventoryItem): (r: Option<(string, Kind, Category)>)
    ensures r.Some? <==> Rows.IsLowStock(item)
    ensures r.Some? ==> r.value == ("Low Stock Alert", Warning, Inventory)
  {
    if item.currentStock <= item.minimumStock then Some(("Low Stock Alert", Warning, Inventory)) else None
  }

  /** The badge on the bell: hidden at zero, "9+" above nine, the number
      otherwise. */
  function BadgeText(count: int): (r: Option<string>)
    ensures r.None? <==> count <= 0
    ensures count > 9 ==> r == Some("9+")
    ensures 0 < count <= 9 ==>
      (r.Some? && |r.value| == 1
       && (forall i :: 0 <= i < |r.value| ==> '0' <= r.value[i] <= '9') && ParseNat(r.value) == count)
  {
    if count <= 0 then None
    else if count > 9 then Some("9+")
    else
      ParseNatToString(count);
      Some(NatToString(count))
  }
}
