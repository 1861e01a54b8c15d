/** `NotificationService` of notifications/services.py over the
    Notification table. The row fields follow the model together with the
    migration that adds `notification_type`, `status`, `title` and
    `read_at`. The clock is the `now` parameter (minutes). */
module Notifications {
  import opened Wrappers

  /** `Notification.NotificationType`. */
  datatype NotificationType = System | BookingNotice | Reminder | Promo

  /** `Notification.NotificationStatus`. */
  datatype NotificationStatus = Unread | Read | Archived

  datatype Notification = Notification(
    user: nat,
    title: string,
    message: string,
    notificationType: NotificationType,
    status: NotificationStatus,
    sentAt: int,
    readAt: Option<int>)

  const MinutesPerDay: int := 1440

  /** `get_user_notifications`: the user's rows, without the archived ones
      unless `includeArchived`. */
  function UserNotifications(rows: map<nat, Notification>, user: nat, includeArchived: bool): (r: map<nat, Notification>)
    ensures forall id :: id in r <==>
      id in rows && rows[id].user == user && (includeArchived || rows[id].status != Archived)
    ensures forall id :: id in r ==> id in rows && r[id] == rows[id]
  {
    map id | id in rows && rows[id].user == user && (includeArchived || rows[id].status != Archived) :: rows[id]
  }

  /** `get_unread_notifications`. */
  function UnreadNotifications(rows: map<nat, Notification>, user: nat): (r: map<nat, Notification>)
    ensures forall id :: id in r <==> id in rows && rows[id].user == user && rows[id].status == Unread
    ensures forall id :: id in r ==> id in rows && r[id] == rows[id]
  {
    map id | id in rows && rows[id].user == user && rows[id].status == Unread :: rows[id]
  }

  /** The unread rows are among the rows listed without archived ones. */
  lemma UnreadAreListed(rows: map<nat, Notification>, user: nat)
    ensures UnreadNotifications(rows, user).Keys <= UserNotifications(rows, user, false).Keys
    ensures UserNotifications(rows, user, false).Keys <= UserNotifications(rows, user, true).Keys
  {
  }

  /** The table after `mark_all_as_read`. */
  function MarkedRead(rows: map<nat, Notification>, user: nat, now: int): (r: map<nat, Notification>)
    ensures r.Keys == rows.Keys
    ensures forall id :: id in rows && rows[id].user == user && rows[id].status == Unread ==>
      r[id] == rows[id].(status := Read, readAt := Some(now))
    ensures forall id :: id in rows && (rows[id].user != user || rows[id].status != Unread) ==> r[id] == rows[id]
    ensures UnreadNotifications(r, user) == map[]
  {
    var r := map id | id in rows ::
      if rows[id].user == user && rows[id].status == Unread then rows[id].(status := Read, readAt := Some(now))
      else rows[id];
    assert forall id :: id !in UnreadNotifications(r, user);
    r
  }

  /** Marking again changes nothing and finds nothing to mark. */
  lemma MarkAllAsReadAgain(rows: map<nat, Notification>, user: nat, now: int, later: int)
    ensures var once := MarkedRead(rows, user, now);
      MarkedRead(once, user, later) == once && |UnreadNotifications(once, user)| == 0
  {
    var once := MarkedRead(rows, user, now);
    assert MarkedRead(once, user, later) == once;
  }

  /** The rows `bulk_archive_notifications` matches. */
  function ArchiveTargets(rows: map<nat, Notification>, user: nat, ids: seq<nat>): (r: set<nat>)
    ensures forall id :: id in r <==> id in rows && rows[id].user == user && id in ids
  {
    set id | id in rows && rows[id].user == user && id in ids
  }

  /** The table after `bulk_archive_notifications`. */
  function ArchivedRows(rows: map<nat, Notification>, user: nat, ids: seq<nat>): (r: map<nat, Notification>)
    ensures r.Keys == rows.Keys
    ensures forall id :: id in ArchiveTargets(rows, user, ids) ==> r[id] == rows[id].(status := Archived)
    ensures forall id :: id in rows && id !in ArchiveTargets(rows, user, ids) ==> r[id] == rows[id]
  {
    map id | id in rows :: if id in ArchiveTargets(rows, user, ids) then rows[id].(status := Archived) else rows[id]
  }

  /** Ids of other users' rows in the list are ignored, and an archived
      row drops out of the default listing. */
  lemma ArchiveOnlyOwnRows(rows: map<nat, Notification>, user: nat, ids: seq<nat>)
    ensures var r := ArchivedRows(rows, user, ids);
      && (forall other :: other != user ==> UserNotifications(r, other, true) == UserNotifications(rows, other, true))
      && (forall id :: id in ids && id in rows && rows[id].user == user ==> id !in UserNotifications(r, user, false))
  {
    var r := ArchivedRows(rows, user, ids);
    forall other | other != user
      ensures UserNotifications(r, other, true) == UserNotifications(rows, other, true)
    {
      assert UserNotifications(r, other, true).Keys == UserNotifications(rows, other, true).Keys;
    }
  }

  /** `sent_at < now - timedelta(days=days)` with `status == ARCHIVED`. */
  predicate Expired(n: Notification, now: int, days: int) {
    n.status == Archived && n.sentAt < now - days * MinutesPerDay
  }

  /** The table after `delete_old_notifications`; `days` defaults to 30. */
  function WithoutOld(rows: map<nat, Notification>, now: int, days: Option<int>): (r: map<nat, Notification>)
    ensures forall id :: id in r <==> id in rows && !Expired(rows[id], now, days.GetOr(30))
    ensures forall id :: id in r ==> r[id] == rows[id]
  {
    map id | id in rows && !Expired(rows[id], now, days.GetOr(30)) :: rows[id]
  }

  /** Deleting never touches an unread or read row, whatever its age, and a
      second deletion at the same time removes nothing more. */
  lemma DeleteOldKeepsLiveRows(rows: map<nat, Notification>, now: int, days: Option<int>)
    ensures forall id :: id in rows && rows[id].status != Archived ==> id in WithoutOld(rows, now, days)
    ensures WithoutOld(WithoutOld(rows, now, days), now, days) == WithoutOld(rows, now, days)
  {
  }

  class NotificationTable {
    var rows: map<nat, Notification>
    var nextId: nat

    ghost predicate Valid()
      reads this
    {
      forall id :: id in rows ==> id < nextId
    }

    constructor ()
      ensures Valid() && rows == map[]
    {
      rows := map[];
      nextId := 1;
    }

    /** `create_notification`: an unread row sent now; the type defaults
        to SYSTEM. */
    method CreateNotification(user: nat, title: string, message: string, notificationType: Option<NotificationType>, now: int)
      returns (id: nat)
      requires Valid()
      modifies this
      ensures Valid()
      ensures id !in old(rows)
      ensures rows == old(rows)[id := Notification(user, title, message, notificationType.GetOr(System), Unread, now, None)]
    {
      id := nextId;
      rows := rows[id := Notification(user, title, message, notificationType.GetOr(System), Unread, now, None)];
      nextId := nextId + 1;
    }

    /** `mark_all_as_read`: returns how many rows it updated. */
    method MarkAllAsRead(user: nat, now: int) returns (count: nat)
      requires Valid()
      modifies this
      ensures Valid() && nextId == old(nextId)
      ensures rows == MarkedRead(old(rows), user, now)
      ensures count == |UnreadNotifications(old(rows), user)|
    {
      count := |UnreadNotifications(rows, user)|;
      rows := MarkedRead(rows, user, now);
    }

    /** `bulk_archive_notifications`: returns how many rows it matched. */
    method BulkArchiveNotifications(user: nat, ids: seq<nat>) returns (count: nat)
      requires Valid()
      modifies this
      ensures Valid() && nextId == old(nextId)
      ensures rows == ArchivedRows(old(rows), user, ids)
      ensures count == |ArchiveTargets(old(rows), user, ids)|
    {
      count := |ArchiveTargets(rows, user, ids)|;
      rows := ArchivedRows(rows, user, ids);
    }

    /** `delete_old_notifications`: returns how many rows it removed. */
    method DeleteOldNotifications(now: int, days: Option<int>) returns (count: nat)
      requires Valid()
      modifies this
      ensures Valid() && nextId == old(nextId)
      ensures rows == WithoutOld(old(rows), now, days)
      ensures rows.Keys <= old(rows).Keys
      ensures count == |old(rows).Keys - rows.Keys|
    {
      var kept := WithoutOld(rows, now, days);
      count := |rows.Keys - kept.Keys|;
      rows := kept;
    }
  }
}
