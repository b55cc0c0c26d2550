/** Notifications (controllers/notification.controller.js): list, mark as read, delete. */
module Notifications {
  import opened Common
  import opened Store
  import opened Collections

  /**
   * getNotifications (notification.controller.js:4-11): the ids of exactly the notifications of
   * `user`, each once, newest first.
   */
  function GetNotifications(notifications: map<Id, Notification>, user: Id): (r: seq<Id>)
    ensures forall id :: id in r <==> id in notifications && notifications[id].user == user
    ensures forall id :: id in r ==> multiset(r)[id] == 1
    ensures forall i, j :: 0 <= i < j < |r| ==>
      r[i] in notifications && r[j] in notifications
      && notifications[r[i]].createdAt >= notifications[r[j]].createdAt
  {
    NewestFirst(notifications, (n: Notification) => n.user == user, (n: Notification) => n.createdAt)
  }

  /** The store after notification `id` is marked as read; unchanged when there is no such id. */
  function MarkedRead(notifications: map<Id, Notification>, id: Id): (r: map<Id, Notification>)
    ensures r.Keys == notifications.Keys
    ensures id in r ==> r[id].read && r[id] == notifications[id].(read := true)
    ensures forall other :: other in r && other != id ==> r[other] == notifications[other]
  {
    if id in notifications then notifications[id := notifications[id].(read := true)] else notifications
  }

  /** Marking as read twice is marking once, and marking an absent id changes nothing. */
  lemma MarkedReadIdempotent(notifications: map<Id, Notification>, id: Id)
    ensures MarkedRead(MarkedRead(notifications, id), id) == MarkedRead(notifications, id)
    ensures id !in notifications ==> MarkedRead(notifications, id) == notifications
  {
  }

  /** Marks in different orders commute: marking is a per-document, field-only write. */
  lemma MarkedReadCommutes(notifications: map<Id, Notification>, a: Id, b: Id)
    ensures MarkedRead(MarkedRead(notifications, a), b) == MarkedRead(MarkedRead(notifications, b), a)
  {
  }

  /**
   * markNotificationAsRead (notification.controller.js:14-26): NotFound for a missing id;
   * otherwise sets `read` and answers the updated notification.
   */
  method MarkNotificationAsRead(db: Database, id: Id) returns (r: Result<Notification>)
    modifies db`notifications
    ensures id !in old(db.notifications) ==> r == Err(NotFound)
    ensures id in old(db.notifications) ==> r == Ok(old(db.notifications)[id].(read := true))
    ensures db.notifications == MarkedRead(old(db.notifications), id)
  {
    if id !in db.notifications {
      return Err(NotFound);
    }
    var notification := db.notifications[id];
    notification := notification.(read := true);
    db.notifications := db.notifications[id := notification];
    r := Ok(notification);
  }

  /**
   * deleteNotification (notification.controller.js:29-38): NotFound for a missing id; otherwise
   * exactly that notification is removed.
   */
  method DeleteNotification(db: Database, id: Id) returns (r: Result<Notification>)
    modifies db`notifications
    ensures id !in old(db.notifications) ==> r == Err(NotFound) && db.notifications == old(db.notifications)
    ensures id in old(db.notifications) ==>
      r == Ok(old(db.notifications)[id]) && db.notifications == old(db.notifications) - {id}
  {
    if id !in db.notifications {
      return Err(NotFound);
    }
    r := Ok(db.notifications[id]);
    db.notifications := db.notifications - {id};
  }
}
