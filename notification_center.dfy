/**
 * The bell menu (src/components/notification-center.tsx): the newest twenty
 * notifications, the unread badge, marking all of them or one of them read,
 * and where a click on a notification leads.
 */
module NotificationCenter {
  import opened Types
  import opened Strings
  import opened Firestore
  import Notifications

  const PageSize: nat := 20

  /**
   * `orderBy('createdAt', 'desc'), limit(20)`: the newest twenty, newest
   * first. Stored lists are oldest first, in creation order.
   */
  function Shown(inbox: seq<Notification>): (r: seq<Notification>)
    ensures |r| == if |inbox| < PageSize then |inbox| else PageSize
    ensures forall i :: 0 <= i < |r| ==> r[i] == inbox[|inbox| - 1 - i]
  {
    var k := if |inbox| < PageSize then |inbox| else PageSize;
    seq(k, i requires 0 <= i < k => inbox[|inbox| - 1 - i])
  }

  predicate IsUnread(n: Notification) { !n.read }

  /** `notifications.filter(n => !n.read).length`. */
  function UnreadCount(ns: seq<Notification>): nat {
    |Filter(IsUnread, ns)|
  }

  /** The badge counts the first notification and then the rest. */
  lemma UnreadCountCons(ns: seq<Notification>)
    requires ns != []
    ensures UnreadCount(ns) == (if ns[0].read then 0 else 1) + UnreadCount(ns[1..])
  {
  }

  /** No unread notification is left exactly when the badge shows 0. */
  lemma {:induction false} UnreadCountZero(ns: seq<Notification>)
    ensures UnreadCount(ns) == 0 <==> forall i :: 0 <= i < |ns| ==> ns[i].read
    decreases |ns|
  {
    if ns != [] {
      UnreadCountCons(ns);
      UnreadCountZero(ns[1..]);
      if forall i :: 0 <= i < |ns| ==> ns[i].read {
        assert forall i :: 0 <= i < |ns| - 1 ==> ns[1..][i].read by {
          forall i | 0 <= i < |ns| - 1 ensures ns[1..][i].read {
            assert ns[1..][i] == ns[i + 1];
          }
        }
      }
      if UnreadCount(ns) == 0 {
        forall i | 0 <= i < |ns| ensures ns[i].read {
          if i > 0 {
            assert ns[i] == ns[1..][i - 1];
          }
        }
      }
    }
  }

  /** A notification appended unread raises the count by one. */
  lemma NewNotificationRaisesCount(inbox: seq<Notification>, n: Notification)
    requires !n.read
    ensures UnreadCount(inbox + [n]) == UnreadCount(inbox) + 1
  {
    FilterConcat(IsUnread, inbox, [n]);
  }

  /** The badge over the shown list never exceeds twenty. */
  lemma BadgeAtMostTwenty(inbox: seq<Notification>)
    ensures UnreadCount(Shown(inbox)) <= 20
  {
  }

  // ---------------------------------------------------------------- marking read

  /** The ids of the unread notifications in `ns`. */
  function UnreadIds(ns: seq<Notification>): set<string> {
    set i | 0 <= i < |ns| && !ns[i].read :: ns[i].id
  }

  /** One `update(notifRef, { read: true })` per notification. */
  function MarkWrites(uid: Uid, ns: seq<Notification>): (ws: seq<Write>)
    ensures |ws| == |ns| && forall i :: 0 <= i < |ns| ==> ws[i] == MarkRead(uid, ns[i].id)
  {
    seq(|ns|, i requires 0 <= i < |ns| => MarkRead(uid, ns[i].id))
  }

  /**
   * The `forEach` of `markAllAsRead`: an update for each unread notification,
   * in list order.
   */
  method BuildMarkAllBatch(uid: Uid, shown: seq<Notification>) returns (batch: seq<Write>)
    ensures batch == MarkWrites(uid, Filter(IsUnread, shown))
    ensures |batch| == UnreadCount(shown)
  {
    batch := [];
    for i := 0 to |shown|
      invariant batch == MarkWrites(uid, Filter(IsUnread, shown[..i]))
    {
      var n := shown[i];
      var unread := Filter(IsUnread, shown[..i]);
      assert shown[..i + 1] == shown[..i] + [n];
      FilterConcat(IsUnread, shown[..i], [n]);
      if !n.read {
        assert Filter(IsUnread, [n]) == [n];
        MarkWritesSnoc(uid, unread, n);
        batch := batch + [MarkRead(uid, n.id)];
      } else {
        assert Filter(IsUnread, [n]) == [];
        assert unread + [] == unread;
      }
    }
    assert shown[..|shown|] == shown;
  }

  lemma MarkWritesSnoc(uid: Uid, ns: seq<Notification>, n: Notification)
    ensures MarkWrites(uid, ns + [n]) == MarkWrites(uid, ns) + [MarkRead(uid, n.id)]
  {
  }

  /** Marking never changes which ids a list holds. */
  lemma MarkIdsKeepsIds(ns: seq<Notification>, ids: set<string>, id: string)
    ensures HasId(MarkIds(ns, ids), id) <==> HasId(ns, id)
  {
    var m := MarkIds(ns, ids);
    if HasId(ns, id) {
      var i :| 0 <= i < |ns| && ns[i].id == id;
      assert m[i].id == id;
    }
  }

  /** Marking two sets of ids one after the other marks their union. */
  lemma MarkIdsTwice(ns: seq<Notification>, a: set<string>, b: set<string>)
    ensures MarkIds(MarkIds(ns, a), b) == MarkIds(ns, a + b)
  {
  }

  /** Two marking steps on the store are one step with both sets of ids. */
  lemma MarkTwiceInStore(d: Docs, uid: Uid, a: set<string>, b: set<string>)
    requires uid in d.notifications
    ensures var d1 := d.(notifications := d.notifications[uid := MarkIds(d.notifications[uid], a)]);
      d1.(notifications := d1.notifications[uid := MarkIds(d1.notifications[uid], b)])
      == d.(notifications := d.notifications[uid := MarkIds(d.notifications[uid], a + b)])
  {
    MarkIdsTwice(d.notifications[uid], a, b);
  }

  /** Marking no id changes nothing. */
  lemma MarkIdsNone(ns: seq<Notification>, ids: set<string>)
    requires forall i :: 0 <= i < |ns| ==> ns[i].id !in ids || ns[i].read
    ensures MarkIds(ns, ids) == ns
  {
    var m := MarkIds(ns, ids);
    forall i | 0 <= i < |ns| ensures m[i] == ns[i] {
      if ns[i].id in ids {
        assert ns[i].read && ns[i].(read := true) == ns[i];
      }
    }
  }

  /** The ids of a non-empty list are its first id and those of the rest. */
  lemma IdsOfCons(ns: seq<Notification>)
    requires ns != []
    ensures IdsOf(ns) == {ns[0].id} + IdsOf(ns[1..])
  {
    forall x | x in IdsOf(ns) ensures x in {ns[0].id} + IdsOf(ns[1..]) {
      var i :| 0 <= i < |ns| && ns[i].id == x;
      if i > 0 {
        assert ns[1..][i - 1] == ns[i];
      }
    }
    forall x | x in IdsOf(ns[1..]) ensures x in IdsOf(ns) {
      var i :| 0 <= i < |ns| - 1 && ns[1..][i].id == x;
      assert ns[1..][i] == ns[i + 1];
    }
  }

  lemma MarkWritesCons(uid: Uid, ns: seq<Notification>)
    requires ns != []
    ensures MarkWrites(uid, ns)[0] == MarkRead(uid, ns[0].id)
    ensures MarkWrites(uid, ns)[1..] == MarkWrites(uid, ns[1..])
  {
  }

  /** Marking one existing id of a recipient's list succeeds. */
  lemma MarkExisting(d: Docs, uid: Uid, id: string)
    requires uid in d.notifications && HasId(d.notifications[uid], id)
    ensures Apply(d, MarkRead(uid, id)) ==
      Some(d.(notifications := d.notifications[uid := MarkIds(d.notifications[uid], {id})]))
  {
    MarkReadEffect(d, uid, id);
  }

  /**
   * A batch of updates for notifications that all exist marks exactly their
   * ids in the recipient's list; nothing else in the store changes.
   */
  lemma {:induction false} MarkWritesEffect(d: Docs, uid: Uid, ns: seq<Notification>)
    requires uid in d.notifications
    requires forall i :: 0 <= i < |ns| ==> HasId(d.notifications[uid], ns[i].id)
    ensures ApplyBatch(d, MarkWrites(uid, ns)) ==
      Some(d.(notifications := d.notifications[uid := MarkIds(d.notifications[uid], IdsOf(ns))]))
    decreases |ns|
  {
    var inbox := d.notifications[uid];
    if ns == [] {
      assert MarkIds(inbox, IdsOf(ns)) == inbox;
      assert d.notifications[uid := inbox] == d.notifications;
    } else {
      var ws := MarkWrites(uid, ns);
      var first := ns[0].id;
      var rest := ns[1..];
      var inbox1 := MarkIds(inbox, {first});
      var d1 := d.(notifications := d.notifications[uid := inbox1]);
      MarkWritesCons(uid, ns);
      MarkExisting(d, uid, first);
      ApplyBatchStep(d, ws);
      assert ApplyBatch(d, ws) == ApplyBatch(d1, MarkWrites(uid, rest));
      forall i | 0 <= i < |rest| ensures HasId(d1.notifications[uid], rest[i].id) {
        MarkIdsKeepsIds(inbox, {first}, rest[i].id);
        assert rest[i] == ns[i + 1];
      }
      MarkWritesEffect(d1, uid, rest);
      IdsOfCons(ns);
      MarkTwiceInStore(d, uid, {first}, IdsOf(rest));
    }
  }

  /** `markAllAsRead` on the recipient's list: every shown unread notification is marked. */
  function MarkShown(inbox: seq<Notification>): seq<Notification> {
    MarkIds(inbox, UnreadIds(Shown(inbox)))
  }

  /** Afterwards the badge shows 0. */
  lemma MarkShownClearsBadge(inbox: seq<Notification>)
    ensures UnreadCount(Shown(MarkShown(inbox))) == 0
  {
    var m := MarkShown(inbox);
    var s, s' := Shown(inbox), Shown(m);
    forall i | 0 <= i < |s'| ensures s'[i].read {
      var j := |inbox| - 1 - i;
      assert s'[i] == m[j] && s[i] == inbox[j];
      if !inbox[j].read {
        assert inbox[j].id in UnreadIds(s);
      }
    }
    UnreadCountZero(s');
  }

  /** Marking all read twice is marking once. */
  lemma MarkShownIdempotent(inbox: seq<Notification>)
    ensures MarkShown(MarkShown(inbox)) == MarkShown(inbox)
  {
    var m := MarkShown(inbox);
    MarkShownClearsBadge(inbox);
    UnreadCountZero(Shown(m));
    assert UnreadIds(Shown(m)) == {};
    MarkIdsNone(m, {});
  }

  /** Notifications older than the newest twenty keep their read flag. */
  lemma OlderStayAsTheyWere(inbox: seq<Notification>, k: nat)
    requires DistinctIds(inbox) && k + PageSize < |inbox|
    ensures MarkShown(inbox)[k] == inbox[k]
  {
  }

  /** The store after `markAllAsRead` by `uid`. */
  function MarkedAll(d: Docs, uid: Uid): (d': Docs)
    ensures Inbox(d', uid) == MarkShown(Inbox(d, uid))
    ensures forall u :: u != uid ==> Inbox(d', u) == Inbox(d, u)
    ensures d'.users == d.users && d'.publicProfiles == d.publicProfiles && d'.usernames == d.usernames
    ensures d'.posts == d.posts && d'.likes == d.likes && d'.comments == d.comments
    ensures d'.events == d.events && d'.saved == d.saved
  {
    d.(notifications := d.notifications[uid := MarkShown(Inbox(d, uid))])
  }

  /** Marking notifications read, in one list or all shown ones, keeps every list's ids unique. */
  lemma MarkKeepsIdsDistinct(d: Docs, uid: Uid, ids: set<string>)
    ensures InboxesDistinct(d) && uid in d.notifications ==>
      InboxesDistinct(d.(notifications := d.notifications[uid := MarkIds(d.notifications[uid], ids)]))
    ensures InboxesDistinct(d) ==> InboxesDistinct(d.(notifications := d.notifications[uid := MarkIds(Inbox(d, uid), ids)]))
  {
  }

  /** The badge of `uid`: unread among the shown notifications. */
  function Badge(d: Docs, uid: Uid): nat {
    UnreadCount(Shown(Inbox(d, uid)))
  }

  /**
   * `markAllAsRead`: nothing without a viewer or with a badge of 0; otherwise
   * one batch marks every shown unread notification read.
   */
  method MarkAllAsRead(db: Database, user: Option<Uid>, accepted: bool) returns (committed: bool)
    modifies db
    ensures user.None? || Badge(old(db.docs), user.value) == 0 ==> !committed && db.docs == old(db.docs)
    ensures user.Some? && Badge(old(db.docs), user.value) > 0 ==>
      committed == accepted && db.docs == (if committed then MarkedAll(old(db.docs), user.value) else old(db.docs))
    ensures committed ==> Badge(db.docs, user.value) == 0
    ensures old(InboxesDistinct(db.docs)) ==> InboxesDistinct(db.docs)
  {
    if user.None? {
      return false;
    }
    var uid := user.value;
    var inbox := Inbox(db.docs, uid);
    var shown := Shown(inbox);
    if UnreadCount(shown) == 0 {
      return false;
    }
    var batch := BuildMarkAllBatch(uid, shown);
    MarkAllBatchEffect(db.docs, uid);
    MarkKeepsIdsDistinct(db.docs, uid, UnreadIds(shown));
    committed := db.Commit(batch, accepted);
    if committed {
      MarkShownClearsBadge(inbox);
    }
  }

  /** The batch of `markAllAsRead` always applies and gives MarkedAll, once there is something shown. */
  lemma MarkAllBatchEffect(d: Docs, uid: Uid)
    requires Badge(d, uid) > 0
    ensures ApplyBatch(d, MarkWrites(uid, Filter(IsUnread, Shown(Inbox(d, uid))))) == Some(MarkedAll(d, uid))
  {
    var inbox := Inbox(d, uid);
    var s := Shown(inbox);
    var u := Filter(IsUnread, s);
    assert uid in d.notifications;
    ShownExist(inbox, u);
    MarkWritesEffect(d, uid, u);
    UnreadFilterIds(s);
  }

  /** Every shown notification, and so every unread one, is in the list. */
  lemma ShownExist(inbox: seq<Notification>, u: seq<Notification>)
    requires u == Filter(IsUnread, Shown(inbox))
    ensures forall i :: 0 <= i < |u| ==> HasId(inbox, u[i].id)
  {
    var s := Shown(inbox);
    forall i | 0 <= i < |u| ensures HasId(inbox, u[i].id) {
      assert u[i] in s;
      var j :| 0 <= j < |s| && s[j] == u[i];
      assert s[j] == inbox[|inbox| - 1 - j];
    }
  }

  /** The ids the `forEach` marks are the unread ids. */
  lemma UnreadFilterIds(s: seq<Notification>)
    ensures IdsOf(Filter(IsUnread, s)) == UnreadIds(s)
  {
    var u := Filter(IsUnread, s);
    forall x | x in UnreadIds(s) ensures x in IdsOf(u) {
      var j :| 0 <= j < |s| && !s[j].read && s[j].id == x;
      assert s[j] in u;
      var i :| 0 <= i < |u| && u[i] == s[j];
    }
    forall x | x in IdsOf(u) ensures x in UnreadIds(s) {
      var i :| 0 <= i < |u| && u[i].id == x;
      assert u[i] in s && IsUnread(u[i]);
      var j :| 0 <= j < |s| && s[j] == u[i];
    }
  }

  /** With unique ids, marking one unread notification lowers the count by exactly one. */
  lemma {:induction false} MarkOneLowersCount(ns: seq<Notification>, k: nat)
    requires DistinctIds(ns) && k < |ns| && !ns[k].read
    ensures UnreadCount(MarkIds(ns, {ns[k].id})) == UnreadCount(ns) - 1
    decreases |ns|
  {
    var id := ns[k].id;
    var m := MarkIds(ns, {id});
    UnreadCountCons(ns);
    UnreadCountCons(m);
    assert m[1..] == MarkIds(ns[1..], {id});
    if k == 0 {
      MarkIdsNone(ns[1..], {id});
    } else {
      assert ns[1..][k - 1] == ns[k];
      MarkOneLowersCount(ns[1..], k - 1);
    }
  }

  /** `markOneAsRead`: one update; it fails when the notification does not exist. */
  method MarkOneAsRead(db: Database, user: Option<Uid>, id: string, accepted: bool) returns (committed: bool)
    modifies db
    ensures user.None? ==> !committed && db.docs == old(db.docs)
    ensures user.Some? ==>
      var inbox := Inbox(old(db.docs), user.value);
      && (committed <==> accepted && HasId(inbox, id))
      && db.docs == (if committed then old(db.docs).(notifications := old(db.docs.notifications)[user.value := MarkIds(inbox, {id})])
                     else old(db.docs))
    ensures old(InboxesDistinct(db.docs)) ==> InboxesDistinct(db.docs)
  {
    if user.None? {
      return false;
    }
    MarkKeepsIdsDistinct(db.docs, user.value, {id});
    MarkReadEffect(db.docs, user.value, id);
    ApplyOne(db.docs, MarkRead(user.value, id));
    committed := db.Commit([MarkRead(user.value, id)], accepted);
  }

  // ---------------------------------------------------------------- clicks

  /**
   * `handleClick`'s target: a follow leads to the follower's page, anything
   * with a post to the recipient's page with that post; otherwise nowhere.
   */
  function ClickTarget(n: Notification): (target: Option<string>)
    ensures n.kind == OnFollow ==> target == Some("/" + n.senderId)
    ensures n.kind != OnFollow ==>
      (target.Some? <==> n.postId.Some? && n.postId.value != "")
    ensures n.kind != OnFollow && n.postId.Some? && n.postId.value != "" ==>
      target == Some("/" + n.recipientId + "?post=" + n.postId.value)
    ensures target.Some? ==> "/" <= target.value
  {
    if n.kind == OnFollow then Some("/" + n.senderId)
    else if n.postId.Some? && n.postId.value != "" then Some("/" + n.recipientId + "?post=" + n.postId.value)
    else None
  }

  /** A like or comment notification leads to its post on the recipient's own page. */
  lemma TriggeredNotificationTarget(id: string, recipientId: Uid, data: Notifications.NotificationData)
    requires data.kind != OnFollow && data.postId.Some? && data.postId.value != ""
    ensures ClickTarget(Notifications.Delivered(id, recipientId, data)) ==
      Some("/" + recipientId + "?post=" + data.postId.value)
  {
  }

  /** `handleClick`: mark the notification read, then navigate. */
  method Click(db: Database, user: Option<Uid>, n: Notification, accepted: bool)
    returns (target: Option<string>, committed: bool)
    modifies db
    ensures target == ClickTarget(n)
    ensures user.None? ==> !committed && db.docs == old(db.docs)
    ensures user.Some? ==>
      var inbox := Inbox(old(db.docs), user.value);
      && (committed <==> accepted && HasId(inbox, n.id))
      && db.docs == (if committed then old(db.docs).(notifications := old(db.docs.notifications)[user.value := MarkIds(inbox, {n.id})])
                     else old(db.docs))
    ensures committed ==> Inbox(db.docs, user.value) == MarkIds(Inbox(old(db.docs), user.value), {n.id})
    ensures old(InboxesDistinct(db.docs)) ==> InboxesDistinct(db.docs)
  {
    committed := MarkOneAsRead(db, user, n.id, accepted);
    target := ClickTarget(n);
  }
}
