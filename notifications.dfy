/**
 * The server-side triggers that fan out notifications (functions/src/index.ts):
 * the sender snapshot, the payloads of comment and like notifications, and the
 * write that delivers one to its recipient.
 */
module Notifications {
  import opened Types
  import opened Strings
  import opened Firestore

  const SnippetLength: nat := 50
  const Someone: string := "Someone"

  /**
   * `getSenderData`: the sender's display name and photo from the public
   * profile, "Someone" and null when the profile is missing, and field by
   * field when a field is empty.
   */
  function SenderData(profile: Option<PublicProfile>): (s: Sender)
    ensures s.displayName != ""
    ensures profile.None? ==> s == Sender(Someone, None)
    ensures profile.Some? ==> s.displayName == OrElse(profile.value.displayName, Someone)
    ensures s.photoURL.Some? ==> profile.Some? && s.photoURL == profile.value.photoURL && s.photoURL.value != ""
    ensures profile.Some? && Truthy(profile.value.photoURL) ==> s.photoURL == profile.value.photoURL
  {
    match profile
    case None => Sender(Someone, None)
    case Some(p) =>
      Sender(OrElse(p.displayName, Someone),
             if p.photoURL.Some? && p.photoURL.value != "" then p.photoURL else None)
  }

  /** `text?.substring(0, 50) || ""`: at most the first 50 characters. */
  function Snippet(text: string): (r: string)
    ensures |r| <= 50 && r <= text
    ensures |text| <= 50 ==> r == text
    ensures |text| >= 50 ==> |r| == 50
  {
    Prefix(text, SnippetLength)
  }

  /** The fields a trigger hands to `createNotification`. */
  datatype NotificationData = NotificationData(
    kind: NotificationType,
    senderId: Uid,
    sender: Sender,
    postId: Option<string>,
    postContent: Option<string>,
    commentText: Option<string>)

  /** The stored notification: the payload with the recipient and `read = false`. */
  function Delivered(id: string, recipientId: Uid, data: NotificationData): (n: Notification)
    ensures n.id == id && n.recipientId == recipientId && !n.read
    ensures n.kind == data.kind && n.senderId == data.senderId && n.sender == data.sender
    ensures n.postId == data.postId && n.postContent == data.postContent && n.commentText == data.commentText
  {
    Notification(id, data.kind, data.senderId, data.sender, recipientId,
                 data.postId, data.postContent, data.commentText, false)
  }

  /** The store after a notification is delivered. */
  function WithNotification(d: Docs, n: Notification): (d': Docs)
    ensures Inbox(d', n.recipientId) == Inbox(d, n.recipientId) + [n]
    ensures forall u :: u != n.recipientId ==> Inbox(d', u) == Inbox(d, u)
    ensures d'.users == d.users && d'.publicProfiles == d.publicProfiles && d'.usernames == d.usernames
    ensures d'.posts == d.posts && d'.likes == d.likes && d'.comments == d.comments
    ensures d'.events == d.events && d'.saved == d.saved
  {
    d.(notifications := d.notifications[n.recipientId := Inbox(d, n.recipientId) + [n]])
  }

  /** A notification under an id new to its recipient's list keeps every list's ids unique. */
  lemma WithNotificationKeepsIdsDistinct(d: Docs, n: Notification)
    requires InboxesDistinct(d) && n.id !in IdsOf(Inbox(d, n.recipientId))
    ensures InboxesDistinct(WithNotification(d, n))
  {
    var inbox := Inbox(d, n.recipientId);
    var ns := inbox + [n];
    forall i, j | 0 <= i < j < |ns| ensures ns[i].id != ns[j].id {
      if j == |inbox| {
        assert ns[i] == inbox[i];
      }
    }
  }

  /**
   * `createNotification`: nothing when the recipient is the sender; otherwise
   * one unread notification appended to the recipient's list under the new
   * document id `id`.
   */
  method CreateNotification(db: Database, recipientId: Uid, data: NotificationData, id: string, accepted: bool)
    returns (written: bool)
    requires id !in IdsOf(Inbox(db.docs, recipientId))
    modifies db
    ensures recipientId == data.senderId ==> !written && db.docs == old(db.docs)
    ensures recipientId != data.senderId ==>
      written == accepted
      && db.docs == (if written then WithNotification(old(db.docs), Delivered(id, recipientId, data)) else old(db.docs))
    ensures old(InboxesDistinct(db.docs)) ==> InboxesDistinct(db.docs)
  {
    if recipientId == data.senderId {
      return false;
    }
    var n := Delivered(id, recipientId, data);
    if InboxesDistinct(db.docs) {
      WithNotificationKeepsIdsDistinct(db.docs, n);
    }
    AddNotificationEffect(db.docs, n);
    written := db.Commit([AddNotification(n)], accepted);
  }

  /** The payload of `onNewComment`. */
  function CommentNotification(comment: Comment, postId: string, post: Post, sender: Option<PublicProfile>)
    : (data: NotificationData)
    ensures data.kind == OnComment && data.senderId == comment.authorId && data.sender == SenderData(sender)
    ensures data.postId == Some(postId)
    ensures data.postContent == Some(Snippet(post.content)) && data.commentText == Some(Snippet(comment.text))
    ensures |data.postContent.value| <= 50 && data.postContent.value <= post.content
    ensures |data.commentText.value| <= 50 && data.commentText.value <= comment.text
  {
    NotificationData(OnComment, comment.authorId, SenderData(sender), Some(postId),
                     Some(Snippet(post.content)), Some(Snippet(comment.text)))
  }

  /** The payload of `onNewLike`: the sender is the liker, whose uid is the like record's id. */
  function LikeNotification(likerId: Uid, postId: string, post: Post, sender: Option<PublicProfile>)
    : (data: NotificationData)
    ensures data.kind == OnLike && data.senderId == likerId && data.sender == SenderData(sender)
    ensures data.postId == Some(postId) && data.commentText.None?
    ensures data.postContent == Some(Snippet(post.content))
    ensures |data.postContent.value| <= 50 && data.postContent.value <= post.content
  {
    NotificationData(OnLike, likerId, SenderData(sender), Some(postId), Some(Snippet(post.content)), None)
  }

  /**
   * `onNewComment` for `posts/{postId}/comments/{commentId}`: nothing without
   * the comment data or the post; otherwise the post's author is notified.
   */
  method OnNewComment(db: Database, postId: string, comment: Option<Comment>, id: string, accepted: bool)
    returns (written: bool)
    requires postId in db.docs.posts ==> id !in IdsOf(Inbox(db.docs, db.docs.posts[postId].authorId))
    modifies db
    ensures comment.None? || postId !in old(db.docs.posts) ==> !written && db.docs == old(db.docs)
    ensures comment.Some? && postId in old(db.docs.posts) ==>
      var post := old(db.docs.posts[postId]);
      var data := CommentNotification(comment.value, postId, post, ProfileOf(old(db.docs), comment.value.authorId));
      && written == (accepted && post.authorId != comment.value.authorId)
      && db.docs == (if written then WithNotification(old(db.docs), Delivered(id, post.authorId, data)) else old(db.docs))
  {
    if comment.None? || postId !in db.docs.posts {
      return false;
    }
    var post := db.docs.posts[postId];
    var data := CommentNotification(comment.value, postId, post, ProfileOf(db.docs, comment.value.authorId));
    written := CreateNotification(db, post.authorId, data, id, accepted);
  }

  /**
   * `onNewLike` for `posts/{postId}/likes/{likerId}`: nothing without the
   * post; otherwise the post's author is notified.
   */
  method OnNewLike(db: Database, postId: string, likerId: Uid, id: string, accepted: bool)
    returns (written: bool)
    requires postId in db.docs.posts ==> id !in IdsOf(Inbox(db.docs, db.docs.posts[postId].authorId))
    modifies db
    ensures postId !in old(db.docs.posts) ==> !written && db.docs == old(db.docs)
    ensures postId in old(db.docs.posts) ==>
      var post := old(db.docs.posts[postId]);
      var data := LikeNotification(likerId, postId, post, ProfileOf(old(db.docs), likerId));
      && written == (accepted && post.authorId != likerId)
      && db.docs == (if written then WithNotification(old(db.docs), Delivered(id, post.authorId, data)) else old(db.docs))
  {
    if postId !in db.docs.posts {
      return false;
    }
    var post := db.docs.posts[postId];
    var data := LikeNotification(likerId, postId, post, ProfileOf(db.docs, likerId));
    written := CreateNotification(db, post.authorId, data, id, accepted);
  }

  /**
   * `onNewFollow`: it only logs when the follower count grew (a missing count
   * reads as 0) and never writes; it takes no store at all.
   */
  method OnNewFollow(before: Option<PublicProfile>, after: Option<PublicProfile>) returns (logged: bool)
    ensures logged <==> before.Some? && after.Some? && after.value.followerCount > before.value.followerCount
  {
    if before.None? || after.None? {
      return false;
    }
    logged := after.value.followerCount > before.value.followerCount;
  }
}
