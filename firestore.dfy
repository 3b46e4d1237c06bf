/**
 * The document store as the app uses it: a handful of collections held as
 * maps, the writes the app issues, and the batch commit that applies them all
 * or none. Whether the server accepts a commit (security rules, network) is an
 * input to the commit.
 */
module Firestore {
  import opened Types

  /** Every collection the modelled code reads or writes. */
  datatype Docs = Docs(
    users: map<Uid, UserRecord>,                  // users/{uid}
    publicProfiles: map<Uid, PublicProfile>,      // publicProfiles/{uid}
    usernames: map<string, Uid>,                  // usernames/{username}
    posts: map<string, Post>,                     // posts/{postId}
    likes: set<(string, Uid)>,                    // posts/{postId}/likes/{uid}
    comments: map<(string, string), Comment>,     // posts/{postId}/comments/{commentId}
    notifications: map<Uid, seq<Notification>>,  // users/{uid}/notifications, oldest first
    events: seq<Event>,                           // events
    saved: map<SavedKey, SavedItem>)              // users/{uid}/{collection}/{itemId}

  /** The profile fields the settings form edits. */
  datatype ProfileFields = ProfileFields(displayName: string, bio: Option<string>, gender: Option<string>)

  /**
   * One write of a batch. `set` and `delete` always succeed; `update` (and so
   * `increment`) fails when its document does not exist.
   */
  datatype Write =
    | SetLike(postId: string, uid: Uid)
    | DeleteLike(postId: string, uid: Uid)
    | IncrementLikeCount(postId: string, delta: int)
    | SetComment(comment: Comment)
    | IncrementCommentCount(postId: string, delta: int)
    | AddPost(postId: string, post: Post)
    | SetUser(user: UserRecord)
    | SetPublicProfile(profile: PublicProfile)
    | SetUsername(username: string, owner: Uid)
    | UpdateUser(uid: Uid, fields: ProfileFields)
    | UpdatePublicProfile(uid: Uid, fields: ProfileFields, lowercase: string, terms: seq<string>)
    | UpdateUserPhoto(uid: Uid, url: string)
    | UpdatePublicPhoto(uid: Uid, url: string)
    | AddNotification(notification: Notification)
    | MarkRead(recipientId: Uid, notificationId: string)
    | AddEvent(event: Event)
    | SetSaved(key: SavedKey, item: SavedItem)
    | DeleteSaved(key: SavedKey)

  /** The notifications whose id is in `ids` marked read; everything else as it was. */
  function MarkIds(ns: seq<Notification>, ids: set<string>): (r: seq<Notification>)
    ensures |r| == |ns|
    ensures forall i :: 0 <= i < |ns| ==> r[i].id == ns[i].id
    ensures forall i :: 0 <= i < |ns| ==> r[i] == (if ns[i].id in ids then ns[i].(read := true) else ns[i])
  {
    seq(|ns|, i requires 0 <= i < |ns| => if ns[i].id in ids then ns[i].(read := true) else ns[i])
  }

  predicate HasId(ns: seq<Notification>, id: string) {
    exists i :: 0 <= i < |ns| && ns[i].id == id
  }

  /** The effect of one write, or None when it is an update of a missing document. */
  function Apply(d: Docs, w: Write): Option<Docs> {
    match w
    case SetLike(p, u) => Some(d.(likes := d.likes + {(p, u)}))
    case DeleteLike(p, u) => Some(d.(likes := d.likes - {(p, u)}))
    case IncrementLikeCount(p, delta) =>
      if p in d.posts then
        Some(d.(posts := d.posts[p := d.posts[p].(likeCount := d.posts[p].likeCount + delta)]))
      else None
    case SetComment(c) => Some(d.(comments := d.comments[(c.postId, c.id) := c]))
    case IncrementCommentCount(p, delta) =>
      if p in d.posts then
        Some(d.(posts := d.posts[p := d.posts[p].(commentCount := d.posts[p].commentCount + delta)]))
      else None
    case AddPost(p, post) => Some(d.(posts := d.posts[p := post]))
    case SetUser(u) => Some(d.(users := d.users[u.uid := u]))
    case SetPublicProfile(pp) => Some(d.(publicProfiles := d.publicProfiles[pp.uid := pp]))
    case SetUsername(name, owner) => Some(d.(usernames := d.usernames[name := owner]))
    case UpdateUser(uid, f) =>
      if uid in d.users then
        var u := d.users[uid];
        Some(d.(users := d.users[uid := u.(displayName := Some(f.displayName), bio := f.bio, gender := f.gender)]))
      else None
    case UpdatePublicProfile(uid, f, lowercase, terms) =>
      if uid in d.publicProfiles then
        var pp := d.publicProfiles[uid];
        var pp' := pp.(displayName := Some(f.displayName), bio := f.bio, gender := f.gender,
                       displayNameLowercase := lowercase, searchableTerms := terms);
        Some(d.(publicProfiles := d.publicProfiles[uid := pp']))
      else None
    case UpdateUserPhoto(uid, url) =>
      if uid in d.users then
        Some(d.(users := d.users[uid := d.users[uid].(photoURL := Some(url))]))
      else None
    case UpdatePublicPhoto(uid, url) =>
      if uid in d.publicProfiles then
        Some(d.(publicProfiles := d.publicProfiles[uid := d.publicProfiles[uid].(photoURL := Some(url))]))
      else None
    case AddNotification(n) =>
      var existing := if n.recipientId in d.notifications then d.notifications[n.recipientId] else [];
      Some(d.(notifications := d.notifications[n.recipientId := existing + [n]]))
    case MarkRead(r, id) =>
      if r in d.notifications && HasId(d.notifications[r], id) then
        Some(d.(notifications := d.notifications[r := MarkIds(d.notifications[r], {id})]))
      else None
    case AddEvent(e) => Some(d.(events := d.events + [e]))
    case SetSaved(k, item) => Some(d.(saved := d.saved[k := item]))
    case DeleteSaved(k) => Some(d.(saved := d.saved - {k}))
  }

  /** A batch applied left to right; None as soon as one write fails. */
  function ApplyBatch(d: Docs, batch: seq<Write>): Option<Docs>
    decreases |batch|
  {
    if batch == [] then Some(d)
    else
      match Apply(d, batch[0])
      case None => None
      case Some(d') => ApplyBatch(d', batch[1..])
  }

  /** A batch of one write is that write. */
  lemma ApplyOne(d: Docs, w: Write)
    ensures ApplyBatch(d, [w]) == Apply(d, w)
  {
    assert [w][1..] == [];
  }

  /** The first write of a batch that succeeds hands its result to the rest. */
  lemma ApplyBatchStep(d: Docs, batch: seq<Write>)
    requires batch != [] && Apply(d, batch[0]).Some?
    ensures ApplyBatch(d, batch) == ApplyBatch(Apply(d, batch[0]).value, batch[1..])
  {
  }

  lemma SetUserEffect(d: Docs, u: UserRecord)
    ensures Apply(d, SetUser(u)) == Some(d.(users := d.users[u.uid := u]))
  {
  }

  lemma SetPublicProfileEffect(d: Docs, p: PublicProfile)
    ensures Apply(d, SetPublicProfile(p)) == Some(d.(publicProfiles := d.publicProfiles[p.uid := p]))
  {
  }

  lemma SetUsernameEffect(d: Docs, name: string, owner: Uid)
    ensures ApplyBatch(d, [SetUsername(name, owner)]) == Some(d.(usernames := d.usernames[name := owner]))
  {
    ApplyOne(d, SetUsername(name, owner));
  }

  lemma UpdateUserEffect(d: Docs, uid: Uid, f: ProfileFields)
    ensures Apply(d, UpdateUser(uid, f)) ==
      if uid in d.users then
        Some(d.(users := d.users[uid := d.users[uid].(displayName := Some(f.displayName), bio := f.bio, gender := f.gender)]))
      else None
  {
  }

  lemma UpdatePublicProfileEffect(d: Docs, uid: Uid, f: ProfileFields, lowercase: string, terms: seq<string>)
    ensures Apply(d, UpdatePublicProfile(uid, f, lowercase, terms)) ==
      if uid in d.publicProfiles then
        Some(d.(publicProfiles := d.publicProfiles[uid := d.publicProfiles[uid].(
          displayName := Some(f.displayName), bio := f.bio, gender := f.gender,
          displayNameLowercase := lowercase, searchableTerms := terms)]))
      else None
  {
  }

  lemma UpdatePhotoEffect(d: Docs, uid: Uid, url: string)
    ensures Apply(d, UpdateUserPhoto(uid, url)) ==
      if uid in d.users then Some(d.(users := d.users[uid := d.users[uid].(photoURL := Some(url))])) else None
    ensures Apply(d, UpdatePublicPhoto(uid, url)) ==
      if uid in d.publicProfiles then
        Some(d.(publicProfiles := d.publicProfiles[uid := d.publicProfiles[uid].(photoURL := Some(url))]))
      else None
  {
  }

  lemma LikeWritesEffect(d: Docs, p: string, u: Uid, delta: int)
    ensures Apply(d, SetLike(p, u)) == Some(d.(likes := d.likes + {(p, u)}))
    ensures Apply(d, DeleteLike(p, u)) == Some(d.(likes := d.likes - {(p, u)}))
    ensures Apply(d, IncrementLikeCount(p, delta)) ==
      if p in d.posts then Some(d.(posts := d.posts[p := d.posts[p].(likeCount := d.posts[p].likeCount + delta)]))
      else None
  {
  }

  lemma CommentWritesEffect(d: Docs, c: Comment, delta: int)
    ensures Apply(d, SetComment(c)) == Some(d.(comments := d.comments[(c.postId, c.id) := c]))
    ensures Apply(d, IncrementCommentCount(c.postId, delta)) ==
      if c.postId in d.posts then
        Some(d.(posts := d.posts[c.postId := d.posts[c.postId].(commentCount := d.posts[c.postId].commentCount + delta)]))
      else None
  {
  }

  lemma SetSavedEffect(d: Docs, k: SavedKey, item: SavedItem)
    ensures ApplyBatch(d, [SetSaved(k, item)]) == Some(d.(saved := d.saved[k := item]))
  {
    ApplyOne(d, SetSaved(k, item));
  }

  lemma DeleteSavedEffect(d: Docs, k: SavedKey)
    ensures ApplyBatch(d, [DeleteSaved(k)]) == Some(d.(saved := d.saved - {k}))
  {
    ApplyOne(d, DeleteSaved(k));
  }

  lemma AddEventEffect(d: Docs, e: Event)
    ensures ApplyBatch(d, [AddEvent(e)]) == Some(d.(events := d.events + [e]))
  {
    ApplyOne(d, AddEvent(e));
  }

  /** The public profile of `uid`, when it exists. */
  function ProfileOf(d: Docs, uid: Uid): Option<PublicProfile> {
    if uid in d.publicProfiles then Some(d.publicProfiles[uid]) else None
  }

  /** The notifications of `uid`, oldest first; none when the collection is empty. */
  function Inbox(d: Docs, uid: Uid): seq<Notification> {
    if uid in d.notifications then d.notifications[uid] else []
  }

  /** The ids of a list of notifications. */
  function IdsOf(ns: seq<Notification>): set<string> {
    set i | 0 <= i < |ns| :: ns[i].id
  }

  /** Ids are unique within a list, as document ids are within a collection. */
  predicate DistinctIds(ns: seq<Notification>) {
    forall i, j :: 0 <= i < j < |ns| ==> ns[i].id != ns[j].id
  }

  /** Every recipient's notifications have unique ids. */
  predicate InboxesDistinct(d: Docs) {
    forall u :: u in d.notifications ==> DistinctIds(d.notifications[u])
  }

  /** A new notification goes to the end of its recipient's list. */
  lemma AddNotificationEffect(d: Docs, n: Notification)
    ensures ApplyBatch(d, [AddNotification(n)]) ==
      Some(d.(notifications := d.notifications[n.recipientId := Inbox(d, n.recipientId) + [n]]))
  {
    assert Apply(d, AddNotification(n)) ==
      Some(d.(notifications := d.notifications[n.recipientId := Inbox(d, n.recipientId) + [n]])) by {
      AddNotificationApply(d, n);
    }
    ApplyOne(d, AddNotification(n));
  }

  lemma AddNotificationApply(d: Docs, n: Notification)
    ensures Apply(d, AddNotification(n)) ==
      Some(d.(notifications := d.notifications[n.recipientId := Inbox(d, n.recipientId) + [n]]))
  {
  }

  /** Marking one notification read fails when it does not exist. */
  lemma MarkReadEffect(d: Docs, uid: Uid, id: string)
    ensures Apply(d, MarkRead(uid, id)) ==
      if HasId(Inbox(d, uid), id) then Some(d.(notifications := d.notifications[uid := MarkIds(Inbox(d, uid), {id})]))
      else None
  {
  }

  /** Adding a post changes the posts collection and nothing else. */
  lemma AddPostEffect(d: Docs, postId: string, post: Post)
    ensures ApplyBatch(d, [AddPost(postId, post)]) == Some(d.(posts := d.posts[postId := post]))
  {
    ApplyOne(d, AddPost(postId, post));
  }

  /** Applying `a + b` is applying `a`, then `b` to its result. */
  lemma {:induction false} ApplyBatchConcat(d: Docs, a: seq<Write>, b: seq<Write>)
    ensures ApplyBatch(d, a + b) == (match ApplyBatch(d, a) case None => None case Some(d') => ApplyBatch(d', b))
    decreases |a|
  {
    if a == [] {
      assert a + b == b;
    } else {
      assert (a + b)[0] == a[0];
      assert (a + b)[1..] == a[1..] + b;
      match Apply(d, a[0])
      case None =>
      case Some(d') => ApplyBatchConcat(d', a[1..], b);
    }
  }

  // ---------------------------------------------------------------- counters

  /** The like records of post `p`. */
  function LikesOf(d: Docs, p: string): set<(string, Uid)> {
    set k | k in d.likes && k.0 == p
  }

  /** The comment records of post `p`. */
  function CommentsOf(d: Docs, p: string): set<(string, string)> {
    set k | k in d.comments && k.0 == p
  }

  /** The counters of post `p` agree with its like and comment records. */
  predicate CountsInSync(d: Docs, p: string) {
    p in d.posts ==>
      d.posts[p].likeCount == |LikesOf(d, p)| && d.posts[p].commentCount == |CommentsOf(d, p)|
  }

  // ---------------------------------------------------------------- the store

  /** The live store; a commit is the only way the modelled code changes it. */
  class Database {
    var docs: Docs

    constructor (initial: Docs)
      ensures docs == initial
    {
      docs := initial;
    }

    /**
     * `batch.commit()`: the writes are staged one by one and the store takes
     * the result only when the server accepts and every write succeeds.
     */
    method Commit(batch: seq<Write>, accepted: bool) returns (committed: bool)
      modifies this
      ensures committed <==> accepted && ApplyBatch(old(docs), batch).Some?
      ensures docs == (if committed then ApplyBatch(old(docs), batch).value else old(docs))
    {
      if !accepted {
        return false;
      }
      var staged := docs;
      var i := 0;
      while i < |batch|
        invariant 0 <= i <= |batch|
        invariant ApplyBatch(docs, batch) == ApplyBatch(staged, batch[i..])
        decreases |batch| - i
      {
        assert batch[i..][0] == batch[i] && batch[i..][1..] == batch[i + 1..];
        var next := Apply(staged, batch[i]);
        if next.None? {
          return false;
        }
        staged := next.value;
        i := i + 1;
      }
      assert batch[i..] == [];
      docs := staged;
      committed := true;
    }
  }
}
