# cheapbite rules, modelled in Dafny

cheapbite is a recipe-sharing web app on top of a document store. Users write
posts, optionally with a recipe or a grocery list attached. They like and
comment on posts, save attachments to their own collections, and schedule
cooking sessions. A cloud function drops notifications into the author's inbox.

This project models the rules that sit between the UI and the store, and
proves what they promise. It covers:

- the post card's like toggle, comment counter and save button;
- the notification triggers and the notification center's read state;
- the text normalisation behind search terms, tags, usernames and initials;
- the account set-up and the route guards;
- the settings page's validation and dual-record updates;
- the post composer's form and image-analysis state.

The store is one value, `Firestore.Docs`. It holds these collections:

- users, public profiles and usernames;
- posts with their like and comment counters;
- like records keyed by (post, user);
- comments;
- per-user notification lists;
- events and saved items.

Each write the app issues is a `Firestore.Write`. `Firestore.ApplyBatch`
applies a batch left to right. It fails as a whole when an `update` targets a
missing document. `Firestore.Database.Commit` is the single all-or-nothing
step. Its `accepted` parameter stands for the server's verdict (permissions,
network), which is outside the program.

Components that keep React state are classes whose methods change their fields:

- `Posts.PostCard`;
- `Posts.CommentsDialog`;
- `Settings.SettingsPage`;
- `Composer.PostComposer`.

Each handler is specified by a function of the old state. The lemmas about that
function carry the properties. Pure helpers are functions with lemmas.

Modules:

| module | file | models |
|---|---|---|
| `Strings` | strings.dfy | JavaScript `trim`, `toLowerCase`, `split(/\s+/)`, `split(',')`, `join`, `substring`, `filter`, `[...new Set(xs)]`, default `sort` |
| `Types` | types.dfy | the records of src/lib/types.ts the rules touch |
| `Firestore` | firestore.dfy | the store, the writes, batch application and commit |
| `Utils` | utils.dfy | `getInitials` |
| `Actions` | actions.dfy | `generateKeywords` and `createPostWithImage` |
| `Auth` | auth.dfy | `handleNewUser`, the `AuthProvider` redirect and `useRequireAuth` |
| `Settings` | settings.dfy | the settings schema, `onSubmit`, `handleSaveImage` |
| `Posts` | post_card.dfy | the post card and the comments dialog |
| `Notifications` | notifications.dfy | `getSenderData`, `createNotification` and the three triggers |
| `NotificationCenter` | notification_center.dfy | badge count, mark-all, mark-one, click target |
| `Composer` | create_post.dfy | the post composer |

## Model

| member | source | states |
|---|---|---|
| Strings.Lower | src/lib/actions.ts:26 | `toLowerCase()` keeps the length and maps each character by itself |
| Strings.LowerIsLowerCase | src/lib/actions.ts:26 | a lower-cased string has no upper-case letter, and lower-casing twice is lower-casing once |
| Strings.Upper | src/lib/utils.ts:15 | `toUpperCase()` keeps the length and maps each character by itself |
| Strings.Trim | src/lib/utils.ts:9 | `trim()` is empty exactly for all-white-space input, and otherwise starts and ends with a non-space character |
| Strings.TrimRemovesOnlyEnds | src/lib/utils.ts:9 | `trim()` removes white space at the two ends and nothing else: the result is a slice of the input with only white space before and after it |
| Strings.TrimIdempotent | src/lib/utils.ts:12 | trimming twice is trimming once |
| Strings.TrimIgnoresPadding | src/lib/utils.ts:12 | white space added at either end does not change `trim()` |
| Strings.TrimChars | src/lib/actions.ts:67 | trimming only removes characters |
| Strings.SplitWs | src/lib/actions.ts:26 | `split(/\s+/)` yields at least one piece, and no piece holds white space |
| Strings.SplitWsLosesOnlySpace | src/lib/actions.ts:26 | the pieces glued together are the input with its white space removed |
| Strings.SplitWsJoin | src/lib/utils.ts:12 | words joined by single spaces split back into exactly those words |
| Strings.SplitWsInterleave | src/lib/utils.ts:12 | words separated by any non-empty runs of white space split back into exactly those words |
| Strings.SplitWsOfTrimmed | src/lib/utils.ts:12-13 | a string with no white space at either end splits into non-empty pieces only |
| Strings.SplitWsLowerCase | src/context/auth-context.tsx:38 | the pieces of a lower-case string are lower case |
| Strings.ReplaceSpaceRunsIsJoin | src/components/posts/post-card.tsx:384 | `replace(/\s+/g, sep)` equals joining the `split(/\s+/)` pieces with `sep` |
| Strings.ReplaceSpaceRunsShape | src/components/posts/post-card.tsx:384 | replacing the runs with a separator that has no white space leaves no white space, and lower case stays lower case |
| Strings.SplitOn | src/lib/actions.ts:67 | `split(',')` yields at least one piece, and none holds the separator |
| Strings.JoinSplitOn | src/lib/actions.ts:67 | joining the pieces of `split(c)` with `c` gives back the input |
| Strings.BeforeFirst | src/context/auth-context.tsx:31 | `split('@')[0]` is the prefix up to the first separator and holds no separator |
| Strings.Prefix | functions/src/index.ts:103-104 | `substring(0, n)` is the first `min(n, length)` characters |
| Strings.Filter | src/lib/actions.ts:26 | `filter` is never longer than its input, and keeps exactly the elements satisfying the test |
| Strings.FilterKeepsOrder | src/lib/actions.ts:26 | filtering keeps the relative order of the elements it keeps |
| Strings.FilterConcat | src/components/notification-center.tsx:94-99 | filtering a concatenation is concatenating the filtered parts |
| Strings.Dedupe | src/lib/actions.ts:27 | `[...new Set(xs)]` has no duplicates and the same elements as `xs` |
| Strings.DedupeKeepsFirstOccurrenceOrder | src/lib/actions.ts:27 | the deduplicated list is in the order of first occurrence |
| Strings.DedupeOfDistinct | src/lib/actions.ts:27 | a list without duplicates is unchanged |
| Strings.LexLeTotal | src/components/posts/post-card.tsx:488 | the default `sort()` order on strings is total |
| Strings.LexLeAntisymmetric | src/components/posts/post-card.tsx:488 | the default `sort()` order on strings is antisymmetric |
| Types.OrElse | src/lib/actions.ts:47 | the `or` fallback on an optional string is `a` when it is present and non-empty, otherwise `b` |
| Utils.GetInitials | src/lib/utils.ts:8-23 | the result has length 1 or 2 and is upper case; a missing or blank name gives "U" |
| Utils.GetInitialsIgnoresPadding | src/lib/utils.ts:12 | leading and trailing white space do not change the initials |
| Utils.GetInitialsOfWords | src/lib/utils.ts:13-16 | two or more words, separated by any runs of white space, give the upper-cased first letters of the first and the last word |
| Utils.GetInitialsOfWord | src/lib/utils.ts:17-22 | one word gives its first two characters upper-cased, or its only character upper-cased |
| Actions.GenerateKeywords | src/lib/actions.ts:24-28 | "" gives []; the result has no duplicates; it holds exactly the lower-cased words longer than 2; every keyword is lower case with no white space |
| Actions.KeywordsInOrder | src/lib/actions.ts:27 | keywords come in the order of their first occurrence among the words |
| Actions.KeywordsOfDistinctWords | src/lib/actions.ts:26-27 | a text of distinct words longer than 2 gives exactly its words |
| Actions.IngredientKeywords | src/lib/actions.ts:105 | the `flatMap` holds exactly the keywords of some ingredient |
| Actions.NormalizedTags | src/lib/actions.ts:67 | each piece is trimmed and lower-cased, position by position |
| Actions.ParseTags | src/lib/actions.ts:65-68 | every tag is non-empty, lower case, comma-free and trimmed; every non-blank piece gives its tag, and every tag is the trimmed, lower-cased form of some piece |
| Actions.ParseTagsConcat | src/lib/actions.ts:67 | the tags of `a + "," + b` are the tags of `a` followed by those of `b`: order and repeats are kept |
| Actions.ParseTagsOfPiece | src/lib/actions.ts:67 | a comma-free piece gives its trimmed, lower-cased text, or no tag when blank |
| Actions.TagsWellFormed | src/lib/actions.ts:67 | every non-empty normalised piece is lower case, comma-free and trimmed |
| Actions.StripRecipe | src/lib/actions.ts:74 | an embedded recipe has `id` and `savedAt` cleared and its content kept |
| Actions.StripGroceryList | src/lib/actions.ts:79 | an embedded grocery list has `id` and `savedAt` cleared and its content kept |
| Actions.PostSearchTerms | src/lib/actions.ts:98-108 | the terms have no duplicates and are exactly the content keywords, the tags, the recipe-title keywords and the ingredient keywords |
| Actions.AuthorSnapshot | src/lib/actions.ts:46-50 | the author snapshot falls back to 'Anonymous', null and the profile's username |
| Actions.IfTruthy | src/lib/actions.ts:59-63 | an optional text field is kept exactly when it is a non-empty string |
| Actions.NewPost | src/lib/actions.ts:30-120 | missing author gives "User is not authenticated."; missing profile gives "Author profile not found."; otherwise a post with counters 0, public, every field as the form gives it |
| Actions.BuildPost | src/lib/actions.ts:44-108 | the field-by-field construction returns exactly `NewPost` |
| Actions.CreatePostWithImage | src/lib/actions.ts:30-120 | the intended action: under the fresh id that `add()` creates, the post is stored exactly when it was built and the write accepted, an attachment's `undefined` fields being left out; otherwise the store is unchanged |
| Actions.CreatedAsWritten | src/lib/actions.ts:71-119 | as written, an attached recipe or grocery list makes the action report failure and store nothing; without one it agrees with CreatePostWithImage |
| Actions.AttachedPostIsLost | src/lib/actions.ts:74 | a built, accepted post with a recipe is reported failed and not stored, as written |
| Auth.Sanitize | src/context/auth-context.tsx:31 | only lower-case letters and digits remain, and a character is in the result exactly when it is a letter a-z or a digit of the lower-cased input |
| Auth.SanitizeConcat | src/context/auth-context.tsx:31 | sanitising works piece by piece: it distributes over concatenation |
| Auth.SanitizeChar | src/context/auth-context.tsx:31 | one character is lower-cased, then kept exactly when it is a letter a-z or a digit |
| Auth.SanitizeIdempotent | src/context/auth-context.tsx:31 | sanitising twice is sanitising once |
| Auth.LocalPart | src/context/auth-context.tsx:31 | the local part is the prefix of the address that stops at its first '@', or the whole address without one |
| Auth.Username | src/context/auth-context.tsx:31 | the sanitised local part when non-empty, else "user" and the first 5 characters of the uid; never empty |
| Auth.UsernameShape | src/context/auth-context.tsx:31 | a username is lower-case alphanumerics, or a fallback of at most nine characters starting "user" |
| Auth.DisplayName | src/context/auth-context.tsx:36 | the account's display name, else the address's local part, else 'Anonymous User', each fallback stated; never empty |
| Auth.NewUserTerms | src/context/auth-context.tsx:37-40 | no duplicates, no empty term, contains the username, and holds exactly the lower-cased display-name words and the username |
| Auth.NewUserTermsLowerCase | src/context/auth-context.tsx:37-40 | every term but the username is lower case |
| Auth.NewUserRecord | src/context/auth-context.tsx:42-55 | the private record: uid, username, display name, photo or null, 'Just joined!', empty follower lists, zero counts |
| Auth.NewPublicProfile | src/context/auth-context.tsx:57-68 | the public record mirrors the private one, lower-cases the display name and carries the search terms |
| Auth.WithNewUser | src/context/auth-context.tsx:72-74 | the three sets write the private record, the public record and the username reservation, and nothing else |
| Auth.NewUserBatchEffect | src/context/auth-context.tsx:72-74 | the three-write batch always applies and gives `WithNewUser` |
| Auth.NewUserRecordsAgree | src/context/auth-context.tsx:57-74 | afterwards the public profile mirrors the private record and the username maps to the uid |
| Auth.HandleNewUser | src/context/auth-context.tsx:25-88 | an existing account writes nothing; otherwise the batch commits exactly when accepted |
| Auth.AuthRedirect | src/context/auth-context.tsx:91-108 | a signed-in user on /login or /signup goes to '/'; an anonymous user goes to /login unless on an auth page, a listed public path or a single-segment path; nothing while loading |
| Auth.SingleSegmentPathsStayOpen | src/context/auth-context.tsx:101 | /settings and /messages are open to anonymous users, while /profile/abc redirects |
| Auth.RequireAuthRedirect | src/context/auth-context.tsx:133-151 | an anonymous user goes to /login unless on a listed public path, a /profile/{id} path or '/' |
| Auth.GuardsAgreeOnPublicPages | src/context/auth-context.tsx:100-101 | on the listed public paths both guards stay put |
| Settings.Invalid | src/components/settings/page.tsx:28-33 | the failing fields are exactly: display name under 2, bad e-mail, bio over 160, gender not listed |
| Settings.ValidBounds | src/components/settings/page.tsx:28-33 | a form is valid exactly within those bounds |
| Settings.PrivateUpdate | src/components/settings/page.tsx:173-177 | the private update carries display name, bio and gender, and no e-mail |
| Settings.PublicTerms | src/components/settings/page.tsx:184-187 | no duplicates, contains the username, and holds exactly the lower-cased display-name words and the username |
| Settings.PublicTermsKeepEmptyWord | src/components/settings/page.tsx:184-187 | a display name starting with white space puts "" into the terms, since no empty-string filter is applied |
| Settings.PublicTermsLowerCase | src/components/settings/page.tsx:184-187 | every term but the username is lower case |
| Settings.ProfileSaved | src/components/settings/page.tsx:173-191 | both records get the same display name, bio and gender; the public one gets the lower-cased name and the terms; nothing else changes |
| Settings.SubmitBatchEffect | src/components/settings/page.tsx:190-191 | the two updates apply exactly when the public profile exists too |
| Settings.ProfileSavedAgrees | src/components/settings/page.tsx:173-188 | afterwards the two records agree on display name, bio and gender; e-mail and username are untouched |
| Settings.PhotoSaved | src/components/settings/page.tsx:132-135 | both records get the same photo URL and nothing else changes |
| Settings.PhotoBatchEffect | src/components/settings/page.tsx:132-135 | the two updates apply exactly when both records exist |
| Settings.SettingsPage.SelectImage | src/components/settings/page.tsx:100-110 | a chosen file replaces the previous one; no choice keeps it |
| Settings.SettingsPage.SaveImage | src/components/settings/page.tsx:112-166 | nothing without a file or an account; otherwise the photo is saved exactly when uploaded and accepted, the file is cleared on success, and the upload flag ends false |
| Settings.SettingsPage.Submit | src/components/settings/page.tsx:168-193 | the profile is saved exactly when the form is valid, the records are loaded and the write is accepted |
| Notifications.SenderData | functions/src/index.ts:66-76 | a missing profile gives "Someone" and null; otherwise the profile's name or "Someone", and its photo exactly when that photo is a non-empty string |
| Notifications.Snippet | functions/src/index.ts:103-104 | at most 50 characters, a prefix of the text, the whole text when it is short |
| Notifications.Delivered | functions/src/index.ts:55-62 | the stored notification is the payload plus the recipient and `read = false` |
| Notifications.WithNotification | functions/src/index.ts:55-57 | the notification is appended to its recipient's list; nothing else changes |
| Notifications.CreateNotification | functions/src/index.ts:47-63 | nothing is written when the recipient is the sender; otherwise exactly one notification, under an id new to the recipient's list, is appended when accepted, and every list keeps unique ids |
| Notifications.WithNotificationKeepsIdsDistinct | functions/src/index.ts:55-62 | a notification added under a fresh id keeps the ids of every recipient's list unique |
| Notifications.CommentNotification | functions/src/index.ts:98-105 | type comment from the comment's author, with the post id, and post content and comment text that are their `Snippet`s (at most 50 characters, a prefix) |
| Notifications.LikeNotification | functions/src/index.ts:116-133 | type like from the liker, whose uid is the like record's id, with the post id, no comment text, and post content that is its `Snippet` (at most 50 characters, a prefix) |
| Notifications.OnNewComment | functions/src/index.ts:79-109 | under a fresh notification id: nothing without comment data or the post; otherwise the post's author is notified unless they commented themselves |
| Notifications.OnNewLike | functions/src/index.ts:112-137 | under a fresh notification id: nothing without the post; otherwise the post's author is notified unless they liked it themselves |
| Notifications.OnNewFollow | functions/src/index.ts:140-174 | only logs, and only when the follower count rose; the store is never written |
| NotificationCenter.Shown | src/components/notification-center.tsx:81 | at most 20 notifications, newest first |
| NotificationCenter.UnreadCountZero | src/components/notification-center.tsx:86-89 | the count is 0 exactly when every notification is read |
| NotificationCenter.UnreadCountCons | src/components/notification-center.tsx:88 | the count is the first notification's contribution plus the rest's |
| NotificationCenter.NewNotificationRaisesCount | src/components/notification-center.tsx:86-89 | an unread arrival raises the count by one |
| NotificationCenter.BadgeAtMostTwenty | src/components/notification-center.tsx:81-89 | the badge never exceeds 20 |
| NotificationCenter.MarkWrites | src/components/notification-center.tsx:96-97 | one `read: true` update per notification, in order |
| NotificationCenter.BuildMarkAllBatch | src/components/notification-center.tsx:93-99 | the `forEach` builds one update per unread shown notification, as many as the badge shows |
| NotificationCenter.MarkWritesEffect | src/components/notification-center.tsx:94-100 | updates of existing notifications mark exactly their ids read; nothing else changes |
| NotificationCenter.MarkIdsTwice | src/components/notification-center.tsx:94-99 | marking two id sets in turn is marking their union |
| NotificationCenter.MarkIdsNone | src/components/notification-center.tsx:95 | marking ids that are absent or already read changes nothing |
| NotificationCenter.MarkShownClearsBadge | src/components/notification-center.tsx:91-100 | after mark-all the badge is 0 |
| NotificationCenter.MarkShownIdempotent | src/components/notification-center.tsx:91-100 | marking all read twice is marking once |
| NotificationCenter.OlderStayAsTheyWere | src/components/notification-center.tsx:81-99 | notifications beyond the newest 20 keep their read flag |
| NotificationCenter.MarkedAll | src/components/notification-center.tsx:91-100 | only the viewer's list changes, it becomes the marked list, and every other collection is stated unchanged |
| NotificationCenter.MarkAllBatchEffect | src/components/notification-center.tsx:93-100 | the mark-all batch always applies and gives `MarkedAll` |
| NotificationCenter.MarkAllAsRead | src/components/notification-center.tsx:91-101 | nothing without a viewer or with a badge of 0; otherwise it commits when accepted, the badge is then 0, and every list keeps unique ids |
| NotificationCenter.MarkOneLowersCount | src/components/notification-center.tsx:103-107 | with unique ids, marking one unread notification lowers the count by exactly one |
| NotificationCenter.MarkOneAsRead | src/components/notification-center.tsx:103-107 | one update that marks only the given id; it fails when the notification is missing; every list keeps unique ids |
| NotificationCenter.MarkKeepsIdsDistinct | src/components/notification-center.tsx:91-107 | marking notifications read never breaks the uniqueness of ids in any list |
| NotificationCenter.ClickTarget | src/components/notification-center.tsx:22-31 | a follow leads to `/{senderId}`; any other kind leads to `/{recipientId}?post={postId}` exactly when a non-empty postId exists, and nowhere otherwise |
| NotificationCenter.TriggeredNotificationTarget | src/components/notification-center.tsx:26-29 | a delivered like or comment leads to /{recipientId}?post={postId} |
| NotificationCenter.Click | src/components/notification-center.tsx:22-31 | targets `ClickTarget`; without a viewer the store is unchanged; otherwise it commits exactly when accepted and the notification exists, marking only that id, and the store is unchanged when it does not commit |
| Firestore.MarkIds | src/components/notification-center.tsx:97 | exactly the listed ids are set read; ids, order and everything else are kept |
| Firestore.ApplyBatchConcat | src/components/notification-center.tsx:93-100 | applying a + b is applying a, then b |
| Firestore.Database.Commit | src/components/posts/post-card.tsx:358 | all or nothing: the store takes the batch's result exactly when accepted and every write applies |
| Posts.GetScoreColor | src/components/posts/post-card.tsx:271-276 | red up to 25, orange up to 50, yellow up to 75, green above, each as an if-and-only-if |
| Posts.ScoreColorMonotone | src/components/posts/post-card.tsx:271-276 | a higher score never gets a worse colour |
| Posts.ElapsedSeconds | src/components/posts/post-card.tsx:398 | the whole seconds elapsed, floored: `r * 1000 <= now - created < r * 1000 + 1000`, never negative for a past time |
| Posts.UnitSeconds | src/components/posts/post-card.tsx:399-404 | the unit lengths 31536000, 2592000, 86400, 3600, 60 and 1 seconds |
| Posts.TimeAgo | src/components/posts/post-card.tsx:396-405 | the largest unit whose ratio exceeds 1, else seconds; the count is the floored ratio |
| Posts.TimeAgoCountBounds | src/components/posts/post-card.tsx:399-404 | every unit but seconds shows at least 1 and at most what fits in the next unit |
| Posts.TimeAgoAtOneMinute | src/components/posts/post-card.tsx:403-404 | 60 seconds is "60s ago" and 61 is "1m ago" |
| Posts.ChatId | src/components/posts/post-card.tsx:488 | the two uids in sort order joined with '-': `a-b` when `a` sorts first, `b-a` otherwise |
| Posts.ChatIdSymmetric | src/components/posts/post-card.tsx:488 | both parties compute the same id |
| Posts.ItemToSave | src/components/posts/post-card.tsx:372 | the first attachment present, each case stated in the order recipe, drink, list, label; none exactly when there is no attachment |
| Posts.SaveCollection | src/components/posts/post-card.tsx:378-382 | the collection of the last attachment present, each case stated in the order label, list, drink, recipe; none exactly when there is nothing to save |
| Posts.SaveTargetsAgree | src/components/posts/post-card.tsx:372-382 | with at most one attachment the item goes to its own collection |
| Posts.SaveTargetsDisagree | src/components/posts/post-card.tsx:372-382 | a recipe with a grocery list is saved into the grocery lists |
| Posts.SlugShape | src/components/posts/post-card.tsx:384 | the slug is lower case, has no white space, and is the lower-cased words joined by '-' |
| Posts.SavedItemId | src/components/posts/post-card.tsx:384 | the id is the item name's lower-cased words joined by '-', then '-' and the post id |
| Posts.SaveKey | src/components/posts/post-card.tsx:387-390 | a key exists exactly when there is something to save, under the user, the collection and the item id |
| Posts.SessionEvent | src/components/posts/post-card.tsx:514-524 | title, description, creator, participants = attendees = [creator], status scheduled, one hour long |
| Posts.SessionIsAboutARecipeOrDrink | src/components/posts/post-card.tsx:509 | a schedulable post has a recipe or a drink |
| Posts.ItemNames | src/components/posts/post-card.tsx:548 | the item names in order |
| Posts.OrderIngredients | src/components/posts/post-card.tsx:547-549 | grocery-list names first, else recipe ingredients, else drink ingredients, each case stated; none exactly when none is attached |
| Posts.OrderQuery | src/components/posts/post-card.tsx:550 | the query is never empty |
| Posts.OrderQueryFallback | src/components/posts/post-card.tsx:550 | "groceries" exactly for no list, an empty one or one empty name; otherwise the names joined by ", " |
| Posts.OrderUrl | src/components/posts/post-card.tsx:552-561 | the query sits intact between the service's prefix and suffix |
| Posts.AfterLike | src/components/posts/post-card.tsx:350-356 | the like record flipped and the counter moved by exactly −1 or +1; nothing else changes |
| Posts.LikeBatchEffect | src/components/posts/post-card.tsx:347-356 | the toggle batch applies exactly when the post exists, and gives `AfterLike` |
| Posts.LikeToggleRoundTrip | src/components/posts/post-card.tsx:350-356 | toggling back undoes a toggle |
| Posts.LikeKeepsCounts | src/components/posts/post-card.tsx:330-356 | a toggle whose flag mirrors the store keeps every counter equal to its records |
| Posts.StaleLikeDrifts | src/components/posts/post-card.tsx:342-355 | a stale "not liked" flag pushes the counter one above the records |
| Posts.CommentAuthor | src/components/posts/post-card.tsx:184-188 | the comment's author is the account's name and photo, with the address's local part or "" as username |
| Posts.AfterComment | src/components/posts/post-card.tsx:193-195 | the comment stored and the counter raised by exactly one; nothing else changes |
| Posts.CommentBatchEffect | src/components/posts/post-card.tsx:193-197 | the comment batch applies exactly when the post exists, and gives `AfterComment` |
| Posts.CommentKeepsCounts | src/components/posts/post-card.tsx:193-195 | a comment under a fresh id keeps every counter equal to its records |
| Posts.PostCard.CheckLiked | src/components/posts/post-card.tsx:330-337 | the flag becomes whether the like record exists |
| Posts.PostCard.CheckSaved | src/components/posts/post-card.tsx:411-418 | the flag becomes whether the saved record exists |
| Posts.PostCard.ToggleLike | src/components/posts/post-card.tsx:339-368 | on commit the flag flips and the count moves by ±1; on failure both are restored; the store-mirroring invariant is kept |
| Posts.PostCard.SaveItem | src/components/posts/post-card.tsx:431-453 | nothing without a key; otherwise the flag flips and the record is removed or written when accepted |
| Posts.PostCard.CreateEvent | src/components/posts/post-card.tsx:508-537 | refused without a user, a date or for list and label posts; otherwise the session event is appended when accepted and the dialog closes |
| Posts.CommentsDialog.Edit | src/components/posts/post-card.tsx:258 | typing replaces the draft |
| Posts.CommentsDialog.Submit | src/components/posts/post-card.tsx:171-211 | under a fresh comment id: a blank draft or no user writes nothing; otherwise the comment batch commits exactly when accepted and the post exists, and the draft is cleared on success |
| Composer.Initial | src/components/posts/create-post.tsx:34-47 | every field empty, no attachment, no analysis, dialogs closed |
| Composer.AbortEffect | src/components/posts/create-post.tsx:99-101 | an abort marks the controller's analysis aborted and no other |
| Composer.WithRecipe | src/components/posts/create-post.tsx:145-153 | the recipe attached, the grocery list dropped, the dialog closed, nothing else changed |
| Composer.WithGroceryList | src/components/posts/create-post.tsx:155-163 | the list attached, the recipe dropped, the dialog closed, nothing else changed |
| Composer.AttachmentsExclusive | src/components/posts/create-post.tsx:145-163 | at most one attachment after either selection, and the last one wins |
| Composer.ImageChanged | src/components/posts/create-post.tsx:93-105 | image set, spinner on, result cleared, the earlier analyses exactly `Aborted` by the old controller, and a new one started with the current content |
| Composer.AnalysisDone | src/components/posts/create-post.tsx:106-122 | an aborted analysis changes nothing; a live one shows its result, stops the spinner and fills only content that was empty when the image was chosen |
| Composer.AnalysisErred | src/components/posts/create-post.tsx:113-122 | an aborted analysis changes nothing; a live one only stops the spinner |
| Composer.AnalysisCancelled | src/components/posts/create-post.tsx:65-71 | spinner off, result dropped, no analysis live, the controller's analysis aborted, and every other field of the draft kept |
| Composer.Reset | src/components/posts/create-post.tsx:73-91 | every field cleared and the running analysis aborted; the dialogs are untouched |
| Composer.ResetIgnoresLoading | src/components/posts/create-post.tsx:194-207 | the loading flag makes no difference to what a reset leaves |
| Composer.ImageChangedKeepsValid | src/components/posts/create-post.tsx:93-105 | starting an analysis keeps the composer invariant |
| Composer.SettlingKeepsValid | src/components/posts/create-post.tsx:65-122 | settling, cancelling and resetting keep the composer invariant |
| Composer.StaleAnalysisIgnored | src/components/posts/create-post.tsx:99-122 | once a newer image is chosen, older analyses change nothing when they settle |
| Composer.NewestAnalysisApplies | src/components/posts/create-post.tsx:106-111 | the newest analysis shows its result and fills an empty draft, keeping one that had text |
| Composer.CancelSilencesAnalyses | src/components/posts/create-post.tsx:65-91 | after a cancel or a reset no settling analysis changes anything |
| Composer.PostError | src/components/posts/create-post.tsx:165-173 | "You must be logged in to post." without a user; otherwise "Please add some content to your post." exactly for blank content with no image or attachment |
| Composer.AttachmentMakesPostable | src/components/posts/create-post.tsx:170 | an attachment always makes the draft postable |
| Composer.BlankIsRefused | src/components/posts/create-post.tsx:170-173 | a cleared draft is refused as empty |
| Composer.Optional | src/components/posts/create-post.tsx:182-184 | an optional field is sent exactly when its trim is non-empty, and is sent trimmed |
| Composer.Form | src/components/posts/create-post.tsx:177-187 | the form carries the author, the raw content, the trimmed optional fields, the attachments, and the uploaded image URL exactly when a file was chosen |
| Composer.SentFieldsArrive | src/components/posts/create-post.tsx:177-190 | the action builds the post with the content, location and video link as sent, the tags parsed from the trimmed tag text, each attachment stripped, at most one attachment, and the uploaded image URL exactly when a file was chosen |
| Composer.PostComposer.EditContent | src/components/posts/create-post.tsx:225 | typing replaces the content and nothing else |
| Composer.PostComposer.SelectRecipe | src/components/posts/create-post.tsx:145-153 | the component becomes `WithRecipe` of its old state |
| Composer.PostComposer.SelectGroceryList | src/components/posts/create-post.tsx:155-163 | the component becomes `WithGroceryList` of its old state |
| Composer.PostComposer.AbortController | src/components/posts/create-post.tsx:99-101 | the controller's analysis is aborted |
| Composer.PostComposer.ImageChange | src/components/posts/create-post.tsx:93-123 | the component becomes `ImageChanged` of its old state, and the ticket names the new analysis |
| Composer.PostComposer.AnalysisSucceeded | src/components/posts/create-post.tsx:106-122 | the component becomes `AnalysisDone` of its old state |
| Composer.PostComposer.AnalysisFailed | src/components/posts/create-post.tsx:113-122 | the component becomes `AnalysisErred` of its old state |
| Composer.PostComposer.CancelAnalysis | src/components/posts/create-post.tsx:65-71 | the component becomes `AnalysisCancelled` of its old state |
| Composer.PostComposer.ResetState | src/components/posts/create-post.tsx:73-91 | the component becomes `Reset` of its old state |
| Composer.PostComposer.HandlePost | src/components/posts/create-post.tsx:165-209 | a refused draft changes nothing; otherwise success exactly when the action built the post and the write was accepted, then the post is stored and the draft reset, else the draft is kept with loading off |
| Composer.PostComposer.Send | src/components/posts/create-post.tsx:175-208 | the part after the checks meets the same outcome |

## Left out

- I/O is outside the model: image upload and `makePublic`, `getDownloadURL`, toasts, routing pushes, `console` output, `serverTimestamp`.
  - The uploaded image's public URL is a parameter, `uploadedUrl` or `uploaded`.
  - The server's verdict on a commit is the `accepted` parameter.
- The image-analysis flow is a hosted language model, so its result is a parameter of `Composer.AnalysisDone`.
- `createdAt` is not stored. A recipient's list is kept in creation order, and the query's `orderBy('createdAt', 'desc')` becomes reading that list from the end.
- `savedAt` on a saved item is not stored, because it is a server timestamp.
- The clock is not read: the current time and the post's time are parameters of `Posts.ElapsedSeconds`, and `Posts.TimeAgo` takes whole seconds, so the `real` ratio is compared exactly rather than in floating point.
- Posts.GetScoreColor: the score is a `real`, and NaN is not modelled.
- Strings.Lower and Strings.Upper map ASCII letters only. JavaScript's full Unicode case mapping is not modelled.
- Settings.Invalid: whether the e-mail address is well formed is a parameter `emailOk`, because the schema library's e-mail pattern is not part of this model.
- The `firestore`, `storage` and ref null checks are not modelled separately. A missing user or a missing record stands for them.
- Promise ordering between in-flight commits is not modelled. Each commit is one atomic step, and each analysis settles at most once.
- The click handler's `onRead` and its navigation run in sequence in `NotificationCenter.Click`; navigation is returned as a value.
- `handleSendMessage` beyond its chat id, `handleDeletePost`, `handleGenerateImage`, `handleLocationClick`, `getVideoEmbedUrl`, the read-aloud player and rendering are not part of this model.
- The dialogs' open handlers and the camera capture are not modelled. Only the fields the modelled handlers change are kept.
- `URL encoding` of the order query is not modelled. `Posts.OrderUrl` takes the query before encoding.
- The AI flows and their prompt text are not part of this model.
- NotificationCenter.MarkAllAsRead marks only the newest 20 shown notifications, as the source does. Older unread ones stay unread, and `NotificationCenter.OlderStayAsTheyWere` states this.
- Strings count Unicode code points, while JavaScript strings count UTF-16 code units. The two agree on text without characters outside the Basic Multilingual Plane, such as emoji; the lines below name what differs on such text.
- Actions.GenerateKeywords: the "longer than 2" test counts code points, so "🍕🍕" (four code units in JavaScript) gives no keyword here.
- Notifications.Snippet: `substring(0, 50)` keeps 50 code points here, where JavaScript keeps 50 code units and can split a surrogate pair.
- Strings.Prefix: the same code-point counting applies to every `substring(0, n)` it models.
- Settings.Invalid: the length bounds of the schema count code points here, code units in JavaScript.
- Utils.GetInitials: the first character of a word is a whole code point here; JavaScript can take half of a surrogate pair.
- Posts.ChatId: the default `sort()` compares code units, while `LexLe` compares code points; the two orders differ only when characters above U+FFFF meet characters between U+E000 and U+FFFF.
- Actions.CreatePostWithImage: the stripped `id` and `savedAt` of an attachment are treated as absent, as with `ignoreUndefinedProperties`. With the default settings the source uses, `add()` refuses such a post; `Actions.CreatedAsWritten` models that, and "## Findings" records it.
- The ids that `add()` creates are parameters, required to be new to their collection (`Actions.CreatePostWithImage`, `Notifications.CreateNotification`, `Posts.CommentsDialog.Submit`).
- `notification-center.tsx` calls `doc` without importing it. The model gives the update the evidently intended meaning: mark `users/{uid}/notifications/{id}` read.

## Findings

| source | as written | input that shows it | evidently intended | confidence | as-written member | corrected member |
|---|---|---|---|---|---|---|
| src/lib/actions.ts:74 | an attached recipe or grocery list is embedded as `{ ...item, id: undefined, savedAt: undefined }`, and `getFirestore()` (actions.ts:21) keeps the default that refuses `undefined` values, so `add()` at actions.ts:112 throws and the catch reports failure | a form from a signed-in author with a public profile and a recipe attached | the post is stored with the item's `id` and `savedAt` left out | not executed; rests on the Admin SDK's documented default for `ignoreUndefinedProperties` | Actions.CreatedAsWritten, Actions.AttachedPostIsLost | Actions.CreatePostWithImage |
