/**
 * A post in the feed (src/components/posts/post-card.tsx): the like toggle
 * with its optimistic flag and counter, the comment dialog, saving the
 * attached item, scheduling a cooking session, and the small derivations the
 * card shows (score colour, "time ago", chat id, order query).
 */
module Posts {
  import opened Types
  import opened Strings
  import opened Firestore
  import Auth

  // ---------------------------------------------------------------- score colour

  /** The bar colours of `getScoreColor`: bg-red-500, bg-orange-500, bg-yellow-500, bg-green-500. */
  datatype ScoreColor = Red | Orange | Yellow | Green

  function Rank(c: ScoreColor): nat {
    match c
    case Red => 0
    case Orange => 1
    case Yellow => 2
    case Green => 3
  }

  /** `getScoreColor`: red up to 25, orange up to 50, yellow up to 75, green above. */
  function GetScoreColor(score: real): (c: ScoreColor)
    ensures c == Red <==> score <= 25.0
    ensures c == Orange <==> 25.0 < score <= 50.0
    ensures c == Yellow <==> 50.0 < score <= 75.0
    ensures c == Green <==> 75.0 < score
  {
    if score <= 25.0 then Red
    else if score <= 50.0 then Orange
    else if score <= 75.0 then Yellow
    else Green
  }

  /** A higher score never gets a worse colour. */
  lemma ScoreColorMonotone(a: real, b: real)
    requires a <= b
    ensures Rank(GetScoreColor(a)) <= Rank(GetScoreColor(b))
  {
  }

  // ---------------------------------------------------------------- time ago

  datatype TimeUnit = Years | Months | Days | Hours | Minutes | Seconds

  /** The length of each unit in seconds: 365 days, 30 days, a day, an hour, a minute, a second. */
  function UnitSeconds(u: TimeUnit): (n: nat)
    ensures n >= 1
  {
    match u
    case Years => 31536000
    case Months => 2592000
    case Days => 86400
    case Hours => 3600
    case Minutes => 60
    case Seconds => 1
  }

  /** The text after the number: "y ago", "mo ago", "d ago", "h ago", "m ago", "s ago". */
  function Suffix(u: TimeUnit): string {
    match u
    case Years => "y ago"
    case Months => "mo ago"
    case Days => "d ago"
    case Hours => "h ago"
    case Minutes => "m ago"
    case Seconds => "s ago"
  }

  /** A "time ago" label: a whole number of one unit. */
  datatype Ago = Ago(count: int, unit: TimeUnit)

  /**
   * `Math.floor((now - created) / 1000)` on millisecond times; with a positive
   * divisor Dafny's division is the floor.
   */
  function ElapsedSeconds(nowMs: int, createdMs: int): (r: int)
    ensures r * 1000 <= nowMs - createdMs < r * 1000 + 1000
    ensures nowMs >= createdMs ==> r >= 0
  {
    (nowMs - createdMs) / 1000
  }

  /**
   * `calculateTimeAgo`: the largest unit of which more than one has elapsed,
   * with the floor of the ratio; seconds when not even a minute and a bit has
   * passed.
   */
  function TimeAgo(seconds: int): (r: Ago)
    ensures r.unit == Seconds || seconds > UnitSeconds(r.unit)
    ensures forall u :: UnitSeconds(u) > UnitSeconds(r.unit) ==> seconds <= UnitSeconds(u)
    ensures r.count == seconds / UnitSeconds(r.unit)
  {
    if seconds as real / 31536000.0 > 1.0 then Ago(seconds / 31536000, Years)
    else if seconds as real / 2592000.0 > 1.0 then Ago(seconds / 2592000, Months)
    else if seconds as real / 86400.0 > 1.0 then Ago(seconds / 86400, Days)
    else if seconds as real / 3600.0 > 1.0 then Ago(seconds / 3600, Hours)
    else if seconds as real / 60.0 > 1.0 then Ago(seconds / 60, Minutes)
    else Ago(seconds, Seconds)
  }

  /** Every unit but seconds shows at least 1 and never more than fit in the next larger unit. */
  lemma TimeAgoCountBounds(seconds: int)
    ensures var r := TimeAgo(seconds);
      && (r.unit != Seconds ==> r.count >= 1)
      && (r.unit == Months ==> r.count <= 12)
      && (r.unit == Days ==> r.count <= 30)
      && (r.unit == Hours ==> r.count <= 24)
      && (r.unit == Minutes ==> r.count <= 60)
      && (r.unit == Seconds ==> r.count <= 60)
  {
    var r := TimeAgo(seconds);
    assert seconds <= UnitSeconds(Years) || r.unit == Years;
  }

  /** Exactly one minute is still "60s ago"; the next second is "1m ago". */
  lemma TimeAgoAtOneMinute()
    ensures TimeAgo(60) == Ago(60, Seconds)
    ensures TimeAgo(61) == Ago(1, Minutes)
  {
  }

  // ---------------------------------------------------------------- chat id

  /** `[a, b].sort().join('-')`: the conversation id of two accounts. */
  function ChatId(a: Uid, b: Uid): (r: string)
    ensures LexLe(a, b) ==> r == a + "-" + b
    ensures !LexLe(a, b) ==> r == b + "-" + a
  {
    var pair := if LexLe(a, b) then [a, b] else [b, a];
    assert pair[1..] == [pair[1]];
    assert Join(pair, "-") == pair[0] + "-" + pair[1];
    Join(pair, "-")
  }

  /** Either account computes the same conversation id. */
  lemma ChatIdSymmetric(a: Uid, b: Uid)
    ensures ChatId(a, b) == ChatId(b, a)
  {
    LexLeTotal(a, b);
    if LexLe(a, b) && LexLe(b, a) {
      LexLeAntisymmetric(a, b);
    }
  }

  // ---------------------------------------------------------------- the saved item

  /** `recipe || beverageRecipe || groceryList || productLabel`: the first attachment present. */
  function ItemToSave(p: Post): (r: Option<SavedItem>)
    ensures r.None? <==>
      p.recipe.None? && p.beverageRecipe.None? && p.groceryList.None? && p.productLabel.None?
    ensures p.recipe.Some? ==> r == Some(SavedRecipe(p.recipe.value))
    ensures p.recipe.None? && p.beverageRecipe.Some? ==> r == Some(SavedBeverage(p.beverageRecipe.value))
    ensures p.recipe.None? && p.beverageRecipe.None? && p.groceryList.Some? ==>
      r == Some(SavedGroceryList(p.groceryList.value))
    ensures p.recipe.None? && p.beverageRecipe.None? && p.groceryList.None? && p.productLabel.Some? ==>
      r == Some(SavedProductLabel(p.productLabel.value))
  {
    if p.recipe.Some? then Some(SavedRecipe(p.recipe.value))
    else if p.beverageRecipe.Some? then Some(SavedBeverage(p.beverageRecipe.value))
    else if p.groceryList.Some? then Some(SavedGroceryList(p.groceryList.value))
    else if p.productLabel.Some? then Some(SavedProductLabel(p.productLabel.value))
    else None
  }

  /** `savedItemCollection`: the four `if`s run in order, so the last attachment present decides. */
  function SaveCollection(p: Post): (r: Option<SavedCollection>)
    ensures r.None? <==> ItemToSave(p).None?
    ensures p.productLabel.Some? ==> r == Some(ProductLabels)
    ensures p.productLabel.None? && p.groceryList.Some? ==> r == Some(GroceryLists)
    ensures p.productLabel.None? && p.groceryList.None? && p.beverageRecipe.Some? ==> r == Some(SavedBeverages)
    ensures p.productLabel.None? && p.groceryList.None? && p.beverageRecipe.None? && p.recipe.Some? ==>
      r == Some(SavedRecipes)
  {
    var c := None;
    var c := if p.recipe.Some? then Some(SavedRecipes) else c;
    var c := if p.beverageRecipe.Some? then Some(SavedBeverages) else c;
    var c := if p.groceryList.Some? then Some(GroceryLists) else c;
    if p.productLabel.Some? then Some(ProductLabels) else c
  }

  /** The collection an item belongs in. */
  function CollectionOf(item: SavedItem): SavedCollection {
    match item
    case SavedRecipe(_) => SavedRecipes
    case SavedBeverage(_) => SavedBeverages
    case SavedGroceryList(_) => GroceryLists
    case SavedProductLabel(_) => ProductLabels
  }

  function AttachmentCount(p: Post): nat {
    (if p.recipe.Some? then 1 else 0) + (if p.beverageRecipe.Some? then 1 else 0)
    + (if p.groceryList.Some? then 1 else 0) + (if p.productLabel.Some? then 1 else 0)
  }

  /** With at most one attachment the item is saved to its own collection. */
  lemma SaveTargetsAgree(p: Post)
    requires AttachmentCount(p) <= 1
    ensures ItemToSave(p).Some? ==> SaveCollection(p) == Some(CollectionOf(ItemToSave(p).value))
  {
  }

  /** With a recipe and a grocery list the recipe is saved into the grocery lists. */
  lemma SaveTargetsDisagree(p: Post)
    requires p.recipe.Some? && p.groceryList.Some? && p.productLabel.None?
    ensures ItemToSave(p) == Some(SavedRecipe(p.recipe.value))
    ensures SaveCollection(p) == Some(GroceryLists) != Some(CollectionOf(ItemToSave(p).value))
  {
  }

  /** The name an item is known by: its title, or a product label's product name. */
  function ItemName(item: SavedItem): string {
    match item
    case SavedRecipe(r) => r.title
    case SavedBeverage(b) => b.title
    case SavedGroceryList(g) => g.title
    case SavedProductLabel(l) => l.productName
  }

  /** `name.toLowerCase().replace(/\s+/g, '-')`. */
  function Slug(name: string): string {
    ReplaceSpaceRuns(Lower(name), "-")
  }

  /** A slug is lower case without white space, and is the lower-cased words joined by '-'. */
  lemma SlugShape(name: string)
    ensures NoSpace(Slug(name)) && IsLowerCase(Slug(name))
    ensures Slug(name) == Join(SplitWs(Lower(name)), "-")
  {
    var s := Lower(name);
    assert IsLowerCase(s) by { LowerIsLowerCase(name); }
    assert NoSpace("-") && IsLowerCase("-");
    ReplaceSpaceRunsShape(s, "-");
    ReplaceSpaceRunsIsJoin(s, "-");
  }

  /** `savedItemId`: the slug of the item's name, '-', and the post id. */
  function SavedItemId(item: SavedItem, postId: string): (r: string)
    ensures |r| > |postId| && r[|r| - |postId|..] == postId && r[|r| - |postId| - 1] == '-'
    ensures r[..|r| - |postId| - 1] == Join(SplitWs(Lower(ItemName(item))), "-")
    ensures NoSpace(postId) ==> NoSpace(r)
  {
    SlugShape(ItemName(item));
    var slug := Slug(ItemName(item));
    var r := slug + "-" + postId;
    assert r[..|slug|] == slug;
    r
  }

  /** `users/{uid}/{savedItemCollection}/{savedItemId}`, when the post has something to save. */
  function SaveKey(uid: Uid, p: Post, postId: string): (r: Option<SavedKey>)
    ensures r.Some? <==> ItemToSave(p).Some?
    ensures r.Some? ==>
      r.value.uid == uid && r.value.collection == SaveCollection(p).value
      && r.value.itemId == SavedItemId(ItemToSave(p).value, postId)
  {
    match ItemToSave(p)
    case None => None
    case Some(item) => Some(SavedKey(uid, SaveCollection(p).value, SavedItemId(item, postId)))
  }

  // ---------------------------------------------------------------- cooking session

  const OneHourMs: int := 60 * 60 * 1000
  const SessionLocation: string := "My Kitchen/Bar"

  /** A session can be scheduled from a recipe or a drink, not from a grocery list or a product label. */
  predicate CanScheduleSession(p: Post) {
    ItemToSave(p).Some? && p.groceryList.None? && p.productLabel.None?
  }

  /** The event of `handleCreateEvent`, starting at `startMs`. */
  function SessionEvent(uid: Uid, p: Post, startMs: int): (e: Event)
    requires CanScheduleSession(p)
    ensures var title := ItemName(ItemToSave(p).value);
      && e.title == (if p.recipe.Some? then "Cooking" else "Mixing") + " Session: " + title
      && e.description == "Let's make \"" + title + "\" together!"
    ensures e.createdBy == uid && e.participantIds == [uid] && e.attendees == [uid]
    ensures e.startTime == startMs && e.endTime - e.startTime == 3600000
    ensures e.location == SessionLocation && e.status == Scheduled
  {
    var title := ItemName(ItemToSave(p).value);
    Event((if p.recipe.Some? then "Cooking" else "Mixing") + " Session: " + title,
          "Let's make \"" + title + "\" together!",
          uid, startMs, startMs + OneHourMs, SessionLocation, [uid], [uid], Scheduled)
  }

  /** A session is always about a recipe or a drink. */
  lemma SessionIsAboutARecipeOrDrink(p: Post)
    requires CanScheduleSession(p)
    ensures p.recipe.Some? || p.beverageRecipe.Some?
    ensures p.recipe.None? ==> ItemToSave(p) == Some(SavedBeverage(p.beverageRecipe.value))
  {
  }

  // ---------------------------------------------------------------- ordering ingredients

  function ItemNames(items: seq<GroceryItem>): (r: seq<string>)
    ensures |r| == |items| && forall i :: 0 <= i < |items| ==> r[i] == items[i].name
  {
    seq(|items|, i requires 0 <= i < |items| => items[i].name)
  }

  /** `categories.flatMap(c => c.items.map(i => i.name))`. */
  function GroceryNames(cats: seq<GroceryCategory>): seq<string> {
    Flatten(seq(|cats|, i requires 0 <= i < |cats| => ItemNames(cats[i].items)))
  }

  /**
   * The ingredient list `getOrderUrl` searches for: the grocery list's item
   * names, else the recipe's ingredients, else the drink's; an array is
   * truthy even when empty.
   */
  function OrderIngredients(p: Post): (r: Option<seq<string>>)
    ensures r.None? <==> p.groceryList.None? && p.recipe.None? && p.beverageRecipe.None?
    ensures p.groceryList.Some? ==> r == Some(GroceryNames(p.groceryList.value.categories))
    ensures p.groceryList.None? && p.recipe.Some? ==> r == Some(p.recipe.value.ingredients)
    ensures p.groceryList.None? && p.recipe.None? && p.beverageRecipe.Some? ==>
      r == Some(p.beverageRecipe.value.ingredients)
  {
    if p.groceryList.Some? then Some(GroceryNames(p.groceryList.value.categories))
    else if p.recipe.Some? then Some(p.recipe.value.ingredients)
    else if p.beverageRecipe.Some? then Some(p.beverageRecipe.value.ingredients)
    else None
  }

  /** `ingredients?.join(', ') || 'groceries'`, before URL encoding. */
  function OrderQuery(p: Post): (q: string)
    ensures q != ""
  {
    var joined := if OrderIngredients(p).Some? then Join(OrderIngredients(p).value, ", ") else "";
    if joined == "" then "groceries" else joined
  }

  /** A join with a non-empty separator is empty only for no pieces or one empty piece. */
  lemma JoinEmpty(xs: seq<string>, sep: string)
    requires sep != ""
    ensures Join(xs, sep) == "" <==> xs == [] || xs == [""]
  {
  }

  /** The search falls back to "groceries" exactly when there is no list, an empty one or one empty name. */
  lemma OrderQueryFallback(p: Post)
    ensures var ing := OrderIngredients(p);
      if ing.None? || ing.value == [] || ing.value == [""] then OrderQuery(p) == "groceries"
      else OrderQuery(p) == Join(ing.value, ", ")
  {
    if OrderIngredients(p).Some? {
      JoinEmpty(OrderIngredients(p).value, ", ");
    }
  }

  datatype Service = Instacart | DoorDash | UberEats | GoogleShopping

  function UrlPrefix(s: Service): string {
    match s
    case Instacart => "https://www.instacart.com/store/search/"
    case DoorDash => "https://www.doordash.com/search/store/"
    case UberEats => "https://www.ubereats.com/search?q="
    case GoogleShopping => "https://www.google.com/search?q=buy+"
  }

  function UrlSuffix(s: Service): string {
    match s
    case DoorDash => "/"
    case GoogleShopping => "&tbm=shop"
    case _ => ""
  }

  /** `getOrderUrl(service)`: the query sits between the service's fixed prefix and suffix. */
  function OrderUrl(s: Service, query: string): (url: string)
    ensures |url| == |UrlPrefix(s)| + |query| + |UrlSuffix(s)|
    ensures url[|UrlPrefix(s)|..|url| - |UrlSuffix(s)|] == query
  {
    UrlPrefix(s) + query + UrlSuffix(s)
  }

  // ---------------------------------------------------------------- likes

  /** The two writes of a like toggle; the counter is only ever incremented. */
  function LikeBatch(postId: string, uid: Uid, wasLiked: bool): seq<Write> {
    if wasLiked then [DeleteLike(postId, uid), IncrementLikeCount(postId, -1)]
    else [SetLike(postId, uid), IncrementLikeCount(postId, 1)]
  }

  /** The store after a committed toggle: the like record flipped and the counter moved by one. */
  function AfterLike(d: Docs, postId: string, uid: Uid, wasLiked: bool): (d': Docs)
    requires postId in d.posts
    ensures d'.likes == if wasLiked then d.likes - {(postId, uid)} else d.likes + {(postId, uid)}
    ensures postId in d'.posts && d'.posts[postId].likeCount == d.posts[postId].likeCount + (if wasLiked then -1 else 1)
    ensures d'.posts == d.posts[postId := d.posts[postId].(likeCount := d'.posts[postId].likeCount)]
    ensures d'.comments == d.comments && d'.users == d.users && d'.publicProfiles == d.publicProfiles
    ensures d'.usernames == d.usernames && d'.notifications == d.notifications
    ensures d'.events == d.events && d'.saved == d.saved
  {
    var post := d.posts[postId];
    d.(likes := if wasLiked then d.likes - {(postId, uid)} else d.likes + {(postId, uid)},
       posts := d.posts[postId := post.(likeCount := post.likeCount + if wasLiked then -1 else 1)])
  }

  /** The toggle batch applies exactly when the post exists. */
  lemma LikeBatchEffect(d: Docs, postId: string, uid: Uid, wasLiked: bool)
    ensures var r := ApplyBatch(d, LikeBatch(postId, uid, wasLiked));
      && (r.Some? <==> postId in d.posts)
      && (r.Some? ==> r.value == AfterLike(d, postId, uid, wasLiked))
  {
    LikeBatchSteps(d, postId, uid, wasLiked);
    CounterStep(d, postId, uid, wasLiked);
  }

  /** The counter's increment, applied after the like record's write, finishes the toggle. */
  lemma CounterStep(d: Docs, postId: string, uid: Uid, wasLiked: bool)
    ensures var d1 := d.(likes := if wasLiked then d.likes - {(postId, uid)} else d.likes + {(postId, uid)});
      Apply(d1, IncrementLikeCount(postId, if wasLiked then -1 else 1)) ==
        if postId in d.posts then Some(AfterLike(d, postId, uid, wasLiked)) else None
  {
    var d1 := d.(likes := if wasLiked then d.likes - {(postId, uid)} else d.likes + {(postId, uid)});
    LikeWritesEffect(d1, postId, uid, if wasLiked then -1 else 1);
    if postId in d.posts {
      AfterLikeInTwoSteps(d, postId, uid, wasLiked);
    }
  }

  /** The toggle batch is the like record's write, then the counter's increment. */
  lemma LikeBatchSteps(d: Docs, postId: string, uid: Uid, wasLiked: bool)
    ensures var d1 := d.(likes := if wasLiked then d.likes - {(postId, uid)} else d.likes + {(postId, uid)});
      ApplyBatch(d, LikeBatch(postId, uid, wasLiked)) == Apply(d1, IncrementLikeCount(postId, if wasLiked then -1 else 1))
  {
    var b := LikeBatch(postId, uid, wasLiked);
    var delta := if wasLiked then -1 else 1;
    var inc := IncrementLikeCount(postId, delta);
    var d1 := d.(likes := if wasLiked then d.likes - {(postId, uid)} else d.likes + {(postId, uid)});
    assert Apply(d, b[0]) == Some(d1) by {
      LikeWritesEffect(d, postId, uid, delta);
    }
    ApplyBatchStep(d, b);
    assert b[1..] == [inc];
    ApplyOne(d1, inc);
  }

  /** The committed toggle is the like record's write followed by the counter's. */
  lemma AfterLikeInTwoSteps(d: Docs, postId: string, uid: Uid, wasLiked: bool)
    requires postId in d.posts
    ensures var d1 := d.(likes := if wasLiked then d.likes - {(postId, uid)} else d.likes + {(postId, uid)});
      var delta := if wasLiked then -1 else 1;
      AfterLike(d, postId, uid, wasLiked) ==
        d1.(posts := d1.posts[postId := d1.posts[postId].(likeCount := d1.posts[postId].likeCount + delta)])
  {
  }

  /** Toggling back undoes a toggle, when the first one matched the store. */
  lemma LikeToggleRoundTrip(d: Docs, postId: string, uid: Uid)
    requires postId in d.posts
    ensures var wasLiked := (postId, uid) in d.likes;
      AfterLike(AfterLike(d, postId, uid, wasLiked), postId, uid, !wasLiked) == d
  {
    var wasLiked := (postId, uid) in d.likes;
    var d2 := AfterLike(AfterLike(d, postId, uid, wasLiked), postId, uid, !wasLiked);
    assert d2.likes == d.likes;
    assert d2.posts[postId] == d.posts[postId];
    assert d2.posts == d.posts;
  }

  /**
   * A toggle whose `wasLiked` matches the store keeps every post's counters
   * equal to its records.
   */
  lemma LikeKeepsCounts(d: Docs, postId: string, uid: Uid, q: string)
    requires postId in d.posts && CountsInSync(d, q)
    ensures var d' := AfterLike(d, postId, uid, (postId, uid) in d.likes);
      CountsInSync(d', q)
  {
    var wasLiked := (postId, uid) in d.likes;
    var d' := AfterLike(d, postId, uid, wasLiked);
    assert CommentsOf(d', q) == CommentsOf(d, q);
    LikesOfToggled(d, d', (postId, uid), q);
  }

  /** Flipping one like record moves the records of its own post by one and no other post's. */
  lemma LikesOfToggled(d: Docs, d': Docs, k: (string, Uid), q: string)
    requires d'.likes == if k in d.likes then d.likes - {k} else d.likes + {k}
    ensures k.0 == q && k in d.likes ==> |LikesOf(d', q)| == |LikesOf(d, q)| - 1
    ensures k.0 == q && k !in d.likes ==> |LikesOf(d', q)| == |LikesOf(d, q)| + 1
    ensures k.0 != q ==> LikesOf(d', q) == LikesOf(d, q)
  {
    if k.0 == q {
      if k in d.likes {
        assert LikesOf(d', q) == LikesOf(d, q) - {k};
      } else {
        assert LikesOf(d', q) == LikesOf(d, q) + {k};
      }
    } else {
      assert LikesOf(d', q) == LikesOf(d, q);
    }
  }

  /**
   * A toggle that believes the post unliked while the like record exists
   * (a stale `isLiked`) leaves the counter one above the records.
   */
  lemma StaleLikeDrifts(d: Docs, postId: string, uid: Uid)
    requires postId in d.posts && (postId, uid) in d.likes && CountsInSync(d, postId)
    ensures var d' := AfterLike(d, postId, uid, false);
      d'.posts[postId].likeCount == |LikesOf(d', postId)| + 1
  {
    var d' := AfterLike(d, postId, uid, false);
    assert LikesOf(d', postId) == LikesOf(d, postId);
  }

  // ---------------------------------------------------------------- comments

  /** The author snapshot of a comment; the username is the e-mail local part or "". */
  function CommentAuthor(user: AuthUser): (a: Author)
    ensures a.displayName == user.displayName && a.photoURL == user.photoURL
    ensures user.email.None? ==> a.username == ""
    ensures user.email.Some? ==> a.username == Auth.LocalPart(user.email.value)
  {
    Author(user.displayName, user.photoURL, if user.email.Some? then Auth.LocalPart(user.email.value) else "")
  }

  /** The two writes of a comment: the record, then the counter incremented by one. */
  function CommentBatch(c: Comment): seq<Write> {
    [SetComment(c), IncrementCommentCount(c.postId, 1)]
  }

  /** The store after a committed comment. */
  function AfterComment(d: Docs, c: Comment): (d': Docs)
    requires c.postId in d.posts
    ensures d'.comments == d.comments[(c.postId, c.id) := c]
    ensures c.postId in d'.posts && d'.posts[c.postId].commentCount == d.posts[c.postId].commentCount + 1
    ensures d'.posts == d.posts[c.postId := d.posts[c.postId].(commentCount := d'.posts[c.postId].commentCount)]
    ensures d'.likes == d.likes && d'.users == d.users && d'.publicProfiles == d.publicProfiles
    ensures d'.usernames == d.usernames && d'.notifications == d.notifications
    ensures d'.events == d.events && d'.saved == d.saved
  {
    var post := d.posts[c.postId];
    d.(comments := d.comments[(c.postId, c.id) := c],
       posts := d.posts[c.postId := post.(commentCount := post.commentCount + 1)])
  }

  /** The comment batch applies exactly when the post exists. */
  lemma CommentBatchEffect(d: Docs, c: Comment)
    ensures var r := ApplyBatch(d, CommentBatch(c));
      && (r.Some? <==> c.postId in d.posts)
      && (r.Some? ==> r.value == AfterComment(d, c))
  {
    CommentBatchSteps(d, c);
    CommentCounterStep(d, c);
  }

  /** The comment batch is the record's write, then the counter's increment. */
  lemma CommentBatchSteps(d: Docs, c: Comment)
    ensures var d1 := d.(comments := d.comments[(c.postId, c.id) := c]);
      ApplyBatch(d, CommentBatch(c)) == Apply(d1, IncrementCommentCount(c.postId, 1))
  {
    var b := CommentBatch(c);
    var inc := IncrementCommentCount(c.postId, 1);
    var d1 := d.(comments := d.comments[(c.postId, c.id) := c]);
    assert Apply(d, b[0]) == Some(d1) by {
      CommentWritesEffect(d, c, 1);
    }
    ApplyBatchStep(d, b);
    assert b[1..] == [inc];
    ApplyOne(d1, inc);
  }

  /** The counter's increment, applied after the record's write, finishes the comment. */
  lemma CommentCounterStep(d: Docs, c: Comment)
    ensures var d1 := d.(comments := d.comments[(c.postId, c.id) := c]);
      Apply(d1, IncrementCommentCount(c.postId, 1)) ==
        if c.postId in d.posts then Some(AfterComment(d, c)) else None
  {
    var d1 := d.(comments := d.comments[(c.postId, c.id) := c]);
    CommentWritesEffect(d1, c, 1);
    if c.postId in d.posts {
      AfterCommentInTwoSteps(d, c);
    }
  }

  lemma AfterCommentInTwoSteps(d: Docs, c: Comment)
    requires c.postId in d.posts
    ensures var d1 := d.(comments := d.comments[(c.postId, c.id) := c]);
      AfterComment(d, c) ==
        d1.(posts := d1.posts[c.postId := d1.posts[c.postId].(commentCount := d1.posts[c.postId].commentCount + 1)])
  {
  }

  /** A comment under a fresh id keeps every post's counters equal to its records. */
  lemma CommentKeepsCounts(d: Docs, c: Comment, q: string)
    requires c.postId in d.posts && (c.postId, c.id) !in d.comments && CountsInSync(d, q)
    ensures CountsInSync(AfterComment(d, c), q)
  {
    var d' := AfterComment(d, c);
    assert LikesOf(d', q) == LikesOf(d, q);
    CommentsOfAdded(d, d', (c.postId, c.id), c, q);
  }

  /** A record under a fresh key adds one to its own post's records and none to another's. */
  lemma CommentsOfAdded(d: Docs, d': Docs, k: (string, string), c: Comment, q: string)
    requires k !in d.comments && d'.comments == d.comments[k := c]
    ensures k.0 == q ==> |CommentsOf(d', q)| == |CommentsOf(d, q)| + 1
    ensures k.0 != q ==> CommentsOf(d', q) == CommentsOf(d, q)
  {
    if k.0 == q {
      assert CommentsOf(d', q) == CommentsOf(d, q) + {k};
    } else {
      assert CommentsOf(d', q) == CommentsOf(d, q);
    }
  }

  // ---------------------------------------------------------------- the card

  /** One post card: its props, the viewer, and the flags it keeps. */
  class PostCard {
    const db: Database
    const postId: string
    const post: Post
    const user: Option<AuthUser>
    var isLiked: bool
    var localLikeCount: int
    var isSaved: bool
    var isEventDialogOpen: bool

    constructor (db: Database, postId: string, post: Post, user: Option<AuthUser>)
      ensures this.db == db && this.postId == postId && this.post == post && this.user == user
      ensures !isLiked && localLikeCount == post.likeCount && !isSaved && !isEventDialogOpen
    {
      this.db := db;
      this.postId := postId;
      this.post := post;
      this.user := user;
      isLiked := false;
      localLikeCount := post.likeCount;
      isSaved := false;
      isEventDialogOpen := false;
    }

    /** The card's like flag and counter show the store. */
    predicate LikeMirrorsStore()
      reads this, db
    {
      user.Some? ==>
        && isLiked == ((postId, user.value.uid) in db.docs.likes)
        && (postId in db.docs.posts ==> localLikeCount == db.docs.posts[postId].likeCount)
    }

    /** The effect that reads the like record: the flag becomes whether it exists. */
    method CheckLiked()
      modifies this
      ensures isLiked == (if user.Some? then (postId, user.value.uid) in db.docs.likes else old(isLiked))
      ensures localLikeCount == old(localLikeCount) && isSaved == old(isSaved)
      ensures isEventDialogOpen == old(isEventDialogOpen)
    {
      if user.Some? {
        isLiked := (postId, user.value.uid) in db.docs.likes;
      }
    }

    /** The effect that reads the saved record: the flag becomes whether it exists. */
    method CheckSaved()
      modifies this
      ensures var k := if user.Some? then SaveKey(user.value.uid, post, postId) else None;
        isSaved == (if k.Some? then k.value in db.docs.saved else old(isSaved))
      ensures isLiked == old(isLiked) && localLikeCount == old(localLikeCount)
      ensures isEventDialogOpen == old(isEventDialogOpen)
    {
      if user.Some? {
        var k := SaveKey(user.value.uid, post, postId);
        if k.Some? {
          isSaved := k.value in db.docs.saved;
        }
      }
    }

    /**
     * `handleLikeToggle`: flip the flag and move the counter at once, commit
     * the record and the increment together, and restore both when the
     * commit fails. A signed-out viewer changes nothing.
     */
    method ToggleLike(accepted: bool) returns (committed: bool)
      modifies this, db
      ensures user.None? ==> !committed && db.docs == old(db.docs)
      ensures user.Some? ==>
        && (committed <==> accepted && postId in old(db.docs.posts))
        && db.docs == (if committed then AfterLike(old(db.docs), postId, user.value.uid, old(isLiked)) else old(db.docs))
      ensures isLiked == (if committed then !old(isLiked) else old(isLiked))
      ensures localLikeCount == old(localLikeCount) + (if !committed then 0 else if old(isLiked) then -1 else 1)
      ensures isSaved == old(isSaved) && isEventDialogOpen == old(isEventDialogOpen)
      ensures old(LikeMirrorsStore()) ==> LikeMirrorsStore()
    {
      if user.None? {
        return false;
      }
      var uid := user.value.uid;
      var wasLiked := isLiked;
      isLiked := !wasLiked;
      localLikeCount := if wasLiked then localLikeCount - 1 else localLikeCount + 1;
      LikeBatchEffect(db.docs, postId, uid, wasLiked);
      committed := db.Commit(LikeBatch(postId, uid, wasLiked), accepted);
      if !committed {
        isLiked := wasLiked;
        localLikeCount := if wasLiked then localLikeCount + 1 else localLikeCount - 1;
      }
    }

    /**
     * `handleSaveItem`: delete the saved copy when the flag says saved, write
     * it otherwise, and flip the flag whether or not the write commits.
     */
    method SaveItem(accepted: bool) returns (committed: bool)
      modifies this, db
      ensures user.None? || ItemToSave(post).None? ==>
        !committed && db.docs == old(db.docs) && isSaved == old(isSaved)
      ensures user.Some? && ItemToSave(post).Some? ==>
        var k := SaveKey(user.value.uid, post, postId).value;
        && committed == accepted
        && isSaved == !old(isSaved)
        && db.docs == (if !committed then old(db.docs)
                       else if old(isSaved) then old(db.docs).(saved := old(db.docs.saved) - {k})
                       else old(db.docs).(saved := old(db.docs.saved)[k := ItemToSave(post).value]))
      ensures committed ==> isSaved == (SaveKey(user.value.uid, post, postId).value in db.docs.saved)
      ensures isLiked == old(isLiked) && localLikeCount == old(localLikeCount)
      ensures isEventDialogOpen == old(isEventDialogOpen)
    {
      if user.None? || ItemToSave(post).None? {
        return false;
      }
      var k := SaveKey(user.value.uid, post, postId).value;
      var item := ItemToSave(post).value;
      if isSaved {
        DeleteSavedEffect(db.docs, k);
        committed := db.Commit([DeleteSaved(k)], accepted);
        isSaved := false;
      } else {
        SetSavedEffect(db.docs, k, item);
        committed := db.Commit([SetSaved(k, item)], accepted);
        isSaved := true;
      }
    }

    /**
     * `handleCreateEvent`: refused without a viewer, a date, or a recipe or
     * drink; otherwise one event is added and the dialog closes.
     */
    method CreateEvent(startMs: Option<int>, accepted: bool) returns (committed: bool)
      modifies this, db
      ensures user.None? || !CanScheduleSession(post) || startMs.None? ==>
        !committed && db.docs == old(db.docs) && isEventDialogOpen == old(isEventDialogOpen)
      ensures user.Some? && CanScheduleSession(post) && startMs.Some? ==>
        && committed == accepted && !isEventDialogOpen
        && db.docs == (if committed
                       then old(db.docs).(events := old(db.docs.events) + [SessionEvent(user.value.uid, post, startMs.value)])
                       else old(db.docs))
      ensures isLiked == old(isLiked) && localLikeCount == old(localLikeCount) && isSaved == old(isSaved)
    {
      if user.None? || !CanScheduleSession(post) || startMs.None? {
        return false;
      }
      var e := SessionEvent(user.value.uid, post, startMs.value);
      AddEventEffect(db.docs, e);
      committed := db.Commit([AddEvent(e)], accepted);
      isEventDialogOpen := false;
    }
  }

  /** The comment dialog of one post: the draft and the submitting flag. */
  class CommentsDialog {
    const db: Database
    const postId: string
    const user: Option<AuthUser>
    var newComment: string
    var isSubmitting: bool

    constructor (db: Database, postId: string, user: Option<AuthUser>)
      ensures this.db == db && this.postId == postId && this.user == user
      ensures newComment == "" && !isSubmitting
    {
      this.db := db;
      this.postId := postId;
      this.user := user;
      newComment := "";
      isSubmitting := false;
    }

    /** Typing replaces the draft. */
    method Edit(text: string)
      modifies this
      ensures newComment == text && isSubmitting == old(isSubmitting)
    {
      newComment := text;
    }

    /**
     * `handleCommentSubmit`: a blank draft or a signed-out viewer writes
     * nothing; otherwise the comment (the untrimmed draft) and the counter
     * increment are committed together, a committed draft is cleared, and the
     * submitting flag ends false.
     */
    method Submit(commentId: string, accepted: bool) returns (committed: bool)
      requires (postId, commentId) !in db.docs.comments
      modifies this, db
      ensures user.None? || AllSpace(old(newComment)) ==>
        !committed && db.docs == old(db.docs) && newComment == old(newComment)
        && isSubmitting == old(isSubmitting)
      ensures user.Some? && !AllSpace(old(newComment)) ==>
        var c := Comment(commentId, postId, user.value.uid, CommentAuthor(user.value), old(newComment));
        && (committed <==> accepted && postId in old(db.docs.posts))
        && db.docs == (if committed then AfterComment(old(db.docs), c) else old(db.docs))
        && newComment == (if committed then "" else old(newComment))
        && !isSubmitting
    {
      if user.None? || Trim(newComment) == [] {
        return false;
      }
      isSubmitting := true;
      var c := Comment(commentId, postId, user.value.uid, CommentAuthor(user.value), newComment);
      CommentBatchEffect(db.docs, c);
      committed := db.Commit(CommentBatch(c), accepted);
      if committed {
        newComment := "";
      }
      isSubmitting := false;
    }
  }
}
