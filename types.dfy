/**
 * The records the app keeps in its document store (src/lib/types.ts), reduced
 * to the fields its rules read or write. Server timestamps are not modelled.
 */
module Types {

  datatype Option<+T> = None | Some(value: T)

  type Uid = string

  /** JavaScript truthiness of an optional string: present and not empty. */
  predicate Truthy(s: Option<string>) { s.Some? && s.value != "" }

  /** JavaScript's `a || b` where `a` is an optional string: `a` unless it is missing or empty. */
  function OrElse(a: Option<string>, b: string): (r: string)
    ensures a.Some? && a.value != "" ==> r == a.value
    ensures a.None? || a.value == "" ==> r == b
  {
    if a.Some? && a.value != "" then a.value else b
  }

  /** The signed-in account as the authentication service reports it. */
  datatype AuthUser = AuthUser(
    uid: Uid,
    email: Option<string>,
    displayName: Option<string>,
    photoURL: Option<string>)

  /** A recipe; `id` and `savedAt` are present on a copy saved to a user's collection. */
  datatype Recipe = Recipe(
    id: Option<string>,
    savedAt: Option<int>,
    title: string,
    ingredients: seq<string>,
    instructions: seq<string>)

  datatype BeverageRecipe = BeverageRecipe(title: string, ingredients: seq<string>)

  datatype GroceryItem = GroceryItem(name: string, quantity: string)

  datatype GroceryCategory = GroceryCategory(name: string, items: seq<GroceryItem>)

  datatype GroceryList = GroceryList(
    id: Option<string>,
    savedAt: Option<int>,
    title: string,
    categories: seq<GroceryCategory>)

  datatype ProductLabel = ProductLabel(productName: string, overallScore: int)

  /** The author snapshot copied into posts and comments when they are written. */
  datatype Author = Author(displayName: Option<string>, photoURL: Option<string>, username: string)

  /** A post; at most one attachment is expected, but each is its own optional field. */
  datatype Post = Post(
    authorId: Uid,
    author: Author,
    content: string,
    location: Option<string>,
    tags: Option<seq<string>>,
    externalVideoUrl: Option<string>,
    recipe: Option<Recipe>,
    beverageRecipe: Option<BeverageRecipe>,
    groceryList: Option<GroceryList>,
    productLabel: Option<ProductLabel>,
    mediaURL: Option<string>,
    likeCount: int,
    commentCount: int,
    isPublic: bool,
    searchableTerms: seq<string>)

  datatype Comment = Comment(id: string, postId: string, authorId: Uid, author: Author, text: string)

  datatype NotificationType = OnLike | OnComment | OnFollow

  /** The sender snapshot stored in a notification. */
  datatype Sender = Sender(displayName: string, photoURL: Option<string>)

  datatype Notification = Notification(
    id: string,
    kind: NotificationType,
    senderId: Uid,
    sender: Sender,
    recipientId: Uid,
    postId: Option<string>,
    postContent: Option<string>,
    commentText: Option<string>,
    read: bool)

  datatype EventStatus = Scheduled | Cancelled

  /** A calendar event; times are milliseconds since the epoch. */
  datatype Event = Event(
    title: string,
    description: string,
    createdBy: Uid,
    startTime: int,
    endTime: int,
    location: string,
    participantIds: seq<Uid>,
    attendees: seq<Uid>,
    status: EventStatus)

  /** The private account record, `users/{uid}`. */
  datatype UserRecord = UserRecord(
    uid: Uid,
    username: string,
    email: Option<string>,
    displayName: Option<string>,
    photoURL: Option<string>,
    bio: Option<string>,
    gender: Option<string>,
    followers: seq<Uid>,
    following: seq<Uid>,
    followerCount: int,
    followingCount: int,
    accentColor: string)

  /** The public profile, `publicProfiles/{uid}`, with its search index. */
  datatype PublicProfile = PublicProfile(
    uid: Uid,
    username: string,
    displayName: Option<string>,
    displayNameLowercase: string,
    photoURL: Option<string>,
    bio: Option<string>,
    gender: Option<string>,
    followerCount: int,
    followingCount: int,
    searchableTerms: seq<string>,
    accentColor: string)

  /** An item a user saved from a post, with the collection it goes to. */
  datatype SavedItem =
    | SavedRecipe(recipe: Recipe)
    | SavedBeverage(beverage: BeverageRecipe)
    | SavedGroceryList(list: GroceryList)
    | SavedProductLabel(product: ProductLabel)

  datatype SavedCollection = SavedRecipes | SavedBeverages | GroceryLists | ProductLabels

  /** `users/{uid}/{collection}/{itemId}`. */
  datatype SavedKey = SavedKey(uid: Uid, collection: SavedCollection, itemId: string)
}
