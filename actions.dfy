/**
 * The server action that turns the composer's form into a post document
 * (src/lib/actions.ts): keyword generation, tag parsing, the defaults of a
 * new post and its search index.
 */
module Actions {
  import opened Types
  import opened Strings
  import opened Firestore

  // ---------------------------------------------------------------- keywords

  /** The words `generateKeywords` keeps: longer than two characters. */
  predicate IsKeyword(w: string) { |w| > 2 }

  /** The words of `text` after lower-casing, as `toLowerCase().split(/\s+/)` gives them. */
  function Words(text: string): seq<string> {
    SplitWs(Lower(text))
  }

  /**
   * `generateKeywords`: the lower-cased words of `text` longer than two
   * characters, each once, in the order of their first occurrence.
   */
  function GenerateKeywords(text: string): (r: seq<string>)
    ensures text == "" ==> r == []
    ensures NoDups(r)
    ensures forall w :: w in r <==> w in Words(text) && |w| > 2
    ensures forall w :: w in r ==> IsLowerCase(w) && NoSpace(w)
  {
    if text == "" then []
    else
      LowerIsLowerCase(text);
      SplitWsLowerCase(Lower(text));
      Dedupe(Filter(IsKeyword, Words(text)))
  }

  /** Keywords are listed in the order in which they first occur among the words. */
  lemma KeywordsInOrder(text: string, i: nat, j: nat)
    requires i < j < |GenerateKeywords(text)|
    ensures IndexOf(Words(text), GenerateKeywords(text)[i]) < IndexOf(Words(text), GenerateKeywords(text)[j])
  {
    var kept := Filter(IsKeyword, Words(text));
    var r := GenerateKeywords(text);
    assert text != "";
    assert r == Dedupe(kept);
    DedupeKeepsFirstOccurrenceOrder(kept, i, j);
    assert r[i] in r && r[j] in r;
    FilterKeepsOrder(IsKeyword, Words(text), r[i], r[j]);
  }

  /** A text whose words are distinct keywords gives exactly those words back. */
  lemma KeywordsOfDistinctWords(text: string)
    requires text != ""
    requires NoDups(Words(text))
    requires forall i :: 0 <= i < |Words(text)| ==> |Words(text)[i]| > 2
    ensures GenerateKeywords(text) == Words(text)
  {
    FilterAll(IsKeyword, Words(text));
    DedupeOfDistinct(Words(text));
  }

  /** The keywords of each ingredient, one after the other (`flatMap`). */
  function IngredientKeywords(ingredients: seq<string>): (r: seq<string>)
    ensures forall w :: w in r <==> exists i :: 0 <= i < |ingredients| && w in GenerateKeywords(ingredients[i])
    decreases |ingredients|
  {
    if ingredients == [] then []
    else
      var rest := IngredientKeywords(ingredients[1..]);
      KeywordsOfCons(ingredients, rest);
      GenerateKeywords(ingredients[0]) + rest
  }

  /** The keywords of the first ingredient followed by those of the rest are those of some ingredient. */
  lemma KeywordsOfCons(ingredients: seq<string>, rest: seq<string>)
    requires ingredients != []
    requires forall w :: w in rest <==> exists i :: 0 <= i < |ingredients| - 1 && w in GenerateKeywords(ingredients[1..][i])
    ensures forall w :: w in GenerateKeywords(ingredients[0]) + rest <==>
      exists i :: 0 <= i < |ingredients| && w in GenerateKeywords(ingredients[i])
  {
    forall w ensures w in GenerateKeywords(ingredients[0]) + rest ==>
      exists i :: 0 <= i < |ingredients| && w in GenerateKeywords(ingredients[i])
    {
      if w in rest {
        var i :| 0 <= i < |ingredients| - 1 && w in GenerateKeywords(ingredients[1..][i]);
        assert ingredients[1..][i] == ingredients[i + 1];
      }
    }
    forall w | exists i :: 0 <= i < |ingredients| && w in GenerateKeywords(ingredients[i])
      ensures w in GenerateKeywords(ingredients[0]) + rest
    {
      var i :| 0 <= i < |ingredients| && w in GenerateKeywords(ingredients[i]);
      if i > 0 {
        assert ingredients[i] == ingredients[1..][i - 1];
      }
    }
  }

  // ---------------------------------------------------------------- tags

  /** Each comma-separated piece trimmed and lower-cased. */
  function NormalizedTags(pieces: seq<string>): (r: seq<string>)
    ensures |r| == |pieces|
    ensures forall i :: 0 <= i < |pieces| ==> r[i] == Lower(Trim(pieces[i]))
  {
    seq(|pieces|, i requires 0 <= i < |pieces| => Lower(Trim(pieces[i])))
  }

  /**
   * `tags.split(',').map(tag => tag.trim().toLowerCase()).filter(Boolean)`:
   * every tag is non-empty, lower case, without a comma and without white
   * space at either end, and every piece that is not blank gives a tag.
   */
  function ParseTags(tags: string): (r: seq<string>)
    ensures |r| <= |SplitOn(tags, ',')|
    ensures forall t :: t in r ==> t != [] && IsLowerCase(t) && ',' !in t
    ensures forall t :: t in r ==> !IsSpace(t[0]) && !IsSpace(t[|t| - 1])
    ensures forall p :: p in SplitOn(tags, ',') && !AllSpace(p) ==> Lower(Trim(p)) in r
    ensures forall t :: t in r ==> exists p :: p in SplitOn(tags, ',') && t == Lower(Trim(p))
  {
    var pieces := SplitOn(tags, ',');
    ParsedTags(pieces);
    Filter(IsNonEmpty, NormalizedTags(pieces))
  }

  /**
   * Order and multiplicity: the tags of `a + "," + b` are the tags of `a`
   * followed by the tags of `b`, so "a,a" gives ["a", "a"] and "b,a" gives
   * ["b", "a"].
   */
  lemma ParseTagsConcat(a: string, b: string)
    ensures ParseTags(a + "," + b) == ParseTags(a) + ParseTags(b)
  {
    SplitOnConcat(a, b, ',');
    assert a + "," + b == a + [','] + b;
    TagsOfPiecesConcat(SplitOn(a, ','), SplitOn(b, ','));
  }

  lemma TagsOfPiecesConcat(pa: seq<string>, pb: seq<string>)
    ensures Filter(IsNonEmpty, NormalizedTags(pa + pb))
         == Filter(IsNonEmpty, NormalizedTags(pa)) + Filter(IsNonEmpty, NormalizedTags(pb))
  {
    NormalizedTagsConcat(pa, pb);
    FilterConcat(IsNonEmpty, NormalizedTags(pa), NormalizedTags(pb));
  }

  lemma NormalizedTagsConcat(pa: seq<string>, pb: seq<string>)
    ensures NormalizedTags(pa + pb) == NormalizedTags(pa) + NormalizedTags(pb)
  {
    NormalizedLeft(pa, pb);
    NormalizedRight(pa, pb);
    ConcatPointwise(NormalizedTags(pa + pb), NormalizedTags(pa), NormalizedTags(pb));
  }

  lemma NormalizedLeft(pa: seq<string>, pb: seq<string>)
    ensures forall i :: 0 <= i < |pa| ==> NormalizedTags(pa + pb)[i] == NormalizedTags(pa)[i]
  {
    forall i | 0 <= i < |pa| ensures NormalizedTags(pa + pb)[i] == NormalizedTags(pa)[i] {
      NormalizedTagAt(pa + pb, pa, i, i);
    }
  }

  lemma NormalizedRight(pa: seq<string>, pb: seq<string>)
    ensures forall j :: 0 <= j < |pb| ==> NormalizedTags(pa + pb)[|pa| + j] == NormalizedTags(pb)[j]
  {
    forall j | 0 <= j < |pb| ensures NormalizedTags(pa + pb)[|pa| + j] == NormalizedTags(pb)[j] {
      NormalizedTagAt(pa + pb, pb, |pa| + j, j);
    }
  }

  /** Equal pieces give equal tags. */
  lemma NormalizedTagAt(ps: seq<string>, qs: seq<string>, i: nat, j: nat)
    requires i < |ps| && j < |qs| && ps[i] == qs[j]
    ensures NormalizedTags(ps)[i] == NormalizedTags(qs)[j]
  {
  }



  /** A comma-free piece gives its trimmed, lower-cased text, or no tag when it is blank. */
  lemma ParseTagsOfPiece(p: string)
    requires ',' !in p
    ensures ParseTags(p) == if AllSpace(p) then [] else [Lower(Trim(p))]
  {
    assert SplitOn(p, ',') == [p];
    var t := Lower(Trim(p));
    assert NormalizedTags([p]) == [t];
    assert |t| == |Trim(p)|;
    assert Filter(IsNonEmpty, [t]) == (if IsNonEmpty(t) then [t] else []) + Filter(IsNonEmpty, [t][1..]);
  }

  /** The facts ParseTags promises, for any comma-free pieces. */
  lemma ParsedTags(pieces: seq<string>)
    requires forall p :: p in pieces ==> ',' !in p
    ensures var r := Filter(IsNonEmpty, NormalizedTags(pieces));
      && (forall t :: t in r ==> t != [] && IsLowerCase(t) && ',' !in t)
      && (forall t :: t in r ==> !IsSpace(t[0]) && !IsSpace(t[|t| - 1]))
      && (forall p :: p in pieces && !AllSpace(p) ==> Lower(Trim(p)) in r)
      && (forall t :: t in r ==> exists p :: p in pieces && t == Lower(Trim(p)))
  {
    TagsWellFormed(pieces);
    PiecesGiveTags(pieces);
    TagsFromPieces(pieces);
  }

  /** Every piece that is not blank gives a non-empty normalised tag. */
  lemma PiecesGiveTags(pieces: seq<string>)
    ensures forall p :: p in pieces && !AllSpace(p) ==> Lower(Trim(p)) in NormalizedTags(pieces) && Lower(Trim(p)) != []
  {
    var normalized := NormalizedTags(pieces);
    forall p | p in pieces && !AllSpace(p)
      ensures Lower(Trim(p)) in normalized && Lower(Trim(p)) != []
    {
      var i :| 0 <= i < |pieces| && pieces[i] == p;
      assert normalized[i] == Lower(Trim(p));
    }
  }

  /** Every normalised tag comes from some piece. */
  lemma TagsFromPieces(pieces: seq<string>)
    ensures forall t :: t in NormalizedTags(pieces) ==> exists p :: p in pieces && t == Lower(Trim(p))
  {
    var normalized := NormalizedTags(pieces);
    forall t | t in normalized ensures exists p :: p in pieces && t == Lower(Trim(p)) {
      var i :| 0 <= i < |normalized| && normalized[i] == t;
      assert pieces[i] in pieces;
    }
  }

  lemma TagsWellFormed(pieces: seq<string>)
    requires forall p :: p in pieces ==> ',' !in p
    ensures forall t :: t in NormalizedTags(pieces) && t != [] ==>
      IsLowerCase(t) && ',' !in t && !IsSpace(t[0]) && !IsSpace(t[|t| - 1])
  {
    var normalized := NormalizedTags(pieces);
    forall i | 0 <= i < |pieces|
      ensures var t := normalized[i];
        t != [] ==> IsLowerCase(t) && ',' !in t && !IsSpace(t[0]) && !IsSpace(t[|t| - 1])
    {
      TagWellFormed(pieces[i]);
    }
  }

  lemma TagWellFormed(piece: string)
    requires ',' !in piece
    ensures var t := Lower(Trim(piece));
      t != [] ==> IsLowerCase(t) && ',' !in t && !IsSpace(t[0]) && !IsSpace(t[|t| - 1])
  {
    var trimmed := Trim(piece);
    var t := Lower(trimmed);
    LowerIsLowerCase(trimmed);
    TrimChars(piece);
    if ',' in t {
      LowerChars(trimmed, ',');
    }
    if t != [] {
      assert t[0] == LowerChar(trimmed[0]);
      assert t[|t| - 1] == LowerChar(trimmed[|trimmed| - 1]);
    }
  }

  // ---------------------------------------------------------------- the post document

  /**
   * The fields of the form the composer sends. A field the client did not
   * append is None; `recipe` and `groceryList` arrive already parsed, and
   * `mediaURL` is the public address of the uploaded image, if one was sent.
   */
  datatype PostForm = PostForm(
    authorId: Option<string>,
    content: string,
    location: Option<string>,
    tags: Option<string>,
    externalVideoUrl: Option<string>,
    recipe: Option<Recipe>,
    groceryList: Option<GroceryList>,
    mediaURL: Option<string>)

  datatype Outcome = Success(post: Post) | Failure(error: string)

  /** A saved item's id and save time removed before it is embedded in a post. */
  function StripRecipe(r: Recipe): (s: Recipe)
    ensures s.id.None? && s.savedAt.None?
    ensures s.title == r.title && s.ingredients == r.ingredients && s.instructions == r.instructions
  {
    r.(id := None, savedAt := None)
  }

  function StripGroceryList(g: GroceryList): (s: GroceryList)
    ensures s.id.None? && s.savedAt.None?
    ensures s.title == g.title && s.categories == g.categories
  {
    g.(id := None, savedAt := None)
  }

  /** The search terms of a post in the order they are gathered, duplicates included. */
  function AllTerms(content: string, tags: seq<string>, recipe: Option<Recipe>): seq<string> {
    GenerateKeywords(content) + tags
      + (if recipe.Some? then GenerateKeywords(recipe.value.title) + IngredientKeywords(recipe.value.ingredients) else [])
  }

  /**
   * A post's `searchableTerms`: each keyword of the content, each tag, and
   * for a recipe each keyword of its title and of its ingredients, once.
   */
  function PostSearchTerms(content: string, tags: seq<string>, recipe: Option<Recipe>): (r: seq<string>)
    ensures NoDups(r)
    ensures forall w :: w in r <==>
      || w in GenerateKeywords(content)
      || w in tags
      || (recipe.Some? && w in GenerateKeywords(recipe.value.title))
      || (recipe.Some? && exists i :: 0 <= i < |recipe.value.ingredients| && w in GenerateKeywords(recipe.value.ingredients[i]))
  {
    Dedupe(AllTerms(content, tags, recipe))
  }

  /** The author snapshot copied into a new post, with the defaults of `||`. */
  function AuthorSnapshot(profile: PublicProfile): (a: Author)
    ensures a.displayName == Some(OrElse(profile.displayName, "Anonymous"))
    ensures a.photoURL.Some? <==> Truthy(profile.photoURL)
    ensures a.photoURL.Some? ==> a.photoURL == profile.photoURL
    ensures a.username == profile.username
  {
    Author(Some(OrElse(profile.displayName, "Anonymous")),
           if Truthy(profile.photoURL) then profile.photoURL else None,
           profile.username)
  }

  /** An optional text field is kept only when it is a non-empty string. */
  function IfTruthy(s: Option<string>): (r: Option<string>)
    ensures r.Some? <==> Truthy(s)
    ensures r.Some? ==> r == s
  {
    if Truthy(s) then s else None
  }

  /**
   * `createPostWithImage` up to the write: the post document built from the
   * form and the author's public profile (None when it does not exist).
   */
  function NewPost(form: PostForm, profile: Option<PublicProfile>): (r: Outcome)
    ensures !Truthy(form.authorId) ==> r == Failure("User is not authenticated.")
    ensures Truthy(form.authorId) && profile.None? ==> r == Failure("Author profile not found.")
    ensures r.Success? <==> Truthy(form.authorId) && profile.Some?
    ensures r.Success? ==> r.post.authorId == form.authorId.value && r.post.content == form.content
    ensures r.Success? ==> r.post.author == AuthorSnapshot(profile.value)
    ensures r.Success? ==> r.post.likeCount == 0 && r.post.commentCount == 0 && r.post.isPublic
    ensures r.Success? ==> r.post.location == IfTruthy(form.location)
    ensures r.Success? ==> r.post.externalVideoUrl == IfTruthy(form.externalVideoUrl)
    ensures r.Success? ==> r.post.tags == if Truthy(form.tags) then Some(ParseTags(form.tags.value)) else None
    ensures r.Success? ==> r.post.recipe == if form.recipe.Some? then Some(StripRecipe(form.recipe.value)) else None
    ensures r.Success? ==>
      r.post.groceryList == if form.groceryList.Some? then Some(StripGroceryList(form.groceryList.value)) else None
    ensures r.Success? ==> r.post.beverageRecipe.None? && r.post.productLabel.None?
    ensures r.Success? ==> r.post.mediaURL == form.mediaURL
    ensures r.Success? ==>
      r.post.searchableTerms == PostSearchTerms(form.content, if Truthy(form.tags) then ParseTags(form.tags.value) else [], form.recipe)
  {
    if !Truthy(form.authorId) then Failure("User is not authenticated.")
    else if profile.None? then Failure("Author profile not found.")
    else
      var tags := if Truthy(form.tags) then Some(ParseTags(form.tags.value)) else None;
      Success(Post(
        authorId := form.authorId.value,
        author := AuthorSnapshot(profile.value),
        content := form.content,
        location := IfTruthy(form.location),
        tags := tags,
        externalVideoUrl := IfTruthy(form.externalVideoUrl),
        recipe := if form.recipe.Some? then Some(StripRecipe(form.recipe.value)) else None,
        beverageRecipe := None,
        groceryList := if form.groceryList.Some? then Some(StripGroceryList(form.groceryList.value)) else None,
        productLabel := None,
        mediaURL := form.mediaURL,
        likeCount := 0,
        commentCount := 0,
        isPublic := true,
        searchableTerms := PostSearchTerms(form.content, if tags.Some? then tags.value else [], form.recipe)))
  }

  /**
   * The action's own steps: the fields of `postData` filled one by one and
   * the search terms gathered before duplicates are dropped.
   */
  method BuildPost(form: PostForm, profile: Option<PublicProfile>) returns (r: Outcome)
    ensures r == NewPost(form, profile)
  {
    if !Truthy(form.authorId) {
      return Failure("User is not authenticated.");
    }
    if profile.None? {
      return Failure("Author profile not found.");
    }
    var location: Option<string> := None;
    if Truthy(form.location) {
      location := form.location;
    }
    var externalVideoUrl: Option<string> := None;
    if Truthy(form.externalVideoUrl) {
      externalVideoUrl := form.externalVideoUrl;
    }
    var tags: Option<seq<string>> := None;
    if Truthy(form.tags) {
      tags := Some(ParseTags(form.tags.value));
    }
    var recipe: Option<Recipe> := None;
    if form.recipe.Some? {
      recipe := Some(StripRecipe(form.recipe.value));
    }
    var groceryList: Option<GroceryList> := None;
    if form.groceryList.Some? {
      groceryList := Some(StripGroceryList(form.groceryList.value));
    }
    var tagList := if tags.Some? then tags.value else [];
    var terms := GenerateKeywords(form.content) + tagList;
    if recipe.Some? {
      var recipeKeywords := GenerateKeywords(recipe.value.title);
      var ingredientKeywords := IngredientKeywords(recipe.value.ingredients);
      terms := terms + (recipeKeywords + ingredientKeywords);
    } else {
      terms := terms + [];
    }
    assert terms == AllTerms(form.content, tagList, form.recipe);
    var post := Post(form.authorId.value, AuthorSnapshot(profile.value), form.content, location, tags,
                     externalVideoUrl, recipe, None, groceryList, None, form.mediaURL, 0, 0, true, Dedupe(terms));
    return Success(post);
  }

  /**
   * The whole action: the author's profile is read, the post is built and
   * added under the fresh id `postId`; success only when the write is accepted.
   * This is the intended behaviour, with an attachment's `undefined` fields
   * left out of the stored document; CreatedAsWritten is the action as written.
   */
  method CreatePostWithImage(db: Database, form: PostForm, postId: string, accepted: bool)
    returns (success: bool)
    requires postId !in db.docs.posts
    modifies db
    ensures var built := NewPost(form, AuthorProfile(old(db.docs), form.authorId));
      && (success <==> built.Success? && accepted)
      && db.docs == (if success then old(db.docs).(posts := old(db.docs.posts)[postId := built.post]) else old(db.docs))
  {
    var built := BuildPost(form, AuthorProfile(db.docs, form.authorId));
    if built.Failure? {
      return false;
    }
    AddPostEffect(db.docs, postId, built.post);
    success := db.Commit([AddPost(postId, built.post)], accepted);
  }

  /**
   * Whether `add()` takes the post in the shape actions.ts builds it. With
   * the Admin SDK's default settings (no `ignoreUndefinedProperties`) a
   * document holding an `undefined` value is refused, and each stripped
   * attachment holds two: `id` and `savedAt`.
   */
  predicate AddTakesAsBuilt(form: PostForm) {
    form.recipe.None? && form.groceryList.None?
  }

  /**
   * The action as written, as a pair of the reported success and the store
   * after it: an attached recipe or grocery list makes `add()` throw, so the
   * catch reports failure and nothing is stored.
   */
  function CreatedAsWritten(d: Docs, form: PostForm, postId: string, accepted: bool): (r: (bool, Docs))
    ensures form.recipe.Some? || form.groceryList.Some? ==> r == (false, d)
    ensures AddTakesAsBuilt(form) ==>
      var built := NewPost(form, AuthorProfile(d, form.authorId));
      && (r.0 <==> built.Success? && accepted)
      && r.1 == (if r.0 then d.(posts := d.posts[postId := built.post]) else d)
  {
    var built := NewPost(form, AuthorProfile(d, form.authorId));
    if built.Success? && accepted && AddTakesAsBuilt(form) then (true, d.(posts := d.posts[postId := built.post]))
    else (false, d)
  }

  /**
   * The discrepancy: a post with a recipe, from a signed-in author with a
   * profile, is built and accepted, and CreatePostWithImage stores it; as
   * written it is reported as a failure and never stored.
   */
  lemma AttachedPostIsLost(d: Docs, form: PostForm, postId: string)
    requires Truthy(form.authorId) && form.authorId.value in d.publicProfiles
    requires form.recipe.Some? && postId !in d.posts
    ensures NewPost(form, AuthorProfile(d, form.authorId)).Success?
    ensures CreatedAsWritten(d, form, postId, true) == (false, d)
    ensures postId !in CreatedAsWritten(d, form, postId, true).1.posts
  {
    assert ProfileOf(d, form.authorId.value).Some?;
  }

  /** The public profile of the form's author, when the author id is set and the profile exists. */
  function AuthorProfile(d: Docs, authorId: Option<string>): Option<PublicProfile> {
    if Truthy(authorId) then ProfileOf(d, authorId.value) else None
  }
}
