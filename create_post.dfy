/**
 * The post composer (src/components/posts/create-post.tsx): the draft being
 * written, the recipe or grocery list attached to it, the image analysis that
 * may pre-fill it, and the checks made before it is sent to the post action.
 */
module Composer {
  import opened Types
  import opened Strings
  import opened Firestore
  import Actions

  /** What the image-analysis flow returns. */
  datatype ImageAnalysis = ImageAnalysis(category: string, title: string, description: string)

  /**
   * One started analysis: the content the handler saw when the image was
   * chosen, and whether its abort controller has been aborted.
   */
  datatype Analysis = Analysis(capturedContent: string, aborted: bool)

  /** The values the component keeps with `useState`. */
  datatype Ui = Ui(
    content: string,
    location: string,
    tags: string,
    externalVideoUrl: string,
    imageUri: Option<string>,
    imageFile: Option<string>,
    attachedRecipe: Option<Recipe>,
    attachedGroceryList: Option<GroceryList>,
    isLoading: bool,
    isRecipeDialogOpen: bool,
    isGroceryListDialogOpen: bool,
    analysisResult: Option<ImageAnalysis>,
    isAnalyzing: bool)

  /**
   * The whole component: its state, every analysis started (by ticket, with
   * its abort signal) and the analysis `analysisControllerRef` holds.
   */
  datatype Draft = Draft(ui: Ui, analyses: seq<Analysis>, controller: Option<nat>)

  const NotSignedIn: string := "You must be logged in to post."
  const EmptyPost: string := "Please add some content to your post."

  /** The fields `resetState` clears, all cleared. */
  predicate Blank(s: Draft) {
    && s.ui.content == "" && s.ui.location == "" && s.ui.tags == "" && s.ui.externalVideoUrl == ""
    && s.ui.imageUri.None? && s.ui.imageFile.None?
    && s.ui.attachedRecipe.None? && s.ui.attachedGroceryList.None?
    && !s.ui.isLoading && s.ui.analysisResult.None? && !s.ui.isAnalyzing
  }

  /**
   * What the handlers keep true: at most one attachment; the controller names
   * a started analysis and is the only one not aborted; the spinner runs only
   * while that analysis is live, and never beside a result.
   */
  predicate Valid(s: Draft) {
    && (s.ui.attachedRecipe.None? || s.ui.attachedGroceryList.None?)
    && (s.controller.Some? ==> s.controller.value < |s.analyses|)
    && (forall t :: 0 <= t < |s.analyses| && !s.analyses[t].aborted ==> s.controller == Some(t))
    && (s.ui.isAnalyzing ==> Live(s, s.controller))
    && !(s.ui.isAnalyzing && s.ui.analysisResult.Some?)
  }

  /** The analysis `t` is started and its controller was not aborted. */
  predicate Live(s: Draft, t: Option<nat>) {
    t.Some? && t.value < |s.analyses| && !s.analyses[t.value].aborted
  }

  /** The state on first render. */
  function Initial(): (s: Draft)
    ensures Blank(s) && Valid(s)
    ensures s.analyses == [] && s.controller.None?
    ensures !s.ui.isRecipeDialogOpen && !s.ui.isGroceryListDialogOpen
  {
    Draft(Ui("", "", "", "", None, None, None, None, false, false, false, None, false), [], None)
  }

  /** `analysisControllerRef.current.abort()`, when there is a controller. */
  function Aborted(analyses: seq<Analysis>, controller: Option<nat>): seq<Analysis> {
    if controller.Some? && controller.value < |analyses| then
      var c := controller.value;
      analyses[c := analyses[c].(aborted := true)]
    else analyses
  }

  /** An abort marks the controller's analysis aborted, and no other. */
  lemma AbortEffect(analyses: seq<Analysis>, controller: Option<nat>)
    ensures var r := Aborted(analyses, controller);
      && |r| == |analyses|
      && forall t :: 0 <= t < |analyses| ==>
           r[t].capturedContent == analyses[t].capturedContent
           && (r[t].aborted <==> analyses[t].aborted || controller == Some(t))
  {
  }

  // ---------------------------------------------------------------- attachments

  /** `handleSelectRecipe`: attach the recipe, drop any grocery list, close the dialog. */
  function WithRecipe(s: Draft, recipe: Recipe): (r: Draft)
    ensures r.ui.attachedRecipe == Some(recipe) && r.ui.attachedGroceryList.None? && !r.ui.isRecipeDialogOpen
    ensures r.analyses == s.analyses && r.controller == s.controller
    ensures r.ui.(attachedRecipe := s.ui.attachedRecipe, attachedGroceryList := s.ui.attachedGroceryList,
                  isRecipeDialogOpen := s.ui.isRecipeDialogOpen) == s.ui
  {
    s.(ui := s.ui.(attachedRecipe := Some(recipe), attachedGroceryList := None, isRecipeDialogOpen := false))
  }

  /** `handleSelectGroceryList`: attach the list, drop any recipe, close the dialog. */
  function WithGroceryList(s: Draft, list: GroceryList): (r: Draft)
    ensures r.ui.attachedGroceryList == Some(list) && r.ui.attachedRecipe.None? && !r.ui.isGroceryListDialogOpen
    ensures r.analyses == s.analyses && r.controller == s.controller
    ensures r.ui.(attachedRecipe := s.ui.attachedRecipe, attachedGroceryList := s.ui.attachedGroceryList,
                  isGroceryListDialogOpen := s.ui.isGroceryListDialogOpen) == s.ui
  {
    s.(ui := s.ui.(attachedGroceryList := Some(list), attachedRecipe := None, isGroceryListDialogOpen := false))
  }

  /** Whatever was attached before, the draft carries at most one attachment, and the last one wins. */
  lemma AttachmentsExclusive(s: Draft, recipe: Recipe, list: GroceryList)
    requires Valid(s)
    ensures Valid(WithRecipe(s, recipe)) && Valid(WithGroceryList(s, list))
    ensures WithGroceryList(WithRecipe(s, recipe), list).ui.attachedRecipe.None?
    ensures WithRecipe(WithGroceryList(s, list), recipe).ui.attachedGroceryList.None?
  {
  }

  // ---------------------------------------------------------------- image analysis

  /**
   * `handleImageChange`: show the image, keep the file when one is given,
   * start the spinner, clear the old result, abort the previous analysis and
   * start analysis number |s.analyses|, which sees the current content.
   */
  function ImageChanged(s: Draft, dataUri: string, file: Option<string>): (r: Draft)
    ensures r.ui.imageUri == Some(dataUri) && r.ui.imageFile == (if file.Some? then file else s.ui.imageFile)
    ensures r.ui.isAnalyzing && r.ui.analysisResult.None?
    ensures r.controller == Some(|s.analyses|) && |r.analyses| == |s.analyses| + 1
    ensures r.analyses[..|s.analyses|] == Aborted(s.analyses, s.controller)
    ensures r.analyses[|s.analyses|] == Analysis(s.ui.content, false)
    ensures r.ui.(imageUri := s.ui.imageUri, imageFile := s.ui.imageFile, isAnalyzing := s.ui.isAnalyzing,
                  analysisResult := s.ui.analysisResult) == s.ui
  {
    AbortEffect(s.analyses, s.controller);
    Draft(s.ui.(imageUri := Some(dataUri),
                imageFile := if file.Some? then file else s.ui.imageFile,
                isAnalyzing := true,
                analysisResult := None),
          Aborted(s.analyses, s.controller) + [Analysis(s.ui.content, false)],
          Some(|s.analyses|))
  }

  /** The text an analysis writes into an empty draft. */
  function Caption(a: ImageAnalysis): string {
    a.title + "\n\n" + a.description
  }

  /**
   * The `.then` and `.finally` of analysis `t`: nothing once its controller
   * was aborted; otherwise the result is shown, the spinner stops, and the
   * caption replaces the content only when the content the handler saw was empty.
   */
  function AnalysisDone(s: Draft, t: nat, result: ImageAnalysis): (r: Draft)
    ensures !Live(s, Some(t)) ==> r == s
    ensures Live(s, Some(t)) ==>
      && r.ui.analysisResult == Some(result) && !r.ui.isAnalyzing
      && r.ui.content == (if s.analyses[t].capturedContent == "" then Caption(result) else s.ui.content)
      && r.analyses == s.analyses && r.controller == s.controller
      && r.ui.(analysisResult := s.ui.analysisResult, isAnalyzing := s.ui.isAnalyzing, content := s.ui.content) == s.ui
  {
    if !Live(s, Some(t)) then s
    else
      s.(ui := s.ui.(analysisResult := Some(result),
                     content := if s.analyses[t].capturedContent == "" then Caption(result) else s.ui.content,
                     isAnalyzing := false))
  }

  /** The `.catch` and `.finally` of analysis `t`: only the spinner stops, and only when it was not aborted. */
  function AnalysisErred(s: Draft, t: nat): (r: Draft)
    ensures !Live(s, Some(t)) ==> r == s
    ensures Live(s, Some(t)) ==> r == s.(ui := s.ui.(isAnalyzing := false))
  {
    if !Live(s, Some(t)) then s else s.(ui := s.ui.(isAnalyzing := false))
  }

  /** `handleCancelAnalysis`: abort, stop the spinner, drop the result. */
  function AnalysisCancelled(s: Draft): (r: Draft)
    ensures !r.ui.isAnalyzing && r.ui.analysisResult.None?
    ensures !Live(r, r.controller)
    ensures r.ui.(isAnalyzing := s.ui.isAnalyzing, analysisResult := s.ui.analysisResult) == s.ui
    ensures r.controller == s.controller && r.analyses == Aborted(s.analyses, s.controller)
  {
    AbortEffect(s.analyses, s.controller);
    Draft(s.ui.(isAnalyzing := false, analysisResult := None), Aborted(s.analyses, s.controller), s.controller)
  }

  /** `resetState`: every field of the draft cleared and the running analysis aborted. */
  function Reset(s: Draft): (r: Draft)
    ensures Blank(r) && !Live(r, r.controller)
    ensures r.controller == s.controller && |r.analyses| == |s.analyses|
    ensures r.ui.isRecipeDialogOpen == s.ui.isRecipeDialogOpen && r.ui.isGroceryListDialogOpen == s.ui.isGroceryListDialogOpen
  {
    AbortEffect(s.analyses, s.controller);
    Draft(Ui("", "", "", "", None, None, None, None, false, s.ui.isRecipeDialogOpen, s.ui.isGroceryListDialogOpen,
             None, false),
          Aborted(s.analyses, s.controller), s.controller)
  }

  /** The loading flag makes no difference to what a reset leaves. */
  lemma ResetIgnoresLoading(s: Draft)
    ensures Reset(s.(ui := s.ui.(isLoading := true))) == Reset(s)
  {
  }

  /** After an abort every started analysis is aborted: the controller was the only live one. */
  lemma AbortSilencesAll(s: Draft)
    requires Valid(s)
    ensures forall t :: 0 <= t < |s.analyses| ==> Aborted(s.analyses, s.controller)[t].aborted
  {
    AbortEffect(s.analyses, s.controller);
    forall t | 0 <= t < |s.analyses| ensures Aborted(s.analyses, s.controller)[t].aborted {
      if !s.analyses[t].aborted {
        assert s.controller == Some(t);
      }
    }
  }

  /** Starting an analysis keeps the invariant. */
  lemma ImageChangedKeepsValid(s: Draft, dataUri: string, file: Option<string>)
    requires Valid(s)
    ensures Valid(ImageChanged(s, dataUri, file))
  {
    AbortSilencesAll(s);
  }

  /** Settling an analysis, cancelling and resetting keep the invariant. */
  lemma SettlingKeepsValid(s: Draft, t: nat, result: ImageAnalysis)
    requires Valid(s)
    ensures Valid(AnalysisDone(s, t, result)) && Valid(AnalysisErred(s, t))
    ensures Valid(AnalysisCancelled(s)) && Valid(Reset(s))
  {
    AbortSilencesAll(s);
  }

  /** Once a newer image is chosen, the older analyses change nothing when they settle. */
  lemma StaleAnalysisIgnored(s: Draft, dataUri: string, file: Option<string>, t: nat, result: ImageAnalysis)
    requires Valid(s) && t < |s.analyses|
    ensures var r := ImageChanged(s, dataUri, file);
      AnalysisDone(r, t, result) == r && AnalysisErred(r, t) == r
  {
    AbortSilencesAll(s);
  }

  /**
   * The newest analysis settling successfully shows its result and fills an
   * empty draft with its caption; a draft that had text keeps it.
   */
  lemma NewestAnalysisApplies(s: Draft, dataUri: string, file: Option<string>, result: ImageAnalysis)
    ensures var r := AnalysisDone(ImageChanged(s, dataUri, file), |s.analyses|, result);
      && r.ui.analysisResult == Some(result) && !r.ui.isAnalyzing
      && (s.ui.content == "" ==> r.ui.content == Caption(result))
      && (s.ui.content != "" ==> r.ui.content == s.ui.content)
  {
  }

  /** After a cancel or a reset, no analysis that settles changes anything. */
  lemma CancelSilencesAnalyses(s: Draft, t: nat, result: ImageAnalysis)
    requires Valid(s)
    ensures AnalysisDone(AnalysisCancelled(s), t, result) == AnalysisCancelled(s)
    ensures AnalysisDone(Reset(s), t, result) == Reset(s)
  {
    AbortSilencesAll(s);
  }

  // ---------------------------------------------------------------- posting

  /**
   * The checks of `handlePost` before anything is sent: a signed-in user, and
   * some trimmed content, an image, a recipe or a grocery list.
   */
  function PostError(user: Option<Uid>, s: Draft): (r: Option<string>)
    ensures user.None? ==> r == Some(NotSignedIn)
    ensures user.Some? ==> (r.Some? <==>
      AllSpace(s.ui.content) && !Truthy(s.ui.imageUri) && s.ui.attachedRecipe.None? && s.ui.attachedGroceryList.None?)
    ensures r.Some? ==> r == Some(NotSignedIn) || r == Some(EmptyPost)
  {
    if user.None? then Some(NotSignedIn)
    else if Trim(s.ui.content) == "" && !Truthy(s.ui.imageUri) && s.ui.attachedRecipe.None? && s.ui.attachedGroceryList.None? then
      Some(EmptyPost)
    else None
  }

  /** Attaching a recipe or a grocery list always makes the draft postable for a signed-in user. */
  lemma AttachmentMakesPostable(uid: Uid, s: Draft, recipe: Recipe, list: GroceryList)
    ensures PostError(Some(uid), WithRecipe(s, recipe)).None?
    ensures PostError(Some(uid), WithGroceryList(s, list)).None?
  {
  }

  /** A blank draft is refused as empty. */
  lemma BlankIsRefused(uid: Uid, s: Draft)
    requires Blank(s)
    ensures PostError(Some(uid), s) == Some(EmptyPost)
  {
  }

  /** `if (x.trim()) formData.append(name, x.trim())`: the trimmed text, when there is any. */
  function Optional(text: string): (r: Option<string>)
    ensures r.Some? <==> !AllSpace(text)
    ensures r.Some? ==> r.value == Trim(text) && r.value != ""
    ensures r.Some? ==> !IsSpace(r.value[0]) && !IsSpace(r.value[|r.value| - 1])
  {
    var t := Trim(text);
    if t != "" then Some(t) else None
  }

  /**
   * The form `handlePost` sends: the content as typed, the optional text
   * fields trimmed or absent, the attachments, and the image when a file was
   * chosen; `uploadedUrl` stands for where the action stores that file.
   */
  function Form(s: Draft, uid: Uid, uploadedUrl: string): (f: Actions.PostForm)
    ensures f.authorId == Some(uid) && f.content == s.ui.content
    ensures f.location == Optional(s.ui.location) && f.tags == Optional(s.ui.tags)
    ensures f.externalVideoUrl == Optional(s.ui.externalVideoUrl)
    ensures f.recipe == s.ui.attachedRecipe && f.groceryList == s.ui.attachedGroceryList
    ensures f.mediaURL == (if s.ui.imageFile.Some? then Some(uploadedUrl) else None)
  {
    Actions.PostForm(Some(uid), s.ui.content, Optional(s.ui.location), Optional(s.ui.tags), Optional(s.ui.externalVideoUrl),
                     s.ui.attachedRecipe, s.ui.attachedGroceryList, if s.ui.imageFile.Some? then Some(uploadedUrl) else None)
  }

  /**
   * What the composer sends arrives intact: with the author's profile the
   * action builds a post whose optional fields are exactly the trimmed,
   * non-empty ones, and it carries at most one attachment.
   */
  lemma SentFieldsArrive(s: Draft, uid: Uid, uploadedUrl: string, profile: PublicProfile)
    requires uid != "" && Valid(s)
    ensures var r := Actions.NewPost(Form(s, uid, uploadedUrl), Some(profile));
      && r.Success?
      && r.post.content == s.ui.content
      && r.post.location == Optional(s.ui.location)
      && r.post.externalVideoUrl == Optional(s.ui.externalVideoUrl)
      && r.post.tags == (if AllSpace(s.ui.tags) then None else Some(Actions.ParseTags(Trim(s.ui.tags))))
      && r.post.recipe == (if s.ui.attachedRecipe.Some? then Some(Actions.StripRecipe(s.ui.attachedRecipe.value)) else None)
      && r.post.groceryList ==
           (if s.ui.attachedGroceryList.Some? then Some(Actions.StripGroceryList(s.ui.attachedGroceryList.value)) else None)
      && (r.post.recipe.None? || r.post.groceryList.None?)
      && r.post.mediaURL == (if s.ui.imageFile.Some? then Some(uploadedUrl) else None)
  {
    var f := Form(s, uid, uploadedUrl);
    assert Truthy(f.authorId);
  }

  /**
   * The post action's outcome seen from the composer: `success` exactly when
   * the action built the post from the form and the write was accepted; the
   * post is then stored under `postId` and the draft reset, and otherwise the
   * store is untouched and the draft kept, with the loading flag cleared.
   */
  predicate Sent(s: Draft, d: Docs, uid: Uid, uploadedUrl: string, postId: string, accepted: bool,
                 success: bool, s': Draft, d': Docs) {
    var form := Form(s, uid, uploadedUrl);
    var built := Actions.NewPost(form, Actions.AuthorProfile(d, form.authorId));
    && (success <==> built.Success? && accepted)
    && d' == (if success then d.(posts := d.posts[postId := built.post]) else d)
    && s' == (if success then Reset(s) else s.(ui := s.ui.(isLoading := false)))
  }

  // ---------------------------------------------------------------- the component

  /**
   * The component. React applies the setters of one handler together, so
   * each handler replaces `ui` once; the controller ref and the abort
   * signals change in place.
   */
  class PostComposer {
    const user: Option<Uid>
    var ui: Ui
    var analyses: seq<Analysis>
    var controller: Option<nat>

    /** The component as a value. */
    function Snapshot(): Draft
      reads this
    {
      Draft(ui, analyses, controller)
    }

    constructor(user: Option<Uid>)
      ensures this.user == user && Snapshot() == Initial()
    {
      this.user := user;
      ui := Ui("", "", "", "", None, None, None, None, false, false, false, None, false);
      analyses, controller := [], None;
    }

    /** The text area's `onChange`. */
    method EditContent(text: string)
      modifies this
      ensures Snapshot() == old(Snapshot()).(ui := old(ui).(content := text))
    {
      ui := ui.(content := text);
    }

    method SelectRecipe(recipe: Recipe)
      modifies this
      ensures Snapshot() == WithRecipe(old(Snapshot()), recipe)
    {
      ui := ui.(attachedRecipe := Some(recipe), attachedGroceryList := None, isRecipeDialogOpen := false);
    }

    method SelectGroceryList(list: GroceryList)
      modifies this
      ensures Snapshot() == WithGroceryList(old(Snapshot()), list)
    {
      ui := ui.(attachedGroceryList := Some(list), attachedRecipe := None, isGroceryListDialogOpen := false);
    }

    /** Aborts the controller in `analysisControllerRef`, if there is one. */
    method AbortController()
      modifies this`analyses
      ensures analyses == Aborted(old(analyses), controller)
    {
      if controller.Some? && controller.value < |analyses| {
        var c := controller.value;
        analyses := analyses[c := analyses[c].(aborted := true)];
      }
    }

    /** `handleImageChange`; `ticket` names the analysis it starts. */
    method ImageChange(dataUri: string, file: Option<string>) returns (ticket: nat)
      modifies this
      ensures ticket == |old(analyses)|
      ensures Snapshot() == ImageChanged(old(Snapshot()), dataUri, file)
    {
      ui := ui.(imageUri := Some(dataUri),
                imageFile := if file.Some? then file else ui.imageFile,
                isAnalyzing := true,
                analysisResult := None);
      AbortController();
      ticket := |analyses|;
      analyses := analyses + [Analysis(ui.content, false)];
      controller := Some(ticket);
    }

    /** Analysis `ticket` returned `result`. */
    method AnalysisSucceeded(ticket: nat, result: ImageAnalysis)
      modifies this
      ensures Snapshot() == AnalysisDone(old(Snapshot()), ticket, result)
    {
      if ticket >= |analyses| || analyses[ticket].aborted {
        return;
      }
      var content := ui.content;
      if analyses[ticket].capturedContent == "" {
        content := Caption(result);
      }
      ui := ui.(analysisResult := Some(result), content := content, isAnalyzing := false);
    }

    /** Analysis `ticket` failed. */
    method AnalysisFailed(ticket: nat)
      modifies this
      ensures Snapshot() == AnalysisErred(old(Snapshot()), ticket)
    {
      if ticket < |analyses| && !analyses[ticket].aborted {
        ui := ui.(isAnalyzing := false);
      }
    }

    method CancelAnalysis()
      modifies this
      ensures Snapshot() == AnalysisCancelled(old(Snapshot()))
    {
      AbortController();
      ui := ui.(isAnalyzing := false, analysisResult := None);
    }

    method ResetState()
      modifies this
      ensures Snapshot() == Reset(old(Snapshot()))
    {
      ui := Ui("", "", "", "", None, None, None, None, false, ui.isRecipeDialogOpen, ui.isGroceryListDialogOpen,
               None, false);
      AbortController();
    }

    /**
     * `handlePost`: the checks, then the form sent to the post action; a
     * post that is written resets the composer, and the loading flag ends
     * cleared either way.
     */
    method HandlePost(db: Database, postId: string, uploadedUrl: string, accepted: bool)
      returns (error: Option<string>, success: bool)
      requires postId !in db.docs.posts
      modifies this, db
      ensures error == PostError(user, old(Snapshot()))
      ensures error.Some? ==> !success && Snapshot() == old(Snapshot()) && db.docs == old(db.docs)
      ensures error.None? ==>
        user.Some? && Sent(old(Snapshot()), old(db.docs), user.value, uploadedUrl, postId, accepted, success,
                           Snapshot(), db.docs)
    {
      error := PostError(user, Snapshot());
      if error.Some? {
        return error, false;
      }
      success := Send(db, postId, uploadedUrl, accepted);
    }

    /** The part of `handlePost` after the checks. */
    method Send(db: Database, postId: string, uploadedUrl: string, accepted: bool) returns (success: bool)
      requires user.Some? && postId !in db.docs.posts
      modifies this, db
      ensures Sent(old(Snapshot()), old(db.docs), user.value, uploadedUrl, postId, accepted, success, Snapshot(), db.docs)
    {
      ghost var before := Snapshot();
      var form := Form(Snapshot(), user.value, uploadedUrl);
      ui := ui.(isLoading := true);
      ghost var loading := Snapshot();
      success := Actions.CreatePostWithImage(db, form, postId, accepted);
      assert Snapshot() == loading;
      if success {
        ResetState();
        ResetIgnoresLoading(before);
      }
      ui := ui.(isLoading := false);
    }
  }
}
