/**
 * The settings page (src/components/settings/page.tsx): the profile form's
 * validation, the paired update of the private record and the public profile
 * on submit, and the paired photo update after an upload.
 */
module Settings {
  import opened Types
  import opened Strings
  import opened Firestore

  // ---------------------------------------------------------------- the form

  /** The values the form submits; `bio` and `gender` are optional in the schema. */
  datatype SettingsValues = SettingsValues(
    displayName: string,
    email: string,
    bio: Option<string>,
    gender: Option<string>)

  datatype FormField = DisplayNameField | EmailField | BioField | GenderField

  const Genders: seq<string> := ["male", "female", "other", "unspecified"]

  const MinDisplayName: nat := 2
  const MaxBio: nat := 160

  /**
   * `settingsSchema`: the fields that fail validation. Whether the e-mail
   * address is well formed is decided by the schema library and is an input.
   */
  function Invalid(v: SettingsValues, emailOk: bool): (r: set<FormField>)
    ensures DisplayNameField in r <==> |v.displayName| < 2
    ensures EmailField in r <==> !emailOk
    ensures BioField in r <==> v.bio.Some? && |v.bio.value| > 160
    ensures GenderField in r <==> v.gender.Some? && v.gender.value !in Genders
    ensures r <= {DisplayNameField, EmailField, BioField, GenderField}
  {
    (if |v.displayName| < MinDisplayName then {DisplayNameField} else {})
    + (if emailOk then {} else {EmailField})
    + (if v.bio.Some? && |v.bio.value| > MaxBio then {BioField} else {})
    + (if v.gender.Some? && v.gender.value !in Genders then {GenderField} else {})
  }

  /** The form reaches `onSubmit` only when no field fails. */
  predicate Valid(v: SettingsValues, emailOk: bool) {
    Invalid(v, emailOk) == {}
  }

  /** A valid form has a display name of two or more characters, a bio of at most 160 and a listed gender. */
  lemma ValidBounds(v: SettingsValues, emailOk: bool)
    ensures Valid(v, emailOk) <==>
      |v.displayName| >= 2 && emailOk && (v.bio.None? || |v.bio.value| <= 160)
      && (v.gender.None? || v.gender.value in Genders)
  {
    var r := Invalid(v, emailOk);
    if |v.displayName| < 2 {
      assert DisplayNameField in r;
    } else if !emailOk {
      assert EmailField in r;
    } else if v.bio.Some? && |v.bio.value| > 160 {
      assert BioField in r;
    } else if v.gender.Some? && v.gender.value !in Genders {
      assert GenderField in r;
    }
  }

  // ---------------------------------------------------------------- the profile update

  /** `privateUpdate`: the display name, bio and gender, and nothing else. */
  function PrivateUpdate(v: SettingsValues): (f: ProfileFields)
    ensures f.displayName == v.displayName && f.bio == v.bio && f.gender == v.gender
  {
    ProfileFields(v.displayName, v.bio, v.gender)
  }

  /**
   * The public `searchableTerms`: the lower-cased words of the display name and
   * the account's username, each once. Unlike the terms of a new account,
   * empty strings are not dropped.
   */
  function PublicTerms(displayName: string, username: string): (r: seq<string>)
    ensures NoDups(r)
    ensures username in r
    ensures forall t :: t in r <==> t in SplitWs(Lower(displayName)) || t == username
  {
    Dedupe(SplitWs(Lower(displayName)) + [username])
  }

  /** A display name that starts with white space puts the empty string into the search terms. */
  lemma PublicTermsKeepEmptyWord(displayName: string, username: string)
    requires displayName != [] && IsSpace(displayName[0])
    ensures "" in PublicTerms(displayName, username)
  {
    var s := Lower(displayName);
    WordEndAt(s, 0);
    SplitWsUnfold(s);
    assert SplitWs(s)[0] == "";
  }

  /** Every search term other than the username is lower case. */
  lemma PublicTermsLowerCase(displayName: string, username: string)
    ensures forall t :: t in PublicTerms(displayName, username) ==> t == username || IsLowerCase(t)
  {
    LowerIsLowerCase(displayName);
    SplitWsLowerCase(Lower(displayName));
  }

  /** The two updates of `onSubmit`, private record first. */
  function SubmitBatch(uid: Uid, v: SettingsValues, username: string): seq<Write> {
    [UpdateUser(uid, PrivateUpdate(v)),
     UpdatePublicProfile(uid, PrivateUpdate(v), Lower(v.displayName), PublicTerms(v.displayName, username))]
  }

  /** The store after a settings submit by `uid`, whose private record holds `username`. */
  function ProfileSaved(d: Docs, uid: Uid, v: SettingsValues): (d': Docs)
    requires uid in d.users && uid in d.publicProfiles
    ensures d'.users == d.users[uid := d.users[uid].(displayName := Some(v.displayName), bio := v.bio, gender := v.gender)]
    ensures d'.publicProfiles == d.publicProfiles[uid := d.publicProfiles[uid].(
      displayName := Some(v.displayName), bio := v.bio, gender := v.gender,
      displayNameLowercase := Lower(v.displayName),
      searchableTerms := PublicTerms(v.displayName, d.users[uid].username))]
    ensures d'.usernames == d.usernames && d'.posts == d.posts && d'.likes == d.likes
    ensures d'.comments == d.comments && d'.notifications == d.notifications
    ensures d'.events == d.events && d'.saved == d.saved
  {
    var u := d.users[uid];
    var p := d.publicProfiles[uid];
    d.(users := d.users[uid := u.(displayName := Some(v.displayName), bio := v.bio, gender := v.gender)],
       publicProfiles := d.publicProfiles[uid := p.(
         displayName := Some(v.displayName), bio := v.bio, gender := v.gender,
         displayNameLowercase := Lower(v.displayName),
         searchableTerms := PublicTerms(v.displayName, u.username))])
  }

  /** The submit batch applies exactly when both records exist. */
  lemma SubmitBatchEffect(d: Docs, uid: Uid, v: SettingsValues)
    requires uid in d.users
    ensures var r := ApplyBatch(d, SubmitBatch(uid, v, d.users[uid].username));
      && (r.Some? <==> uid in d.publicProfiles)
      && (r.Some? ==> r.value == ProfileSaved(d, uid, v))
  {
    var username := d.users[uid].username;
    var b := SubmitBatch(uid, v, username);
    var f := PrivateUpdate(v);
    var d1 := d.(users := d.users[uid := d.users[uid].(displayName := Some(v.displayName), bio := v.bio, gender := v.gender)]);
    UpdateUserEffect(d, uid, f);
    ApplyBatchStep(d, b);
    assert b[1..] == [b[1]];
    ApplyOne(d1, b[1]);
    UpdatePublicProfileEffect(d1, uid, f, Lower(v.displayName), PublicTerms(v.displayName, username));
  }

  /**
   * After a submit the two records show the same display name, bio and
   * gender, the e-mail address and the username are untouched, and the
   * username is among the search terms.
   */
  lemma ProfileSavedAgrees(d: Docs, uid: Uid, v: SettingsValues)
    requires uid in d.users && uid in d.publicProfiles
    ensures var d' := ProfileSaved(d, uid, v);
      var u, p := d'.users[uid], d'.publicProfiles[uid];
      && u.displayName == p.displayName == Some(v.displayName)
      && u.bio == p.bio == v.bio && u.gender == p.gender == v.gender
      && u.email == d.users[uid].email && u.username == d.users[uid].username
      && p.username == d.publicProfiles[uid].username
      && p.displayNameLowercase == Lower(v.displayName)
      && u.username in p.searchableTerms
  {
  }

  // ---------------------------------------------------------------- the photo update

  /** The two updates of `handleSaveImage`: the same URL on both records. */
  function PhotoBatch(uid: Uid, url: string): seq<Write> {
    [UpdateUserPhoto(uid, url), UpdatePublicPhoto(uid, url)]
  }

  /** The store after a new profile photo is saved. */
  function PhotoSaved(d: Docs, uid: Uid, url: string): (d': Docs)
    requires uid in d.users && uid in d.publicProfiles
    ensures d'.users == d.users[uid := d.users[uid].(photoURL := Some(url))]
    ensures d'.publicProfiles == d.publicProfiles[uid := d.publicProfiles[uid].(photoURL := Some(url))]
    ensures d'.users[uid].photoURL == d'.publicProfiles[uid].photoURL == Some(url)
    ensures d'.usernames == d.usernames && d'.posts == d.posts && d'.likes == d.likes
    ensures d'.comments == d.comments && d'.notifications == d.notifications
    ensures d'.events == d.events && d'.saved == d.saved
  {
    d.(users := d.users[uid := d.users[uid].(photoURL := Some(url))],
       publicProfiles := d.publicProfiles[uid := d.publicProfiles[uid].(photoURL := Some(url))])
  }

  /** The photo batch applies exactly when both records exist. */
  lemma PhotoBatchEffect(d: Docs, uid: Uid, url: string)
    ensures var r := ApplyBatch(d, PhotoBatch(uid, url));
      && (r.Some? <==> uid in d.users && uid in d.publicProfiles)
      && (r.Some? ==> r.value == PhotoSaved(d, uid, url))
  {
    var b := PhotoBatch(uid, url);
    UpdatePhotoEffect(d, uid, url);
    if uid in d.users {
      var d1 := d.(users := d.users[uid := d.users[uid].(photoURL := Some(url))]);
      ApplyBatchStep(d, b);
      assert b[1..] == [b[1]];
      ApplyOne(d1, b[1]);
      UpdatePhotoEffect(d1, uid, url);
    }
  }

  // ---------------------------------------------------------------- the page

  /** The page's state: the signed-in account, the chosen image and the upload flag. */
  class SettingsPage {
    const db: Database
    const signedIn: Option<Uid>
    var imageFile: Option<string>
    var isUploading: bool

    constructor (db: Database, signedIn: Option<Uid>)
      ensures this.db == db && this.signedIn == signedIn
      ensures imageFile.None? && !isUploading
    {
      this.db := db;
      this.signedIn := signedIn;
      imageFile := None;
      isUploading := false;
    }

    /** `handleImageFileSelect`: a chosen file replaces the previous one; no choice keeps it. */
    method SelectImage(file: Option<string>)
      modifies this
      ensures imageFile == (if file.Some? then file else old(imageFile))
      ensures isUploading == old(isUploading)
    {
      if file.Some? {
        imageFile := file;
      }
    }

    /**
     * `handleSaveImage`. Without an image or a signed-in account nothing
     * happens. Otherwise `uploaded` is the download URL of the uploaded file
     * (None when the upload fails); the URL goes to both records in one batch,
     * a committed batch clears the chosen image, and the upload flag ends
     * false.
     */
    method SaveImage(uploaded: Option<string>, accepted: bool) returns (committed: bool)
      modifies this, db
      ensures imageFile == old(imageFile) || (committed && imageFile.None?)
      ensures old(imageFile).None? || signedIn.None? ==>
        !committed && db.docs == old(db.docs) && isUploading == old(isUploading)
      ensures old(imageFile).Some? && signedIn.Some? ==> !isUploading
      ensures committed <==>
        old(imageFile).Some? && signedIn.Some? && uploaded.Some? && accepted
        && signedIn.value in old(db.docs.users) && signedIn.value in old(db.docs.publicProfiles)
      ensures db.docs == (if committed then PhotoSaved(old(db.docs), signedIn.value, uploaded.value) else old(db.docs))
      ensures imageFile == (if committed then None else old(imageFile))
    {
      committed := false;
      if imageFile.None? || signedIn.None? {
        return;
      }
      isUploading := true;
      if uploaded.Some? {
        PhotoBatchEffect(db.docs, signedIn.value, uploaded.value);
        committed := db.Commit(PhotoBatch(signedIn.value, uploaded.value), accepted);
        if committed {
          imageFile := None;
        }
      }
      isUploading := false;
    }

    /**
     * The form's submit: an invalid form never reaches `onSubmit`; without a
     * signed-in account or its loaded private record nothing is written;
     * otherwise both records are updated in one batch.
     */
    method Submit(values: SettingsValues, emailOk: bool, accepted: bool) returns (committed: bool)
      modifies db
      ensures committed <==>
        Valid(values, emailOk) && signedIn.Some? && accepted
        && signedIn.value in old(db.docs.users) && signedIn.value in old(db.docs.publicProfiles)
      ensures db.docs == (if committed then ProfileSaved(old(db.docs), signedIn.value, values) else old(db.docs))
    {
      if !Valid(values, emailOk) || signedIn.None? || signedIn.value !in db.docs.users {
        return false;
      }
      var uid := signedIn.value;
      SubmitBatchEffect(db.docs, uid, values);
      committed := db.Commit(SubmitBatch(uid, values, db.docs.users[uid].username), accepted);
    }
  }
}
