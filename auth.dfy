/**
 * First sign-in and route guarding (src/context/auth-context.tsx): the
 * username, display name and search terms of a new account, the three records
 * written for it, and where the app sends a visitor.
 */
module Auth {
  import opened Types
  import opened Strings
  import opened Firestore

  // ---------------------------------------------------------------- identity

  /** `s.toLowerCase().replace(/[^a-z0-9]/g, '')`. */
  function Sanitize(s: string): (r: string)
    ensures forall i :: 0 <= i < |r| ==> IsLowerAlnum(r[i])
    ensures forall c :: c in r <==> c in Lower(s) && IsLowerAlnum(c)
    ensures |r| <= |s|
  {
    var r := Filter(IsLowerAlnum, Lower(s));
    assert forall i :: 0 <= i < |r| ==> r[i] in r;
    r
  }

  /** Sanitizing works character by character: it distributes over concatenation. */
  lemma SanitizeConcat(a: string, b: string)
    ensures Sanitize(a + b) == Sanitize(a) + Sanitize(b)
  {
    assert Lower(a + b) == Lower(a) + Lower(b);
    FilterConcat(IsLowerAlnum, Lower(a), Lower(b));
  }

  /** One character is lower-cased and kept exactly when it is then a letter a-z or a digit. */
  lemma SanitizeChar(c: char)
    ensures Sanitize([c]) == if IsLowerAlnum(LowerChar(c)) then [LowerChar(c)] else []
  {
    assert Lower([c]) == [LowerChar(c)];
    assert Filter(IsLowerAlnum, [LowerChar(c)]) ==
      (if IsLowerAlnum(LowerChar(c)) then [LowerChar(c)] else []) + Filter(IsLowerAlnum, []);
  }

  /** Sanitizing a sanitized name changes nothing. */
  lemma SanitizeIdempotent(s: string)
    ensures Sanitize(Sanitize(s)) == Sanitize(s)
  {
    var r := Sanitize(s);
    assert Lower(r) == r;
    FilterAll(IsLowerAlnum, r);
  }

  /** The local part of an e-mail address, `email.split('@')[0]`. */
  function LocalPart(email: string): (r: string)
    ensures '@' !in r && |r| <= |email| && r == email[..|r|]
    ensures |r| < |email| ==> email[|r|] == '@'
  {
    BeforeFirst(email, '@')
  }

  /**
   * The username of a new account: the sanitized local part of its e-mail
   * address, or "user" and the first five characters of the uid when there is
   * no address or nothing of it survives.
   */
  function Username(email: Option<string>, uid: Uid): (r: string)
    ensures r != ""
    ensures email.Some? && Sanitize(LocalPart(email.value)) != "" ==> r == Sanitize(LocalPart(email.value))
    ensures email.None? || Sanitize(LocalPart(email.value)) == "" ==> r == "user" + Prefix(uid, 5)
  {
    var fromEmail := if email.Some? then Sanitize(LocalPart(email.value)) else "";
    if fromEmail != "" then fromEmail else "user" + Prefix(uid, 5)
  }

  /** A username taken from an address holds only lower-case letters and digits; a fallback is at most nine characters. */
  lemma UsernameShape(email: Option<string>, uid: Uid)
    ensures var u := Username(email, uid);
      (forall i :: 0 <= i < |u| ==> IsLowerAlnum(u[i])) || (|u| <= 9 && u[..4] == "user")
  {
  }

  /** `user.displayName || user.email?.split('@')[0] || 'Anonymous User'`. */
  function DisplayName(user: AuthUser): (r: string)
    ensures r != ""
    ensures Truthy(user.displayName) ==> r == user.displayName.value
    ensures !Truthy(user.displayName) && user.email.Some? && LocalPart(user.email.value) != "" ==>
      r == LocalPart(user.email.value)
    ensures !Truthy(user.displayName) && (user.email.None? || LocalPart(user.email.value) == "") ==>
      r == "Anonymous User"
  {
    OrElse(user.displayName, OrElse(if user.email.Some? then Some(LocalPart(user.email.value)) else None, "Anonymous User"))
  }

  /**
   * A new account's `searchableTerms`: the lower-cased words of the display
   * name and the username, each once, empty strings dropped.
   */
  function NewUserTerms(displayName: string, username: string): (r: seq<string>)
    ensures NoDups(r)
    ensures forall t :: t in r ==> t != ""
    ensures username != "" ==> username in r
    ensures forall t :: t in r <==> t != "" && (t in SplitWs(Lower(displayName)) || t == username)
  {
    var all := Dedupe(SplitWs(Lower(displayName)) + [username]);
    FilterNoDups(IsNonEmpty, all);
    Filter(IsNonEmpty, all)
  }

  /** Every term other than the username is lower case. */
  lemma NewUserTermsLowerCase(displayName: string, username: string)
    ensures forall t :: t in NewUserTerms(displayName, username) ==> t == username || IsLowerCase(t)
  {
    LowerIsLowerCase(displayName);
    SplitWsLowerCase(Lower(displayName));
  }

  // ---------------------------------------------------------------- the new records

  const Accent: string := "#00BFFF"
  const WelcomeBio: string := "Just joined!"

  /** The private record `users/{uid}` of a new account. */
  function NewUserRecord(user: AuthUser): (u: UserRecord)
    ensures u.uid == user.uid && u.username == Username(user.email, user.uid)
    ensures u.email == user.email && u.displayName == Some(DisplayName(user))
    ensures u.photoURL == (if Truthy(user.photoURL) then user.photoURL else None)
    ensures u.bio == Some(WelcomeBio) && u.gender.None?
    ensures u.followers == [] && u.following == [] && u.followerCount == 0 && u.followingCount == 0
    ensures u.accentColor == Accent
  {
    UserRecord(user.uid, Username(user.email, user.uid), user.email, Some(DisplayName(user)),
               if Truthy(user.photoURL) then user.photoURL else None,
               Some(WelcomeBio), None, [], [], 0, 0, Accent)
  }

  /** The public profile `publicProfiles/{uid}`, copied from the private record. */
  function NewPublicProfile(user: AuthUser): (p: PublicProfile)
    ensures var u := NewUserRecord(user);
      && p.uid == u.uid && p.username == u.username && p.displayName == u.displayName
      && p.photoURL == u.photoURL && p.bio == u.bio && p.gender.None?
      && p.displayNameLowercase == Lower(DisplayName(user))
      && p.followerCount == 0 && p.followingCount == 0 && p.accentColor == Accent
      && p.searchableTerms == NewUserTerms(DisplayName(user), u.username)
  {
    var u := NewUserRecord(user);
    PublicProfile(u.uid, u.username, u.displayName, Lower(DisplayName(user)), u.photoURL, u.bio, None,
                  0, 0, NewUserTerms(DisplayName(user), u.username), Accent)
  }

  /** The three writes of `handleNewUser`, in order. */
  function NewUserBatch(user: AuthUser): seq<Write> {
    [SetUser(NewUserRecord(user)), SetPublicProfile(NewPublicProfile(user)),
     SetUsername(Username(user.email, user.uid), user.uid)]
  }

  /** The store after the records of a new account are written. */
  function WithNewUser(d: Docs, user: AuthUser): (d': Docs)
    ensures d'.users == d.users[user.uid := NewUserRecord(user)]
    ensures d'.publicProfiles == d.publicProfiles[user.uid := NewPublicProfile(user)]
    ensures d'.usernames == d.usernames[Username(user.email, user.uid) := user.uid]
    ensures d'.posts == d.posts && d'.likes == d.likes && d'.comments == d.comments
    ensures d'.notifications == d.notifications && d'.events == d.events && d'.saved == d.saved
  {
    d.(users := d.users[user.uid := NewUserRecord(user)],
       publicProfiles := d.publicProfiles[user.uid := NewPublicProfile(user)],
       usernames := d.usernames[Username(user.email, user.uid) := user.uid])
  }

  /**
   * The batch of a new account always applies, and afterwards the private
   * record, the public profile and the username reservation agree. A
   * reservation of the same username by another account is overwritten.
   */
  lemma NewUserBatchEffect(d: Docs, user: AuthUser)
    ensures ApplyBatch(d, NewUserBatch(user)) == Some(WithNewUser(d, user))
  {
    var b := NewUserBatch(user);
    var u, p, name := NewUserRecord(user), NewPublicProfile(user), Username(user.email, user.uid);
    var d1 := d.(users := d.users[u.uid := u]);
    var d2 := d1.(publicProfiles := d1.publicProfiles[p.uid := p]);
    SetUserEffect(d, u);
    ApplyBatchStep(d, b);
    SetPublicProfileEffect(d1, p);
    ApplyBatchStep(d1, b[1..]);
    assert b[1..][1..] == [SetUsername(name, user.uid)];
    SetUsernameEffect(d2, name, user.uid);
  }

  /** After the batch, the public profile mirrors the private record and the username points to the account. */
  lemma NewUserRecordsAgree(d: Docs, user: AuthUser)
    ensures var d' := WithNewUser(d, user);
      var u := d'.users[user.uid];
      var p := d'.publicProfiles[user.uid];
      && p.uid == u.uid && p.username == u.username && p.displayName == u.displayName
      && p.photoURL == u.photoURL && p.bio == u.bio
      && p.followerCount == u.followerCount == 0 && p.followingCount == u.followingCount == 0
      && d'.usernames[u.username] == u.uid
      && u.username in p.searchableTerms
  {
  }

  /**
   * `handleNewUser`: nothing is written when `users/{uid}` exists; otherwise
   * the three records are committed in one batch.
   */
  method HandleNewUser(db: Database, user: AuthUser, accepted: bool) returns (committed: bool)
    modifies db
    ensures user.uid in old(db.docs.users) ==> !committed && db.docs == old(db.docs)
    ensures user.uid !in old(db.docs.users) ==>
      (committed <==> accepted) && db.docs == (if committed then WithNewUser(old(db.docs), user) else old(db.docs))
  {
    if user.uid in db.docs.users {
      return false;
    }
    NewUserBatchEffect(db.docs, user);
    committed := db.Commit(NewUserBatch(user), accepted);
  }

  // ---------------------------------------------------------------- route guards

  predicate IsAuthPage(path: string) { path == "/login" || path == "/signup" }

  const PublicPaths: seq<string> := ["/privacy-policy", "/terms-of-service", "/offer-help"]

  /** `/^\/[^/]+$/`: a slash followed by one or more characters none of which is a slash. */
  predicate IsSingleSegment(path: string) {
    |path| >= 2 && path[0] == '/' && '/' !in path[1..]
  }

  /** `/^\/(profile)\/[^/]+$/`. */
  predicate IsProfilePath(path: string) {
    |path| >= 10 && path[..9] == "/profile/" && '/' !in path[9..]
  }

  /**
   * The provider's redirect: a signed-in visitor on /login or /signup goes to
   * "/"; a signed-out visitor goes to /login unless the page is an auth page,
   * a listed public page or a single-segment path. None: stay.
   */
  function AuthRedirect(loading: bool, signedIn: bool, path: string): (target: Option<string>)
    ensures target.Some? ==> !loading
    ensures target == Some("/") <==> !loading && signedIn && IsAuthPage(path)
    ensures target == Some("/login") <==>
      !loading && !signedIn && !IsAuthPage(path) && path !in PublicPaths && !IsSingleSegment(path)
    ensures target.None? || target == Some("/") || target == Some("/login")
  {
    if loading then None
    else if signedIn then (if IsAuthPage(path) then Some("/") else None)
    else if IsAuthPage(path) then None
    else if path in PublicPaths || IsSingleSegment(path) then None
    else Some("/login")
  }

  /**
   * Any one-segment path stays open to a signed-out visitor, not only the
   * profile pages `/{uid}` the rule is written for.
   */
  lemma SingleSegmentPathsStayOpen()
    ensures AuthRedirect(false, false, "/settings").None?
    ensures AuthRedirect(false, false, "/messages").None?
    ensures AuthRedirect(false, false, "/profile/abc") == Some("/login")
  {
    assert "/profile/abc"[1..][7] == '/';
  }

  /**
   * `useRequireAuth`: a signed-out visitor goes to /login unless the page is
   * a listed public page, `/profile/{id}` or the home page.
   */
  function RequireAuthRedirect(loading: bool, signedIn: bool, path: string): (target: Option<string>)
    ensures target.Some? <==>
      !loading && !signedIn && path !in PublicPaths && !IsProfilePath(path) && path != "/"
    ensures target.Some? ==> target.value == "/login"
  {
    if !loading && !signedIn && !(path in PublicPaths || IsProfilePath(path) || path == "/") then Some("/login")
    else None
  }

  /** The two guards agree on pages both treat as public and on signed-in visitors away from auth pages. */
  lemma GuardsAgreeOnPublicPages(path: string, signedIn: bool)
    requires path in PublicPaths || (signedIn && !IsAuthPage(path))
    ensures AuthRedirect(false, signedIn, path).None? && RequireAuthRedirect(false, signedIn, path).None?
  {
  }
}
