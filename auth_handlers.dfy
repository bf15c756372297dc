/**
 * The OAuth callback and logout handlers. Google's code exchange and
 * profile fetch are a parameter (`fetched`: the profile, or None when the
 * exchange fails), as are the clock readings, the token signer (`sign`, None
 * when `SignedString` fails) and the `FRONTEND_URL` environment variable.
 */
module AuthHandlers {
  import opened Wrappers
  import opened Models
  import opened Firestore
  import opened Bytes
  import Auth
  import Text

  /** The part of Google's userinfo answer the handler uses. */
  datatype GoogleUser = GoogleUser(ID: string, Email: string, Name: string, Picture: string)

  const MinStateLength := 16
  const DefaultFrontendURL: string := "http://localhost:8080"

  /** The callback's shape check on `state`: present and at least 16 characters. */
  predicate StateAccepted(state: string) {
    state != "" && |state| >= MinStateLength
  }

  /** Every state `GenerateOAuthState` hands out passes the callback's check. */
  lemma GeneratedStateAccepted(readOK: bool, random: nat -> Byte, timestamp: int)
    ensures StateAccepted(Auth.Hex(Auth.StateBytesFor(readOK, random, timestamp)))
  {
  }

  /** A first-time user: Google's identity, the "regular" type and empty statistics. */
  ghost predicate FreshProfile(u: User, g: GoogleUser) {
    && u.ID == g.ID && u.Email == g.Email && u.Name == g.Name && u.Picture == g.Picture
    && u.Type == "regular" && u.Level == ""
    && u.Score == 0 && u.Points == 0 && u.CasesAttempted == 0 && u.CasesSolved == 0
    && u.CasesCount == 0 && u.Accuracy == 0.0 && u.Badges == []
  }

  /**
   * A returning user: email and picture from Google, a non-empty stored name
   * kept, an empty type made "regular", and nothing else changed.
   */
  ghost predicate MergedProfile(stored: User, u: User, g: GoogleUser) {
    && u.Email == g.Email && u.Picture == g.Picture
    && u.Name == (if stored.Name == "" then g.Name else stored.Name)
    && u.Type == (if stored.Type == "" then "regular" else stored.Type)
    && u.(Email := stored.Email, Name := stored.Name, Picture := stored.Picture,
          Type := stored.Type, UpdatedAt := stored.UpdatedAt) == stored
  }

  /** The `&models.User{...}` literal of the new-user branch (two clock readings). */
  function NewUser(g: GoogleUser, now1: int, now2: int): (u: User)
    ensures FreshProfile(u, g) && u.CreatedAt == now1 && u.UpdatedAt == now2
  {
    User(g.ID, g.Name, g.Email, g.Picture, "", "regular", 0, 0, 0, 0, 0, 0.0, [], now1, now2)
  }

  /**
   * The existing-user branch, field by field. Keeping the stored name when it
   * equals Google's makes the rule "keep any non-empty stored name".
   */
  method MergeGoogleProfile(user: User, g: GoogleUser, now: int) returns (merged: User)
    ensures MergedProfile(user, merged, g) && merged.UpdatedAt == now
  {
    merged := user;
    var userType := merged.Type;
    var userName := merged.Name;
    merged := merged.(Email := g.Email);
    if userName == "" || userName == g.Name {
      merged := merged.(Name := g.Name);
    } else {
      merged := merged.(Name := userName);
    }
    merged := merged.(Picture := g.Picture);
    merged := merged.(UpdatedAt := now);
    if userType != "" {
      merged := merged.(Type := userType);
    } else if merged.Type == "" {
      merged := merged.(Type := "regular");
    }
  }

  /** Merging twice with the same profile gives the same stored user. */
  lemma MergedProfileUnique(stored: User, u: User, v: User, g: GoogleUser)
    requires MergedProfile(stored, u, g) && MergedProfile(stored, v, g) && u.UpdatedAt == v.UpdatedAt
    ensures u == v
  {
  }

  /** A merged profile never loses a non-empty name or type, nor any statistic. */
  lemma MergeKeepsCustomisation(stored: User, u: User, g: GoogleUser)
    requires MergedProfile(stored, u, g)
    ensures stored.Name != "" ==> u.Name == stored.Name
    ensures stored.Type != "" ==> u.Type == stored.Type
    ensures u.Points == stored.Points && u.Badges == stored.Badges && u.CasesCount == stored.CasesCount
    ensures u.ID == stored.ID && u.CreatedAt == stored.CreatedAt
  {
    assert u.Points == u.(Email := stored.Email, Name := stored.Name, Picture := stored.Picture,
                          Type := stored.Type, UpdatedAt := stored.UpdatedAt).Points;
  }

  /** The redirect target: the front end (or the local default) with the token in the fragment. */
  function RedirectURL(frontendURL: string, token: string): (url: string)
    ensures frontendURL != "" ==> Text.HasPrefix(url, frontendURL + "/#token=")
    ensures frontendURL == "" ==> Text.HasPrefix(url, DefaultFrontendURL + "/#token=")
    ensures |url| >= |token| && url[|url| - |token|..] == token
    ensures |url| == |(if frontendURL == "" then DefaultFrontendURL else frontendURL)| + |"/#token="| + |token|
  {
    var base := if frontendURL == "" then DefaultFrontendURL else frontendURL;
    var url := base + "/#token=" + token;
    assert url[..|base| + 8] == base + "/#token=";
    assert url[|url| - |token|..] == token;
    url
  }

  /**
   * `GoogleCallback`. The three parameter checks answer 400 in this order;
   * a failed code exchange answers 500; otherwise the user is created or
   * merged and stored under Google's ID before the session token is signed,
   * so a signing failure (500) still leaves the user written.
   */
  method GoogleCallback(queryState: string, code: string, fetched: Option<GoogleUser>, users: Collection<User>,
                        now1: int, now2: int, jwtNow1: int, jwtNow2: int,
                        sign: Auth.Claims -> Option<string>, frontendURL: string)
    returns (status: int, result: Result<string, string>, users': Collection<User>)
    ensures queryState == "" ==>
              status == StatusBadRequest && result == Err("OAuth state parameter missing") && users' == users
    ensures queryState != "" && |queryState| < MinStateLength ==>
              status == StatusBadRequest && result == Err("Invalid OAuth state format") && users' == users
    ensures StateAccepted(queryState) && code == "" ==>
              status == StatusBadRequest && result == Err("Code not found") && users' == users
    ensures StateAccepted(queryState) && code != "" && fetched.None? ==>
              status == StatusInternalServerError && result == Err("Failed to get user data") && users' == users
    ensures StateAccepted(queryState) && code != "" && fetched.Some? ==>
              var g := fetched.value;
              && Get(users', g.ID).Some?
              && users' == Set(users, g.ID, Get(users', g.ID).value)
              && (Get(users, g.ID).None? ==>
                    && FreshProfile(Get(users', g.ID).value, g)
                    && Get(users', g.ID).value.CreatedAt == now1 && Get(users', g.ID).value.UpdatedAt == now2)
              && (Get(users, g.ID).Some? ==>
                    && MergedProfile(Get(users, g.ID).value, Get(users', g.ID).value, g)
                    && Get(users', g.ID).value.UpdatedAt == now1)
              && var u := Get(users', g.ID).value;
                 var claims := Auth.TokenClaims(u.ID, u.Email, u.Name, jwtNow1, jwtNow2);
                 && (sign(claims).None? ==> status == StatusInternalServerError && result == Err("Failed to generate token"))
                 && (sign(claims).Some? ==>
                       status == StatusTemporaryRedirect && result == Ok(RedirectURL(frontendURL, sign(claims).value)))
  {
    if queryState == "" {
      return StatusBadRequest, Err("OAuth state parameter missing"), users;
    }
    if |queryState| < 16 {
      return StatusBadRequest, Err("Invalid OAuth state format"), users;
    }
    if code == "" {
      return StatusBadRequest, Err("Code not found"), users;
    }
    if fetched.None? {
      return StatusInternalServerError, Err("Failed to get user data"), users;
    }
    var g := fetched.value;
    var user: User;
    var doc := Get(users, g.ID);
    if doc.None? {
      user := NewUser(g, now1, now2);
    } else {
      user := MergeGoogleProfile(doc.value, g, now1);
    }
    users' := Set(users, g.ID, user);
    GetSet(users, g.ID, user);
    var token := sign(Auth.TokenClaims(user.ID, user.Email, user.Name, jwtNow1, jwtNow2));
    if token.None? {
      return StatusInternalServerError, Err("Failed to generate token"), users';
    }
    status, result := StatusTemporaryRedirect, Ok(RedirectURL(frontendURL, token.value));
  }

  /** `Logout`: sessions are dropped on the client, so the server always answers 200. */
  function Logout(): (status: int)
    ensures status == StatusOK
  {
    StatusOK
  }
}
