/**
 * The browser side of a session (`window.Auth` and `API.request`): the
 * token and the cached profile live in `localStorage`, requests carry the
 * token as a bearer credential (section 2.1 of RFC 6750), and a 401 answer
 * ends the session. `JSON.parse`, `JSON.stringify`, the `atob` decoding of
 * the token's payload (standard base64, section 4 of RFC 4648), `fetch` and
 * the clock are parameters.
 */
module ClientConfig {
  import opened Wrappers
  import opened Json
  import Text

  const BaseURL: string := "https://brew-detective-backend-1087966598090.us-central1.run.app"
  const LogoutEndpoint: string := "/auth/logout"
  const TokenKey: string := "auth_token"
  const UserKey: string := "user_data"
  const AuthorizationHeader: string := "Authorization"
  const ContentTypeHeader: string := "Content-Type"
  const JsonContentType: string := "application/json"

  /** The browser's `localStorage`: string values under string keys; a missing key reads as null. */
  class LocalStorage {
    var items: map<string, string>

    constructor (initial: map<string, string>)
      ensures items == initial
    {
      items := initial;
    }

    function GetItem(key: string): (v: Option<string>)
      reads this
      ensures v.Some? <==> key in items
      ensures v.Some? ==> v.value == items[key]
    {
      if key in items then Some(items[key]) else None
    }

    method SetItem(key: string, value: string)
      modifies this
      ensures items == old(items)[key := value]
    {
      items := items[key := value];
    }

    method RemoveItem(key: string)
      modifies this
      ensures items == old(items) - {key}
    {
      items := items - {key};
    }
  }

  /** JavaScript truthiness of a stored string: present and not empty. */
  predicate Truthy(v: Option<string>) {
    v.Some? && v.value != ""
  }

  // ---------------------------------------------------------------------
  // Token and profile store
  // ---------------------------------------------------------------------

  /** `getToken`: the stored token, or null. */
  function GetToken(ls: LocalStorage): (t: Option<string>)
    reads ls
    ensures t.Some? <==> TokenKey in ls.items
    ensures t.Some? ==> t.value == ls.items[TokenKey]
  {
    ls.GetItem(TokenKey)
  }

  /** `setToken`: the token is stored and reads back; nothing else changes. */
  method SetToken(ls: LocalStorage, token: string)
    modifies ls
    ensures ls.items == old(ls.items)[TokenKey := token]
    ensures GetToken(ls) == Some(token)
  {
    ls.SetItem(TokenKey, token);
  }

  /** `removeToken`: both the token and the cached profile go, every other key stays. */
  method RemoveToken(ls: LocalStorage)
    modifies ls
    ensures ls.items == old(ls.items) - {TokenKey, UserKey}
    ensures GetToken(ls).None? && ls.GetItem(UserKey).None?
    ensures forall k :: k != TokenKey && k != UserKey ==> ls.GetItem(k) == old(ls.GetItem(k))
  {
    ls.RemoveItem(TokenKey);
    ls.RemoveItem(UserKey);
    assert ls.items == old(ls.items) - {TokenKey, UserKey};
  }

  /**
   * `getUser`: null when nothing (or an empty string) is stored, else the
   * parsed profile; `parse` gives None where `JSON.parse` throws, and the
   * exception reaches the caller.
   */
  function GetUser(ls: LocalStorage, parse: string -> Option<Json>): (r: Result<Option<Json>, string>)
    reads ls
    ensures !Truthy(ls.GetItem(UserKey)) ==> r == Ok(None)
    ensures Truthy(ls.GetItem(UserKey)) ==>
              var stored := ls.items[UserKey];
              && (r.Ok? <==> parse(stored).Some?)
              && (r.Ok? ==> r.value == parse(stored))
  {
    var stored := ls.GetItem(UserKey);
    if !Truthy(stored) then Ok(None)
    else match parse(stored.value)
      case None => Err("SyntaxError")
      case Some(user) => Ok(Some(user))
  }

  /** `setUser`: the profile is stored as the text `stringify` gives for it. */
  method SetUser(ls: LocalStorage, user: Json, stringify: Json -> string)
    modifies ls
    ensures ls.items == old(ls.items)[UserKey := stringify(user)]
  {
    ls.SetItem(UserKey, stringify(user));
  }

  /** A stored profile reads back when its text parses back to it, as JSON text does. */
  lemma {:induction false} SetUserGetUser(items: map<string, string>, user: Json, stringify: Json -> string,
                                          parse: string -> Option<Json>)
    requires stringify(user) != "" && parse(stringify(user)) == Some(user)
    ensures forall ls: LocalStorage {:trigger GetUser(ls, parse)} ::
              ls.items == items[UserKey := stringify(user)] ==> GetUser(ls, parse) == Ok(Some(user))
  {
    forall ls: LocalStorage | ls.items == items[UserKey := stringify(user)]
      ensures GetUser(ls, parse) == Ok(Some(user))
    {
      assert ls.GetItem(UserKey) == Some(stringify(user));
    }
  }

  // ---------------------------------------------------------------------
  // Expiry check (the `exp` claim, section 4.1.4 of RFC 7519)
  // ---------------------------------------------------------------------

  /**
   * The check on a non-empty token: its second dot-separated segment must
   * decode (`decodeExp` gives the payload's numeric `exp`, None where atob or
   * JSON.parse throws or `exp` is not a number) to an expiry, in seconds,
   * later than `nowMs`, in milliseconds. A token without a dot has no second
   * segment; atob then receives "undefined", which is not base64, and throws.
   */
  function TokenLive(token: string, decodeExp: string -> Option<int>, nowMs: int): (live: bool)
    ensures live ==> |Text.Split(token, '.')| >= 2
    ensures live <==> |Text.Split(token, '.')| >= 2 && decodeExp(Text.Split(token, '.')[1]).Some?
                      && decodeExp(Text.Split(token, '.')[1]).value * 1000 > nowMs
  {
    var parts := Text.Split(token, '.');
    if |parts| < 2 then false
    else match decodeExp(parts[1])
      case None => false
      case Some(exp) => exp * 1000 > nowMs
  }

  /** `isAuthenticated`: a stored, non-empty token that is still live. */
  function IsAuthenticated(ls: LocalStorage, decodeExp: string -> Option<int>, nowMs: int): (b: bool)
    reads ls
    ensures b ==> Truthy(GetToken(ls))
    ensures b <==> Truthy(GetToken(ls)) && TokenLive(GetToken(ls).value, decodeExp, nowMs)
  {
    var token := GetToken(ls);
    if !Truthy(token) then false else TokenLive(token.value, decodeExp, nowMs)
  }

  /** A token without a dot is never accepted. */
  lemma NoPayloadNotLive(token: string, decodeExp: string -> Option<int>, nowMs: int)
    requires '.' !in token
    ensures !TokenLive(token, decodeExp, nowMs)
  {
    Text.SplitWithoutSeparator(token, '.');
  }

  /** A live token was live at every earlier instant, and is dead from the expiry instant on. */
  lemma LivenessIsMonotone(token: string, decodeExp: string -> Option<int>, earlier: int, later: int)
    requires earlier <= later
    ensures TokenLive(token, decodeExp, later) ==> TokenLive(token, decodeExp, earlier)
    ensures (|Text.Split(token, '.')| >= 2 && decodeExp(Text.Split(token, '.')[1]).Some?
             && later >= decodeExp(Text.Split(token, '.')[1]).value * 1000) ==> !TokenLive(token, decodeExp, later)
  {
  }

  // ---------------------------------------------------------------------
  // Requests
  // ---------------------------------------------------------------------

  /** The options object a caller hands to `request`; absent properties are None. */
  datatype RequestOptions = RequestOptions(verb: Option<string>, body: Option<string>,
                                           headers: Option<map<string, string>>)

  /** What reaches `fetch` besides the URL. */
  datatype FetchConfig = FetchConfig(verb: Option<string>, body: Option<string>, headers: map<string, string>)

  /** A response: its status and its body, None where `response.json()` rejects. */
  datatype Response = Response(status: int, json: Option<Json>)

  /** Why a request failed. */
  datatype ApiError =
    | RequestFailed           // fetch itself rejected
    | AuthenticationRequired  // a 401 answer
    | HttpError(status: int)  // any other status outside 200-299
    | UnreadableBody          // a 2xx answer whose body is not JSON

  /** `API.get`, `API.post`, `API.put` and `API.delete`: none of them passes headers. */
  function GetOptions(): RequestOptions { RequestOptions(None, None, None) }
  function PostOptions(body: Option<string>): RequestOptions { RequestOptions(Some("POST"), body, None) }
  function PutOptions(body: Option<string>): RequestOptions { RequestOptions(Some("PUT"), body, None) }
  function DeleteOptions(): RequestOptions { RequestOptions(Some("DELETE"), None, None) }

  /**
   * The request headers: a JSON content type the caller may override, the
   * caller's headers, and `Authorization: Bearer <token>` whenever a
   * non-empty token is stored, whatever the caller sent under that name.
   */
  function MergedHeaders(extra: Option<map<string, string>>, token: Option<string>): (h: map<string, string>)
    ensures Truthy(token) ==> AuthorizationHeader in h && h[AuthorizationHeader] == "Bearer " + token.value
    ensures !Truthy(token) ==>
              (AuthorizationHeader in h <==> extra.Some? && AuthorizationHeader in extra.value)
    ensures ContentTypeHeader in h
    ensures extra.None? || ContentTypeHeader !in extra.value ==> h[ContentTypeHeader] == JsonContentType
    ensures forall k :: extra.Some? && k in extra.value && (k != AuthorizationHeader || !Truthy(token))
                        ==> k in h && h[k] == extra.value[k]
    ensures forall k :: k in h ==> k == ContentTypeHeader || k == AuthorizationHeader || (extra.Some? && k in extra.value)
  {
    var spread := if extra.Some? then extra.value else map[];
    var headers := map[ContentTypeHeader := JsonContentType] + spread;
    if Truthy(token) then headers[AuthorizationHeader := "Bearer " + token.value] else headers
  }

  /** `{headers, ...options}`, as written: a caller's own `headers` replaces the merged ones. */
  function ConfigAsWritten(options: RequestOptions, token: Option<string>): (c: FetchConfig)
    ensures options.headers.Some? ==> c.headers == options.headers.value
    ensures options.headers.None? ==> c.headers == MergedHeaders(None, token)
    ensures c.verb == options.verb && c.body == options.body
  {
    var headers := MergedHeaders(options.headers, token);
    FetchConfig(options.verb, options.body, if options.headers.Some? then options.headers.value else headers)
  }

  /** The intended configuration: the caller's method and body with the merged headers. */
  function Config(options: RequestOptions, token: Option<string>): (c: FetchConfig)
    ensures c.headers == MergedHeaders(options.headers, token)
    ensures c.verb == options.verb && c.body == options.body
  {
    FetchConfig(options.verb, options.body, MergedHeaders(options.headers, token))
  }

  /** With caller headers, the token is lost: the request goes out unauthenticated. */
  lemma AsWrittenDropsAuthorization()
    ensures var options := RequestOptions(None, None, Some(map["X-Trace" := "1"]));
            && AuthorizationHeader !in ConfigAsWritten(options, Some("t")).headers
            && ContentTypeHeader !in ConfigAsWritten(options, Some("t")).headers
            && Config(options, Some("t")).headers[AuthorizationHeader] == "Bearer t"
  {
    var options := RequestOptions(None, None, Some(map["X-Trace" := "1"]));
    assert ConfigAsWritten(options, Some("t")).headers == map["X-Trace" := "1"];
    assert AuthorizationHeader != "X-Trace" && ContentTypeHeader != "X-Trace" by {
      assert AuthorizationHeader[0] != 'X' && ContentTypeHeader[0] != 'X';
    }
  }

  /** Without caller headers the two agree, so the four helpers never hit the defect. */
  lemma AsWrittenAgreesWithoutHeaders(options: RequestOptions, token: Option<string>)
    requires options.headers.None?
    ensures ConfigAsWritten(options, token) == Config(options, token)
  {
  }

  /** The bearer header carries exactly the stored token, for every helper. */
  lemma HelpersAuthorizeIffTokenStored(body: Option<string>, token: Option<string>)
    ensures forall options :: options in [GetOptions(), PostOptions(body), PutOptions(body), DeleteOptions()] ==>
              && ConfigAsWritten(options, token) == Config(options, token)
              && (AuthorizationHeader in Config(options, token).headers <==> Truthy(token))
              && (Truthy(token) ==> Config(options, token).headers[AuthorizationHeader] == "Bearer " + token.value)
  {
  }

  /** `response.ok`. */
  predicate StatusOk(status: int) {
    200 <= status <= 299
  }

  /** The outcome `request` gives a response: its body on a 2xx answer, an error otherwise. */
  function Classify(resp: Option<Response>): (r: Result<Json, ApiError>)
    ensures resp.None? ==> r == Err(RequestFailed)
    ensures r == Err(AuthenticationRequired) <==> resp.Some? && resp.value.status == 401
    ensures (exists s :: r == Err(HttpError(s))) <==>
              resp.Some? && resp.value.status != 401 && !StatusOk(resp.value.status)
    ensures r.Err? && r.error.HttpError? ==> r.error.status == resp.value.status
    ensures r.Ok? <==> resp.Some? && StatusOk(resp.value.status) && resp.value.json.Some?
    ensures r.Ok? ==> r.value == resp.value.json.value
  {
    match resp
    case None => Err(RequestFailed)
    case Some(response) =>
      if response.status == 401 then Err(AuthenticationRequired)
      else if !StatusOk(response.status) then Err(HttpError(response.status))
      else match response.json
        case None => Err(UnreadableBody)
        case Some(j) => Ok(j)
  }

  /** Only a 401 answer ends the session. */
  predicate EndsSession(resp: Option<Response>) {
    resp.Some? && resp.value.status == 401
  }

  /**
   * `API.request`: builds the configuration from the stored token, calls
   * `fetch` on the base URL plus the endpoint, clears the session on a 401
   * answer and classifies the response.
   */
  method Request(ls: LocalStorage, endpoint: string, options: RequestOptions,
                 fetch: (string, FetchConfig) -> Option<Response>)
    returns (r: Result<Json, ApiError>, sent: FetchConfig)
    modifies ls
    ensures sent == Config(options, old(GetToken(ls)))
    ensures r == Classify(fetch(BaseURL + endpoint, sent))
    ensures EndsSession(fetch(BaseURL + endpoint, sent)) ==> ls.items == old(ls.items) - {TokenKey, UserKey}
    ensures !EndsSession(fetch(BaseURL + endpoint, sent)) ==> ls.items == old(ls.items)
  {
    var url := BaseURL + endpoint;
    var token := GetToken(ls);
    sent := Config(options, token);
    var resp := fetch(url, sent);
    if resp.None? {
      return Err(RequestFailed), sent;
    }
    if resp.value.status == 401 {
      RemoveToken(ls);
      return Err(AuthenticationRequired), sent;
    }
    if !StatusOk(resp.value.status) {
      return Err(HttpError(resp.value.status)), sent;
    }
    if resp.value.json.None? {
      return Err(UnreadableBody), sent;
    }
    r := Ok(resp.value.json.value);
  }

  /**
   * `logout`: tells the server only while the session is live, ignores the
   * outcome, then always clears the session and reloads the page.
   */
  method Logout(ls: LocalStorage, decodeExp: string -> Option<int>, nowMs: int,
                fetch: (string, FetchConfig) -> Option<Response>)
    returns (posted: bool, reloaded: bool)
    modifies ls
    ensures posted <==> old(IsAuthenticated(ls, decodeExp, nowMs))
    ensures ls.items == old(ls.items) - {TokenKey, UserKey}
    ensures reloaded
  {
    posted := false;
    if IsAuthenticated(ls, decodeExp, nowMs) {
      var outcome, sent := Request(ls, LogoutEndpoint, PostOptions(None), fetch);
      posted := true;
    }
    ghost var before := ls.items;
    RemoveToken(ls);
    assert ls.items == old(ls.items) - {TokenKey, UserKey} by {
      assert before == old(ls.items) || before == old(ls.items) - {TokenKey, UserKey};
    }
    reloaded := true;
  }
}
