/** The OAuth 2.0 authorization-code callback page (section 4.1.2 of RFC 6749): read the `code`
    and `error` parameters of the authorization response, exchange the code, keep the returned
    token, check the profile, and redirect to the dashboard with the outcome in the query. */
module AuthCallback {

  import opened Wrappers
  import JsJson
  import SearchParams
  import UriEncoding
  import BrowserStorage

  const AuthenticatedTarget: string := "/?authenticated=true"
  const AccessDeniedTarget: string := "/?error=access_denied"
  const NoCodeTarget: string := "/?error=no_code"
  const ErrorPrefix: string := "/?error="
  const AuthenticationFailedMessage: string := "Authentication failed"
  /** Written as a concatenation of its two sentences: as one literal, the verifier would evaluate
      its URL encoding character by character wherever `Decide` is unfolded. */
  const InvalidAccountMessage: string := "Invalid account." + " Please use an authorized account."

  /** The redirect for a failure: the message, URL-encoded, in the `error` parameter. */
  function ErrorTarget(message: string): string {
    ErrorPrefix + UriEncoding.EncodeURIComponent(message)
  }

  /** A response body: parsed JSON, or the message of the SyntaxError `response.json()` rejects with. */
  datatype Body = Parsed(json: JsJson.Json) | Unparsable(syntaxError: string)

  /** The code exchange: the message of the error `fetch` rejected with, or a response. */
  datatype ExchangeReply = ExchangeThrew(message: string) | ExchangeReplied(status: int, body: Body)

  /** The profile check: the message of the error `fetch` rejected with, or the response status. */
  datatype ProfileReply = ProfileThrew(message: string) | ProfileReplied(status: int)

  predicate IsOk(status: int) {
    200 <= status <= 299
  }

  /** The exchange step: the response data, or the message of what it throws. A non-ok response
      throws the body's `message` (converted to a string) or "Authentication failed"; a body that
      does not parse counts as `{}` there. */
  function ExchangeData(reply: ExchangeReply): (r: Result<JsJson.Json>)
    ensures reply.ExchangeThrew? ==> r == Err(reply.message)
    ensures reply.ExchangeReplied? && IsOk(reply.status) ==>
      r == (match reply.body case Parsed(j) => Ok(j) case Unparsable(m) => Err(m))
    ensures reply.ExchangeReplied? && !IsOk(reply.status) ==> r.Err?
  {
    match reply
    case ExchangeThrew(m) => Err(m)
    case ExchangeReplied(status, body) =>
      if !IsOk(status) then
        var errorData := match body case Parsed(j) => j case Unparsable(_) => JsJson.JObject(map[]);
        match JsJson.Get(errorData, "message")
        case Err(typeError) => Err(typeError)
        case Ok(message) =>
          Err(if JsJson.Truthy(message) then JsJson.ToJsString(message.value) else AuthenticationFailedMessage)
      else
        match body
        case Parsed(j) => Ok(j)
        case Unparsable(m) => Err(m)
  }

  /** `if (data.token) localStorage.setItem('auth_token', data.token)`: the string stored, if any;
      reading `token` of `null` throws. */
  function TokenToStore(data: JsJson.Json): (r: Result<Option<string>>)
    ensures r.Err? <==> data.JNull?
    ensures r.Ok? && r.value.Some? ==>
      data.JObject? && "token" in data.fields && JsJson.Truthy(Some(data.fields["token"]))
      && r.value.value == JsJson.ToJsString(data.fields["token"])
    ensures data.JObject? && "token" in data.fields && JsJson.Truthy(Some(data.fields["token"])) ==>
      r == Ok(Some(JsJson.ToJsString(data.fields["token"])))
  {
    match JsJson.Get(data, "token")
    case Err(m) => Err(m)
    case Ok(token) => Ok(if JsJson.Truthy(token) then Some(JsJson.ToJsString(token.value)) else None)
  }

  /** What one run of `handleCallback` does: where it redirects, what token it stores, and whether
      it got as far as the code exchange. */
  datatype Decision = Decision(redirect: string, storedToken: Option<string>, exchangeAttempted: bool)

  /** The sequence of checks of `handleCallback`, each a possible early exit. */
  function Decide(q: SearchParams.Query, exchange: ExchangeReply, profile: ProfileReply): Decision {
    var code := SearchParams.Get(q, "code");
    var error := SearchParams.Get(q, "error");
    if SearchParams.Truthy(error) then Decision(AccessDeniedTarget, None, false)
    else if !SearchParams.Truthy(code) then Decision(NoCodeTarget, None, false)
    else
      match ExchangeData(exchange)
      case Err(m) => Decision(ErrorTarget(m), None, true)
      case Ok(data) =>
        match TokenToStore(data)
        case Err(m) => Decision(ErrorTarget(m), None, true)
        case Ok(token) =>
          match profile
          case ProfileThrew(m) => Decision(ErrorTarget(m), token, true)
          case ProfileReplied(status) =>
            if IsOk(status) then Decision(AuthenticatedTarget, token, true)
            else Decision(ErrorTarget(InvalidAccountMessage), token, true)
  }

  /** An `error` parameter redirects to access_denied before the code is looked at. */
  lemma ErrorParameterDenies(q: SearchParams.Query, exchange: ExchangeReply, profile: ProfileReply)
    requires SearchParams.Truthy(SearchParams.Get(q, "error"))
    ensures Decide(q, exchange, profile) == Decision(AccessDeniedTarget, None, false)
  {
  }

  /** Without a code (and without an error) the page redirects to no_code and exchanges nothing. */
  lemma MissingCodeStops(q: SearchParams.Query, exchange: ExchangeReply, profile: ProfileReply)
    requires !SearchParams.Truthy(SearchParams.Get(q, "error"))
    requires !SearchParams.Truthy(SearchParams.Get(q, "code"))
    ensures Decide(q, exchange, profile) == Decision(NoCodeTarget, None, false)
  {
  }

  /** A refused exchange whose body has no usable `message` fails with "Authentication failed". */
  lemma RefusedExchangeDefaultMessage(status: int, body: Body)
    requires !IsOk(status)
    requires body.Unparsable? || (body.json.JObject? && "message" !in body.json.fields)
    ensures ExchangeData(ExchangeReplied(status, body)) == Err(AuthenticationFailedMessage)
  {
  }

  /** A refused exchange whose body carries a non-empty `message` string fails with that message,
      whatever other fields the body has. */
  lemma RefusedExchangeServerMessage(status: int, fields: map<string, JsJson.Json>, m: string)
    requires !IsOk(status) && m != ""
    requires "message" in fields && fields["message"] == JsJson.JStr(m)
    ensures ExchangeData(ExchangeReplied(status, Parsed(JsJson.JObject(fields)))) == Err(m)
  {
  }

  /** When the parameters pass, a failed exchange redirects with its message and stores nothing. */
  lemma ExchangeFailureRedirects(q: SearchParams.Query, exchange: ExchangeReply, profile: ProfileReply)
    requires !SearchParams.Truthy(SearchParams.Get(q, "error")) && SearchParams.Truthy(SearchParams.Get(q, "code"))
    requires ExchangeData(exchange).Err?
    ensures Decide(q, exchange, profile) == Decision(ErrorTarget(ExchangeData(exchange).message), None, true)
  {
  }

  /** A token is stored only after an ok exchange whose data carries a truthy `token`, and then it
      is that token as a string. */
  lemma TokenStoredOnlyFromExchange(q: SearchParams.Query, exchange: ExchangeReply, profile: ProfileReply)
    requires Decide(q, exchange, profile).storedToken.Some?
    ensures exchange.ExchangeReplied? && IsOk(exchange.status) && exchange.body.Parsed?
    ensures var data := exchange.body.json;
      data.JObject? && "token" in data.fields && JsJson.Truthy(Some(data.fields["token"]))
      && Decide(q, exchange, profile).storedToken.value == JsJson.ToJsString(data.fields["token"])
  {
  }

  /** Conversely, once the parameters pass, an ok exchange whose data carries a truthy `token`
      stores that token as a string, whatever the profile check then answers. */
  lemma TruthyTokenStored(q: SearchParams.Query, status: int, fields: map<string, JsJson.Json>,
                          profile: ProfileReply)
    requires !SearchParams.Truthy(SearchParams.Get(q, "error")) && SearchParams.Truthy(SearchParams.Get(q, "code"))
    requires IsOk(status) && "token" in fields && JsJson.Truthy(Some(fields["token"]))
    ensures Decide(q, ExchangeReplied(status, Parsed(JsJson.JObject(fields))), profile).storedToken
      == Some(JsJson.ToJsString(fields["token"]))
  {
  }

  /** A profile check that is not ok fails with the invalid-account message, and the token the
      exchange returned stays stored. */
  lemma ProfileRejection(q: SearchParams.Query, exchange: ExchangeReply, status: int)
    requires !SearchParams.Truthy(SearchParams.Get(q, "error")) && SearchParams.Truthy(SearchParams.Get(q, "code"))
    requires ExchangeData(exchange).Ok? && TokenToStore(ExchangeData(exchange).value).Ok?
    requires !IsOk(status)
    ensures Decide(q, exchange, ProfileReplied(status)).redirect == ErrorTarget(InvalidAccountMessage)
    ensures Decide(q, exchange, ProfileReplied(status)).storedToken == TokenToStore(ExchangeData(exchange).value).value
  {
  }

  predicate StartsWith(s: string, prefix: string) {
    |prefix| <= |s| && s[..|prefix|] == prefix
  }

  /** No failure redirect is the success redirect, and each one is under `/?error=`. */
  lemma ErrorTargetShape(m: string)
    ensures ErrorTarget(m) != AuthenticatedTarget && StartsWith(ErrorTarget(m), ErrorPrefix)
  {
    assert ErrorTarget(m)[2] == ErrorPrefix[2] != AuthenticatedTarget[2];
    assert ErrorTarget(m)[..|ErrorPrefix|] == ErrorPrefix;
  }

  /** The callback succeeds exactly when there is a code and no error, the exchange returns
      non-null data and the profile check is ok. Every other run redirects under `/?error=`. */
  lemma SuccessIff(q: SearchParams.Query, exchange: ExchangeReply, profile: ProfileReply)
    ensures var d := Decide(q, exchange, profile);
      d.redirect == AuthenticatedTarget <==>
        !SearchParams.Truthy(SearchParams.Get(q, "error")) && SearchParams.Truthy(SearchParams.Get(q, "code"))
        && ExchangeData(exchange).Ok? && !ExchangeData(exchange).value.JNull?
        && profile.ProfileReplied? && IsOk(profile.status)
    ensures var d := Decide(q, exchange, profile);
      d.redirect != AuthenticatedTarget ==> StartsWith(d.redirect, ErrorPrefix)
  {
    var d := Decide(q, exchange, profile);
    if SearchParams.Truthy(SearchParams.Get(q, "error")) {
      assert d.redirect == AccessDeniedTarget;
      assert AccessDeniedTarget[..|ErrorPrefix|] == ErrorPrefix;
      assert AccessDeniedTarget[2] != AuthenticatedTarget[2];
    } else if !SearchParams.Truthy(SearchParams.Get(q, "code")) {
      assert d.redirect == NoCodeTarget;
      assert NoCodeTarget[..|ErrorPrefix|] == ErrorPrefix;
      assert NoCodeTarget[2] != AuthenticatedTarget[2];
    } else if ExchangeData(exchange).Err? {
      ErrorTargetShape(ExchangeData(exchange).message);
    } else if TokenToStore(ExchangeData(exchange).value).Err? {
      ErrorTargetShape(TokenToStore(ExchangeData(exchange).value).message);
    } else if profile.ProfileThrew? {
      ErrorTargetShape(profile.message);
    } else if !IsOk(profile.status) {
      ErrorTargetShape(InvalidAccountMessage);
    }
  }

  /** The failure message can be read back from the redirect: percent-decoding what follows
      `/?error=` gives the message's UTF-8 bytes. */
  lemma ErrorMessageRecoverable(message: string)
    ensures StartsWith(ErrorTarget(message), ErrorPrefix)
    ensures UriEncoding.PercentDecode(ErrorTarget(message)[|ErrorPrefix|..]) == Some(UriEncoding.Utf8String(message))
  {
    assert ErrorTarget(message)[|ErrorPrefix|..] == UriEncoding.EncodeURIComponent(message);
    UriEncoding.DecodeEncode(message);
  }

  /** The callback page: the router's last redirect target and the (never set) error state. */
  class CallbackPage {
    var redirectedTo: Option<string>
    var error: Option<string>
    const storage: BrowserStorage.LocalStorage

    constructor (storage: BrowserStorage.LocalStorage)
      ensures this.storage == storage && redirectedTo == None && error == None
    {
      this.storage := storage;
      redirectedTo := None;
      error := None;
    }

    /** `handleCallback`. Absent search parameters do nothing at all; otherwise the page redirects
        as `Decide` says and stores the token it says, and nothing else. */
    method HandleCallback(params: Option<SearchParams.Query>, exchange: ExchangeReply, profile: ProfileReply)
      returns (exchangeAttempted: bool)
      modifies this, storage
      ensures error == old(error)
      ensures params.None? ==> redirectedTo == old(redirectedTo) && storage.items == old(storage.items) && !exchangeAttempted
      ensures params.Some? ==>
        var d := Decide(params.value, exchange, profile);
        redirectedTo == Some(d.redirect) && exchangeAttempted == d.exchangeAttempted
        && storage.items == (if d.storedToken.Some? then old(storage.items)[BrowserStorage.AuthTokenKey := d.storedToken.value]
                             else old(storage.items))
    {
      exchangeAttempted := false;
      if params.None? {
        return;
      }
      var q := params.value;
      ghost var d := Decide(q, exchange, profile);
      var code := SearchParams.Get(q, "code");
      var errorParam := SearchParams.Get(q, "error");

      if errorParam.Some? && errorParam.value != "" {
        redirectedTo := Some(AccessDeniedTarget);
        assert d == Decision(AccessDeniedTarget, None, false);
        return;
      }
      if code.None? || code.value == "" {
        redirectedTo := Some(NoCodeTarget);
        assert d == Decision(NoCodeTarget, None, false);
        return;
      }

      exchangeAttempted := true;
      var response := ExchangeData(exchange);
      if response.Err? {
        redirectedTo := Some(ErrorTarget(response.message));
        assert d == Decision(ErrorTarget(response.message), None, true);
        return;
      }
      var token := TokenToStore(response.value);
      if token.Err? {
        redirectedTo := Some(ErrorTarget(token.message));
        assert d == Decision(ErrorTarget(token.message), None, true);
        return;
      }
      assert d.storedToken == token.value && d.exchangeAttempted;
      if token.value.Some? {
        storage.SetItem(BrowserStorage.AuthTokenKey, token.value.value);
      }
      match profile {
        case ProfileThrew(m) =>
          redirectedTo := Some(ErrorTarget(m));
          assert d.redirect == ErrorTarget(m);
        case ProfileReplied(status) =>
          if !IsOk(status) {
            redirectedTo := Some(ErrorTarget(InvalidAccountMessage));
            assert d.redirect == ErrorTarget(InvalidAccountMessage);
          } else {
            redirectedTo := Some(AuthenticatedTarget);
            assert d.redirect == AuthenticatedTarget;
          }
      }
    }
  }
}
