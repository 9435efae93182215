/** The application shell: the session flags set by the OAuth return parameters, the token
    exchange and the profile check, the one-level news-detail navigator, logout, and the
    choice of what to render. */
module App {

  import opened Wrappers
  import BrowserStorage
  import SearchParams

  const LoginFailedMessage: string := "Login failed. Please try again with a valid account."
  const MissingTokenMessage: string := "Login failed. Please try again."
  const SessionExpiredMessage: string := "Session expired. Please log in again."
  const ConnectionMessage: string := "Cannot connect to server. Check your connection or try demo mode."

  /** The message shown for an `error` query parameter: it embeds the parameter. */
  function ErrorParamMessage(error: string): string {
    "Login failed: " + error + ". Please try again."
  }

  /** What a `fetch` produced: a response with its HTTP status, or a thrown network error. */
  datatype FetchOutcome = Response(status: int) | NetworkError

  /** `response.ok`. */
  predicate IsOk(status: int) {
    200 <= status <= 299
  }

  /** The token exchange: a response whose body did or did not parse as JSON, or a network error. */
  datatype ExchangeOutcome = ExchangeResponse(status: int, bodyIsJson: bool) | ExchangeNetworkError

  /** The exchange chain reaches its success handler only for an ok response with a JSON body. */
  predicate ExchangeSucceeded(o: ExchangeOutcome) {
    o.ExchangeResponse? && IsOk(o.status) && o.bodyIsJson
  }

  // ---------------------------------------------------------------------------
  // OAuth return parameters
  // ---------------------------------------------------------------------------

  /** The case of the OAuth return parameters that the mount effect acts on. */
  datatype OAuthParams =
    | FailedStatus                    // oauthStatus is failed, error or denied
    | StatusWithoutToken              // another non-success status and no token
    | ErrorParameter(error: string)   // an `error` parameter
    | TokenReturned(token: string)    // a token to exchange
    | NoOAuthReturn                   // none of these: nothing to do

  predicate IsFailureStatus(status: Option<string>) {
    status == Some("failed") || status == Some("error") || status == Some("denied")
  }

  /** The checks of the mount effect, in their order: failure status, status without token,
      error parameter, token. */
  function ClassifyOAuth(q: SearchParams.Query): OAuthParams {
    var token := SearchParams.Get(q, "oauthToken");
    var status := SearchParams.Get(q, "oauthStatus");
    var error := SearchParams.Get(q, "error");
    if IsFailureStatus(status) then FailedStatus
    else if SearchParams.Truthy(status) && status.value != "success" && !SearchParams.Truthy(token) then StatusWithoutToken
    else if SearchParams.Truthy(error) then ErrorParameter(error.value)
    else if SearchParams.Truthy(token) then TokenReturned(token.value)
    else NoOAuthReturn
  }

  /** A failure status wins over everything else in the URL, a token included. */
  lemma FailureStatusFirst(q: SearchParams.Query)
    requires IsFailureStatus(SearchParams.Get(q, "oauthStatus"))
    ensures ClassifyOAuth(q) == FailedStatus
  {
  }

  /** An `error` parameter stops the login even when a token came back with it. */
  lemma ErrorParameterBeatsToken(q: SearchParams.Query)
    requires !IsFailureStatus(SearchParams.Get(q, "oauthStatus"))
    requires SearchParams.Truthy(SearchParams.Get(q, "oauthToken"))
    requires SearchParams.Truthy(SearchParams.Get(q, "error"))
    ensures ClassifyOAuth(q) == ErrorParameter(SearchParams.Get(q, "error").value)
  {
  }

  /** An exchange is started only for a token that came back without any failure indicator. */
  lemma ExchangeOnlyForCleanToken(q: SearchParams.Query)
    requires ClassifyOAuth(q).TokenReturned?
    ensures SearchParams.Get(q, "oauthToken") == Some(ClassifyOAuth(q).token) && ClassifyOAuth(q).token != ""
    ensures !IsFailureStatus(SearchParams.Get(q, "oauthStatus"))
    ensures !SearchParams.Truthy(SearchParams.Get(q, "error"))
  {
  }

  // ---------------------------------------------------------------------------
  // Views and navigation
  // ---------------------------------------------------------------------------

  datatype View =
    | DashboardView
    | NewsManagementView
    | VerificationQueueView
    | NewsDetailView(newsId: int)
    | WorkflowDashboardView
    | CategoriesManagementView
    | ProfileView

  /** What the application shows: the exchange spinner, the login view with its error, or a page. */
  datatype Screen = ExchangingToken | LoginView(authError: Option<string>) | MainView(view: View)

  const KnownPages: set<string> := {"news", "verification", "news-detail", "workflows", "categories", "profile", "dashboard"}

  /** `renderCurrentPage`: the view mounted for a page name. A selection id is used only when it is
      truthy (present and not 0). */
  function PageView(page: string, selectedNewsId: Option<int>): (v: View)
    ensures page !in KnownPages ==> v == DashboardView
    ensures page == "news-detail" && (selectedNewsId.None? || selectedNewsId.value == 0) ==> v == DashboardView
    ensures v.NewsDetailView? ==> page == "news-detail" && selectedNewsId == Some(v.newsId)
    ensures page == "news-detail" && selectedNewsId.Some? && selectedNewsId.value != 0 ==>
      v == NewsDetailView(selectedNewsId.value)
    ensures page in KnownPages && page != "dashboard" && page != "news-detail" ==> v != DashboardView
  {
    match page
    case "news" => NewsManagementView
    case "verification" => VerificationQueueView
    case "news-detail" =>
      if selectedNewsId.Some? && selectedNewsId.value != 0 then NewsDetailView(selectedNewsId.value) else DashboardView
    case "workflows" => WorkflowDashboardView
    case "categories" => CategoriesManagementView
    case "profile" => ProfileView
    case _ => DashboardView
  }

  /** The navigation part of the application state. */
  datatype Nav = Nav(currentPage: string, selectedNewsId: Option<int>, previousPage: string)

  const InitialNav: Nav := Nav("dashboard", None, "dashboard")

  /** `handleNewsSelect`: remember the current page, select the item, open the detail page. */
  function SelectNews(n: Nav, newsId: int): Nav {
    Nav("news-detail", Some(newsId), n.currentPage)
  }

  /** `handleBackFromNewsDetail`: drop the selection and return to the remembered page. */
  function BackFromNewsDetail(n: Nav): Nav {
    n.(currentPage := n.previousPage, selectedNewsId := None)
  }

  /** Opening a news item and going back returns to the page it was opened from, with no selection. */
  lemma SelectThenBack(n: Nav, newsId: int)
    ensures BackFromNewsDetail(SelectNews(n, newsId)).currentPage == n.currentPage
    ensures BackFromNewsDetail(SelectNews(n, newsId)).selectedNewsId == None
  {
  }

  /** Opening a news item with a non-zero id shows that item's detail view. */
  lemma SelectShowsDetail(n: Nav, newsId: int)
    requires newsId != 0
    ensures PageView(SelectNews(n, newsId).currentPage, SelectNews(n, newsId).selectedNewsId) == NewsDetailView(newsId)
  {
  }

  /** Going back from a detail page opened from a known page shows that page's view again. */
  lemma BackRestoresView(n: Nav, newsId: int)
    requires n.currentPage != "news-detail"
    ensures PageView(BackFromNewsDetail(SelectNews(n, newsId)).currentPage, None) == PageView(n.currentPage, n.selectedNewsId)
  {
  }

  // ---------------------------------------------------------------------------
  // The application component
  // ---------------------------------------------------------------------------

  class AppContent {
    var isAuthenticated: bool
    var authError: Option<string>
    var isExchanging: bool
    var currentPage: string
    var selectedNewsId: Option<int>
    var previousPage: string
    const storage: BrowserStorage.LocalStorage

    constructor (storage: BrowserStorage.LocalStorage)
      ensures this.storage == storage
      ensures !isAuthenticated && authError == None && !isExchanging
      ensures Navigation() == InitialNav
    {
      this.storage := storage;
      isAuthenticated := false;
      authError := None;
      isExchanging := false;
      currentPage := "dashboard";
      selectedNewsId := None;
      previousPage := "dashboard";
    }

    function Navigation(): Nav
      reads this
    {
      Nav(currentPage, selectedNewsId, previousPage)
    }

    /** The gate in front of the pages: the spinner while exchanging (whatever the session says),
        the login view while unauthenticated, the current page otherwise. */
    function Render(): (screen: Screen)
      reads this
      ensures isExchanging ==> screen == ExchangingToken
      ensures screen.LoginView? <==> !isExchanging && !isAuthenticated
      ensures screen.LoginView? ==> screen.authError == authError
      ensures screen.MainView? ==> screen.view == PageView(currentPage, selectedNewsId)
    {
      if isExchanging then ExchangingToken
      else if !isAuthenticated then LoginView(authError)
      else MainView(PageView(currentPage, selectedNewsId))
    }

    /** `validateAuth` once the profile request has settled; `q` is the URL's query at that moment. */
    method ValidateAuth(profile: FetchOutcome, q: SearchParams.Query)
      modifies this, storage
      ensures isExchanging == old(isExchanging) && selectedNewsId == old(selectedNewsId) && previousPage == old(previousPage)
      ensures profile.Response? && IsOk(profile.status) ==>
        isAuthenticated && authError == old(authError) && storage.items == old(storage.items)
        && currentPage == (var page := SearchParams.Get(q, "page"); if SearchParams.Truthy(page) then page.value else old(currentPage))
      ensures profile.Response? && profile.status == 401 ==>
        !isAuthenticated && authError == Some(SessionExpiredMessage) && currentPage == old(currentPage)
        && storage.items == old(storage.items) - {BrowserStorage.AuthTokenKey}
      ensures profile.Response? && !IsOk(profile.status) && profile.status != 401 ==>
        !isAuthenticated && authError == old(authError) && currentPage == old(currentPage)
        && storage.items == old(storage.items)
      ensures profile.NetworkError? ==>
        !isAuthenticated && authError == Some(ConnectionMessage) && currentPage == old(currentPage)
        && storage.items == old(storage.items)
    {
      match profile
      case Response(status) =>
        if IsOk(status) {
          isAuthenticated := true;
          var initialPage := SearchParams.Get(q, "page");
          if initialPage.Some? && initialPage.value != "" {
            currentPage := initialPage.value;
          }
        } else if status == 401 {
          storage.RemoveItem(BrowserStorage.AuthTokenKey);
          isAuthenticated := false;
          authError := Some(SessionExpiredMessage);
        } else {
          isAuthenticated := false;
        }
      case NetworkError =>
        authError := Some(ConnectionMessage);
        isAuthenticated := false;
    }

    /** The synchronous part of the mount effect: act on the OAuth return parameters. Returns the
        token whose exchange it starts, if any. */
    method HandleOAuthParams(q: SearchParams.Query) returns (exchange: Option<string>)
      modifies this
      ensures Navigation() == old(Navigation())
      ensures exchange.Some? <==> ClassifyOAuth(q).TokenReturned?
      ensures ClassifyOAuth(q) == FailedStatus ==>
        !isAuthenticated && authError == Some(LoginFailedMessage) && isExchanging == old(isExchanging)
      ensures ClassifyOAuth(q) == StatusWithoutToken ==>
        !isAuthenticated && authError == Some(MissingTokenMessage) && isExchanging == old(isExchanging)
      ensures ClassifyOAuth(q).ErrorParameter? ==>
        !isAuthenticated && authError == Some(ErrorParamMessage(ClassifyOAuth(q).error)) && isExchanging == old(isExchanging)
      ensures ClassifyOAuth(q).TokenReturned? ==>
        exchange == Some(ClassifyOAuth(q).token) && isExchanging && authError == None && isAuthenticated == old(isAuthenticated)
      ensures ClassifyOAuth(q) == NoOAuthReturn ==>
        isAuthenticated == old(isAuthenticated) && authError == old(authError) && isExchanging == old(isExchanging)
    {
      var oauthToken := SearchParams.Get(q, "oauthToken");
      var oauthStatus := SearchParams.Get(q, "oauthStatus");
      exchange := None;

      if oauthStatus == Some("failed") || oauthStatus == Some("error") || oauthStatus == Some("denied") {
        authError := Some(LoginFailedMessage);
        isAuthenticated := false;
        return;
      }

      if oauthStatus.Some? && oauthStatus.value != "" && oauthStatus.value != "success"
         && (oauthToken.None? || oauthToken.value == "") {
        authError := Some(MissingTokenMessage);
        isAuthenticated := false;
        return;
      }

      var errorParam := SearchParams.Get(q, "error");
      if errorParam.Some? && errorParam.value != "" {
        authError := Some(ErrorParamMessage(errorParam.value));
        isAuthenticated := false;
        return;
      }

      if oauthToken.Some? && oauthToken.value != "" {
        isExchanging := true;
        authError := None;
        exchange := Some(oauthToken.value);
      }
    }

    /** The settled token exchange: its success or failure handler, then the `finally` step.
        `requestedPage` is the `page` parameter read when the effect ran. */
    method FinishExchange(outcome: ExchangeOutcome, requestedPage: Option<string>)
      modifies this
      ensures !isExchanging
      ensures selectedNewsId == old(selectedNewsId) && previousPage == old(previousPage)
      ensures ExchangeSucceeded(outcome) ==>
        isAuthenticated && authError == old(authError)
        && currentPage == (if SearchParams.Truthy(requestedPage) then requestedPage.value else "dashboard")
      ensures !ExchangeSucceeded(outcome) ==>
        !isAuthenticated && authError == Some(MissingTokenMessage) && currentPage == old(currentPage)
    {
      var succeeded := false;
      match outcome {
        case ExchangeResponse(status, bodyIsJson) =>
          succeeded := IsOk(status) && bodyIsJson;
        case ExchangeNetworkError =>
          succeeded := false;
      }
      if succeeded {
        isAuthenticated := true;
        currentPage := if requestedPage.Some? && requestedPage.value != "" then requestedPage.value else "dashboard";
      } else {
        authError := Some(MissingTokenMessage);
        isAuthenticated := false;
      }
      isExchanging := false;
    }

    /** `handleLogin`, called by the login view. */
    method HandleLogin()
      modifies this
      ensures isAuthenticated
      ensures authError == old(authError) && isExchanging == old(isExchanging) && Navigation() == old(Navigation())
    {
      isAuthenticated := true;
    }

    /** `handleLogout`: whatever the logout request does, clear the token and reset the session
        and the navigation. */
    method HandleLogout()
      modifies this, storage
      ensures storage.items == old(storage.items) - {BrowserStorage.AuthTokenKey}
      ensures !isAuthenticated && authError == None && Navigation() == InitialNav
      ensures isExchanging == old(isExchanging)
      ensures !isExchanging ==> Render() == LoginView(None)
    {
      storage.RemoveItem(BrowserStorage.AuthTokenKey);
      isAuthenticated := false;
      currentPage := "dashboard";
      selectedNewsId := None;
      previousPage := "dashboard";
      authError := None;
    }

    /** `handleNewsSelect`. */
    method HandleNewsSelect(newsId: int)
      modifies this
      ensures Navigation() == SelectNews(old(Navigation()), newsId)
      ensures isAuthenticated == old(isAuthenticated) && authError == old(authError) && isExchanging == old(isExchanging)
    {
      previousPage := currentPage;
      selectedNewsId := Some(newsId);
      currentPage := "news-detail";
    }

    /** `handleBackFromNewsDetail`. */
    method HandleBackFromNewsDetail()
      modifies this
      ensures Navigation() == BackFromNewsDetail(old(Navigation()))
      ensures isAuthenticated == old(isAuthenticated) && authError == old(authError) && isExchanging == old(isExchanging)
    {
      selectedNewsId := None;
      currentPage := previousPage;
    }

    /** The sidebar's `onNavigate`: switch to a page directly, keeping the remembered page and selection. */
    method Navigate(page: string)
      modifies this
      ensures Navigation() == old(Navigation()).(currentPage := page)
      ensures isAuthenticated == old(isAuthenticated) && authError == old(authError) && isExchanging == old(isExchanging)
    {
      currentPage := page;
    }
  }
}
