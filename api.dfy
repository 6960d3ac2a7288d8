/**
 * The pure core of `NutritionAPI` in lib/api.js: the client's settings, the
 * response interceptor that turns every failed request into an `ApiError`,
 * and the two reshaping functions `getAccountUsage` and
 * `formatHealthFromDashboard`. JSON bodies are modelled by the fields the
 * code reads; a missing field is `None`. The wall clock enters as the ISO
 * string `nowIso` that `new Date().toISOString()` would produce.
 */
module Api {
  import opened Wrappers
  import opened JsText

  // ---------------------------------------------------------------- client settings

  const DefaultBaseUrl: string := "https://app.avocavo.app"
  const DefaultTimeoutMs: int := 30000

  /** The settings a `NutritionAPI` instance is built with. */
  datatype Client = Client(
    apiKey: Option<string>,
    baseUrl: string,
    timeout: int,
    authorization: Option<string>)

  /**
   * `new NutritionAPI(apiKey, baseUrl, timeout)`, where a missing argument
   * takes its default: one trailing '/' is dropped from the base URL, and the
   * `Authorization: Bearer <key>` header is set exactly when the key is truthy.
   */
  function NewClient(apiKey: Option<string>, baseUrl: Option<string>, timeout: Option<int>): (c: Client)
    ensures c.baseUrl == StripTrailingSlash(baseUrl.GetOr(DefaultBaseUrl))
    ensures c.apiKey == apiKey && c.timeout == timeout.GetOr(DefaultTimeoutMs)
    ensures c.authorization.Some? <==> Truthy(apiKey)
    ensures c.authorization.Some? ==> c.authorization.value == "Bearer " + apiKey.value
  {
    Client(
      apiKey,
      StripTrailingSlash(baseUrl.GetOr(DefaultBaseUrl)),
      timeout.GetOr(DefaultTimeoutMs),
      if Truthy(apiKey) then Some("Bearer " + apiKey.value) else None)
  }

  /** A base URL given with or without its trailing '/' yields the same client. */
  lemma NewClientSlashInsensitive(apiKey: Option<string>, url: string, timeout: Option<int>)
    requires url == [] || url[|url| - 1] != '/'
    ensures NewClient(apiKey, Some(url + "/"), timeout) == NewClient(apiKey, Some(url), timeout)
  {
    StripTrailingSlashInverse(url);
  }

  /** Without arguments the client talks to the production host, unauthenticated. */
  lemma NewClientDefaults()
    ensures NewClient(None, None, None) == Client(None, DefaultBaseUrl, DefaultTimeoutMs, None)
  {
    assert DefaultBaseUrl[|DefaultBaseUrl| - 1] == 'p';
  }

  // ---------------------------------------------------------------- the error interceptor

  /** The parsed body of an error response; only its `error` field is read. */
  datatype Body = Body(error: Option<string>)

  /** How an axios request failed. */
  datatype HttpFailure =
    | WithResponse(status: nat, data: Option<Body>)  // `error.response` is set
    | NoResponse                                     // sent, but no response arrived
    | NotSent(message: string)                       // the request could not be made

  /** `new ApiError(message, statusCode = null, response = null)`. */
  datatype ApiError = ApiError(message: string, statusCode: Option<nat>, response: Option<Body>)

  const UnauthorizedMessage: string := "Invalid API key or authentication required"
  const PaymentRequiredMessage: string := "Trial expired or payment required"
  const ForbiddenMessage: string := "Feature not available on your plan"
  const RateLimitedMessage: string := "Rate limit exceeded"
  const ServerErrorMessage: string := "Server error - please try again later"
  const ConnectionMessage: string := "Connection error. Check your internet connection."
  const RequestFailedPrefix: string := "Request failed: "
  const HttpPrefix: string := "HTTP "

  /** `data?.error`: the body's own error text, when there is a body. */
  function BodyError(data: Option<Body>): Option<string> {
    if data.Some? then data.value.error else None
  }

  /** The statuses whose message the interceptor fixes, whatever the body says. */
  predicate Classified(status: nat) {
    status == 401 || status == 402 || status == 403 || status == 429 || status >= 500
  }

  /**
   * The rejection handler of the response interceptor. Only a failure with a
   * response keeps its status code and body; the message is never empty.
   */
  function InterceptError(failure: HttpFailure): (e: ApiError)
    ensures e.message != ""
    ensures e.statusCode.Some? <==> failure.WithResponse?
    ensures failure.WithResponse? ==> e.statusCode == Some(failure.status) && e.response == failure.data
    ensures !failure.WithResponse? ==> e.response == None
  {
    match failure
    case WithResponse(status, data) =>
      var message :=
        if status == 401 then UnauthorizedMessage
        else if status == 402 then PaymentRequiredMessage
        else if status == 403 then ForbiddenMessage
        else if status == 429 then RateLimitedMessage
        else if status >= 500 then ServerErrorMessage
        else OrElse(BodyError(data), HttpPrefix + NatToString(status));
      ApiError(message, Some(status), data)
    case NoResponse =>
      ApiError(ConnectionMessage, None, None)
    case NotSent(message) =>
      ApiError(RequestFailedPrefix + message, None, None)
  }

  /** The fixed message of a classified status. */
  lemma InterceptClassified(status: nat, data: Option<Body>)
    ensures var m := InterceptError(WithResponse(status, data)).message;
            (status == 401 ==> m == UnauthorizedMessage)
            && (status == 402 ==> m == PaymentRequiredMessage)
            && (status == 403 ==> m == ForbiddenMessage)
            && (status == 429 ==> m == RateLimitedMessage)
            && (status >= 500 ==> m == ServerErrorMessage)
  {
  }

  /** For a classified status the body's own `error` text is ignored. */
  lemma InterceptIgnoresBody(status: nat, data1: Option<Body>, data2: Option<Body>)
    requires Classified(status)
    ensures InterceptError(WithResponse(status, data1)).message
         == InterceptError(WithResponse(status, data2)).message
  {
  }

  /** For any other status the server's `error` text, when non-empty, is the message. */
  lemma InterceptKeepsServerText(status: nat, text: string)
    requires !Classified(status) && text != ""
    ensures InterceptError(WithResponse(status, Some(Body(Some(text))))).message == text
  {
  }

  /**
   * Without server text an unclassified failure says "HTTP <status>", and the
   * status can be read back from the message.
   */
  lemma InterceptHttpFallback(status: nat, data: Option<Body>)
    requires !Classified(status) && !Truthy(BodyError(data))
    ensures var m := InterceptError(WithResponse(status, data)).message;
            |m| > |HttpPrefix| && m[..|HttpPrefix|] == HttpPrefix
            && ParseNat(m[|HttpPrefix|..]) == Some(status)
  {
    var m := InterceptError(WithResponse(status, data)).message;
    assert m == HttpPrefix + NatToString(status);
    assert m[|HttpPrefix|..] == NatToString(status);
    NatToStringRoundTrip(status);
  }

  /**
   * The fixed messages tell the classes apart: two classified statuses with
   * the same message are equal or both server errors.
   */
  lemma ClassifiedMessagesIdentifyClass(s1: nat, s2: nat, d1: Option<Body>, d2: Option<Body>)
    requires Classified(s1) && Classified(s2)
    requires InterceptError(WithResponse(s1, d1)).message == InterceptError(WithResponse(s2, d2)).message
    ensures s1 == s2 || (s1 >= 500 && s2 >= 500)
  {
  }

  /** A failure without a response carries neither status nor body. */
  lemma InterceptWithoutResponse(message: string)
    ensures InterceptError(NoResponse) == ApiError(ConnectionMessage, None, None)
    ensures var e := InterceptError(NotSent(message));
            e.statusCode == None && e.message[..|RequestFailedPrefix|] == RequestFailedPrefix
            && e.message[|RequestFailedPrefix|..] == message
  {
  }

  // ---------------------------------------------------------------- getAccountUsage

  /** The `account` object of `GET /api/v1/account/usage`. */
  datatype AccountFields = AccountFields(
    email: Option<string>,
    apiTier: Option<string>,
    subscriptionStatus: Option<string>)

  /** The `usage` object of `GET /api/v1/account/usage`. */
  datatype UsageFields = UsageFields(
    currentMonth: Option<int>,
    monthlyLimit: Option<int>,
    remaining: Option<int>,
    percentageUsed: Option<real>,
    resetDate: Option<string>,
    daysUntilReset: Option<int>)

  /** The body of `GET /api/v1/account/usage`. */
  datatype UsageBody = UsageBody(account: Option<AccountFields>, usage: Option<UsageFields>)

  /** `x?.f` on a missing object reads as `f` of an empty object. */
  const NoAccount := AccountFields(None, None, None)
  const NoUsage := UsageFields(None, None, None, None, None, None)

  /** The reshaped `usage` part. */
  datatype Usage = Usage(
    currentMonth: int,
    monthlyLimit: Option<int>,
    remaining: int,
    percentageUsed: real,
    resetDate: string,
    daysUntilReset: int)

  /** What `getAccountUsage()` resolves to. */
  datatype AccountUsage = AccountUsage(
    email: string,
    apiTier: string,
    subscriptionStatus: string,
    usage: Usage)

  /**
   * `getAccountUsage()` on the response body `data` at wall-clock `nowIso`;
   * `None` when the body is `null` (reading `data.account` throws). Text
   * fields are never empty, and `monthly_limit` passes through untouched.
   */
  function GetAccountUsage(data: Option<UsageBody>, nowIso: string): (r: Option<AccountUsage>)
    ensures r.Some? <==> data.Some?
    ensures r.Some? ==> r.value.email != "" && r.value.apiTier != "" && r.value.subscriptionStatus != ""
    ensures r.Some? ==> r.value.usage.monthlyLimit == data.value.usage.GetOr(NoUsage).monthlyLimit
    ensures r.Some? && nowIso != "" ==> r.value.usage.resetDate != ""
  {
    if data.None? then None
    else
      var account := data.value.account.GetOr(NoAccount);
      var usage := data.value.usage.GetOr(NoUsage);
      Some(AccountUsage(
        OrElse(account.email, "Unknown"),
        OrElse(account.apiTier, "Unknown"),
        OrElse(account.subscriptionStatus, "Unknown"),
        Usage(
          IntOr(usage.currentMonth, 0),
          usage.monthlyLimit,
          IntOr(usage.remaining, 0),
          RealOr(usage.percentageUsed, 0.0),
          OrElse(usage.resetDate, nowIso),
          IntOr(usage.daysUntilReset, 0))))
  }

  /**
   * Reshaping keeps every truthy field as the server sent it; a missing or
   * falsy text becomes "Unknown", a missing or zero count becomes 0, and a
   * missing reset date becomes the current time. `monthly_limit` is covered
   * by `GetAccountUsage` itself.
   */
  lemma AccountUsageFields(body: UsageBody, nowIso: string)
    ensures var r := GetAccountUsage(Some(body), nowIso).value;
            var a := body.account.GetOr(NoAccount);
            var u := body.usage.GetOr(NoUsage);
            (Truthy(a.email) ==> r.email == a.email.value)
            && (!Truthy(a.email) ==> r.email == "Unknown")
            && (Truthy(a.apiTier) ==> r.apiTier == a.apiTier.value)
            && (!Truthy(a.apiTier) ==> r.apiTier == "Unknown")
            && (Truthy(a.subscriptionStatus) ==> r.subscriptionStatus == a.subscriptionStatus.value)
            && (!Truthy(a.subscriptionStatus) ==> r.subscriptionStatus == "Unknown")
            && (NumTruthy(u.currentMonth, 0) ==> r.usage.currentMonth == u.currentMonth.value)
            && (!NumTruthy(u.currentMonth, 0) ==> r.usage.currentMonth == 0)
            && (NumTruthy(u.remaining, 0) ==> r.usage.remaining == u.remaining.value)
            && (!NumTruthy(u.remaining, 0) ==> r.usage.remaining == 0)
            && (NumTruthy(u.percentageUsed, 0.0) ==> r.usage.percentageUsed == u.percentageUsed.value)
            && (!NumTruthy(u.percentageUsed, 0.0) ==> r.usage.percentageUsed == 0.0)
            && (NumTruthy(u.daysUntilReset, 0) ==> r.usage.daysUntilReset == u.daysUntilReset.value)
            && (!NumTruthy(u.daysUntilReset, 0) ==> r.usage.daysUntilReset == 0)
            && (Truthy(u.resetDate) ==> r.usage.resetDate == u.resetDate.value)
            && (!Truthy(u.resetDate) ==> r.usage.resetDate == nowIso)
  {
  }

  /** The body a reshaped value would be if the server had sent it verbatim. */
  function AsBody(r: AccountUsage): UsageBody {
    UsageBody(
      Some(AccountFields(Some(r.email), Some(r.apiTier), Some(r.subscriptionStatus))),
      Some(UsageFields(
        Some(r.usage.currentMonth), r.usage.monthlyLimit, Some(r.usage.remaining),
        Some(r.usage.percentageUsed), Some(r.usage.resetDate), Some(r.usage.daysUntilReset))))
  }

  /** Reshaping is idempotent: an already reshaped value comes back unchanged. */
  lemma {:induction false} AccountUsageIdempotent(data: Option<UsageBody>, nowIso: string)
    requires data.Some?
    ensures var r := GetAccountUsage(data, nowIso).value;
            GetAccountUsage(Some(AsBody(r)), nowIso) == Some(r)
  {
    var r := GetAccountUsage(data, nowIso).value;
    var r2 := GetAccountUsage(Some(AsBody(r)), nowIso).value;
    assert r2.email == r.email;
    assert r2.usage.resetDate == r.usage.resetDate;
    assert r2.usage == r.usage;
  }

  /** An empty body reshapes to all defaults. */
  lemma AccountUsageOfEmptyBody(nowIso: string)
    ensures GetAccountUsage(Some(UsageBody(None, None)), nowIso)
         == Some(AccountUsage("Unknown", "Unknown", "Unknown", Usage(0, None, 0, 0.0, nowIso, 0)))
  {
  }

  // ---------------------------------------------------------------- formatHealthFromDashboard

  /** The `overview` object of the admin dashboard. */
  datatype Overview = Overview(
    totalUsers: Option<int>,
    premiumUsers: Option<int>,
    newUsers: Option<int>,
    totalRecipes: Option<int>,
    newRecipes: Option<int>,
    avgRating: Option<real>)

  const EmptyOverview := Overview(None, None, None, None, None, None)

  /** The dashboard payload, which may wrap the real payload under `data`. */
  datatype Dashboard = Dashboard(data: Option<Dashboard>, overview: Option<Overview>)

  datatype Services = Services(
    database: string, cache: string, nutritionCalculator: string, users: string, recipes: string)

  datatype Performance = Performance(
    avgResponseTimeMs: int, cacheHitRate: real, uptime: string, apiCallsToday: int, activeUsers: int)

  /** The `dashboard_data` echo of the overview. */
  datatype DashboardEcho = DashboardEcho(
    totalUsers: Option<int>, premiumUsers: Option<int>, newUsers: Option<int>,
    totalRecipes: Option<int>, avgRating: Option<real>)

  datatype Health = Health(
    status: string, version: string, services: Services, performance: Performance,
    dashboardData: DashboardEcho)

  /** `(d.data || d).overview || {}`: the wrapper is unwrapped once, never twice. */
  function SelectedOverview(d: Dashboard): (o: Overview)
    ensures d.data.Some? ==> o == d.data.value.overview.GetOr(EmptyOverview)
    ensures d.data.None? ==> o == d.overview.GetOr(EmptyOverview)
  {
    var payload := if d.data.Some? then d.data.value else d;
    payload.overview.GetOr(EmptyOverview)
  }

  /** `${n || 0} total`. */
  function CountLabel(n: Option<int>): string {
    IntToString(IntOr(n, 0)) + " total"
  }

  /**
   * `formatHealthFromDashboard(dashboardData)` at wall-clock `nowIso`: the
   * version is "dashboard-" followed by `nowIso.split('T')[0]`, the longest
   * prefix of the clock string without a 'T'.
   */
  function FormatHealthFromDashboard(d: Dashboard, nowIso: string): (h: Health)
    ensures h.status == "ok"
    ensures |h.version| >= 10 && h.version[..10] == "dashboard-"
    ensures var date := h.version[10..];
            |date| <= |nowIso| && date == nowIso[..|date|] && 'T' !in date
            && (|date| < |nowIso| ==> nowIso[|date|] == 'T')
    ensures var o := SelectedOverview(d);
            (!NumTruthy(o.totalUsers, 0) ==> h.services.users == "0 total")
            && (!NumTruthy(o.totalRecipes, 0) ==> h.services.recipes == "0 total")
    ensures var o := SelectedOverview(d);
            h.dashboardData == DashboardEcho(o.totalUsers, o.premiumUsers, o.newUsers, o.totalRecipes, o.avgRating)
    ensures var o := SelectedOverview(d);
            h.performance.activeUsers != 0 <==> NumTruthy(o.premiumUsers, 0) || NumTruthy(o.newUsers, 0)
  {
    var o := SelectedOverview(d);
    Health(
      "ok",
      "dashboard-" + BeforeFirst(nowIso, 'T'),
      Services("connected", "connected", "available", CountLabel(o.totalUsers), CountLabel(o.totalRecipes)),
      Performance(99, 85.0, "99.9%", IntOr(o.newRecipes, 0), IntOr(o.premiumUsers, IntOr(o.newUsers, 0))),
      DashboardEcho(o.totalUsers, o.premiumUsers, o.newUsers, o.totalRecipes, o.avgRating))
  }

  /**
   * `active_users` prefers premium users, then new users, then 0;
   * `api_calls_today` is the count of new recipes.
   */
  lemma HealthActivity(d: Dashboard, nowIso: string)
    ensures var o := SelectedOverview(d);
            var p := FormatHealthFromDashboard(d, nowIso).performance;
            (NumTruthy(o.premiumUsers, 0) ==> p.activeUsers == o.premiumUsers.value)
            && (!NumTruthy(o.premiumUsers, 0) && NumTruthy(o.newUsers, 0) ==> p.activeUsers == o.newUsers.value)
            && (NumTruthy(o.newRecipes, 0) ==> p.apiCallsToday == o.newRecipes.value)
            && (!NumTruthy(o.newRecipes, 0) ==> p.apiCallsToday == 0)
  {
  }

  /** The user count can be read back from the `users` label. */
  lemma {:induction false} HealthUserCount(d: Dashboard, nowIso: string)
    requires SelectedOverview(d).totalUsers.Some? && SelectedOverview(d).totalUsers.value >= 0
    ensures var users := FormatHealthFromDashboard(d, nowIso).services.users;
            |users| > 6 && users[|users| - 6..] == " total"
            && ParseNat(users[..|users| - 6]) == Some(SelectedOverview(d).totalUsers.value)
  {
    var n := SelectedOverview(d).totalUsers.value;
    var users := FormatHealthFromDashboard(d, nowIso).services.users;
    assert users == NatToString(n) + " total";
    assert users[..|users| - 6] == NatToString(n);
    NatToStringRoundTrip(n);
  }

  /** A dashboard without an overview reports zero users and recipes. */
  lemma HealthWithoutOverview(nowIso: string)
    ensures var h := FormatHealthFromDashboard(Dashboard(None, None), nowIso);
            h.services.users == "0 total" && h.services.recipes == "0 total"
            && h.performance.activeUsers == 0 && h.performance.apiCallsToday == 0
  {
  }

  /**
   * Unwrapping happens once: with a `data` wrapper the outer overview is
   * ignored, and so is any further wrapper inside.
   */
  lemma {:induction false} HealthUnwrapsOnce(inner: Dashboard, outer: Option<Overview>, nowIso: string)
    ensures FormatHealthFromDashboard(Dashboard(Some(inner), outer), nowIso)
         == FormatHealthFromDashboard(Dashboard(None, inner.overview), nowIso)
  {
    assert SelectedOverview(Dashboard(Some(inner), outer)) == SelectedOverview(Dashboard(None, inner.overview));
  }
}
