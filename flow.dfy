/**
 * The login flow of `HyprAuthenticator` as values: the request, the redirect
 * it emits, the configuration check, the extraction of machine and request
 * identifiers from HYPR's JSON, and the whole of `process` and of
 * `initiateHYPRAuthenticationRequest` as functions from the state before to
 * what they return, write, redirect to and ask of HYPR.
 */
module HyprFlow {
  import opened Wrappers
  import opened JavaText
  import opened JsonTree
  import opened HyprConstants

  /** The servlet request: each parameter with its (first) value. */
  datatype Request = Request(params: map<string, string>) {
    /** `request.getParameter(name)`. */
    function GetParameter(name: string): Option<string> {
      MapGet(params, name)
    }
  }

  /** `map.get(key)` on a string map: null when the key is absent. */
  function MapGet(m: map<string, string>, key: string): Option<string> {
    if key in m then Some(m[key]) else None
  }

  /** `canHandle`: the request carries a session data key, blank or not. */
  function CanHandle(request: Request): (r: bool)
    ensures r <==> SessionDataKey in request.params
  {
    request.GetParameter(SessionDataKey).Some?
  }

  /** `getContextIdentifier`: the session data key when it is not blank. */
  function GetContextIdentifier(request: Request): (r: Option<string>)
    ensures r.Some? <==> SessionDataKey in request.params && !IsBlank(Some(request.params[SessionDataKey]))
    ensures r.Some? ==> r.value == request.params[SessionDataKey]
  {
    var sessionDataKey := request.GetParameter(SessionDataKey);
    if !IsBlank(sessionDataKey) then sessionDataKey else None
  }

  // ---------------------------------------------------------------------
  // Redirects to the login page

  /** One query parameter given to the URL builder; its value may be null. */
  datatype Param = Param(name: string, value: Option<string>)

  /** A redirect: the page and its query parameters in the order added. */
  datatype Redirect = Redirect(path: string, params: seq<Param>)

  function FindParam(params: seq<Param>, name: string): (r: Option<Param>)
    ensures r.Some? ==> r.value.name == name && r.value in params
    ensures r.None? ==> forall i :: 0 <= i < |params| ==> params[i].name != name
  {
    if params == [] then None
    else if params[0].name == name then Some(params[0])
    else FindParam(params[1..], name)
  }

  predicate HasParam(r: Redirect, name: string) {
    FindParam(r.params, name).Some?
  }

  /** The value of a query parameter; None when it is absent or null. */
  function ParamValue(r: Redirect, name: string): Option<string> {
    match FindParam(r.params, name)
    case Some(p) => p.value
    case None => None
  }

  /** The authentication status a redirect shows, read back from its query. */
  function RedirectStatus(r: Redirect): Option<AuthenticationStatus> {
    match ParamValue(r, StatusParam)
    case Some(name) => StatusNamed(name)
    case None => None
  }

  /** A call of `redirectHYPRLoginPage`: the session data key and the
      status, if any, the login page is to show. */
  datatype LoginPage = LoginPage(sessionDataKey: Option<string>, status: Option<AuthenticationStatus>)

  /** The URL `redirectHYPRLoginPage` builds: the login page with the session
      data key and the authenticator name, plus the status and its message
      when a status is given (its query is described by `HyprFlowLemmas.LoginPageQuery`). */
  function LoginPageUrl(page: LoginPage): Redirect {
    var extra := match page.status
      case None => []
      case Some(st) => [Param(StatusParam, Some(st.Name())), Param(MessageParam, Some(st.Message()))];
    Redirect(HyprLoginPage, [Param(SessionDataKey, page.sessionDataKey)]
                            + ([Param(AuthenticatorNameParam, Some(AuthenticatorFriendlyName))] + extra))
  }

  /** The URLs of a sequence of login-page redirects. */
  function Urls(pages: seq<LoginPage>): (urls: seq<Redirect>)
    ensures pages == [] ==> urls == []
  {
    seq(|pages|, i requires 0 <= i < |pages| => LoginPageUrl(pages[i]))
  }

  // ---------------------------------------------------------------------
  // The HYPR API client

  /** `HYPRAuthorizationAPIClient(baseUrl, appId, apiToken)`. */
  datatype ApiClient = ApiClient(baseUrl: string, appId: string, apiToken: string)

  /** `getHYPRAPIClient`: the configuration check, base URL first, then app
      ID, then API token. */
  function GetHyprApiClient(authenticatorProperties: map<string, string>): (r: Result<ApiClient, ErrorMessage>)
    ensures var baseUrl, appId, apiToken := MapGet(authenticatorProperties, BaseUrl),
                 MapGet(authenticatorProperties, AppId), MapGet(authenticatorProperties, HyprApiToken);
            && (r.Success? <==> !IsBlank(baseUrl) && !IsBlank(appId) && !IsBlank(apiToken))
            && (r == Failure(BaseUrlInvalidFailure) <==> IsBlank(baseUrl))
            && (r == Failure(AppIdInvalidFailure) <==> !IsBlank(baseUrl) && IsBlank(appId))
            && (r == Failure(ApiTokenInvalidFailure) <==> !IsBlank(baseUrl) && !IsBlank(appId) && IsBlank(apiToken))
            && (r.Success? ==> r.value == ApiClient(baseUrl.value, appId.value, apiToken.value))
  {
    var baseUrl := MapGet(authenticatorProperties, BaseUrl);
    var appId := MapGet(authenticatorProperties, AppId);
    var apiToken := MapGet(authenticatorProperties, HyprApiToken);
    if IsBlank(baseUrl) then Failure(BaseUrlInvalidFailure)
    else if IsBlank(appId) then Failure(AppIdInvalidFailure)
    else if IsBlank(apiToken) then Failure(ApiTokenInvalidFailure)
    else Success(ApiClient(baseUrl.value, appId.value, apiToken.value))
  }

  /** The body of an HTTP response as the JSON reader sees it: absent (the
      reader returns null), not JSON (it throws an IOException), or a tree. */
  datatype Entity = NoEntity | Unparsable | Parsed(json: Json)

  /** What a call on the HYPR API client gives back: the client's own
      `HYPRAuthnFailedException`, or the response it returned. */
  datatype ClientReply = ClientError(error: ErrorMessage) | Returned(entity: Entity)

  /** The HYPR service behind the client, as the replies it would give. */
  datatype HyprServer = HyprServer(
    devices: (ApiClient, string) -> ClientReply,
    push: (ApiClient, string, string) -> ClientReply)

  /** A call made on the HYPR API client. */
  datatype ApiCall =
    | DevicesCall(client: ApiClient, username: string)
    | PushCall(client: ApiClient, username: string, machineId: string)

  /** The result of a step that may throw: a value, a
      `HYPRAuthnFailedException` with its error, or a NullPointerException. */
  datatype Attempt<+T> = Done(value: T) | Threw(error: ErrorMessage) | NullPointer

  /** The normalisation in `getRegisteredDevices`: anything but a non-empty
      array becomes the empty list. */
  function RegisteredDevices(node: Json): (devices: seq<Json>)
    ensures devices != [] <==> node.JArray? && node.items != []
    ensures devices != [] ==> devices == node.items
  {
    if node.JArray? && node.items != [] then node.items else []
  }

  /** `getRegisteredDevices` after the client call. */
  function DevicesFrom(reply: ClientReply): Attempt<seq<Json>> {
    match reply
    case ClientError(e) => Threw(e)
    case Returned(NoEntity) => NullPointer
    case Returned(Unparsable) => Threw(RetrievingRegDevicesFailure)
    case Returned(Parsed(node)) => Done(RegisteredDevices(node))
  }

  /** `node.get(name).toString().replace("\"", "")` when `node.has(name)`. */
  function FieldText(node: Json, name: string): Option<string> {
    match Get(node, name)
    case Some(value) => Some(UnquotedText(value))
    case None => None
  }

  /** `getMachineId`: the text of the first device's `machineId` field. */
  function FirstMachineId(devices: seq<Json>): Option<string> {
    if devices == [] then None
    else if Has(devices[0], MachineId) then FieldText(devices[0], MachineId)
    else FirstMachineId(devices[1..])
  }

  /** `getHyprRequestId` on a parsed push response: `response.requestId`. */
  function HyprRequestId(node: Json): (r: Option<string>)
    ensures r.Some? <==> Has(node, ResponseField) && Has(Get(node, ResponseField).value, RequestId)
    ensures r.Some? ==> r.value == UnquotedText(Get(Get(node, ResponseField).value, RequestId).value)
    ensures r.Some? ==> '"' !in r.value
  {
    match Get(node, ResponseField)
    case Some(response) => FieldText(response, RequestId)
    case None => None
  }

  /** `getRequestIDFromSendPushNotification` after the client call. */
  function RequestIdFrom(reply: ClientReply): Attempt<Option<string>> {
    match reply
    case ClientError(e) => Threw(e)
    case Returned(NoEntity) => NullPointer
    case Returned(Unparsable) => Threw(ExtractingRequestIdFailure)
    case Returned(Parsed(node)) => Done(HyprRequestId(node))
  }

  // ---------------------------------------------------------------------
  // The push flow and process

  /** The context properties after a successful push. */
  function PendingProperties(properties: map<string, string>, requestId: string, username: string): map<string, string> {
    properties[AuthStatus := Pending.Name()][AuthRequestId := requestId][Username := username]
  }

  /** What `initiateHYPRAuthenticationRequest` does: how it ends, the context
      properties afterwards, the redirects it sends and the client calls it makes. */
  datatype PushStep = PushStep(
    outcome: Attempt<()>,
    properties: map<string, string>,
    redirects: seq<LoginPage>,
    calls: seq<ApiCall>)

  function InitiateSpec(request: Request, properties: map<string, string>,
                        authenticatorProperties: map<string, string>, server: HyprServer): PushStep
  {
    var username := request.GetParameter(Username);
    var sessionDataKey := request.GetParameter(SessionDataKey);
    if IsBlank(username) then
      PushStep(Done(()), properties, [LoginPage(sessionDataKey, Some(InvalidRequest))], [])
    else
      match GetHyprApiClient(authenticatorProperties)
      case Failure(e) => PushStep(Threw(e), properties, [], [])
      case Success(client) =>
        var devicesCall := DevicesCall(client, username.value);
        match DevicesFrom(server.devices(client, username.value))
        case Threw(e) => PushStep(Threw(e), properties, [], [devicesCall])
        case NullPointer => PushStep(NullPointer, properties, [], [devicesCall])
        case Done(devices) =>
          if devices == [] then
            PushStep(Done(()), properties, [LoginPage(sessionDataKey, Some(InvalidRequest))], [devicesCall])
          else
            var machineId := FirstMachineId(devices);
            if IsBlank(machineId) then
              PushStep(Done(()), properties, [LoginPage(sessionDataKey, Some(Failed))], [devicesCall])
            else
              var pushCall := PushCall(client, username.value, machineId.value);
              match RequestIdFrom(server.push(client, username.value, machineId.value))
              case Threw(e) => PushStep(Threw(e), properties, [], [devicesCall, pushCall])
              case NullPointer => PushStep(NullPointer, properties, [], [devicesCall, pushCall])
              case Done(requestId) =>
                if IsBlank(requestId) then
                  PushStep(Done(()), properties, [LoginPage(sessionDataKey, Some(Failed))],
                           [devicesCall, pushCall])
                else
                  PushStep(Done(()), PendingProperties(properties, requestId.value, username.value),
                           [LoginPage(sessionDataKey, Some(Pending))], [devicesCall, pushCall])
  }

  /** `AuthenticatedUser.createFederateAuthenticatedUserFromSubjectIdentifier`. */
  datatype AuthenticatedUser = FederatedUser(subjectIdentifier: Option<string>)

  /** What `process` returns (`AuthenticatorFlowStatus`). */
  datatype FlowStatus = SuccessCompleted | FailCompleted | Incomplete

  /** The parts of the authentication context the authenticator reads or writes. */
  datatype ContextState = ContextState(
    isLogoutRequest: bool,
    properties: map<string, string>,
    authenticatorProperties: map<string, string>,
    subject: Option<AuthenticatedUser>)

  /** What `process` does: its result, the context properties and subject
      afterwards, the redirects it sends and the client calls it makes. */
  datatype Step = Step(
    result: Attempt<FlowStatus>,
    properties: map<string, string>,
    subject: Option<AuthenticatedUser>,
    redirects: seq<LoginPage>,
    calls: seq<ApiCall>)

  /** What the host framework's own `process` does when the authenticator
      hands a request to it: its result, the context properties and subject
      afterwards and the login pages it redirects to. It may call the
      authenticator's hooks (`initiateAuthenticationRequest`,
      `processAuthenticationResponse`), which make no HYPR call. */
  datatype HostOutcome = HostOutcome(
    result: Attempt<FlowStatus>,
    properties: map<string, string>,
    subject: Option<AuthenticatedUser>,
    redirects: seq<LoginPage>)

  /** `super.process`, as an oracle of the request and the context. */
  type HostProcess = (Request, ContextState) -> HostOutcome

  /** `process` gives the request to `super.process`: a stored status that is
      none of COMPLETED, PENDING, CANCELED and FAILED. */
  predicate Delegates(request: Request, context: ContextState) {
    && !context.isLogoutRequest
    && Username !in request.params
    && AuthStatus in context.properties
    && StatusNamed(context.properties[AuthStatus]) !in {Some(Completed), Some(Pending), Some(Canceled), Some(Failed)}
  }

  /** A step of `process` that changes nothing in the context and calls no API. */
  function Untouched(context: ContextState, result: Attempt<FlowStatus>, redirects: seq<LoginPage>): Step {
    Step(result, context.properties, context.subject, redirects, [])
  }

  function ProcessSpec(request: Request, context: ContextState, server: HyprServer, host: HostProcess): Step {
    var sessionDataKey := request.GetParameter(SessionDataKey);
    if context.isLogoutRequest then
      Untouched(context, Done(SuccessCompleted), [])
    else if Username in request.params then
      var push := InitiateSpec(request, context.properties, context.authenticatorProperties, server);
      var result := match push.outcome
        case Done(_) => Done(Incomplete)
        case Threw(e) => Threw(e)
        case NullPointer => NullPointer;
      Step(result, push.properties, context.subject, push.redirects, push.calls)
    else if AuthStatus in context.properties then
      var authStatus := context.properties[AuthStatus];
      if authStatus == Completed.Name() then
        Step(Done(SuccessCompleted), context.properties,
             Some(FederatedUser(MapGet(context.properties, Username))), [], [])
      else if authStatus == Pending.Name() then
        Untouched(context, Done(Incomplete), [LoginPage(sessionDataKey, Some(Pending))])
      else if authStatus == Canceled.Name() then
        Untouched(context, Done(Incomplete), [LoginPage(sessionDataKey, Some(Canceled))])
      else if authStatus == Failed.Name() then
        Untouched(context, Done(Incomplete), [LoginPage(sessionDataKey, Some(Failed))])
      else
        var h := host(request, context);
        Step(h.result, h.properties, h.subject, h.redirects, [])
    else
      Untouched(context, Done(Incomplete), [LoginPage(sessionDataKey, None)])
  }
}
