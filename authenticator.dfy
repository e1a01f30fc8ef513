/**
 * `HyprAuthenticator` as it runs: the authentication context and the servlet
 * response are objects that the flow changes in place, and every call on the
 * HYPR API client is recorded. Each method is proved to do exactly what the
 * matching function of `HyprFlow` describes.
 */
module HyprAuthenticator {
  import opened Wrappers
  import opened JavaText
  import opened JsonTree
  import opened HyprConstants
  import opened HyprFlow

  /** The host framework's authentication context, reduced to what the
      authenticator reads and writes. */
  class AuthenticationContext {
    const isLogoutRequest: bool
    const authenticatorProperties: map<string, string>
    var properties: map<string, string>
    var subject: Option<AuthenticatedUser>

    constructor (isLogoutRequest: bool, authenticatorProperties: map<string, string>,
                 properties: map<string, string>)
      ensures this.isLogoutRequest == isLogoutRequest
      ensures this.authenticatorProperties == authenticatorProperties
      ensures this.properties == properties && subject == None
    {
      this.isLogoutRequest := isLogoutRequest;
      this.authenticatorProperties := authenticatorProperties;
      this.properties := properties;
      subject := None;
    }

    /** `context.getProperty(key)`: null when the property was never set. */
    function GetProperty(key: string): Option<string>
      reads this
    {
      MapGet(properties, key)
    }

    /** `context.setProperty(key, value)`. */
    method SetProperty(key: string, value: string)
      modifies this
      ensures properties == old(properties)[key := value]
      ensures subject == old(subject)
    {
      properties := properties[key := value];
    }

    /** `context.setSubject(user)`. */
    method SetSubject(user: AuthenticatedUser)
      modifies this
      ensures subject == Some(user)
      ensures properties == old(properties)
    {
      subject := Some(user);
    }

    function State(): ContextState
      reads this
    {
      ContextState(isLogoutRequest, properties, authenticatorProperties, subject)
    }
  }

  /** The servlet response: the redirects sent on it, in order. */
  class HttpServletResponse {
    var redirects: seq<Redirect>

    constructor ()
      ensures redirects == []
    {
      redirects := [];
    }

    /** `response.sendRedirect(url)`, with the URL kept as its parts. */
    method SendRedirect(redirect: Redirect)
      modifies this
      ensures redirects == old(redirects) + [redirect]
    {
      redirects := redirects + [redirect];
    }
  }

  /** The HYPR service as the API client reaches it, with every call made on it. */
  class HyprService {
    const server: HyprServer
    var calls: seq<ApiCall>

    constructor (server: HyprServer)
      ensures this.server == server && calls == []
    {
      this.server := server;
      calls := [];
    }

    /** `getRegisteredDevicesRequest(username)`. */
    method GetRegisteredDevicesRequest(client: ApiClient, username: string) returns (reply: ClientReply)
      modifies this
      ensures calls == old(calls) + [DevicesCall(client, username)]
      ensures reply == server.devices(client, username)
    {
      calls := calls + [DevicesCall(client, username)];
      reply := server.devices(client, username);
    }

    /** `initiateAuthenticationRequest(username, machineId)`: the push. */
    method InitiateAuthenticationRequest(client: ApiClient, username: string, machineId: string)
      returns (reply: ClientReply)
      modifies this
      ensures calls == old(calls) + [PushCall(client, username, machineId)]
      ensures reply == server.push(client, username, machineId)
    {
      calls := calls + [PushCall(client, username, machineId)];
      reply := server.push(client, username, machineId);
    }
  }

  /** `redirectHYPRLoginPage`, also reached through `handleAuthenticationIncompleteState`. */
  method RedirectHyprLoginPage(response: HttpServletResponse, sessionDataKey: Option<string>,
                               status: Option<AuthenticationStatus>)
    modifies response
    ensures response.redirects == old(response.redirects) + Urls([LoginPage(sessionDataKey, status)])
  {
    response.SendRedirect(LoginPageUrl(LoginPage(sessionDataKey, status)));
    assert Urls([LoginPage(sessionDataKey, status)]) == [LoginPageUrl(LoginPage(sessionDataKey, status))];
  }

  /** `getRegisteredDevices`: ask HYPR for the user's devices and normalise the answer. */
  method GetRegisteredDevices(username: string, client: ApiClient, hypr: HyprService)
    returns (devices: Attempt<seq<Json>>)
    modifies hypr
    ensures hypr.calls == old(hypr.calls) + [DevicesCall(client, username)]
    ensures devices == DevicesFrom(hypr.server.devices(client, username))
  {
    var reply := hypr.GetRegisteredDevicesRequest(client, username);
    devices := DevicesFrom(reply);
  }

  /** `getMachineId`: walk the devices and stop at the first with a `machineId`. */
  method GetMachineId(registeredDevices: seq<Json>) returns (machineId: Option<string>)
    ensures machineId == FirstMachineId(registeredDevices)
  {
    machineId := None;
    if registeredDevices != [] {
      var i := 0;
      while i < |registeredDevices|
        invariant 0 <= i <= |registeredDevices|
        invariant FirstMachineId(registeredDevices[i..]) == FirstMachineId(registeredDevices)
      {
        var device := registeredDevices[i];
        if Has(device, MachineId) {
          machineId := FieldText(device, MachineId);
          break;
        }
        assert registeredDevices[i..][1..] == registeredDevices[i + 1..];
        i := i + 1;
      }
    }
  }

  /** `getRequestIDFromSendPushNotification`: send the push and read the request ID. */
  method GetRequestIdFromSendPushNotification(username: string, machineId: string, client: ApiClient,
                                              hypr: HyprService)
    returns (requestId: Attempt<Option<string>>)
    modifies hypr
    ensures hypr.calls == old(hypr.calls) + [PushCall(client, username, machineId)]
    ensures requestId == RequestIdFrom(hypr.server.push(client, username, machineId))
  {
    var reply := hypr.InitiateAuthenticationRequest(client, username, machineId);
    requestId := RequestIdFrom(reply);
  }

  /** `initiateHYPRAuthenticationRequest`: the guarded push flow. */
  method InitiateHyprAuthenticationRequest(request: Request, response: HttpServletResponse,
                                           context: AuthenticationContext, hypr: HyprService)
    returns (outcome: Attempt<()>)
    modifies response, context, hypr
    ensures var s := InitiateSpec(request, old(context.properties), context.authenticatorProperties, hypr.server);
            && outcome == s.outcome
            && context.properties == s.properties
            && context.subject == old(context.subject)
            && response.redirects == old(response.redirects) + Urls(s.redirects)
            && hypr.calls == old(hypr.calls) + s.calls
  {
    var username := request.GetParameter(Username);
    var sessionDataKey := request.GetParameter(SessionDataKey);

    if IsBlank(username) {
      RedirectHyprLoginPage(response, sessionDataKey, Some(InvalidRequest));
      return Done(());
    }

    var client := GetHyprApiClient(context.authenticatorProperties);
    if client.Failure? {
      return Threw(client.error);
    }

    var registeredDevices := GetRegisteredDevices(username.value, client.value, hypr);
    if registeredDevices.Threw? {
      return Threw(registeredDevices.error);
    } else if registeredDevices.NullPointer? {
      return NullPointer;
    }

    if registeredDevices.value == [] {
      RedirectHyprLoginPage(response, sessionDataKey, Some(InvalidRequest));
      return Done(());
    }

    var machineId := GetMachineId(registeredDevices.value);
    if IsBlank(machineId) {
      RedirectHyprLoginPage(response, sessionDataKey, Some(Failed));
      return Done(());
    }

    var requestId := GetRequestIdFromSendPushNotification(username.value, machineId.value, client.value, hypr);
    if requestId.Threw? {
      return Threw(requestId.error);
    } else if requestId.NullPointer? {
      return NullPointer;
    }

    if IsBlank(requestId.value) {
      RedirectHyprLoginPage(response, sessionDataKey, Some(Failed));
      return Done(());
    }

    context.SetProperty(AuthStatus, Pending.Name());
    context.SetProperty(AuthRequestId, requestId.value.value);
    context.SetProperty(Username, username.value);
    RedirectHyprLoginPage(response, sessionDataKey, Some(Pending));
    return Done(());
  }

  /** `super.process`: the host framework takes over; what it leaves in the
      context and sends on the response comes from the oracle `host`. */
  method SuperProcess(request: Request, response: HttpServletResponse, context: AuthenticationContext,
                      host: HostProcess)
    returns (status: Attempt<FlowStatus>)
    modifies response, context
    ensures var h := host(request, old(context.State()));
            && status == h.result
            && context.properties == h.properties
            && context.subject == h.subject
            && response.redirects == old(response.redirects) + Urls(h.redirects)
  {
    var h := host(request, context.State());
    context.properties := h.properties;
    context.subject := h.subject;
    response.redirects := response.redirects + Urls(h.redirects);
    status := h.result;
  }

  /** `processAuthenticationResponse`: bind the stored username as the subject. */
  method ProcessAuthenticationResponse(context: AuthenticationContext)
    modifies context
    ensures context.subject == Some(FederatedUser(old(context.GetProperty(Username))))
    ensures context.properties == old(context.properties)
  {
    var username := context.GetProperty(Username);
    context.SetSubject(FederatedUser(username));
  }

  /** `initiateAuthenticationRequest`: send the user to the login page, with no status. */
  method InitiateAuthenticationRequest(request: Request, response: HttpServletResponse)
    modifies response
    ensures response.redirects
         == old(response.redirects) + Urls([LoginPage(request.GetParameter(SessionDataKey), None)])
  {
    var sessionDataKey := request.GetParameter(SessionDataKey);
    RedirectHyprLoginPage(response, sessionDataKey, None);
  }

  /** `process`: logout, then a submitted username, then a stored status,
      then the first visit. */
  method Process(request: Request, response: HttpServletResponse, context: AuthenticationContext,
                 hypr: HyprService, host: HostProcess)
    returns (status: Attempt<FlowStatus>)
    modifies response, context, hypr
    ensures var s := ProcessSpec(request, old(context.State()), hypr.server, host);
            && status == s.result
            && context.properties == s.properties
            && context.subject == s.subject
            && response.redirects == old(response.redirects) + Urls(s.redirects)
            && hypr.calls == old(hypr.calls) + s.calls
  {
    if context.isLogoutRequest {
      return Done(SuccessCompleted);
    } else if Username in request.params {
      var outcome := InitiateHyprAuthenticationRequest(request, response, context, hypr);
      match outcome
      case Done(_) => return Done(Incomplete);
      case Threw(e) => return Threw(e);
      case NullPointer => return NullPointer;
    } else if context.GetProperty(AuthStatus).Some? {
      var sessionDataKey := request.GetParameter(SessionDataKey);
      var authStatus := context.GetProperty(AuthStatus).value;
      if authStatus == Completed.Name() {
        ProcessAuthenticationResponse(context);
        return Done(SuccessCompleted);
      } else if authStatus == Pending.Name() {
        RedirectHyprLoginPage(response, sessionDataKey, Some(Pending));
        return Done(Incomplete);
      } else if authStatus == Canceled.Name() {
        RedirectHyprLoginPage(response, sessionDataKey, Some(Canceled));
        return Done(Incomplete);
      } else if authStatus == Failed.Name() {
        RedirectHyprLoginPage(response, sessionDataKey, Some(Failed));
        return Done(Incomplete);
      }
    } else {
      InitiateAuthenticationRequest(request, response);
      return Done(Incomplete);
    }
    status := SuperProcess(request, response, context, host);
  }
}
