/**
 * Properties of the login flow: the priority order of `process`, the guard
 * order of the push flow, what each early return leaves alone, and where the
 * identifiers taken from HYPR's JSON come from.
 */
module HyprFlowLemmas {
  import opened Wrappers
  import opened JavaText
  import opened JsonTree
  import opened HyprConstants
  import opened HyprFlow

  // ---------------------------------------------------------------------
  // canHandle and getContextIdentifier

  /** A request with an identifier can always be handled; one whose key is
      present but blank is handled and gets no identifier. */
  lemma ContextIdentifierAndCanHandle(request: Request)
    ensures GetContextIdentifier(request).Some? ==> CanHandle(request)
    ensures CanHandle(request) && IsBlank(request.GetParameter(SessionDataKey))
            ==> GetContextIdentifier(request) == None
    ensures !CanHandle(request) ==> GetContextIdentifier(request) == None
  {
  }

  // ---------------------------------------------------------------------
  // Redirects

  /** What the login page is told: the session data key, the authenticator
      name, and the status with its message exactly when a status is given. */
  lemma LoginPageQuery(page: LoginPage)
    ensures var r, status := LoginPageUrl(page), page.status;
            && r.path == HyprLoginPage
            && ParamValue(r, SessionDataKey) == page.sessionDataKey
            && ParamValue(r, AuthenticatorNameParam) == Some(AuthenticatorFriendlyName)
            && (HasParam(r, StatusParam) <==> status.Some?)
            && (HasParam(r, MessageParam) <==> status.Some?)
            && (status.Some? ==> ParamValue(r, StatusParam) == Some(status.value.Name()))
            && (status.Some? ==> ParamValue(r, MessageParam) == Some(status.value.Message()))
  {
    var params := LoginPageUrl(page).params;
    var tail := params[1..];
    var extra := tail[1..];
    assert extra != [] ==> extra[1..] == [extra[1]] && [extra[1]][1..] == [];
    assert SessionDataKey != AuthenticatorNameParam && SessionDataKey != StatusParam
      && SessionDataKey != MessageParam && AuthenticatorNameParam != StatusParam
      && AuthenticatorNameParam != MessageParam && StatusParam != MessageParam;
    assert FindParam(params, AuthenticatorNameParam) == Some(tail[0]);
    assert FindParam(params, StatusParam) == FindParam(tail, StatusParam) == FindParam(extra, StatusParam);
    assert FindParam(params, MessageParam) == FindParam(tail, MessageParam) == FindParam(extra, MessageParam);
  }

  /** The status placed on a login-page redirect is the one it shows. */
  lemma RedirectStatusRoundTrip(page: LoginPage)
    ensures RedirectStatus(LoginPageUrl(page)) == page.status
  {
    LoginPageQuery(page);
    if page.status.Some? {
      StatusNameRoundTrip(page.status.value);
    }
  }

  // ---------------------------------------------------------------------
  // Identifiers extracted from HYPR's JSON

  /** `getMachineId` finds a machine ID exactly when some device has the
      field, and then it is the text of the first such device's field. */
  lemma {:induction false} FirstMachineIdIsFirstMatch(devices: seq<Json>)
    ensures FirstMachineId(devices).Some? <==> exists i :: 0 <= i < |devices| && Has(devices[i], MachineId)
    ensures FirstMachineId(devices).Some? ==>
              exists i :: 0 <= i < |devices| && Has(devices[i], MachineId)
                && (forall j :: 0 <= j < i ==> !Has(devices[j], MachineId))
                && FirstMachineId(devices) == FieldText(devices[i], MachineId)
  {
    if devices != [] && !Has(devices[0], MachineId) {
      var rest := devices[1..];
      FirstMachineIdIsFirstMatch(rest);
      if FirstMachineId(rest).Some? {
        var i :| 0 <= i < |rest| && Has(rest[i], MachineId)
                 && (forall j :: 0 <= j < i ==> !Has(rest[j], MachineId))
                 && FirstMachineId(rest) == FieldText(rest[i], MachineId);
        assert devices[i + 1] == rest[i];
        forall j | 0 <= j < i + 1
          ensures !Has(devices[j], MachineId)
        {
          if j > 0 { assert devices[j] == rest[j - 1]; }
        }
      } else {
        forall i | 0 <= i < |devices|
          ensures !Has(devices[i], MachineId)
        {
          if i > 0 { assert devices[i] == rest[i - 1]; }
        }
      }
    }
  }

  /** A machine ID never contains a double quote. */
  lemma {:induction false} MachineIdHasNoQuote(devices: seq<Json>)
    ensures FirstMachineId(devices).Some? ==> '"' !in FirstMachineId(devices).value
  {
    if devices != [] && !Has(devices[0], MachineId) {
      MachineIdHasNoQuote(devices[1..]);
    }
  }

  /** A device whose `machineId` is a plain JSON string yields exactly that string. */
  lemma PlainMachineId(devices: seq<Json>, i: nat, s: string)
    requires i < |devices| && Get(devices[i], MachineId) == Some(JString(s)) && IsPlain(s)
    requires forall j :: 0 <= j < i ==> !Has(devices[j], MachineId)
    ensures FirstMachineId(devices) == Some(s)
  {
    FirstMachineIdIsFirstMatch(devices);
    PlainStringText(s);
    var k :| 0 <= k < |devices| && Has(devices[k], MachineId)
             && (forall j :: 0 <= j < k ==> !Has(devices[j], MachineId))
             && FirstMachineId(devices) == FieldText(devices[k], MachineId);
    assert k == i;
  }

  /** A `machineId` holding JSON null is still present: when it is on the
      first device with the field, the machine ID is the four letters "null",
      which is not blank, so the push is sent to it. */
  lemma NullMachineIdBecomesText(devices: seq<Json>, i: nat)
    requires i < |devices| && Get(devices[i], MachineId) == Some(JNull)
    requires forall j :: 0 <= j < i ==> !Has(devices[j], MachineId)
    ensures FirstMachineId(devices) == Some("null")
    ensures !IsBlank(FirstMachineId(devices))
  {
    FirstMachineIdIsFirstMatch(devices);
    var k :| 0 <= k < |devices| && Has(devices[k], MachineId)
             && (forall j :: 0 <= j < k ==> !Has(devices[j], MachineId))
             && FirstMachineId(devices) == FieldText(devices[k], MachineId);
    assert k == i;
    NullText();
  }

  /** The text of JSON null is "null", and it is not blank. */
  lemma NullText()
    ensures UnquotedText(JNull) == "null" && !IsBlank(Some("null"))
  {
    var text := "null";
    assert RemoveQuotes(text) == text by {
      assert !('"' in text);
    }
    assert !IsWhitespace(text[0]);
  }

  // ---------------------------------------------------------------------
  // The push flow, guard by guard

  /** A blank username is sent back with INVALID_REQUEST before the
      configuration is looked at and before any call to HYPR. */
  lemma BlankUsernameRejectedFirst(request: Request, properties: map<string, string>,
                                   authenticatorProperties: map<string, string>, server: HyprServer)
    requires IsBlank(request.GetParameter(Username))
    ensures var s := InitiateSpec(request, properties, authenticatorProperties, server);
            && s.outcome == Done(())
            && s.properties == properties
            && s.redirects == [LoginPage(request.GetParameter(SessionDataKey), Some(InvalidRequest))]
            && s.calls == []
  {
  }

  /** A bad configuration fails the attempt with its own error before any
      call to HYPR, and nothing is redirected or written. */
  lemma ConfigurationCheckedBeforeAnyCall(request: Request, properties: map<string, string>,
                                          authenticatorProperties: map<string, string>, server: HyprServer)
    requires !IsBlank(request.GetParameter(Username))
    requires GetHyprApiClient(authenticatorProperties).Failure?
    ensures var s := InitiateSpec(request, properties, authenticatorProperties, server);
            && s.outcome == Threw(GetHyprApiClient(authenticatorProperties).error)
            && s.properties == properties
            && s.redirects == []
            && s.calls == []
  {
  }

  /** An empty device list is sent back with INVALID_REQUEST; the push is never sent. */
  lemma NoDevicesMeansNoPush(request: Request, properties: map<string, string>,
                             authenticatorProperties: map<string, string>, server: HyprServer)
    requires !IsBlank(request.GetParameter(Username))
    requires GetHyprApiClient(authenticatorProperties).Success?
    requires var client, username := GetHyprApiClient(authenticatorProperties).value,
                                     request.GetParameter(Username).value;
             DevicesFrom(server.devices(client, username)) == Done([])
    ensures var s := InitiateSpec(request, properties, authenticatorProperties, server);
            && s.outcome == Done(())
            && s.properties == properties
            && s.redirects == [LoginPage(request.GetParameter(SessionDataKey), Some(InvalidRequest))]
            && s.calls == [DevicesCall(GetHyprApiClient(authenticatorProperties).value,
                                       request.GetParameter(Username).value)]
  {
  }

  /** Devices without a usable machine ID are sent back with FAILED; the push is never sent. */
  lemma BlankMachineIdMeansNoPush(request: Request, properties: map<string, string>,
                                  authenticatorProperties: map<string, string>, server: HyprServer)
    requires !IsBlank(request.GetParameter(Username))
    requires GetHyprApiClient(authenticatorProperties).Success?
    requires var client, username := GetHyprApiClient(authenticatorProperties).value,
                                     request.GetParameter(Username).value;
             var devices := DevicesFrom(server.devices(client, username));
             devices.Done? && devices.value != [] && IsBlank(FirstMachineId(devices.value))
    ensures var s := InitiateSpec(request, properties, authenticatorProperties, server);
            && s.outcome == Done(())
            && s.properties == properties
            && s.redirects == [LoginPage(request.GetParameter(SessionDataKey), Some(Failed))]
            && |s.calls| == 1 && s.calls[0].DevicesCall?
  {
  }

  /** A push answered without a usable request ID is sent back with FAILED. */
  lemma BlankRequestIdFails(request: Request, properties: map<string, string>,
                            authenticatorProperties: map<string, string>, server: HyprServer)
    requires !IsBlank(request.GetParameter(Username))
    requires GetHyprApiClient(authenticatorProperties).Success?
    requires var client, username := GetHyprApiClient(authenticatorProperties).value,
                                     request.GetParameter(Username).value;
             var devices := DevicesFrom(server.devices(client, username));
             && devices.Done? && devices.value != [] && !IsBlank(FirstMachineId(devices.value))
             && var requestId := RequestIdFrom(server.push(client, username, FirstMachineId(devices.value).value));
                requestId.Done? && IsBlank(requestId.value)
    ensures var s := InitiateSpec(request, properties, authenticatorProperties, server);
            && s.outcome == Done(())
            && s.properties == properties
            && s.redirects == [LoginPage(request.GetParameter(SessionDataKey), Some(Failed))]
            && |s.calls| == 2 && s.calls[1].PushCall?
  {
  }

  /** The calls to HYPR come in guard order: the device lookup only with a
      non-blank username and a valid configuration, the push only after it,
      with a non-empty device list and a non-blank machine ID. */
  lemma PushSentOnlyAfterEveryGuard(request: Request, properties: map<string, string>,
                                    authenticatorProperties: map<string, string>, server: HyprServer)
    ensures var s := InitiateSpec(request, properties, authenticatorProperties, server);
            var username, client := request.GetParameter(Username), GetHyprApiClient(authenticatorProperties);
            && |s.calls| <= 2
            && (s.calls != [] ==>
                  && !IsBlank(username) && client.Success?
                  && s.calls[0] == DevicesCall(client.value, username.value))
            && (|s.calls| == 2 ==>
                  var devices := DevicesFrom(server.devices(client.value, username.value));
                  && devices.Done? && devices.value != []
                  && !IsBlank(FirstMachineId(devices.value))
                  && s.calls[1] == PushCall(client.value, username.value, FirstMachineId(devices.value).value))
  {
  }

  /** The properties are the ones HYPR's answer accepted, or the old ones:
      on the PENDING path the context holds PENDING, the request ID HYPR
      returned and the username; on every other path it is untouched. */
  lemma ContextWrittenOnlyOnSuccess(request: Request, properties: map<string, string>,
                                    authenticatorProperties: map<string, string>, server: HyprServer)
    ensures var s := InitiateSpec(request, properties, authenticatorProperties, server);
            var pending := LoginPage(request.GetParameter(SessionDataKey), Some(Pending));
            && (s.properties != properties ==> s.redirects == [pending])
            && (s.redirects == [pending] ==>
                  && s.outcome == Done(())
                  && |s.calls| == 2 && s.calls[1].PushCall?
                  && var call := s.calls[1];
                     var requestId := RequestIdFrom(server.push(call.client, call.username, call.machineId));
                     && request.GetParameter(Username) == Some(call.username)
                     && requestId.Done? && !IsBlank(requestId.value)
                     && s.properties == PendingProperties(properties, requestId.value.value, call.username))
  {
    var s := InitiateSpec(request, properties, authenticatorProperties, server);
    var username := request.GetParameter(Username);
    var key := request.GetParameter(SessionDataKey);
    var pending := LoginPage(key, Some(Pending));
    if IsBlank(username) {
      return;
    }
    var config := GetHyprApiClient(authenticatorProperties);
    if config.Failure? {
      return;
    }
    var client := config.value;
    var devices := DevicesFrom(server.devices(client, username.value));
    if !devices.Done? {
      return;
    }
    if devices.value == [] {
      return;
    }
    var machineId := FirstMachineId(devices.value);
    if IsBlank(machineId) {
      return;
    }
    var requestId := RequestIdFrom(server.push(client, username.value, machineId.value));
    assert s.calls == [DevicesCall(client, username.value), PushCall(client, username.value, machineId.value)];
    if requestId.Done? && IsBlank(requestId.value) {
    }
  }

  /** When every guard passes, the push flow stores PENDING, HYPR's request
      ID and the username, shows the PENDING page, and has made exactly the
      two calls. */
  lemma AcceptedPushWaits(request: Request, properties: map<string, string>,
                          authenticatorProperties: map<string, string>, server: HyprServer,
                          client: ApiClient, username: string, devices: seq<Json>, machineId: string,
                          requestId: string)
    requires request.GetParameter(Username) == Some(username) && !IsBlank(Some(username))
    requires GetHyprApiClient(authenticatorProperties) == Success(client)
    requires DevicesFrom(server.devices(client, username)) == Done(devices) && devices != []
    requires FirstMachineId(devices) == Some(machineId) && !IsBlank(Some(machineId))
    requires RequestIdFrom(server.push(client, username, machineId)) == Done(Some(requestId))
    requires !IsBlank(Some(requestId))
    ensures InitiateSpec(request, properties, authenticatorProperties, server)
         == PushStep(Done(()), PendingProperties(properties, requestId, username),
                     [LoginPage(request.GetParameter(SessionDataKey), Some(Pending))],
                     [DevicesCall(client, username), PushCall(client, username, machineId)])
  {
  }

  /** What the PENDING path writes: three properties, the rest untouched. */
  lemma PendingPropertiesContent(properties: map<string, string>, requestId: string, username: string)
    ensures var p := PendingProperties(properties, requestId, username);
            && p.Keys == properties.Keys + {AuthStatus, AuthRequestId, Username}
            && p[AuthStatus] == "PENDING" && p[AuthRequestId] == requestId && p[Username] == username
            && forall k :: k in properties && k != AuthStatus && k != AuthRequestId && k != Username
                 ==> p[k] == properties[k]
  {
  }

  // ---------------------------------------------------------------------
  // process, branch by branch

  /** A logout request completes at once, touching nothing. */
  lemma LogoutCompletesWithoutEffects(request: Request, context: ContextState, server: HyprServer,
      host: HostProcess)
    requires context.isLogoutRequest
    ensures ProcessSpec(request, context, server, host)
         == Step(Done(SuccessCompleted), context.properties, context.subject, [], [])
  {
  }

  /** A `username` parameter, even a blank one, runs the push flow; the
      attempt stays INCOMPLETE unless the flow throws. */
  lemma UsernameSubmissionRunsPushFlow(request: Request, context: ContextState, server: HyprServer,
      host: HostProcess)
    requires !context.isLogoutRequest && Username in request.params
    ensures var s := ProcessSpec(request, context, server, host);
            var push := InitiateSpec(request, context.properties, context.authenticatorProperties, server);
            && (push.outcome.Done? <==> s.result == Done(Incomplete))
            && (push.outcome.Threw? ==> s.result == Threw(push.outcome.error))
            && (push.outcome.NullPointer? ==> s.result == NullPointer)
            && s.properties == push.properties && s.subject == context.subject
            && s.redirects == push.redirects && s.calls == push.calls
  {
  }

  /** A stored COMPLETED status binds the stored username as the subject and
      completes, with no redirect and no call. */
  lemma StoredCompletedBindsSubject(request: Request, context: ContextState, server: HyprServer,
      host: HostProcess)
    requires !context.isLogoutRequest && Username !in request.params
    requires AuthStatus in context.properties && context.properties[AuthStatus] == "COMPLETED"
    ensures ProcessSpec(request, context, server, host)
         == Step(Done(SuccessCompleted), context.properties,
                 Some(FederatedUser(MapGet(context.properties, Username))), [], [])
  {
  }

  /** A stored PENDING, CANCELED or FAILED status is shown again on the login
      page; the context is left as it was and HYPR is not called. */
  lemma StoredWaitingStatusRedirects(request: Request, context: ContextState, server: HyprServer,
                                     host: HostProcess, status: AuthenticationStatus)
    requires !context.isLogoutRequest && Username !in request.params
    requires status == Pending || status == Canceled || status == Failed
    requires AuthStatus in context.properties && context.properties[AuthStatus] == status.Name()
    ensures ProcessSpec(request, context, server, host)
         == Step(Done(Incomplete), context.properties, context.subject,
                 [LoginPage(request.GetParameter(SessionDataKey), Some(status))], [])
  {
    var stored := context.properties[AuthStatus];
    StatusNameRoundTrip(status);
    StatusNameRoundTrip(Completed);
    StatusNameRoundTrip(Pending);
    StatusNameRoundTrip(Canceled);
    assert stored != Completed.Name();
    assert status == Pending <==> stored == Pending.Name();
    assert status == Canceled <==> stored == Canceled.Name();
  }

  /** Any other stored value is left to the host framework's `process`:
      the step is exactly what the host does, with no HYPR call. */
  lemma UnknownStoredStatusDelegates(request: Request, context: ContextState, server: HyprServer,
      host: HostProcess)
    requires Delegates(request, context)
    ensures var h := host(request, context);
            ProcessSpec(request, context, server, host) == Step(h.result, h.properties, h.subject, h.redirects, [])
  {
    var stored := context.properties[AuthStatus];
    StatusNameRoundTrip(Completed);
    StatusNameRoundTrip(Pending);
    StatusNameRoundTrip(Canceled);
    StatusNameRoundTrip(Failed);
    assert stored != Completed.Name() && stored != Pending.Name();
    assert stored != Canceled.Name() && stored != Failed.Name();
  }

  /** The host is consulted only when `process` delegates: on every other
      request any two hosts give the same step. */
  lemma HostConsultedOnlyWhenDelegating(request: Request, context: ContextState, server: HyprServer,
      host: HostProcess, other: HostProcess)
    requires !Delegates(request, context)
    ensures ProcessSpec(request, context, server, host) == ProcessSpec(request, context, server, other)
  {
    if !context.isLogoutRequest && Username !in request.params && AuthStatus in context.properties {
      var stored := context.properties[AuthStatus];
      var named := StatusNamed(stored);
      assert named in {Some(Completed), Some(Pending), Some(Canceled), Some(Failed)};
      assert named.Some? && named.value.Name() == stored;
    }
  }

  /** On the first visit the user is sent to the login page without status or message. */
  lemma FirstEntryRedirectsWithoutStatus(request: Request, context: ContextState, server: HyprServer,
      host: HostProcess)
    requires !context.isLogoutRequest && Username !in request.params
    requires AuthStatus !in context.properties
    ensures var s := ProcessSpec(request, context, server, host);
            && s == Untouched(context, Done(Incomplete), [LoginPage(request.GetParameter(SessionDataKey), None)])
            && !HasParam(LoginPageUrl(s.redirects[0]), StatusParam)
            && !HasParam(LoginPageUrl(s.redirects[0]), MessageParam)
  {
    LoginPageQuery(LoginPage(request.GetParameter(SessionDataKey), None));
  }

  /** Of the authenticator's own branches, only a stored COMPLETED status
      sets the subject; otherwise it is set only by the host when `process`
      delegates. */
  lemma SubjectSetOnlyOnCompleted(request: Request, context: ContextState, server: HyprServer,
      host: HostProcess)
    ensures var s := ProcessSpec(request, context, server, host);
            s.subject != context.subject ==>
              || (&& !context.isLogoutRequest && Username !in request.params
                  && MapGet(context.properties, AuthStatus) == Some("COMPLETED")
                  && s.result == Done(SuccessCompleted))
              || (Delegates(request, context) && s.subject == host(request, context).subject)
  {
    if Delegates(request, context) {
      UnknownStoredStatusDelegates(request, context, server, host);
    }
  }

  /** In the authenticator's own branches an INCOMPLETE attempt always shows
      exactly one page and every other result sends no redirect; when it
      delegates, the redirects are the host's. */
  lemma IncompleteShowsOnePage(request: Request, context: ContextState, server: HyprServer,
      host: HostProcess)
    ensures var s := ProcessSpec(request, context, server, host);
            && (!Delegates(request, context) && s.result == Done(Incomplete) ==> |s.redirects| == 1)
            && (!Delegates(request, context) && s.result != Done(Incomplete) ==> s.redirects == [])
            && (Delegates(request, context) ==> s.redirects == host(request, context).redirects)
  {
    if Delegates(request, context) {
      UnknownStoredStatusDelegates(request, context, server, host);
    }
  }

  /** A request ID is stored whenever a status is: `process` keeps this. */
  predicate HyprStateConsistent(properties: map<string, string>) {
    AuthStatus in properties ==> AuthRequestId in properties && Username in properties
  }

  /** Assuming the host, when `process` delegates to it, keeps the three
      HYPR properties consistent too. */
  lemma ProcessKeepsStateConsistent(request: Request, context: ContextState, server: HyprServer,
      host: HostProcess)
    requires HyprStateConsistent(context.properties)
    requires Delegates(request, context) ==> HyprStateConsistent(host(request, context).properties)
    ensures HyprStateConsistent(ProcessSpec(request, context, server, host).properties)
  {
    if Delegates(request, context) {
      UnknownStoredStatusDelegates(request, context, server, host);
    } else if !context.isLogoutRequest && Username in request.params {
      ContextWrittenOnlyOnSuccess(request, context.properties, context.authenticatorProperties, server);
    }
  }
}
