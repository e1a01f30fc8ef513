# HYPR authenticator, modelled in Dafny

This project models the federated HYPR authenticator of WSO2 Identity Server:
the step of a login flow that asks the HYPR server for the user's registered
devices, sends a push notification to the first device with a machine ID, and
keeps the state of that attempt (`authStatus`, `authRequestId`, `username`)
in the authentication context between requests. It also models the two
helpers of `HYPRWebUtils` that the flow's nonces rely on: the hex encoding
of a SHA-256 digest and the six-digit random PIN.

Modules:

- `Wrappers`: `Option` and `Result`.
- `JavaText`: `StringUtils.isBlank` with Java's whitespace set, and decimal text of integers.
- `JsonTree`: a Jackson tree, `has`/`get` on objects, `toString()` as compact JSON, and `replace("\"", "")`.
- `HyprConstants`: the parameter and property names, the login page path, the `AuthenticationStatus` and `ErrorMessages` enums with their exact names, codes and messages.
- `HyprFlow`: the flow as values. `ProcessSpec` and `InitiateSpec` say what `process` and `initiateHYPRAuthenticationRequest` return, which context properties they leave, which login pages they redirect to and which HYPR calls they make. The HYPR server is a pair of functions from a call to its reply.
- `HyprAuthenticator`: the imperative authenticator. The authentication context, the servlet response and the HYPR client are classes whose fields the methods update; each method is proved equal to its function in `HyprFlow`.
- `HyprFlowLemmas`: properties of the flow, such as the priority order of `process`, the guard order of the push flow, the paths that leave the context alone, and where the machine ID and request ID come from.
- `HyprWebUtils`: `doSha256`'s loop over the digest and `generateRandomPIN`.

An exception is a value. `Attempt.Threw(e)` is a `HYPRAuthnFailedException` carrying the error `e`. `Attempt.NullPointer` is the `NullPointerException` raised when `toJsonNode` returns null for a reply without an entity.

## Model

| member | source | states |
|---|---|---|
| HyprFlow.CanHandle | components/org.wso2.carbon.identity.application.authenticator.hypr/src/main/java/org/wso2/carbon/identity/application/authenticator/hypr/HyprAuthenticator.java:153-157 | the request can be handled exactly when it carries a `sessionDataKey` parameter, blank or not |
| HyprFlow.GetContextIdentifier | components/org.wso2.carbon.identity.application.authenticator.hypr/src/main/java/org/wso2/carbon/identity/application/authenticator/hypr/HyprAuthenticator.java:132-144 | the identifier is the session data key when that key is present and not blank, and null otherwise |
| HyprFlowLemmas.ContextIdentifierAndCanHandle | components/org.wso2.carbon.identity.application.authenticator.hypr/src/main/java/org/wso2/carbon/identity/application/authenticator/hypr/HyprAuthenticator.java:132-157 | a request with an identifier can be handled; a request with a blank key can be handled but has no identifier |
| HyprFlowLemmas.LoginPageQuery | components/org.wso2.carbon.identity.application.authenticator.hypr/src/main/java/org/wso2/carbon/identity/application/authenticator/hypr/HyprAuthenticator.java:189-205 | the login page URL carries the session data key and `AuthenticatorName=HYPR`; it carries `status` and `message` exactly when a status is given, with that status's name and message |
| HyprFlowLemmas.RedirectStatusRoundTrip | components/org.wso2.carbon.identity.application.authenticator.hypr/src/main/java/org/wso2/carbon/identity/application/authenticator/hypr/HyprAuthenticator.java:189-205 | the status read back from a login page URL is the status it was built with |
| HyprAuthenticator.RedirectHyprLoginPage | components/org.wso2.carbon.identity.application.authenticator.hypr/src/main/java/org/wso2/carbon/identity/application/authenticator/hypr/HyprAuthenticator.java:189-220 | appends exactly one redirect, to the login page URL for the key and status |
| HyprAuthenticator.InitiateAuthenticationRequest | components/org.wso2.carbon.identity.application.authenticator.hypr/src/main/java/org/wso2/carbon/identity/application/authenticator/hypr/HyprAuthenticator.java:169-179 | the first visit redirects to the login page with no status |
| HyprFlow.GetHyprApiClient | components/org.wso2.carbon.identity.application.authenticator.hypr/src/main/java/org/wso2/carbon/identity/application/authenticator/hypr/HyprAuthenticator.java:304-332 | the client is built exactly when base URL, app ID and API token are all non-blank; otherwise the error is that of the first blank one, in the order base URL (65008), app ID (65009), API token (65010) |
| HyprFlow.RegisteredDevices | components/org.wso2.carbon.identity.application.authenticator.hypr/src/main/java/org/wso2/carbon/identity/application/authenticator/hypr/HyprAuthenticator.java:351-355 | the device list is non-empty exactly when the reply is a non-empty JSON array, and it is then that array |
| HyprAuthenticator.GetRegisteredDevices | components/org.wso2.carbon.identity.application.authenticator.hypr/src/main/java/org/wso2/carbon/identity/application/authenticator/hypr/HyprAuthenticator.java:343-361 | makes one devices call and returns the normalised device list, with a reply error passed on and an unreadable body mapped to HYPR-65003 |
| HyprAuthenticator.GetMachineId | components/org.wso2.carbon.identity.application.authenticator.hypr/src/main/java/org/wso2/carbon/identity/application/authenticator/hypr/HyprAuthenticator.java:390-402 | the loop stops at the first device that has a `machineId` field and returns that field's text; with no such device it returns null |
| HyprFlowLemmas.FirstMachineIdIsFirstMatch | components/org.wso2.carbon.identity.application.authenticator.hypr/src/main/java/org/wso2/carbon/identity/application/authenticator/hypr/HyprAuthenticator.java:390-402 | a machine ID exists exactly when some device has the field, and it is the text of the first such device's field |
| HyprFlowLemmas.MachineIdHasNoQuote | components/org.wso2.carbon.identity.application.authenticator.hypr/src/main/java/org/wso2/carbon/identity/application/authenticator/hypr/HyprAuthenticator.java:396 | a machine ID never contains a double quote |
| HyprFlowLemmas.PlainMachineId | components/org.wso2.carbon.identity.application.authenticator.hypr/src/main/java/org/wso2/carbon/identity/application/authenticator/hypr/HyprAuthenticator.java:396 | when the first device with the field holds a JSON string with no character the writer escapes, the machine ID is exactly that string |
| HyprFlowLemmas.NullMachineIdBecomesText | components/org.wso2.carbon.identity.application.authenticator.hypr/src/main/java/org/wso2/carbon/identity/application/authenticator/hypr/HyprAuthenticator.java:392-401 | when the first device with a `machineId` holds JSON null there, the machine ID is the text "null", which is not blank |
| HyprFlow.HyprRequestId | components/org.wso2.carbon.identity.application.authenticator.hypr/src/main/java/org/wso2/carbon/identity/application/authenticator/hypr/HyprAuthenticator.java:411-422 | the request ID exists exactly when the reply has `response` and that object has `requestId`; it is that field's text, without double quotes |
| HyprAuthenticator.GetRequestIdFromSendPushNotification | components/org.wso2.carbon.identity.application.authenticator.hypr/src/main/java/org/wso2/carbon/identity/application/authenticator/hypr/HyprAuthenticator.java:373-383 | makes one push call and returns the request ID read from its reply, with an unreadable reply mapped to HYPR-65007 |
| HyprAuthenticator.InitiateHyprAuthenticationRequest | components/org.wso2.carbon.identity.application.authenticator.hypr/src/main/java/org/wso2/carbon/identity/application/authenticator/hypr/HyprAuthenticator.java:231-295 | the method's outcome, context properties, redirects and HYPR calls are those of `InitiateSpec`, and the subject is unchanged |
| HyprFlowLemmas.BlankUsernameRejectedFirst | components/org.wso2.carbon.identity.application.authenticator.hypr/src/main/java/org/wso2/carbon/identity/application/authenticator/hypr/HyprAuthenticator.java:235-241 | a blank username gets INVALID_REQUEST before the configuration is read and before any call to HYPR |
| HyprFlowLemmas.ConfigurationCheckedBeforeAnyCall | components/org.wso2.carbon.identity.application.authenticator.hypr/src/main/java/org/wso2/carbon/identity/application/authenticator/hypr/HyprAuthenticator.java:243-244 | a bad configuration fails with its own error, with no call, no redirect and no write |
| HyprFlowLemmas.NoDevicesMeansNoPush | components/org.wso2.carbon.identity.application.authenticator.hypr/src/main/java/org/wso2/carbon/identity/application/authenticator/hypr/HyprAuthenticator.java:246-254 | an empty device list gets INVALID_REQUEST after the one devices call, and no push is sent |
| HyprFlowLemmas.BlankMachineIdMeansNoPush | components/org.wso2.carbon.identity.application.authenticator.hypr/src/main/java/org/wso2/carbon/identity/application/authenticator/hypr/HyprAuthenticator.java:260-269 | devices with no usable machine ID get FAILED, and no push is sent |
| HyprFlowLemmas.BlankRequestIdFails | components/org.wso2.carbon.identity.application.authenticator.hypr/src/main/java/org/wso2/carbon/identity/application/authenticator/hypr/HyprAuthenticator.java:271-281 | a push answered without a usable request ID gets FAILED and nothing is stored |
| HyprFlowLemmas.PushSentOnlyAfterEveryGuard | components/org.wso2.carbon.identity.application.authenticator.hypr/src/main/java/org/wso2/carbon/identity/application/authenticator/hypr/HyprAuthenticator.java:231-295 | at most two calls are made: the devices call only with a non-blank username and a valid configuration; the push only after it, with a non-empty device list, to the first device's machine ID |
| HyprFlowLemmas.ContextWrittenOnlyOnSuccess | components/org.wso2.carbon.identity.application.authenticator.hypr/src/main/java/org/wso2/carbon/identity/application/authenticator/hypr/HyprAuthenticator.java:231-295 | the context properties change only on the PENDING path; the PENDING redirect means both calls were made and a non-blank request ID was stored with the username |
| HyprFlowLemmas.AcceptedPushWaits | components/org.wso2.carbon.identity.application.authenticator.hypr/src/main/java/org/wso2/carbon/identity/application/authenticator/hypr/HyprAuthenticator.java:283-293 | when every guard passes, PENDING, the request ID and the username are stored, the PENDING page is shown, and exactly the two calls were made |
| HyprFlowLemmas.PendingPropertiesContent | components/org.wso2.carbon.identity.application.authenticator.hypr/src/main/java/org/wso2/carbon/identity/application/authenticator/hypr/HyprAuthenticator.java:288-290 | the PENDING path sets `authStatus`, `authRequestId` and `username`, and leaves every other property as it was |
| HyprAuthenticator.ProcessAuthenticationResponse | components/org.wso2.carbon.identity.application.authenticator.hypr/src/main/java/org/wso2/carbon/identity/application/authenticator/hypr/HyprAuthenticator.java:438-451 | the subject becomes the federated user named by the stored `username`, and the properties are unchanged |
| HyprAuthenticator.Process | components/org.wso2.carbon.identity.application.authenticator.hypr/src/main/java/org/wso2/carbon/identity/application/authenticator/hypr/HyprAuthenticator.java:454-494 | the result, context properties, subject, redirects and HYPR calls are those of `ProcessSpec`, with `super.process` taken from the host oracle |
| HyprFlowLemmas.LogoutCompletesWithoutEffects | components/org.wso2.carbon.identity.application.authenticator.hypr/src/main/java/org/wso2/carbon/identity/application/authenticator/hypr/HyprAuthenticator.java:457-460 | a logout request completes with no redirect, no call and no change to the context |
| HyprFlowLemmas.UsernameSubmissionRunsPushFlow | components/org.wso2.carbon.identity.application.authenticator.hypr/src/main/java/org/wso2/carbon/identity/application/authenticator/hypr/HyprAuthenticator.java:462-465 | a `username` parameter, even a blank one, runs the push flow; the result is INCOMPLETE unless that flow throws, and the subject is unchanged |
| HyprFlowLemmas.StoredCompletedBindsSubject | components/org.wso2.carbon.identity.application.authenticator.hypr/src/main/java/org/wso2/carbon/identity/application/authenticator/hypr/HyprAuthenticator.java:467-474 | a stored COMPLETED status sets the subject to the stored username and completes, with no redirect and no call |
| HyprFlowLemmas.StoredWaitingStatusRedirects | components/org.wso2.carbon.identity.application.authenticator.hypr/src/main/java/org/wso2/carbon/identity/application/authenticator/hypr/HyprAuthenticator.java:476-486 | a stored PENDING, CANCELED or FAILED status shows that status again on the login page and returns INCOMPLETE, leaving the context unchanged |
| HyprFlowLemmas.UnknownStoredStatusDelegates | components/org.wso2.carbon.identity.application.authenticator.hypr/src/main/java/org/wso2/carbon/identity/application/authenticator/hypr/HyprAuthenticator.java:467-493 | any other stored status is passed to the host framework's `process`: the result, properties, subject and redirects are the host's, and no HYPR call is made |
| HyprFlowLemmas.HostConsultedOnlyWhenDelegating | components/org.wso2.carbon.identity.application.authenticator.hypr/src/main/java/org/wso2/carbon/identity/application/authenticator/hypr/HyprAuthenticator.java:454-493 | on every request that `process` does not delegate, the outcome is the same whatever the host does |
| HyprAuthenticator.SuperProcess | components/org.wso2.carbon.identity.application.authenticator.hypr/src/main/java/org/wso2/carbon/identity/application/authenticator/hypr/HyprAuthenticator.java:493 | the context and response after `super.process` are exactly what the host oracle gives |
| HyprFlowLemmas.FirstEntryRedirectsWithoutStatus | components/org.wso2.carbon.identity.application.authenticator.hypr/src/main/java/org/wso2/carbon/identity/application/authenticator/hypr/HyprAuthenticator.java:488-491 | with no stored status, the user is sent to the login page without status or message |
| HyprFlowLemmas.SubjectSetOnlyOnCompleted | components/org.wso2.carbon.identity.application.authenticator.hypr/src/main/java/org/wso2/carbon/identity/application/authenticator/hypr/HyprAuthenticator.java:454-494 | the authenticator itself changes the subject only when a stored COMPLETED status is processed; any other change comes from the host in the delegated branch |
| HyprFlowLemmas.IncompleteShowsOnePage | components/org.wso2.carbon.identity.application.authenticator.hypr/src/main/java/org/wso2/carbon/identity/application/authenticator/hypr/HyprAuthenticator.java:454-494 | in the authenticator's own branches an INCOMPLETE result comes with exactly one redirect and every other result with none; in the delegated branch the redirects are the host's |
| HyprFlowLemmas.ProcessKeepsStateConsistent | components/org.wso2.carbon.identity.application.authenticator.hypr/src/main/java/org/wso2/carbon/identity/application/authenticator/hypr/HyprAuthenticator.java:288-290 | whenever a status is stored, the request ID and the username are stored too; `process` keeps this, given that the host keeps it when `process` delegates |
| HyprConstants.StatusNamed | components/org.wso2.carbon.identity.application.authenticator.hypr/src/main/java/org/wso2/carbon/identity/application/authenticator/hypr/HyprAuthenticator.java:472-485 | the status found for a stored name carries that name |
| HyprConstants.StatusNameRoundTrip | components/org.wso2.carbon.identity.application.authenticator.hypr/src/main/java/org/wso2/carbon/identity/application/authenticator/hypr/HyprAuthenticator.java:472-485 | every status is recovered from its name, so the stored name selects one branch |
| HyprConstants.ErrorCodesDistinct | components/org.wso2.carbon.identity.application.authenticator.hypr/src/main/java/org/wso2/carbon/identity/application/authenticator/hypr/HyprAuthenticator.java:312-330 | no two error messages share a code, so each configuration failure is told apart by its code |
| JsonTree.RemoveQuotes | components/org.wso2.carbon.identity.application.authenticator.hypr/src/main/java/org/wso2/carbon/identity/application/authenticator/hypr/HyprAuthenticator.java:396 | the result has no double quote, is no longer than the input, and equals the input when the input has none |
| JsonTree.RemoveQuotesConcat | components/org.wso2.carbon.identity.application.authenticator.hypr/src/main/java/org/wso2/carbon/identity/application/authenticator/hypr/HyprAuthenticator.java:396 | removing quotes distributes over concatenation |
| JsonTree.PlainStringText | components/org.wso2.carbon.identity.application.authenticator.hypr/src/main/java/org/wso2/carbon/identity/application/authenticator/hypr/HyprAuthenticator.java:396 | the text of a JSON string with nothing to escape is the string itself |
| HyprWebUtils.Unsigned | components/org.wso2.carbon.identity.application.authenticator.hypr/src/main/java/org/wso2/carbon/identity/application/authenticator/hypr/web/HYPRWebUtils.java:155 | `0xFF & b` is below 256 and is congruent to the byte modulo 256 |
| HyprWebUtils.PaddedExactlyBelowSixteen | components/org.wso2.carbon.identity.application.authenticator.hypr/src/main/java/org/wso2/carbon/identity/application/authenticator/hypr/web/HYPRWebUtils.java:155-158 | the leading '0' is added exactly for byte values below 16 |
| HyprWebUtils.ByteToHexNibbles | components/org.wso2.carbon.identity.application.authenticator.hypr/src/main/java/org/wso2/carbon/identity/application/authenticator/hypr/web/HYPRWebUtils.java:154-159 | each byte becomes two lowercase hex digits, the high nibble and then the low nibble |
| HyprWebUtils.HexAt | components/org.wso2.carbon.identity.application.authenticator.hypr/src/main/java/org/wso2/carbon/identity/application/authenticator/hypr/web/HYPRWebUtils.java:154-161 | characters 2i and 2i+1 of the text are the nibbles of byte i |
| HyprWebUtils.HexIsLowercase | components/org.wso2.carbon.identity.application.authenticator.hypr/src/main/java/org/wso2/carbon/identity/application/authenticator/hypr/web/HYPRWebUtils.java:154-161 | every character of the text is a lowercase hex digit |
| HyprWebUtils.DecodeHexOf | components/org.wso2.carbon.identity.application.authenticator.hypr/src/main/java/org/wso2/carbon/identity/application/authenticator/hypr/web/HYPRWebUtils.java:154-161 | reading the text back in pairs gives the digest bytes |
| HyprWebUtils.HexInjective | components/org.wso2.carbon.identity.application.authenticator.hypr/src/main/java/org/wso2/carbon/identity/application/authenticator/hypr/web/HYPRWebUtils.java:154-161 | different digests never give the same text |
| HyprWebUtils.DoSha256 | components/org.wso2.carbon.identity.application.authenticator.hypr/src/main/java/org/wso2/carbon/identity/application/authenticator/hypr/web/HYPRWebUtils.java:150-163 | the loop builds the encoding of the digest: 64 lowercase hex digits |
| HyprWebUtils.GenerateRandomPin | components/org.wso2.carbon.identity.application.authenticator.hypr/src/main/java/org/wso2/carbon/identity/application/authenticator/hypr/web/HYPRWebUtils.java:138-140 | the PIN lies between 100000 and 999999 |
| HyprWebUtils.PinIsSixDigits | components/org.wso2.carbon.identity.application.authenticator.hypr/src/main/java/org/wso2/carbon/identity/application/authenticator/hypr/web/HYPRWebUtils.java:138-140 | the PIN's decimal text has six digits and no leading zero |
| HyprWebUtils.PinCoversRange | components/org.wso2.carbon.identity.application.authenticator.hypr/src/main/java/org/wso2/carbon/identity/application/authenticator/hypr/web/HYPRWebUtils.java:138-140 | every value between 100000 and 999999 comes from exactly one draw |

## Left out

- HTTP I/O: the HYPR REST calls, `jsonGet`, `jsonPost` and the HTTP client are not modelled. `HyprServer` gives the reply to each call: an error, a reply without an entity, an unreadable body, or a parsed JSON tree.
- JSON parsing (`toJsonNode`): a reply's body is given already parsed. JSON numbers are integers only, since floating point is not modelled. An object's fields are kept in order and may repeat a name, which a Jackson object cannot; `get` takes the first field with the name.
- The URL builder: `ServiceURLBuilder` and `getAbsolutePublicURL` are not modelled. A redirect is kept as the page path and its query parameters in order, and the failures of `sendRedirect` and `build` (HYPR-65001, HYPR-65002) are not modelled.
- `MessageDigest` and `String.getBytes`: SHA-256 of the platform's byte encoding is a parameter (`sha256`) of `DoSha256`. `NoSuchAlgorithmException` is not modelled.
- `java.util.Random`: `nextInt(900000)` is the parameter `draw` of `GenerateRandomPin`.
- The host framework: `super.process` is an oracle (`HostProcess`) from the request and the context to its result, the properties and subject it leaves and the login pages it redirects to. Its own logic, and any redirect it sends to a page other than the HYPR login page, are not modelled. `AuthenticatedUser` is kept as its subject identifier.
- Request parameters: a parameter is a single string, and only its first value is modelled. Context properties are strings.
- Not modelled: `getName`, `getFriendlyName`, `getConfigurationProperties` (constant metadata) and logging.
- The HYPR client constructor: only its three arguments are kept (`HyprFlow.ApiClient`).
