/**
 * The names, paths, statuses and error messages the authenticator uses
 * (`HyprAuthenticatorConstants`).
 */
module HyprConstants {
  import opened Wrappers

  const AuthenticatorFriendlyName: string := "HYPR"

  // Request parameters and context properties.
  const SessionDataKey: string := "sessionDataKey"
  const Username: string := "username"
  const AuthStatus: string := "authStatus"
  const AuthRequestId: string := "authRequestId"

  // Authenticator (identity provider) configuration.
  const BaseUrl: string := "baseUrl"
  const AppId: string := "appId"
  const HyprApiToken: string := "apiToken"

  // Fields of the HYPR API responses.
  const MachineId: string := "machineId"
  const RequestId: string := "requestId"
  const ResponseField: string := "response"

  // The login page and the query parameters of a redirect to it.
  const HyprLoginPage: string := "/authenticationendpoint/hyprlogin.jsp"
  const AuthenticatorNameParam: string := "AuthenticatorName"
  const StatusParam: string := "status"
  const MessageParam: string := "message"

  /** The status shown on the login page and stored in the context. */
  datatype AuthenticationStatus =
    | InvalidToken
    | InvalidRequest
    | Pending
    | Completed
    | Failed
    | Canceled
  {
    function Name(): string {
      match this
      case InvalidToken => "INVALID_TOKEN"
      case InvalidRequest => "INVALID_REQUEST"
      case Pending => "PENDING"
      case Completed => "COMPLETED"
      case Failed => "FAILED"
      case Canceled => "CANCELED"
    }

    function Message(): string {
      match this
      case InvalidToken =>
        "Authentication failed due to an internal server error.To fix this, contact your system administrator."
      case InvalidRequest => "Invalid username provided"
      case Pending =>
        "Authentication with HYPR is in progress. Awaiting for the user to authenticate via the registered smart device"
      case Completed => "Authentication successfully completed."
      case Failed => "Authentication failed. Try again."
      case Canceled => "Authentication with HYPR was cancelled by the user."
    }
  }

  /** The status with the given name, if any. */
  function StatusNamed(name: string): (r: Option<AuthenticationStatus>)
    ensures r.Some? ==> r.value.Name() == name
  {
    if name == "INVALID_TOKEN" then Some(InvalidToken)
    else if name == "INVALID_REQUEST" then Some(InvalidRequest)
    else if name == "PENDING" then Some(Pending)
    else if name == "COMPLETED" then Some(Completed)
    else if name == "FAILED" then Some(Failed)
    else if name == "CANCELED" then Some(Canceled)
    else None
  }

  /** Status names are distinct, so a status can be read back from its name. */
  lemma StatusNameRoundTrip(st: AuthenticationStatus)
    ensures StatusNamed(st.Name()) == Some(st)
  {
  }

  /** The error of a `HYPRAuthnFailedException`, with its code and message. */
  datatype ErrorMessage =
    | RedirectingLoginFailure
    | BuildingLoginUrlFailure
    | RetrievingRegDevicesFailure
    | ExtractingMachineIdFailure
    | SendingPushNotificationFailure
    | RetrievingHashAlgorithmFailure
    | ExtractingRequestIdFailure
    | BaseUrlInvalidFailure
    | AppIdInvalidFailure
    | ApiTokenInvalidFailure
  {
    function Code(): string {
      match this
      case RedirectingLoginFailure => "HYPR-65001"
      case BuildingLoginUrlFailure => "HYPR-65002"
      case RetrievingRegDevicesFailure => "HYPR-65003"
      case ExtractingMachineIdFailure => "HYPR-65004"
      case SendingPushNotificationFailure => "HYPR-65005"
      case RetrievingHashAlgorithmFailure => "HYPR-65006"
      case ExtractingRequestIdFailure => "HYPR-65007"
      case BaseUrlInvalidFailure => "HYPR-65008"
      case AppIdInvalidFailure => "HYPR-65009"
      case ApiTokenInvalidFailure => "HYPR-65010"
    }

    function Message(): string {
      match this
      case RedirectingLoginFailure => "Authentication failed when redirecting the user to the login page."
      case BuildingLoginUrlFailure => "Authentication when building the login URL."
      case RetrievingRegDevicesFailure => "Authentication failed retrieving the registered devices."
      case ExtractingMachineIdFailure => "Authentication failed when extracting the machine ID of the user."
      case SendingPushNotificationFailure =>
        "Authentication failed when sending a push notification to the registered device."
      case RetrievingHashAlgorithmFailure => "Authentication failed retrieving the hash algorithm."
      case ExtractingRequestIdFailure =>
        "Authentication failed when extracting the request ID provided by the HYPR server upon "
        + "initiating the send push notification request."
      case BaseUrlInvalidFailure => "Provided HYPR base URL is invalid."
      case AppIdInvalidFailure => "Provided HYPR app ID is invalid."
      case ApiTokenInvalidFailure => "Provided HYPR endpoint API token is either invalid or expired"
    }
  }

  /** Every error has its own code. */
  lemma {:induction false} ErrorCodesDistinct(a: ErrorMessage, b: ErrorMessage)
    ensures a.Code() == b.Code() ==> a == b
  {
    if a.Code() == b.Code() {
      assert a.Code()[8] == b.Code()[8] && a.Code()[9] == b.Code()[9];
    }
  }
}
