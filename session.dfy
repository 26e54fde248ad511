/**
 * The authentication state of drive.js (`accessToken`, `tokenClient`,
 * `gotConsentOnce`) and the guard, header merge and status check of
 * `driveFetch`.
 *
 * The Google Identity Services popup is not modelled: `SignInRequest` is the
 * synchronous part of `onSignIn` (it returns the `prompt` passed to
 * `requestAccessToken`), and the two callbacks the library calls later are
 * the methods `OnToken` and `OnError`. The network is a parameter of
 * `DriveFetch`.
 */
module Session {
  import opened Wrappers

  const ClientId: string := "314049507451-oofo1sdelr7knosuu975ad6c27o8f1dk.apps.googleusercontent.com"
  const Scope: string := "https://www.googleapis.com/auth/drive.file"
  /** The message of the error `driveFetch` throws when there is no token. */
  const NoAccessTokenMessage: string := "No access token"
  const AuthorizationKey: string := "Authorization"

  /**
   * Whether a call into the sign-in library throws: `initTokenClient`
   * (for instance when the library has not loaded), `requestAccessToken`,
   * or neither.
   */
  datatype LibraryFault = NoFault | InitFails | RequestFails

  /** The configuration the token client is created with. */
  datatype TokenClientConfig = TokenClientConfig(clientId: string, scope: string)

  /** The part of a `fetch` options object the model tracks; `None` is an absent member. */
  datatype RequestOptions = RequestOptions(
    httpMethod: Option<string>,
    headers: Option<map<string, string>>,
    body: Option<string>)

  /** A request handed to `fetch`. */
  datatype Request = Request(url: string, options: RequestOptions)

  /** A response from `fetch`; `bodyText` is `None` when reading the body fails. */
  datatype Response = Response(status: int, statusText: string, bodyText: Option<string>)

  /** The errors `driveFetch` throws. */
  datatype DriveError =
    | Unauthenticated(message: string)
    | HttpError(status: int, statusText: string, detail: string)

  /** JavaScript truthiness of the token: neither `null`/`undefined` nor the empty string. */
  predicate HasToken(token: Option<string>) {
    token.Some? && token.value != ""
  }

  /** `options.headers || {}`: the caller's headers, or none. */
  function CallerHeaders(options: RequestOptions): map<string, string> {
    match options.headers
    case Some(h) => h
    case None => map[]
  }

  /**
   * The headers `driveFetch` sends: the bearer header first, then the caller's
   * headers spread over it, so that a caller's header of the same name wins.
   */
  function MergeHeaders(token: string, options: RequestOptions): (h: map<string, string>)
    ensures h.Keys == CallerHeaders(options).Keys + {AuthorizationKey}
    ensures AuthorizationKey !in CallerHeaders(options) ==> h[AuthorizationKey] == "Bearer " + token
    ensures forall k :: k in CallerHeaders(options) ==> h[k] == CallerHeaders(options)[k]
  {
    map[AuthorizationKey := "Bearer " + token] + CallerHeaders(options)
  }

  /** `res.ok` is true exactly for the statuses 200 to 299. */
  predicate IsOk(res: Response) {
    200 <= res.status <= 299
  }

  /**
   * The status check of `driveFetch`: a response that is not ok becomes an
   * error with its status, status text and body text, or the status text when
   * the body cannot be read.
   */
  function CheckResponse(res: Response): (r: Result<Response, DriveError>)
    ensures r.Success? <==> IsOk(res)
    ensures r.Success? ==> r.value == res
    ensures r.Failure? ==> r.error.HttpError? && r.error.status == res.status && r.error.statusText == res.statusText
    ensures r.Failure? && res.bodyText.Some? ==> r.error.detail == res.bodyText.value
    ensures r.Failure? && res.bodyText.None? ==> r.error.detail == res.statusText
  {
    if IsOk(res) then Success(res)
    else
      var detail := match res.bodyText
        case Some(text) => text
        case None => res.statusText;
      Failure(HttpError(res.status, res.statusText, detail))
  }

  /** The module-level authentication state of drive.js, as one object. */
  class DriveSession {
    var accessToken: Option<string>
    var tokenClient: Option<TokenClientConfig>
    var gotConsentOnce: bool

    /** The state when the script is loaded. */
    constructor ()
      ensures accessToken == None && tokenClient == None && !gotConsentOnce
    {
      accessToken := None;
      tokenClient := None;
      gotConsentOnce := false;
    }

    /**
     * `onSignIn` up to the popup: creates a token client, asks for consent
     * only if no sign-in was ever started, and records that one was, whatever
     * the popup's outcome. `fault` says whether one of the two library calls
     * throws; then `onSignIn` rejects (`None`) before the flag is set, and if
     * the client could not be created the old one stays. The token is
     * untouched until a callback runs.
     */
    method SignInRequest(fault: LibraryFault) returns (prompt: Option<string>)
      modifies this
      ensures fault == NoFault ==> prompt == Some(if old(gotConsentOnce) then "" else "consent")
      ensures fault == NoFault ==> gotConsentOnce
      ensures fault != NoFault ==> prompt == None && gotConsentOnce == old(gotConsentOnce)
      ensures tokenClient == if fault == InitFails then old(tokenClient) else Some(TokenClientConfig(ClientId, Scope))
      ensures accessToken == old(accessToken)
    {
      if fault == InitFails {
        return None;
      }
      tokenClient := Some(TokenClientConfig(ClientId, Scope));
      var requested := if gotConsentOnce then "" else "consent";
      if fault == RequestFails {
        return None;
      }
      prompt := Some(requested);
      gotConsentOnce := true;
    }

    /** The success callback: caches the returned token (which may be absent). */
    method OnToken(token: Option<string>)
      modifies this`accessToken
      ensures accessToken == token
    {
      accessToken := token;
    }

    /** The error callback: clears the token. */
    method OnError()
      modifies this`accessToken
      ensures accessToken == None
    {
      accessToken := None;
    }

    /**
     * The guard and header merge of `driveFetch`: no request without a token;
     * otherwise the caller's options with the merged headers.
     */
    method PrepareRequest(url: string, options: RequestOptions) returns (r: Result<Request, DriveError>)
      ensures r.Failure? <==> !HasToken(accessToken)
      ensures r.Failure? ==> r.error == Unauthenticated(NoAccessTokenMessage)
      ensures r.Success? ==> r.value.url == url
      ensures r.Success? ==> r.value.options.httpMethod == options.httpMethod && r.value.options.body == options.body
      ensures r.Success? ==> r.value.options.headers.Some?
      ensures r.Success? ==> AuthorizationKey in r.value.options.headers.value
      ensures r.Success? && AuthorizationKey !in CallerHeaders(options) ==>
                r.value.options.headers.value[AuthorizationKey] == "Bearer " + accessToken.value
      ensures r.Success? ==> forall k :: k in CallerHeaders(options) ==>
                k in r.value.options.headers.value && r.value.options.headers.value[k] == CallerHeaders(options)[k]
      ensures r.Success? ==> r.value.options.headers.value.Keys == CallerHeaders(options).Keys + {AuthorizationKey}
    {
      if !HasToken(accessToken) {
        return Failure(Unauthenticated(NoAccessTokenMessage));
      }
      var headers := MergeHeaders(accessToken.value, options);
      r := Success(Request(url, options.(headers := Some(headers))));
    }

    /**
     * `driveFetch` with the network as a parameter: `sent` is the request
     * handed to the network, if any. Without a token nothing is sent.
     */
    method DriveFetch(url: string, options: RequestOptions, network: Request -> Response)
      returns (sent: Option<Request>, r: Result<Response, DriveError>)
      ensures sent.None? <==> !HasToken(accessToken)
      ensures sent.None? ==> r == Failure(Unauthenticated(NoAccessTokenMessage))
      ensures sent.Some? ==> sent.value.url == url && sent.value.options.headers.Some?
      ensures sent.Some? ==> sent.value.options.headers.value.Keys == CallerHeaders(options).Keys + {AuthorizationKey}
      ensures sent.Some? ==> sent.value.options.httpMethod == options.httpMethod && sent.value.options.body == options.body
      ensures sent.Some? ==> forall k :: k in CallerHeaders(options) ==>
                k in sent.value.options.headers.value && sent.value.options.headers.value[k] == CallerHeaders(options)[k]
      ensures sent.Some? && AuthorizationKey !in CallerHeaders(options) ==>
                sent.value.options.headers.value[AuthorizationKey] == "Bearer " + accessToken.value
      ensures sent.Some? ==> r == CheckResponse(network(sent.value))
    {
      var prepared := PrepareRequest(url, options);
      match prepared
      case Failure(e) =>
        sent := None;
        r := Failure(e);
      case Success(request) =>
        sent := Some(request);
        r := CheckResponse(network(request));
    }
  }
}
