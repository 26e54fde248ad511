# drive.js: multipart upload body and sign-in state, in Dafny

drive.js is a browser layer over Google Identity Services and the Drive v3
REST API. It caches a bearer token and makes a few REST calls with it. This
project models the two parts of the file that have their own logic:

- **The `multipart/related` upload body** (RFC 2387) that `buildMultipart`
  builds for `createJsonFile`. It uses the delimiter and close-delimiter lines
  of section 5.1.1 of RFC 2046 and the fixed boundary
  `-------314159265358979323846`. `Multipart.Body` specifies the body as a
  function of the part list. `Multipart.BuildMultipart` is the source's
  string-appending loop, proved equal to `Body`. `Multipart.Parse` is an
  independent reader of the format. It is proved to undo `Body` for every
  part list without carriage returns, and to accept only strings that are
  bodies of what it returns.
- **The authentication state and the fetch guard.** The class
  `Session.DriveSession` holds the module-level variables `accessToken`,
  `tokenClient` and `gotConsentOnce`. Its methods cover:
  - `onSignIn` up to the popup, which picks the consent prompt;
  - the success and error callbacks;
  - `driveFetch`, which refuses to build a request without a token and
    otherwise merges the `Authorization: Bearer` header under the caller's
    headers. The network is a parameter of the method.

Modules: `Wrappers` (Option and Result), `Multipart` (multipart.dfy),
`Session` (session.dfy) and `DriveOps` (drive_ops.dfy), which holds the
request of `createJsonFile` and the result selection of `findFileByName`.

Modelling choices:

- JavaScript `null`/`undefined` become `None`.
- A thrown `Error` becomes `Failure`.
- The `JSON.stringify` texts are opaque string parameters.
- Header objects are `map<string, string>`. The caller's headers are applied
  after the bearer header, so a caller header with the same name wins, as
  with object spread.

Two facts about the code that shape the model:

- `onSignIn` creates a new token client on every call (drive.js:15), so
  `SignInRequest` sets `tokenClient` each time it gets that far.
- The only token test is the truthiness check in `driveFetch`
  (drive.js:38-39). `Session.HasToken` models it: a null, undefined or empty
  token counts as no token.

## Model

| member | source | states |
|---|---|---|
| Multipart.BuildMultipart | drive.js:59-70 | the body is `Body(parts)`: for each part in input order, the delimiter line, the `Content-Type` line, an empty line, the data and CRLF, then the close delimiter; the content type is `multipart/related; boundary=-------314159265358979323846` whatever the parts |
| Multipart.EmptyBody | drive.js:62-68 | with no parts the body is exactly `--` + boundary + `--` + CRLF |
| Multipart.ParseBody | drive.js:62-68 | round trip: reading the body of parts whose type and data hold no carriage return gives back exactly those parts, in order |
| Multipart.BodyOfParse | drive.js:62-68 | every string the reader accepts is exactly the body of the parts it returns |
| Multipart.BodyInjective | drive.js:62-68 | two lists of such parts with the same body are equal, so the body loses nothing |
| Multipart.EncapsulationsAppend | drive.js:63-67 | the encapsulations of `a + b` are those of `a` followed by those of `b`, which is what appending one part at a time relies on |
| Session.MergeHeaders | drive.js:42 | the merged headers have the caller's keys plus `Authorization`; every caller header keeps its value; `Authorization` is `Bearer <token>` unless the caller supplied it |
| Session.CheckResponse | drive.js:44-48 | a response succeeds exactly when its status is 200 to 299 and is then returned unchanged; otherwise the error carries the status, the status text, and the body text or, if the body cannot be read, the status text |
| Session.DriveSession.constructor | drive.js:8-10 | at load time there is no token and no token client, and consent has not been requested |
| Session.DriveSession.SignInRequest | drive.js:13-35 | when both library calls return, the prompt is `consent` if no sign-in got that far before and empty otherwise, and afterwards `gotConsentOnce` holds whatever the popup's outcome; when either call throws, `onSignIn` rejects and `gotConsentOnce` is unchanged; the token client is the one configured with the client id and the `drive.file` scope unless `initTokenClient` threw, when it is the old one; the token is unchanged |
| Session.DriveSession.OnToken | drive.js:18-19 | the success callback sets the token to the one returned |
| Session.DriveSession.OnError | drive.js:26-27 | the error callback clears the token |
| Session.DriveSession.PrepareRequest | drive.js:38-43 | fails with `No access token` exactly when the token is null, undefined or empty; otherwise keeps the URL, method and body, and the headers are the caller's with `Authorization: Bearer <token>` added under them |
| Session.DriveSession.DriveFetch | drive.js:38-49 | without a token nothing is sent and the call fails with `No access token`; otherwise the request sent has the caller's URL, method, body and headers plus the bearer header, and the result is the status check of the response: the response itself when ok, else an HTTP error with its status, status text and body text |
| DriveOps.CreateJsonFileRequest | drive.js:72-81 | a POST to the multipart upload URL with the multipart content type, whose body is the body of exactly two `application/json; charset=UTF-8` parts, the metadata first and the initial content second, and which reads back as those two parts |
| DriveOps.CreateJsonFile | drive.js:72-83 | the upload is sent only with a token; its headers are exactly the bearer header and the multipart content type; its body is the two-part body; the result is the status check of the response |
| DriveOps.FirstFile | drive.js:56 | the result is null exactly when `files` is absent or empty, and otherwise the first file, unchanged |

## Left out

- Network I/O is not modelled. This covers `fetch` itself, `res.json()` and `res.text()` (drive.js:40, 45, 55, 82, 87, 95). The network is a function parameter of `DriveFetch`. A response is its status, status text and body text, with `None` for a body that cannot be read. The network always returns a response: a `fetch` that rejects (drive.js:40), on which `driveFetch` rejects with the fetch error, is not represented.
- Session.CheckResponse: returns the status, status text and detail as separate fields. It does not build the thrown message string `<status> <statusText>: <detail>`, because that needs JavaScript's number-to-string conversion.
- The Google Identity Services library is not modelled: `initTokenClient`, the popup and the OAuth 2.0 token flow of section 4.2 of RFC 6749 are foreign code. `SignInRequest` returns the prompt it passes to `requestAccessToken`; a throwing library call is represented only by the `fault` parameter, not by the error it throws. The library's later callbacks are the separate methods `OnToken` and `OnError`.
- The `window.afterSignIn` and `window.afterSignInError` hooks (drive.js:21-24, 28-30) and the `window.Drive` export (drive.js:99-104) are UI wiring and are not modelled.
- Overlapping `onSignIn` calls and other async interleavings are not modelled. The methods model one sequential run.
- `JSON.stringify` (drive.js:75-76) is not modelled: its outputs are opaque string parameters. The metadata text stands for `{name, mimeType: "application/json"}`, and the initial-content text defaults to the text of `[]`. The round trip assumes these texts have no raw carriage return, which `JSON.stringify` never emits.
- The query string of `findFileByName` (drive.js:52-54) is not modelled, because it is built by `encodeURIComponent`. Only the selection of the result (drive.js:56) is modelled.
- `getFileContent` and `saveFileContent` (drive.js:85-96) are not modelled. They are single `driveFetch` calls with a URL built from the file id and pass their text through unchanged. What they share with the other operations is modelled by `DriveFetch`.
