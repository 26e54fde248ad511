/**
 * The two Drive operations of drive.js whose own logic goes beyond a call to
 * `driveFetch`: the multipart upload built by `createJsonFile`, and the
 * first-or-null selection of `findFileByName`.
 */
module DriveOps {
  import opened Wrappers
  import opened Multipart
  import opened Session

  /** The content type of both parts (`MIME` in the source). */
  const JsonMime: string := "application/json; charset=UTF-8"
  const UploadUrl: string :=
    "https://www.googleapis.com/upload/drive/v3/files?uploadType=multipart&fields=id,name,webViewLink,modifiedTime,size"

  /** A file as the Drive list and create calls describe it. */
  datatype FileRef = FileRef(id: string, name: string, webViewLink: string, modifiedTime: string, size: string)

  /**
   * The parts of a new JSON file: its metadata, then its initial content.
   * Both arguments are the `JSON.stringify` texts, which the model treats as
   * opaque strings.
   */
  function JsonFileParts(metadataJson: string, initialJson: string): seq<Part> {
    [Part(JsonMime, metadataJson), Part(JsonMime, initialJson)]
  }

  /**
   * The request `createJsonFile` hands to `driveFetch`. `JSON.stringify`
   * escapes carriage returns, so its outputs satisfy the condition under which
   * the body reads back as exactly the two parts.
   */
  method CreateJsonFileRequest(metadataJson: string, initialJson: string)
    returns (url: string, options: RequestOptions)
    ensures url == UploadUrl
    ensures options.httpMethod == Some("POST")
    ensures options.headers == Some(map["Content-Type" := MultipartContentType])
    ensures options.body == Some(Body(JsonFileParts(metadataJson, initialJson)))
    ensures '\r' !in metadataJson && '\r' !in initialJson ==>
              Parse(options.body.value) == Some([Part(JsonMime, metadataJson), Part(JsonMime, initialJson)])
  {
    var body := BuildMultipart(JsonFileParts(metadataJson, initialJson));
    url := UploadUrl;
    options := RequestOptions(Some("POST"), Some(map["Content-Type" := body.contentType]), Some(body.data));
    if '\r' !in metadataJson && '\r' !in initialJson {
      assert '\r' !in JsonMime;
      ParseBody(JsonFileParts(metadataJson, initialJson));
    }
  }

  /**
   * `createJsonFile` up to the response: the upload goes out only with a
   * token, carrying the bearer header, the multipart content type and the
   * two-part body.
   */
  method CreateJsonFile(session: DriveSession, metadataJson: string, initialJson: string, network: Request -> Response)
    returns (sent: Option<Request>, r: Result<Response, DriveError>)
    ensures sent.None? <==> !HasToken(session.accessToken)
    ensures sent.None? ==> r == Failure(Unauthenticated(NoAccessTokenMessage))
    ensures sent.Some? ==> sent.value.url == UploadUrl && sent.value.options.httpMethod == Some("POST")
    ensures sent.Some? ==> sent.value.options.body == Some(Body(JsonFileParts(metadataJson, initialJson)))
    ensures sent.Some? ==> sent.value.options.headers.Some?
    ensures sent.Some? ==> sent.value.options.headers.value
                           == map["Authorization" := "Bearer " + session.accessToken.value, "Content-Type" := MultipartContentType]
    ensures sent.Some? ==> r == CheckResponse(network(sent.value))
  {
    var url, options := CreateJsonFileRequest(metadataJson, initialJson);
    sent, r := session.DriveFetch(url, options, network);
    if sent.Some? {
      var h := sent.value.options.headers.value;
      assert CallerHeaders(options) == map["Content-Type" := MultipartContentType];
      assert "Content-Type" != AuthorizationKey;
      assert h.Keys == {"Content-Type", AuthorizationKey};
    }
  }

  /**
   * The result of `findFileByName`: the first file of the listing, or `null`
   * when the listing is empty or has no `files` member.
   */
  function FirstFile(files: Option<seq<FileRef>>): (r: Option<FileRef>)
    ensures r.Some? <==> files.Some? && files.value != []
    ensures r.Some? ==> r.value == files.value[0]
  {
    match files
    case Some(fs) => if fs == [] then None else Some(fs[0])
    case None => None
  }
}
