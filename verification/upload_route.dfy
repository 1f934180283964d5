/** The image upload API route, src/pages/api/upload-to-ipfs.ts, as an
    ordered decision from a request to a status and JSON body. Multipart
    parsing, the temporary-file read and the storage service call are
    given as outcomes. */
module UploadRoute {
  import opened Common

  /** `1 * 1024 * 1024` bytes. */
  const MaxSize: int := 1 * 1024 * 1024

  const IpfsGateway := "https://ipfs-chainsafe.dev/ipfs/"

  /** A parsed file; formidable may report no mimetype. */
  datatype UploadedFile = UploadedFile(mimetype: Option<string>, size: nat)

  /** The `file` field of the parsed form: absent, one file, or an array. */
  datatype FileField = NoFile | One(file: UploadedFile) | Several(files: seq<UploadedFile>)

  /** `parsed` is None when `form.parse` threw. */
  datatype Request = Request(verb: string, parsed: Option<FileField>)

  datatype Env = Env(apiKey: Option<string>, bucketId: Option<string>)

  /** How the rest of the work ended: the file read failing, the upload
      answering with its `files_details` cids, or the upload failing with an
      axios error (with the upstream status and body, when there was a
      response) or another exception. */
  datatype Upstream =
    | ReadFailed
    | Uploaded(filesDetails: Option<seq<string>>)
    | AxiosError(status: Option<int>, data: Option<string>)
    | OtherError

  datatype Body = Message(text: string) | ErrorBody(text: string) | UrlBody(url: string)

  datatype Reply = Reply(status: int, body: Body)

  /** `Array.isArray(files.file) ? files.file[0] : files.file`. */
  function FirstFile(field: FileField): (r: Option<UploadedFile>)
    ensures field.One? ==> r == Some(field.file)
    ensures field.Several? ==> (r.Some? <==> |field.files| > 0) && (r.Some? ==> r.value == field.files[0])
    ensures field.NoFile? ==> r.None?
  {
    match field
    case NoFile => None
    case One(f) => Some(f)
    case Several(fs) => if |fs| > 0 then Some(fs[0]) else None
  }

  /** The file passes validation: a PNG of at most 1 MiB. */
  predicate ValidFile(f: UploadedFile)
  {
    f.mimetype == Some("image/png") && f.size <= MaxSize
  }

  predicate Configured(env: Env)
  {
    Truthy(env.apiKey) && Truthy(env.bucketId)
  }

  const FailedUpload := "Failed to upload image to IPFS"

  const ConfigurationError := Reply(500, ErrorBody("Server configuration error"))

  /** `handler(req, res)`. */
  function Handle(req: Request, env: Env, upstream: Upstream): (reply: Reply)
    ensures req.verb != "POST" <==> reply.body.Message?
    ensures req.verb != "POST" ==> reply == Reply(405, Message("Method not allowed"))
    ensures req.verb == "POST" && req.parsed.Some? && FirstFile(req.parsed.value).None? ==>
      reply == Reply(400, ErrorBody("No file uploaded"))
    ensures req.verb == "POST" && req.parsed.Some? && FirstFile(req.parsed.value).Some?
            && FirstFile(req.parsed.value).value.mimetype != Some("image/png") ==>
      reply == Reply(400, ErrorBody("Only PNG files are allowed"))
    ensures req.verb == "POST" && req.parsed.Some? && FirstFile(req.parsed.value).Some?
            && FirstFile(req.parsed.value).value.mimetype == Some("image/png")
            && FirstFile(req.parsed.value).value.size > MaxSize ==>
      reply == Reply(400, ErrorBody("File size must not exceed 1MB"))
    ensures reply.body.UrlBody? <==>
      && req.verb == "POST" && req.parsed.Some? && FirstFile(req.parsed.value).Some?
      && ValidFile(FirstFile(req.parsed.value).value) && Configured(env)
      && upstream.Uploaded? && upstream.filesDetails.Some? && |upstream.filesDetails.value| > 0
    ensures reply.body.UrlBody? ==> reply == Reply(200, UrlBody(IpfsGateway + upstream.filesDetails.value[0]))
    ensures req.verb == "POST" && req.parsed.None? ==> reply == Reply(500, ErrorBody(FailedUpload))
    ensures req.verb == "POST" && req.parsed.Some? && FirstFile(req.parsed.value).Some?
            && ValidFile(FirstFile(req.parsed.value).value) ==>
      && (upstream == ReadFailed || (Configured(env) && upstream == OtherError) ==>
            reply == Reply(500, ErrorBody(FailedUpload)))
      && (upstream != ReadFailed && !Configured(env) ==> reply == ConfigurationError)
      && (Configured(env) && upstream.AxiosError? ==>
            reply == Reply(if upstream.status.Some? && upstream.status.value != 0 then upstream.status.value else 500,
                           ErrorBody(OrElse(upstream.data, FailedUpload))))
  {
    if req.verb != "POST" then Reply(405, Message("Method not allowed"))
    else match req.parsed
      case None => Reply(500, ErrorBody(FailedUpload))
      case Some(field) =>
        match FirstFile(field)
        case None => Reply(400, ErrorBody("No file uploaded"))
        case Some(file) =>
          if file.mimetype != Some("image/png") then Reply(400, ErrorBody("Only PNG files are allowed"))
          else if file.size > MaxSize then Reply(400, ErrorBody("File size must not exceed 1MB"))
          else AfterValidation(env, upstream)
  }

  /** The part after validation: a missing key or bucket is a server error
      answered before the upstream is contacted; otherwise the upstream
      outcome decides. */
  function AfterValidation(env: Env, upstream: Upstream): (reply: Reply)
    ensures !reply.body.Message?
    ensures upstream != ReadFailed && !Configured(env) ==> reply == ConfigurationError
    ensures upstream == ReadFailed || (Configured(env) && upstream == OtherError) ==>
      reply == Reply(500, ErrorBody(FailedUpload))
    ensures reply.body.UrlBody? <==>
      Configured(env) && upstream.Uploaded? && upstream.filesDetails.Some? && |upstream.filesDetails.value| > 0
    ensures reply.body.UrlBody? ==> reply == Reply(200, UrlBody(IpfsGateway + upstream.filesDetails.value[0]))
    ensures Configured(env) && upstream.AxiosError? ==>
      reply.status == (if upstream.status.Some? && upstream.status.value != 0 then upstream.status.value else 500)
      && reply.body == ErrorBody(OrElse(upstream.data, FailedUpload))
    ensures Configured(env) && upstream.Uploaded? && !(upstream.filesDetails.Some? && |upstream.filesDetails.value| > 0) ==>
      reply == Reply(500, ErrorBody("No CID found in the response"))
  {
    match upstream
    case ReadFailed => Reply(500, ErrorBody(FailedUpload))
    case Uploaded(details) =>
      if !Configured(env) then ConfigurationError
      else if details.Some? && |details.value| > 0 then Reply(200, UrlBody(IpfsGateway + details.value[0]))
      else Reply(500, ErrorBody("No CID found in the response"))
    case AxiosError(status, data) =>
      if !Configured(env) then ConfigurationError
      else Reply(if status.Some? && status.value != 0 then status.value else 500, ErrorBody(OrElse(data, FailedUpload)))
    case OtherError =>
      if !Configured(env) then ConfigurationError
      else Reply(500, ErrorBody(FailedUpload))
  }

  /** Only the first of several files is looked at: whatever follows it
      cannot change the reply. */
  lemma OnlyFirstFileCounts(verb: string, f: UploadedFile, rest1: seq<UploadedFile>, rest2: seq<UploadedFile>,
                            env: Env, upstream: Upstream)
    ensures Handle(Request(verb, Some(Several([f] + rest1))), env, upstream)
         == Handle(Request(verb, Some(Several([f] + rest2))), env, upstream)
         == Handle(Request(verb, Some(One(f))), env, upstream)
  {
  }

  /** The checks run in order, so an invalid request is refused the same way
      whatever the server's configuration or the storage service would have
      done, and a 500 for configuration is only given to a valid file. */
  lemma ValidationPrecedesConfiguration(req: Request, env1: Env, env2: Env, up1: Upstream, up2: Upstream)
    requires req.verb == "POST" && req.parsed.Some?
    requires FirstFile(req.parsed.value).None? || !ValidFile(FirstFile(req.parsed.value).value)
    ensures Handle(req, env1, up1) == Handle(req, env2, up2)
    ensures Handle(req, env1, up1).status == 400
  {
  }
}
