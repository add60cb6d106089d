/** The server's request and response values: the file multer attaches to
    the request, the errors that reach the error-handling middleware, the
    JSON envelope every response carries, and the value the client's
    response.json() reads back from that envelope. */
module Http {
  import opened Wrappers
  import opened Json

  type Byte = bv8

  /** multer's `req.file` for one in-memory upload. */
  datatype UploadedFile = UploadedFile(originalname: string, mimetype: string, size: nat, buffer: seq<Byte>)

  /** An error passed to the Express error middleware. A MulterError carries
      multer's error code; everything else is a plain Error. */
  datatype ServerError = MulterError(code: string, message: string) | PlainError(message: string)

  datatype Metadata = Metadata(fileName: string, fileSize: nat, mimeType: string, processedAt: string)

  /** The response envelope: `{success: true, data, metadata}` or
      `{success: false, error}`. */
  datatype Envelope = Succeeded(data: JsonValue, metadata: Metadata) | Failed(error: string)

  /** `res.status(status).json(body)`; `res.json(body)` alone uses 200. */
  datatype HttpReply = HttpReply(status: nat, body: Envelope)

  function MetadataJson(m: Metadata): JsonValue {
    JObj(map[
      "fileName" := JStr(m.fileName),
      "fileSize" := JNum(m.fileSize as real),
      "mimeType" := JStr(m.mimeType),
      "processedAt" := JStr(m.processedAt)])
  }

  /** The JSON value a client reads back from the serialised envelope. */
  function EnvelopeJson(e: Envelope): (j: JsonValue)
    ensures ReadProperty(j, "success") == Found(JBool(e.Succeeded?))
    ensures e.Succeeded? ==> ReadProperty(j, "data") == Found(e.data)
    ensures e.Failed? ==> ReadProperty(j, "error") == Found(JStr(e.error))
  {
    match e
    case Succeeded(data, metadata) =>
      JObj(map["success" := JBool(true), "data" := data, "metadata" := MetadataJson(metadata)])
    case Failed(error) =>
      JObj(map["success" := JBool(false), "error" := JStr(error)])
  }

  function StringMember(j: JsonValue, key: string): Option<string> {
    if j.JObj? && key in j.members && j.members[key].JStr? then Some(j.members[key].s) else None
  }

  function NatMember(j: JsonValue, key: string): Option<nat> {
    if j.JObj? && key in j.members && j.members[key].JNum? && j.members[key].n == j.members[key].n.Floor as real
       && j.members[key].n >= 0.0
    then Some(j.members[key].n.Floor)
    else None
  }

  function MetadataFromJson(j: JsonValue): Option<Metadata> {
    match (StringMember(j, "fileName"), NatMember(j, "fileSize"), StringMember(j, "mimeType"), StringMember(j, "processedAt"))
    case (Some(name), Some(size), Some(mime), Some(at)) => Some(Metadata(name, size, mime, at))
    case _ => None
  }

  /** What a client extracts from a received envelope: `success`, then
      `data` and `metadata`, or `error`. */
  function EnvelopeFromJson(j: JsonValue): Option<Envelope> {
    if !(j.JObj? && "success" in j.members && j.members["success"].JBool?) then None
    else if j.members["success"].b then
      if "data" in j.members && "metadata" in j.members then
        match MetadataFromJson(j.members["metadata"])
        case Some(m) => Some(Succeeded(j.members["data"], m))
        case None => None
      else None
    else
      match StringMember(j, "error")
      case Some(msg) => Some(Failed(msg))
      case None => None
  }

  /** Building the envelope and reading it back gives the same result and
      metadata, field for field. */
  lemma EnvelopeRoundTrip(e: Envelope)
    ensures EnvelopeFromJson(EnvelopeJson(e)) == Some(e)
  {
    if e.Succeeded? {
      var m := e.metadata;
      assert (m.fileSize as real).Floor == m.fileSize;
      assert MetadataFromJson(MetadataJson(m)) == Some(m);
    }
  }

  /** The shape every reply of the server has: 200 exactly when the body
      reports success, and a failure carries a non-empty message and one of
      the statuses 400, 413 or 500. */
  predicate WellFormedReply(reply: HttpReply) {
    && (reply.status == 200 <==> reply.body.Succeeded?)
    && (reply.body.Failed? ==> reply.body.error != "" && reply.status in {400, 413, 500})
  }
}
