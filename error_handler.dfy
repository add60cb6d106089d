/** The Express error middleware: a priority chain from the error that
    reached it to a status and a failure envelope. */
module ErrorHandler {
  import opened Http

  const LimitFileSizeCode: string := "LIMIT_FILE_SIZE"
  const FileTooLargeMessage: string := "File too large. Maximum size allowed is 25MB."
  const UploadErrorPrefix: string := "File upload error: "
  /** The message of the file filter's Error, compared verbatim. */
  const FilterRejectionMessage: string := "Only audio files are allowed!"
  const InvalidTypeMessage: string := "Invalid file type. Please upload an audio file."
  const InternalErrorMessage: string := "Internal server error. Please try again later."

  /** The classification the middleware is written to perform: multer's
      errors first (the size code, then any other code), then the filter's
      message, then everything else. */
  function HandleError(err: ServerError): (reply: HttpReply)
    ensures reply.body.Failed? && reply.body.error != ""
    ensures reply.status in {400, 413, 500}
    ensures reply.status == 413 <==> err.MulterError? && err.code == LimitFileSizeCode
    ensures reply.status == 413 ==> reply.body.error == FileTooLargeMessage
    ensures err.MulterError? && err.code != LimitFileSizeCode
      ==> reply == HttpReply(400, Failed(UploadErrorPrefix + err.message))
    ensures err.PlainError? ==> (reply.status == 400 <==> err.message == FilterRejectionMessage)
    ensures err.PlainError? && err.message == FilterRejectionMessage
      ==> reply.body.error == InvalidTypeMessage
    ensures reply.status == 500 <==> err.PlainError? && err.message != FilterRejectionMessage
    ensures reply.status == 500 ==> reply.body.error == InternalErrorMessage
  {
    match err
    case MulterError(code, message) =>
      if code == LimitFileSizeCode then HttpReply(413, Failed(FileTooLargeMessage))
      else HttpReply(400, Failed(UploadErrorPrefix + message))
    case PlainError(message) =>
      if message == FilterRejectionMessage then HttpReply(400, Failed(InvalidTypeMessage))
      else HttpReply(500, Failed(InternalErrorMessage))
  }

  /** The MulterError test comes before the message test: a multer error
      whose message happens to be the filter's is still reported as an upload
      error, not as a wrong file type. */
  lemma MulterTestPrecedesMessageTest(code: string)
    requires code != LimitFileSizeCode
    ensures HandleError(MulterError(code, FilterRejectionMessage)).body.error
      == UploadErrorPrefix + FilterRejectionMessage
    ensures HandleError(MulterError(code, FilterRejectionMessage)).body.error != InvalidTypeMessage
  {
    var e := UploadErrorPrefix + FilterRejectionMessage;
    assert |e| == 48 && |InvalidTypeMessage| == 47;
  }

  /** Every reply of the middleware has the shape the client relies on. */
  lemma HandledRepliesWellFormed(err: ServerError)
    ensures WellFormedReply(HandleError(err))
  {
  }

  /** What reaching the middleware does as the file is written. Its first
      test names `multer`, which that file never imports, so evaluating the
      test raises a ReferenceError before any reply is chosen. */
  datatype MiddlewareOutcome = Replied(reply: HttpReply) | Threw(name: string, identifier: string)

  function HandleErrorAsWritten(err: ServerError): (o: MiddlewareOutcome)
    ensures o.Threw? && o.name == "ReferenceError"
  {
    Threw("ReferenceError", "multer")
  }

  /** The missing import defeats the classification for every error, the
      filter's rejection included: none of them gets its intended reply. */
  lemma MissingImportDefeatsClassification(err: ServerError)
    ensures HandleErrorAsWritten(err) != Replied(HandleError(err))
    ensures HandleErrorAsWritten(PlainError(FilterRejectionMessage))
      != Replied(HttpReply(400, Failed(InvalidTypeMessage)))
  {
  }
}
