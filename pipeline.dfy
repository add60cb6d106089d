/** How the pieces fit together: the client's guards mirror the server's
    upload gate, the filter's error is the one the corrected error middleware
    (`ErrorHandler.HandleError`) looks for, and every reply the controller
    and the corrected middleware build is read by the client as the server
    meant it. As written, the middleware throws a ReferenceError instead of
    replying (`ErrorHandler.HandleErrorAsWritten`). */
module Pipeline {
  import opened Wrappers
  import opened Json
  import opened Http
  import MulterConfig
  import ErrorHandler
  import AudioController
  import AudioService

  /** Client and server use the same media-type prefix and the same limit. */
  lemma ClientAndServerAgreeOnLimits()
    ensures AudioService.AudioPrefix == MulterConfig.AudioPrefix
    ensures AudioService.MaxSize == MulterConfig.FileSizeLimit == 26214400
  {
  }

  /** The corrected error middleware recognises exactly the filter's message,
      so a file the filter refuses is answered with 400 and the wrong-type
      text. As written, the ReferenceError leaves the reply to Express. */
  lemma FilterRejectionIsRecognised<Req>(req: Req, file: UploadedFile)
    requires !MulterConfig.FileFilter(req, file).accept
    ensures ErrorHandler.FilterRejectionMessage == MulterConfig.OnlyAudioMessage
    ensures ErrorHandler.HandleError(MulterConfig.FileFilter(req, file).error.value)
      == HttpReply(400, Failed(ErrorHandler.InvalidTypeMessage))
  {
  }

  /** The client's guards accept a file exactly when the server's gate would,
      and refuse it for the same reason: the wrong type where the corrected
      middleware answers 400, the size where it answers 413. As written, the
      ReferenceError leaves those replies to Express. */
  lemma ClientGateMirrorsServerGate(f: AudioService.ClientFile, u: UploadedFile)
    requires u.mimetype == f.fileType && u.size == f.size
    ensures AudioService.CheckFile(Some(f)).Success? <==> MulterConfig.Upload(u).Success?
    ensures AudioService.CheckFile(Some(f)) == Failure(AudioService.Thrown(AudioService.InvalidTypeMessage))
      <==> MulterConfig.Upload(u).Failure? && ErrorHandler.HandleError(MulterConfig.Upload(u).error).status == 400
    ensures AudioService.CheckFile(Some(f)) == Failure(AudioService.Thrown(AudioService.TooLargeMessage))
      <==> MulterConfig.Upload(u).Failure? && ErrorHandler.HandleError(MulterConfig.Upload(u).error).status == 413
  {
    var tooLarge := AudioService.Thrown(AudioService.TooLargeMessage);
    var badType := AudioService.Thrown(AudioService.InvalidTypeMessage);
    assert |tooLarge.message| != |badType.message|;
  }

  /** The response the client receives for a well-formed reply: on 200 the
      envelope itself, which reads back as the reply's body; otherwise a plain
      Error carrying the reply's message. */
  lemma ServerReplyReachesClient(reply: HttpReply, jsString: JsonValue -> string)
    requires WellFormedReply(reply)
    ensures var r := AudioService.InterpretResponse(
              AudioService.FetchResponse(reply.status, Success(EnvelopeJson(reply.body))), jsString);
      && (reply.body.Succeeded? ==> r.Success? && EnvelopeFromJson(r.value) == Some(reply.body))
      && (reply.body.Failed? ==> r == Failure(AudioService.Thrown(reply.body.error)))
  {
    EnvelopeRoundTrip(reply.body);
  }

  /** Every error reply of the middleware reaches the client as its message. */
  lemma HandledErrorReachesClient(err: ServerError, jsString: JsonValue -> string)
    ensures var reply := ErrorHandler.HandleError(err);
      AudioService.InterpretResponse(
        AudioService.FetchResponse(reply.status, Success(EnvelopeJson(reply.body))), jsString)
      == Failure(AudioService.Thrown(reply.body.error))
  {
    ErrorHandler.HandledRepliesWellFormed(err);
    ServerReplyReachesClient(ErrorHandler.HandleError(err), jsString);
  }

  /** End to end: whatever text the model returns, the client receives a
      result whose data is the reconciled object, with all mandatory keys. */
  lemma ClientReceivesReconciledResult(parse: string -> Option<JsonValue>, file: UploadedFile,
                                       generate: AudioController.ModelRequest -> AudioController.ModelOutcome,
                                       processedAt: string, jsString: JsonValue -> string)
    requires generate(AudioController.RequestFor(file)).ModelText?
    ensures var reply := AudioController.AnalyzeAudio(parse, Some(file), generate, processedAt).reply;
      var r := AudioService.InterpretResponse(
        AudioService.FetchResponse(reply.status, Success(EnvelopeJson(reply.body))), jsString);
      && r.Success?
      && ReadProperty(r.value, "data")
         == Found(AudioController.Reconcile(parse, generate(AudioController.RequestFor(file)).text))
      && AudioController.HasRequiredFields(ReadProperty(r.value, "data").value)
  {
    var reply := AudioController.AnalyzeAudio(parse, Some(file), generate, processedAt).reply;
    AudioController.AnalyzeAudioRepliesWellFormed(parse, Some(file), generate, processedAt);
    ServerReplyReachesClient(reply, jsString);
  }
}
