/** The browser-side client: the checks it makes on a file before uploading
    it, how it turns the server's HTTP response into a result or an error,
    how it rewrites connection failures, and the health probe. Network calls
    are a parameter `fetch` that returns either a response or the error the
    call was rejected with. */
module AudioService {
  import opened Wrappers
  import opened JsStrings
  import opened Json

  /** The base URL the service's constructor stores; it never changes. */
  const BaseUrl: string := "https://aieeration.onrender.com/api/audio"
  const AnalyzeUrl: string := BaseUrl + "/analyze"
  const HealthUrl: string := BaseUrl + "/health"

  const AudioPrefix: string := "audio/"
  const MaxSize: nat := 25 * 1024 * 1024

  const NoFileMessage: string := "No audio file provided"
  const InvalidTypeMessage: string := "Please select a valid audio file"
  const TooLargeMessage: string := "File size exceeds 25MB limit. Please choose a smaller file."
  const AnalysisFailedMessage: string := "Analysis failed"
  const ServerErrorPrefix: string := "Server error: "
  const ConnectionMessage: string :=
    "Unable to connect to the server. Please ensure the backend is running."

  /** The browser File the caller passes in: name, size in bytes, media type. */
  datatype ClientFile = ClientFile(name: string, size: nat, fileType: string)

  /** A thrown JavaScript error: its constructor name and its message. */
  datatype JsError = JsError(name: string, message: string)

  /** A fetch Response: its status and what `response.json()` settles to. */
  datatype FetchResponse = FetchResponse(status: nat, json: Result<JsonValue, JsError>)

  /** `response.ok`. */
  predicate Ok(response: FetchResponse) {
    200 <= response.status <= 299
  }

  datatype FetchRequest = PostAnalyze(url: string, file: ClientFile) | GetHealth(url: string)

  /** What awaiting fetch gives: a response, or the error it rejects with. */
  datatype FetchOutcome = Responded(response: FetchResponse) | Rejected(error: JsError)

  function Thrown(message: string): JsError {
    JsError("Error", message)
  }

  /** The TypeError a property read on null raises. The message is V8's
      wording, which other engines phrase differently; only the name
      TypeError matters to the catch block. */
  function NullReadError(key: string): JsError {
    JsError("TypeError", "Cannot read properties of null (reading '" + key + "')")
  }

  /** The message `new Error(v)` gets: a string as it is, any other value as
      String renders it (a parameter, since that rendering includes number
      formatting). */
  function MessageOf(v: JsonValue, jsString: JsonValue -> string): string {
    if v.JStr? then v.s else jsString(v)
  }

  /** The three guards, in source order: a file must be given, its type must
      start with "audio/", and it must be at most 25 MiB. */
  function CheckFile(file: Option<ClientFile>): (r: Result<ClientFile, JsError>)
    ensures file.None? ==> r == Failure(Thrown(NoFileMessage))
    ensures file.Some? && !StartsWith(file.value.fileType, AudioPrefix)
      ==> r == Failure(Thrown(InvalidTypeMessage))
    ensures file.Some? && StartsWith(file.value.fileType, AudioPrefix) && file.value.size > MaxSize
      ==> r == Failure(Thrown(TooLargeMessage))
    ensures r.Success? <==> file.Some? && StartsWith(file.value.fileType, AudioPrefix) && file.value.size <= MaxSize
    ensures r.Success? ==> r.value == file.value
  {
    if file.None? then Failure(Thrown(NoFileMessage))
    else if !StartsWith(file.value.fileType, AudioPrefix) then Failure(Thrown(InvalidTypeMessage))
    else if file.value.size > MaxSize then Failure(Thrown(TooLargeMessage))
    else Success(file.value)
  }

  /** The type check precedes the size check: a non-audio file is refused
      as such whatever its size, and a file of exactly 25 MiB passes. */
  lemma TypeCheckedBeforeSize(file: ClientFile)
    ensures !StartsWith(file.fileType, AudioPrefix) ==> CheckFile(Some(file)) == Failure(Thrown(InvalidTypeMessage))
    ensures StartsWith(file.fileType, AudioPrefix) && file.size == 26214400 ==> CheckFile(Some(file)).Success?
    ensures StartsWith(file.fileType, AudioPrefix) && file.size == 26214401
      ==> CheckFile(Some(file)) == Failure(Thrown(TooLargeMessage))
  {
  }

  /** From the response to the value analyzeAudio returns or the error it
      throws (before the catch block rewrites it). For a non-ok status the
      body's `error` is used if truthy, else the status; an unreadable body
      counts as `{}`. For an ok status the parsed body is returned if its
      `success` is truthy, else its `error` or "Analysis failed". */
  function InterpretResponse(response: FetchResponse, jsString: JsonValue -> string): (r: Result<JsonValue, JsError>)
    ensures !Ok(response) ==> r.Failure?
    ensures !Ok(response) && response.json.Success? && ReadTruthy(ReadProperty(response.json.value, "error"))
      ==> r == Failure(Thrown(MessageOf(response.json.value.members["error"], jsString)))
    ensures !Ok(response) && (response.json.Failure? || !(response.json.value.JNull? || ReadTruthy(ReadProperty(response.json.value, "error"))))
      ==> r == Failure(Thrown(ServerErrorPrefix + NatToString(response.status)))
    ensures Ok(response) && response.json.Failure? ==> r == Failure(response.json.error)
    ensures response.json == Success(JNull)
      ==> r == Failure(NullReadError(if Ok(response) then "success" else "error"))
    ensures r.Success? <==> Ok(response) && response.json.Success?
                            && ReadTruthy(ReadProperty(response.json.value, "success"))
    ensures r.Success? ==> r.value == response.json.value
    ensures Ok(response) && response.json.Success? && !response.json.value.JNull?
            && !ReadTruthy(ReadProperty(response.json.value, "success"))
      ==> r == Failure(Thrown(
            if ReadTruthy(ReadProperty(response.json.value, "error"))
            then MessageOf(response.json.value.members["error"], jsString)
            else AnalysisFailedMessage))
  {
    if !Ok(response) then
      var errorData := match response.json case Success(v) => v case Failure(_) => JObj(map[]);
      var error := ReadProperty(errorData, "error");
      if error.NullRead? then Failure(NullReadError("error"))
      else if ReadTruthy(error) then Failure(Thrown(MessageOf(error.value, jsString)))
      else Failure(Thrown(ServerErrorPrefix + NatToString(response.status)))
    else
      match response.json
      case Failure(e) => Failure(e)
      case Success(result) =>
        var success := ReadProperty(result, "success");
        if success.NullRead? then Failure(NullReadError("success"))
        else if ReadTruthy(success) then Success(result)
        else
          var error := ReadProperty(result, "error");
          if ReadTruthy(error) then Failure(Thrown(MessageOf(error.value, jsString)))
          else Failure(Thrown(AnalysisFailedMessage))
  }

  /** When a failed response carries no truthy error (its body is not JSON,
      or has no usable error field), the "Server error: <status>" message
      names the status faithfully: its tail is the status in decimal. */
  lemma ServerErrorNamesStatus(response: FetchResponse, jsString: JsonValue -> string)
    requires !Ok(response)
    requires response.json.Failure? || !(response.json.value.JNull? || ReadTruthy(ReadProperty(response.json.value, "error")))
    ensures InterpretResponse(response, jsString).error.message[|ServerErrorPrefix|..] == NatToString(response.status)
    ensures DigitsValue(InterpretResponse(response, jsString).error.message[|ServerErrorPrefix|..]) == response.status
  {
    var m := ServerErrorPrefix + NatToString(response.status);
    assert m[|ServerErrorPrefix|..] == NatToString(response.status);
    NatToStringRoundTrip(response.status);
  }

  /** The catch block: a TypeError whose message mentions "fetch" becomes the
      connection message; every other error is rethrown as it is. */
  function Rethrown(e: JsError): (r: JsError)
    ensures e.name == "TypeError" && Includes(e.message, "fetch") ==> r == Thrown(ConnectionMessage)
    ensures !(e.name == "TypeError" && Includes(e.message, "fetch")) ==> r == e
  {
    if e.name == "TypeError" && Includes(e.message, "fetch") then Thrown(ConnectionMessage) else e
  }

  /** Rewriting is idempotent: the connection message is a plain Error, so a
      second pass leaves it alone. */
  lemma RethrownIdempotent(e: JsError)
    ensures Rethrown(Rethrown(e)) == Rethrown(e)
  {
  }

  /** The guards' errors and the server-reported errors are plain Errors and
      so pass through the catch block unchanged. */
  lemma PlainErrorsPassThrough(message: string)
    ensures Rethrown(Thrown(message)) == Thrown(message)
  {
  }

  /** One call of analyzeAudio: the request it sent, if any, and what it
      returned or threw. */
  datatype Analysis = Analysis(request: Option<FetchRequest>, outcome: Result<JsonValue, JsError>)

  function AnalyzeAudio(file: Option<ClientFile>, fetch: FetchRequest -> FetchOutcome,
                        jsString: JsonValue -> string): (a: Analysis)
    ensures CheckFile(file).Failure? ==> a == Analysis(None, Failure(CheckFile(file).error))
    ensures CheckFile(file).Success? ==> a.request == Some(PostAnalyze(AnalyzeUrl, file.value))
    ensures a.request.Some? && fetch(a.request.value).Rejected?
      ==> a.outcome == Failure(Rethrown(fetch(a.request.value).error))
    ensures a.request.Some? && fetch(a.request.value).Responded?
      ==> a.outcome == (match InterpretResponse(fetch(a.request.value).response, jsString)
                         case Success(v) => Success(v)
                         case Failure(e) => Failure(Rethrown(e)))
  {
    match CheckFile(file)
    case Failure(e) => Analysis(None, Failure(Rethrown(e)))
    case Success(f) =>
      var request := PostAnalyze(AnalyzeUrl, f);
      match fetch(request)
      case Rejected(e) => Analysis(Some(request), Failure(Rethrown(e)))
      case Responded(response) =>
        match InterpretResponse(response, jsString)
        case Success(v) => Analysis(Some(request), Success(v))
        case Failure(e) => Analysis(Some(request), Failure(Rethrown(e)))
  }

  /** A request goes out exactly when the file passes the guards; a missing
      file is refused before anything else. */
  lemma RequestOnlyForCheckedFiles(file: Option<ClientFile>, fetch: FetchRequest -> FetchOutcome,
                                   jsString: JsonValue -> string)
    ensures AnalyzeAudio(file, fetch, jsString).request.Some? <==> CheckFile(file).Success?
    ensures file.None? ==> AnalyzeAudio(file, fetch, jsString) == Analysis(None, Failure(Thrown(NoFileMessage)))
  {
  }

  /** healthCheck: `response.ok` of the health request, and false when the
      request is rejected. */
  function HealthCheck(fetch: FetchRequest -> FetchOutcome): (healthy: bool)
    ensures healthy <==> fetch(GetHealth(HealthUrl)).Responded? && Ok(fetch(GetHealth(HealthUrl)).response)
  {
    match fetch(GetHealth(HealthUrl))
    case Responded(response) => Ok(response)
    case Rejected(_) => false
  }
}
