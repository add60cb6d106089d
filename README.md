# Audio analysis pipeline — a Dafny model

The repository is a small web application. A browser uploads an audio file. An Express server sends the audio, together with a fixed instruction, to a generative model. The server turns the model's free text into a result object with six fields (language, native transcript, transliteration, two summaries, English translation) and answers with a JSON envelope. This project models the decision logic of that pipeline:

- **The analysis controller** (`AudioController`):
  - the fixed prompt and the six keys it names;
  - the response reconciler `parseGeminiResponse`, which trims, removes the first "```json" anywhere in the text (with the whitespace after it) and a closing "```", parses, and checks five mandatory keys, with a fixed fallback object;
  - the request handler `analyzeAudio`, which makes the missing-file reply, builds the success envelope and classifies errors by substring.
- **The upload configuration** (`MulterConfig`): the media-type filter and the 25 MiB limit.
- **The error middleware** (`ErrorHandler`): a priority chain from an error to a status and a failure body.
- **The client service** (`AudioService`): the three guards before upload, the interpretation of the HTTP response, the rewrite of connection failures, and the health probe.
- **Cross-file facts** (`Pipeline`):
  - client and server agree on the prefix and the limit;
  - the filter's error is the one the corrected middleware (`ErrorHandler.HandleError`) recognises;
  - the client's guards refuse exactly what the server's upload gate would, for the reason the corrected middleware reports;
  - every reply the controller and the corrected middleware build reaches the client as intended.

  As written, the middleware throws a ReferenceError before choosing any reply, which leaves the reply to Express (see Findings).

Support modules:
- `JsStrings`: JavaScript's trim, the regex class `\s`, indexOf/includes/startsWith, and decimal rendering of integers.
- `Json`: parsed values, property reads with their undefined/null cases, and truthiness.
- `Http`: the upload record, server errors, the envelope and the reply.

The external effects are parameters of the functions that use them:
- `JSON.parse` is `parse: string -> Option<JsonValue>`, where None stands for a SyntaxError.
- The model call is `generate`.
- `fetch` is a function from a request to a response or a rejection.
- The timestamp is `processedAt`.
- The rendering of a non-string value by `String(...)` is `jsString`.

`parseGeminiResponse` is imperative in the source: it reassigns the cleaned text and loops over the required keys with an early exit. It is modelled twice:
- a specification function, `Reconcile`;
- a method, `ParseGeminiResponse`, that cleans the text in the same steps and runs the same loop over the keys, proved equal to that function. The loop, with its invariant, is the method `CheckRequiredFields`.

Everything else is decision logic without state and is modelled as functions.

### Behaviour worth noting

- **Untagged fences are kept.** The first cleaning pattern is ```` ```json\s* ````. A leading untagged "```" therefore stays in the text, and such text falls back. See `UntaggedFenceFallsBack`.
- **The tag is removed wherever it stands.** The first pattern is not anchored. Its first match is removed even inside an unfenced response, for instance inside a string value of the object, together with the whitespace after it. An accepted object can therefore come back with a string value changed by the cleaning. See `InnerJsonFenceRemoved` and `TagInsideTextIsRemoved`.
- **Only the first tag is removed.** The pattern has no global flag, so one pass removes only the first "```json", and a second pass can remove another. See `CleaningNotIdempotent`.
- **Type before size.** The server's upload gate and the client both check the media type before the size. On the server the filter tests only the type, and multer's limit applies after it. An oversize non-audio file is therefore refused as the wrong type:
  - on the client with 'Please select a valid audio file';
  - on the server with 400 from the corrected middleware. As written, the middleware's ReferenceError leaves the reply to Express (see Findings).

  See `AudioService.TypeCheckedBeforeSize` and `MulterConfig.Upload`.
- **A no-break space before the closing fence.** String trimming treats U+00A0 as whitespace, JSON does not. With a no-break space between the JSON and the closing "```", fenced cleaning keeps it (the text cleans to the body followed by U+00A0), while the same text without fences is trimmed down to the body. JSON.parse rejects U+00A0, so the fenced reply falls back where the bare one parses. See `NoBreakSpaceGapSurvivesFence`.
- **The fallback's language.** Five fallback fields hold "Error: Could not …" texts, but `identifiedLanguage` holds 'Unknown'.

## Model

| member | source | states |
|---|---|---|
| AudioController.PromptNamesResultKeys | server/controllers/audioController.js:86-107 | the fixed prompt contains each of the six result keys in double quotes |
| AudioController.SchemaLinesNameKey | server/controllers/audioController.js:97-104 | the i-th schema line's quoted key occurs in the joined schema block |
| AudioController.ResultKeysAgree | server/controllers/audioController.js:121-141 | the fallback and the prompt list the same six keys in the same order; the required keys are those six minus englishTransliteration; the fallback has every required key |
| AudioController.StripJsonFence | server/controllers/audioController.js:115 | the result is the text with the leftmost "```json" and the longest whitespace run after it removed, or the text itself when there is no occurrence |
| AudioController.StripTrailingFence | server/controllers/audioController.js:115 | a "```" followed only by whitespace up to the end is cut off together with that whitespace; otherwise the text is unchanged |
| AudioController.TrailingFenceEndsTrim | server/controllers/audioController.js:115 | when a trailing fence matches, trimming the end stops right after it |
| AudioController.Reconcile | server/controllers/audioController.js:109-143 | the result always has all five mandatory keys, and is either the fallback or exactly what JSON.parse gave for the cleaned text |
| AudioController.CheckRequiredFields | server/controllers/audioController.js:121-126 | the loop over the five required keys with early exit accepts exactly the values that are objects holding all five keys |
| AudioController.ParseGeminiResponse | server/controllers/audioController.js:109-143 | the stepwise cleaning and the loop over the required keys with early exit return exactly Reconcile's result |
| AudioController.ReconcileKeepsAcceptedObject | server/controllers/audioController.js:118-128 | a parsed object with the five keys is returned unchanged |
| AudioController.ReconcileFallsBack | server/controllers/audioController.js:121-141 | a parse failure or a missing mandatory key gives exactly the fallback object |
| AudioController.LooseObjectIsKept | server/controllers/audioController.js:121-126 | an example of ReconcileKeepsAcceptedObject: an object with "", null, an extra key and no transliteration, for instance, is kept as parsed |
| AudioController.LeadingJsonFenceRemoved | server/controllers/audioController.js:115 | a leading "```json" and all whitespace after it are removed |
| AudioController.ClosingFenceRemoved | server/controllers/audioController.js:115 | a "```" at the very end is removed |
| AudioController.FencedTextCleansToBody | server/controllers/audioController.js:112-115 | whitespace + "```json" + whitespace + body + "```" + whitespace cleans to exactly the body |
| AudioController.CleanTextUnchanged | server/controllers/audioController.js:112-115 | trimmed text without "```json" and not ending in a backtick is left as it is |
| AudioController.NoTrailingFence | server/controllers/audioController.js:115 | text ending in a non-space, non-backtick character has no closing-fence match |
| AudioController.FencedReconcilesAsBare | server/controllers/audioController.js:112-128 | the fenced form of a clean body, with the closing fence right after the body, reconciles to the same result as the body alone |
| AudioController.FencedWithGapReconcilesAsBare | server/controllers/audioController.js:112-128 | the usual fenced reply, with JSON whitespace (a line break, say) between a non-empty clean body and the closing fence, reconciles to the same result as the body alone, given that JSON.parse ignores trailing JSON whitespace |
| AudioController.NoBreakSpaceGapSurvivesFence | server/controllers/audioController.js:115 | with a no-break space between the body and the closing fence, fenced cleaning keeps it, while cleaning the bare text followed by it gives the body alone |
| AudioController.UntaggedFenceFallsBack | server/controllers/audioController.js:112-141 | a trimmed response starting with an untagged "```" gives the fallback |
| AudioController.FallbackTextHasNoBacktick | server/controllers/audioController.js:134-141 | the serialised fallback contains no backtick and has no padding |
| AudioController.FallbackTextIsClean | server/controllers/audioController.js:112-115 | cleaning leaves the serialised fallback unchanged |
| AudioController.FallbackRoundTrip | server/controllers/audioController.js:109-143 | reconciling the serialised fallback gives the fallback back |
| AudioController.TaggedTextCleansToRest | server/controllers/audioController.js:112-115 | "```json" directly followed by trimmed, non-backtick-ending text cleans to that text |
| AudioController.CleaningNotIdempotent | server/controllers/audioController.js:115 | for a doubled "```json" tag, one cleaning leaves one tag and a second cleaning removes it |
| AudioController.CreateAnalysisPrompt | server/controllers/audioController.js:86-107 | the fixed prompt: the six numbered tasks, the English-copy rule, the six-key JSON shape and the closing instruction, character for character |
| AudioController.CleanResponseText | server/controllers/audioController.js:112-115 | the cleaning before JSON.parse: trim, then the first "```json" with its whitespace removed, then a closing "```" removed; its effect is stated by CleanTextUnchanged, FencedTextCleansToBody, TaggedTextCleansToRest and CleaningNeverLengthens |
| AudioController.CleaningNeverLengthens | server/controllers/audioController.js:112-115 | the cleaned text is never longer than the response text |
| AudioController.FallbackResult | server/controllers/audioController.js:134-141 | the fallback object: 'Unknown' and the five "Error: Could not …" texts under the six result keys |
| AudioController.FallbackText | server/controllers/audioController.js:134-141 | the fallback object serialised as JSON.stringify writes it: members in insertion order, no spaces |
| AudioController.ClassifyFailure | server/controllers/audioController.js:65-82 | 'API key' gives 500 with the configuration message, even when 'file size' is also present; otherwise 'file size' gives 413; everything else gives 500 with the generic message |
| AudioController.InnerJsonFenceRemoved | server/controllers/audioController.js:115 | the first "```json" and the whitespace after it are removed wherever they stand, not only at the start |
| AudioController.TagInsideTextIsRemoved | server/controllers/audioController.js:112-115 | a tag inside an otherwise clean response is cut out of the text that is parsed |
| AudioController.RequestFor | server/controllers/audioController.js:28-40 | the model request: the analysis prompt together with the upload's bytes and media type |
| AudioController.AnalyzeAudio | server/controllers/audioController.js:8-84 | no file gives 400 'No audio file provided' and no model request; otherwise the model gets the prompt and the upload's bytes and type; model text gives 200 with data equal to Reconcile's result and metadata copied from the upload with the given timestamp; a model error gives ClassifyFailure's reply |
| AudioController.UnparseableModelTextStillSucceeds | server/controllers/audioController.js:40-59 | model text that does not parse still gives 200 with the fallback as data |
| AudioController.AnalyzeAudioRepliesWellFormed | server/controllers/audioController.js:11-82 | every reply has status 200 exactly on success, and a failure carries a non-empty message and a status in {400, 413, 500} |
| JsStrings.IsWhitespace | server/controllers/audioController.js:112-115 | the ECMAScript WhiteSpace and LineTerminator characters behind `trim()` and the regex class `\s` |
| JsStrings.Trim | server/controllers/audioController.js:112 | the result has no leading or trailing whitespace and is no longer than the input |
| JsStrings.TrimPadded | server/controllers/audioController.js:112 | trimming whitespace + t + whitespace gives t back when t is itself trimmed |
| JsStrings.TrimStart | server/controllers/audioController.js:112 | the result is a suffix of the input, and what it drops is whitespace |
| JsStrings.TrimEnd | server/controllers/audioController.js:115 | the result is a prefix of the input, and what it drops is whitespace |
| JsStrings.IndexOfFrom | server/controllers/audioController.js:115 | the result is the leftmost occurrence at or after the start, or None when there is none |
| JsStrings.SkipWhitespace | server/controllers/audioController.js:115 | the result ends the maximal whitespace run from the start position |
| JsStrings.Includes | server/controllers/audioController.js:65-72 | true exactly when the pattern occurs somewhere in the text |
| JsStrings.NatToString | src/services/audioService.js:41 | a non-empty string of decimal digits with no leading zero |
| JsStrings.NatToStringRoundTrip | src/services/audioService.js:41 | reading the rendered digits back gives the number |
| Json.ReadProperty | server/controllers/audioController.js:123 | a read finds a value exactly for an object holding the key, and is a null read exactly on null |
| JsStrings.StartsWith | server/config/multer.js:8 | String.prototype.startsWith: the text begins with the prefix |
| Json.Truthy | src/services/audioService.js:46-47 | JavaScript truthiness of a parsed value: null, false, 0 and "" are falsy |
| Json.ReadTruthy | src/services/audioService.js:41 | an undefined or null read is falsy; a found value is as truthy as the value |
| Http.EnvelopeJson | server/controllers/audioController.js:50-59 | the serialised envelope carries success, and data on success or error on failure |
| Http.EnvelopeRoundTrip | server/controllers/audioController.js:50-59 | reading the serialised envelope back gives the same envelope and metadata |
| MulterConfig.FileFilter | server/config/multer.js:7-13 | accept exactly when the media type starts with "audio/"; otherwise refuse with Error('Only audio files are allowed!') |
| MulterConfig.FilterReadsOnlyMimetype | server/config/multer.js:7-13 | two files with the same media type get the same verdict, whatever the request, name, size or bytes |
| MulterConfig.FilterIsCaseSensitive | server/config/multer.js:8 | "Audio/mpeg" and "audio" are refused, and "audio/" plus any subtype is accepted |
| MulterConfig.FileSizeLimitValue | server/config/multer.js:20 | the limit is 26214400 bytes |
| MulterConfig.Upload | server/config/multer.js:16-22 | a file passes exactly when the filter accepts it and it is at most the limit; the type failure comes first, then the size failure as LIMIT_FILE_SIZE |
| MulterConfig.SizeLimitBoundary | server/config/multer.js:19-21 | an audio file of exactly 26214400 bytes passes and one of 26214401 bytes does not |
| ErrorHandler.HandleError | server/middleware/errorHandler.js:5-31 | the intended classification, with the missing import corrected (see Findings): LIMIT_FILE_SIZE gives 413 with the 25MB message; another MulterError gives 400 "File upload error: " + message; the filter's exact message gives 400 'Invalid file type…'; everything else gives 500; the body is always a failure |
| ErrorHandler.MulterTestPrecedesMessageTest | server/middleware/errorHandler.js:5-25 | a MulterError carrying the filter's message is reported as an upload error, not as the wrong type |
| ErrorHandler.HandledRepliesWellFormed | server/middleware/errorHandler.js:5-31 | every reply of the corrected middleware is well formed |
| ErrorHandler.HandleErrorAsWritten | server/middleware/errorHandler.js:5 | as written, the first test raises a ReferenceError |
| ErrorHandler.MissingImportDefeatsClassification | server/middleware/errorHandler.js:5 | as written, no error gets its intended reply |
| AudioService.Ok | src/services/audioService.js:39 | `response.ok`: the status is in 200..299 |
| AudioService.MessageOf | src/services/audioService.js:41 | the message `new Error(v)` gets: a string as it is, any other value as String renders it |
| AudioService.NullReadError | src/services/audioService.js:41-46 | the TypeError a property read on a null body raises; the message follows V8's wording, other engines word it differently, and only the name TypeError matters to the catch block |
| AudioService.CheckFile | src/services/audioService.js:8-21 | a missing file, then a non-audio type, then a size above 25 MiB are refused with their messages; any other file passes unchanged |
| AudioService.TypeCheckedBeforeSize | src/services/audioService.js:13-21 | a non-audio file is refused as such at any size; 26214400 bytes pass and 26214401 do not |
| AudioService.InterpretResponse | src/services/audioService.js:39-50 | non-ok: the body's truthy error, else "Server error: <status>", with an unreadable body read as {}; ok: a parse error is rethrown, truthy success returns the body unchanged, else the body's error or 'Analysis failed'; a null body gives the TypeError of the property read |
| AudioService.ServerErrorNamesStatus | src/services/audioService.js:39-42 | for a failed response whose body is not JSON or carries no truthy error, the message after "Server error: " is the status in decimal, and reads back as the status |
| AudioService.Rethrown | src/services/audioService.js:51-59 | a TypeError mentioning 'fetch' becomes the connection message, and every other error is unchanged |
| AudioService.RethrownIdempotent | src/services/audioService.js:55-59 | rewriting twice is the same as rewriting once |
| AudioService.PlainErrorsPassThrough | src/services/audioService.js:51-59 | plain Errors thrown by the guards or the interpretation pass through unchanged |
| AudioService.AnalyzeAudio | src/services/audioService.js:6-61 | a file the guards refuse is never posted and its error is thrown; otherwise the file is posted to /analyze, and the rejection or the interpreted response, rewritten by the catch block, is the outcome |
| AudioService.RequestOnlyForCheckedFiles | src/services/audioService.js:8-37 | a request is sent exactly when the guards pass; a missing file gives 'No audio file provided' |
| AudioService.HealthCheck | src/services/audioService.js:63-71 | true exactly when the health request gets a response with an ok status; false on rejection |
| Pipeline.ClientAndServerAgreeOnLimits | src/services/audioService.js:13-21 | the client's prefix and limit equal the server's, and the limit is 26214400 |
| Pipeline.FilterRejectionIsRecognised | server/middleware/errorHandler.js:20-25 | with the corrected middleware (`HandleError`; see Findings), the filter's refusal is answered with 400 'Invalid file type…'; as written, the ReferenceError leaves the reply to Express |
| Pipeline.ClientGateMirrorsServerGate | src/services/audioService.js:12-21 | for equal type and size, the client passes a file exactly when the server's upload gate does; a client type refusal matches a gate failure that the corrected middleware (`HandleError`; see Findings) answers with 400, and a client size refusal one it answers with 413; as written, the ReferenceError leaves those replies to Express |
| Pipeline.ServerReplyReachesClient | src/services/audioService.js:39-50 | for a well-formed reply the client returns the envelope, which reads back as the reply's body, on success and throws the reply's message otherwise |
| Pipeline.HandledErrorReachesClient | src/services/audioService.js:39-42 | a reply of the corrected middleware reaches the client as an Error with the reply's message |
| Pipeline.ClientReceivesReconciledResult | server/controllers/audioController.js:47-59 | when the model returns text, the client's result has data equal to Reconcile's result, with all mandatory keys |

## Findings

| source | as written | input that shows it | evidently intended | confidence | as-written member | corrected member |
|---|---|---|---|---|---|---|
| server/middleware/errorHandler.js:5 | `err instanceof multer.MulterError` names `multer`, but the file never imports it, so the test raises a ReferenceError for every error | any error reaching the middleware, for example the filter's Error('Only audio files are allowed!') | the priority classification: 413 / 400 / 400 / 500 with a failure envelope | not executed; high | ErrorHandler.HandleErrorAsWritten, ErrorHandler.MissingImportDefeatsClassification | ErrorHandler.HandleError, ErrorHandler.HandledRepliesWellFormed |

## Left out

- Network and model I/O are parameters: the model call, `fetch`, `response.json()`'s result and the timestamps. What Express does with an error thrown inside middleware is not modelled.
- JSON.parse is the parameter `parse`, and `JSON.stringify` appears only for the fallback object (`FallbackText`). Lemmas that need a fact about parsing state it as a precondition: `RejectsBacktickText`, `IgnoresTrailingJsonWs` (trailing space, tab, line feed and carriage return do not change the parse), and `parse(FallbackText)` giving the fallback. These are facts of JSON.parse that the model assumes as preconditions rather than proves.
- base64 encoding of the audio: the model request carries the raw bytes.
- Console logging, the FormData construction and the log record of the upload have no effect on results and are left out.
- Express wiring, CORS, the health route's body and the root endpoint are left out. The health route is the server half of `HealthCheck`; only `response.ok` is read from it.
- The AudioService class and its constructor-set `baseUrl` field are not a class here. Nothing writes the field after construction, so it is the constant `AudioService.BaseUrl`.
- AudioService.MessageOf: a non-string `error` value is rendered through the parameter `jsString`. String's number formatting is not modelled.
- AudioController.ClassifyFailure: assumes the caught value has a string message. A thrown non-Error would make `error.message.includes` throw inside the catch block, and that case is not modelled.
- JsStrings.Trim: characters are Unicode scalar values, not UTF-16 code units. Every character in JavaScript's whitespace set is a single code unit, so trimming agrees, but lengths of text with astral characters would differ.
- MulterConfig.Upload: models multer's size enforcement only by its outcome (filter first, then more than the limit gives LIMIT_FILE_SIZE). multer's streaming and in-memory storage are library behaviour and are not modelled.
- Json.JsonValue: an object is a map, so the order of its keys is not kept. The server's `res.json` writes a parsed object's members in their own order, and the model does not say which order the client sees.
- Pipeline.ServerReplyReachesClient, Pipeline.HandledErrorReachesClient, Pipeline.ClientReceivesReconciledResult: take `EnvelopeJson(reply.body)` as what `response.json()` returns, that is, they assume the JSON sent by `res.json` parses back to the value the server had. That fails where `JSON.stringify` is not inverted by `JSON.parse`: a model reply containing `1e999`, for instance, parses to Infinity on the server and is sent as `null`.
- Numbers in parsed JSON are reals. No arithmetic is done on them, and `fileSize` is written as an exact integer.
