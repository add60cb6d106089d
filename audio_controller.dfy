/** The analysis controller of the server: the fixed instruction sent to the
    model, the reconciliation of the model's text into a result object with
    its fallback, and the request handler that builds the success envelope
    or classifies a failure. */
module AudioController {
  import opened Wrappers
  import opened JsStrings
  import opened Json
  import opened Http

  // ---------------------------------------------------------------------
  // The analysis prompt
  // ---------------------------------------------------------------------

  /** One line of the JSON shape the prompt asks for. */
  datatype SchemaField = SchemaField(indent: string, key: string, description: string)

  function Quoted(s: string): string {
    "\"" + s + "\""
  }

  /** The schema lines in the order the prompt lists them. The first five
      lines of the template literal are indented by a no-break space and a
      space, the last one by two spaces. */
  const ResultSchema: seq<SchemaField> := [
    SchemaField("\U{00A0} ", "identifiedLanguage", "The name of the language identified"),
    SchemaField("\U{00A0} ", "nativeSubtitles", "The full transcript in the native language..."),
    SchemaField("\U{00A0} ", "englishTransliteration", "The transliterated transcript in English characters..."),
    SchemaField("\U{00A0} ", "nativeSummary", "The summary in the native language..."),
    SchemaField("\U{00A0} ", "englishSummary", "The summary in English..."),
    SchemaField("  ", "englishTranslation", "The full transcript translated into English...")
  ]

  const PromptTasks: string :=
    "Analyze the provided audio file and perform the following tasks:\n\n"
    + "1. Identify the primary language spoken.\n"
    + "2. Generate a full transcript (subtitles) of the audio in its original language.\n"
    + "3. **Transliterate the full transcript into English characters (roman script). For example, if the text is in Hindi \"\U{0928}\U{092E}\U{0938}\U{094D}\U{0924}\U{0947}\", it should become \"Namaste\".**\n"
    + "4. Create a concise summary of the audio in its original language.\n"
    + "5. Create a concise summary of the audio in English.\n"
    + "6. Translate the entire full transcript into English.\n\n"
    + "Return the result as a single JSON object with the following structure. If the identified language is already English, the 'englishTranslation' field should be a direct copy of the 'nativeSubtitles' field.\n"

  const PromptClosing: string :=
    "\n}\n\nImportant: Return ONLY the JSON object, no additional text or formatting."

  function FieldLine(f: SchemaField): string {
    f.indent + Quoted(f.key) + ": " + Quoted(f.description)
  }

  /** The schema lines joined by ",\n". */
  function SchemaLines(fields: seq<SchemaField>): string {
    if |fields| == 0 then ""
    else if |fields| == 1 then FieldLine(fields[0])
    else FieldLine(fields[0]) + ",\n" + SchemaLines(fields[1..])
  }

  /** createAnalysisPrompt: a constant; nothing varies its text. */
  function CreateAnalysisPrompt(): string {
    PromptTasks + "{\n" + SchemaLines(ResultSchema) + PromptClosing
  }

  /** A schema line names its key right after the indent. */
  lemma KeyInFieldLine(f: SchemaField)
    ensures OccursAt(FieldLine(f), Quoted(f.key), |f.indent|)
  {
    OccursInMiddle(f.indent, Quoted(f.key), ": " + Quoted(f.description));
    assert f.indent + Quoted(f.key) + (": " + Quoted(f.description)) == FieldLine(f);
  }

  lemma {:induction false} SchemaLinesNameKey(fields: seq<SchemaField>, i: nat) returns (at: int)
    requires i < |fields|
    ensures OccursAt(SchemaLines(fields), Quoted(fields[i].key), at)
    decreases |fields|
  {
    var line := FieldLine(fields[0]);
    if i == 0 {
      KeyInFieldLine(fields[0]);
      at := |fields[0].indent|;
      if |fields| > 1 {
        OccursExtended(line, Quoted(fields[0].key), at, ",\n");
        OccursExtended(line + ",\n", Quoted(fields[0].key), at, SchemaLines(fields[1..]));
      }
    } else {
      var k := SchemaLinesNameKey(fields[1..], i - 1);
      OccursAfter(line + ",\n", SchemaLines(fields[1..]), Quoted(fields[i].key), k);
      at := |line + ",\n"| + k;
    }
  }

  /** The prompt names every key of the result shape, in double quotes. */
  lemma PromptNamesResultKeys()
    ensures forall i :: 0 <= i < |ResultSchema| ==> Includes(CreateAnalysisPrompt(), Quoted(ResultSchema[i].key))
  {
    forall i | 0 <= i < |ResultSchema|
      ensures Includes(CreateAnalysisPrompt(), Quoted(ResultSchema[i].key))
    {
      var k := SchemaLinesNameKey(ResultSchema, i);
      OccursShifted(SchemaLines(ResultSchema), Quoted(ResultSchema[i].key), k, PromptTasks + "{\n", PromptClosing);
    }
  }

  // ---------------------------------------------------------------------
  // The response reconciler
  // ---------------------------------------------------------------------

  const JsonFence: string := "```json"
  const Fence: string := "```"

  /** The five keys whose absence triggers the fallback. */
  const RequiredFields: seq<string> :=
    ["identifiedLanguage", "nativeSubtitles", "nativeSummary", "englishSummary", "englishTranslation"]

  /** A parsed value is acceptable when it is an object in which each
      required key is present (with any value, "" and null included). */
  predicate HasRequiredFields(v: JsonValue) {
    v.JObj? && forall i :: 0 <= i < |RequiredFields| ==> RequiredFields[i] in v.members
  }

  /** The sentinel strings of the fallback: "Error: Could not <action> <what>." */
  function Sentinel(action: string, what: string): string {
    "Error: Could not " + action + " " + what + "."
  }

  /** The fixed six-field object returned when the model's text is unusable,
      as (key, sentinel) pairs in the source's order. */
  const FallbackFields: seq<(string, string)> := [
    ("identifiedLanguage", "Unknown"),
    ("nativeSubtitles", Sentinel("process", "audio transcription")),
    ("englishTransliteration", Sentinel("process", "transliteration")),
    ("nativeSummary", Sentinel("generate", "summary")),
    ("englishSummary", Sentinel("generate", "English summary")),
    ("englishTranslation", Sentinel("generate", "English translation"))
  ]

  const FallbackResult: JsonValue := JObj(map[
    FallbackFields[0].0 := JStr(FallbackFields[0].1),
    FallbackFields[1].0 := JStr(FallbackFields[1].1),
    FallbackFields[2].0 := JStr(FallbackFields[2].1),
    FallbackFields[3].0 := JStr(FallbackFields[3].1),
    FallbackFields[4].0 := JStr(FallbackFields[4].1),
    FallbackFields[5].0 := JStr(FallbackFields[5].1)])

  /** JSON.stringify of one string-valued member whose key and value need no
      escaping. */
  function StringifyMember(field: (string, string)): string {
    Quoted(field.0) + ":" + Quoted(field.1)
  }

  /** JSON.stringify of the fallback object: its members in insertion order,
      comma-separated, no spaces. */
  const FallbackText: string :=
    "{" + StringifyMember(FallbackFields[0])
    + "," + StringifyMember(FallbackFields[1])
    + "," + StringifyMember(FallbackFields[2])
    + "," + StringifyMember(FallbackFields[3])
    + "," + StringifyMember(FallbackFields[4])
    + "," + StringifyMember(FallbackFields[5]) + "}"

  /** The pattern ```json\s* (no flags) matches s[i..j]: i is the leftmost
      occurrence of "```json" and j ends the longest whitespace run after it. */
  predicate JsonFenceMatch(s: string, i: int, j: int) {
    && OccursAt(s, JsonFence, i)
    && (forall k :: 0 <= k < i ==> !OccursAt(s, JsonFence, k))
    && i + |JsonFence| <= j <= |s|
    && (forall k :: i + |JsonFence| <= k < j ==> IsWhitespace(s[k]))
    && (j == |s| || !IsWhitespace(s[j]))
  }

  /** The first replace of the cleaning line, with pattern ```json\s* and
      replacement '': removes the first match, if there is one. */
  function StripJsonFence(s: string): (r: string)
    ensures (forall k :: !OccursAt(s, JsonFence, k)) ==> r == s
    ensures forall i, j :: JsonFenceMatch(s, i, j) ==> r == s[..i] + s[j..]
    ensures r == s || exists i, j :: JsonFenceMatch(s, i, j) && r == s[..i] + s[j..]
  {
    match IndexOf(s, JsonFence)
    case None => s
    case Some(i) =>
      var j := SkipWhitespace(s, i + |JsonFence|);
      assert JsonFenceMatch(s, i, j);
      s[..i] + s[j..]
  }

  /** The regular expression /```\s*$/ matches s[i..]: "```" at i followed by
      nothing but whitespace up to the end. */
  predicate TrailingFenceAt(s: string, i: int) {
    OccursAt(s, Fence, i) && forall k :: i + |Fence| <= k < |s| ==> IsWhitespace(s[k])
  }

  /** Once a closing fence matches at i, trimming the end stops right after it. */
  lemma TrailingFenceEndsTrim(s: string, i: int)
    requires TrailingFenceAt(s, i)
    ensures TrimEnd(s) == s[..i + |Fence|]
  {
    var n := i + |Fence|;
    assert s == s[..n] + s[n..];
    assert s[..n][n - 1] == s[i..n][2] == '`';
    TrimEndPadded(s[..n], s[n..]);
  }

  /** s.replace(/```\s*$/, ''): removes a closing fence and the whitespace
      after it. At most one index can match, so the match is the leftmost. */
  function StripTrailingFence(s: string): (r: string)
    ensures (forall i :: !TrailingFenceAt(s, i)) ==> r == s
    ensures forall i :: TrailingFenceAt(s, i) ==> r == s[..i]
  {
    var t := TrimEnd(s);
    assert forall i :: TrailingFenceAt(s, i) ==> t == s[..i + |Fence|] by {
      forall i | TrailingFenceAt(s, i) {
        TrailingFenceEndsTrim(s, i);
      }
    }
    if |t| >= |Fence| && t[|t| - |Fence|..] == Fence then
      assert TrailingFenceAt(s, |t| - |Fence|);
      t[..|t| - |Fence|]
    else
      s
  }

  /** The cleaning steps before JSON.parse: trim, then the two replacements. */
  function CleanResponseText(responseText: string): string {
    StripTrailingFence(StripJsonFence(Trim(responseText)))
  }

  /** Cleaning only ever removes characters. */
  lemma CleaningNeverLengthens(responseText: string)
    ensures |CleanResponseText(responseText)| <= |responseText|
  {
    var t := Trim(responseText);
    var u := StripJsonFence(t);
    assert |u| <= |t|;
    if exists i :: TrailingFenceAt(u, i) {
      var i :| TrailingFenceAt(u, i);
      assert StripTrailingFence(u) == u[..i];
    }
  }

  /** parseGeminiResponse as a value: the parsed object when it has the
      required fields, the fallback otherwise. `parse` stands for JSON.parse,
      None for a SyntaxError. Reading a field of a parsed null throws a
      TypeError; like a missing field, it is caught and gives the fallback. */
  function Reconcile(parse: string -> Option<JsonValue>, responseText: string): (result: JsonValue)
    ensures HasRequiredFields(result)
    ensures result == FallbackResult || parse(CleanResponseText(responseText)) == Some(result)
  {
    var parsed := parse(CleanResponseText(responseText));
    if parsed.Some? && HasRequiredFields(parsed.value) then parsed.value else FallbackResult
  }

  /** The loop of parseGeminiResponse over the required keys: the first key
      whose read is undefined (or a read on null) rejects the value. */
  method CheckRequiredFields(parsedResult: JsonValue) returns (accepted: bool)
    ensures accepted <==> HasRequiredFields(parsedResult)
  {
    for n := 0 to |RequiredFields|
      invariant forall k :: 0 <= k < n ==> ReadProperty(parsedResult, RequiredFields[k]).Found?
    {
      if !ReadProperty(parsedResult, RequiredFields[n]).Found? {
        assert !HasRequiredFields(parsedResult);
        return false;
      }
    }
    assert parsedResult.JObj? by {
      assert ReadProperty(parsedResult, RequiredFields[0]).Found?;
    }
    return true;
  }

  /** parseGeminiResponse as the source writes it: the text is cleaned in
      steps, parsed once, and each required field is checked in turn; the
      first undefined one abandons the parse for the fallback. */
  method ParseGeminiResponse(parse: string -> Option<JsonValue>, responseText: string) returns (result: JsonValue)
    ensures result == Reconcile(parse, responseText)
  {
    var cleanedText := Trim(responseText);
    cleanedText := StripTrailingFence(StripJsonFence(cleanedText));
    var parsed := parse(cleanedText);
    if parsed.None? {
      return FallbackResult;
    }
    var parsedResult := parsed.value;
    var accepted := CheckRequiredFields(parsedResult);
    if !accepted {
      return FallbackResult;
    }
    return parsedResult;
  }

  /** A parsed object with all five required keys comes back unchanged,
      whatever their values and whatever other keys it has. */
  lemma ReconcileKeepsAcceptedObject(parse: string -> Option<JsonValue>, responseText: string, v: JsonValue)
    requires parse(CleanResponseText(responseText)) == Some(v)
    requires HasRequiredFields(v)
    ensures Reconcile(parse, responseText) == v
  {
  }

  /** Unparseable text, or a parsed value missing a required key, gives
      exactly the fallback. */
  lemma ReconcileFallsBack(parse: string -> Option<JsonValue>, responseText: string)
    requires parse(CleanResponseText(responseText)).None?
          || !HasRequiredFields(parse(CleanResponseText(responseText)).value)
    ensures Reconcile(parse, responseText) == FallbackResult
  {
  }

  /** Empty strings, null, extra keys and a missing transliteration do not
      trigger the fallback. */
  lemma LooseObjectIsKept(parse: string -> Option<JsonValue>, responseText: string)
    requires parse(CleanResponseText(responseText)) == Some(JObj(map[
      "identifiedLanguage" := JStr(""),
      "nativeSubtitles" := JNull,
      "nativeSummary" := JStr("s"),
      "englishSummary" := JStr(""),
      "englishTranslation" := JNull,
      "confidence" := JNum(0.5)]))
    ensures Reconcile(parse, responseText) == parse(CleanResponseText(responseText)).value
  {
    var v := parse(CleanResponseText(responseText)).value;
    assert forall i :: 0 <= i < |RequiredFields| ==> RequiredFields[i] in v.members;
  }

  /** A leading "```json" and the whitespace after it are removed. */
  lemma LeadingJsonFenceRemoved(w: string, rest: string)
    requires Blank(w)
    requires rest == [] || !IsWhitespace(rest[0])
    ensures StripJsonFence(JsonFence + w + rest) == rest
  {
    var s := JsonFence + w + rest;
    var j := |JsonFence| + |w|;
    assert s[..|JsonFence|] == JsonFence;
    assert forall k :: |JsonFence| <= k < j ==> s[k] == w[k - |JsonFence|];
    assert s[j..] == rest;
    assert j < |s| ==> s[j] == rest[0];
    assert JsonFenceMatch(s, 0, j);
    assert s[..0] + s[j..] == rest;
  }

  /** A closing "```" at the very end is removed. */
  lemma ClosingFenceRemoved(body: string)
    ensures StripTrailingFence(body + Fence) == body
  {
    var s := body + Fence;
    assert s[|body|..|body| + |Fence|] == Fence;
    assert TrailingFenceAt(s, |body|);
    assert s[..|body|] == body;
  }

  /** A body wrapped as "```json" + whitespace + body + "```", with any
      whitespace around it, is cleaned down to exactly the body. */
  lemma FencedTextCleansToBody(w0: string, w: string, body: string, w1: string)
    requires Blank(w0) && Blank(w) && Blank(w1)
    requires body == [] || !IsWhitespace(body[0])
    ensures CleanResponseText(w0 + JsonFence + w + body + Fence + w1) == body
  {
    var core := JsonFence + w + body + Fence;
    assert w0 + JsonFence + w + body + Fence + w1 == w0 + core + w1;
    assert core[0] == '`' && core[|core| - 1] == '`';
    TrimPadded(w0, core, w1);
    assert core == JsonFence + w + (body + Fence);
    LeadingJsonFenceRemoved(w, body + Fence);
    ClosingFenceRemoved(body);
  }

  /** Text that is already clean: trimmed, no "```json" anywhere, not ending
      in a backtick. */
  lemma CleanTextUnchanged(s: string)
    requires Trimmed(s)
    requires forall k :: !OccursAt(s, JsonFence, k)
    requires s == [] || s[|s| - 1] != '`'
    ensures CleanResponseText(s) == s
  {
    TrimPadded([], s, []);
    assert [] + s + [] == s;
    NoTrailingFence(s);
  }

  /** Text ending in a character that is neither whitespace nor a backtick
      has no closing fence. */
  lemma NoTrailingFence(s: string)
    requires s == [] || (!IsWhitespace(s[|s| - 1]) && s[|s| - 1] != '`')
    ensures forall i :: !TrailingFenceAt(s, i)
  {
    forall i
      ensures !TrailingFenceAt(s, i)
    {
      if OccursAt(s, Fence, i) {
        assert s[i + 2] == s[i..i + |Fence|][2];
        if i + |Fence| < |s| {
          assert !IsWhitespace(s[|s| - 1]);
        }
      }
    }
  }

  /** The fenced form of a clean body reconciles exactly as the bare body. */
  lemma FencedReconcilesAsBare(parse: string -> Option<JsonValue>, w0: string, w: string, body: string, w1: string)
    requires Blank(w0) && Blank(w) && Blank(w1)
    requires Trimmed(body)
    requires forall k :: !OccursAt(body, JsonFence, k)
    requires body == [] || body[|body| - 1] != '`'
    ensures Reconcile(parse, w0 + JsonFence + w + body + Fence + w1) == Reconcile(parse, body)
  {
    FencedTextCleansToBody(w0, w, body, w1);
    CleanTextUnchanged(body);
  }

  /** JSON's own whitespace: space, tab, line feed and carriage return. */
  predicate JsonWhitespace(c: char) {
    c == ' ' || c == '\t' || c == '\n' || c == '\r'
  }

  /** What JSON.parse is known to do with trailing JSON whitespace: it is
      insignificant, so the text parses as it would without it. */
  ghost predicate IgnoresTrailingJsonWs(parse: string -> Option<JsonValue>) {
    forall s, v :: (forall k :: 0 <= k < |v| ==> JsonWhitespace(v[k])) ==> parse(s + v) == parse(s)
  }

  /** The usual fenced reply, with a line break (or other JSON whitespace)
      between the JSON and the closing fence, reconciles as the bare body
      when JSON.parse ignores trailing JSON whitespace. */
  lemma FencedWithGapReconcilesAsBare(parse: string -> Option<JsonValue>, w0: string, w: string, body: string, v: string, w1: string)
    requires IgnoresTrailingJsonWs(parse)
    requires Blank(w0) && Blank(w) && Blank(w1)
    requires forall k :: 0 <= k < |v| ==> JsonWhitespace(v[k])
    requires |body| > 0 && Trimmed(body)
    requires forall k :: !OccursAt(body, JsonFence, k)
    requires body[|body| - 1] != '`'
    ensures Reconcile(parse, w0 + JsonFence + w + body + v + Fence + w1) == Reconcile(parse, body)
  {
    assert w0 + JsonFence + w + body + v + Fence + w1 == w0 + JsonFence + w + (body + v) + Fence + w1;
    assert (body + v)[0] == body[0];
    FencedTextCleansToBody(w0, w, body + v, w1);
    CleanTextUnchanged(body);
    assert parse(body + v) == parse(body);
  }

  /** U+00A0 is whitespace to String.trim but not to JSON: a no-break space
      before the closing fence survives fenced cleaning, while trimming removes
      it from the bare text. */
  lemma NoBreakSpaceGapSurvivesFence(body: string)
    requires |body| > 0 && Trimmed(body)
    requires forall k :: !OccursAt(body, JsonFence, k)
    requires body[|body| - 1] != '`'
    ensures CleanResponseText(JsonFence + body + "\U{00A0}" + Fence) == body + "\U{00A0}"
    ensures CleanResponseText(body + "\U{00A0}") == body
  {
    var nbsp := "\U{00A0}";
    assert JsonFence + body + nbsp + Fence == [] + JsonFence + [] + (body + nbsp) + Fence + [];
    assert (body + nbsp)[0] == body[0];
    FencedTextCleansToBody([], [], body + nbsp, []);
    TrimPadded([], body, nbsp);
    assert [] + body + nbsp == body + nbsp;
    CleanTextUnchanged(body);
  }

  /** What JSON.parse is known to do with text that cannot begin a JSON value:
      the empty text and a text starting with a backtick are rejected. */
  ghost predicate RejectsBacktickText(parse: string -> Option<JsonValue>) {
    parse("") == None && forall s :: |s| > 0 && s[0] == '`' ==> parse(s) == None
  }

  /** A leading fence without the json tag is not removed, so such a response
      falls back. */
  lemma UntaggedFenceFallsBack(parse: string -> Option<JsonValue>, responseText: string)
    requires RejectsBacktickText(parse)
    requires StartsWith(Trim(responseText), Fence)
    requires !StartsWith(Trim(responseText), JsonFence)
    ensures Reconcile(parse, responseText) == FallbackResult
  {
    var t := Trim(responseText);
    assert t[0] == '`' by { assert t[..|Fence|][0] == t[0]; }
    assert !OccursAt(t, JsonFence, 0);
    var u := StripJsonFence(t);
    assert |u| > 0 && u[0] == '`';
    var c := StripTrailingFence(u);
    assert c == [] || c[0] == '`';
    assert CleanResponseText(responseText) == c;
  }

  /** The serialised fallback passes through cleaning unchanged. */
  lemma FallbackTextIsClean()
    ensures CleanResponseText(FallbackText) == FallbackText
  {
    FallbackTextHasNoBacktick();
    AbsentFirstChar(FallbackText, JsonFence);
    CleanTextUnchanged(FallbackText);
  }

  lemma FallbackTextHasNoBacktick()
    ensures '`' !in FallbackText
    ensures Trimmed(FallbackText)
  {
  }

  /** Reconciling the serialised fallback gives the fallback back. */
  lemma FallbackRoundTrip(parse: string -> Option<JsonValue>)
    requires parse(FallbackText) == Some(FallbackResult)
    ensures Reconcile(parse, FallbackText) == FallbackResult
  {
    FallbackTextIsClean();
    ResultKeysAgree();
  }

  /** A trimmed text that opens with "```json" and ends in neither
      whitespace nor a backtick is cleaned to what follows the tag. */
  lemma TaggedTextCleansToRest(rest: string)
    requires |rest| > 0 && !IsWhitespace(rest[0])
    requires !IsWhitespace(rest[|rest| - 1]) && rest[|rest| - 1] != '`'
    ensures CleanResponseText(JsonFence + rest) == rest
  {
    var s := JsonFence + rest;
    assert s[0] == '`' && s[|s| - 1] == rest[|rest| - 1];
    TrimPadded([], s, []);
    assert [] + s + [] == s;
    LeadingJsonFenceRemoved([], rest);
    assert JsonFence + [] + rest == s;
    NoTrailingFence(rest);
  }

  /** Cleaning is not idempotent: only the first "```json" is removed, so a
      second pass removes the next one. */
  lemma CleaningNotIdempotent(rest: string)
    requires |rest| > 0 && !IsWhitespace(rest[0])
    requires !IsWhitespace(rest[|rest| - 1]) && rest[|rest| - 1] != '`'
    ensures CleanResponseText(JsonFence + (JsonFence + rest)) == JsonFence + rest
    ensures CleanResponseText(CleanResponseText(JsonFence + (JsonFence + rest))) == rest
  {
    var once := JsonFence + rest;
    assert once[0] == '`';
    assert once[|once| - 1] == rest[|rest| - 1];
    TaggedTextCleansToRest(once);
    TaggedTextCleansToRest(rest);
  }

  /** The tag pattern is not anchored: the first "```json" is removed, with
      the whitespace after it, wherever it stands. */
  lemma InnerJsonFenceRemoved(a: string, w: string, rest: string)
    requires '`' !in a
    requires Blank(w)
    requires rest == [] || !IsWhitespace(rest[0])
    ensures StripJsonFence(a + JsonFence + w + rest) == a + rest
  {
    var s := a + JsonFence + w + rest;
    var i := |a|;
    var j := |a| + |JsonFence| + |w|;
    assert s[i..i + |JsonFence|] == JsonFence;
    forall k | 0 <= k < i
      ensures !OccursAt(s, JsonFence, k)
    {
      assert s[k] == a[k];
      if k + |JsonFence| <= |s| {
        assert s[k..k + |JsonFence|][0] == s[k];
      }
    }
    assert forall k :: i + |JsonFence| <= k < j ==> s[k] == w[k - i - |JsonFence|];
    assert s[j..] == rest;
    assert j < |s| ==> s[j] == rest[0];
    assert JsonFenceMatch(s, i, j);
    assert s[..i] == a;
  }

  /** So a tag inside an unfenced response, say within a string value of the
      object, is cut out of the text that is parsed. */
  lemma TagInsideTextIsRemoved(a: string, w: string, rest: string)
    requires |a| > 0 && !IsWhitespace(a[0]) && '`' !in a
    requires Blank(w)
    requires |rest| > 0 && !IsWhitespace(rest[0])
    requires !IsWhitespace(rest[|rest| - 1]) && rest[|rest| - 1] != '`'
    ensures CleanResponseText(a + JsonFence + w + rest) == a + rest
  {
    var s := a + JsonFence + w + rest;
    assert s[0] == a[0] && s[|s| - 1] == rest[|rest| - 1];
    TrimPadded([], s, []);
    assert [] + s + [] == s;
    InnerJsonFenceRemoved(a, w, rest);
    NoTrailingFence(a + rest);
  }

  /** The required keys, the fallback's keys and the prompt's schema agree:
      the fallback and the prompt name the same six keys in the same order,
      and the required keys are those six without the transliteration. */
  lemma ResultKeysAgree()
    ensures |FallbackFields| == |ResultSchema|
    ensures forall i :: 0 <= i < |ResultSchema| ==> FallbackFields[i].0 == ResultSchema[i].key
    ensures RequiredFields == [ResultSchema[0].key, ResultSchema[1].key, ResultSchema[3].key,
                               ResultSchema[4].key, ResultSchema[5].key]
    ensures ResultSchema[2].key == "englishTransliteration"
    ensures HasRequiredFields(FallbackResult)
  {
  }

  // ---------------------------------------------------------------------
  // The request handler
  // ---------------------------------------------------------------------

  /** The inline audio part of the model request; its bytes travel as base64. */
  datatype InlineData = InlineData(data: seq<Byte>, mimeType: string)

  datatype ModelRequest = ModelRequest(prompt: string, audio: InlineData)

  /** The outcome of getModel, generateContent and response.text(): the text,
      or the message of the error one of them threw. */
  datatype ModelOutcome = ModelText(text: string) | ModelFailed(message: string)

  /** The reply sent, and the request made to the model, if one was made. */
  datatype Handled = Handled(reply: HttpReply, modelRequest: Option<ModelRequest>)

  const NoFileMessage: string := "No audio file provided"
  const ConfigErrorMessage: string := "API configuration error. Please check server setup."
  const TooLargeMessage: string := "File too large. Please upload an audio file smaller than 25MB."
  const AnalysisFailedMessage: string := "Failed to analyze audio. Please try again."

  /** The catch block of analyzeAudio: tests on the error message, in order. */
  function ClassifyFailure(message: string): (reply: HttpReply)
    ensures reply.body.Failed? && reply.status in {413, 500}
    ensures reply.status == 413 <==> !Includes(message, "API key") && Includes(message, "file size")
    ensures reply.body.error == ConfigErrorMessage <==> Includes(message, "API key")
    ensures reply.body.error == AnalysisFailedMessage
        <==> !Includes(message, "API key") && !Includes(message, "file size")
    ensures reply.body.error == ConfigErrorMessage ==> reply.status == 500
    ensures reply.status == 413 ==> reply.body.error == TooLargeMessage
  {
    if Includes(message, "API key") then HttpReply(500, Failed(ConfigErrorMessage))
    else if Includes(message, "file size") then HttpReply(413, Failed(TooLargeMessage))
    else HttpReply(500, Failed(AnalysisFailedMessage))
  }

  /** The model request built from the upload. */
  function RequestFor(file: UploadedFile): ModelRequest {
    ModelRequest(CreateAnalysisPrompt(), InlineData(file.buffer, file.mimetype))
  }

  /** analyzeAudio. `generate` stands for the model call, `processedAt` for
      the timestamp taken when the reply is built. */
  function AnalyzeAudio(parse: string -> Option<JsonValue>, file: Option<UploadedFile>,
                        generate: ModelRequest -> ModelOutcome, processedAt: string): (h: Handled)
    ensures file.None? ==> h == Handled(HttpReply(400, Failed(NoFileMessage)), None)
    ensures file.Some? ==> h.modelRequest == Some(RequestFor(file.value))
    ensures h.reply.status == 200 <==> h.reply.body.Succeeded?
    ensures h.reply.body.Succeeded? ==>
      && file.Some?
      && generate(RequestFor(file.value)).ModelText?
      && h.reply.body.data == Reconcile(parse, generate(RequestFor(file.value)).text)
      && h.reply.body.metadata.fileName == file.value.originalname
      && h.reply.body.metadata.fileSize == file.value.size
      && h.reply.body.metadata.mimeType == file.value.mimetype
      && h.reply.body.metadata.processedAt == processedAt
    ensures file.Some? && generate(RequestFor(file.value)).ModelText? ==> h.reply.body.Succeeded?
    ensures file.Some? && generate(RequestFor(file.value)).ModelFailed? ==>
      h.reply == ClassifyFailure(generate(RequestFor(file.value)).message)
  {
    match file
    case None => Handled(HttpReply(400, Failed(NoFileMessage)), None)
    case Some(f) =>
      var request := RequestFor(f);
      match generate(request)
      case ModelFailed(message) => Handled(ClassifyFailure(message), Some(request))
      case ModelText(text) =>
        var metadata := Metadata(f.originalname, f.size, f.mimetype, processedAt);
        Handled(HttpReply(200, Succeeded(Reconcile(parse, text), metadata)), Some(request))
  }

  /** Text the model returns that is not JSON never becomes an error reply:
      the client still gets 200 and the fallback. */
  lemma UnparseableModelTextStillSucceeds(parse: string -> Option<JsonValue>, file: UploadedFile,
                                          generate: ModelRequest -> ModelOutcome, processedAt: string)
    requires generate(RequestFor(file)).ModelText?
    requires parse(CleanResponseText(generate(RequestFor(file)).text)).None?
    ensures AnalyzeAudio(parse, Some(file), generate, processedAt).reply ==
      HttpReply(200, Succeeded(FallbackResult, Metadata(file.originalname, file.size, file.mimetype, processedAt)))
  {
  }

  /** Every reply of the handler is well formed. */
  lemma AnalyzeAudioRepliesWellFormed(parse: string -> Option<JsonValue>, file: Option<UploadedFile>,
                                      generate: ModelRequest -> ModelOutcome, processedAt: string)
    ensures WellFormedReply(AnalyzeAudio(parse, file, generate, processedAt).reply)
  {
  }
}
