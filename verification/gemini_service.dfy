/** The image-analysis adapter: a supported-type guard, one call to the
    vision model, and fallbacks that keep the upload flow going whatever the
    model does. The model's reply and the parse of its text are parameters. */
module GeminiService {
  import opened Base
  import opened Strings

  const ImagePrefix: string := "image/"

  /** The image types the model accepts inline. */
  const SupportedImageMimes: seq<string> :=
    [ImagePrefix + "png", ImagePrefix + "jpeg", ImagePrefix + "webp", ImagePrefix + "heic", ImagePrefix + "heif"]

  const FallbackDescription: string := "Shared media upload"

  const ModelName: string := "gemini-3-flash-preview"

  const Prompt: string :=
    "Describe this image briefly (max 15 words) and provide 3 relevant one-word tags for a photo gallery."

  /** `{description, tags}` as the model's JSON schema requires it. */
  datatype AiMetadata = AiMetadata(description: string, tags: seq<string>)

  /** The answer for a type the model is not asked about. */
  const UnsupportedFallback: AiMetadata := AiMetadata(FallbackDescription, ["Gallery", "File"])

  /** The answer when the call or its reply fails. */
  const FailureFallback: AiMetadata := AiMetadata(FallbackDescription, ["Gallery"])

  /** The content-generation call: model, inline data and its type, and the prompt. */
  datatype AiRequest = AiRequest(model: string, data: string, mimeType: string, prompt: string)

  /** What the call produced: an exception, or the reply's `text` (possibly absent) together with
      what `JSON.parse` makes of its trimmed form (`None` when it throws). */
  datatype GeminiReply = CallFailed | Answered(text: Option<string>, parsed: Option<AiMetadata>)

  datatype Analysis = Analysis(metadata: AiMetadata, request: Option<AiRequest>)

  /** `analyzeMedia`: unsupported types get the two-tag fallback without a call; a failed call, a
      missing or blank text, or unparsable text gets the one-tag fallback; otherwise the parsed
      answer. It never fails. */
  function AnalyzeMedia(base64: string, mimeType: string, reply: GeminiReply): (a: Analysis)
    ensures a.request.None? <==> mimeType !in SupportedImageMimes
    ensures mimeType !in SupportedImageMimes ==> a.metadata == UnsupportedFallback
    ensures a.request.Some? ==> a.request.value == AiRequest(ModelName, base64, mimeType, Prompt)
    ensures mimeType in SupportedImageMimes ==>
      a.metadata == (if reply.Answered? && reply.text.Some? && Trim(reply.text.value) != "" && reply.parsed.Some?
                     then reply.parsed.value else FailureFallback)
  {
    if mimeType !in SupportedImageMimes then Analysis(UnsupportedFallback, None)
    else
      var request := AiRequest(ModelName, base64, mimeType, Prompt);
      match reply
      case CallFailed => Analysis(FailureFallback, Some(request))
      case Answered(text, parsed) =>
        if text.None? || Trim(text.value) == "" then Analysis(FailureFallback, Some(request))
        else if parsed.None? then Analysis(FailureFallback, Some(request))
        else Analysis(parsed.value, Some(request))
  }

  /** Only image types ever reach the model. */
  lemma OnlyImagesReachModel(base64: string, mimeType: string, reply: GeminiReply)
    requires AnalyzeMedia(base64, mimeType, reply).request.Some?
    ensures StartsWith(mimeType, "image/")
  {
    var i :| 0 <= i < |SupportedImageMimes| && SupportedImageMimes[i] == mimeType;
    var sub := if i == 0 then "png" else if i == 1 then "jpeg" else if i == 2 then "webp"
               else if i == 3 then "heic" else "heif";
    assert mimeType == ImagePrefix + sub;
    assert mimeType[..|ImagePrefix|] == ImagePrefix;
  }

  /** A reply whose text is only whitespace is treated like a failed call. */
  lemma BlankAnswerFallsBack(base64: string, mimeType: string, text: string, parsed: Option<AiMetadata>)
    requires mimeType in SupportedImageMimes
    requires Blank(text)
    ensures AnalyzeMedia(base64, mimeType, Answered(Some(text), parsed)).metadata == FailureFallback
  {
    TrimEmptyIffBlank(text);
  }
}
