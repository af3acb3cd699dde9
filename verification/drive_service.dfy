/** The blob-store client: preview and download URLs of a stored file, and the
    multipart upload request (section 5.1.1 of RFC 2046 for the boundary
    delimiters, RFC 2387 for `multipart/related`) with its error mapping. The
    file's base64 content and the HTTP reply are parameters. */
module DriveService {
  import opened Base
  import opened Strings
  import opened Types

  /** The fixed multipart boundary. */
  const Boundary: string := "-------314159265358979323846"

  /** The delimiter opening each body part: CRLF, two hyphens, the boundary, CRLF. */
  const Delimiter: string := "\r\n--" + Boundary + "\r\n"

  /** The close delimiter ending the body: CRLF, two hyphens, the boundary, two hyphens. */
  const CloseDelimiter: string := "\r\n--" + Boundary + "--"

  /** Header of the metadata part. */
  const JsonPartHeader: string := "Content-Type: application/json; charset=UTF-8\r\n\r\n"

  const UploadEndpoint: string := "https://www.googleapis.com/upload/drive/v3/files?uploadType=multipart&key="

  const ConfigMissingMessage: string :=
    "Google Drive configuration missing (Folder ID or API Key). Check Configuration tab."

  const AccessDeniedMessage: string :=
    "Access Denied: Google Drive API Keys can usually only READ public data. For UPLOADS, ensure your API Key has the correct permissions or the folder is set to 'Anyone with link can EDIT'."

  const PreviewPrefix: string := "https://drive.google.com/thumbnail?id="
  const PreviewSuffix: string := "&sz=w1000"
  const DownloadPrefix: string := "https://drive.google.com/uc?export=download&id="

  /** `getDrivePreviewUrl`: empty for an empty id, otherwise the thumbnail URL wrapping the id. */
  function PreviewUrl(fileId: string): (url: string)
    ensures fileId == "" <==> url == ""
    ensures fileId != "" ==>
      && |url| == |PreviewPrefix| + |fileId| + |PreviewSuffix|
      && url[..|PreviewPrefix|] == PreviewPrefix
      && url[|PreviewPrefix|..|PreviewPrefix| + |fileId|] == fileId
      && url[|PreviewPrefix| + |fileId|..] == PreviewSuffix
  {
    if fileId == "" then "" else PreviewPrefix + fileId + PreviewSuffix
  }

  /** `getDriveDownloadUrl`: empty for an empty id, otherwise the download URL ending in the id. */
  function DownloadUrl(fileId: string): (url: string)
    ensures fileId == "" <==> url == ""
    ensures fileId != "" ==>
      |url| == |DownloadPrefix| + |fileId| && url[..|DownloadPrefix|] == DownloadPrefix
      && url[|DownloadPrefix|..] == fileId
  {
    if fileId == "" then "" else DownloadPrefix + fileId
  }

  /** Distinct files get distinct preview URLs. */
  lemma PreviewUrlInjective(a: string, b: string)
    requires PreviewUrl(a) == PreviewUrl(b)
    ensures a == b
  {
    if a != "" {
      var u := PreviewUrl(a);
      assert b != "";
      assert |a| == |b|;
      assert a == u[|PreviewPrefix|..|PreviewPrefix| + |a|] == b;
    }
  }

  /** Distinct files get distinct download URLs. */
  lemma DownloadUrlInjective(a: string, b: string)
    requires DownloadUrl(a) == DownloadUrl(b)
    ensures a == b
  {
    if a != "" {
      var u := DownloadUrl(a);
      assert a == u[|DownloadPrefix|..] == b;
    }
  }

  /** A lower-case hexadecimal digit. */
  function HexDigit(d: nat): (c: char)
    requires d < 16
    ensures IsHex(c)
  {
    if d < 10 then ('0' as int + d) as char else ('a' as int + d - 10) as char
  }

  predicate IsHex(c: char) {
    ('0' <= c <= '9') || ('a' <= c <= 'f')
  }

  function HexValue(c: char): (d: nat)
    requires IsHex(c)
    ensures d < 16
  {
    if '0' <= c <= '9' then (c as int - '0' as int) as nat else (c as int - 'a' as int + 10) as nat
  }

  /** How `JSON.stringify` writes one character inside a string literal. */
  function EscapeChar(c: char): (e: string)
    ensures '\r' !in e && '\n' !in e
  {
    if c == '"' then "\\\""
    else if c == '\\' then "\\\\"
    else if c == '\U{0008}' then "\\b"
    else if c == '\t' then "\\t"
    else if c == '\n' then "\\n"
    else if c == '\U{000C}' then "\\f"
    else if c == '\r' then "\\r"
    else if c < ' ' then "\\u00" + [HexDigit(c as int / 16), HexDigit(c as int % 16)]
    else [c]
  }

  /** The escaped characters of a string literal, without the quotes. */
  function EscapeBody(s: string): (t: string)
    ensures '\r' !in t && '\n' !in t
  {
    if s == [] then [] else EscapeChar(s[0]) + EscapeBody(s[1..])
  }

  /** Neither a carriage return nor a line feed occurs in `s`. */
  predicate NoLineBreak(s: string) {
    '\r' !in s && '\n' !in s
  }

  lemma NoLineBreakConcat(a: string, b: string)
    requires NoLineBreak(a) && NoLineBreak(b)
    ensures NoLineBreak(a + b)
  {
  }

  /** `JSON.stringify` of a string. */
  function JsonString(s: string): (json: string)
    ensures NoLineBreak(json)
  {
    var quote := "\"";
    NoLineBreakConcat(quote, EscapeBody(s));
    NoLineBreakConcat(quote + EscapeBody(s), quote);
    quote + EscapeBody(s) + quote
  }

  /** The character an escape `\k` stands for. */
  function Unescaped(k: char): char {
    if k == 'b' then '\U{0008}'
    else if k == 't' then '\t'
    else if k == 'n' then '\n'
    else if k == 'f' then '\U{000C}'
    else if k == 'r' then '\r'
    else k
  }

  /** The character escaped text starts with, and how many characters its escape takes (the
      escapes `EscapeChar` writes; any other character stands for itself). */
  function EscapeAt(t: string): (e: (char, nat))
    requires t != []
    ensures 1 <= e.1 <= |t|
  {
    if t[0] == '\\' && |t| >= 6 && t[1] == 'u' && t[2] == '0' && t[3] == '0' && IsHex(t[4]) && IsHex(t[5]) then
      ((16 * HexValue(t[4]) + HexValue(t[5])) as char, 6)
    else if t[0] == '\\' && |t| >= 2 then (Unescaped(t[1]), 2)
    else (t[0], 1)
  }

  /** Reads escaped text back into the characters it denotes. */
  function Unescape(t: string): string
    decreases |t|
  {
    if t == [] then [] else var e := EscapeAt(t); [e.0] + Unescape(t[e.1..])
  }

  /** A control character without a short escape: written as `\u00XX`. */
  predicate NeedsHexEscape(c: char) {
    c < ' ' && c != '\U{0008}' && c != '\t' && c != '\n' && c != '\U{000C}' && c != '\r'
  }

  /** A character written as a backslash and one letter. */
  predicate NeedsShortEscape(c: char) {
    c == '"' || c == '\\' || c == '\U{0008}' || c == '\t' || c == '\n' || c == '\U{000C}' || c == '\r'
  }

  /** Reading back a hexadecimal escape. */
  lemma EscapeAtHex(c: char, rest: string)
    requires NeedsHexEscape(c)
    ensures EscapeAt(EscapeChar(c) + rest) == (c, 6)
  {
    var hi := c as int / 16;
    var lo := c as int % 16;
    assert EscapeChar(c) == "\\u00" + [HexDigit(hi), HexDigit(lo)];
    var t := EscapeChar(c) + rest;
    assert t[..6] == ['\\', 'u', '0', '0', HexDigit(hi), HexDigit(lo)];
    assert HexValue(HexDigit(hi)) == hi && HexValue(HexDigit(lo)) == lo;
  }

  /** Reading back a two-character escape. */
  lemma EscapeAtShort(c: char, rest: string)
    requires NeedsShortEscape(c)
    ensures EscapeAt(EscapeChar(c) + rest) == (c, 2)
  {
    assert |EscapeChar(c)| == 2 && EscapeChar(c)[0] == '\\' && EscapeChar(c)[1] != 'u';
    assert Unescaped(EscapeChar(c)[1]) == c;
  }

  /** Escaped text that starts with the escape of `c` denotes `c` first, through exactly that
      escape; and it does not start with a bare quote, so it never ends a literal early. */
  lemma EscapeAtChar(c: char, rest: string)
    ensures EscapeAt(EscapeChar(c) + rest) == (c, |EscapeChar(c)|)
    ensures (EscapeChar(c) + rest)[0] != '"'
  {
    if NeedsHexEscape(c) {
      EscapeAtHex(c, rest);
    } else if NeedsShortEscape(c) {
      EscapeAtShort(c, rest);
    } else {
      assert EscapeChar(c) == [c];
    }
  }

  /** Reading back one escaped character. */
  lemma UnescapeChar(c: char, rest: string)
    ensures Unescape(EscapeChar(c) + rest) == [c] + Unescape(rest)
  {
    EscapeAtChar(c, rest);
    assert (EscapeChar(c) + rest)[|EscapeChar(c)|..] == rest;
  }

  /** Reading back the escaped text of a string gives the string again. */
  lemma {:induction false} UnescapeEscapeBody(s: string)
    ensures Unescape(EscapeBody(s)) == s
  {
    if s != [] {
      UnescapeChar(s[0], EscapeBody(s[1..]));
      UnescapeEscapeBody(s[1..]);
      assert [s[0]] + s[1..] == s;
    }
  }

  /** The upload's metadata `{name, parents: [folderId], mimeType}`. */
  datatype DriveMetadata = DriveMetadata(name: string, parent: string, mimeType: string)

  function Metadata(file: LocalFile, folderId: string): DriveMetadata {
    DriveMetadata(file.name, folderId, file.mimeType)
  }

  const NameKey: string := "{\"name\":"
  const ParentsKey: string := ",\"parents\":["
  const MimeTypeKey: string := "],\"mimeType\":"
  const ObjectClose: string := "}"

  /** `JSON.stringify(metadata)`, with the keys in declaration order. */
  function MetadataJson(m: DriveMetadata): (json: string)
    ensures NoLineBreak(json)
  {
    assert NoLineBreak(NameKey) && NoLineBreak(ParentsKey) && NoLineBreak(MimeTypeKey) && NoLineBreak(ObjectClose);
    var a := NameKey + JsonString(m.name);
    NoLineBreakConcat(NameKey, JsonString(m.name));
    var b := a + ParentsKey;
    NoLineBreakConcat(a, ParentsKey);
    var c := b + JsonString(m.parent);
    NoLineBreakConcat(b, JsonString(m.parent));
    var d := c + MimeTypeKey;
    NoLineBreakConcat(c, MimeTypeKey);
    var e := d + JsonString(m.mimeType);
    NoLineBreakConcat(d, JsonString(m.mimeType));
    NoLineBreakConcat(e, ObjectClose);
    e + ObjectClose
  }

  /** Reads a string literal's body up to its closing quote: the characters it denotes and the
      text after the quote; none when no closing quote comes. */
  function ReadLiteral(t: string): Option<(string, string)>
    decreases |t|
  {
    if t == [] then None
    else if t[0] == '"' then Some(([], t[1..]))
    else
      var e := EscapeAt(t);
      match ReadLiteral(t[e.1..])
      case None => None
      case Some(p) => Some(([e.0] + p.0, p.1))
  }

  /** The escaped text of a string followed by a quote reads back as that string, and reading
      stops right after the quote. */
  lemma {:induction false} ReadLiteralOfEscaped(s: string, rest: string)
    ensures ReadLiteral(EscapeBody(s) + "\"" + rest) == Some((s, rest))
    decreases |s|
  {
    var t := EscapeBody(s) + "\"" + rest;
    if s == [] {
      assert t == "\"" + rest;
      assert t[1..] == rest;
    } else {
      var tail := EscapeBody(s[1..]) + "\"" + rest;
      assert t == EscapeChar(s[0]) + tail;
      EscapeAtChar(s[0], tail);
      assert t[|EscapeChar(s[0])|..] == tail;
      ReadLiteralOfEscaped(s[1..], rest);
      assert [s[0]] + s[1..] == s;
    }
  }

  /** Reads the quoted string that follows `key` at the start of `t`: its value and the text
      after it. */
  function ReadField(t: string, key: string): Option<(string, string)> {
    if StartsWith(t, key + "\"") then ReadLiteral(t[|key| + 1..]) else None
  }

  lemma ReadFieldOf(key: string, s: string, rest: string)
    ensures ReadField(key + JsonString(s) + rest, key) == Some((s, rest))
  {
    var t := key + JsonString(s) + rest;
    assert t == (key + "\"") + (EscapeBody(s) + "\"" + rest);
    assert t[|key| + 1..] == EscapeBody(s) + "\"" + rest;
    ReadLiteralOfEscaped(s, rest);
  }

  /** Reads the name, the parent folder and the MIME type back out of metadata JSON. */
  function ParseMetadata(json: string): Option<DriveMetadata> {
    match ReadField(json, NameKey)
    case None => None
    case Some(name) =>
      match ReadField(name.1, ParentsKey)
      case None => None
      case Some(parent) =>
        match ReadField(parent.1, MimeTypeKey)
        case None => None
        case Some(mime) => if mime.1 == ObjectClose then Some(DriveMetadata(name.0, parent.0, mime.0)) else None
  }

  /** The metadata JSON as three key-and-value pieces, each followed by the rest of the text. */
  lemma MetadataJsonShape(m: DriveMetadata)
    ensures MetadataJson(m) ==
      NameKey + JsonString(m.name) + (ParentsKey + JsonString(m.parent) + (MimeTypeKey + JsonString(m.mimeType) + ObjectClose))
  {
  }

  /** The metadata JSON carries the file name, the folder id and the MIME type, and they read
      back exactly. */
  lemma MetadataJsonReadBack(m: DriveMetadata)
    ensures ParseMetadata(MetadataJson(m)) == Some(m)
  {
    var r2 := MimeTypeKey + JsonString(m.mimeType) + ObjectClose;
    var r1 := ParentsKey + JsonString(m.parent) + r2;
    MetadataJsonShape(m);
    ReadFieldOf(NameKey, m.name, r1);
    ReadFieldOf(ParentsKey, m.parent, r2);
    ReadFieldOf(MimeTypeKey, m.mimeType, ObjectClose);
  }

  /** Different metadata never gives the same JSON. */
  lemma MetadataJsonInjective(m: DriveMetadata, m': DriveMetadata)
    requires MetadataJson(m) == MetadataJson(m')
    ensures m == m'
  {
    MetadataJsonReadBack(m);
    MetadataJsonReadBack(m');
  }

  /** Header of the media part. */
  function MediaPartHeader(mimeType: string): string {
    "Content-Type: " + mimeType + "\r\n" + "Content-Transfer-Encoding: base64\r\n\r\n"
  }

  /** The request body: delimiter, metadata part, delimiter, media part, close delimiter. */
  function MultipartBody(file: LocalFile, folderId: string, base64: string): string {
    MetadataPartHead() + MetadataJson(Metadata(file, folderId)) + MediaPartHead(file.mimeType) + base64 + CloseDelimiter
  }

  /** The opening delimiter and the metadata part's header. */
  function MetadataPartHead(): string {
    Delimiter + JsonPartHeader
  }

  /** The delimiter and the media part's header. */
  function MediaPartHead(mimeType: string): string {
    Delimiter + MediaPartHeader(mimeType)
  }

  /** The body opens with the delimiter and ends with the close delimiter; the metadata JSON
      follows the first part's header, and the file's data comes right before the close
      delimiter. */
  lemma MultipartLayout(file: LocalFile, folderId: string, base64: string)
    ensures var body := MultipartBody(file, folderId, base64);
      && StartsWith(body, Delimiter)
      && |body| >= |CloseDelimiter| && body[|body| - |CloseDelimiter|..] == CloseDelimiter
      && OccursAt(body, MetadataJson(Metadata(file, folderId)), |Delimiter| + |JsonPartHeader|)
      && OccursAt(body, base64, |body| - |CloseDelimiter| - |base64|)
  {
    var head := MetadataPartHead();
    LayoutOfFive(head, MetadataJson(Metadata(file, folderId)), MediaPartHead(file.mimeType), base64, CloseDelimiter);
    assert head[..|Delimiter|] == Delimiter;
  }

  /** Where each of five concatenated pieces sits. */
  lemma LayoutOfFive(a: string, b: string, c: string, d: string, e: string)
    ensures var s := a + b + c + d + e;
      && s[..|a|] == a
      && s[|a|..|a| + |b|] == b
      && s[|s| - |e| - |d|..|s| - |e|] == d
      && s[|s| - |e|..] == e
  {
  }

  /** A JSON text contains no line break, so no delimiter (which begins with CRLF) fits inside the
      metadata part; the same holds for the base64 data. The parts can therefore never be cut
      short by their own content. */
  lemma DelimiterNeverInsideParts(m: DriveMetadata, base64: string)
    requires forall i :: 0 <= i < |base64| ==> IsBase64Char(base64[i])
    ensures forall i :: !OccursAt(MetadataJson(m), Delimiter, i)
    ensures forall i :: !OccursAt(base64, Delimiter, i)
  {
    assert Delimiter[0] == '\r';
  }

  /** The base64 alphabet with padding. */
  predicate IsBase64Char(c: char) {
    ('A' <= c <= 'Z') || ('a' <= c <= 'z') || ('0' <= c <= '9') || c == '+' || c == '/' || c == '='
  }

  /** The POST sent to the upload endpoint. */
  datatype UploadRequest = UploadRequest(url: string, contentType: string, body: string)

  /** The JSON of a reply as far as it is read: `result.id` and `error.error?.message`. */
  datatype ReplyBody = Unparsable | Json(id: Option<string>, errorMessage: Option<string>)

  /** `fetch` either rejects or yields a status and a body. */
  datatype DriveReply = NetworkFailure | Response(status: nat, body: ReplyBody)

  /** Why an upload failed. */
  datatype DriveError =
    | ConfigMissing          // thrown before anything is read or sent
    | ReadFailed             // the FileReader rejected
    | FetchFailed            // fetch rejected
    | AccessDenied           // status 401 or 403
    | ApiFailure(message: string)
    | MalformedReply         // a 2xx reply whose JSON cannot be read or has no id

  datatype DriveUpload = DriveUpload(request: Option<UploadRequest>, outcome: Result<string, DriveError>)

  /** `response.ok`. */
  predicate IsOk(status: nat) {
    200 <= status <= 299
  }

  /** The message of a failed upload other than 401/403: the API's message when there is one;
      an unreadable body reads as "Unknown error"; otherwise the status is reported. */
  function ApiErrorMessage(status: nat, body: ReplyBody): (msg: string)
    ensures body.Unparsable? ==> msg == "Unknown error"
    ensures body.Json? && Truthy(body.errorMessage) ==> msg == body.errorMessage.value
    ensures body.Json? && !Truthy(body.errorMessage) ==>
      && StartsWith(msg, "Upload failed (") && OccursAt(msg, NatToString(status), 15) && msg[|msg| - 1] == ')'
      && |msg| == 16 + |NatToString(status)|
  {
    match body
    case Unparsable => "Unknown error"
    case Json(_, message) =>
      if Truthy(message) then message.value
      else "Upload failed (" + NatToString(status) + ")"
  }

  /** `uploadFileToDrive`: refuse without a folder id and an API key, read the file, send the
      multipart request, and map the reply to the new file's id or an error. */
  function UploadFileToDrive(file: LocalFile, config: StorageConfig, read: Option<string>, reply: DriveReply): (r: DriveUpload)
    ensures !Truthy(config.folderId) || !Truthy(config.apiKey) ==> r == DriveUpload(None, Failure(ConfigMissing))
    ensures Truthy(config.folderId) && Truthy(config.apiKey) && read.None? ==> r == DriveUpload(None, Failure(ReadFailed))
    ensures r.request.Some? <==> Truthy(config.folderId) && Truthy(config.apiKey) && read.Some?
    ensures r.request.Some? ==>
      && r.request.value.url == UploadEndpoint + config.apiKey.value
      && r.request.value.contentType == "multipart/related; boundary=" + Boundary
      && r.request.value.body == MultipartBody(file, config.folderId.value, read.value)
    ensures r.outcome.Success? <==>
      r.request.Some? && reply.Response? && IsOk(reply.status) && reply.body.Json? && reply.body.id.Some?
    ensures r.outcome.Success? ==> r.outcome.value == reply.body.id.value
    ensures r.request.Some? && reply.NetworkFailure? ==> r.outcome == Failure(FetchFailed)
    ensures r.request.Some? && reply.Response? && (reply.status == 401 || reply.status == 403) ==>
      r.outcome == Failure(AccessDenied)
    ensures r.request.Some? && reply.Response? && !IsOk(reply.status) && reply.status != 401 && reply.status != 403 ==>
      r.outcome == Failure(ApiFailure(ApiErrorMessage(reply.status, reply.body)))
  {
    if !Truthy(config.folderId) || !Truthy(config.apiKey) then DriveUpload(None, Failure(ConfigMissing))
    else if read.None? then DriveUpload(None, Failure(ReadFailed))
    else
      var request := UploadRequest(UploadEndpoint + config.apiKey.value, "multipart/related; boundary=" + Boundary,
                                   MultipartBody(file, config.folderId.value, read.value));
      match reply
      case NetworkFailure => DriveUpload(Some(request), Failure(FetchFailed))
      case Response(status, body) =>
        if !IsOk(status) then
          if status == 401 || status == 403 then DriveUpload(Some(request), Failure(AccessDenied))
          else DriveUpload(Some(request), Failure(ApiFailure(ApiErrorMessage(status, body))))
        else if body.Json? && body.id.Some? then DriveUpload(Some(request), Success(body.id.value))
        else DriveUpload(Some(request), Failure(MalformedReply))
  }
}
