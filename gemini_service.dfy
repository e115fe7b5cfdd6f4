/**
 * The service layer (services/geminiService.ts): it assembles the ordered
 * `parts` payload for text and image generation, normalises the replies of
 * the generation API and maps failures to fixed messages, and forwards the
 * chunks of a streamed chat.
 *
 * The API itself is not modelled: each call's reply (or its rejection) and
 * each stream's chunks are inputs of the methods below.
 */
module GeminiService {
  import opened Wrappers
  import opened Strings
  import opened Types
  import Constants

  // ---------------------------------------------------------------------
  // Inputs and outputs

  /**
   * A browser `File` as the FileReader sees it: its declared MIME type and the
   * data URL that `readAsDataURL` produces, or None when the reader reports an
   * error.
   */
  datatype File = File(mimeType: string, dataUrl: Option<string>)

  /** One element of the `parts` array; a None `data` is JavaScript's `undefined`. */
  datatype Part = InlinePart(data: Option<string>, mimeType: string) | TextPart(text: string)

  /** `usageMetadata` as the API reports it; each count may be missing. */
  datatype UsageMetadata = UsageMetadata(
    promptTokenCount: Option<int>, candidatesTokenCount: Option<int>, totalTokenCount: Option<int>)

  /** The reply of the text endpoint: `response.text` and `response.usageMetadata`. */
  datatype TextResponse = TextResponse(text: Option<string>, usageMetadata: Option<UsageMetadata>)

  /** An `inlineData` blob of a response part. */
  datatype Blob = Blob(data: Option<string>, mimeType: string)

  /** A response part; only its `inlineData` matters here. */
  datatype ResponsePart = ResponsePart(inlineData: Option<Blob>)

  /** `candidate.content`, whose `parts` may be missing. */
  datatype Content = Content(parts: Option<seq<ResponsePart>>)

  /** One response candidate, whose `content` may be missing. */
  datatype Candidate = Candidate(content: Option<Content>)

  /** The reply of the image endpoint. */
  datatype ImageResponse = ImageResponse(candidates: Option<seq<Candidate>>, usageMetadata: Option<UsageMetadata>)

  /** An awaited API call: it resolves with a reply or rejects with an error whose `message` may be missing. */
  datatype ApiReply<T> = Replied(response: T) | Rejected(message: Option<string>)

  /** What a service function resolves to. */
  datatype ServiceResponse = ServiceResponse(content: string, usage: Option<TokenUsage>)

  /** A service call either resolves or throws an `Error` with a message. */
  datatype ServiceResult = Resolved(response: ServiceResponse) | Thrown(message: string)

  /** Chat roles. */
  datatype Role = User | Model

  /** One history entry handed to `streamChat`: a role name and its text parts. */
  datatype HistoryEntry = HistoryEntry(role: string, parts: seq<string>)

  /** One entry of the `contents` the chat endpoint receives. */
  datatype ApiContent = ApiContent(role: Role, parts: seq<string>)

  /**
   * The async sequence of chunks a chat stream yields (`chunk.text`, possibly
   * undefined), and whether the stream rejects after the last of them (a
   * stream that rejects at once has no chunks).
   */
  datatype ChatStream = ChatStream(chunks: seq<Option<string>>, fails: bool)

  // ---------------------------------------------------------------------
  // Fixed strings

  const TextFailureMessage := "Metin üretilemedi."
  const EmptyTextFallback := "İçerik üretilemedi."
  const DefaultTextRequest := "Can Kuruyemiş için genel bir paylaşım."
  const NoImageMessage := "Görsel oluşturulamadı."
  const ImageFailureMessage := "Görsel üretim hatası."
  const DefaultAdSubject := "Mixed nuts arrangement"
  const PngDataUrlPrefix := "data:image/png;base64,"
  const TextRequestLead := "Kullanıcının isteği: "
  const ToneLead := "\n\nYazım Stili (TONE): "
  const EnhanceLead := "Professional enhancement of this food photo. Focus on nuts texture and warmth. "
  const AdvertisementLead := "Stunning professional advertising photography for a nut shop: "

  /** A template literal renders `undefined` as the word "undefined". */
  function Interpolate(s: Option<string>): string {
    s.GetOr("undefined")
  }

  /** The JavaScript truthiness of a possibly undefined string. */
  predicate Truthy(s: Option<string>) {
    s.Some? && s.value != ""
  }

  // ---------------------------------------------------------------------
  // Data URLs

  /** `pieces[i]`, undefined past the end. */
  function Piece(pieces: seq<string>, i: nat): (r: Option<string>)
    ensures r.Some? <==> i < |pieces|
  {
    if i < |pieces| then Some(pieces[i]) else None
  }

  /** The characters the regular-expression `.` does not match. */
  predicate IsLineTerminator(c: char) {
    c == '\n' || c == '\r' || c == '\U{2028}' || c == '\U{2029}'
  }

  /**
   * The lazy `(.*?);` from the start of `t`: the shortest prefix followed by
   * ';', which may not cross a line terminator.
   */
  function UpToSemicolon(t: string): (r: Option<string>)
    ensures r.Some? ==> |r.value| < |t| && r.value == t[..|r.value|] && t[|r.value|] == ';'
    ensures r.Some? ==> forall i :: 0 <= i < |r.value| ==> r.value[i] != ';' && !IsLineTerminator(r.value[i])
  {
    if |t| == 0 then None
    else if t[0] == ';' then Some("")
    else if IsLineTerminator(t[0]) then None
    else
      match UpToSemicolon(t[1..])
      case None => None
      case Some(m) => Some([t[0]] + m)
  }

  /** The expression `:(.*?);` matches at index `i` of `s`. */
  predicate MatchesAt(s: string, i: nat) {
    i < |s| && s[i] == ':' && UpToSemicolon(s[i + 1..]).Some?
  }

  /** A match after the first character is a match in the rest, with the same group. */
  lemma MatchesAtShift(s: string, i: nat)
    requires |s| > 0
    ensures MatchesAt(s, i + 1) <==> MatchesAt(s[1..], i)
    ensures i + 1 < |s| ==> s[1..][i + 1..] == s[i + 2..]
  {
    if i + 1 < |s| {
      assert s[1..][i] == s[i + 1];
      assert s[1..][i + 1..] == s[i + 2..];
    }
  }

  /** One step of the scan: no match at index 0, so the match is the one in the rest, shifted. */
  lemma MimeMatchStep(s: string, r: Option<string>)
    requires |s| > 0 && !MatchesAt(s, 0)
    requires r.None? <==> forall i: nat :: !MatchesAt(s[1..], i)
    requires r.Some? ==> exists i: nat :: MatchesAt(s[1..], i) && r == UpToSemicolon(s[1..][i + 1..])
                                         && forall j: nat :: j < i ==> !MatchesAt(s[1..], j)
    ensures r.None? <==> forall i: nat :: !MatchesAt(s, i)
    ensures r.Some? ==> exists i: nat :: MatchesAt(s, i) && r == UpToSemicolon(s[i + 1..])
                                         && forall j: nat :: j < i ==> !MatchesAt(s, j)
  {
    if r.None? {
      forall i: nat ensures !MatchesAt(s, i) {
        if i > 0 {
          MatchesAtShift(s, i - 1);
        }
      }
    } else {
      var i: nat :| MatchesAt(s[1..], i) && r == UpToSemicolon(s[1..][i + 1..])
                   && forall j: nat :: j < i ==> !MatchesAt(s[1..], j);
      MatchesAtShift(s, i);
      forall j: nat | j < i + 1 ensures !MatchesAt(s, j) {
        if j > 0 {
          MatchesAtShift(s, j - 1);
        }
      }
      assert MatchesAt(s, i + 1) && r == UpToSemicolon(s[i + 2..]);
    }
  }

  /**
   * Group 1 of `s.match(/:(.*?);/)`: the expression is tried at each index
   * from the left and matches at the first ':' from which a ';' is reached.
   */
  function MimeMatch(s: string): (r: Option<string>)
    ensures r.None? <==> forall i: nat :: !MatchesAt(s, i)
    ensures r.Some? ==> exists i: nat :: MatchesAt(s, i) && r == UpToSemicolon(s[i + 1..])
                                         && forall j: nat :: j < i ==> !MatchesAt(s, j)
  {
    if |s| == 0 then None
    else if s[0] == ':' && UpToSemicolon(s[1..]).Some? then
      assert MatchesAt(s, 0);
      UpToSemicolon(s[1..])
    else
      var r := MimeMatch(s[1..]);
      MimeMatchStep(s, r);
      r
  }

  /**
   * `base64ToPart`: the MIME type from the segment before the first comma, the
   * data after it. There is data exactly when the text has a comma, and the
   * data holds no comma itself.
   */
  function Base64ToPart(base64String: string): (r: Part)
    ensures r.InlinePart?
    ensures r.data.None? <==> !Contains(base64String, ",")
    ensures r.data.Some? ==> !Contains(r.data.value, ",")
  {
    var pieces := Split(base64String, ",");
    SplitSingleIffAbsent(base64String, ",");
    SplitPiecesAvoidSeparator(base64String, ",");
    InlinePart(Piece(pieces, 1), MimeMatch(pieces[0]).GetOr("image/png"))
  }

  /** The data URL of a payload: "data:<mime>;base64,<payload>". */
  function DataUrl(mime: string, payload: string): string {
    "data:" + mime + ";base64," + payload
  }

  /** The part `fileToPart` resolves to, or None when the reader rejects. */
  function FileToPart(file: File): (r: Option<Part>)
    ensures r.Some? <==> file.dataUrl.Some?
    ensures r.Some? ==> r.value.InlinePart? && r.value.mimeType == file.mimeType
  {
    match file.dataUrl
    case None => None
    case Some(url) => Some(InlinePart(Piece(Split(url, ","), 1), file.mimeType))
  }

  /** A string with no ',' splits on ',' into exactly itself. */
  lemma {:induction false} SplitWithoutComma(a: string)
    requires ',' !in a
    ensures Split(a, ",") == [a]
  {
    if |a| > 0 {
      assert a[1..] + [] == a[1..];
      assert ',' !in a[1..] by {
        forall i | 0 <= i < |a| - 1 ensures a[1..][i] != ',' {
          assert a[1..][i] == a[i + 1];
        }
      }
      SplitWithoutComma(a[1..]);
      assert [a[0]] + a[1..] == a;
    }
  }

  /** Splitting on ',' at a first comma: the text before it is the first piece. */
  lemma {:induction false} SplitAtFirstComma(a: string, b: string)
    requires ',' !in a
    ensures Split(a + "," + b, ",") == [a] + Split(b, ",")
    decreases |a|
  {
    var s := a + "," + b;
    if |a| == 0 {
      assert s == "," + b;
      assert s[1..] == b;
    } else {
      assert s[1..] == a[1..] + "," + b;
      assert ',' !in a[1..] by {
        forall i | 0 <= i < |a| - 1 ensures a[1..][i] != ',' {
          assert a[1..][i] == a[i + 1];
        }
      }
      SplitAtFirstComma(a[1..], b);
      assert s[0] == a[0] && s[..1][0] == s[0];
      assert [s[0]] + a[1..] == a;
    }
  }

  /** `UpToSemicolon` stops at the first ';' when nothing before it is a line terminator. */
  lemma {:induction false} UpToSemicolonOf(m: string, rest: string)
    requires forall i :: 0 <= i < |m| ==> m[i] != ';' && !IsLineTerminator(m[i])
    ensures UpToSemicolon(m + ";" + rest) == Some(m)
  {
    var t := m + ";" + rest;
    if |m| > 0 {
      assert t[1..] == m[1..] + ";" + rest;
      UpToSemicolonOf(m[1..], rest);
      assert [t[0]] + m[1..] == m;
    } else {
      assert t[0] == ';';
    }
  }

  /** A prefix without ':' is skipped by the match. */
  lemma {:induction false} MimeMatchSkips(p: string, s: string)
    requires ':' !in p
    ensures MimeMatch(p + s) == MimeMatch(s)
  {
    if |p| > 0 {
      assert (p + s)[0] == p[0];
      assert (p + s)[1..] == p[1..] + s;
      assert ':' !in p[1..] by {
        forall i | 0 <= i < |p| - 1 ensures p[1..][i] != ':' {
          assert p[1..][i] == p[i + 1];
        }
      }
      MimeMatchSkips(p[1..], s);
    } else {
      assert p + s == s;
    }
  }

  /**
   * Decoding a data URL recovers its MIME type and payload, provided the MIME
   * type has no ',', ';' or line terminator and the payload no ','.
   */
  lemma Base64ToPartOfDataUrl(mime: string, payload: string)
    requires forall i :: 0 <= i < |mime| ==> mime[i] != ',' && mime[i] != ';' && !IsLineTerminator(mime[i])
    requires ',' !in payload
    ensures Base64ToPart(DataUrl(mime, payload)) == InlinePart(Some(payload), mime)
  {
    SplitDataUrl(mime, payload);
    MimeMatchOfHead(mime);
  }

  /** A data URL whose MIME type and payload have no ',' splits into its head and its payload. */
  lemma SplitDataUrl(mime: string, payload: string)
    requires forall i :: 0 <= i < |mime| ==> mime[i] != ','
    requires ',' !in payload
    ensures Split(DataUrl(mime, payload), ",") == ["data" + (":" + (mime + ";" + "base64")), payload]
  {
    var head := "data" + (":" + (mime + ";" + "base64"));
    assert DataUrl(mime, payload) == head + "," + payload;
    SplitAtFirstComma(head, payload);
    SplitWithoutComma(payload);
  }

  /** The head of a data URL matches with its MIME type as the group. */
  lemma MimeMatchOfHead(mime: string)
    requires forall i :: 0 <= i < |mime| ==> mime[i] != ';' && !IsLineTerminator(mime[i])
    ensures MimeMatch("data" + (":" + (mime + ";" + "base64"))) == Some(mime)
  {
    MimeMatchAfter("data", mime, "base64");
  }

  /** After a prefix without ':', the first ':' starts the match, whose group runs to the next ';'. */
  lemma MimeMatchAfter(p: string, mime: string, rest: string)
    requires ':' !in p
    requires forall i :: 0 <= i < |mime| ==> mime[i] != ';' && !IsLineTerminator(mime[i])
    ensures MimeMatch(p + (":" + (mime + ";" + rest))) == Some(mime)
  {
    var tail := ":" + (mime + ";" + rest);
    MimeMatchSkips(p, tail);
    UpToSemicolonOf(mime, rest);
    assert tail[1..] == mime + ";" + rest;
  }

  /** A file read as a data URL yields its declared type and the payload after the comma. */
  lemma FileToPartOfDataUrl(file: File, mime: string, payload: string)
    requires file.dataUrl == Some(DataUrl(mime, payload))
    requires forall i :: 0 <= i < |mime| ==> mime[i] != ','
    requires ',' !in payload
    ensures FileToPart(file) == Some(InlinePart(Some(payload), file.mimeType))
  {
    SplitDataUrl(mime, payload);
  }

  /** Without a comma there is no payload, and without a ':' the type defaults to image/png. */
  lemma Base64ToPartDefaults(s: string)
    requires ',' !in s && ':' !in s
    ensures Base64ToPart(s) == InlinePart(None, "image/png")
  {
    SplitWithoutComma(s);
    MimeMatchSkips(s, "");
    assert s + "" == s;
  }

  // ---------------------------------------------------------------------
  // Text generation

  /**
   * `TONE_DESCRIPTIONS[tone] || TONE_DESCRIPTIONS.friendly`, over a table of
   * descriptions that need not cover every tone; None is `undefined`.
   */
  function ToneInstruction(descriptions: map<TextTone, string>, tone: TextTone): (r: Option<string>)
    ensures tone in descriptions && descriptions[tone] != "" ==> r == Some(descriptions[tone])
    ensures r.None? <==> Friendly !in descriptions && (tone !in descriptions || descriptions[tone] == "")
    ensures r.Some? ==> r.value in descriptions.Values
    ensures r == Some("") ==> Friendly in descriptions && descriptions[Friendly] == ""
  {
    if tone in descriptions && descriptions[tone] != "" then Some(descriptions[tone])
    else if Friendly in descriptions then Some(descriptions[Friendly])
    else None
  }

  /**
   * The single text part of a text request: the lead, the request text (or
   * the default topic), then the tone lead and the tone instruction at the end.
   */
  function TextPrompt(promptText: string, toneInstruction: Option<string>): (r: string)
    ensures TextRequestLead <= r
    ensures promptText != "" ==>
      |TextRequestLead| + |promptText| <= |r| && r[|TextRequestLead|..|TextRequestLead| + |promptText|] == promptText
    ensures var tail := ToneLead + Interpolate(toneInstruction);
      |tail| <= |r| && r[|r| - |tail|..] == tail
  {
    var topic := if promptText == "" then DefaultTextRequest else promptText;
    var tail := ToneLead + Interpolate(toneInstruction);
    var r := TextRequestLead + (if promptText == "" then DefaultTextRequest else promptText)
      + ToneLead + Interpolate(toneInstruction);
    assert r == TextRequestLead + topic + tail;
    assert r[|TextRequestLead|..|TextRequestLead| + |topic|] == topic;
    assert r[|r| - |tail|..] == tail;
    r
  }

  /** The `parts` of a text request: the image part if there is one, then the text. */
  function TextPayload(imagePart: Option<Part>, prompt: string): (r: seq<Part>)
    ensures |r| == if imagePart.Some? then 2 else 1
    ensures r[|r| - 1] == TextPart(prompt)
    ensures imagePart.Some? ==> r[0] == imagePart.value
  {
    (if imagePart.Some? then [imagePart.value] else []) + [TextPart(prompt)]
  }

  /** The part a selected file contributes, when one is selected and readable. */
  function FilePartOf(imageFile: Option<File>): (r: Option<Part>)
    ensures r.Some? <==> imageFile.Some? && imageFile.value.dataUrl.Some?
    ensures r.Some? ==> r.value.InlinePart? && r.value.mimeType == imageFile.value.mimeType
  {
    if imageFile.Some? then FileToPart(imageFile.value) else None
  }

  /** `response.text || "İçerik üretilemedi."`. */
  function TextContent(text: Option<string>): (r: string)
    ensures r != ""
  {
    if Truthy(text) then text.value else EmptyTextFallback
  }

  /** A count with `|| 0`: a missing count becomes 0. */
  function CountOrZero(count: Option<int>): int {
    count.GetOr(0)
  }

  /** The `usage` of a service response: present iff `usageMetadata` is, each missing count as 0. */
  function NormalizeUsage(meta: Option<UsageMetadata>): (r: Option<TokenUsage>)
    ensures r.Some? <==> meta.Some?
    ensures r.Some? ==>
      && (meta.value.promptTokenCount.Some? ==> r.value.promptTokens == meta.value.promptTokenCount.value)
      && (meta.value.promptTokenCount.None? ==> r.value.promptTokens == 0)
      && (meta.value.candidatesTokenCount.Some? ==> r.value.responseTokens == meta.value.candidatesTokenCount.value)
      && (meta.value.candidatesTokenCount.None? ==> r.value.responseTokens == 0)
      && (meta.value.totalTokenCount.Some? ==> r.value.totalTokens == meta.value.totalTokenCount.value)
      && (meta.value.totalTokenCount.None? ==> r.value.totalTokens == 0)
  {
    match meta
    case None => None
    case Some(m) => Some(TokenUsage(CountOrZero(m.promptTokenCount),
                                    CountOrZero(m.candidatesTokenCount),
                                    CountOrZero(m.totalTokenCount)))
  }

  /**
   * `generatePostContent`. `sent` is the `parts` array sent to the text
   * endpoint (None when reading the file fails first); `reply` is how that
   * call settles. Every failure is rethrown as "Metin üretilemedi.".
   */
  method GeneratePostContent(promptText: string, imageFile: Option<File>, tone: TextTone,
                             toneDescriptions: map<TextTone, string>, reply: ApiReply<TextResponse>)
    returns (sent: Option<seq<Part>>, result: ServiceResult)
    ensures sent.None? <==> imageFile.Some? && imageFile.value.dataUrl.None?
    ensures sent.Some? ==>
      sent.value == TextPayload(FilePartOf(imageFile), TextPrompt(promptText, ToneInstruction(toneDescriptions, tone)))
    ensures result.Resolved? <==> sent.Some? && reply.Replied?
    ensures result.Thrown? ==> result.message == TextFailureMessage
    ensures result.Resolved? ==>
      result.response == ServiceResponse(TextContent(reply.response.text), NormalizeUsage(reply.response.usageMetadata))
  {
    var parts: seq<Part> := [];
    if imageFile.Some? {
      var imagePart := FileToPart(imageFile.value);
      if imagePart.None? {
        return None, Thrown(TextFailureMessage);
      }
      parts := parts + [imagePart.value];
    }
    var toneInstruction := ToneInstruction(toneDescriptions, tone);
    var textPrompt := TextPrompt(promptText, toneInstruction);
    parts := parts + [TextPart(textPrompt)];
    sent := Some(parts);
    match reply
    case Rejected(_) =>
      result := Thrown(TextFailureMessage);
    case Replied(response) =>
      result := Resolved(ServiceResponse(TextContent(response.text), NormalizeUsage(response.usageMetadata)));
  }

  /** The number of text parts of a payload: none exactly when no part is text, all exactly when every part is. */
  function TextPartCount(parts: seq<Part>): (n: nat)
    ensures n <= |parts|
    ensures n == 0 <==> forall i :: 0 <= i < |parts| ==> parts[i].InlinePart?
    ensures n == |parts| <==> forall i :: 0 <= i < |parts| ==> parts[i].TextPart?
  {
    if |parts| == 0 then 0
    else
      var init := parts[..|parts| - 1];
      assert forall i :: 0 <= i < |init| ==> init[i] == parts[i];
      TextPartCount(init) + (if parts[|parts| - 1].TextPart? then 1 else 0)
  }

  /**
   * A text payload holds the image part first when there is one, and ends in
   * exactly one text part, the prompt.
   */
  lemma TextPayloadShape(imagePart: Option<Part>, prompt: string)
    requires imagePart.Some? ==> imagePart.value.InlinePart?
    ensures var p := TextPayload(imagePart, prompt);
      && |p| == (if imagePart.Some? then 2 else 1)
      && p[|p| - 1] == TextPart(prompt)
      && (imagePart.Some? ==> p[0] == imagePart.value)
      && TextPartCount(p) == 1
  {
    var images := if imagePart.Some? then [imagePart.value] else [];
    TextPartCountAppend(images, [TextPart(prompt)]);
    assert [TextPart(prompt)][..0] == [];
    assert TextPartCount(images) == 0 by {
      if imagePart.Some? { assert images[..0] == []; }
    }
  }

  /** A missing or empty description for the tone falls back to the friendly description. */
  lemma ToneFallsBackToFriendly(descriptions: map<TextTone, string>, tone: TextTone)
    requires tone !in descriptions || descriptions[tone] == ""
    ensures ToneInstruction(descriptions, tone) == ToneInstruction(descriptions, Friendly)
            || (Friendly in descriptions && descriptions[Friendly] == ""
                && ToneInstruction(descriptions, tone) == Some(""))
  {
  }

  /** The fallback topic stands in for an empty request text, and only for it. */
  lemma TextPromptDefaultTopic(toneInstruction: Option<string>)
    ensures TextPrompt("", toneInstruction) == TextPrompt(DefaultTextRequest, toneInstruction)
  {
  }

  // ---------------------------------------------------------------------
  // Image generation

  /**
   * `logoBase64 && visualType === ADVERTISEMENT ? base64ToPart(logoBase64)`:
   * the logo is sent exactly when a non-empty logo is stored and the type is
   * ADVERTISEMENT, and then as an image part.
   */
  function LogoPartOf(logoBase64: Option<string>, visualType: VisualGenerationType): (r: Option<Part>)
    ensures r.Some? <==> Truthy(logoBase64) && visualType == Advertisement
    ensures r.Some? ==> r.value.InlinePart? && (r.value.data.Some? <==> Contains(logoBase64.value, ","))
  {
    if Truthy(logoBase64) && visualType == Advertisement then Some(Base64ToPart(logoBase64.value)) else None
  }

  /** The ENHANCE prompt: the request text embedded as it is, even when empty. */
  function EnhancePrompt(promptText: string): string {
    EnhanceLead + promptText + ". " + Constants.ImageGenInstruction
  }

  /** The ADVERTISEMENT prompt: an empty request text becomes "Mixed nuts arrangement". */
  function AdvertisementPrompt(promptText: string): string {
    AdvertisementLead + (if promptText == "" then DefaultAdSubject else promptText) + ". " + Constants.ImageGenInstruction
  }

  /** The text part of an image request. */
  function VisualPrompt(visualType: VisualGenerationType, promptText: string): (r: string)
    ensures |r| > |Constants.ImageGenInstruction|
    ensures r[|r| - |Constants.ImageGenInstruction|..] == Constants.ImageGenInstruction
  {
    var lead := if visualType == Enhance then EnhanceLead + promptText + ". "
      else AdvertisementLead + (if promptText == "" then DefaultAdSubject else promptText) + ". ";
    var r := if visualType == Enhance then EnhancePrompt(promptText) else AdvertisementPrompt(promptText);
    assert r == lead + Constants.ImageGenInstruction;
    assert r[|lead|..] == Constants.ImageGenInstruction;
    r
  }

  /** The `parts` of an image request: reference image, then logo, then the text. */
  function VisualPayload(imagePart: Option<Part>, logoPart: Option<Part>, prompt: string): (r: seq<Part>)
    ensures |r| == 1 + (if imagePart.Some? then 1 else 0) + (if logoPart.Some? then 1 else 0)
    ensures r[|r| - 1] == TextPart(prompt)
    ensures imagePart.Some? ==> r[0] == imagePart.value
    ensures logoPart.Some? ==> r[|r| - 2] == logoPart.value
  {
    (if imagePart.Some? then [imagePart.value] else [])
    + (if logoPart.Some? then [logoPart.value] else [])
    + [TextPart(prompt)]
  }

  /** The number of inline (image) parts of a payload. */
  function InlinePartCount(parts: seq<Part>): nat {
    |parts| - TextPartCount(parts)
  }

  /** Count of text parts over a concatenation. */
  lemma {:induction false} TextPartCountAppend(a: seq<Part>, b: seq<Part>)
    ensures TextPartCount(a + b) == TextPartCount(a) + TextPartCount(b)
    decreases |b|
  {
    if |b| == 0 {
      assert a + b == a;
    } else {
      assert (a + b)[..|a + b| - 1] == a + b[..|b| - 1];
      TextPartCountAppend(a, b[..|b| - 1]);
    }
  }

  /**
   * An image payload: the reference image (if any) comes first, the logo (if
   * any) follows it, and exactly one text part, the prompt, comes last; so
   * there are at most two image parts.
   */
  lemma VisualPayloadShape(imagePart: Option<Part>, logoPart: Option<Part>, prompt: string)
    requires imagePart.Some? ==> imagePart.value.InlinePart?
    requires logoPart.Some? ==> logoPart.value.InlinePart?
    ensures var p := VisualPayload(imagePart, logoPart, prompt);
      && |p| == 1 + (if imagePart.Some? then 1 else 0) + (if logoPart.Some? then 1 else 0)
      && p[|p| - 1] == TextPart(prompt)
      && (imagePart.Some? ==> p[0] == imagePart.value)
      && (logoPart.Some? ==> p[|p| - 2] == logoPart.value)
      && TextPartCount(p) == 1
      && InlinePartCount(p) <= 2
  {
    var images := (if imagePart.Some? then [imagePart.value] else []);
    var logos := (if logoPart.Some? then [logoPart.value] else []);
    var p := VisualPayload(imagePart, logoPart, prompt);
    assert p == (images + logos) + [TextPart(prompt)];
    TextPartCountAppend(images + logos, [TextPart(prompt)]);
    TextPartCountAppend(images, logos);
    assert TextPartCount(images) == 0 by {
      if imagePart.Some? { assert images[..0] == []; }
    }
    assert TextPartCount(logos) == 0 by {
      if logoPart.Some? { assert logos[..0] == []; }
    }
    assert [TextPart(prompt)][..0] == [];
  }

  /** The ENHANCE prompt embeds the text verbatim; the ADVERTISEMENT prompt substitutes the default subject for empty text. */
  lemma VisualPromptText(promptText: string)
    ensures EnhanceLead <= EnhancePrompt(promptText)
    ensures EnhancePrompt(promptText)[|EnhanceLead|..|EnhanceLead| + |promptText|] == promptText
    ensures AdvertisementPrompt("") == AdvertisementPrompt(DefaultAdSubject)
    ensures AdvertisementLead <= AdvertisementPrompt(promptText)
    ensures promptText != "" ==>
      AdvertisementPrompt(promptText)[|AdvertisementLead|..|AdvertisementLead| + |promptText|] == promptText
  {
    assert EnhancePrompt(promptText) == EnhanceLead + promptText + (". " + Constants.ImageGenInstruction);
    if promptText != "" {
      assert AdvertisementPrompt(promptText) == AdvertisementLead + promptText + (". " + Constants.ImageGenInstruction);
    }
  }

  /** `candidates?.[0]?.content?.parts`: defined exactly when every link of the chain is present. */
  function ResponseParts(response: ImageResponse): (r: Option<seq<ResponsePart>>)
    ensures r.Some? <==>
      && response.candidates.Some? && |response.candidates.value| > 0
      && response.candidates.value[0].content.Some?
      && response.candidates.value[0].content.value.parts.Some?
  {
    if response.candidates.Some? && |response.candidates.value| > 0
       && response.candidates.value[0].content.Some?
    then response.candidates.value[0].content.value.parts
    else None
  }

  /** The first response part that carries `inlineData`. */
  function FirstInline(parts: seq<ResponsePart>): (r: Option<Blob>)
    ensures r.None? <==> forall j :: 0 <= j < |parts| ==> parts[j].inlineData.None?
    ensures r.Some? ==> exists k :: 0 <= k < |parts| && parts[k].inlineData == Some(r.value)
                               && forall j :: 0 <= j < k ==> parts[j].inlineData.None?
  {
    if |parts| == 0 then None
    else if parts[0].inlineData.Some? then parts[0].inlineData
    else
      var r := FirstInline(parts[1..]);
      assert forall j :: 1 <= j < |parts| ==> parts[j] == parts[1..][j - 1];
      r
  }

  /** The image content: always labelled image/png, whatever the blob's own type. */
  function PngDataUrl(data: Option<string>): (r: string)
    ensures PngDataUrlPrefix <= r
    ensures data.Some? ==> r[|PngDataUrlPrefix|..] == data.value
    ensures data.None? ==> r[|PngDataUrlPrefix|..] == "undefined"
  {
    PngDataUrlPrefix + Interpolate(data)
  }

  /**
   * How the image call settles once the API has replied: an image exactly
   * when some part of the first candidate carries inline data; otherwise
   * "Görsel oluşturulamadı.".
   */
  function ImageOutcome(response: ImageResponse): (r: ServiceResult)
    ensures r.Resolved? <==>
      ResponseParts(response).Some?
      && exists j :: 0 <= j < |ResponseParts(response).value| && ResponseParts(response).value[j].inlineData.Some?
    ensures r.Thrown? ==> r.message == NoImageMessage
    ensures r.Resolved? ==> PngDataUrlPrefix <= r.response.content
    ensures r.Resolved? ==> ResponseParts(response).Some? && FirstInline(ResponseParts(response).value).Some?
                            && r.response.content == PngDataUrl(FirstInline(ResponseParts(response).value).value.data)
    ensures r.Resolved? ==> r.response.usage == NormalizeUsage(response.usageMetadata)
  {
    match ResponseParts(response)
    case None => Thrown(NoImageMessage)
    case Some(parts) =>
      match FirstInline(parts)
      case None => Thrown(NoImageMessage)
      case Some(blob) => Resolved(ServiceResponse(PngDataUrl(blob.data), NormalizeUsage(response.usageMetadata)))
  }

  /** `error.message || "Görsel üretim hatası."`. */
  function RethrownMessage(message: Option<string>): (r: string)
    ensures r != ""
  {
    if Truthy(message) then message.value else ImageFailureMessage
  }

  /**
   * `generateVisualContent`. `sent` is the `parts` array sent to the image
   * endpoint (None when reading the file fails first); the aspect ratio only
   * configures that call and has no counterpart here.
   */
  method GenerateVisualContent(promptText: string, imageFile: Option<File>, visualType: VisualGenerationType,
                               logoBase64: Option<string>, reply: ApiReply<ImageResponse>)
    returns (sent: Option<seq<Part>>, result: ServiceResult)
    ensures sent.None? <==> imageFile.Some? && imageFile.value.dataUrl.None?
    ensures sent.None? ==> result == Thrown(ImageFailureMessage)
    ensures sent.Some? ==>
      sent.value == VisualPayload(FilePartOf(imageFile), LogoPartOf(logoBase64, visualType), VisualPrompt(visualType, promptText))
    ensures sent.Some? && reply.Rejected? ==> result == Thrown(RethrownMessage(reply.message))
    ensures sent.Some? && reply.Replied? ==> result == ImageOutcome(reply.response)
    ensures result.Thrown? ==> result.message != ""
  {
    var parts: seq<Part> := [];
    if imageFile.Some? {
      var imagePart := FileToPart(imageFile.value);
      if imagePart.None? {
        // the reader's rejection carries no message
        return None, Thrown(RethrownMessage(None));
      }
      parts := parts + [imagePart.value];
    }
    assert parts == if FilePartOf(imageFile).Some? then [FilePartOf(imageFile).value] else [];
    ghost var images := parts;
    if Truthy(logoBase64) && visualType == Advertisement {
      parts := parts + [Base64ToPart(logoBase64.value)];
    }
    ghost var logo := LogoPartOf(logoBase64, visualType);
    assert parts == images + if logo.Some? then [logo.value] else [];
    var finalPrompt := if visualType == Enhance then EnhancePrompt(promptText) else AdvertisementPrompt(promptText);
    assert finalPrompt == VisualPrompt(visualType, promptText);
    parts := parts + [TextPart(finalPrompt)];
    sent := Some(parts);
    if reply.Rejected? {
      result := Thrown(RethrownMessage(reply.message));
    } else {
      result := ExtractImage(reply.response);
    }
  }

  /**
   * The response scan of `generateVisualContent`: the first part of the first
   * candidate that has `inlineData` becomes the result; without one the call
   * throws "Görsel oluşturulamadı.", which the catch block rethrows unchanged.
   */
  method ExtractImage(response: ImageResponse) returns (result: ServiceResult)
    ensures result == ImageOutcome(response)
    ensures result.Thrown? ==> result.message == NoImageMessage
  {
    var candidateParts := ResponseParts(response);
    if candidateParts.Some? {
      var ps := candidateParts.value;
      var i := 0;
      while i < |ps|
        invariant 0 <= i <= |ps|
        invariant forall j :: 0 <= j < i ==> ps[j].inlineData.None?
      {
        if ps[i].inlineData.Some? {
          FirstInlineSkips(ps, i);
          assert ps[i..][0] == ps[i];
          return Resolved(ServiceResponse(PngDataUrl(ps[i].inlineData.value.data),
                                          NormalizeUsage(response.usageMetadata)));
        }
        i := i + 1;
      }
    }
    result := Thrown(RethrownMessage(Some(NoImageMessage)));
  }

  /** Parts without inline data before index `i` are skipped by the search. */
  lemma {:induction false} FirstInlineSkips(parts: seq<ResponsePart>, i: nat)
    requires i <= |parts|
    requires forall j :: 0 <= j < i ==> parts[j].inlineData.None?
    ensures FirstInline(parts) == FirstInline(parts[i..])
  {
    if i > 0 {
      assert parts[1..][i - 1..] == parts[i..];
      FirstInlineSkips(parts[1..], i - 1);
    }
  }

  /** Decoding the produced image content gives back the image data labelled image/png. */
  lemma ImageContentDecodes(data: string)
    requires ',' !in data
    ensures Base64ToPart(PngDataUrl(Some(data))) == InlinePart(Some(data), "image/png")
  {
    assert PngDataUrl(Some(data)) == DataUrl("image/png", data);
    Base64ToPartOfDataUrl("image/png", data);
  }

  // ---------------------------------------------------------------------
  // Streamed chat

  /** The role the chat endpoint receives: 'model' stays model, anything else is user. */
  function ApiRole(role: string): (r: Role)
    ensures r == Model <==> role == "model"
  {
    if role == "model" then Model else User
  }

  /** The role name a message carries in the history. */
  function RoleName(role: Role): string {
    match role
    case User => "user"
    case Model => "model"
  }

  /** Naming a role and mapping the name back gives the role. */
  lemma ApiRoleOfName(role: Role)
    ensures ApiRole(RoleName(role)) == role
  {
  }

  /**
   * The `onChunk` calls for a chunk sequence: one per non-empty chunk, in
   * order. No call is empty, each is the text of some chunk, and there are
   * no more calls than chunks.
   */
  function DeliveredChunks(chunks: seq<Option<string>>): (r: seq<string>)
    ensures |r| <= |chunks|
    ensures forall k :: 0 <= k < |r| ==> r[k] != "" && Some(r[k]) in chunks
  {
    if |chunks| == 0 then []
    else
      var init := chunks[..|chunks| - 1];
      var d := DeliveredChunks(init);
      assert forall k :: 0 <= k < |d| ==> Some(d[k]) in init ==> Some(d[k]) in chunks;
      d + (if Truthy(chunks[|chunks| - 1]) then [chunks[|chunks| - 1].value] else [])
  }

  /** Delivering a stream in two stretches makes the calls of the first stretch, then those of the second. */
  lemma {:induction false} DeliveredChunksAppend(xs: seq<Option<string>>, ys: seq<Option<string>>)
    ensures DeliveredChunks(xs + ys) == DeliveredChunks(xs) + DeliveredChunks(ys)
    decreases |ys|
  {
    if |ys| == 0 {
      assert xs + ys == xs;
    } else {
      var init := ys[..|ys| - 1];
      assert (xs + ys)[..|xs + ys| - 1] == xs + init;
      DeliveredChunksAppend(xs, init);
    }
  }

  /** A single chunk makes one call with its text when it is non-empty, and none otherwise. */
  lemma DeliveredChunk(chunk: Option<string>)
    ensures DeliveredChunks([chunk]) == if Truthy(chunk) then [chunk.value] else []
  {
    assert [chunk][..0] == [];
  }

  /** The concatenation of a sequence of strings, in order. */
  function Concat(pieces: seq<string>): string {
    if |pieces| == 0 then "" else Concat(pieces[..|pieces| - 1]) + pieces[|pieces| - 1]
  }

  /** The text of a chunk, an undefined one counting as empty. */
  function ChunkText(chunk: Option<string>): string {
    chunk.GetOr("")
  }

  /** All the text a stream carries, undefined chunks as empty: none exactly when every chunk is empty or undefined. */
  function StreamText(chunks: seq<Option<string>>): (r: string)
    ensures r == "" <==> forall k :: 0 <= k < |chunks| ==> ChunkText(chunks[k]) == ""
  {
    if |chunks| == 0 then ""
    else
      var init := chunks[..|chunks| - 1];
      assert forall k :: 0 <= k < |init| ==> init[k] == chunks[k];
      StreamText(init) + ChunkText(chunks[|chunks| - 1])
  }

  /** Skipping empty chunks loses no text: the forwarded chunks concatenate to all the text of the stream. */
  lemma {:induction false} DeliveredChunksKeepText(chunks: seq<Option<string>>)
    ensures Concat(DeliveredChunks(chunks)) == StreamText(chunks)
  {
    if |chunks| > 0 {
      var init := chunks[..|chunks| - 1];
      var last := chunks[|chunks| - 1];
      DeliveredChunksKeepText(init);
      var d := DeliveredChunks(init);
      if Truthy(last) {
        assert DeliveredChunks(chunks) == d + [last.value];
        assert (d + [last.value])[..|d|] == d;
      } else {
        assert DeliveredChunks(chunks) == d;
      }
    }
  }

  /** The scenario of a stream "Me", "rha", "ba!": three calls in order, spelling "Merhaba!". */
  lemma ThreeChunkStream()
    ensures DeliveredChunks([Some("Me"), Some("rha"), Some("ba!")]) == ["Me", "rha", "ba!"]
    ensures Concat(["Me", "rha", "ba!"]) == "Merhaba!"
  {
    var cs := [Some("Me"), Some("rha"), Some("ba!")];
    assert cs[..2] == [Some("Me"), Some("rha")];
    assert cs[..2][..1] == [Some("Me")];
    assert cs[..2][..1][..0] == [];
    assert DeliveredChunks([Some("Me")]) == ["Me"];
    assert DeliveredChunks(cs[..2]) == ["Me", "rha"];
    var ps := ["Me", "rha", "ba!"];
    assert ps[..2] == ["Me", "rha"];
    assert ps[..2][..1] == ["Me"];
    assert ps[..2][..1][..0] == [];
    assert Concat(["Me"]) == "Me";
    assert Concat(ps[..2]) == "Merha";
  }

  /** The `contents` a chat request sends: each entry with its role mapped. */
  function ChatContents(history: seq<HistoryEntry>): (r: seq<ApiContent>)
    ensures |r| == |history|
    ensures forall i :: 0 <= i < |history| ==> r[i] == ApiContent(ApiRole(history[i].role), history[i].parts)
  {
    seq(|history|, i requires 0 <= i < |history| => ApiContent(ApiRole(history[i].role), history[i].parts))
  }

  /**
   * `streamChat`. It returns the `contents` sent, the arguments of the
   * `onChunk` calls in order, and whether the stream completed (false: it
   * rejected after those calls).
   */
  method StreamChat(history: seq<HistoryEntry>, stream: ChatStream)
    returns (contents: seq<ApiContent>, chunkCalls: seq<string>, completed: bool)
    ensures contents == ChatContents(history)
    ensures chunkCalls == DeliveredChunks(stream.chunks)
    ensures completed == !stream.fails
  {
    contents := ChatContents(history);
    chunkCalls := [];
    var chunks := stream.chunks;
    for i := 0 to |chunks|
      invariant chunkCalls == DeliveredChunks(chunks[..i])
    {
      var chunkText := chunks[i];
      assert chunks[..i + 1][..i] == chunks[..i];
      if Truthy(chunkText) {
        chunkCalls := chunkCalls + [chunkText.value];
      }
    }
    assert chunks[..|chunks|] == chunks;
    completed := !stream.fails;
  }
}
