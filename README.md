# Can Kuruyemiş assistant — a Dafny model

Can Kuruyemiş is a nut shop. Its assistant is a small React app over a hosted generative-AI API. It writes social-media posts, makes or improves product photos, and chats with the shopkeeper. It also keeps an archive of saved outputs in the browser's storage. This project models the app's sequential logic in Dafny and proves what that logic promises.

Module by module:

- **GeminiService** (`services/geminiService.ts`):
  - the ordered `parts` of a text request and of an image request;
  - the data-URL decoding of `base64ToPart` and `fileToPart`;
  - usage normalisation;
  - the response scan that picks the first inline image;
  - the fixed failure messages;
  - the role mapping and chunk loop of `streamChat`.

  Replies of the API and stream chunks are inputs (`ApiReply`, `ChatStream`).
- **App** (`App.tsx`): the class `AppState` holds the component's state hooks.
  - Its handlers are methods: startup load, sign-in/out, save/delete in the archive, the generation lifecycle IDLE → LOADING → SUCCESS | ERROR, the mode change, and "design an ad from this text".
  - The archive is always mirrored into the storage object.
- **InputSection**, **ChatInterface**, **Header**, **LoginForm**: one class per component holding its state hooks. A method models each handler.
- **ResultCard** (`components/ResultCard.tsx`): pure functions for the cost branch, the money-format thresholds and the `###` section split.
- **Session**: how App.tsx wires in the sign-in form's `onLogin` and the header. The header and the app share one `Store`, so a logo uploaded in the header is what the next advertisement request sends.

Support modules:

- **Strings**: JavaScript `split` with a string separator (leftmost, non-overlapping matches), `join`, `trim` (with ECMAScript's WhiteSpace and LineTerminator characters) and `substring(0, n)`.
- **LocalStorage**: `localStorage` as a `map<string, string>` inside one shared `Store` object.
- **ArchiveJson**: the archive's text form. `Serialize` writes what `JSON.stringify` writes for the list a save or a delete stores. Each item's keys come in the order type, content, title, id, timestamp: the draft's own keys, then the two that `handleSaveItem` spreads after them. `Parse` reads that form back, and `Parse(Serialize(items)) == Some(items)` is proved. `Parse` reads nothing else (see "Left out").
- **Types** and **Constants**: the declarations of `types.ts` and the image template constant.

## Model

| member | source | states |
|---|---|---|
| Strings.Split | services/geminiService.ts:27 | `split` always yields at least one piece |
| Strings.Join | components/ResultCard.tsx:85 | `join` puts the separator between consecutive parts (no contract of its own: its partner is JoinSplit) |
| Strings.JoinSplit | components/ResultCard.tsx:81-85 | joining the pieces of a split with the same separator gives back the string |
| Strings.FirstPieceIsPrefix | services/geminiService.ts:27-28 | the first piece of a split is a prefix of the string |
| Strings.SplitPiecesAvoidSeparator | components/ResultCard.tsx:79-81 | no piece of a split contains the separator |
| Strings.SplitWithoutSeparator | components/ResultCard.tsx:79 | a string without the separator splits into exactly itself |
| Strings.SplitRest | components/ResultCard.tsx:79 | when there is more than one piece, the pieces after the first are the split of the text behind the separator that ends the first piece |
| Strings.SplitFirstPieceEndsAtFirstOccurrence | components/ResultCard.tsx:79 | matching is leftmost: no occurrence of the separator starts inside the first piece, one starts right after it when there are more pieces, and there is a single piece iff the separator does not occur |
| Strings.SplitSingleIffAbsent | services/geminiService.ts:27-30 | a split yields a single piece iff the separator does not occur |
| Strings.PrefixKeepsAbsence | components/ResultCard.tsx:81 | a prefix of a string without the separator is without it too |
| Strings.TrimStart | components/ChatInterface.tsx:25 | the result is a suffix, only whitespace was removed, and it does not start with whitespace |
| Strings.TrimEnd | components/ChatInterface.tsx:25 | the result is a prefix, only whitespace was removed, and it does not end with whitespace |
| Strings.TrimIsTrimmedSlice | components/ResultCard.tsx:85 | `trim` returns a middle slice with only whitespace around it |
| Strings.Trim | components/ResultCard.tsx:85 | what `trim` returns is no longer than the string and neither starts nor ends with whitespace |
| Strings.TrimEmptyIffAllWhitespace | components/ChatInterface.tsx:25 | trimming gives "" exactly when the string is all whitespace |
| Strings.Take | App.tsx:64-65 | `substring(0, n)` is the prefix of length min(n, length) |
| LocalStorage.Store.constructor | App.tsx:23 | the store starts with what earlier sessions left |
| LocalStorage.Store.GetItem | App.tsx:23 | a value exactly for stored keys, and it is the stored value |
| LocalStorage.Store.SetItem | App.tsx:36 | the key is bound to the value and every other entry is unchanged |
| LocalStorage.Store.RemoveItem | App.tsx:41 | the key is gone and every other entry is unchanged |
| GeminiService.Piece | services/geminiService.ts:13 | an index past the end is undefined |
| GeminiService.MatchesAtShift | services/geminiService.ts:28 | a match after the first character is a match in the rest, with the same group |
| GeminiService.MimeMatchStep | services/geminiService.ts:28 | one step of the left-to-right scan: without a match at index 0 the match is the one in the rest |
| GeminiService.MimeMatch | services/geminiService.ts:28 | no match iff the expression matches at no index; otherwise the group of the leftmost index where ':' reaches a ';' |
| GeminiService.Base64ToPart | services/geminiService.ts:26-38 | an inline part; it has data iff the text contains ',', and the data then holds no ',' |
| GeminiService.UpToSemicolon | services/geminiService.ts:28 | the lazy `(.*?);` match is a prefix that is followed by ';' and holds neither ';' nor a line terminator |
| GeminiService.FileToPart | services/geminiService.ts:9-24 | fails exactly when the reader fails; otherwise an inline part carrying the file's own MIME type |
| GeminiService.SplitWithoutComma | services/geminiService.ts:27 | text without ',' is one piece |
| GeminiService.SplitAtFirstComma | services/geminiService.ts:27 | the first comma ends the first piece |
| GeminiService.UpToSemicolonOf | services/geminiService.ts:28 | the lazy match stops at the first ';' |
| GeminiService.MimeMatchSkips | services/geminiService.ts:28 | the regular expression skips a prefix without ':' |
| GeminiService.Base64ToPartOfDataUrl | services/geminiService.ts:26-38 | decoding `data:<mime>;base64,<payload>` gives back the MIME type and the payload |
| GeminiService.SplitDataUrl | services/geminiService.ts:12 | a data URL whose type and payload have no ',' splits into its head and its payload |
| GeminiService.MimeMatchAfter | services/geminiService.ts:28 | after a prefix without ':', the match's group runs from the first ':' to the next ';' |
| GeminiService.MimeMatchOfHead | services/geminiService.ts:28 | the head of a data URL matches with its MIME type as the group |
| GeminiService.FileToPartOfDataUrl | services/geminiService.ts:12-19 | a file read as a data URL yields the payload after the first comma and the declared type |
| GeminiService.Base64ToPartDefaults | services/geminiService.ts:29-30 | without ',' the data is undefined; without ':' the type is image/png |
| GeminiService.ToneInstruction | services/geminiService.ts:56 | a non-empty description of the tone wins; undefined iff neither it nor a friendly description exists; the result is one of the descriptions, empty only if the friendly one is |
| GeminiService.TextPrompt | services/geminiService.ts:57 | the prompt opens with "Kullanıcının isteği: " and the request text, and ends with the tone lead and the tone instruction |
| GeminiService.TextPayload | services/geminiService.ts:51-58 | two parts with an image, one without; the image first, the prompt last |
| GeminiService.FilePartOf | services/geminiService.ts:51-54 | a part iff a file is selected and read; then an inline part with the file's MIME type |
| GeminiService.TextContent | services/geminiService.ts:71 | the text content is never empty ("İçerik üretilemedi." stands in) |
| GeminiService.NormalizeUsage | services/geminiService.ts:72-76 | usage is present iff `usageMetadata` is; each count is copied, a missing one becomes 0 |
| GeminiService.GeneratePostContent | services/geminiService.ts:45-82 | sends [image part] + one text part; resolves iff the file reads and the API replies, with the normalised content and usage; every failure is "Metin üretilemedi." |
| GeminiService.TextPartCount | services/geminiService.ts:51-58 | no more than the parts; zero iff every part is an image part; the length iff every part is text |
| GeminiService.TextPayloadShape | services/geminiService.ts:51-58 | the image part comes first when present, and there is exactly one text part, the prompt, last |
| GeminiService.ToneFallsBackToFriendly | services/geminiService.ts:56 | a missing or empty tone description falls back to the friendly one |
| GeminiService.TextPromptDefaultTopic | services/geminiService.ts:57 | empty request text is replaced by "Can Kuruyemiş için genel bir paylaşım." |
| GeminiService.LogoPartOf | services/geminiService.ts:95 | the logo is sent iff a non-empty logo is given and the type is ADVERTISEMENT, as an inline part with data iff the logo has a ',' |
| GeminiService.VisualPrompt | services/geminiService.ts:97-101 | both prompts end with IMAGE_GEN_INSTRUCTION |
| GeminiService.VisualPayload | services/geminiService.ts:92-103 | one part more for each of image and logo; the image first, the logo just before the prompt, the prompt last |
| GeminiService.TextPartCountAppend | services/geminiService.ts:92-103 | text parts count additively over concatenation |
| GeminiService.VisualPayloadShape | services/geminiService.ts:92-103 | reference image, then logo, then exactly one text part last; at most two image parts |
| GeminiService.VisualPromptText | services/geminiService.ts:97-101 | each prompt opens with its lead; ENHANCE embeds the text verbatim right after it even when empty; ADVERTISEMENT does so for non-empty text and uses "Mixed nuts arrangement" for empty text |
| GeminiService.ResponseParts | services/geminiService.ts:110 | defined iff each link of `candidates?.[0]?.content?.parts` is present |
| GeminiService.FirstInline | services/geminiService.ts:111-112 | finds nothing iff no part has inline data, otherwise the data of the first part with inline data |
| GeminiService.PngDataUrl | services/geminiService.ts:114 | the content is "data:image/png;base64," followed by the data, or by "undefined" when the data is missing |
| GeminiService.ImageOutcome | services/geminiService.ts:110-124 | resolves iff the first candidate has parts and one of them carries inline data; the content is the PNG data URL of the data of the first such part (FirstInline), with the normalised usage; otherwise throws "Görsel oluşturulamadı." |
| GeminiService.RethrownMessage | services/geminiService.ts:126 | the rethrown message is never empty |
| GeminiService.GenerateVisualContent | services/geminiService.ts:84-128 | sends the image payload; a reader failure is "Görsel üretim hatası."; an API failure is rethrown with its message or that text; a reply yields the first inline image as a PNG data URL |
| GeminiService.ExtractImage | services/geminiService.ts:110-124 | the loop yields the first inline image or throws "Görsel oluşturulamadı." |
| GeminiService.FirstInlineSkips | services/geminiService.ts:111-112 | parts without inline data before the scan position do not change the result |
| GeminiService.ImageContentDecodes | services/geminiService.ts:114 | the image content decodes back to its data, labelled image/png |
| GeminiService.ApiRole | services/geminiService.ts:137 | 'model' maps to model and anything else to user |
| GeminiService.ApiRoleOfName | services/geminiService.ts:137 | naming a role and mapping the name back gives the role |
| GeminiService.DeliveredChunks | services/geminiService.ts:143-147 | no more calls than chunks; each call is a non-empty chunk's text |
| GeminiService.StreamText | services/geminiService.ts:143-147 | the stream carries no text iff every chunk is empty or undefined |
| GeminiService.DeliveredChunksAppend | services/geminiService.ts:143-147 | the calls for two stretches of a stream are those of the first stretch followed by those of the second, so calls keep the chunks' order |
| GeminiService.DeliveredChunk | services/geminiService.ts:144-146 | one chunk makes exactly one call with its text when that text is non-empty, and none otherwise |
| GeminiService.DeliveredChunksKeepText | services/geminiService.ts:143-147 | the delivered chunks concatenate to all the stream's text |
| GeminiService.ThreeChunkStream | services/geminiService.ts:143-147 | chunks "Me", "rha", "ba!" are delivered in order and spell "Merhaba!" |
| GeminiService.ChatContents | services/geminiService.ts:137 | one content per history entry, in order, its role mapped and its parts kept |
| GeminiService.StreamChat | services/geminiService.ts:130-148 | sends the mapped history; `onChunk` gets exactly the non-empty chunks, in order |
| ArchiveJson.MembersJsonEnds | App.tsx:52 | written members end with the text that follows them |
| ArchiveJson.ItemJsonEnds | App.tsx:52 | an item object ends with the text that follows it, after its closing brace |
| ArchiveJson.ElementsJsonEnds | App.tsx:52 | written elements end with the text that follows them |
| ArchiveJson.Serialize | App.tsx:52 | the stored text opens with '[' and closes with ']', and is "[]" iff the list is empty |
| ArchiveJson.Expect | App.tsx:30 | reading a literal consumes exactly its length |
| ArchiveJson.EscapeChar | App.tsx:52 | no escape starts with a bare quote |
| ArchiveJson.NatText | App.tsx:52 | a number's decimal text is never empty |
| ArchiveJson.StringBody | App.tsx:30 | reading a string body always consumes input |
| ArchiveJson.DecodeEscapedChar | App.tsx:30 | each escaped character decodes to itself, consuming exactly its escape |
| ArchiveJson.StringBodyOfEscape | App.tsx:30 | an escaped string reads back verbatim, up to its closing quote |
| ArchiveJson.NatTextValue | App.tsx:30 | the decimal text of a number has that value |
| ArchiveJson.DigitPrefixOf | App.tsx:30 | the number literal ends at the first non-digit |
| ArchiveJson.ParseValue | App.tsx:30 | reading a member value always consumes input |
| ArchiveJson.ParseMembers | App.tsx:30 | reading the members named by the keys yields one value per key and never grows the input |
| ArchiveJson.ParseValueOfJson | App.tsx:30 | a written member value reads back as itself when no digit follows it |
| ArchiveJson.ParseMembersOfJson | App.tsx:30 | written members read back as their values, in order, leaving what follows them |
| ArchiveJson.ItemMembersMatchKeys | App.tsx:30 | the members an item is written with are exactly the keys an item object is read with, and their values give back the item |
| ArchiveJson.ParseItemOfJson | App.tsx:30 | an item object reads back as the same item, leaving what follows |
| ArchiveJson.ParseElements | App.tsx:30 | the elements read are never none |
| ArchiveJson.Parse | App.tsx:30 | the empty list is read iff the text is "[]"; whatever is read starts with '[' |
| ArchiveJson.ParseElementsLast | App.tsx:30 | an item followed by the closing bracket is the last element |
| ArchiveJson.ParseElementsNext | App.tsx:30 | an item followed by a comma is read ahead of the elements after the comma |
| ArchiveJson.ParseElementsOfJson | App.tsx:30 | a list of elements reads back as the same items, in order |
| ArchiveJson.ParseSerialize | App.tsx:30 | reading a serialised archive gives back the same items in the same order |
| App.WithoutId | App.tsx:57 | an item is kept iff it was there and its id differs |
| App.WithoutIdAppend | App.tsx:57 | filtering distributes over concatenation, so the kept items stay in their relative order |
| App.WithoutIdCounts | App.tsx:57 | items with another id keep their multiplicity; items with this id are all gone |
| App.WithoutAbsentId | App.tsx:57 | deleting an id no item has leaves the list unchanged |
| App.WithoutIdIdempotent | App.tsx:57 | deleting twice is deleting once |
| App.WithoutIdKeepsNewestFirst | App.tsx:57 | deleting keeps a newest-first archive newest first |
| App.NewItem | App.tsx:45-49 | the new item copies type, content and title, and takes the given id and timestamp |
| App.LoadedArchive | App.tsx:28-31 | a missing or empty stored value keeps the list; otherwise the list is what the stored text parses to, or kept when it does not parse |
| App.LoadedArchiveOfSerialized | App.tsx:28-31 | what a save or delete stored is loaded back exactly at the next startup |
| App.FirstLongLine | App.tsx:64 | a found line is one of the lines and is longer than 20 characters |
| App.FirstLongLineIsFirst | App.tsx:64 | nothing is found iff no line is longer than 20; otherwise the earliest such line is found |
| App.Hint | App.tsx:64 | the hint is longer than 20 characters and on one line, or a prefix of the text of at most 100 characters |
| App.DesignAdPrompt | App.tsx:65 | the prompt starts with "Analize dayalı profesyonel reklam: ", ends with "...", and at most 150 hint characters lie between |
| App.HintIsLineOrPrefix | App.tsx:64 | the hint is a whole line longer than 20 characters, or the first 100 characters when no line is that long |
| App.SingleLineHint | App.tsx:64 | one-line text longer than 20 characters is its own hint |
| App.ResultKind | App.tsx:90-104 | TEXT exactly for the text tab, and never CHAT |
| App.ErrorText | App.tsx:109 | the shown error is the message when it is non-empty, and never empty |
| App.AppState.constructor | App.tsx:12-20 | signed out, IDLE, no result or error, TEXT tab, empty archive, empty seeded prompt |
| App.AppState.Mount | App.tsx:22-32 | signed in iff already so or the stored value is exactly 'true'; the archive is the parsed non-empty stored value |
| App.AppState.HandleLogin | App.tsx:34-37 | signed in, and 'true' is stored under the auth key |
| App.AppState.HandleLogout | App.tsx:39-42 | signed out, and the auth key is removed |
| App.AppState.HandleSaveItem | App.tsx:44-54 | the new item goes in front of the unchanged list; the stored archive is the serialised new list; the saved notice is alerted |
| App.AppState.HandleDeleteItem | App.tsx:56-60 | the list is filtered by id; the stored archive is the serialised new list |
| App.AppState.HandleDesignAdFromText | App.tsx:62-69 | seeds the design-ad prompt, switches to IMAGE and clears the result |
| App.AppState.ChangeMode | App.tsx:130-135 | switches tab and clears result, error and seeded prompt |
| App.AppState.IsGenerating | App.tsx:136 | generating iff LOADING |
| App.AppState.BeginRequest | App.tsx:80-82 | LOADING, with error and result cleared, before any call |
| App.AppState.CompleteRequest | App.tsx:85-111 | SUCCESS with the result and the seeded prompt cleared, or ERROR with the message |
| App.AppState.HandleGenerate | App.tsx:71-112 | the TEXT tab uses the friendly tone; other tabs send the stored logo whatever `includeLogo` says and warn iff `includeLogo` is set with no logo stored; ends in SUCCESS with kind TEXT or IMAGE, or in ERROR with the service's message |
| App.RestartLoadsArchive | App.tsx:22-32 | a new session on the same storage loads the same archive and sign-in flag |
| InputSection.FormState.constructor | components/InputSection.tsx:10-17 | TEXT, ADVERTISEMENT, no logo, '1:1', empty text, no file, no preview |
| InputSection.FormState.SelectMode | components/InputSection.tsx:62-75 | changes the form's own tab only |
| InputSection.FormState.SelectVisualType | components/InputSection.tsx:99-109 | sets the operation only |
| InputSection.FormState.SetIncludeLogo | components/InputSection.tsx:160 | sets the logo flag only |
| InputSection.FormState.SelectAspectRatio | components/InputSection.tsx:123-143 | sets the format only |
| InputSection.FormState.EditText | components/InputSection.tsx:234 | sets the text only |
| InputSection.FormState.HandleFileChange | components/InputSection.tsx:20-27 | the first file and its preview URL are taken; an event with no file changes nothing |
| InputSection.FormState.ClearFile | components/InputSection.tsx:29-35 | no file and no preview; nothing else changes |
| InputSection.FormState.HasRequiredInput | components/InputSection.tsx:39-46 | the per-tab guards pass: a file, or text unless it is ENHANCE on the image tab, or a tab with no guard (no contract of its own: HandleSubmit states it) |
| InputSection.FormState.CurrentRequest | components/InputSection.tsx:49 | the request carries the current text, file, mode, operation, logo flag and format |
| InputSection.FormState.HandleSubmit | components/InputSection.tsx:37-50 | `onGenerate` is called iff the form has what its tab needs; the alert shows iff it is ENHANCE without a photo; any non-empty text passes on the TEXT tab |
| InputSection.FormState.SubmitDisabled | components/InputSection.tsx:241 | disabled iff generating, or ENHANCE on the image tab without a photo |
| InputSection.EnabledSubmitNeverAlerts | components/InputSection.tsx:42-45 | an enabled button never leads to the photo alert; it then passes the guards iff a file or text is given, or the form's tab is neither TEXT nor IMAGE |
| ChatInterface.History | components/ChatInterface.tsx:33-36 | one entry per message, in order, with its role and a single text part |
| ChatInterface.ContentsOfHistory | components/ChatInterface.tsx:33-36 | what the chat endpoint receives keeps each message's role and text |
| ChatInterface.ChatState.constructor | components/ChatInterface.tsx:10-14 | the transcript is the single model greeting; empty input; not typing |
| ChatInterface.ChatState.EditInput | components/ChatInterface.tsx:129 | sets the input only |
| ChatInterface.ChatState.MessageText | components/ChatInterface.tsx:24 | a non-empty `textToSend` wins over the input box |
| ChatInterface.ChatState.SendIgnored | components/ChatInterface.tsx:25 | a send is ignored iff the message text (`textToSend`, else the input) trims to empty or a reply is streaming (no contract of its own: HandleSend states it) |
| ChatInterface.ChatState.ReplayChunks | components/ChatInterface.tsx:41-48 | after k chunk calls the last message holds the concatenation of those k chunks; at the end it holds all the stream's text |
| ChatInterface.ChatState.Exchange | components/ChatInterface.tsx:27-54 | appends the question and a reply holding all the streamed text, sends the prior messages plus the question, appends the apology after a failure, clears the input and ends not typing |
| ChatInterface.ChatState.HandleSend | components/ChatInterface.tsx:23-55 | ignored for blank text or while typing; otherwise it appends the user message and a model reply holding all the streamed text, sends the prior messages plus the new one, appends the apology after a failure, clears the input and ends not typing |
| ChatInterface.StartersAreNotBlank | components/ChatInterface.tsx:57-62 | no starter label is blank after trimming |
| ResultCard.TokenCost | components/ResultCard.tsx:39-41 | never negative for non-negative counts, and nothing for no tokens |
| ResultCard.CostOf | components/ResultCard.tsx:30-42 | an estimate iff IMAGE, at the flat image price; a non-image result costs its token price when usage is present, otherwise nothing |
| ResultCard.TokenCostMonotone | components/ResultCard.tsx:39-41 | more tokens of either kind never cost less |
| ResultCard.ImageCostIgnoresTokens | components/ResultCard.tsx:34-37 | an image's cost does not depend on its token counts |
| ResultCard.FormatMoney | components/ResultCard.tsx:47-51 | "0" for zero, "< 0.01 <currency>" for any other amount below 0.01, the locale format otherwise |
| ResultCard.ImageCostDisplay | components/ResultCard.tsx:34-50 | an image shows 1.46 TRY and 0.04 USD through the locale format, marked as an estimate |
| ResultCard.UnmeteredTextIsFree | components/ResultCard.tsx:31-49 | a text result without usage shows "0" in both currencies and is not an estimate |
| ResultCard.SectionOf | components/ResultCard.tsx:80-85 | no section iff the piece is blank; the title is a prefix of the piece with no line break, and without `###` when the piece has none |
| ResultCard.KeptSections | components/ResultCard.tsx:79-88 | never more sections than pieces, each the section of one of the pieces |
| ResultCard.Sections | components/ResultCard.tsx:79-88 | never more sections than `###` pieces, and no title holds a line break or `###` |
| ResultCard.SectionReassembles | components/ResultCard.tsx:80-85 | a kept piece is its title, a line break and a text whose trimmed form is the body (or the title alone); the title has no line break |
| ResultCard.SplitOfBlank | components/ResultCard.tsx:79-80 | every piece of blank text is blank |
| ResultCard.KeptSectionsAppend | components/ResultCard.tsx:79-88 | the sections of two runs of pieces are the first run's followed by the second's, so sections keep the pieces' order |
| ResultCard.KeptSection | components/ResultCard.tsx:80-85 | one piece gives exactly its section, or nothing iff it is blank |
| ResultCard.MarkedContentSections | components/ResultCard.tsx:79-88 | text holding `###` shows the section of the text before the leftmost marker (none when that text is blank), followed by the sections of the text after the marker |
| ResultCard.KeptSectionsOfBlank | components/ResultCard.tsx:80 | blank pieces yield no section |
| ResultCard.BlankContentHasNoSections | components/ResultCard.tsx:79-80 | blank text shows no section |
| ResultCard.UnmarkedContentIsOneSection | components/ResultCard.tsx:79-85 | non-blank text without `###` is one section cut from the whole text |
| Header.LogoState.constructor | components/Header.tsx:8 | no logo at first render |
| Header.LogoState.Mount | components/Header.tsx:11-16 | the stored logo is shown only when it is non-empty |
| Header.LogoState.HandleLogoUpload | components/Header.tsx:18-35 | no file does nothing; a read longer than 3,000,000 is refused and nothing changes; otherwise the logo is both shown and stored |
| LoginForm.LoginState.constructor | components/LoginForm.tsx:8-10 | empty user name, password and error |
| LoginForm.LoginState.EditUsername | components/LoginForm.tsx:46 | sets the user name only |
| LoginForm.LoginState.EditPassword | components/LoginForm.tsx:58 | sets the password only |
| LoginForm.LoginState.CredentialsMatch | components/LoginForm.tsx:14 | the fields hold 'safak' and '123654' (no contract of its own: HandleSubmit states it) |
| LoginForm.LoginState.HandleSubmit | components/LoginForm.tsx:12-19 | `onLogin` iff the pair is 'safak'/'123654'; otherwise the error text is set; the fields never change; success keeps an earlier error |
| Session.SubmitBlockedWhileLoading | App.tsx:136 | the submit button is disabled iff a request is in flight, or ENHANCE on the image tab lacks a photo |
| Session.SignIn | App.tsx:114-115 | signing in succeeds iff the credentials match; a success stores 'true' under the auth key and keeps the form's error, a failure sets it and changes no storage; the form's fields and the app's request state, tab and prompt never change |
| Session.UploadThenAdvertise | App.tsx:93-98 | a stored header upload becomes the shown and the stored logo and is the logo the next advertisement sends, without a warning; otherwise the stored logo decides; the app ends in SUCCESS with the image or in ERROR with the service's message |

## Left out

- The wording of IMAGE_GEN_INSTRUCTION (`constants.ts`). It appears as an opaque placeholder string. SYSTEM_INSTRUCTION only configures the API calls, so it does not appear. TONE_DESCRIPTIONS is not defined in the shown `constants.ts`, so it is a parameter: a map that need not cover every tone.
- The API client, model names, temperature, thinking budget, system instruction and aspect-ratio configuration of each call. They only configure foreign network calls. The aspect ratio therefore has no counterpart in `GenerateVisualContent` or `HandleGenerate`.
- `FileReader`, `URL.createObjectURL`, `alert`, the clipboard, the download anchor, `window.scrollTo`, `console.error` and all rendering. A file is its MIME type plus the data URL the reader yields, or none when reading fails. An alert is an outcome value: the upload's TooLarge, the submit's Alerted, the warning flag of a generation and the notice HandleSaveItem returns; the clipboard alert of the copy button is left out with the clipboard.
- Lengths and `substring` count Unicode scalar values, while JavaScript counts UTF-16 code units.
  - The two agree for text in the Basic Multilingual Plane, and for data URLs, which are ASCII.
  - They differ for emoji, so the 20/100/150-character rules of the design-ad hint count an emoji once rather than twice.
- The general grammar of `JSON.parse` and `JSON.stringify`. ArchiveJson covers only the archive's own form: keys in the order type, content, title, id, timestamp, with no white space. That is the order a save writes when the result card's draft lists type, content and title in that order; the result card shown never passes a draft, so its key order is not fixed by the source. An archive with keys in another order is valid JSON that `JSON.parse` reads, but the model's Parse returns None for it, and App.AppState.Mount then keeps the list it had.
- App.AppState.Mount: a stored archive that does not parse leaves the list as it was, whereas in the source `JSON.parse` would throw during the startup effect.
- `Math.random` ids and `Date.now` timestamps are parameters. Nothing is claimed about their uniqueness.
- JavaScript numbers are modelled as exact reals; their floating-point rounding, and the digits `Intl.NumberFormat` prints, are out of scope.
- `components/SavedList.tsx` (presentation plus a confirm dialog) and `services/driveService.ts` (a simulated upload) are not part of this model.
- Concurrency.
  - React's batched, asynchronous state updates are modelled as sequential steps, one handler at a time. As a result the `isTyping` guard never finds a send still streaming.
  - Both `onChunk` and the chat component's callback run in a loop: ChatInterface.ChatState.HandleSend replays, in order, the calls that GeminiService.StreamChat reports.
- Props wired in App.tsx that the components in the source do not declare:
  - `onModeChange`, `currentMode` and `initialText` for the input section;
  - `onSave` and `onDesignAd` for the result card.

  App.AppState.ChangeMode, HandleDesignAdFromText and HandleSaveItem model App's handlers as written, but nothing in the shown components calls them.
