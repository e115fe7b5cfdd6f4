/**
 * The top-level component (App.tsx): the sign-in flag, the archive of saved
 * items mirrored into storage, the request lifecycle of a generation and the
 * "design an ad from this text" shortcut. The component's state hooks are
 * the fields of `AppState`; each handler is a method that updates them.
 */
module App {
  import opened Wrappers
  import opened Types
  import opened Strings
  import opened LocalStorage
  import opened ArchiveJson
  import opened GeminiService

  const AuthKey := "canKuruyemisAuth"
  const ArchiveKey := "canKuruyemisArchive"
  const LogoKey := "canKuruyemisLogo"
  const UnknownError := "Bilinmeyen bir hata oluştu."
  const AdPromptLead := "Analize dayalı profesyonel reklam: "
  const SavedNotice := "İçerik Arşive Kaydedildi! \U{1F4BE}"

  // ---------------------------------------------------------------------
  // Archive

  /** `items.filter(item => item.id !== id)`. */
  function WithoutId(items: seq<SavedItem>, id: string): (r: seq<SavedItem>)
    ensures |r| <= |items|
    ensures forall x :: x in r <==> x in items && x.id != id
  {
    if |items| == 0 then []
    else if items[0].id == id then WithoutId(items[1..], id)
    else [items[0]] + WithoutId(items[1..], id)
  }

  /** Filtering distributes over concatenation: the kept items stay in their relative order. */
  lemma {:induction false} WithoutIdAppend(a: seq<SavedItem>, b: seq<SavedItem>, id: string)
    ensures WithoutId(a + b, id) == WithoutId(a, id) + WithoutId(b, id)
  {
    if |a| == 0 {
      assert a + b == b;
    } else {
      assert (a + b)[1..] == a[1..] + b;
      WithoutIdAppend(a[1..], b, id);
    }
  }

  /** Every item whose id differs keeps its multiplicity; the others are all gone. */
  lemma {:induction false} WithoutIdCounts(items: seq<SavedItem>, id: string, x: SavedItem)
    ensures multiset(WithoutId(items, id))[x] == if x.id == id then 0 else multiset(items)[x]
  {
    if |items| > 0 {
      assert items == [items[0]] + items[1..];
      WithoutIdCounts(items[1..], id, x);
    }
  }

  /** Deleting an id that no item has leaves the list as it is. */
  lemma {:induction false} WithoutAbsentId(items: seq<SavedItem>, id: string)
    requires forall i :: 0 <= i < |items| ==> items[i].id != id
    ensures WithoutId(items, id) == items
  {
    if |items| > 0 {
      WithoutAbsentId(items[1..], id);
      assert [items[0]] + items[1..] == items;
    }
  }

  /** Deleting twice is deleting once. */
  lemma WithoutIdIdempotent(items: seq<SavedItem>, id: string)
    ensures WithoutId(WithoutId(items, id), id) == WithoutId(items, id)
  {
    var r := WithoutId(items, id);
    forall i | 0 <= i < |r| ensures r[i].id != id {
      assert r[i] in r;
    }
    WithoutAbsentId(r, id);
  }

  /** The archive lists the newest item first. */
  predicate NewestFirst(items: seq<SavedItem>) {
    forall i, j :: 0 <= i < j < |items| ==> items[i].timestamp >= items[j].timestamp
  }

  /** Deleting keeps the archive newest first. */
  lemma {:induction false} WithoutIdKeepsNewestFirst(items: seq<SavedItem>, id: string)
    requires NewestFirst(items)
    ensures NewestFirst(WithoutId(items, id))
  {
    if |items| > 0 {
      var rest := items[1..];
      assert NewestFirst(rest) by {
        forall i, j | 0 <= i < j < |rest| ensures rest[i].timestamp >= rest[j].timestamp {
          assert rest[i] == items[i + 1] && rest[j] == items[j + 1];
        }
      }
      WithoutIdKeepsNewestFirst(rest, id);
      if items[0].id != id {
        var r := WithoutId(rest, id);
        forall j | 0 <= j < |r| ensures items[0].timestamp >= r[j].timestamp {
          assert r[j] in r;
          var k :| 0 <= k < |rest| && rest[k] == r[j];
          assert rest[k] == items[k + 1];
        }
      }
    }
  }

  /** The item a save creates from the card's draft, the fresh id and the current time. */
  function NewItem(draft: SavedItemDraft, id: string, timestamp: nat): (r: SavedItem)
    ensures r.kind == draft.kind && r.content == draft.content && r.title == draft.title
    ensures r.id == id && r.timestamp == timestamp
  {
    SavedItem(id, draft.kind, draft.content, timestamp, draft.title)
  }

  /**
   * The archive the startup effect loads: the parsed stored value when it is
   * a non-empty string, otherwise the list as it was.
   */
  function LoadedArchive(stored: Option<string>, current: seq<SavedItem>): (r: seq<SavedItem>)
    ensures !Truthy(stored) ==> r == current
    ensures r == current || (stored.Some? && Parse(stored.value) == Some(r))
    ensures Truthy(stored) && Parse(stored.value).None? ==> r == current
  {
    if Truthy(stored) then
      match Parse(stored.value)
      case Some(items) => items
      case None => current
    else current
  }

  /** A stored archive written by a save or a delete is loaded back exactly at the next startup. */
  lemma LoadedArchiveOfSerialized(items: seq<SavedItem>, current: seq<SavedItem>)
    ensures LoadedArchive(Some(Serialize(items)), current) == items
  {
    ParseSerialize(items);
    assert Serialize(items)[0] == '[';
  }

  // ---------------------------------------------------------------------
  // Design-ad shortcut

  /** `lines.find(l => l.length > 20)`. */
  function FirstLongLine(lines: seq<string>): (r: Option<string>)
    ensures r.Some? ==> r.value in lines && |r.value| > 20
  {
    if |lines| == 0 then None
    else if |lines[0]| > 20 then Some(lines[0])
    else FirstLongLine(lines[1..])
  }

  /**
   * `find` finds nothing exactly when no line is longer than 20 characters,
   * and otherwise finds the earliest such line.
   */
  lemma {:induction false} FirstLongLineIsFirst(lines: seq<string>)
    ensures FirstLongLine(lines).None? <==> forall i :: 0 <= i < |lines| ==> |lines[i]| <= 20
    ensures FirstLongLine(lines).Some? ==>
      (exists k :: 0 <= k < |lines| && lines[k] == FirstLongLine(lines).value && forall i :: 0 <= i < k ==> |lines[i]| <= 20)
  {
    if |lines| > 0 && |lines[0]| <= 20 {
      var tail := lines[1..];
      FirstLongLineIsFirst(tail);
      var r := FirstLongLine(tail);
      if r.Some? {
        var k :| 0 <= k < |tail| && tail[k] == r.value && forall i :: 0 <= i < k ==> |tail[i]| <= 20;
        assert lines[k + 1] == r.value;
        forall i | 0 <= i < k + 1 ensures |lines[i]| <= 20 {
          if i > 0 {
            assert lines[i] == tail[i - 1];
          }
        }
      } else {
        forall i | 0 <= i < |lines| ensures |lines[i]| <= 20 {
          if i > 0 {
            assert lines[i] == tail[i - 1];
          }
        }
      }
    } else if |lines| > 0 {
      assert lines[0] == FirstLongLine(lines).value;
    }
  }

  /**
   * The hint: the first line longer than 20 characters, or the first 100
   * characters of the text when there is none (a found line is never empty,
   * so the `||` never falls through for it).
   */
  function Hint(text: string): (r: string)
    ensures (|r| > 20 && !Contains(r, "\n")) || (r <= text && |r| <= 100)
  {
    SplitPiecesAvoidSeparator(text, "\n");
    match FirstLongLine(Split(text, "\n"))
    case Some(line) => line
    case None => Take(text, 100)
  }

  /** The prompt the image form is seeded with. */
  function DesignAdPrompt(text: string): (r: string)
    ensures |AdPromptLead| <= |r| <= |AdPromptLead| + 150 + 3
    ensures r[..|AdPromptLead|] == AdPromptLead
    ensures r[|r| - 3..] == "..."
  {
    AdPromptLead + Take(Hint(text), 150) + "..."
  }

  /**
   * The hint is either a whole line of the text (longer than 20 characters,
   * without a line break), or the first 100 characters when no line is that long.
   */
  lemma HintIsLineOrPrefix(text: string)
    ensures var lines := Split(text, "\n");
      (exists k :: 0 <= k < |lines| && lines[k] == Hint(text)
         && |Hint(text)| > 20 && !Contains(Hint(text), "\n"))
      || ((forall k :: 0 <= k < |lines| ==> |lines[k]| <= 20)
         && Hint(text) <= text && |Hint(text)| == if |text| < 100 then |text| else 100)
  {
    var lines := Split(text, "\n");
    SplitPiecesAvoidSeparator(text, "\n");
    FirstLongLineIsFirst(lines);
    if FirstLongLine(lines).Some? {
      var k :| 0 <= k < |lines| && lines[k] == FirstLongLine(lines).value
        && forall i :: 0 <= i < k ==> |lines[i]| <= 20;
      assert !Contains(lines[k], "\n");
    }
  }

  /** Text on one line longer than 20 characters is its own hint. */
  lemma SingleLineHint(text: string)
    requires !Contains(text, "\n") && |text| > 20
    ensures Hint(text) == text
  {
    SplitWithoutSeparator(text, "\n");
    assert Split(text, "\n") == [text];
  }

  // ---------------------------------------------------------------------
  // Generation

  /** The result type for a mode: TEXT for the text tab, IMAGE for any other. */
  function ResultKind(mode: GenerationMode): (r: ContentType)
    ensures r == TextContent <==> mode == TextMode
    ensures r != ChatContent
  {
    if mode == TextMode then TextContent else ImageContent
  }

  /** `err.message || "Bilinmeyen bir hata oluştu."`. */
  function ErrorText(message: string): (r: string)
    ensures r != ""
    ensures message != "" ==> r == message
  {
    if message != "" then message else UnknownError
  }

  class AppState {
    var isAuthenticated: bool
    var loadingState: LoadingState
    var result: Option<GeneratedContent>
    var error: Option<string>
    var activeMode: GenerationMode
    var savedItems: seq<SavedItem>
    var initialPrompt: string
    /** The browser storage, shared with the header. */
    const store: Store

    /** The first render: signed out, idle, no result or error, the text tab, an empty archive. */
    constructor (store: Store)
      ensures this.store == store
      ensures !isAuthenticated && loadingState == Idle && result == None && error == None
      ensures activeMode == TextMode && savedItems == [] && initialPrompt == ""
    {
      this.store := store;
      isAuthenticated := false;
      loadingState := Idle;
      result := None;
      error := None;
      activeMode := TextMode;
      savedItems := [];
      initialPrompt := "";
    }

    /** The stored archive is the serialised in-memory list. */
    predicate ArchiveMirrored()
      reads this, store
    {
      store.GetItem(ArchiveKey) == Some(Serialize(savedItems))
    }

    /** The stored auth value means "signed in". */
    predicate StoredAuth()
      reads this, store
    {
      store.GetItem(AuthKey) == Some("true")
    }

    /** The startup effect: restore the sign-in flag and the archive from storage. */
    method Mount()
      modifies this
      ensures isAuthenticated == (old(isAuthenticated) || StoredAuth())
      ensures savedItems == LoadedArchive(store.GetItem(ArchiveKey), old(savedItems))
      ensures loadingState == old(loadingState) && result == old(result) && error == old(error)
      ensures activeMode == old(activeMode) && initialPrompt == old(initialPrompt)
    {
      var authStatus := store.GetItem(AuthKey);
      if authStatus == Some("true") {
        isAuthenticated := true;
      }
      var storedItems := store.GetItem(ArchiveKey);
      if Truthy(storedItems) {
        var parsed := Parse(storedItems.value);
        if parsed.Some? {
          savedItems := parsed.value;
        }
      }
    }

    /** `handleLogin`: signed in, and remembered. */
    method HandleLogin()
      modifies this, store
      ensures isAuthenticated && StoredAuth()
      ensures store.entries == old(store.entries)[AuthKey := "true"]
      ensures loadingState == old(loadingState) && result == old(result) && error == old(error)
      ensures activeMode == old(activeMode) && savedItems == old(savedItems) && initialPrompt == old(initialPrompt)
    {
      isAuthenticated := true;
      store.SetItem(AuthKey, "true");
    }

    /** `handleLogout`: signed out, and forgotten. */
    method HandleLogout()
      modifies this, store
      ensures !isAuthenticated && !StoredAuth()
      ensures store.entries == old(store.entries) - {AuthKey}
      ensures loadingState == old(loadingState) && result == old(result) && error == old(error)
      ensures activeMode == old(activeMode) && savedItems == old(savedItems) && initialPrompt == old(initialPrompt)
    {
      isAuthenticated := false;
      store.RemoveItem(AuthKey);
    }

    /**
     * `handleSaveItem`: the new item goes in front of the unchanged list, and
     * the stored archive follows, and the saved notice is alerted. `id` and
     * `timestamp` stand for the random id and the clock reading the source draws.
     */
    method HandleSaveItem(draft: SavedItemDraft, id: string, timestamp: nat) returns (alerted: string)
      modifies this, store
      ensures alerted == SavedNotice
      ensures savedItems == [NewItem(draft, id, timestamp)] + old(savedItems)
      ensures store.entries == old(store.entries)[ArchiveKey := Serialize(savedItems)]
      ensures ArchiveMirrored()
      ensures old(NewestFirst(savedItems)) && (forall x :: x in old(savedItems) ==> x.timestamp <= timestamp)
        ==> NewestFirst(savedItems)
      ensures isAuthenticated == old(isAuthenticated) && loadingState == old(loadingState)
      ensures result == old(result) && error == old(error)
      ensures activeMode == old(activeMode) && initialPrompt == old(initialPrompt)
    {
      var newItem := NewItem(draft, id, timestamp);
      var updated := [newItem] + savedItems;
      assert forall i :: 1 <= i < |updated| ==> updated[i] == old(savedItems)[i - 1];
      savedItems := updated;
      store.SetItem(ArchiveKey, Serialize(updated));
      alerted := SavedNotice;
    }

    /** `handleDeleteItem`: drop the items with that id, and the stored archive follows. */
    method HandleDeleteItem(id: string)
      modifies this, store
      ensures savedItems == WithoutId(old(savedItems), id)
      ensures store.entries == old(store.entries)[ArchiveKey := Serialize(savedItems)]
      ensures ArchiveMirrored()
      ensures old(NewestFirst(savedItems)) ==> NewestFirst(savedItems)
      ensures isAuthenticated == old(isAuthenticated) && loadingState == old(loadingState)
      ensures result == old(result) && error == old(error)
      ensures activeMode == old(activeMode) && initialPrompt == old(initialPrompt)
    {
      if NewestFirst(savedItems) {
        WithoutIdKeepsNewestFirst(savedItems, id);
      }
      var updated := WithoutId(savedItems, id);
      savedItems := updated;
      store.SetItem(ArchiveKey, Serialize(updated));
    }

    /** `handleDesignAdFromText`: seed the image tab with a prompt built from the text. */
    method HandleDesignAdFromText(text: string)
      modifies this
      ensures initialPrompt == DesignAdPrompt(text)
      ensures activeMode == ImageMode && result == None
      ensures isAuthenticated == old(isAuthenticated) && loadingState == old(loadingState)
      ensures error == old(error) && savedItems == old(savedItems)
    {
      var hint := Hint(text);
      initialPrompt := AdPromptLead + Take(hint, 150) + "...";
      activeMode := ImageMode;
      result := None;
    }

    /** The input section's mode change: switch tab and clear the result, the error and the seeded prompt. */
    method ChangeMode(mode: GenerationMode)
      modifies this
      ensures activeMode == mode && result == None && error == None && initialPrompt == ""
      ensures isAuthenticated == old(isAuthenticated) && loadingState == old(loadingState)
      ensures savedItems == old(savedItems)
    {
      activeMode := mode;
      result := None;
      error := None;
      initialPrompt := "";
    }

    /** Whether a request is in flight (what the input section is told). */
    function IsGenerating(): (r: bool)
      reads this
      ensures r <==> loadingState == Loading
    {
      loadingState == Loading
    }

    /** The first step of `handleGenerate`, before any call: LOADING, with no error and no result. */
    method BeginRequest()
      modifies this
      ensures loadingState == Loading && error == None && result == None
      ensures isAuthenticated == old(isAuthenticated) && activeMode == old(activeMode)
      ensures savedItems == old(savedItems) && initialPrompt == old(initialPrompt)
    {
      loadingState := Loading;
      error := None;
      result := None;
    }

    /** The last step of `handleGenerate`: SUCCESS with the result, or ERROR with the message. */
    method CompleteRequest(kind: ContentType, outcome: ServiceResult)
      modifies this
      ensures outcome.Resolved? ==> loadingState == Success && initialPrompt == "" && error == old(error)
      ensures outcome.Resolved? ==> result == Some(GeneratedContent(kind, outcome.response.content, outcome.response.usage))
      ensures outcome.Thrown? ==> loadingState == Failure && error == Some(ErrorText(outcome.message))
      ensures outcome.Thrown? ==> result == old(result) && initialPrompt == old(initialPrompt)
      ensures isAuthenticated == old(isAuthenticated) && activeMode == old(activeMode)
      ensures savedItems == old(savedItems)
    {
      match outcome
      case Resolved(response) =>
        result := Some(GeneratedContent(kind, response.content, response.usage));
        loadingState := Success;
        initialPrompt := "";
      case Thrown(message) =>
        error := Some(ErrorText(message));
        loadingState := Failure;
    }

    /**
     * `handleGenerate` as the input section calls it: the tone is never given
     * and so is always friendly, and `includeLogo` only decides the warning;
     * whether the logo is sent depends on the stored logo alone. `textReply`
     * and `imageReply` are what the two endpoints answer. Returns the parts
     * sent, the service's outcome and whether the missing-logo warning shows.
     */
    method HandleGenerate(text: string, file: Option<File>, mode: GenerationMode,
                          visualType: VisualGenerationType, includeLogo: bool,
                          toneDescriptions: map<TextTone, string>,
                          textReply: ApiReply<TextResponse>, imageReply: ApiReply<ImageResponse>)
      returns (sent: Option<seq<Part>>, outcome: ServiceResult, warned: bool)
      modifies this
      ensures sent.None? <==> file.Some? && file.value.dataUrl.None?
      // the text tab: the tone is friendly, and nothing is warned about
      ensures mode == TextMode ==> !warned
      ensures mode == TextMode && sent.Some? ==>
        sent.value == TextPayload(FilePartOf(file), TextPrompt(text, ToneInstruction(toneDescriptions, Friendly)))
      ensures mode == TextMode ==> (outcome.Resolved? <==> sent.Some? && textReply.Replied?)
      ensures mode == TextMode && outcome.Resolved? ==>
        outcome.response == ServiceResponse(GeminiService.TextContent(textReply.response.text),
                                            NormalizeUsage(textReply.response.usageMetadata))
      ensures mode == TextMode && outcome.Thrown? ==> outcome.message == TextFailureMessage
      // any other tab: the stored logo decides the logo part, `includeLogo` only the warning
      ensures mode != TextMode ==> warned == (includeLogo && !Truthy(store.GetItem(LogoKey)))
      ensures mode != TextMode && sent.Some? ==>
        sent.value == VisualPayload(FilePartOf(file), LogoPartOf(store.GetItem(LogoKey), visualType), VisualPrompt(visualType, text))
      ensures mode != TextMode && sent.None? ==> outcome == Thrown(ImageFailureMessage)
      ensures mode != TextMode && sent.Some? && imageReply.Rejected? ==> outcome == Thrown(RethrownMessage(imageReply.message))
      ensures mode != TextMode && sent.Some? && imageReply.Replied? ==> outcome == ImageOutcome(imageReply.response)
      // the lifecycle ends in SUCCESS or ERROR; the generic message never shows
      ensures outcome.Resolved? ==> loadingState == Success && error == None && initialPrompt == ""
      ensures outcome.Resolved? ==>
        result == Some(GeneratedContent(ResultKind(mode), outcome.response.content, outcome.response.usage))
      ensures outcome.Thrown? ==> loadingState == Failure && error == Some(outcome.message) && result == None
      ensures outcome.Thrown? ==> initialPrompt == old(initialPrompt)
      ensures isAuthenticated == old(isAuthenticated) && activeMode == old(activeMode)
      ensures savedItems == old(savedItems)
    {
      BeginRequest();
      warned := false;
      if mode == TextMode {
        sent, outcome := GeneratePostContent(text, file, Friendly, toneDescriptions, textReply);
      } else {
        var logoBase64 := store.GetItem(LogoKey);
        warned := includeLogo && !Truthy(logoBase64);
        sent, outcome := GenerateVisualContent(text, file, visualType, logoBase64, imageReply);
      }
      CompleteRequest(ResultKind(mode), outcome);
    }
  }

  /** After a save or a delete, a new session started on the same storage loads the same archive. */
  method RestartLoadsArchive(app: AppState) returns (next: AppState)
    requires app.ArchiveMirrored()
    ensures fresh(next) && next.store == app.store
    ensures next.savedItems == app.savedItems
    ensures next.isAuthenticated == app.StoredAuth()
  {
    next := new AppState(app.store);
    next.Mount();
    LoadedArchiveOfSerialized(app.savedItems, []);
  }
}
