/**
 * How App.tsx wires its children to its handlers: the sign-in form's
 * `onLogin` is `handleLogin`, and the header and the application share one
 * storage, so a logo uploaded in the header is what the next advertisement sends.
 */
module Session {
  import opened Wrappers
  import opened Types
  import opened GeminiService
  import opened App
  import opened Header
  import opened LoginForm
  import opened InputSection

  /**
   * `isGenerating={loadingState === LoadingState.LOADING}`: the submit button
   * is disabled exactly while a request is in flight, or for ENHANCE on the
   * image tab without a photo.
   */
  lemma SubmitBlockedWhileLoading(app: AppState, form: FormState)
    ensures form.SubmitDisabled(app.IsGenerating()) <==>
      app.loadingState == Loading || (form.mode == ImageMode && form.visualType == Enhance && form.selectedFile.None?)
  {
  }

  /** Submitting the sign-in form while it is shown (`onLogin={handleLogin}`). */
  method SignIn(app: AppState, form: LoginState) returns (loggedIn: bool)
    modifies app, app.store, form
    ensures loggedIn <==> old(form.CredentialsMatch())
    ensures app.isAuthenticated == (old(app.isAuthenticated) || loggedIn)
    ensures loggedIn ==> app.StoredAuth()
    ensures loggedIn ==> app.store.entries == old(app.store.entries)[App.AuthKey := "true"] && form.error == old(form.error)
    ensures !loggedIn ==> app.store.entries == old(app.store.entries) && form.error == BadCredentials
    ensures form.username == old(form.username) && form.password == old(form.password)
    ensures app.loadingState == old(app.loadingState) && app.result == old(app.result) && app.error == old(app.error)
    ensures app.activeMode == old(app.activeMode) && app.initialPrompt == old(app.initialPrompt)
    ensures app.savedItems == old(app.savedItems)
  {
    loggedIn := form.HandleSubmit();
    if loggedIn {
      app.HandleLogin();
    }
  }

  /**
   * A logo upload followed by an advertisement request: once the upload is
   * stored, the request sends that logo and shows no warning, because both
   * components read the same storage. Returns the upload's outcome, the parts
   * sent, the service's outcome and whether the missing-logo warning shows.
   */
  method UploadThenAdvertise(app: AppState, header: LogoState, files: seq<File>, text: string,
                             file: Option<File>, includeLogo: bool, toneDescriptions: map<TextTone, string>,
                             textReply: ApiReply<TextResponse>, imageReply: ApiReply<ImageResponse>)
    returns (upload: UploadOutcome, sent: Option<seq<Part>>, outcome: ServiceResult, warned: bool)
    requires header.store == app.store
    modifies app, header, app.store
    // the upload: the header and the shared storage
    ensures upload == Stored <==> |files| > 0 && files[0].dataUrl.Some? && |files[0].dataUrl.value| <= MaxLogoLength
    ensures upload == Stored ==> header.logo == files[0].dataUrl
    ensures upload == Stored ==> app.store.entries == old(app.store.entries)[Header.LogoKey := files[0].dataUrl.value]
    ensures upload != Stored ==> header.logo == old(header.logo) && app.store.entries == old(app.store.entries)
    // the request: what is sent and whether the warning shows
    ensures sent.None? <==> file.Some? && file.value.dataUrl.None?
    ensures upload == Stored && sent.Some? ==>
      sent.value == VisualPayload(FilePartOf(file), LogoPartOf(files[0].dataUrl, Advertisement), VisualPrompt(Advertisement, text))
    ensures upload != Stored && sent.Some? ==>
      sent.value == VisualPayload(FilePartOf(file), LogoPartOf(old(app.store.GetItem(App.LogoKey)), Advertisement),
                                  VisualPrompt(Advertisement, text))
    ensures upload == Stored && files[0].dataUrl.value != "" ==> !warned
    ensures upload != Stored ==> warned == (includeLogo && !Truthy(old(app.store.GetItem(App.LogoKey))))
    // the service's outcome and the application's state after it
    ensures sent.None? ==> outcome == Thrown(ImageFailureMessage)
    ensures sent.Some? && imageReply.Rejected? ==> outcome == Thrown(RethrownMessage(imageReply.message))
    ensures sent.Some? && imageReply.Replied? ==> outcome == ImageOutcome(imageReply.response)
    ensures outcome.Resolved? ==> app.loadingState == Success && app.error == None && app.initialPrompt == ""
    ensures outcome.Resolved? ==>
      app.result == Some(GeneratedContent(ImageContent, outcome.response.content, outcome.response.usage))
    ensures outcome.Thrown? ==> app.loadingState == Failure && app.error == Some(outcome.message) && app.result == None
    ensures outcome.Thrown? ==> app.initialPrompt == old(app.initialPrompt)
    ensures app.isAuthenticated == old(app.isAuthenticated) && app.activeMode == old(app.activeMode)
    ensures app.savedItems == old(app.savedItems)
  {
    upload := header.HandleLogoUpload(files);
    sent, outcome, warned := app.HandleGenerate(text, file, ImageMode, Advertisement, includeLogo,
                                                toneDescriptions, textReply, imageReply);
  }
}
