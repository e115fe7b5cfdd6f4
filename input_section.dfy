/**
 * The generation form (components/InputSection.tsx): its own tab, the image
 * options, the prompt text and the chosen photo, the submit guard and the
 * submit button's disabled state. The form's state hooks are the fields of
 * `FormState`.
 */
module InputSection {
  import opened Wrappers
  import opened Types
  import opened GeminiService

  /** The arguments of one `onGenerate` call. */
  datatype GenerateRequest = GenerateRequest(
    text: string, file: Option<File>, mode: GenerationMode,
    visualType: VisualGenerationType, includeLogo: bool, aspectRatio: AspectRatio)

  /** What a submit does: nothing, the "upload a photo" alert, or one `onGenerate` call. */
  datatype SubmitOutcome = Ignored | Alerted | Generate(request: GenerateRequest)

  class FormState {
    var mode: GenerationMode
    var visualType: VisualGenerationType
    var includeLogo: bool
    var aspectRatio: AspectRatio
    var text: string
    var selectedFile: Option<File>
    var previewUrl: Option<string>

    /** The form's own tab is TEXT or IMAGE: its tab buttons offer only those two. */
    predicate Valid()
      reads this
    {
      mode == TextMode || mode == ImageMode
    }

    /** The initial form: TEXT, ADVERTISEMENT, no logo, '1:1', no text and no photo. */
    constructor ()
      ensures Valid()
      ensures mode == TextMode && visualType == Advertisement && !includeLogo && aspectRatio == Ratio1x1
      ensures text == "" && selectedFile == None && previewUrl == None
    {
      mode := TextMode;
      visualType := Advertisement;
      includeLogo := false;
      aspectRatio := Ratio1x1;
      text := "";
      selectedFile := None;
      previewUrl := None;
    }

    /** A tab button: switches the form's tab and nothing else. */
    method SelectMode(m: GenerationMode)
      requires m == TextMode || m == ImageMode
      modifies this
      ensures Valid() && mode == m
      ensures visualType == old(visualType) && includeLogo == old(includeLogo) && aspectRatio == old(aspectRatio)
      ensures text == old(text) && selectedFile == old(selectedFile) && previewUrl == old(previewUrl)
    {
      mode := m;
    }

    /** The operation radio buttons. */
    method SelectVisualType(v: VisualGenerationType)
      modifies this
      ensures visualType == v && mode == old(mode) && includeLogo == old(includeLogo) && aspectRatio == old(aspectRatio)
      ensures text == old(text) && selectedFile == old(selectedFile) && previewUrl == old(previewUrl)
    {
      visualType := v;
    }

    /** The logo checkbox. */
    method SetIncludeLogo(checked: bool)
      modifies this
      ensures includeLogo == checked && mode == old(mode) && visualType == old(visualType) && aspectRatio == old(aspectRatio)
      ensures text == old(text) && selectedFile == old(selectedFile) && previewUrl == old(previewUrl)
    {
      includeLogo := checked;
    }

    /** The format buttons: square, story and landscape. */
    method SelectAspectRatio(ratio: AspectRatio)
      requires ratio == Ratio1x1 || ratio == Ratio9x16 || ratio == Ratio16x9
      modifies this
      ensures aspectRatio == ratio && mode == old(mode) && visualType == old(visualType) && includeLogo == old(includeLogo)
      ensures text == old(text) && selectedFile == old(selectedFile) && previewUrl == old(previewUrl)
    {
      aspectRatio := ratio;
    }

    /** The prompt text area. */
    method EditText(value: string)
      modifies this
      ensures text == value && mode == old(mode) && visualType == old(visualType)
      ensures includeLogo == old(includeLogo) && aspectRatio == old(aspectRatio)
      ensures selectedFile == old(selectedFile) && previewUrl == old(previewUrl)
    {
      text := value;
    }

    /**
     * `handleFileChange`: the first chosen file becomes the photo, with
     * `objectUrl` (what `URL.createObjectURL` returns) as its preview; an
     * event without a file changes nothing.
     */
    method HandleFileChange(files: seq<File>, objectUrl: string)
      modifies this
      ensures |files| > 0 ==> selectedFile == Some(files[0]) && previewUrl == Some(objectUrl)
      ensures |files| == 0 ==> selectedFile == old(selectedFile) && previewUrl == old(previewUrl)
      ensures mode == old(mode) && visualType == old(visualType) && includeLogo == old(includeLogo)
      ensures aspectRatio == old(aspectRatio) && text == old(text)
    {
      if |files| > 0 {
        var file := files[0];
        selectedFile := Some(file);
        previewUrl := Some(objectUrl);
      }
    }

    /** `clearFile`: no photo and no preview. */
    method ClearFile()
      modifies this
      ensures selectedFile == None && previewUrl == None
      ensures mode == old(mode) && visualType == old(visualType) && includeLogo == old(includeLogo)
      ensures aspectRatio == old(aspectRatio) && text == old(text)
    {
      selectedFile := None;
      previewUrl := None;
    }

    /**
     * The form has what its tab needs: a photo, or else non-empty text unless
     * the operation is ENHANCE on the image tab. Only the empty string counts
     * as missing text.
     */
    predicate HasRequiredInput()
      reads this
    {
      selectedFile.Some? || (text != "" && !(mode == ImageMode && visualType == Enhance))
      || (mode != TextMode && mode != ImageMode)
    }

    /** The request one `onGenerate` call would carry now. */
    function CurrentRequest(): (r: GenerateRequest)
      reads this
      ensures r.text == text && r.file == selectedFile && r.mode == mode
      ensures r.visualType == visualType && r.includeLogo == includeLogo && r.aspectRatio == aspectRatio
    {
      GenerateRequest(text, selectedFile, mode, visualType, includeLogo, aspectRatio)
    }

    /** `handleSubmit`: the per-tab guards, then a single `onGenerate` call with the current fields. */
    method HandleSubmit() returns (outcome: SubmitOutcome)
      ensures outcome.Generate? <==> HasRequiredInput()
      ensures outcome.Generate? ==> outcome.request == CurrentRequest()
      ensures outcome == Alerted <==> mode == ImageMode && visualType == Enhance && selectedFile.None?
      ensures text != "" && mode == TextMode ==> outcome.Generate?
    {
      if mode == TextMode && text == "" && selectedFile.None? {
        return Ignored;
      }
      if mode == ImageMode {
        if visualType == Enhance && selectedFile.None? {
          return Alerted;
        }
        if visualType == Advertisement && text == "" && selectedFile.None? {
          return Ignored;
        }
      }
      return Generate(GenerateRequest(text, selectedFile, mode, visualType, includeLogo, aspectRatio));
    }

    /** The submit button's `disabled`: generating, or ENHANCE on the image tab without a photo. */
    function SubmitDisabled(isGenerating: bool): (r: bool)
      reads this
      ensures !isGenerating ==> (r <==> mode == ImageMode && visualType == Enhance && selectedFile.None?)
      ensures isGenerating ==> r
    {
      isGenerating || (mode == ImageMode && visualType == Enhance && selectedFile.None?)
    }
  }

  /**
   * The disabled button blocks exactly the submits that would alert; an
   * enabled button can still be pressed with nothing to send.
   */
  lemma EnabledSubmitNeverAlerts(form: FormState, isGenerating: bool)
    requires !form.SubmitDisabled(isGenerating)
    ensures !(form.mode == ImageMode && form.visualType == Enhance && form.selectedFile.None?)
    ensures form.HasRequiredInput() <==> form.selectedFile.Some? || form.text != "" || !form.Valid()
  {
  }
}
