/**
 * The orchestrator of App.tsx: the state the page keeps (`useState` fields),
 * the handlers and effects that overwrite it, the rule that picks the colours
 * the fragment is rendered with, and the name of the downloaded file.
 *
 * React runs an effect after the state it depends on has changed; here each
 * effect is a method the environment calls, and each asynchronous completion
 * (file reader, colour extraction, Gemini request) is a method of its own
 * taking the completion's result.
 */
module App {
  import opened Wrappers
  import opened Types
  import opened Text
  import opened ImageUploader
  import HtmlGenerator
  import MenuEdits

  // ----------------------------------------------------------------- values

  /** The theme used when no colours could be extracted (line 36). */
  const FallbackColors: ExtractedColors :=
    ExtractedColors("#3B82F6", ["#60A5FA", "#93C5FD", "#BFDBFE", "#DBEAFE"])

  const ColorExtractionMessage: string :=
    "Impossible d'extraire les couleurs de l'image. Utilisation des couleurs par défaut."
  const ImageLoadMessage: string :=
    "Erreur de chargement de l'image pour l'extraction des couleurs. Utilisation des couleurs par défaut."
  const ReadErrorMessage: string := "Erreur lors de la lecture du fichier image."
  const NoImageMessage: string := "Veuillez d'abord téléverser une image."
  const NoKeyMessage: string :=
    "La clé API Gemini n'est pas configurée. Veuillez vérifier les variables d'environnement."
  const ConversionFailedMessage: string := "Une erreur est survenue lors de la conversion du menu."
  const NothingToDownloadMessage: string := "Il n'y a pas de contenu à télécharger."

  /** A nullable string is truthy when present and not empty. */
  predicate Truthy(s: Option<string>) {
    s.Some? && s.value != ""
  }

  /** The page state: one field per `useState` of lines 22-32. */
  datatype State = State(
    selectedImageFile: Option<File>,
    base64ImageData: Option<string>,
    imagePreviewUrl: Option<string>,
    extractedColors: Option<ExtractedColors>,
    menuData: Option<MenuData>,
    generatedHtmlContent: Option<string>,
    isLoading: bool,
    isLoadingColors: bool,
    error: Option<string>)

  function Initial(): (s: State)
    ensures s.menuData.None? && s.generatedHtmlContent.None? && !s.isLoading && !s.isLoadingColors
  {
    State(None, None, None, None, None, None, false, false, None)
  }

  /**
   * The fragment the rendering effect shows (lines 67-78): with the extracted
   * colours when there are some, with the fallback theme when there are none
   * and none are being extracted, and nothing without a document.
   */
  function SelectHtml(menuData: Option<MenuData>, colors: Option<ExtractedColors>, loadingColors: bool): Option<string> {
    if menuData.Some? && colors.Some? then Some(HtmlGenerator.MenuHtml(menuData.value, colors.value))
    else if menuData.Some? && !loadingColors then Some(HtmlGenerator.MenuHtml(menuData.value, FallbackColors))
    else None
  }

  /** `result.split(',')[1]`: the text between the first comma and the next one, if there is a comma. */
  function SecondField(s: string): (r: Option<string>)
    ensures r.Some? <==> ',' in s
    ensures r.Some? ==> ',' !in r.value
    ensures r.Some? ==> exists i :: 0 <= i < |s| && s[i] == ',' && ',' !in s[..i] && r.value == UpToComma(s[i + 1..])
  {
    if s == [] then None
    else if s[0] == ',' then Some(UpToComma(s[1..]))
    else SecondField(s[1..])
  }

  /** The text before the first comma, or all of it. */
  function UpToComma(s: string): (r: string)
    ensures ',' !in r
    ensures StartsWith(s, r)
    ensures |r| < |s| ==> s[|r|] == ','
  {
    if s == [] || s[0] == ',' then [] else [s[0]] + UpToComma(s[1..])
  }

  /** The edits of lines 208-279; additions carry the identifier `uuidv4()` returned. */
  datatype Edit =
    | RenameRestaurant(newName: string)
    | ChangeCategory(categoryId: Id, categoryPatch: MenuEdits.CategoryPatch)
    | ChangeItem(categoryId: Id, itemId: Id, itemPatch: MenuEdits.ItemPatch)
    | AddCategory(newId: Id)
    | DeleteCategory(categoryId: Id)
    | AddItem(categoryId: Id, newId: Id)
    | DeleteItem(categoryId: Id, itemId: Id)

  function ApplyEdit(prev: Option<MenuData>, e: Edit): (r: Option<MenuData>)
    ensures r.Some? <==> prev.Some? || e.AddCategory?
  {
    match e
    case RenameRestaurant(name) => MenuEdits.Rename(prev, name)
    case ChangeCategory(c, p) => MenuEdits.EditCategory(prev, c, p)
    case ChangeItem(c, i, p) => MenuEdits.EditItem(prev, c, i, p)
    case AddCategory(id) => MenuEdits.AddCategory(prev, id)
    case DeleteCategory(c) => MenuEdits.DeleteCategory(prev, c)
    case AddItem(c, id) => MenuEdits.AddItem(prev, c, id)
    case DeleteItem(c, i) => MenuEdits.DeleteItem(prev, c, i)
  }

  // ------------------------------------------------------------ transitions

  /** `resetImageState` (lines 101-109). */
  function Reset(s: State): State {
    s.(selectedImageFile := None, base64ImageData := None, imagePreviewUrl := None,
       extractedColors := None, menuData := None, generatedHtmlContent := None,
       isLoadingColors := false)
  }

  /** `handleImageUpload` up to the point where the file reader is started (lines 80-99). */
  function Upload(s: State, file: Option<File>): State {
    if file.Some? then s.(selectedImageFile := file, menuData := None, generatedHtmlContent := None)
    else Reset(s.(selectedImageFile := file))
  }

  /** The reader's `onloadend` (lines 84-88), with the data URL it read. */
  function ReaderLoaded(s: State, result: string): State {
    s.(imagePreviewUrl := Some(result), base64ImageData := SecondField(result))
  }

  /** The reader's `onerror` (lines 89-92). */
  function ReaderFailed(s: State): State {
    Reset(s.(error := Some(ReadErrorMessage)))
  }

  /** The colour effect when it runs (lines 38-65): it starts an extraction or clears the colours. */
  function ColorEffect(s: State): State {
    if Truthy(s.imagePreviewUrl) && s.selectedImageFile.Some? then s.(isLoadingColors := true)
    else s.(extractedColors := None, isLoadingColors := false)
  }

  /** An extraction that produced colours (lines 45-46, 52). */
  function ColorsExtracted(s: State, colors: ExtractedColors): State {
    s.(extractedColors := Some(colors), isLoadingColors := false)
  }

  /** An extraction that threw (lines 47-52). */
  function ColorExtractionFailed(s: State): State {
    s.(error := Some(ColorExtractionMessage), extractedColors := Some(FallbackColors), isLoadingColors := false)
  }

  /** The image could not be loaded for extraction (lines 55-59). */
  function ImageLoadFailed(s: State): State {
    s.(error := Some(ImageLoadMessage), extractedColors := Some(FallbackColors), isLoadingColors := false)
  }

  /** The rendering effect (lines 67-78). */
  function Render(s: State): State {
    s.(generatedHtmlContent := SelectHtml(s.menuData, s.extractedColors, s.isLoadingColors))
  }

  /** Whether `handleConvert` passes its guards and sends the request. */
  predicate ConvertStarts(s: State, apiKeyConfigured: bool) {
    Truthy(s.base64ImageData) && apiKeyConfigured
  }

  /** `handleConvert` up to the request (lines 111-124). */
  function ConvertRequested(s: State, apiKeyConfigured: bool): State {
    if !Truthy(s.base64ImageData) then s.(error := Some(NoImageMessage))
    else if !apiKeyConfigured then s.(error := Some(NoKeyMessage))
    else s.(isLoading := true, error := None, menuData := None, generatedHtmlContent := None)
  }

  /**
   * The end of `handleConvert` (lines 126-135), with what `extractMenuData`
   * returned: the document, or the message of the error it threw.
   */
  function ConvertCompleted(s: State, outcome: Result<MenuData, string>): State {
    match outcome
    case Ok(d) => s.(menuData := Some(d), isLoading := false)
    case Err(m) => s.(error := Some(if m != "" then m else ConversionFailedMessage), isLoading := false)
  }

  /** An edit handler (lines 208-279). */
  function ApplyEditTo(s: State, e: Edit): State {
    s.(menuData := ApplyEdit(s.menuData, e))
  }

  /** `handleDownload`'s guard (lines 144-147). */
  function DownloadGuard(s: State): State {
    if Truthy(s.generatedHtmlContent) then s else s.(error := Some(NothingToDownloadMessage))
  }

  // ------------------------------------------------------------ the session

  /** The page's state, overwritten by the handlers and effects. */
  class Session {
    var selectedImageFile: Option<File>
    var base64ImageData: Option<string>
    var imagePreviewUrl: Option<string>
    var extractedColors: Option<ExtractedColors>
    var menuData: Option<MenuData>
    var generatedHtmlContent: Option<string>
    var isLoading: bool
    var isLoadingColors: bool
    var error: Option<string>

    function Snapshot(): State
      reads this
    {
      State(selectedImageFile, base64ImageData, imagePreviewUrl, extractedColors, menuData,
            generatedHtmlContent, isLoading, isLoadingColors, error)
    }

    constructor()
      ensures Snapshot() == Initial()
    {
      selectedImageFile, base64ImageData, imagePreviewUrl := None, None, None;
      extractedColors, menuData, generatedHtmlContent := None, None, None;
      isLoading, isLoadingColors, error := false, false, None;
    }

    method ResetImageState()
      modifies this
      ensures Snapshot() == Reset(old(Snapshot()))
    {
      selectedImageFile := None;
      base64ImageData := None;
      imagePreviewUrl := None;
      extractedColors := None;
      menuData := None;
      generatedHtmlContent := None;
      isLoadingColors := false;
    }

    method HandleImageUpload(file: Option<File>)
      modifies this
      ensures Snapshot() == Upload(old(Snapshot()), file)
    {
      selectedImageFile := file;
      if file.Some? {
        menuData := None;
        generatedHtmlContent := None;
      } else {
        ResetImageState();
      }
    }

    method OnReaderLoaded(result: string)
      modifies this
      ensures Snapshot() == ReaderLoaded(old(Snapshot()), result)
    {
      imagePreviewUrl := Some(result);
      base64ImageData := SecondField(result);
    }

    method OnReaderError()
      modifies this
      ensures Snapshot() == ReaderFailed(old(Snapshot()))
    {
      error := Some(ReadErrorMessage);
      ResetImageState();
    }

    method RunColorEffect()
      modifies this
      ensures Snapshot() == ColorEffect(old(Snapshot()))
    {
      if imagePreviewUrl.Some? && imagePreviewUrl.value != "" && selectedImageFile.Some? {
        isLoadingColors := true;
      } else {
        extractedColors := None;
        isLoadingColors := false;
      }
    }

    method OnColorsExtracted(colors: ExtractedColors)
      modifies this
      ensures Snapshot() == ColorsExtracted(old(Snapshot()), colors)
    {
      extractedColors := Some(colors);
      isLoadingColors := false;
    }

    method OnColorExtractionError()
      modifies this
      ensures Snapshot() == ColorExtractionFailed(old(Snapshot()))
    {
      error := Some(ColorExtractionMessage);
      extractedColors := Some(FallbackColors);
      isLoadingColors := false;
    }

    method OnImageLoadError()
      modifies this
      ensures Snapshot() == ImageLoadFailed(old(Snapshot()))
    {
      error := Some(ImageLoadMessage);
      extractedColors := Some(FallbackColors);
      isLoadingColors := false;
    }

    /** The rendering effect, building the fragment with the generator. */
    method RunRenderEffect()
      modifies this
      ensures Snapshot() == Render(old(Snapshot()))
    {
      if menuData.Some? && extractedColors.Some? {
        var html := HtmlGenerator.GenerateMenuHtml(menuData.value, extractedColors.value);
        generatedHtmlContent := Some(html);
      } else if menuData.Some? && !isLoadingColors {
        var html := HtmlGenerator.GenerateMenuHtml(menuData.value, FallbackColors);
        generatedHtmlContent := Some(html);
      } else {
        generatedHtmlContent := None;
      }
    }

    /** `handleConvert` up to the request; `started` says whether the request is sent. */
    method HandleConvert(apiKeyConfigured: bool) returns (started: bool)
      modifies this
      ensures started == ConvertStarts(old(Snapshot()), apiKeyConfigured)
      ensures Snapshot() == ConvertRequested(old(Snapshot()), apiKeyConfigured)
    {
      if base64ImageData.None? || base64ImageData.value == "" {
        error := Some(NoImageMessage);
        return false;
      }
      if !apiKeyConfigured {
        error := Some(NoKeyMessage);
        return false;
      }
      isLoading := true;
      error := None;
      menuData := None;
      generatedHtmlContent := None;
      started := true;
    }

    method OnConvertCompleted(outcome: Result<MenuData, string>)
      modifies this
      ensures Snapshot() == ConvertCompleted(old(Snapshot()), outcome)
    {
      match outcome {
        case Ok(d) =>
          menuData := Some(d);
        case Err(m) =>
          error := Some(if m != "" then m else ConversionFailedMessage);
      }
      isLoading := false;
    }

    method HandleEdit(e: Edit)
      modifies this
      ensures Snapshot() == ApplyEditTo(old(Snapshot()), e)
    {
      menuData := ApplyEdit(menuData, e);
    }

    /** `handleDownload`: the name of the file to save, or nothing when there is no fragment. */
    method HandleDownload() returns (filename: Option<string>)
      modifies this
      ensures Snapshot() == DownloadGuard(old(Snapshot()))
      ensures filename.Some? <==> Truthy(old(generatedHtmlContent))
      ensures filename.Some? ==> filename.value == DownloadFilename(old(menuData))
    {
      if generatedHtmlContent.None? || generatedHtmlContent.value == "" {
        error := Some(NothingToDownloadMessage);
        return None;
      }
      filename := Some(DownloadFilename(menuData));
    }
  }

  // ------------------------------------------------------------- file name

  /** The capitals whose lower case is 32 places on: `A`-`Z` and `À`-`Þ` except `×`. */
  predicate ShiftedCapital(c: char) {
    'A' <= c <= 'Z' || ('\U{00C0}' <= c <= '\U{00DE}' && c != '\U{00D7}')
  }

  /**
   * `toLowerCase` on one character, for the ASCII and Latin-1 letters and the
   * two French ligature capitals outside Latin-1 (`Œ` and `Ÿ`).
   */
  function LowerChar(c: char): (r: char)
    ensures !('A' <= r <= 'Z')
    ensures IsWhitespace(r) <==> IsWhitespace(c)
    ensures 'A' <= c <= 'Z' ==> r as int == c as int + 32 && 'a' <= r <= 'z'
    ensures ShiftedCapital(c) ==> r as int == c as int + 32
    ensures c == '\U{0152}' ==> r == '\U{0153}'
    ensures c == '\U{0178}' ==> r == '\U{00FF}'
    ensures !ShiftedCapital(c) && c != '\U{0152}' && c != '\U{0178}' ==> r == c
  {
    if ShiftedCapital(c) then (c as int + 32) as char
    else if c == '\U{0152}' then '\U{0153}'
    else if c == '\U{0178}' then '\U{00FF}'
    else c
  }

  function Lower(s: string): (r: string)
    ensures |r| == |s|
    ensures forall k :: 0 <= k < |s| ==> r[k] == LowerChar(s[k])
  {
    seq(|s|, k requires 0 <= k < |s| => LowerChar(s[k]))
  }

  /** `replace(/\s+/g, '_')`: every maximal run of white space becomes one `_`. */
  function CollapseWhitespace(s: string): (r: string)
    ensures forall k :: 0 <= k < |r| ==> !IsWhitespace(r[k])
    ensures |r| <= |s|
    decreases |s|
  {
    if s == [] then []
    else if IsWhitespace(s[0]) then "_" + CollapseWhitespace(TrimStart(s[1..]))
    else [s[0]] + CollapseWhitespace(s[1..])
  }

  const DefaultBaseName: string := "menu"
  const FileSuffix: string := "_menu.html"

  /** The download file name (lines 148-149). */
  function DownloadFilename(menuData: Option<MenuData>): (f: string)
    ensures EndsWith(f, FileSuffix)
  {
    var name := if menuData.Some? && menuData.value.restaurantName != "" then menuData.value.restaurantName
                else DefaultBaseName;
    var base := CollapseWhitespace(Lower(name));
    assert (base + FileSuffix)[|base|..] == FileSuffix;
    base + FileSuffix
  }

  // ---------------------------------------------------------------- lemmas

  /**
   * The rendering rule: a fragment is shown exactly when there is a document
   * and either extracted colours or no extraction under way; it uses the
   * extracted colours when there are some and the fallback theme otherwise.
   */
  lemma RenderRule(s: State)
    ensures var h := Render(s).generatedHtmlContent;
            && (h.Some? <==> s.menuData.Some? && (s.extractedColors.Some? || !s.isLoadingColors))
            && (s.menuData.Some? && s.extractedColors.Some? ==>
                  h == Some(HtmlGenerator.MenuHtml(s.menuData.value, s.extractedColors.value)))
            && (s.menuData.Some? && s.extractedColors.None? && !s.isLoadingColors ==>
                  h == Some(HtmlGenerator.MenuHtml(s.menuData.value, FallbackColors)))
    ensures Render(s).(generatedHtmlContent := s.generatedHtmlContent) == s
  {
  }

  /** Reset clears the image, the colours, the document and the fragment together, and nothing else. */
  lemma ResetClearsDerivedState(s: State)
    ensures var t := Reset(s);
            && t.selectedImageFile.None? && t.base64ImageData.None? && t.imagePreviewUrl.None?
            && t.extractedColors.None? && t.menuData.None? && t.generatedHtmlContent.None?
            && !t.isLoadingColors
            && t.isLoading == s.isLoading && t.error == s.error
  {
  }

  /** Selecting a file drops the document and the fragment; clearing the selection resets. */
  lemma UploadClears(s: State, file: Option<File>)
    ensures Upload(s, file).menuData.None? && Upload(s, file).generatedHtmlContent.None?
    ensures file.Some? ==> Upload(s, file).selectedImageFile == file
                           && Upload(s, file).imagePreviewUrl == s.imagePreviewUrl
    ensures file.None? ==> Upload(s, file) == Reset(s)
  {
  }

  /**
   * The guards of `handleConvert`: without image data only the error changes,
   * to the upload request; with data but without a key, only the error
   * changes, to the configuration message; otherwise the loading flag is set
   * and the error, the document and the fragment are cleared.
   */
  lemma ConvertGuards(s: State, apiKeyConfigured: bool)
    ensures !Truthy(s.base64ImageData) ==> ConvertRequested(s, apiKeyConfigured) == s.(error := Some(NoImageMessage))
    ensures Truthy(s.base64ImageData) && !apiKeyConfigured ==>
              ConvertRequested(s, apiKeyConfigured) == s.(error := Some(NoKeyMessage))
    ensures ConvertStarts(s, apiKeyConfigured) ==>
              var t := ConvertRequested(s, apiKeyConfigured);
              t.isLoading && t.error.None? && t.menuData.None? && t.generatedHtmlContent.None?
  {
  }

  /** A failed conversion keeps the document and reports the error's message, or a default when it is empty. */
  lemma ConvertOutcome(s: State, outcome: Result<MenuData, string>)
    ensures !ConvertCompleted(s, outcome).isLoading
    ensures outcome.Ok? ==> ConvertCompleted(s, outcome).menuData == Some(outcome.value)
    ensures outcome.Err? ==> ConvertCompleted(s, outcome).menuData == s.menuData
                             && ConvertCompleted(s, outcome).error.Some?
                             && ConvertCompleted(s, outcome).error.value != ""
  {
  }

  /** A fragment is only ever held together with a document. */
  predicate HtmlHasMenu(s: State) {
    s.generatedHtmlContent.Some? ==> s.menuData.Some?
  }

  /** The image and colour transitions keep a fragment paired with a document. */
  lemma ImageTransitionsKeepHtmlHasMenu(s: State, file: Option<File>, result: string, colors: ExtractedColors)
    requires HtmlHasMenu(s)
    ensures HtmlHasMenu(Initial())
    ensures HtmlHasMenu(Reset(s)) && HtmlHasMenu(Upload(s, file)) && HtmlHasMenu(ReaderLoaded(s, result))
    ensures HtmlHasMenu(ReaderFailed(s)) && HtmlHasMenu(ColorEffect(s)) && HtmlHasMenu(ColorsExtracted(s, colors))
    ensures HtmlHasMenu(ColorExtractionFailed(s)) && HtmlHasMenu(ImageLoadFailed(s))
  {
  }

  /**
   * Conversion, edits and the download guard keep a fragment paired with a
   * document (rendering always does, by `RenderRule`).
   */
  lemma DocumentTransitionsKeepHtmlHasMenu(s: State, key: bool, outcome: Result<MenuData, string>, e: Edit)
    requires HtmlHasMenu(s)
    ensures HtmlHasMenu(ConvertRequested(s, key)) && HtmlHasMenu(ConvertCompleted(s, outcome))
    ensures HtmlHasMenu(ApplyEditTo(s, e)) && HtmlHasMenu(DownloadGuard(s))
  {
  }

  /** A data URL `header,payload` whose payload has no comma yields the payload as the image data. */
  lemma {:induction false} DataUrlPayload(header: string, payload: string)
    requires ',' !in header && ',' !in payload
    ensures SecondField(header + "," + payload) == Some(payload)
    decreases |header|
  {
    if header == [] {
      assert header + "," + payload == [','] + payload;
      UpToCommaOfPlain(payload);
    } else {
      assert (header + "," + payload)[1..] == header[1..] + "," + payload;
      DataUrlPayload(header[1..], payload);
    }
  }

  lemma {:induction false} UpToCommaOfPlain(s: string)
    requires ',' !in s
    ensures UpToComma(s) == s
  {
    if s != [] {
      UpToCommaOfPlain(s[1..]);
    }
  }

  /** A run of white space followed by another character, or by the end, becomes one `_`. */
  lemma CollapseRun(w: string, s: string)
    requires w != [] && AllWhitespace(w)
    requires s == [] || !IsWhitespace(s[0])
    ensures CollapseWhitespace(w + s) == "_" + CollapseWhitespace(s)
  {
    assert (w + s)[1..] == w[1..] + s;
    TrimStartOfRun(w[1..], s);
  }

  lemma {:induction false} TrimStartOfRun(w: string, s: string)
    requires AllWhitespace(w)
    requires s == [] || !IsWhitespace(s[0])
    ensures TrimStart(w + s) == s
    decreases |w|
  {
    if w == [] {
      assert w + s == s;
    } else {
      assert (w + s)[1..] == w[1..] + s;
      TrimStartOfRun(w[1..], s);
    }
  }

  /** Text without white space is left as it is. */
  lemma {:induction false} CollapsePlain(s: string)
    requires forall k :: 0 <= k < |s| ==> !IsWhitespace(s[k])
    ensures CollapseWhitespace(s) == s
    decreases |s|
  {
    if s != [] {
      CollapsePlain(s[1..]);
    }
  }

  /** Text without upper-case letters is left as it is by `Lower`. */
  lemma LowerOfLowerCase(s: string)
    requires forall k :: 0 <= k < |s| ==> 'a' <= s[k] <= 'z' || s[k] == '_' || s[k] == '.'
    ensures Lower(s) == s
  {
  }

  /**
   * The file name is the restaurant name lower-cased, its white-space runs
   * replaced by `_`, followed by `_menu.html`, and it contains no white space.
   */
  lemma DownloadFilenameRule(menuData: Option<MenuData>)
    ensures menuData.Some? && menuData.value.restaurantName != "" ==>
              DownloadFilename(menuData) == CollapseWhitespace(Lower(menuData.value.restaurantName)) + FileSuffix
    ensures forall k :: 0 <= k < |DownloadFilename(menuData)| ==> !IsWhitespace(DownloadFilename(menuData)[k])
  {
    var f := DownloadFilename(menuData);
    var name := if menuData.Some? && menuData.value.restaurantName != "" then menuData.value.restaurantName
                else DefaultBaseName;
    var base := CollapseWhitespace(Lower(name));
    assert f == base + FileSuffix;
    SuffixHasNoWhitespace();
    forall k | 0 <= k < |f| ensures !IsWhitespace(f[k]) {
      if k >= |base| {
        assert f[k] == FileSuffix[k - |base|];
      }
    }
  }

  lemma SuffixHasNoWhitespace()
    ensures forall k :: 0 <= k < |FileSuffix| ==> !IsWhitespace(FileSuffix[k])
  {
    LowerOfLowerCase(FileSuffix);
  }

  /** Without a restaurant name the file is `menu_menu.html`. */
  lemma DefaultFilename(menuData: Option<MenuData>)
    requires menuData.None? || menuData.value.restaurantName == ""
    ensures DownloadFilename(menuData) == DefaultBaseName + FileSuffix
  {
    LowerOfLowerCase(DefaultBaseName);
    CollapsePlain(DefaultBaseName);
  }

  /** Lower-casing twice is lower-casing once. */
  lemma LowerIdempotent(s: string)
    ensures Lower(Lower(s)) == Lower(s)
  {
  }
}
