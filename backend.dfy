/**
 * The Flask backend's request handling (`app.py`): the language tables, the file-name
 * filter `allowed_file`, the post-processing around the two models, and the chain of
 * guards in the `/api/upload` handler that either answers with an error or produces the
 * caption, the translation and the narration file name.
 *
 * Everything the handler delegates to a library or a model is a field of `Services`:
 * `secure_filename`, `os.path.splitext`, `file.save`, the caption decoder and the
 * translation pipeline. The handler's observable side effects are returned as a trace.
 */
module Backend {
  import opened Wrappers
  import opened Text

  // ---------------------------------------------------------------------------
  // Configuration and tables

  const UploadFolder: string := "static/uploads"

  /** `lang_map`: target language name to the translation model's language code. */
  const LangMap: map<string, string> := map[
    "English" := "eng_Latn",
    "Hindi" := "hin_Deva",
    "Tamil" := "tam_Taml",
    "Telugu" := "tel_Telu",
    "Marathi" := "mar_Maru",
    "Kannada" := "kan_Knda"
  ]

  /** `audio_pairs`: target language name to the speech synthesiser's language code. */
  const AudioPairs: map<string, string> := map[
    "English" := "en",
    "Hindi" := "hi",
    "Tamil" := "ta",
    "Telugu" := "te",
    "Marathi" := "mr",
    "Kannada" := "kn"
  ]

  const AllowedExtensions: set<string> := {"png", "jpg", "jpeg"}

  const DefaultLanguage: string := "Hindi"
  const SourceLanguageCode: string := "eng_Latn"

  const NoFilePartMessage: string := "No file part in the request"
  const NoFileSelectedMessage: string := "No file selected for uploading"
  const UnsupportedLanguagePrefix: string := "Unsupported language: "
  const SaveFailedMessage: string := "Failed to save the uploaded file"
  const CaptionFailedMessage: string := "Failed to generate caption for the image"
  const TranslationFailedMessage: string := "Failed to translate the caption"
  const DisallowedTypeMessage: string := "Allowed file types are png, jpg, jpeg"

  // ---------------------------------------------------------------------------
  // allowed_file

  /** `filename` splits at its last dot into `stem` and the extension `ext`. */
  ghost predicate LastDotSplit(filename: string, stem: string, ext: string) {
    filename == stem + "." + ext && '.' !in ext
  }

  /**
   * `allowed_file`: the text after the last dot, lower-cased, is one of the allowed
   * extensions. A name without a dot is refused before any split.
   */
  function AllowedFile(filename: string): (ok: bool)
    ensures '.' !in filename ==> !ok
  {
    '.' in filename &&
      match SplitAtLast(filename, '.')
      case Some((_, ext)) => Lower(ext) in AllowedExtensions
  }

  /** A file name is allowed exactly when its extension after the last dot is allowed. */
  lemma AllowedFileIff(filename: string)
    ensures AllowedFile(filename) <==>
      exists stem, ext :: LastDotSplit(filename, stem, ext) && Lower(ext) in AllowedExtensions
  {
    if AllowedFile(filename) {
      var (stem, ext) := SplitAtLast(filename, '.').value;
      assert LastDotSplit(filename, stem, ext);
    }
    if exists stem, ext :: LastDotSplit(filename, stem, ext) && Lower(ext) in AllowedExtensions {
      var stem, ext :| LastDotSplit(filename, stem, ext) && Lower(ext) in AllowedExtensions;
      SplitAtLastUnique(stem, '.', ext);
    }
  }

  /** Case is ignored. */
  lemma AllowedFileIgnoresCase()
    ensures AllowedFile("a.JPG")
  {
    assert Lower("JPG") == "jpg" by {
      assert LowerChar('J') == 'j' && LowerChar('P') == 'p' && LowerChar('G') == 'g';
    }
    AcceptedBy("a", "JPG", "jpg");
    assert "a" + "." + "JPG" == "a.JPG";
  }

  /** Only the text after the last dot counts, and the stem may be empty. */
  lemma AllowedFileUsesLastExtension()
    ensures AllowedFile("x.tar.png") && AllowedFile(".jpeg")
  {
    assert Lower("png") == "png";
    assert Lower("jpeg") == "jpeg";
    AcceptedBy("x.tar", "png", "png");
    AcceptedBy("", "jpeg", "jpeg");
    assert "x.tar" + "." + "png" == "x.tar.png";
    assert "" + "." + "jpeg" == ".jpeg";
  }

  /** An extension hidden before another one, an empty extension and no dot are refused. */
  lemma AllowedFileRejects()
    ensures !AllowedFile("a.png.exe") && !AllowedFile("a.") && !AllowedFile("png")
  {
    assert Lower("exe") == "exe";
    RejectedBy("a.png", "exe");
    RejectedBy("a", "");
    assert "a.png" + "." + "exe" == "a.png.exe";
    assert "a" + "." + "" == "a.";
  }

  lemma AcceptedBy(stem: string, ext: string, lower: string)
    requires '.' !in ext && Lower(ext) == lower && lower in AllowedExtensions
    ensures AllowedFile(stem + "." + ext)
  {
    SplitAtLastUnique(stem, '.', ext);
  }

  lemma RejectedBy(stem: string, ext: string)
    requires '.' !in ext && Lower(ext) !in AllowedExtensions
    ensures !AllowedFile(stem + "." + ext)
  {
    SplitAtLastUnique(stem, '.', ext);
  }

  // ---------------------------------------------------------------------------
  // The two model pipelines, around opaque model outputs

  /**
   * `generate_cap` after the model: the decoded text (`None` when loading the image or
   * running the model raised) is stripped and capitalized. The caption is the stripped
   * text up to case, with its first letter upper-case and the others lower-case; it is
   * empty exactly when the decoded text is all whitespace, and otherwise neither starts
   * nor ends with whitespace.
   */
  function GenerateCap(decoded: Option<string>): (caption: Option<string>)
    ensures caption.None? <==> decoded.None?
    ensures caption.Some? ==> Lower(caption.value) == Lower(Strip(decoded.value))
    ensures caption.Some? ==>
      (caption.value == [] <==> forall k :: 0 <= k < |decoded.value| ==> IsSpace(decoded.value[k]))
    ensures caption.Some? && caption.value != [] ==>
      var c := caption.value;
      && !IsSpace(c[0]) && !IsSpace(c[|c| - 1]) && !IsAsciiLower(c[0])
      && forall k :: 1 <= k < |c| ==> !IsAsciiUpper(c[k])
  {
    match decoded
    case None => None
    case Some(text) => Some(Capitalize(Strip(text)))
  }

  /**
   * The partner of `GenerateCap`: the caption of a decoded text is the one string that
   * equals, up to case, the text with the whitespace around it removed, and has its
   * first letter upper-case and the others lower-case.
   */
  lemma CaptionDetermined(text: string, i: int, j: int, c: string)
    requires Trims(text, i, j) && (i == j || (!IsSpace(text[i]) && !IsSpace(text[j - 1])))
    requires Lower(c) == Lower(text[i..j])
    requires c == [] || !IsAsciiLower(c[0])
    requires forall k :: 1 <= k < |c| ==> !IsAsciiUpper(c[k])
    ensures GenerateCap(Some(text)) == Some(c)
  {
    StripUnique(text, i, j);
    CapitalizeUnique(text[i..j], c);
  }

  /** A decoded " a DOG\n" is captioned "A dog". */
  lemma CaptionExample()
    ensures GenerateCap(Some(" a DOG\n")) == Some("A dog")
  {
    var text := " a DOG\n";
    assert text[1..6] == "a DOG";
    assert Lower("A dog") == "a dog" == Lower("a DOG");
    CaptionDetermined(text, 1, 6, "A dog");
  }

  /**
   * `generate_translations`: an empty source or target language code gives `None`
   * without running the model; otherwise the result is the pipeline's, where `translate`
   * stands for preprocessing, tokenizing, generating, decoding and postprocessing, and
   * `None` for an exception raised by any of them.
   */
  function GenerateTranslations(sentence: string, srcLang: string, tgtLang: string,
                                translate: (string, string, string) -> Option<string>): (translated: Option<string>)
    ensures srcLang == [] || tgtLang == [] ==> translated.None?
  {
    if srcLang == [] || tgtLang == [] then None else translate(sentence, srcLang, tgtLang)
  }

  // ---------------------------------------------------------------------------
  // The /api/upload handler

  /** What the handler reads from the multipart request. */
  datatype Request = Request(hasFilePart: bool, filename: string, language: Option<string>)

  /** The library calls and model runs the handler delegates to. */
  datatype Services = Services(
    secureFilename: string -> string,                      // werkzeug's secure_filename
    splitextStem: string -> string,                        // os.path.splitext(name)[0]
    saveSucceeds: string -> bool,                          // file.save(path) did not raise
    decodeCaption: string -> Option<string>,               // caption model output for an image path
    translate: (string, string, string) -> Option<string>  // translation pipeline output
  )

  /** A JSON response: status code and a flat JSON object. */
  datatype Response = Response(status: int, body: map<string, string>)

  /** The handler's side effects, in the order it performs them. */
  datatype Effect =
    | SaveUpload(path: string)
    | CaptionImage(path: string)
    | TranslateCaption(sentence: string, srcLang: string, tgtLang: string)
    | SynthesizeSpeech(text: string, lang: string)
    | WriteAudio(path: string)

  datatype Handled = Handled(response: Response, effects: seq<Effect>)

  function ErrorResponse(message: string, status: int): Response {
    Response(status, map["error" := message])
  }

  const SuccessKeys: set<string> := {"filename", "caption", "translated", "audio_file"}

  /** `os.path.join(UPLOAD_FOLDER, name)` for the relative names the handler builds. */
  function UploadPath(name: string): string {
    UploadFolder + "/" + name
  }

  /** `request.form.get('language', 'Hindi')`. */
  function TargetLanguage(req: Request): (target: string)
    ensures req.language.Some? ==> target == req.language.value
    ensures req.language.None? ==> target == "Hindi"
  {
    req.language.GetOr(DefaultLanguage)
  }

  /** The request passes every check made before the file is saved. */
  predicate Accepted(req: Request) {
    req.hasFilePart && req.filename != [] && TargetLanguage(req) in LangMap && AllowedFile(req.filename)
  }

  function SavedName(req: Request, svc: Services): string {
    svc.secureFilename(req.filename)
  }

  /** `audio_pairs.get(target_lang, 'en')`. */
  function AudioLanguage(target: string): (code: string)
    ensures target in AudioPairs ==> code == AudioPairs[target]
    ensures target !in AudioPairs ==> code == "en"
    ensures code in {"en", "hi", "ta", "te", "mr", "kn"}
  {
    if target in AudioPairs then AudioPairs[target] else "en"
  }

  /** The outcome of the checks made before anything is written. */
  datatype Checked = Pass(target: string) | Reject(response: Response)

  /**
   * The first four guards of `upload_file`, in source order: the file part, the file
   * name, the target language (defaulting to Hindi), the extension. A request passes
   * exactly when it is `Accepted`, and then with its target language; otherwise it is
   * answered with a 400 error.
   */
  function CheckRequest(req: Request): (c: Checked)
    ensures c.Pass? <==> Accepted(req)
    ensures c.Pass? ==> c.target == TargetLanguage(req) && c.target in LangMap
    ensures c.Reject? ==> c.response.status == 400 && c.response.body.Keys == {"error"}
  {
    if !req.hasFilePart then
      Reject(ErrorResponse(NoFilePartMessage, 400))
    else if req.filename == [] then
      Reject(ErrorResponse(NoFileSelectedMessage, 400))
    else if TargetLanguage(req) !in LangMap then
      Reject(ErrorResponse(UnsupportedLanguagePrefix + TargetLanguage(req), 400))
    else if !AllowedFile(req.filename) then
      Reject(ErrorResponse(DisallowedTypeMessage, 400))
    else
      Pass(TargetLanguage(req))
  }

  /**
   * The part of `upload_file` that runs with a caption in hand: translation is always
   * attempted, an empty or missing translation is a 500, and otherwise the narration is
   * spoken and written and the four-key payload returned.
   */
  function TranslateAndNarrate(name: string, target: string, caption: string, svc: Services): (h: Handled)
    requires target in LangMap
    ensures h.response.status in {200, 500}
    ensures |h.effects| > 0 && h.effects[0] == TranslateCaption(caption, SourceLanguageCode, LangMap[target])
    ensures h.response.status == 200 ==> h.response.body.Keys == SuccessKeys
    ensures h.response.status == 500 ==> h.response == ErrorResponse(TranslationFailedMessage, 500)
  {
    var tried := [TranslateCaption(caption, SourceLanguageCode, LangMap[target])];
    var translated := GenerateTranslations(caption, SourceLanguageCode, LangMap[target], svc.translate);
    if translated.None? || translated.value == [] then
      Handled(ErrorResponse(TranslationFailedMessage, 500), tried)
    else
      var audioFile := svc.splitextStem(name) + "_audio_" + target + ".mp3";
      var shown := if target != "English" then translated.value else caption;
      var body := map[
        "filename" := name,
        "caption" := caption,
        "translated" := shown,
        "audio_file" := audioFile
      ];
      Handled(Response(200, body),
              tried + [SynthesizeSpeech(shown, AudioLanguage(target)), WriteAudio(UploadPath(audioFile))])
  }

  /** `upload_file` after validation: save, caption, then translate and narrate. */
  function SaveAndProcess(name: string, target: string, svc: Services): (h: Handled)
    requires target in LangMap
    ensures h.response.status in {200, 500}
    ensures |h.effects| > 0 && h.effects[0] == SaveUpload(UploadPath(name))
    ensures h.response.status == 200 ==> h.response.body.Keys == SuccessKeys
    ensures h.response.status == 500 ==> h.response.body.Keys == {"error"}
  {
    var path := UploadPath(name);
    if !svc.saveSucceeds(path) then
      Handled(ErrorResponse(SaveFailedMessage, 500), [SaveUpload(path)])
    else
      var caption := GenerateCap(svc.decodeCaption(path));
      if caption.None? || caption.value == [] then
        Handled(ErrorResponse(CaptionFailedMessage, 500), [SaveUpload(path), CaptionImage(path)])
      else
        var rest := TranslateAndNarrate(name, target, caption.value, svc);
        Handled(rest.response, [SaveUpload(path), CaptionImage(path)] + rest.effects)
  }

  /**
   * `upload_file`: the guards in source order, each ending the request with an error
   * response, then the success payload. A 400 is answered before anything is written;
   * every other answer comes after the upload was saved.
   */
  function UploadFile(req: Request, svc: Services): (h: Handled)
    ensures h.response.status in {200, 400, 500}
    ensures h.response.status == 200 ==> h.response.body.Keys == SuccessKeys
    ensures h.response.status != 200 ==> h.response.body.Keys == {"error"}
    ensures h.response.status == 400 <==> h.effects == []
    ensures h.response.status != 400 ==> |h.effects| > 0 && h.effects[0] == SaveUpload(UploadPath(SavedName(req, svc)))
  {
    match CheckRequest(req)
    case Reject(response) => Handled(response, [])
    case Pass(target) => SaveAndProcess(SavedName(req, svc), target, svc)
  }

  /** The caption `upload_file` works with, once the upload is saved. */
  function CaptionOf(req: Request, svc: Services): Option<string> {
    GenerateCap(svc.decodeCaption(UploadPath(SavedName(req, svc))))
  }

  // ---------------------------------------------------------------------------
  // The guards, in order

  lemma MissingFilePartFirst(req: Request, svc: Services)
    requires !req.hasFilePart
    ensures UploadFile(req, svc) == Handled(ErrorResponse(NoFilePartMessage, 400), [])
  {
  }

  lemma EmptyFilenameSecond(req: Request, svc: Services)
    requires req.hasFilePart && req.filename == []
    ensures UploadFile(req, svc) == Handled(ErrorResponse(NoFileSelectedMessage, 400), [])
  {
  }

  /** The language is checked before the extension: a bad language wins over a bad type. */
  lemma UnsupportedLanguageBeforeExtension(req: Request, svc: Services)
    requires req.hasFilePart && req.filename != []
    requires TargetLanguage(req) !in LangMap
    ensures UploadFile(req, svc) ==
      Handled(ErrorResponse(UnsupportedLanguagePrefix + TargetLanguage(req), 400), [])
  {
  }

  lemma DisallowedExtensionFourth(req: Request, svc: Services)
    requires req.hasFilePart && req.filename != [] && TargetLanguage(req) in LangMap
    requires !AllowedFile(req.filename)
    ensures UploadFile(req, svc) == Handled(ErrorResponse(DisallowedTypeMessage, 400), [])
  {
  }

  /** A request without a `language` field is handled exactly as one asking for Hindi. */
  lemma MissingLanguageMeansHindi(req: Request, svc: Services)
    requires req.language.None?
    ensures UploadFile(req, svc) == UploadFile(req.(language := Some("Hindi")), svc)
  {
    var hindi := req.(language := Some("Hindi"));
    assert CheckRequest(req) == CheckRequest(hindi);
    assert SavedName(req, svc) == SavedName(hindi, svc);
  }

  /** The language field is accepted exactly for the six names of `lang_map`. */
  lemma SupportedLanguages(req: Request)
    requires req.hasFilePart && req.filename != []
    ensures CheckRequest(req) == Reject(ErrorResponse(UnsupportedLanguagePrefix + TargetLanguage(req), 400))
        <==> TargetLanguage(req) !in {"English", "Hindi", "Tamil", "Telugu", "Marathi", "Kannada"}
  {
    var tail := TargetLanguage(req);
    var msg := UnsupportedLanguagePrefix + tail;
    assert msg[..|UnsupportedLanguagePrefix|] == UnsupportedLanguagePrefix;
    assert msg != DisallowedTypeMessage by {
      assert msg[0] != DisallowedTypeMessage[0];
    }
  }

  // ---------------------------------------------------------------------------
  // The failures after validation

  lemma SaveFailure(req: Request, svc: Services)
    requires Accepted(req)
    requires !svc.saveSucceeds(UploadPath(SavedName(req, svc)))
    ensures UploadFile(req, svc) ==
      Handled(ErrorResponse(SaveFailedMessage, 500), [SaveUpload(UploadPath(SavedName(req, svc)))])
  {
  }

  /** An empty or missing caption is a 500, and translation is never attempted. */
  lemma CaptionFailureSkipsTranslation(req: Request, svc: Services)
    requires Accepted(req) && svc.saveSucceeds(UploadPath(SavedName(req, svc)))
    requires CaptionOf(req, svc).None? || CaptionOf(req, svc).value == []
    ensures UploadFile(req, svc) == Handled(ErrorResponse(CaptionFailedMessage, 500),
      [SaveUpload(UploadPath(SavedName(req, svc))), CaptionImage(UploadPath(SavedName(req, svc)))])
  {
  }

  /**
   * Once there is a caption, translation is always attempted into the target's code,
   * even when the target is English, and an empty or missing translation is then a 500.
   */
  lemma TranslationAlwaysAttempted(name: string, target: string, caption: string, svc: Services)
    requires target in LangMap
    ensures TranslateAndNarrate(name, target, caption, svc).effects[0] ==
      TranslateCaption(caption, "eng_Latn", LangMap[target])
    ensures var t := svc.translate(caption, "eng_Latn", LangMap[target]);
      t.None? || t.value == [] <==>
      TranslateAndNarrate(name, target, caption, svc).response == ErrorResponse(TranslationFailedMessage, 500)
  {
    assert LangMap[target] != [];
  }

  // ---------------------------------------------------------------------------
  // Success

  /** The handler succeeds exactly when every check and every foreign step succeeds. */
  lemma SuccessIff(req: Request, svc: Services)
    ensures UploadFile(req, svc).response.status == 200 <==>
      && Accepted(req)
      && svc.saveSucceeds(UploadPath(SavedName(req, svc)))
      && CaptionOf(req, svc).Some? && CaptionOf(req, svc).value != []
      && var t := svc.translate(CaptionOf(req, svc).value, "eng_Latn", LangMap[TargetLanguage(req)]);
         t.Some? && t.value != []
  {
    if Accepted(req) && svc.saveSucceeds(UploadPath(SavedName(req, svc)))
       && CaptionOf(req, svc).Some? && CaptionOf(req, svc).value != [] {
      TranslationAlwaysAttempted(SavedName(req, svc), TargetLanguage(req), CaptionOf(req, svc).value, svc);
    }
  }

  /**
   * The success payload: the sanitized name, the caption, the caption itself as the
   * "translation" into English and the model's translation otherwise, and the narration
   * file, spoken from that same text with the target's speech code and written next to
   * the upload.
   */
  lemma SuccessPayload(name: string, target: string, caption: string, svc: Services)
    requires target in LangMap
    requires TranslateAndNarrate(name, target, caption, svc).response.status == 200
    ensures var h := TranslateAndNarrate(name, target, caption, svc);
      var translated := svc.translate(caption, SourceLanguageCode, LangMap[target]);
      && translated.Some?
      && h.response.body["filename"] == name
      && h.response.body["caption"] == caption
      && h.response.body["translated"] == (if target == "English" then caption else translated.value)
      && h.response.body["audio_file"] == svc.splitextStem(name) + "_audio_" + target + ".mp3"
      && h.effects == [TranslateCaption(caption, SourceLanguageCode, LangMap[target]),
                       SynthesizeSpeech(h.response.body["translated"], AudioPairs[target]),
                       WriteAudio(UploadPath(h.response.body["audio_file"]))]
  {
    assert LangMap[target] != [];
  }

  /**
   * A 200 from the handler itself: the body names the sanitized upload, holds the
   * caption of the saved image, the caption or its translation, and the narration file
   * named after the upload and the target language.
   */
  lemma HandlerSuccessPayload(req: Request, svc: Services)
    requires UploadFile(req, svc).response.status == 200
    ensures Accepted(req) && CaptionOf(req, svc).Some?
    ensures var body := UploadFile(req, svc).response.body;
      var name := SavedName(req, svc);
      var target := TargetLanguage(req);
      var caption := CaptionOf(req, svc).value;
      var translated := svc.translate(caption, SourceLanguageCode, LangMap[target]);
      && translated.Some?
      && body["filename"] == name
      && body["caption"] == caption
      && body["translated"] == (if target == "English" then caption else translated.value)
      && body["audio_file"] == svc.splitextStem(name) + "_audio_" + target + ".mp3"
  {
    SuccessIff(req, svc);
    var name := SavedName(req, svc);
    var target := TargetLanguage(req);
    var caption := CaptionOf(req, svc).value;
    assert CheckRequest(req) == Pass(target);
    assert UploadFile(req, svc).response == TranslateAndNarrate(name, target, caption, svc).response;
    SuccessPayload(name, target, caption, svc);
  }

  /** The two tables name the same languages, so the `'en'` fallback is never taken. */
  lemma AudioFallbackUnreachable(target: string)
    requires target in LangMap
    ensures target in AudioPairs && AudioLanguage(target) == AudioPairs[target]
    ensures LangMap.Keys == AudioPairs.Keys
  {
  }
}
