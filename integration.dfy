/**
 * The current form (`App.js`) against the backend (`app.py`): the multipart payload the
 * form posts, as the backend reads it, passes every check except the one on the file
 * extension, and the backend's answer, once the form has settled on it, puts the
 * uploaded image and the narration on screen.
 */
module Integration {
  import opened Wrappers
  import opened Form
  import App
  import Backend

  /** Entry `k` of the payload is a file part under `key`. */
  predicate FileAt(p: Payload, key: string, k: int) {
    0 <= k < |p| && p[k].0 == key && p[k].1.FilePart?
  }

  /** Entry `k` of the payload is a text field under `key`. */
  predicate TextAt(p: Payload, key: string, k: int) {
    0 <= k < |p| && p[k].0 == key && p[k].1.TextPart?
  }

  /** `request.files[key]`: the file of the first file part under `key`. */
  function FirstFile(p: Payload, key: string): (file: Option<Blob>)
    ensures file.Some? <==> exists k :: FileAt(p, key, k)
    ensures file.Some? ==>
      exists k :: && FileAt(p, key, k) && p[k].1.file == file.value
                  && forall j :: 0 <= j < k ==> !FileAt(p, key, j)
    decreases |p|
  {
    if p == [] then None
    else if p[0].0 == key && p[0].1.FilePart? then
      assert FileAt(p, key, 0);
      Some(p[0].1.file)
    else
      var rest := FirstFile(p[1..], key);
      ShiftFile(p, key);
      if rest.Some? then
        var k :| FileAt(p[1..], key, k) && p[1..][k].1.file == rest.value &&
          forall j :: 0 <= j < k ==> !FileAt(p[1..], key, j);
        assert FileAt(p, key, k + 1) && p[k + 1].1.file == rest.value;
        assert forall j :: 0 <= j < k + 1 ==> !FileAt(p, key, j);
        rest
      else
        rest
  }

  /** Past a first entry that is not a file part under `key`, entries shift by one. */
  lemma ShiftFile(p: Payload, key: string)
    requires p != [] && !FileAt(p, key, 0)
    ensures forall k :: 1 <= k ==> (FileAt(p, key, k) <==> FileAt(p[1..], key, k - 1))
    ensures (exists k :: FileAt(p, key, k)) <==> exists k :: FileAt(p[1..], key, k)
  {
    forall k | FileAt(p, key, k) ensures FileAt(p[1..], key, k - 1) {
      assert p[1..][k - 1] == p[k];
    }
    forall k | FileAt(p[1..], key, k) ensures FileAt(p, key, k + 1) {
      assert p[1..][k] == p[k + 1];
    }
  }

  /** `request.form.get(key)`: the text of the first text field under `key`, if any. */
  function FirstText(p: Payload, key: string): (text: Option<string>)
    ensures text.Some? <==> exists k :: TextAt(p, key, k)
    ensures text.Some? ==>
      exists k :: && TextAt(p, key, k) && p[k].1.text == text.value
                  && forall j :: 0 <= j < k ==> !TextAt(p, key, j)
    decreases |p|
  {
    if p == [] then None
    else if p[0].0 == key && p[0].1.TextPart? then
      assert TextAt(p, key, 0);
      Some(p[0].1.text)
    else
      var rest := FirstText(p[1..], key);
      ShiftText(p, key);
      if rest.Some? then
        var k :| TextAt(p[1..], key, k) && p[1..][k].1.text == rest.value &&
          forall j :: 0 <= j < k ==> !TextAt(p[1..], key, j);
        assert TextAt(p, key, k + 1) && p[k + 1].1.text == rest.value;
        assert forall j :: 0 <= j < k + 1 ==> !TextAt(p, key, j);
        rest
      else
        rest
  }

  /** Past a first entry that is not a text field under `key`, entries shift by one. */
  lemma ShiftText(p: Payload, key: string)
    requires p != [] && !TextAt(p, key, 0)
    ensures forall k :: 1 <= k ==> (TextAt(p, key, k) <==> TextAt(p[1..], key, k - 1))
    ensures (exists k :: TextAt(p, key, k)) <==> exists k :: TextAt(p[1..], key, k)
  {
    forall k | TextAt(p, key, k) ensures TextAt(p[1..], key, k - 1) {
      assert p[1..][k - 1] == p[k];
    }
    forall k | TextAt(p[1..], key, k) ensures TextAt(p, key, k + 1) {
      assert p[1..][k] == p[k + 1];
    }
  }

  /** What the upload handler reads from a posted payload. */
  function ParseForm(p: Payload): (req: Backend.Request)
    ensures WellFormedPayload(p) ==> req == Backend.Request(true, p[0].1.file.name, Some(p[1].1.text))
    ensures req.hasFilePart <==> exists k :: FileAt(p, "file", k)
  {
    var file := FirstFile(p, "file");
    assert WellFormedPayload(p) ==> FirstText(p, "language") == Some(p[1].1.text) by {
      if WellFormedPayload(p) {
        assert "file" != "language" by { assert |"file"| != |"language"|; }
        assert p[1..][0] == p[1];
      }
    }
    Backend.Request(file.Some?, if file.Some? then file.value.name else "", FirstText(p, "language"))
  }

  /** axios resolves on a 2xx status with the body and rejects otherwise. */
  function OutcomeOf(response: Backend.Response): (outcome: Outcome)
    ensures response.status in {200, 400, 500} ==> (outcome.Ok? <==> response.status == 200)
    ensures outcome.Ok? ==> outcome.data == response.body
  {
    if 200 <= response.status < 300 then Ok(response.body) else Failed
  }

  /** The `<select>` offers exactly the languages `lang_map` accepts. */
  lemma LanguagesAgree()
    ensures forall l <- Languages :: l in Backend.LangMap
    ensures forall l <- Backend.LangMap.Keys :: l in Languages
  {
  }

  /** The form's payload reads back as a file part, the file's name and the chosen language. */
  lemma PayloadParses(file: Blob, language: string)
    ensures ParseForm(UploadPayload(file, language)) == Backend.Request(true, file.name, Some(language))
  {
    var p := UploadPayload(file, language);
    assert "file" != "language";
    assert p[1..] == [("language", TextPart(language))];
    assert FirstText(p, "language") == FirstText(p[1..], "language");
  }

  /**
   * A submission from the form, with a named file and one of the offered languages,
   * can only be turned down by the backend's checks for its file type.
   */
  lemma SubmissionPassesChecks(s: FormState)
    requires s.selectedFile.Some? && s.selectedFile.value.name != []
    requires s.language in Languages
    ensures var post := App.SubmitStart(s).effects[0];
      var req := ParseForm(post.payload);
      Backend.CheckRequest(req) ==
        if Backend.AllowedFile(s.selectedFile.value.name) then Backend.Pass(s.language)
        else Backend.Reject(Backend.ErrorResponse(Backend.DisallowedTypeMessage, 400))
  {
    PayloadParses(s.selectedFile.value, s.language);
    LanguagesAgree();
  }

  /**
   * End to end: when the backend answers a submission with 200, the form shows the
   * saved image and the narration named after the sanitized file and the language.
   */
  lemma SuccessShowsUpload(s: FormState, svc: Backend.Services)
    requires s.selectedFile.Some? && s.language in Languages
    requires Backend.UploadFile(Backend.Request(true, s.selectedFile.value.name, Some(s.language)), svc).response.status == 200
    ensures var response := Backend.UploadFile(ParseForm(App.SubmitStart(s).effects[0].payload), svc).response;
      var shown := App.Settle(App.SubmitStart(s).next, OutcomeOf(response)).next;
      var name := svc.secureFilename(s.selectedFile.value.name);
      && !shown.loading
      && App.ImageSrc(shown) == Some(App.AssetUrl(name))
      && App.AudioSrc(shown) == Some(App.AssetUrl(svc.splitextStem(name) + "_audio_" + s.language + ".mp3"))
  {
    var req := ParseForm(App.SubmitStart(s).effects[0].payload);
    PayloadParses(s.selectedFile.value, s.language);
    var name := Backend.SavedName(req, svc);
    var path := Backend.UploadPath(name);
    var caption := Backend.GenerateCap(svc.decodeCaption(path)).value;
    Backend.SuccessPayload(name, s.language, caption, svc);
  }

  /** When the backend answers with an error, the form shows the failure alert and no result. */
  lemma ErrorShowsAlert(s: FormState, svc: Backend.Services)
    requires s.selectedFile.Some?
    requires Backend.UploadFile(ParseForm(App.SubmitStart(s).effects[0].payload), svc).response.status != 200
    ensures var response := Backend.UploadFile(ParseForm(App.SubmitStart(s).effects[0].payload), svc).response;
      var t := App.Settle(App.SubmitStart(s).next, OutcomeOf(response));
      !t.next.loading && t.next.result.None? && t.effects == [Alert(App.FailureAlert)]
  {
  }
}
