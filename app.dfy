/**
 * The current upload form (`App.js`). Each event handler is a transition function from
 * the component state to the next state and the handler's effects; `handleSubmit`, which
 * awaits the network, is split into the part before the `await` (`SubmitStart`) and the
 * part after it (`Settle`), so that other events may come in between. `Component` is the
 * stateful component whose handlers are proved to follow these functions.
 */
module App {
  import opened Wrappers
  import opened Form

  const BaseUrl: string := "http://10.10.209.200:5000"
  const UploadUrl: string := BaseUrl + "/api/upload"
  const NoFileAlert: string := "Please select a file before submitting."
  const FailureAlert: string := "Error uploading file or processing the request."

  // ---------------------------------------------------------------------------
  // Handlers

  /**
   * `handleSubmit` up to the `await`: without a file, an alert and nothing else;
   * otherwise the pending request is shown (loading, no result) and the payload posted.
   */
  function SubmitStart(s: FormState): (t: Step)
    ensures t.next.selectedFile == s.selectedFile && t.next.language == s.language
    ensures |t.effects| == 1 && (t.effects[0].Post? <==> s.selectedFile.Some?)
    ensures s.selectedFile.None? ==> t.next == s
    ensures s.selectedFile.Some? ==> t.next.loading && t.next.result.None?
  {
    match s.selectedFile
    case None => Step(s, [Alert(NoFileAlert)])
    case Some(file) =>
      Step(s.(loading := true, result := None), [Post(UploadUrl, UploadPayload(file, s.language))])
  }

  /** `handleSubmit` after the `await`: the body on success, an alert on failure, and `finally` not loading. */
  function Settle(s: FormState, outcome: Outcome): (t: Step)
    ensures !t.next.loading && t.next.selectedFile == s.selectedFile && t.next.language == s.language
    ensures t.next.result.Some? ==> t.next.result == s.result || outcome == Ok(t.next.result.value)
    ensures |t.effects| <= 1
  {
    match outcome
    case Ok(data) => Step(s.(result := Some(data), loading := false), [])
    case Failed => Step(s.(loading := false), [Alert(FailureAlert)])
  }

  /** The "Upload Another Image" button: `setResult(null)`. */
  function Reset(s: FormState): (t: Step)
    ensures t.next.result.None? && t.effects == []
    ensures t.next.selectedFile == s.selectedFile && t.next.language == s.language && t.next.loading == s.loading
  {
    Step(s.(result := None), [])
  }

  datatype Event =
    | FileChosen(file: Option<Blob>)
    | LanguageChosen(value: string)
    | SubmitClicked
    | Settled(outcome: Outcome)
    | ResetClicked

  function Transition(s: FormState, e: Event): Step {
    match e
    case FileChosen(file) => FileChange(s, file)
    case LanguageChosen(value) => LanguageChange(s, value)
    case SubmitClicked => SubmitStart(s)
    case Settled(outcome) => Settle(s, outcome)
    case ResetClicked => Reset(s)
  }

  /** The state after a sequence of events, and all their effects in order. */
  function Run(s: FormState, events: seq<Event>): Step
    decreases |events|
  {
    if events == [] then Step(s, [])
    else
      var first := Transition(s, events[0]);
      var rest := Run(first.next, events[1..]);
      Step(rest.next, first.effects + rest.effects)
  }

  // ---------------------------------------------------------------------------
  // Rendering

  /** Where uploaded images and narrations are fetched from. */
  function AssetUrl(name: string): string {
    BaseUrl + "/static/uploads/" + name
  }

  /** A source URL of the results panel, named by a result field, shown only with a result. */
  function ResultAsset(s: FormState, field: string): (src: Option<string>)
    ensures src.Some? <==> s.result.Some?
    ensures src.Some? ==> src.value == AssetUrl(Field(s.result.value, field))
  {
    match s.result
    case None => None
    case Some(data) => Some(AssetUrl(Field(data, field)))
  }

  /** The `<img>` of the results panel. */
  function ImageSrc(s: FormState): Option<string> {
    ResultAsset(s, "filename")
  }

  /** The `<audio>` source of the results panel. */
  function AudioSrc(s: FormState): Option<string> {
    ResultAsset(s, "audio_file")
  }

  /** The English caption line of the results panel; an absent caption shows nothing. */
  function CaptionLine(s: FormState): (line: Option<string>)
    ensures line.Some? <==> s.result.Some?
    ensures line.Some? ==> line.value == "English Caption: " + Child(s.result.value, "caption")
  {
    match s.result
    case None => None
    case Some(data) => Some("English Caption: " + Child(data, "caption"))
  }

  /**
   * The translated caption line: its label names the language selected NOW, and an
   * absent translation shows nothing.
   */
  function TranslatedHeading(s: FormState): (line: Option<string>)
    ensures line.Some? <==> s.result.Some?
    ensures line.Some? ==> line.value == "Translated Caption (" + s.language + "): " + Child(s.result.value, "translated")
  {
    match s.result
    case None => None
    case Some(data) => Some("Translated Caption (" + s.language + "): " + Child(data, "translated"))
  }

  // ---------------------------------------------------------------------------
  // One handler at a time

  /** Without a file, submitting shows the alert and changes nothing else. */
  lemma SubmitWithoutFileAborts(s: FormState)
    requires s.selectedFile.None?
    ensures SubmitStart(s) == Step(s, [Alert(NoFileAlert)])
  {
  }

  /**
   * With a file, submitting posts exactly one payload, holding the file and the
   * current language, and shows a pending request with no result.
   */
  lemma SubmitWithFileDispatches(s: FormState)
    requires s.selectedFile.Some?
    ensures var t := SubmitStart(s);
      && t.effects == [Post(UploadUrl, UploadPayload(s.selectedFile.value, s.language))]
      && WellFormedPayload(t.effects[0].payload)
      && t.next == s.(loading := true, result := None)
      && SubmitDisabled(t.next) && ButtonLabel(t.next) == BusyLabel
  {
  }

  /** Whatever the outcome, settling leaves the button enabled; only success shows a result. */
  lemma SettleAlwaysStopsLoading(s: FormState, outcome: Outcome)
    ensures var t := Settle(s, outcome);
      && !SubmitDisabled(t.next) && ButtonLabel(t.next) == IdleLabel
      && (outcome.Ok? ==> t.next.result == Some(outcome.data) && t.effects == [])
      && (outcome.Failed? ==> t.next.result == s.result && t.effects == [Alert(FailureAlert)])
  {
  }

  /** Reset clears the result only, and a second reset changes nothing. */
  lemma ResetOnlyClearsResult(s: FormState)
    ensures var t := Reset(s).next;
      t.result.None? && t.selectedFile == s.selectedFile && t.language == s.language && t.loading == s.loading
    ensures Reset(Reset(s).next) == Reset(s)
    ensures s.result.None? ==> Reset(s) == Step(s, [])
  {
  }

  /** The worked example: a successful response is shown with its image, text and audio. */
  lemma ShowsSuccessfulResult(s: FormState)
    ensures var data := map["filename" := "a.jpg", "caption" := "a dog", "translated" := "ek kutta",
                            "audio_file" := "a.mp3"];
      var t := Settle(s, Ok(data)).next;
      && ImageSrc(t) == Some("http://10.10.209.200:5000/static/uploads/a.jpg")
      && AudioSrc(t) == Some("http://10.10.209.200:5000/static/uploads/a.mp3")
      && CaptionLine(t) == Some("English Caption: a dog")
      && TranslatedHeading(t) == Some("Translated Caption (" + s.language + "): ek kutta")
  {
    var data := map["filename" := "a.jpg", "caption" := "a dog", "translated" := "ek kutta",
                    "audio_file" := "a.mp3"];
    assert Field(data, "filename") == "a.jpg";
    assert Field(data, "audio_file") == "a.mp3";
    assert Child(data, "caption") == "a dog";
    assert Child(data, "translated") == "ek kutta";
    assert AssetUrl("a.jpg") == "http://10.10.209.200:5000/static/uploads/a.jpg";
    assert AssetUrl("a.mp3") == "http://10.10.209.200:5000/static/uploads/a.mp3";
    assert "English Caption: " + "a dog" == "English Caption: a dog";
    assert "Translated Caption (" + s.language + "): " + "ek kutta" ==
           "Translated Caption (" + s.language + "): ek kutta";
  }

  /**
   * The heading names the language selected now, not the one the shown result was
   * requested in: choosing another language relabels the same translation.
   */
  lemma HeadingFollowsSelection(s: FormState, language: string)
    requires s.result.Some?
    ensures var t := LanguageChange(s, language).next;
      && t.result == s.result
      && TranslatedHeading(t) == Some("Translated Caption (" + language + "): " + Child(s.result.value, "translated"))
  {
  }

  // ---------------------------------------------------------------------------
  // Sequences of events

  /** Running one more event after a run. */
  lemma {:induction false} RunSnoc(s: FormState, events: seq<Event>, e: Event)
    ensures var before := Run(s, events);
      var last := Transition(before.next, e);
      Run(s, events + [e]) == Step(last.next, before.effects + last.effects)
    decreases |events|
  {
    if events == [] {
      assert [] + [e] == [e];
    } else {
      assert (events + [e])[0] == events[0];
      assert (events + [e])[1..] == events[1..] + [e];
      RunSnoc(Transition(s, events[0]).next, events[1..], e);
    }
  }

  /** No event ever shows a result while a request is pending. */
  lemma {:induction false} RunKeepsPendingClear(s: FormState, events: seq<Event>)
    requires PendingClear(s)
    ensures PendingClear(Run(s, events).next)
    decreases |events|
  {
    if events != [] {
      RunKeepsPendingClear(Transition(s, events[0]).next, events[1..]);
    }
  }

  /** Every request the form ever sends goes to the upload endpoint with a file and a language. */
  lemma {:induction false} RunPostsWellFormed(s: FormState, events: seq<Event>)
    ensures forall e <- Run(s, events).effects :: e.Post? ==> e.url == UploadUrl && WellFormedPayload(e.payload)
    decreases |events|
  {
    if events != [] {
      RunPostsWellFormed(Transition(s, events[0]).next, events[1..]);
    }
  }

  /** With no file chosen and none picked (only clearings of the picker), no request is ever sent. */
  lemma {:induction false} NoFileNoRequest(s: FormState, events: seq<Event>)
    requires s.selectedFile.None?
    requires forall e <- events :: e.FileChosen? ==> e.file.None?
    ensures forall e <- Run(s, events).effects :: !e.Post?
    decreases |events|
  {
    if events != [] {
      NoFileNoRequest(Transition(s, events[0]).next, events[1..]);
    }
  }

  /**
   * A result on screen is either the one shown before or the body of a successful
   * settlement: failures never populate it.
   */
  lemma {:induction false} ResultComesFromSuccess(s: FormState, events: seq<Event>)
    ensures var r := Run(s, events).next.result;
      r.Some? ==> r == s.result || exists k :: 0 <= k < |events| && events[k] == Settled(Ok(r.value))
    decreases |events|
  {
    if events != [] {
      var t := Transition(s, events[0]).next;
      ResultComesFromSuccess(t, events[1..]);
      var r := Run(s, events).next.result;
      if r.Some? && r != s.result {
        if r == t.result {
          assert events[0] == Settled(Ok(r.value));
        } else {
          var k :| 0 <= k < |events[1..]| && events[1..][k] == Settled(Ok(r.value));
          assert events[k + 1] == Settled(Ok(r.value));
        }
      }
    }
  }

  /** Only the two selection handlers change the selected file and language. */
  lemma {:induction false} SelectionOnlyByUser(s: FormState, events: seq<Event>)
    requires forall e <- events :: !e.FileChosen? && !e.LanguageChosen?
    ensures Run(s, events).next.selectedFile == s.selectedFile
    ensures Run(s, events).next.language == s.language
    decreases |events|
  {
    if events != [] {
      SelectionOnlyByUser(Transition(s, events[0]).next, events[1..]);
    }
  }

  /** After a run that ends with a settlement, the form is not loading. */
  lemma EndsSettledNotLoading(s: FormState, events: seq<Event>, outcome: Outcome)
    ensures !SubmitDisabled(Run(s, events + [Settled(outcome)]).next)
    ensures ButtonLabel(Run(s, events + [Settled(outcome)]).next) == IdleLabel
  {
    RunSnoc(s, events, Settled(outcome));
  }

  /** The language chosen right before submitting is the one sent. */
  lemma ChosenLanguageIsSent(s: FormState, language: string)
    requires s.selectedFile.Some?
    ensures Run(s, [LanguageChosen(language), SubmitClicked]).effects ==
      [Post(UploadUrl, UploadPayload(s.selectedFile.value, language))]
  {
    var t := Transition(s, LanguageChosen(language)).next;
    assert [LanguageChosen(language), SubmitClicked][1..] == [SubmitClicked];
    assert Run(t, [SubmitClicked]) == SubmitStart(t) by {
      assert [SubmitClicked][1..] == [];
    }
  }

  // ---------------------------------------------------------------------------
  // The stateful component

  class Component {
    var selectedFile: Option<Blob>
    var language: string
    var result: Option<Json>
    var loading: bool

    function State(): FormState
      reads this
    {
      FormState(selectedFile, language, result, loading)
    }

    /** The initial render: no file, Hindi, no result, not loading. */
    constructor()
      ensures State() == Initial()
    {
      selectedFile, language, result, loading := None, "Hindi", None, false;
    }

    method HandleFileChange(file: Option<Blob>)
      modifies this
      ensures State() == FileChange(old(State()), file).next
    {
      selectedFile := file;
    }

    method HandleLanguageChange(value: string)
      modifies this
      ensures State() == LanguageChange(old(State()), value).next
    {
      language := value;
    }

    /** `handleSubmit` up to the `await`; returns what it showed or sent. */
    method BeginSubmit() returns (effects: seq<Effect>)
      modifies this
      ensures Step(State(), effects) == SubmitStart(old(State()))
    {
      if selectedFile.None? {
        effects := [Alert(NoFileAlert)];
        return;
      }
      var payload := UploadPayload(selectedFile.value, language);
      loading := true;
      result := None;
      effects := [Post(UploadUrl, payload)];
    }

    /** `handleSubmit` from the `await` on: `try`, `catch`, `finally`. */
    method SettleSubmit(outcome: Outcome) returns (effects: seq<Effect>)
      modifies this
      ensures Step(State(), effects) == Settle(old(State()), outcome)
    {
      effects := [];
      if outcome.Ok? {
        result := Some(outcome.data);
      } else {
        effects := [Alert(FailureAlert)];
      }
      loading := false;
    }

    method HandleReset()
      modifies this
      ensures State() == Reset(old(State())).next
    {
      result := None;
    }

    /**
     * `handleSubmit` when nothing else happens while the request is out: without a
     * file an alert only; with one a single post, then the body or a failure alert,
     * and never left loading.
     */
    method HandleSubmit(outcome: Outcome) returns (effects: seq<Effect>)
      modifies this
      ensures old(selectedFile).None? ==> State() == old(State()) && effects == [Alert(NoFileAlert)]
      ensures old(selectedFile).Some? ==>
        && selectedFile == old(selectedFile) && language == old(language) && !loading
        && result == (if outcome.Ok? then Some(outcome.data) else None)
        && effects == [Post(UploadUrl, UploadPayload(old(selectedFile).value, old(language)))]
                      + (if outcome.Ok? then [] else [Alert(FailureAlert)])
    {
      var hadFile := selectedFile.Some?;
      effects := BeginSubmit();
      if hadFile {
        var more := SettleSubmit(outcome);
        effects := effects + more;
      }
    }
  }
}
