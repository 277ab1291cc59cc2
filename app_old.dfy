/**
 * The earlier upload form (`App.old.js`): the same four pieces of state and the same
 * handlers, but submitting without a file returns silently, there is no way to clear a
 * result, the failure alert is shorter, and requests and assets use same-origin relative
 * paths.
 */
module AppOld {
  import opened Wrappers
  import opened Form

  const UploadUrl: string := "/api/upload"
  const FailureAlert: string := "Error uploading file"

  // ---------------------------------------------------------------------------
  // Handlers

  /** `handleSubmit` up to the `await`: without a file it returns at once, showing nothing. */
  function SubmitStart(s: FormState): (t: Step)
    ensures s.selectedFile.None? ==> t == Step(s, [])
    ensures s.selectedFile.Some? ==>
      && t.next.loading && t.next.result.None? && |t.effects| == 1
      && t.effects[0].Post? && t.effects[0].url == UploadUrl
    ensures t.next.selectedFile == s.selectedFile && t.next.language == s.language
  {
    match s.selectedFile
    case None => Step(s, [])
    case Some(file) =>
      Step(s.(loading := true, result := None), [Post(UploadUrl, UploadPayload(file, s.language))])
  }

  /** `handleSubmit` after the `await`: only a failure is announced, and `finally` not loading. */
  function Settle(s: FormState, outcome: Outcome): (t: Step)
    ensures !t.next.loading
    ensures t.effects == [] <==> outcome.Ok?
    ensures t.next.selectedFile == s.selectedFile && t.next.language == s.language
  {
    match outcome
    case Ok(data) => Step(s.(result := Some(data), loading := false), [])
    case Failed => Step(s.(loading := false), [Alert(FailureAlert)])
  }

  /** The events this version reacts to: there is no reset button. */
  datatype Event =
    | FileChosen(file: Option<Blob>)
    | LanguageChosen(value: string)
    | SubmitClicked
    | Settled(outcome: Outcome)

  function Transition(s: FormState, e: Event): Step {
    match e
    case FileChosen(file) => FileChange(s, file)
    case LanguageChosen(value) => LanguageChange(s, value)
    case SubmitClicked => SubmitStart(s)
    case Settled(outcome) => Settle(s, outcome)
  }

  function Run(s: FormState, events: seq<Event>): Step
    decreases |events|
  {
    if events == [] then Step(s, [])
    else
      var first := Transition(s, events[0]);
      var rest := Run(first.next, events[1..]);
      Step(rest.next, first.effects + rest.effects)
  }

  // ---------------------------------------------------------------------------
  // Rendering

  /** Assets are fetched from the page's own origin. */
  function AssetUrl(name: string): string {
    "/uploads/" + name
  }

  /** A source URL of the results panel, named by a result field, shown only with a result. */
  function ResultAsset(s: FormState, field: string): (src: Option<string>)
    ensures src.Some? <==> s.result.Some?
    ensures src.Some? ==> src.value == "/uploads/" + Field(s.result.value, field)
  {
    match s.result
    case None => None
    case Some(data) => Some(AssetUrl(Field(data, field)))
  }

  /** The `<img>` of the results panel. */
  function ImageSrc(s: FormState): Option<string> {
    ResultAsset(s, "filename")
  }

  /** The `<audio>` source of the results panel. */
  function AudioSrc(s: FormState): Option<string> {
    ResultAsset(s, "audio_file")
  }

  // ---------------------------------------------------------------------------
  // One handler at a time

  /** Without a file, submitting does nothing at all: no alert, no request, no change. */
  lemma SubmitWithoutFileIsSilent(s: FormState)
    requires s.selectedFile.None?
    ensures SubmitStart(s) == Step(s, [])
  {
  }

  lemma SubmitWithFileDispatches(s: FormState)
    requires s.selectedFile.Some?
    ensures var t := SubmitStart(s);
      && t.effects == [Post(UploadUrl, UploadPayload(s.selectedFile.value, s.language))]
      && WellFormedPayload(t.effects[0].payload)
      && t.next == s.(loading := true, result := None)
      && SubmitDisabled(t.next) && ButtonLabel(t.next) == BusyLabel
  {
  }

  lemma SettleAlwaysStopsLoading(s: FormState, outcome: Outcome)
    ensures var t := Settle(s, outcome);
      && !SubmitDisabled(t.next) && ButtonLabel(t.next) == IdleLabel
      && (outcome.Ok? ==> t.next.result == Some(outcome.data) && t.effects == [])
      && (outcome.Failed? ==> t.next.result == s.result && t.effects == [Alert(FailureAlert)])
  {
  }

  /** Asset links are relative paths under `/uploads/`. */
  lemma RelativeAssetUrls(s: FormState)
    requires s.result.Some?
    ensures ImageSrc(s) == Some("/uploads/" + Field(s.result.value, "filename"))
    ensures AudioSrc(s) == Some("/uploads/" + Field(s.result.value, "audio_file"))
  {
  }

  // ---------------------------------------------------------------------------
  // Sequences of events

  /**
   * Without a reset, the result only changes inside a submit: events that neither
   * submit nor settle leave it as it was.
   */
  lemma {:induction false} ResultChangesOnlyInSubmit(s: FormState, events: seq<Event>)
    requires forall e <- events :: !e.SubmitClicked? && !e.Settled?
    ensures Run(s, events).next.result == s.result
    decreases |events|
  {
    if events != [] {
      ResultChangesOnlyInSubmit(Transition(s, events[0]).next, events[1..]);
    }
  }

  /** Once a result is shown, only another submission with a file takes it away. */
  lemma {:induction false} ResultStaysUntilResubmit(s: FormState, events: seq<Event>)
    requires s.result.Some?
    requires Run(s, events).next.result.None?
    ensures exists k :: 0 <= k < |events| && events[k] == SubmitClicked
    decreases |events|
  {
    if events[0] != SubmitClicked {
      var t := Transition(s, events[0]).next;
      ResultStaysUntilResubmit(t, events[1..]);
      var k :| 0 <= k < |events[1..]| && events[1..][k] == SubmitClicked;
      assert events[k + 1] == SubmitClicked;
    }
  }

  /**
   * With no file chosen, none picked (only clearings of the picker) and no request
   * settling, nothing is ever sent or shown.
   */
  lemma {:induction false} NoFileNoEffect(s: FormState, events: seq<Event>)
    requires s.selectedFile.None?
    requires forall e <- events :: (e.FileChosen? ==> e.file.None?) && !e.Settled?
    ensures Run(s, events).effects == []
    ensures Run(s, events).next.result == s.result && Run(s, events).next.loading == s.loading
    decreases |events|
  {
    if events != [] {
      NoFileNoEffect(Transition(s, events[0]).next, events[1..]);
    }
  }

  // ---------------------------------------------------------------------------
  // The stateful component

  class Component {
    var selectedFile: Option<Blob>
    var language: string
    var result: Option<Json>
    var loading: bool

    function State(): FormState
      reads this
    {
      FormState(selectedFile, language, result, loading)
    }

    constructor()
      ensures State() == Initial()
    {
      selectedFile, language, result, loading := None, "Hindi", None, false;
    }

    method HandleFileChange(file: Option<Blob>)
      modifies this
      ensures State() == FileChange(old(State()), file).next
    {
      selectedFile := file;
    }

    method HandleLanguageChange(value: string)
      modifies this
      ensures State() == LanguageChange(old(State()), value).next
    {
      language := value;
    }

    method BeginSubmit() returns (effects: seq<Effect>)
      modifies this
      ensures Step(State(), effects) == SubmitStart(old(State()))
    {
      if selectedFile.None? {
        return [];
      }
      var payload := UploadPayload(selectedFile.value, language);
      loading := true;
      result := None;
      effects := [Post(UploadUrl, payload)];
    }

    method SettleSubmit(outcome: Outcome) returns (effects: seq<Effect>)
      modifies this
      ensures Step(State(), effects) == Settle(old(State()), outcome)
    {
      effects := [];
      if outcome.Ok? {
        result := Some(outcome.data);
      } else {
        effects := [Alert(FailureAlert)];
      }
      loading := false;
    }
  }
}
