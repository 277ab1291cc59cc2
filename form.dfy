/**
 * What the two versions of the React upload form (`App.js` and its predecessor
 * `App.old.js`) have in common: the four pieces of component state, the multipart
 * payload, the network outcome, and the effects a handler has on the outside world.
 */
module Form {
  import opened Wrappers

  /** A `File` chosen in the file picker: its name and its bytes. */
  datatype Blob = Blob(name: string, content: seq<bv8>)

  /** A value appended to a `FormData`. */
  datatype FormValue = FilePart(file: Blob) | TextPart(text: string)

  /** A `FormData`: its entries in the order they were appended. */
  type Payload = seq<(string, FormValue)>

  /** A parsed JSON response body: a flat object of string fields. */
  type Json = map<string, string>

  /** How the `axios.post` settles: resolved with the response body, or rejected. */
  datatype Outcome = Ok(data: Json) | Failed

  /** What a handler does outside the component's state. */
  datatype Effect = Alert(message: string) | Post(url: string, payload: Payload)

  /** The four `useState` slots. */
  datatype FormState = FormState(
    selectedFile: Option<Blob>,
    language: string,
    result: Option<Json>,
    loading: bool)

  /** The state after a handler ran, and the effects it had, in order. */
  datatype Step = Step(next: FormState, effects: seq<Effect>)

  /** The options of the language `<select>`. */
  const Languages: seq<string> := ["English", "Hindi", "Tamil", "Telugu", "Marathi", "Kannada"]

  /** The initial values of the four `useState` slots. */
  function Initial(): (s: FormState)
    ensures s.selectedFile.None? && s.result.None? && !s.loading
    ensures s.language == "Hindi" && s.language in Languages
  {
    FormState(None, "Hindi", None, false)
  }

  /** The `FormData` both versions build: the file, then the language. */
  function UploadPayload(file: Blob, language: string): (p: Payload)
    ensures WellFormedPayload(p) && p[0].1.file == file && p[1].1.text == language
  {
    [("file", FilePart(file)), ("language", TextPart(language))]
  }

  /** The payload has exactly a `file` entry holding a file and a `language` entry holding text. */
  predicate WellFormedPayload(p: Payload) {
    |p| == 2 && p[0].0 == "file" && p[0].1.FilePart? && p[1].0 == "language" && p[1].1.TextPart?
  }

  /** A field of the result as a template literal renders it: `undefined` when absent. */
  function Field(j: Json, key: string): (r: string)
    ensures key !in j ==> r == "undefined"
    ensures key in j ==> r == j[key]
  {
    if key in j then j[key] else "undefined"
  }

  /** A field of the result as a JSX child renders it: nothing when absent. */
  function Child(j: Json, key: string): (r: string)
    ensures key !in j ==> r == []
    ensures key in j ==> r == j[key]
  {
    if key in j then j[key] else ""
  }

  // ---------------------------------------------------------------------------
  // The two selection handlers, the same in both versions

  /**
   * `handleFileChange`: the first picked file, or none when the picker was cleared,
   * replaces the selection; nothing else changes, nothing is shown or sent.
   */
  function FileChange(s: FormState, file: Option<Blob>): (t: Step)
    ensures t.next.selectedFile == file && t.effects == []
    ensures t.next.language == s.language && t.next.result == s.result && t.next.loading == s.loading
  {
    Step(s.(selectedFile := file), [])
  }

  /**
   * `handleLanguageChange`: the `<select>`'s value, taken as it comes, replaces the
   * language; nothing else changes, nothing is shown or sent.
   */
  function LanguageChange(s: FormState, value: string): (t: Step)
    ensures t.next.language == value && t.effects == []
    ensures t.next.selectedFile == s.selectedFile && t.next.result == s.result && t.next.loading == s.loading
  {
    Step(s.(language := value), [])
  }

  /** While a request is pending there is no result on screen. */
  predicate PendingClear(s: FormState) {
    s.loading ==> s.result.None?
  }

  // ---------------------------------------------------------------------------
  // The submit button, the same in both versions

  const IdleLabel: string := "Upload and Process"
  const BusyLabel: string := "Processing..."

  /** The submit button is disabled exactly while its label says the request is pending. */
  function SubmitDisabled(s: FormState): (disabled: bool)
    ensures disabled <==> ButtonLabel(s) == BusyLabel
  {
    s.loading
  }

  function ButtonLabel(s: FormState): (text: string)
    ensures text == BusyLabel || text == IdleLabel
    ensures text == BusyLabel <==> s.loading
  {
    if s.loading then BusyLabel else IdleLabel
  }
}
