# Image Caption Translator — a Dafny model

The system lets a user upload an image, choose one of six languages (English, Hindi,
Tamil, Telugu, Marathi, Kannada), and get back an English caption, its translation and
an MP3 narration. This project models the two parts that are more than model inference
or markup, and proves properties about them:

- **The Flask backend's upload handler** (`app.py`). `Backend.UploadFile` runs the
  handler's guards in source order: file part present, file name non-empty, target
  language supported (it defaults to Hindi), file extension allowed, upload saved,
  caption non-empty, translation non-empty. It returns the JSON response and the trace
  of side effects the handler performs. The libraries and models it calls are fields of
  `Backend.Services`: `secure_filename`, `os.path.splitext`, `file.save`, the caption
  model's decoded output and the translation pipeline's output. The model keeps the
  Python post-processing around those calls: `strip().capitalize()` on the caption, the
  language-code guard in `generate_translations`, and `allowed_file` with its
  `rsplit('.', 1)[1].lower()`.
- **The React upload form** (`frontend/src/App.js`) and its earlier version
  (`frontend/src/App.old.js`). The four `useState` slots (`selectedFile`, `language`,
  `result`, `loading`) form a `Form.FormState`. Each event handler is a transition
  function returning the next state and its effects (alerts and posts). `handleSubmit`
  is split at its `await` into `SubmitStart` and `Settle(outcome)`, so other events
  can arrive while the request is out. In each module a `Component` class holds the
  four fields, and its handler methods are proved to follow the transition functions.
  `Run` folds a sequence of events. The lemmas about runs prove invariants over any
  interleaving: no result is shown while a request is pending, failures never populate
  the result, and every post carries exactly a file and a language.

Module `Variants` proves that the old form reaches the same state as the current one
on every event the old one has. The effects differ in three ways only: a silent abort
without a file (a branch the browser's `required` check normally keeps the user from
reaching), a shorter failure alert, and a relative upload URL. Module
`Integration` connects the current form to the backend. The payload the form posts
passes every backend check except the extension check. A 200 answer, once settled,
shows the image and the narration named after the sanitized file and the chosen
language.

Files: `wrappers.dfy` (Option), `text.dfy` (Python string helpers), `backend.dfy`,
`form.dfy` (types shared by both forms), `app.dfy`, `app_old.dfy`, `variants.dfy`,
`integration.dfy`.

## Model

| member | source | states |
|---|---|---|
| Text.Lower | app.py:80 | `.lower()`: same length, each of `A`..`Z` becomes the letter 32 code points later (`a`..`z`), every other character unchanged |
| Text.SplitAtLast | app.py:80 | `rsplit('.', 1)`: no split exactly when the separator is absent; otherwise `s == before + sep + after` with no separator in `after` |
| Text.SplitAtLastUnique | app.py:80 | any split whose tail has no separator is the one `rsplit` finds |
| Text.StripLeft | app.py:103 | the result is a suffix of the input, everything dropped is whitespace, and it does not start with whitespace |
| Text.StripRight | app.py:103 | the result is a prefix of the input, everything dropped is whitespace, and it does not end with whitespace |
| Text.Strip | app.py:103 | `.strip()`: a slice `s[i..j]` of the input with only whitespace (Python's `isspace` set) outside it, neither starting nor ending with whitespace, and empty exactly when the input is all whitespace |
| Text.StripUnique | app.py:103 | any slice of the input with only whitespace around it that neither starts nor ends with whitespace is exactly what `.strip()` returns |
| Text.Capitalize | app.py:103 | `.capitalize()`: same text up to case, first character not lower-case, no upper-case letter after it, whitespace in the same places |
| Text.CapitalizeIdempotent | app.py:103 | capitalizing twice is capitalizing once |
| Text.CapitalizeUnique | app.py:103 | any string equal to the input up to case, not starting with a lower-case letter and with no upper-case letter after the first, is exactly what `.capitalize()` returns |
| Backend.AllowedFile | app.py:75-80 | a file name without a dot is never allowed |
| Backend.AllowedFileIff | app.py:73-80 | allowed exactly when the name splits at its last dot into a stem and an extension whose lower-case form is png, jpg or jpeg |
| Backend.AllowedFileIgnoresCase | app.py:80 | `a.JPG` is allowed |
| Backend.AllowedFileUsesLastExtension | app.py:80 | `x.tar.png` and `.jpeg` are allowed |
| Backend.AllowedFileRejects | app.py:79-80 | `a.png.exe`, `a.` and `png` are refused |
| Backend.GenerateCap | app.py:82-107 | no caption exactly when decoding failed; otherwise the caption equals the stripped decoded text up to case, its first character is not lower-case and no later one is upper-case; it is empty exactly when the decoded text is all whitespace, and otherwise has no surrounding whitespace |
| Backend.CaptionDetermined | app.py:103 | the caption of a decoded text is the unique string equal, up to case, to the text with its surrounding whitespace removed, capitalized: the caption text is fixed, not just its shape |
| Backend.CaptionExample | app.py:103 | a decoded `" a DOG\n"` is captioned `"A dog"` |
| Backend.GenerateTranslations | app.py:109-143 | an empty source or target language code yields no translation |
| Backend.CheckRequest | app.py:151-165 | the first four guards: a request passes exactly when it is `Accepted`, then with its target language (default Hindi) from `lang_map`; otherwise a 400 whose body has only `error` (the extension error is at app.py:220-221) |
| Backend.SaveAndProcess | app.py:166-193 | after validation: status 200 or 500, the first effect is always saving the upload, a 200 has the four payload keys and a 500 only `error` |
| Backend.TranslateAndNarrate | app.py:182-218 | translation is always the first effect; a failed or empty translation is exactly the 500 "Failed to translate the caption"; a 200 has the four payload keys |
| Backend.UploadFile | app.py:146-221 | status is 200, 400 or 500; a 200 has exactly the keys filename, caption, translated, audio_file and an error only `error`; a 400 exactly when nothing was done, otherwise the upload was saved first |
| Backend.TargetLanguage | app.py:159 | the posted `language` field when present, otherwise `"Hindi"` |
| Backend.AudioLanguage | app.py:202 | `audio_pairs[target]` for a known target, `"en"` otherwise; always one of the six speech codes |
| Backend.MissingFilePartFirst | app.py:151-152 | a missing file part gives 400 "No file part in the request" before anything else |
| Backend.EmptyFilenameSecond | app.py:154-156 | an empty file name gives 400 "No file selected for uploading" |
| Backend.UnsupportedLanguageBeforeExtension | app.py:159-165 | an unsupported language gives 400 "Unsupported language: <name>" whatever the extension |
| Backend.DisallowedExtensionFourth | app.py:220-221 | with a supported language, a disallowed extension gives 400 "Allowed file types are png, jpg, jpeg" and nothing is saved |
| Backend.MissingLanguageMeansHindi | app.py:159 | a request without `language` is handled exactly like one asking for Hindi |
| Backend.SupportedLanguages | app.py:159-161 | the unsupported-language error is given exactly for names outside the six keys of `lang_map` |
| Backend.SaveFailure | app.py:169-174 | a failed save gives 500 "Failed to save the uploaded file" after only the save |
| Backend.CaptionFailureSkipsTranslation | app.py:176-179 | a missing or empty caption gives 500, and translation is never attempted |
| Backend.TranslationAlwaysAttempted | app.py:182-193 | with a caption, translation is attempted into `lang_map[target]` even for English, and a missing or empty translation is then a 500 |
| Backend.SuccessIff | app.py:165-218 | the answer is 200 exactly when the request is accepted, the save succeeds, the caption is non-empty and the translation is non-empty |
| Backend.HandlerSuccessPayload | app.py:146-218 | a 200 from `upload_file` itself: the request was accepted, and the body holds the sanitized file name, the caption of the saved image, the caption (English) or its translation (otherwise), and `<stem>_audio_<language>.mp3` |
| Backend.SuccessPayload | app.py:196-218 | on success: `translated` is the caption for English and the translation otherwise; `audio_file` is stem + `_audio_` + language + `.mp3`; speech is made from `translated` in `audio_pairs[target]` and written under the upload folder |
| Backend.AudioFallbackUnreachable | app.py:200-203 | `lang_map` and `audio_pairs` have the same keys, so the `'en'` fallback is never taken after validation |
| Form.Initial | frontend/src/App.js:5-8 | initially no file, language Hindi, no result, not loading |
| Form.UploadPayload | frontend/src/App.js:30-32 | the `FormData` is well formed: a `file` entry holding the given file, then a `language` entry holding the given language (built the same way at App.old.js:25-27) |
| Form.FileChange | frontend/src/App.js:15-17 | the picked file replaces the selection; language, result and loading unchanged; nothing shown or sent (the same handler is at App.old.js:13-15) |
| Form.LanguageChange | frontend/src/App.js:19-21 | the `<select>` value replaces the language; file, result and loading unchanged; nothing shown or sent (the same handler is at App.old.js:17-19) |
| Form.Field | frontend/src/App.js:97 | a field read inside a template literal: its value, or `"undefined"` when absent; used by the asset URLs that `App.ShowsSuccessfulResult` and `Integration.SuccessShowsUpload` fix |
| Form.Child | frontend/src/App.js:109 | a field rendered as a JSX child: its value, or nothing when absent; used by the caption lines that `App.ShowsSuccessfulResult` and `App.HeadingFollowsSelection` fix |
| App.SubmitStart | frontend/src/App.js:23-35 | keeps the selection and has exactly one effect, a post exactly when a file is picked; without a file the state is unchanged, with one it is loading with no result |
| App.Settle | frontend/src/App.js:36-49 | never leaves the form loading, keeps the selection, shows only the earlier result or the successful body, at most one effect |
| App.Reset | frontend/src/App.js:122 | the result is cleared, nothing else changes, no effect |
| Form.SubmitDisabled | frontend/src/App.js:83 | the button is disabled exactly when its label is "Processing..." (the same button is at App.old.js:63); `SubmitWithFileDispatches` and `SettleAlwaysStopsLoading` in both versions and `App.EndsSettledNotLoading` prove when it is |
| Form.ButtonLabel | frontend/src/App.js:88 | "Processing..." exactly while loading, otherwise "Upload and Process" (the same label is at App.old.js:64) |
| App.ResultAsset | frontend/src/App.js:95-116 | the image (`ImageSrc`, field `filename`) and the audio source (`AudioSrc`, field `audio_file`) exist exactly when there is a result, and come from `BASE_URL/static/uploads/` + that field; `Variants.AssetUrlsDiffer` relates it to the old relative URL and `Integration.SuccessShowsUpload` to the backend's file names |
| App.CaptionLine | frontend/src/App.js:104 | a caption line exactly when there is a result: "English Caption: " and the caption, or nothing after it when the field is absent; `App.ShowsSuccessfulResult` gives the worked example |
| App.TranslatedHeading | frontend/src/App.js:109 | a translation line exactly when there is a result, labelled with the language selected now; an absent translation shows nothing after the label; `App.HeadingFollowsSelection` proves the relabelling and `App.ShowsSuccessfulResult` the worked example |
| App.SubmitWithoutFileAborts | frontend/src/App.js:25-28 | submitting without a file shows the alert and changes nothing else: no request, same loading and result |
| App.SubmitWithFileDispatches | frontend/src/App.js:30-35 | with a file: exactly one post to `BASE_URL/api/upload` with fields `file` and the current `language`, loading set, result cleared, button disabled and labelled "Processing..." |
| App.SettleAlwaysStopsLoading | frontend/src/App.js:37-49 | after settling, whatever the outcome, not loading and "Upload and Process"; success stores the body wholesale; failure alerts and stores nothing |
| App.ResetOnlyClearsResult | frontend/src/App.js:121-122 | reset clears only the result, is idempotent, and is a no-op without a result |
| App.ShowsSuccessfulResult | frontend/src/App.js:92-116 | a result `{filename: a.jpg, caption: a dog, translated: ek kutta, audio_file: a.mp3}` shows `BASE_URL/static/uploads/a.jpg`, "English Caption: a dog", the translation under the selected language and that audio |
| App.HeadingFollowsSelection | frontend/src/App.js:109 | changing the language after a result relabels the same translation with the new language |
| App.RunKeepsPendingClear | frontend/src/App.js:34-48 | over any sequence of events, no result is shown while a request is pending |
| App.RunPostsWellFormed | frontend/src/App.js:30-42 | every request ever sent goes to the upload endpoint with exactly a file part and a language part |
| App.NoFileNoRequest | frontend/src/App.js:25-28 | while no file is picked (the picker may be cleared again), no request is ever sent |
| App.ResultComesFromSuccess | frontend/src/App.js:43-46 | a shown result is the earlier one or the body of some successful settlement; failures never populate it |
| App.SelectionOnlyByUser | frontend/src/App.js:15-21 | only the two selection handlers change the file and the language |
| App.EndsSettledNotLoading | frontend/src/App.js:47-49 | any run that ends with a settlement ends enabled, labelled "Upload and Process" |
| App.ChosenLanguageIsSent | frontend/src/App.js:19-32 | choosing a language and submitting sends exactly that language |
| App.Component.constructor | frontend/src/App.js:5-8 | the component starts in the initial state |
| App.Component.HandleFileChange | frontend/src/App.js:15-17 | replaces the selected file only |
| App.Component.HandleLanguageChange | frontend/src/App.js:19-21 | replaces the language only |
| App.Component.BeginSubmit | frontend/src/App.js:23-35 | updates the fields and returns the effects as `SubmitStart` prescribes |
| App.Component.SettleSubmit | frontend/src/App.js:37-49 | updates the fields and returns the effects as `Settle` prescribes |
| App.Component.HandleReset | frontend/src/App.js:121-122 | clears the result as `Reset` prescribes |
| App.Component.HandleSubmit | frontend/src/App.js:23-50 | without interleaving: no file gives the alert only; otherwise one post, then the body or the failure alert, never left loading |
| AppOld.SubmitWithoutFileIsSilent | frontend/src/App.old.js:23 | submitting without a file returns silently: no alert, no request, no change |
| AppOld.SubmitStart | frontend/src/App.old.js:21-30 | without a file no effect and no change; with one, loading, no result and a single post to `/api/upload`; the selection is kept |
| AppOld.Settle | frontend/src/App.old.js:32-44 | never leaves the form loading, keeps the selection, and has an effect exactly when the request failed |
| AppOld.SubmitWithFileDispatches | frontend/src/App.old.js:25-30 | with a file: one post to `/api/upload` with `file` and `language`, loading set, result cleared |
| AppOld.SettleAlwaysStopsLoading | frontend/src/App.old.js:32-44 | after settling, not loading; success stores the body; failure alerts "Error uploading file" and stores nothing |
| AppOld.ResultAsset | frontend/src/App.old.js:71-78 | the image (`ImageSrc`, field `filename`) and the audio source (`AudioSrc`, field `audio_file`) exist exactly when there is a result, and come from `/uploads/` + that field |
| AppOld.RelativeAssetUrls | frontend/src/App.old.js:71-78 | image and audio come from `/uploads/` + name |
| AppOld.ResultChangesOnlyInSubmit | frontend/src/App.old.js:21-45 | without a reset, events other than submitting and settling never change the result |
| AppOld.ResultStaysUntilResubmit | frontend/src/App.old.js:29-30 | in any run, a shown result disappears only through another submit |
| AppOld.NoFileNoEffect | frontend/src/App.old.js:23 | while no file is picked, none is chosen (the picker may be cleared again) and no request settles, nothing is ever sent or alerted and loading and result stay as they were (a request sent before the picker was cleared can still fail and alert) |
| AppOld.Component.constructor | frontend/src/App.old.js:6-9 | the component starts in the initial state |
| AppOld.Component.HandleFileChange | frontend/src/App.old.js:13-15 | replaces the selected file only |
| AppOld.Component.HandleLanguageChange | frontend/src/App.old.js:17-19 | replaces the language only |
| AppOld.Component.BeginSubmit | frontend/src/App.old.js:21-30 | updates the fields and returns the effects as `SubmitStart` prescribes |
| AppOld.Component.SettleSubmit | frontend/src/App.old.js:32-44 | updates the fields and returns the effects as `Settle` prescribes |
| Variants.SameStep | frontend/src/App.old.js:21-45 | on each old event, both versions reach the same state, and the old effects are the new ones translated |
| Variants.SameRun | frontend/src/App.old.js:13-45 | over any sequence of old events, both versions reach the same state, with corresponding effects |
| Variants.OldRunKeepsPendingClear | frontend/src/App.old.js:29-43 | over any sequence of the old version's events, no result is shown while a request is pending |
| Variants.AssetUrlsDiffer | frontend/src/App.js:97 | the current asset URL is `BASE_URL + "/static"` followed by the old relative one |
| Variants.NoFileSubmitDiffers | frontend/src/App.js:25-28 | without a file, only the current version alerts |
| Integration.LanguagesAgree | frontend/src/App.js:13 | the `<select>` offers exactly the keys of `lang_map` |
| Integration.FirstFile | app.py:151-154 | `request.files[key]`: finds a file exactly when some entry under the key holds a file part, and then it is the file of the first such entry |
| Integration.FirstText | app.py:159 | `request.form.get(key)`: finds a text exactly when some entry under the key is a text field, and then it is the text of the first such entry |
| Integration.ParseForm | app.py:151-159 | reads the file with `FirstFile` and the language with `FirstText`: a request has a file part exactly when the payload holds a file under `file`; a payload of a file and a language reads back as that file's name and that language |
| Integration.OutcomeOf | frontend/src/App.js:38-45 | for the backend's statuses, axios resolves exactly on 200, with the response body |
| Integration.PayloadParses | frontend/src/App.js:30-32 | the posted form reads back as a file part, the file's name and the chosen language |
| Integration.SubmissionPassesChecks | app.py:151-165 | a submission with a named file and an offered language can only be refused for its extension |
| Integration.SuccessShowsUpload | frontend/src/App.js:92-116 | after a 200 the form shows the sanitized upload and `<stem>_audio_<language>.mp3` from the backend's static folder |
| Integration.ErrorShowsAlert | frontend/src/App.js:44-48 | after any non-200 answer the form alerts, shows no result and is not loading |

## Left out

- Model loading and inference (vision encoder-decoder, tokenizers, IndicProcessor, `generate`): foreign numerics. Their outputs are opaque inputs: `decodeCaption` and `translate` return `None` where the Python code catches an exception.
- Image decoding (`cv2`, `PIL`), speech synthesis (`gTTS`) and file writes: these are I/O. They appear only as entries in the handler's effect trace. The save outcome is the input `saveSucceeds`.
- An exception from `gTTS` or from writing the MP3: nothing in the handler catches it, so Flask answers with its own 500 page. The model assumes those two steps succeed.
- `secure_filename` and `os.path.splitext` are library code the model cannot see. They are the uninterpreted functions `secureFilename` and `splitextStem`.
- `os.path.join`: the model writes `"static/uploads/" + name`. That is its result for the relative names `secure_filename` returns.
- Flask routing, CORS, the 16 MB `MAX_CONTENT_LENGTH` and `print` logging: framework plumbing and diagnostics.
- Text.Lower, Text.Capitalize: only ASCII letters change case. Python's `lower`/`capitalize` map all of Unicode, and `capitalize` uses title case. No non-ASCII character lower-cases to a letter of `png`, `jpg` or `jpeg`, so `allowed_file` is unaffected.
- Backend.GenerateTranslations: the contract states only the language-code guard. Past the guard, the result is the opaque pipeline output.
- `file and allowed_file(...)`: a Werkzeug `FileStorage` is truthy exactly when its filename is non-empty. That was already checked, so only `allowed_file` is modelled.
- axios networking, JSX markup, Tailwind styling and `console.error`: UI and transport. The network outcome is the parameter `Outcome`.
- A 2xx answer whose body is not a JSON object: axios then resolves with a string. The model's `Json` is a flat object of string fields. Absent fields are modelled: inside a template literal (the image and audio URLs) they render as `undefined`, as a JSX child (the caption and translation lines) as nothing.
- The order of UI events is not restricted. The model allows a submit while loading, which the disabled button prevents, so the run lemmas cover more than the UI allows.
- The stale-response race between overlapping submits: concurrency. A settlement is not matched to the request it answers.
- The file picker's `accept=".png,.jpg,.jpeg"`: a hint to the browser, not enforced.
- The file input is `required` (App.js:63, App.old.js:53), so the browser's form validation blocks the submit event while no file is picked. The model lets `SubmitClicked` arrive without a file, which over-approximates the browser: the no-file branch of `handleSubmit` (App.js:25-28, App.old.js:23), and so the difference `Variants.NoFileSubmitDiffers` states, is reached only when the handler runs without that validation.

Two behaviours of the code are easy to overlook. First, a 2xx answer with a malformed
body is not a failure, because axios resolves with it. Second, the file picker's
extension filter is only a hint, so a request from the form can still be refused for
its file type.
