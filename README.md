# detect_text_app: the session-state controller

The application is a Streamlit page (`main.py`) that lets a user upload an image, rotate it,
run OCR over the rotated image and see the recognised text with its language (Russian or
English). Streamlit re-runs the whole script from the top on every interaction, so one script
run is one transition of the `st.session_state` record: `uploaded_file`, `image`,
`rotated_image`, `rotation_angle`, `extracted_text` and `detected_lang`.

The model has four modules:

- `Text` (`text.dfy`): Python's `' '.join(...)` of the recognised fragments, and a
  `split(' ')` that undoes it for one or more space-free fragments.
- `Language` (`language.dfy`): the filter on the language detector's answer and the labels
  shown for the two accepted codes.
- `Transition` (`transition.dfy`): the session state as a value, the widget events of one
  script run, and the four stages in the script's order: upload, rotation, clear, recognition.
  `Cycle` is one script run and `Run` is a sequence of them. It also holds the invariant
  `Consistent` and the lemmas about whole sessions.
- `Controller` (`controller.dfy`): the class `Session`, whose fields are the session-state
  record. Each `Handle…` method updates the fields in place, as the script does. `Step` runs
  one script run. Every method is proved equal to the matching `Transition` stage, and `Step`
  keeps `Valid()`.

The foreign calls are functions in the `Engines` record:

- `open` is `Image.open`; `None` means it could not identify the file (its header).
  `Image.open` is lazy: the pixel data is only decoded when the image is first used.
- `rotate` is `Image.rotate(angle, expand=True)`, left uninterpreted and total.
- `readText` is easyocr's `readtext`; `None` means it raised.
- `detect` is langdetect's `detect`; `None` means `LangDetectException`.

An uncaught exception stops the script run where it happens, and what was written before
that point stays written. So a file that Image.open cannot identify leaves the new
`uploaded_file` stored and the old image in place.

What is proved:

- After any complete run with an image, `rotation_angle` equals the slider's value. The
  buttons' ±90 never matter (`ButtonsOverridden`).
- The angle stays in [-180, 180].
- `rotated_image` is absent exactly when `image` is. When present, it equals
  `rotate(image, rotation_angle)`.
- A stored file exists whenever an image does.
- `detected_lang` is always absent, `"ru"` or `"en"`.
- Clear blanks the image fields and resets the angle.
- Only the recognise button changes the text and the language.
- The join loses nothing: splitting recovers the fragments when there is at least one fragment
  and none contains a space. (No fragments and a single empty fragment both join to `""`.)

`Step` and the invariant lemmas require the slider value to lie in [-180, 180]. The slider
widget at line 53 guarantees this.

Three behaviours of the code are easy to misread:

- One might expect the rotate buttons to accumulate ±90. The slider comparison at
  lines 67-68 always overrides them, because the slider still shows its old
  value in the run in which a button is pressed. `ScenarioTwoLeftTurns` shows the
  upload/left/left scenario ending at angle 0, not 180.
- An unsupported language code and a detector exception are only reported, never stored:
  `detected_lang` stays unchanged (lines 108-115).
- The uploader returns its file on every run while the file is held. So the upload stage runs
  on every such run, and a clear is undone on the next run unless the user removes the file
  from the uploader. The model takes the uploader's value as an input of each run.

## Model

| member | source | states |
|---|---|---|
| Text.JoinWithSpace | main.py:93 | the joined text's length is the fragments' total length plus one per gap; it is empty exactly when there are no fragments or a single empty one; it starts with the first fragment |
| Text.JoinSplit | main.py:93 | splitting the joined text at spaces and joining again gives the same string |
| Text.SplitJoin | main.py:93 | when there is at least one fragment and none contains a space, splitting the joined text gives back the fragments in engine order |
| Language.Classify | main.py:106-115 | a detector exception gives Undetermined; "ru" and "en" are accepted with the labels of Language.Label, "Русский" and "Английский"; every other code is Unsupported |
| Transition.UploadStage | main.py:42-46 | with a file, the file is stored; if it decodes, image and rotated image become the decoded image and the angle 0, otherwise the run stops with image, rotated image and angle unchanged; text and language are never touched |
| Transition.RotationStage | main.py:60-71 | with no image nothing changes; with an image the angle ends equal to the slider's value whatever the buttons did, and the rotated image is the image rotated by that angle; file, image, text and language are unchanged |
| Transition.ClearStage | main.py:74-78 | a clear leaves file, image and rotated image absent and the angle 0, without touching text or language; no clear changes nothing |
| Transition.RecognitionStage | main.py:82-115 | runs only when the button is pressed and a rotated image is shown; OCR failure changes nothing; otherwise the text is the space-join of the text fields (Transition.Texts, `res[1]`) in engine order ("" for no fragments), an empty text is reported as NoText without asking the detector, the language changes only to a supported code the detector returned for non-empty text, and does change when it returns one |
| Transition.Cycle | main.py:42-115 | a decode failure stores only the file; after a complete run with an image the angle equals the slider; a clear wins over upload and rotation in the same run; without the recognise button text and language are unchanged; the invariant Consistent is preserved |
| Transition.RunPreservesConsistency | main.py:18-115 | along any sequence of script runs with in-range slider values, Consistent keeps holding |
| Transition.Reachable | main.py:18-31 | every session state reachable from the initial defaults is Consistent: angle in [-180, 180], rotated image present exactly with the image and equal to its rotation, language absent, "ru" or "en" |
| Transition.RunWithoutRecognitionKeepsText | main.py:42-79 | uploads, rotations and clears never change the extracted text or the detected language, over any number of runs |
| Transition.ButtonsOverridden | main.py:60-68 | a script run with either rotate button pressed has exactly the same effect as without |
| Transition.ClearedStaysCleared | main.py:60-82 | from a cleared state, a run without an upload keeps the image absent and the angle 0, and recognition is not offered |
| Transition.ScenarioTwoLeftTurns | main.py:42-71 | upload followed by two presses of rotate left ends with angle 0 and the image rotated by 0 |
| Controller.Session.constructor | main.py:14-31 | the session starts at Transition.Initial: no file, no image, angle 0, empty text and no language, and is Valid |
| Controller.Session.HandleUpload | main.py:42-46 | updates the fields exactly as UploadStage |
| Controller.Session.HandleRotation | main.py:60-71 | the in-place `+= 90`, `-= 90` and slider overwrite update the fields exactly as RotationStage; with an image the angle ends at the slider value |
| Controller.Session.HandleClear | main.py:74-78 | updates the fields exactly as ClearStage |
| Controller.Session.HandleRecognition | main.py:82-115 | updates text and language and reports the outcome exactly as RecognitionStage |
| Controller.Session.Step | main.py:42-115 | one script run updates the fields and reports the outcome exactly as Cycle, and keeps Valid |

## Left out

- Rendering: widgets, `st.image`, captions and every `st.write` message (lines 34-57, 79, 83, 102-121). Only which of them would be shown is kept, as `Outcome` and `Language.Report`.
- Transition.RotationStage: treats `rotate` as total. A file whose header Image.open accepts but whose pixel data is broken raises at the first use of the pixels, the rotate at line 71. By then lines 43-46 and 62-68 have stored the new file and image, set `rotated_image` to the unrotated image and the angle to the slider value, and the run stops before the clear and the recognition. That path is not modelled, and on it `rotated_image` is not `rotate(image, rotation_angle)`.
- Image decoding and the pixel geometry of `rotate(..., expand=True)`: these belong to the imaging library and use floating-point resampling. They are the functions `open` and `rotate`. Nothing here says that rotating by 0 reproduces the image.
- The OCR model (its construction at line 15, and `readtext` at line 92) and the language detector's classifier: these are external. They are the functions `readText` and `detect`. `detect` is treated as deterministic, although langdetect can answer differently for the same text unless it is seeded.
- `inference_time` and the two clock readings (lines 30-31, 88, 96-98): wall-clock floats, only displayed.
- The `speech_recognition`, `pydub`, `io` and `tempfile` imports (lines 8-11): never used.
