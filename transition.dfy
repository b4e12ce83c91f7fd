/** One run of the script main.py is one transition of the session state. Streamlit
    re-runs the script from the top on every interaction; the run applies, in this order,
    the upload (lines 42-46), the rotation (lines 60-71), the clear (lines 74-78) and the
    recognition (lines 82-115). */
module Transition {
  import opened Wrappers
  import Text
  import Language

  /** One result of the OCR engine: the region's corner points, the text, the confidence. */
  datatype Detection = Detection(box: seq<(real, real)>, text: string, confidence: real)

  /** The session-state record (lines 18-29). `inference_time` and the cached OCR
      model are not part of the model. */
  datatype State<File, Image> = State(
    uploadedFile: Option<File>,
    image: Option<Image>,
    rotatedImage: Option<Image>,
    rotationAngle: int,
    extractedText: string,
    detectedLang: Option<string>)

  /** What one script run reads from its widgets: the uploader's file, the two rotate
      buttons, the slider, the clear button and the recognise button. */
  datatype Events<File> = Events(
    upload: Option<File>,
    rotateLeft: bool,
    rotateRight: bool,
    slider: int,
    clear: bool,
    recognise: bool)

  /** The foreign collaborators, as functions. `None` from `open` stands for Image.open
      failing to identify the file, from `readText` for the OCR engine raising, from `detect` for
      LangDetectException. `rotate` is `Image.rotate(angle, expand=True)`. */
  datatype Engines<!File, !Image> = Engines(
    open: File -> Option<Image>,
    rotate: (Image, int) -> Image,
    readText: Image -> Option<seq<Detection>>,
    detect: string -> Option<string>)

  /** How a script run ends. A raised exception stops the run where it happens; the
      state written before that point stays written. */
  datatype Outcome =
    | Completed                          // the recognise button was not pressed (or not shown)
    | Recognised(report: Language.Report) // recognition ran to the end
    | DecodeFailed                       // Image.open raised (line 44)
    | RecognitionFailed                  // the OCR engine raised (line 92)

  /** The slider widget only produces values in [-180, 180] (line 53). */
  predicate SliderInRange<File>(ev: Events<File>)
  {
    -180 <= ev.slider <= 180
  }

  /** The state the first run creates (lines 18-29). */
  function Initial<File, Image>(): State<File, Image>
  {
    State(None, None, None, 0, "", None)
  }

  /** What every state reachable from `Initial` satisfies. */
  ghost predicate Consistent<File, Image>(s: State<File, Image>, rotate: (Image, int) -> Image)
  {
    && (s.image.None? <==> s.rotatedImage.None?)
    && (s.image.Some? ==> s.rotatedImage == Some(rotate(s.image.value, s.rotationAngle)))
    && (s.image.Some? ==> s.uploadedFile.Some?)
    && -180 <= s.rotationAngle <= 180
    && Language.StoredLanguageOk(s.detectedLang)
  }

  /** The text fields of the OCR results, in engine order (`res[1]`). */
  function Texts(results: seq<Detection>): seq<string>
  {
    seq(|results|, i requires 0 <= i < |results| => results[i].text)
  }

  /** Lines 42-46. The boolean is false when Image.open could not identify the file
      (line 44), which stops the run after the file has been stored but before the image
      is replaced. */
  function UploadStage<File, Image>(s: State<File, Image>, upload: Option<File>,
                                    open: File -> Option<Image>): (r: (State<File, Image>, bool))
    ensures r.0.extractedText == s.extractedText && r.0.detectedLang == s.detectedLang
    ensures upload.None? ==> r == (s, true)
    ensures upload.Some? ==> r.0.uploadedFile == upload && (r.1 <==> open(upload.value).Some?)
    ensures upload.Some? && r.1 ==>
      r.0.image == r.0.rotatedImage == open(upload.value) && r.0.rotationAngle == 0
    ensures !r.1 ==>
      r.0.image == s.image && r.0.rotatedImage == s.rotatedImage && r.0.rotationAngle == s.rotationAngle
  {
    match upload
    case None => (s, true)
    case Some(file) =>
      var stored := s.(uploadedFile := Some(file));
      match open(file)
      case None => (stored, false)
      case Some(img) => (stored.(image := Some(img), rotatedImage := Some(img), rotationAngle := 0), true)
  }

  /** Lines 60-71: the buttons add or subtract 90, then a slider value that differs from
      the angle replaces it, then the displayed image is recomputed. */
  function RotationStage<File, Image>(s: State<File, Image>, left: bool, right: bool, slider: int,
                                      rotate: (Image, int) -> Image): (r: State<File, Image>)
    ensures s.image.None? ==> r == s
    ensures s.image.Some? ==>
      r.rotationAngle == slider && r.rotatedImage == Some(rotate(s.image.value, slider))
    ensures r.uploadedFile == s.uploadedFile && r.image == s.image
    ensures r.extractedText == s.extractedText && r.detectedLang == s.detectedLang
  {
    match s.image
    case None => s
    case Some(img) =>
      var turnedLeft := if left then s.rotationAngle + 90 else s.rotationAngle;
      var turned := if right then turnedLeft - 90 else turnedLeft;
      var angle := if slider != turned then slider else turned;
      s.(rotationAngle := angle, rotatedImage := Some(rotate(img, angle)))
  }

  /** Lines 74-78. */
  function ClearStage<File, Image>(s: State<File, Image>, clear: bool): (r: State<File, Image>)
    ensures clear ==>
      r.uploadedFile.None? && r.image.None? && r.rotatedImage.None? && r.rotationAngle == 0
    ensures !clear ==> r == s
    ensures r.extractedText == s.extractedText && r.detectedLang == s.detectedLang
  {
    if clear then s.(uploadedFile := None, image := None, rotatedImage := None, rotationAngle := 0)
    else s
  }

  /** Lines 82-115. The recognise button exists only while a rotated image is shown. */
  function RecognitionStage<File, Image>(s: State<File, Image>, recognise: bool,
                                         readText: Image -> Option<seq<Detection>>,
                                         detect: string -> Option<string>): (r: (State<File, Image>, Outcome))
    ensures r.0.uploadedFile == s.uploadedFile && r.0.image == s.image
    ensures r.0.rotatedImage == s.rotatedImage && r.0.rotationAngle == s.rotationAngle
    ensures !(recognise && s.rotatedImage.Some?) ==> r == (s, Completed)
    ensures recognise && s.rotatedImage.Some? && readText(s.rotatedImage.value).None? ==>
      r == (s, RecognitionFailed)
    ensures recognise && s.rotatedImage.Some? && readText(s.rotatedImage.value).Some? ==>
      var results := readText(s.rotatedImage.value).value;
      && r.0.extractedText == Text.JoinWithSpace(Texts(results))
      && (results == [] ==> r.0.extractedText == "")
      && (r.0.extractedText == "" ==> r.1 == Recognised(Language.NoText))
      && (r.0.extractedText == "" ==> r.0.detectedLang == s.detectedLang)
      && (r.0.extractedText != "" ==> r.1 == Recognised(Language.Classify(detect(r.0.extractedText))))
      && (r.0.extractedText != "" && detect(r.0.extractedText).Some?
          && Language.IsSupported(detect(r.0.extractedText).value) ==>
            r.0.detectedLang == detect(r.0.extractedText))
    ensures r.0.detectedLang != s.detectedLang ==>
      && r.0.extractedText != "" && r.0.detectedLang.Some?
      && r.0.detectedLang == detect(r.0.extractedText) && Language.IsSupported(r.0.detectedLang.value)
    ensures Language.StoredLanguageOk(s.detectedLang) ==> Language.StoredLanguageOk(r.0.detectedLang)
  {
    if !(recognise && s.rotatedImage.Some?) then (s, Completed)
    else
      match readText(s.rotatedImage.value)
      case None => (s, RecognitionFailed)
      case Some(results) =>
        var text := Text.JoinWithSpace(Texts(results));
        var withText := s.(extractedText := text);
        if text == "" then (withText, Recognised(Language.NoText))
        else
          var report := Language.Classify(detect(text));
          if report.Accepted? then (withText.(detectedLang := Some(report.code)), Recognised(report))
          else (withText, Recognised(report))
  }

  /** One script run: the four stages in the order of the script. */
  function Cycle<File, Image>(s: State<File, Image>, ev: Events<File>,
                              eng: Engines<File, Image>): (r: (State<File, Image>, Outcome))
    ensures ev.upload.Some? && eng.open(ev.upload.value).None? ==>
      r == (s.(uploadedFile := ev.upload), DecodeFailed)
    ensures r.1 != DecodeFailed && r.0.image.Some? ==> r.0.rotationAngle == ev.slider
    ensures r.1 != DecodeFailed && ev.clear ==>
      r.0.uploadedFile.None? && r.0.image.None? && r.0.rotatedImage.None? && r.0.rotationAngle == 0
    ensures !ev.recognise ==>
      r.0.extractedText == s.extractedText && r.0.detectedLang == s.detectedLang
    ensures SliderInRange(ev) && Consistent(s, eng.rotate) ==> Consistent(r.0, eng.rotate)
  {
    var (uploaded, decoded) := UploadStage(s, ev.upload, eng.open);
    if !decoded then (uploaded, DecodeFailed)
    else
      var rotated := RotationStage(uploaded, ev.rotateLeft, ev.rotateRight, ev.slider, eng.rotate);
      var cleared := ClearStage(rotated, ev.clear);
      RecognitionStage(cleared, ev.recognise, eng.readText, eng.detect)
  }

  /** The session after a sequence of script runs (a run that raised still leaves its
      state behind, and the session goes on). */
  function Run<File, Image>(s: State<File, Image>, evs: seq<Events<File>>,
                            eng: Engines<File, Image>): State<File, Image>
    decreases |evs|
  {
    if |evs| == 0 then s else Run(Cycle(s, evs[0], eng).0, evs[1..], eng)
  }

  /** Consistency is an invariant of every session whose slider stays in range. */
  lemma {:induction false} RunPreservesConsistency<File, Image>(s: State<File, Image>,
                                                                 evs: seq<Events<File>>,
                                                                 eng: Engines<File, Image>)
    requires Consistent(s, eng.rotate)
    requires forall i :: 0 <= i < |evs| ==> SliderInRange(evs[i])
    ensures Consistent(Run(s, evs, eng), eng.rotate)
    decreases |evs|
  {
    if |evs| > 0 {
      RunPreservesConsistency(Cycle(s, evs[0], eng).0, evs[1..], eng);
    }
  }

  /** Every reachable session is consistent: in particular the angle stays in
      [-180, 180] and the stored language is absent, "ru" or "en". */
  lemma Reachable<File, Image>(evs: seq<Events<File>>, eng: Engines<File, Image>)
    requires forall i :: 0 <= i < |evs| ==> SliderInRange(evs[i])
    ensures Consistent(Run(Initial(), evs, eng), eng.rotate)
  {
    RunPreservesConsistency(Initial(), evs, eng);
  }

  /** Without a press of the recognise button, no sequence of uploads, rotations and
      clears changes the text or the language. */
  lemma {:induction false} RunWithoutRecognitionKeepsText<File, Image>(s: State<File, Image>,
                                                                        evs: seq<Events<File>>,
                                                                        eng: Engines<File, Image>)
    requires forall i :: 0 <= i < |evs| ==> !evs[i].recognise
    ensures Run(s, evs, eng).extractedText == s.extractedText
    ensures Run(s, evs, eng).detectedLang == s.detectedLang
    decreases |evs|
  {
    if |evs| > 0 {
      RunWithoutRecognitionKeepsText(Cycle(s, evs[0], eng).0, evs[1..], eng);
    }
  }

  /** The rotate buttons never make a difference: the slider comparison overrides them. */
  lemma ButtonsOverridden<File, Image>(s: State<File, Image>, ev: Events<File>, eng: Engines<File, Image>)
    ensures Cycle(s, ev, eng) == Cycle(s, ev.(rotateLeft := false, rotateRight := false), eng)
  {
  }

  /** After a clear, a run without an upload leaves the image absent and the angle 0,
      whatever the buttons and the slider say. */
  lemma ClearedStaysCleared<File, Image>(s: State<File, Image>, ev: Events<File>, eng: Engines<File, Image>)
    requires s.image.None? && s.rotatedImage.None? && s.rotationAngle == 0
    requires ev.upload.None?
    ensures Cycle(s, ev, eng).0.image.None?
    ensures Cycle(s, ev, eng).0.rotatedImage.None?
    ensures Cycle(s, ev, eng).0.rotationAngle == 0
    ensures Cycle(s, ev, eng).1 == Completed
  {
  }

  /** Each press of a rotate button is a script run of its own, and in it the slider still
      shows its old value: uploading, then pressing "rotate left" twice, leaves the angle
      at the slider's 0 rather than at 180. */
  lemma ScenarioTwoLeftTurns<File, Image>(file: File, img: Image, eng: Engines<File, Image>)
    requires eng.open(file) == Some(img)
    ensures var idle := Events(Some(file), false, false, 0, false, false);
            var left := idle.(rotateLeft := true);
            var s := Run(Initial(), [idle, left, left], eng);
            s.rotationAngle == 0 && s.rotatedImage == Some(eng.rotate(img, 0))
  {
    var idle := Events(Some(file), false, false, 0, false, false);
    var left := idle.(rotateLeft := true);
    var s1 := Cycle(Initial(), idle, eng).0;
    var s2 := Cycle(s1, left, eng).0;
    assert [idle, left, left][1..] == [left, left];
    assert [left, left][1..] == [left];
    assert Run(Initial(), [idle, left, left], eng) == Run(s1, [left, left], eng);
    assert Run(s1, [left, left], eng) == Run(s2, [left], eng);
  }
}
