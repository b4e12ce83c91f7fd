/** The session-state controller of main.py: the `st.session_state` record as an object
    whose fields one script run updates in place, stage by stage. */
module Controller {
  import opened Wrappers
  import Text
  import Language
  import opened Transition

  class Session<!File, !Image> {
    /** The foreign collaborators; the OCR reader is built once per session (line 15). */
    const engines: Engines<File, Image>

    var uploadedFile: Option<File>
    var image: Option<Image>
    var rotatedImage: Option<Image>
    var rotationAngle: int
    var extractedText: string
    var detectedLang: Option<string>

    /** The fields as one value. */
    function Snapshot(): State<File, Image>
      reads this
    {
      State(uploadedFile, image, rotatedImage, rotationAngle, extractedText, detectedLang)
    }

    ghost predicate Valid()
      reads this
    {
      Consistent(Snapshot(), engines.rotate)
    }

    /** The defaults set on the first run (lines 14-29). */
    constructor (engines: Engines<File, Image>)
      ensures this.engines == engines
      ensures Snapshot() == Initial()
      ensures Valid()
    {
      this.engines := engines;
      uploadedFile := None;
      image := None;
      rotatedImage := None;
      rotationAngle := 0;
      extractedText := "";
      detectedLang := None;
    }

    /** Lines 42-46; `decoded` is false when Image.open raised. */
    method HandleUpload(upload: Option<File>) returns (decoded: bool)
      modifies this
      ensures (Snapshot(), decoded) == UploadStage(old(Snapshot()), upload, engines.open)
    {
      decoded := true;
      if upload.Some? {
        uploadedFile := upload;
        var decodedImage := engines.open(upload.value);
        if decodedImage.None? {
          decoded := false;
          return;
        }
        image := decodedImage;
        rotatedImage := image;
        rotationAngle := 0;
      }
    }

    /** Lines 60-71. */
    method HandleRotation(left: bool, right: bool, slider: int)
      modifies this
      ensures Snapshot() == RotationStage(old(Snapshot()), left, right, slider, engines.rotate)
      ensures image.Some? ==> rotationAngle == slider
    {
      if image.Some? {
        if left {
          rotationAngle := rotationAngle + 90;
        }
        if right {
          rotationAngle := rotationAngle - 90;
        }
        if slider != rotationAngle {
          rotationAngle := slider;
        }
        rotatedImage := Some(engines.rotate(image.value, rotationAngle));
      }
    }

    /** Lines 74-78. */
    method HandleClear(clear: bool)
      modifies this
      ensures Snapshot() == ClearStage(old(Snapshot()), clear)
    {
      if clear {
        uploadedFile := None;
        image := None;
        rotatedImage := None;
        rotationAngle := 0;
      }
    }

    /** Lines 82-115. */
    method HandleRecognition(recognise: bool) returns (outcome: Outcome)
      modifies this
      ensures (Snapshot(), outcome) ==
              RecognitionStage(old(Snapshot()), recognise, engines.readText, engines.detect)
    {
      outcome := Completed;
      if rotatedImage.Some? && recognise {
        var results := engines.readText(rotatedImage.value);
        if results.None? {
          return RecognitionFailed;
        }
        extractedText := Text.JoinWithSpace(Texts(results.value));
        if extractedText == "" {
          return Recognised(Language.NoText);
        }
        var report := Language.Classify(engines.detect(extractedText));
        if report.Accepted? {
          detectedLang := Some(report.code);
        }
        outcome := Recognised(report);
      }
    }

    /** One script run: the stages in the script's order; an exception ends the run. */
    method Step(ev: Events<File>) returns (outcome: Outcome)
      requires Valid()
      requires SliderInRange(ev)
      modifies this
      ensures Valid()
      ensures (Snapshot(), outcome) == Cycle(old(Snapshot()), ev, engines)
    {
      var decoded := HandleUpload(ev.upload);
      if !decoded {
        return DecodeFailed;
      }
      HandleRotation(ev.rotateLeft, ev.rotateRight, ev.slider);
      HandleClear(ev.clear);
      outcome := HandleRecognition(ev.recognise);
    }
  }
}
