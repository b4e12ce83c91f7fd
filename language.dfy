/** The filter applied to the language detector's answer (main.py, lines 105-115):
    only Russian and English are accepted, each with its display label. */
module Language {
  import opened Wrappers

  /** What the cycle reports about the language of the recognised text. */
  datatype Report =
    | NoText                                // the text was empty, so the detector was not asked
    | Accepted(code: string, display: string) // "ru" or "en", with the label shown to the user
    | Unsupported                           // some other language code
    | Undetermined                          // the detector raised LangDetectException

  /** Membership in the list `['ru', 'en']`. */
  predicate IsSupported(code: string)
  {
    code == "ru" || code == "en"
  }

  /** A stored language: absent, or one of the two supported codes. */
  predicate StoredLanguageOk(lang: Option<string>)
  {
    lang.None? || IsSupported(lang.value)
  }

  /** The label shown for a supported code. */
  function Label(code: string): string
  {
    if code == "ru" then "Русский" else "Английский"
  }

  /** Classifies the detector's answer; `None` stands for the detector raising. */
  function Classify(answer: Option<string>): (r: Report)
    ensures r != NoText
    ensures r.Undetermined? <==> answer.None?
    ensures r.Accepted? <==> answer.Some? && IsSupported(answer.value)
    ensures r.Accepted? ==> r.code == answer.value
    ensures answer == Some("ru") ==> r == Accepted("ru", "Русский")
    ensures answer == Some("en") ==> r == Accepted("en", "Английский")
  {
    match answer
    case None => Undetermined
    case Some(code) =>
      if IsSupported(code) then Accepted(code, Label(code)) else Unsupported
  }
}
