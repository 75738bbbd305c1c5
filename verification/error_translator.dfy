/**
 * `handleGeminiError`: turns a coded error into the text shown in place of a reply,
 * always followed by the offline answer to the user's input, and the connection
 * status the indicator switches to.
 */
module ErrorTranslator {
  import opened Text
  import opened EcoResponses
  import opened Gemini

  /** The connection indicator's three states. */
  datatype ConnectionStatus = Ready | Warning | Error

  datatype Translation = Translation(text: string, status: ConnectionStatus)

  const MissingKeyLead: string :=
    "Ik heb je Google Gemini API-sleutel nodig om echte antwoorden te geven. Vul je sleutel in het bestand config.js in en laad de pagina opnieuw. Tot die tijd alvast een duurzame tip: "
  const TimeoutLead: string :=
    "De verbinding met Gemini duurde te lang. Probeer het nog eens. Hier is intussen een duurzame suggestie: "
  const NetworkLead: string :=
    "Ik kon geen contact maken met Gemini vanwege een netwerkfout. Controleer je verbinding en probeer het later opnieuw. Intussen: "
  /** Put between an `api` or `empty` error's own message and the offline answer. */
  const OfflineTipLink: string := " Ik geef je voorlopig een offline EcoNexus-tip: "
  const UnexpectedLead: string :=
    "Er is een onverwachte fout opgetreden. Probeer het opnieuw of ververs de pagina. Hier is alvast een duurzame suggestie: "

  /** `handleGeminiError(error, userInput)`. */
  function HandleGeminiError(e: GeminiError, userInput: string): (t: Translation)
    ensures EndsWith(t.text, EcoReply(userInput))
    ensures t.status == Warning <==> e.code == MissingKey
    ensures t.status != Ready
    ensures (e.code == Api || e.code == Empty) ==> StartsWith(t.text, e.message + OfflineTipLink)
  {
    var fallback := EcoReply(userInput);
    match e.code
    case MissingKey => Translation(MissingKeyLead + fallback, Warning)
    case Timeout => Translation(TimeoutLead + fallback, Error)
    case Network => Translation(NetworkLead + fallback, Error)
    case Api => Translation(e.message + OfflineTipLink + fallback, Error)
    case Empty => Translation(e.message + OfflineTipLink + fallback, Error)
    case Unrecognized => Translation(UnexpectedLead + fallback, Error)
  }

  /** Only `api` and `empty` errors show their own message: for every other code
      the text is the same whatever the message says. */
  lemma MessageShownOnlyForApiAndEmpty(c: ErrorCode, m1: string, m2: string, userInput: string)
    requires c != Api && c != Empty
    ensures HandleGeminiError(GeminiError(c, m1), userInput) == HandleGeminiError(GeminiError(c, m2), userInput)
  {
  }

  /** The text never comes out empty: the offline answer it ends with is never empty. */
  lemma TranslationNonEmpty(e: GeminiError, userInput: string)
    ensures |HandleGeminiError(e, userInput).text| > 0
  {
    EcoReplyNonEmpty(userInput);
  }
}
