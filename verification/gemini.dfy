/**
 * The reply pipeline of the widget: `generateGeminiReply` and `callGemini`,
 * with the HTTP exchange abstracted into an `Exchange` value. What is left is
 * a pure classifier from an exchange to either reply text or a coded error.
 */
module Gemini {
  import opened Wrappers
  import opened Text

  /** The `code` of a thrown error. `Unrecognized` stands for an error without a
      code, or with a code the error translator does not know. */
  datatype ErrorCode = MissingKey | Timeout | Network | Api | Empty | Unrecognized

  /** An error raised by `createGeminiError` (the `details` field is only logged). */
  datatype GeminiError = GeminiError(code: ErrorCode, message: string)

  /** What the first candidate's `content.parts` holds in a successful response:
      `None` when it is not an array; each part's `text` field, `None` when missing. */
  type Parts = Option<seq<Option<string>>>

  /** The body of a 2xx response. `Unparseable` when `response.json()` rejects. */
  datatype Body = Unparseable | Parsed(parts: Parts)

  /** How the one POST to the generation endpoint ends. */
  datatype Exchange =
    | Aborted                     // the 20-second abort controller fired
    | TransportFailure            // `fetch` rejected without an abort
    | NotOk(statusText: string, payloadMessage: Option<string>)
      // `payloadMessage` is the body's `error.message`, `None` when absent or not JSON
    | Ok(body: Body)

  /** What reaches the `catch` block of `callGemini`. */
  datatype Thrown = AbortError | Coded(error: GeminiError) | Uncoded

  const MissingKeyMessage: string := "Er is geen Google Gemini API-sleutel ingesteld."
  const TimeoutMessage: string := "De aanvraag naar Gemini duurde te lang."
  const NetworkMessage: string := "Er is een netwerkfout opgetreden bij het verbinden met Gemini."
  const EmptyMessage: string := "Gemini gaf een leeg antwoord."
  const ApiMessagePrefix: string := "Gemini API-fout: "

  /** The configured key: the configuration value, absent counting as `''`, trimmed. */
  function ConfiguredKey(configValue: Option<string>): (key: string)
    ensures Trimmed(key)
    ensures key == [] <==> (configValue.None? || AllWhitespace(configValue.value))
    ensures exists i :: StripsAt(configValue.GetOr(""), key, i)
  {
    var v := configValue.GetOr("");
    TrimEmptyIff(v);
    assert StripsAt(v, Trim(v), LeadingWhitespace(v));
    Trim(v)
  }

  /** The `catch` block of `callGemini`: an abort becomes `timeout`, an error that
      already has a code is rethrown as is, anything else becomes `network`. */
  function Caught(t: Thrown): (e: GeminiError)
    ensures t.AbortError? ==> e.code == Timeout
    ensures t.Coded? ==> e == t.error
    ensures t.Uncoded? ==> e.code == Network
  {
    match t
    case AbortError => GeminiError(Timeout, TimeoutMessage)
    case Coded(e) => e
    case Uncoded => GeminiError(Network, NetworkMessage)
  }

  /** The parts' texts joined with `''`, a missing text counting as `''`. The join is
      empty exactly when every part's text is missing or empty. */
  function JoinParts(parts: seq<Option<string>>): (j: string)
    ensures j == [] <==> forall i :: 0 <= i < |parts| ==> parts[i].GetOr("") == []
  {
    if parts == [] then ""
    else
      var j := parts[0].GetOr("") + JoinParts(parts[1..]);
      assert forall i :: 1 <= i < |parts| ==> parts[i] == parts[1..][i - 1];
      j
  }

  /** Joining distributes over concatenation of the parts. */
  lemma {:induction false} JoinAppend(a: seq<Option<string>>, b: seq<Option<string>>)
    ensures JoinParts(a + b) == JoinParts(a) + JoinParts(b)
  {
    if a == [] {
      assert a + b == b;
    } else {
      JoinAppend(a[1..], b);
      assert (a + b)[1..] == a[1..] + b;
    }
  }

  /** The reply text of a successful response: the joined parts, trimmed;
      `''` when `parts` is not an array. */
  function ExtractText(parts: Parts): (t: string)
    ensures Trimmed(t)
    ensures parts.None? ==> t == []
    ensures parts.Some? ==> StripsAt(JoinParts(parts.value), t, LeadingWhitespace(JoinParts(parts.value)))
  {
    match parts
    case None => ""
    case Some(ps) => Trim(JoinParts(ps))
  }

  /** `callGemini(prompt)` once the request has been sent and has ended as `x`. */
  function CallGemini(x: Exchange): (r: Result<string, GeminiError>)
    ensures r.Success? ==> x.Ok? && x.body.Parsed? && r.value == ExtractText(x.body.parts)
    ensures r.Success? ==> r.value != [] && Trimmed(r.value)
    ensures x.Ok? && x.body.Parsed? ==> (r.Success? <==> ExtractText(x.body.parts) != [])
    ensures r.Failure? ==> r.error.code in {Timeout, Network, Api, Empty}
  {
    match x
    case Aborted => Failure(Caught(AbortError))
    case TransportFailure => Failure(Caught(Uncoded))
    case NotOk(statusText, payloadMessage) =>
      Failure(Caught(Coded(GeminiError(Api, ApiMessagePrefix + payloadMessage.GetOr(statusText)))))
    case Ok(Unparseable) => Failure(Caught(Uncoded))
    case Ok(Parsed(parts)) =>
      var text := ExtractText(parts);
      if text == [] then Failure(Caught(Coded(GeminiError(Empty, EmptyMessage))))
      else Success(text)
  }

  /** `generateGeminiReply(prompt)`: refuses with `missing-key` when no key is configured,
      without consulting the exchange; otherwise `callGemini`. */
  function GenerateReply(key: string, x: Exchange): (r: Result<string, GeminiError>)
    ensures key == [] ==> r == Failure(GeminiError(MissingKey, MissingKeyMessage))
    ensures key != [] ==> r == CallGemini(x)
  {
    if key == [] then Failure(GeminiError(MissingKey, MissingKeyMessage))
    else CallGemini(x)
  }

  /** With no key configured the result is the same whatever the network would have done. */
  lemma MissingKeyIgnoresExchange(x1: Exchange, x2: Exchange)
    ensures GenerateReply("", x1) == GenerateReply("", x2)
    ensures GenerateReply("", x1).Failure? && GenerateReply("", x1).error.code == MissingKey
  {
  }

  /** A configured key never produces `missing-key`, and no exchange produces an unrecognized code. */
  lemma ErrorCodes(key: string, x: Exchange)
    ensures GenerateReply(key, x).Failure? ==> GenerateReply(key, x).error.code != Unrecognized
    ensures GenerateReply(key, x).Failure? && GenerateReply(key, x).error.code == MissingKey <==> key == []
  {
  }

  /** The classification of each kind of exchange, once a key is configured. */
  lemma Classification(key: string, x: Exchange)
    requires key != []
    ensures GenerateReply(key, x) == Failure(GeminiError(Timeout, TimeoutMessage)) <==> x.Aborted?
    ensures GenerateReply(key, x) == Failure(GeminiError(Network, NetworkMessage))
            <==> x.TransportFailure? || x == Ok(Unparseable)
    ensures x.NotOk? ==>
              GenerateReply(key, x) == Failure(GeminiError(Api, ApiMessagePrefix + x.payloadMessage.GetOr(x.statusText)))
    ensures GenerateReply(key, x) == Failure(GeminiError(Empty, EmptyMessage))
            <==> x.Ok? && x.body.Parsed? && ExtractText(x.body.parts) == []
  {
  }

  /** A successful response yields a reply exactly when its joined text is not all
      whitespace; otherwise (including a `parts` that is not an array) it is `empty`. */
  lemma SuccessIff(key: string, parts: Parts)
    requires key != []
    ensures GenerateReply(key, Ok(Parsed(parts))).Success?
            <==> parts.Some? && !AllWhitespace(JoinParts(parts.value))
  {
    if parts.Some? {
      TrimEmptyIff(JoinParts(parts.value));
    }
  }

  /** The reply of a successful response is exactly the trimmed joined text. */
  lemma ReplyIsTrimmedJoin(key: string, ps: seq<Option<string>>)
    requires key != []
    requires !AllWhitespace(JoinParts(ps))
    ensures GenerateReply(key, Ok(Parsed(Some(ps)))).Success?
    ensures GenerateReply(key, Ok(Parsed(Some(ps)))).value == Trim(JoinParts(ps))
  {
    TrimEmptyIff(JoinParts(ps));
  }

  /** Missing texts contribute nothing: dropping them from the parts changes nothing. */
  lemma {:induction false} JoinIgnoresMissing(ps: seq<Option<string>>, i: nat)
    requires i <= |ps|
    ensures JoinParts(ps[..i] + [None] + ps[i..]) == JoinParts(ps)
  {
    if i == 0 {
      assert ([None] + ps)[1..] == ps;
    } else {
      JoinIgnoresMissing(ps[1..], i - 1);
      assert (ps[..i] + [None] + ps[i..])[1..] == ps[1..][..i - 1] + [None] + ps[1..][i - 1..];
    }
  }

  /** An error payload's message takes precedence over the status text, even when empty. */
  lemma ApiMessageExample()
    ensures GenerateReply("k", NotOk("Bad Request", Some(""))).error.message == "Gemini API-fout: "
    ensures GenerateReply("k", NotOk("Bad Request", None)).error.message == "Gemini API-fout: Bad Request"
  {
  }
}
