/**
 * The conversation thread as a state machine: `handleSubmit` (append the user's
 * message and a pending placeholder, then resolve the placeholder with the reply
 * or with the translated error), `resetConversation`, and the page start.
 */
module Conversation {
  import opened Wrappers
  import opened Text
  import opened EcoResponses
  import opened Gemini
  import opened ErrorTranslator

  datatype Kind = User | Eco

  /** One bubble of the thread. */
  datatype Message = Message(author: string, text: string, kind: Kind, pending: bool)

  /** The thread and the connection indicator. */
  datatype State = State(messages: seq<Message>, status: ConnectionStatus)

  /** No message of the thread is waiting for its answer. */
  ghost predicate NonePending(s: State) {
    forall i :: 0 <= i < |s.messages| ==> !s.messages[i].pending
  }

  const UserAuthor: string := "Jij"
  const EcoAuthor: string := "EcoNexus"
  const PlaceholderText: string := "EcoNexus formuleert een antwoord..."
  const GreetingText: string :=
    "Hallo! Ik ben EcoNexus, je duurzame assistent. Vraag me alles over groene innovaties, klimaatbeleid of bewuste lifestyle-keuzes."

  function Greeting(): Message {
    Message(EcoAuthor, GreetingText, Eco, false)
  }

  /** `resetConversation()`: the thread is cleared and holds only the greeting;
      the indicator is left as it was. */
  function Reset(s: State): (s': State)
    ensures |s'.messages| == 1
    ensures s'.messages[0].kind == Eco && s'.messages[0].author == EcoAuthor
    ensures s'.messages[0].text == GreetingText && !s'.messages[0].pending
    ensures s'.status == s.status
  {
    State([Greeting()], s.status)
  }

  /** The page start with `configValue` as the configured API key: a reset thread,
      and the indicator `ready` when the value holds more than whitespace and
      `warning` when it is absent or blank. */
  function Start(configValue: Option<string>): (s: State)
    ensures s.messages == [Greeting()]
    ensures s.status == Ready <==> (configValue.Some? && !AllWhitespace(configValue.value))
    ensures s.status == Warning <==> (configValue.None? || AllWhitespace(configValue.value))
  {
    Reset(State([], if ConfiguredKey(configValue) != [] then Ready else Warning))
  }

  /** `handleSubmit` up to the request: nothing happens when the input is blank;
      otherwise the trimmed input and a pending placeholder are appended. */
  function Begin(s: State, input: string): (s': State)
    ensures Trim(input) == [] ==> s' == s
    ensures Trim(input) != [] ==>
      && |s'.messages| == |s.messages| + 2
      && (forall i :: 0 <= i < |s.messages| ==> s'.messages[i] == s.messages[i])
      && s'.messages[|s.messages|] == Message(UserAuthor, Trim(input), User, false)
      && s'.messages[|s.messages| + 1] == Message(EcoAuthor, PlaceholderText, Eco, true)
      && s'.status == s.status
  {
    var value := Trim(input);
    if value == [] then s
    else State(s.messages + [Message(UserAuthor, value, User, false), Message(EcoAuthor, PlaceholderText, Eco, true)], s.status)
  }

  /** While the request is in flight the placeholder is the one pending message of a
      settled thread, and it is the last one. */
  lemma BeginPendingOnlyPlaceholder(s: State, input: string)
    requires NonePending(s) && Trim(input) != []
    ensures var b := Begin(s, input);
      forall i :: 0 <= i < |b.messages| ==> (b.messages[i].pending <==> i == |s.messages| + 1)
  {
    var b := Begin(s, input);
    var n := |s.messages|;
    forall i | 0 <= i < |b.messages|
      ensures b.messages[i].pending <==> i == n + 1
    {
      if i < n {
        assert b.messages[i] == s.messages[i];
      }
    }
  }

  /** `handleSubmit` once the reply pipeline for the trimmed input `value` has settled
      with `result`: the message at `at` gets the reply, or the translated error, and
      stops being pending; the indicator becomes `ready`, or what the translation says.
      A position outside the thread leaves the messages alone. */
  function Settle(s: State, at: nat, value: string, result: Result<string, GeminiError>): (s': State)
    ensures |s'.messages| == |s.messages|
    ensures forall i :: 0 <= i < |s.messages| && i != at ==> s'.messages[i] == s.messages[i]
    ensures at < |s.messages| ==>
      && !s'.messages[at].pending
      && s'.messages[at].author == s.messages[at].author
      && s'.messages[at].kind == s.messages[at].kind
    ensures result.Success? ==>
      s'.status == Ready && (at < |s.messages| ==> s'.messages[at].text == result.value)
    ensures result.Failure? ==>
      var t := HandleGeminiError(result.error, value);
      s'.status == t.status && (at < |s.messages| ==> s'.messages[at].text == t.text)
  {
    var (text, status) := match result
      case Success(reply) => (reply, Ready)
      case Failure(e) => var t := HandleGeminiError(e, value); (t.text, t.status);
    if at < |s.messages| then
      var m := s.messages[at];
      State(s.messages[at := Message(m.author, text, m.kind, false)], status)
    else State(s.messages, status)
  }

  /** `handleSubmit` as a whole, with `key` the configured key and `x` the way the
      request ends. Blank input changes nothing; otherwise exactly two messages are
      appended, the user's trimmed text and the eco answer, which is not pending. */
  function Submit(s: State, input: string, key: string, x: Exchange): (s': State)
    ensures Trim(input) == [] ==> s' == s
    ensures Trim(input) != [] ==>
      && |s'.messages| == |s.messages| + 2
      && (forall i :: 0 <= i < |s.messages| ==> s'.messages[i] == s.messages[i])
      && s'.messages[|s.messages|] == Message(UserAuthor, Trim(input), User, false)
      && s'.messages[|s.messages| + 1].author == EcoAuthor
      && s'.messages[|s.messages| + 1].kind == Eco
      && !s'.messages[|s.messages| + 1].pending
    ensures Trim(input) != [] && GenerateReply(key, x).Success? ==>
      && s'.messages[|s.messages| + 1].text == GenerateReply(key, x).value
      && s'.status == Ready
    ensures Trim(input) != [] && GenerateReply(key, x).Failure? ==>
      var t := HandleGeminiError(GenerateReply(key, x).error, Trim(input));
      s'.messages[|s.messages| + 1].text == t.text && s'.status == t.status
  {
    var value := Trim(input);
    if value == [] then s
    else
      var b := Begin(s, input);
      Settle(b, |s.messages| + 1, value, GenerateReply(key, x))
  }

  /** Every non-blank submission gets a non-empty answer, whatever happens on the network. */
  lemma SubmitAlwaysAnswers(s: State, input: string, key: string, x: Exchange)
    requires Trim(input) != []
    ensures |Submit(s, input, key, x).messages[|s.messages| + 1].text| > 0
  {
    var r := GenerateReply(key, x);
    if r.Failure? {
      TranslationNonEmpty(r.error, Trim(input));
    }
  }

  /** The indicator reads `ready` after a non-blank submission exactly when a reply came back. */
  lemma SubmitReadyIff(s: State, input: string, key: string, x: Exchange)
    requires Trim(input) != []
    ensures Submit(s, input, key, x).status == Ready <==> GenerateReply(key, x).Success?
  {
  }

  /** Without a key the network is never consulted: the outcome does not depend on the
      exchange, the indicator shows `warning` and the answer ends with the offline tip. */
  lemma SubmitWithoutKey(s: State, input: string, x1: Exchange, x2: Exchange)
    requires Trim(input) != []
    ensures Submit(s, input, "", x1) == Submit(s, input, "", x2)
    ensures Submit(s, input, "", x1).status == Warning
    ensures EndsWith(Submit(s, input, "", x1).messages[|s.messages| + 1].text, EcoReply(Trim(input)))
  {
  }

  /** Asking about solar energy with no key configured: two messages are added, the
      answer explains the missing key and gives the energy tip, the indicator warns. */
  lemma SubmitEnergyWithoutKey(x: Exchange)
    ensures var s := Submit(Start(None), "Hoe werkt zonne-energie?", "", x);
      && |s.messages| == 3
      && s.messages[1] == Message(UserAuthor, "Hoe werkt zonne-energie?", User, false)
      && s.messages[2].text == MissingKeyLead + EnergyReply
      && s.status == Warning
  {
    var input := "Hoe werkt zonne-energie?";
    assert Trimmed(input);
    TrimOfTrimmed(input);
    EcoReplyEnergyExample();
  }

  /** A thread as the widget can show it: the greeting, then user and eco messages
      in turn, none of them pending. */
  ghost predicate Settled(s: State) {
    && |s.messages| % 2 == 1
    && s.messages[0] == Greeting()
    && (forall i :: 1 <= i < |s.messages| ==> s.messages[i].kind == (if i % 2 == 1 then User else Eco))
    && NonePending(s)
  }

  /** What the user can do: submit some input (the request then ending as `exchange`),
      or start a new conversation. */
  datatype Event = Submitted(input: string, exchange: Exchange) | NewChat

  /** Appending a settled user message and a settled eco message keeps a thread settled. */
  lemma AppendExchangeKeepsSettled(s: State, s': State)
    requires Settled(s)
    requires |s'.messages| == |s.messages| + 2 && (forall i :: 0 <= i < |s.messages| ==> s'.messages[i] == s.messages[i])
    requires s'.messages[|s.messages|].kind == User && !s'.messages[|s.messages|].pending
    requires s'.messages[|s.messages| + 1].kind == Eco && !s'.messages[|s.messages| + 1].pending
    ensures Settled(s')
  {
  }

  /** A submission keeps a settled thread settled: the placeholder it adds is resolved. */
  lemma SubmitKeepsSettled(s: State, input: string, key: string, x: Exchange)
    ensures Settled(s) ==> Settled(Submit(s, input, key, x))
  {
    if Settled(s) && Trim(input) != [] {
      AppendExchangeKeepsSettled(s, Submit(s, input, key, x));
    }
  }

  function Step(s: State, key: string, e: Event): (s': State)
    ensures Settled(s) ==> Settled(s')
  {
    match e
    case Submitted(input, x) =>
      SubmitKeepsSettled(s, input, key, x);
      Submit(s, input, key, x)
    case NewChat => Reset(s)
  }

  /** The state after the page starts with `configValue` as the configured API key
      and the user does `events` in order; every request uses the trimmed key. */
  function Run(configValue: Option<string>, events: seq<Event>): (s: State)
    ensures Settled(s)
  {
    if events == [] then Start(configValue)
    else Step(Run(configValue, events[..|events| - 1]), ConfiguredKey(configValue), events[|events| - 1])
  }

  /** The non-blank submissions since the last new conversation. */
  function AnsweredSinceReset(events: seq<Event>): nat {
    if events == [] then 0
    else match events[|events| - 1]
      case NewChat => 0
      case Submitted(input, _) =>
        AnsweredSinceReset(events[..|events| - 1]) + (if Trim(input) == [] then 0 else 1)
  }

  /** The thread holds the greeting plus two messages per non-blank submission since
      the last new conversation. */
  lemma {:induction false} ThreadLength(configValue: Option<string>, events: seq<Event>)
    ensures |Run(configValue, events).messages| == 1 + 2 * AnsweredSinceReset(events)
  {
    if events != [] {
      ThreadLength(configValue, events[..|events| - 1]);
    }
  }
}
