/**
 * The offline responder: an ordered table of keyword rules and `ecoReply`,
 * which answers with the reply of the first rule one of whose keywords occurs
 * in the lower-cased input, or with a fixed default.
 */
module EcoResponses {
  import opened Wrappers
  import opened Text

  /** One entry of the `ecoResponses` table. */
  datatype Rule = Rule(keywords: seq<string>, reply: string)

  const EnergyReply: string :=
    "Voor een duurzame energiemix kun je starten met een energie-audit van je woning of kantoor. Combineer zonnepanelen met slimme laadpalen en kies voor een dynamisch energiecontract dat groene stroom garandeert. EcoNexus helpt je om investeringen te prioriteren en subsidieprogramma's te vinden."
  const LifestyleReply: string :=
    "Kies voor seizoensgebonden voeding, verminder voedselverspilling en kies verpakkingsvrije winkels. Stel een persoonlijk actieplan op met drie haalbare gewoontes per week en evalueer maandelijks je voortgang."
  const BusinessReply: string :=
    "Voor organisaties raad ik aan om een CO₂-baseline te berekenen en doelstellingen te koppelen aan het Science Based Targets initiative. Integreer scope 1, 2 én 3 emissies in je rapportages en gebruik de EcoNexus toolkit voor stakeholdercommunicatie."
  const ClimateReply: string :=
    "Recente IPCC-data tonen aan dat snelle decarbonisatie in de komende vijf jaar cruciaal is. Focus op elektrificatie, circulariteit en natuurherstel. EcoNexus kan grafieken genereren en scenario's modelleren voor je projecten."
  const MobilityReply: string :=
    "Stap over op gedeelde mobiliteit, stimuleer fietsgebruik met kilometervergoedingen en kies voor elektrische vlootplanning. Gebruik realtime data om routes te optimaliseren en koppel resultaten aan je duurzaamheidsdoelen."

  /** The reply when no rule matches. */
  const DefaultReply: string :=
    "Dank je voor je vraag! EcoNexus kan je helpen met duurzame strategieën, klimaatdata en praktische tips. Geef gerust extra context zodat ik gerichte aanbevelingen kan doen."

  /** The `ecoResponses` table, in the order in which it is searched. */
  const Rules: seq<Rule> := [
    Rule(["energie", "zonne", "wind"], EnergyReply),
    Rule(["lifestyle", "eten", "voeding", "zero waste", "plastic"], LifestyleReply),
    Rule(["bedrijf", "strategie", "rapportage", "scope"], BusinessReply),
    Rule(["klimaat", "data", "statistiek", "impact"], ClimateReply),
    Rule(["mobiliteit", "reizen", "transport"], MobilityReply)
  ]

  /** Some keyword of `rule` is a substring of `text`. */
  ghost predicate Matches(rule: Rule, text: string) {
    exists m :: 0 <= m < |rule.keywords| && Occurs(rule.keywords[m], text)
  }

  /** `keywords.some(k => text.includes(k))`, scanning from index `m`. */
  function AnyKeywordFrom(keywords: seq<string>, text: string, m: nat): (b: bool)
    ensures b <==> exists n :: m <= n < |keywords| && Occurs(keywords[n], text)
    decreases |keywords| - m
  {
    if m >= |keywords| then false
    else Includes(text, keywords[m]) || AnyKeywordFrom(keywords, text, m + 1)
  }

  /** `rules.find(...)` from index `i`: the position of the first matching rule, if any. */
  function FindFrom(rules: seq<Rule>, text: string, i: nat): (r: Option<nat>)
    ensures r.Some? ==> i <= r.value < |rules| && Matches(rules[r.value], text)
    ensures r.Some? ==> forall m :: i <= m < r.value ==> !Matches(rules[m], text)
    ensures r.None? <==> forall m :: i <= m < |rules| ==> !Matches(rules[m], text)
    decreases |rules| - i
  {
    if i >= |rules| then None
    else if AnyKeywordFrom(rules[i].keywords, text, 0) then Some(i)
    else FindFrom(rules, text, i + 1)
  }

  /** Rule `i` is the first rule of `rules` matching `text`. */
  ghost predicate FirstMatch(rules: seq<Rule>, text: string, i: int) {
    && 0 <= i < |rules|
    && Matches(rules[i], text)
    && forall m :: 0 <= m < i ==> !Matches(rules[m], text)
  }

  /** No rule of `rules` matches `text`. */
  ghost predicate NoMatch(rules: seq<Rule>, text: string) {
    forall i :: 0 <= i < |rules| ==> !Matches(rules[i], text)
  }

  /** The reply of the first rule of `rules` matching `text`, else `default`. */
  function FirstReply(rules: seq<Rule>, default: string, text: string): (r: string)
    ensures forall i :: FirstMatch(rules, text, i) ==> r == rules[i].reply
    ensures NoMatch(rules, text) ==> r == default
    ensures r != default ==> exists i :: FirstMatch(rules, text, i)
  {
    match FindFrom(rules, text, 0)
    case Some(i) => assert FirstMatch(rules, text, i); rules[i].reply
    case None => default
  }

  /** `ecoReply(text)`: the offline answer to `text`. It is the reply of the first
      table rule with a keyword in the lower-cased text; any other answer is the default. */
  function EcoReply(text: string): (r: string)
    ensures forall i :: FirstMatch(Rules, ToLower(text), i) ==> r == Rules[i].reply
    ensures r != DefaultReply ==> exists i :: FirstMatch(Rules, ToLower(text), i)
  {
    FirstReply(Rules, DefaultReply, ToLower(text))
  }

  /** Every answer is one of the table replies or the default. */
  lemma EcoReplyRange(text: string)
    ensures EcoReply(text) == DefaultReply || exists i :: 0 <= i < |Rules| && EcoReply(text) == Rules[i].reply
  {
    match FindFrom(Rules, ToLower(text), 0)
    case Some(i) =>
      assert EcoReply(text) == Rules[i].reply;
    case None =>
  }

  /** The offline answer is never empty, so it always gives the user something to read. */
  lemma EcoReplyNonEmpty(text: string)
    ensures EcoReply(text) != []
  {
    assert DefaultReply != [];
    assert forall i :: 0 <= i < |Rules| ==> Rules[i].reply != [];
    EcoReplyRange(text);
  }

  /** The default is given exactly when no rule has a keyword in the lower-cased text. */
  lemma EcoReplyDefaultIff(text: string)
    ensures EcoReply(text) == DefaultReply <==> NoMatch(Rules, ToLower(text))
  {
    var t := ToLower(text);
    match FindFrom(Rules, t, 0)
    case Some(i) =>
      assert EnergyReply != DefaultReply && LifestyleReply != DefaultReply;
      assert BusinessReply != DefaultReply && ClimateReply != DefaultReply && MobilityReply != DefaultReply;
      assert Rules[i].reply != DefaultReply;
    case None =>
  }

  /** Answers do not depend on letter case: the input is lower-cased before matching. */
  lemma EcoReplyCaseInsensitive(text: string)
    ensures EcoReply(ToLower(text)) == EcoReply(text)
  {
    ToLowerIdempotent(text);
  }

  /** A question about solar energy gets the energy tip. */
  lemma EcoReplyEnergyExample()
    ensures EcoReply("Hoe werkt zonne-energie?") == EnergyReply
  {
    var t := ToLower("Hoe werkt zonne-energie?");
    assert t == "hoe werkt zonne-energie?";
    assert OccursAt("energie", t, 16);
    assert Rules[0].keywords[0] == "energie";
    assert Matches(Rules[0], t);
  }
}
