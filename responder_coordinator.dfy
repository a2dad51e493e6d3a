/**
 * The responder coordinator's two tools: dispatching a first responder from a
 * bounded pool, and the keyword-based severity assessment.
 */
module ResponderCoordinator {
  import opened Text
  import opened RunContext

  /** The refusal; written as two literals so that its leading characters are visible to the verifier. */
  const NoRespondersMessage := "NO RESPONDERS AVAILABLE" + " - All first responders are currently deployed."
  const DispatchedPrefix := "First responder dispatched. "
  const DispatchedSuffix := " responders remaining available."

  /** The status reported after a dispatch, naming how many responders remain. */
  function DispatchedMessage(remaining: nat): string
  {
    DispatchedPrefix + NatToString(remaining) + DispatchedSuffix
  }

  /** The number of remaining responders can be read back from a dispatch status, which never reads as a refusal. */
  lemma DispatchedMessageReports(remaining: nat)
    ensures var m := DispatchedMessage(remaining);
            && |m| > |DispatchedPrefix| + |DispatchedSuffix|
            && IsDigits(m[|DispatchedPrefix|..|m| - |DispatchedSuffix|])
            && DecimalValue(m[|DispatchedPrefix|..|m| - |DispatchedSuffix|]) == remaining
    ensures DispatchedMessage(remaining) != NoRespondersMessage
  {
    var m := DispatchedMessage(remaining);
    assert m[|DispatchedPrefix|..|m| - |DispatchedSuffix|] == NatToString(remaining);
    DecimalRoundTrip(remaining);
    assert m[0] == 'F' && NoRespondersMessage[0] == 'N';
  }

  /**
   * `request_first_responder`: with a responder available, takes one from the
   * pool and reports how many remain; otherwise refuses and changes nothing.
   * The description of the emergency is not used.
   */
  method RequestFirstResponder(context: AgentContext, emergencyDescription: string) returns (status: string)
    modifies context`availableResponders
    ensures old(context.availableResponders) > 0 ==>
              context.availableResponders == old(context.availableResponders) - 1
              && status == DispatchedMessage(context.availableResponders)
    ensures old(context.availableResponders) <= 0 ==>
              context.availableResponders == old(context.availableResponders)
              && status == NoRespondersMessage
    ensures old(context.availableResponders) >= 0 ==> context.availableResponders >= 0
  {
    if context.availableResponders > 0 {
      context.availableResponders := context.availableResponders - 1;
      return DispatchedMessage(context.availableResponders);
    }
    return NoRespondersMessage;
  }

  const CriticalKeywords := ["unconscious", "bleeding heavily", "not breathing", "heart attack", "stroke"]
  const UrgentKeywords := ["broken", "injury", "chest pain", "difficulty breathing"]

  /** Does some keyword of the list occur in the text? */
  function AnyOccurs(keywords: seq<string>, text: string): (b: bool)
    ensures b <==> exists i :: 0 <= i < |keywords| && Contains(text, keywords[i])
  {
    if keywords == [] then false
    else Contains(text, keywords[0]) || AnyOccurs(keywords[1..], text)
  }

  /**
   * `assess_emergency_severity`: "CRITICAL" when a critical keyword occurs in the
   * lower-cased situation, else "URGENT" when an urgent keyword does, else
   * "NON-URGENT".
   */
  function AssessEmergencySeverity(situation: string): (level: string)
    ensures level == "CRITICAL" || level == "URGENT" || level == "NON-URGENT"
    ensures level == "CRITICAL" <==>
              exists i :: 0 <= i < |CriticalKeywords| && Contains(Lower(situation), CriticalKeywords[i])
    ensures level == "URGENT" <==>
              && !(exists i :: 0 <= i < |CriticalKeywords| && Contains(Lower(situation), CriticalKeywords[i]))
              && exists i :: 0 <= i < |UrgentKeywords| && Contains(Lower(situation), UrgentKeywords[i])
  {
    var lowered := Lower(situation);
    if AnyOccurs(CriticalKeywords, lowered) then "CRITICAL"
    else if AnyOccurs(UrgentKeywords, lowered) then "URGENT"
    else "NON-URGENT"
  }

  /** The assessment ignores letter case: assessing the lower-cased situation gives the same level. */
  lemma SeverityIgnoresCase(situation: string)
    ensures AssessEmergencySeverity(Lower(situation)) == AssessEmergencySeverity(situation)
  {
    LowerFacts(situation);
  }
}
