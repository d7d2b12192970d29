/**
 * The gated chain of ai_workflows/02-workflow_patterns/01_prompt_chaining.py:
 * an extraction step decides whether the input is a calendar event, and
 * only an extraction that passes the gate goes on to the parsing step and
 * then to the confirmation step. The three model calls are functions the
 * chain is given; the chain records which of them it called, and with what.
 */
module PromptChaining {
  import opened Strings

  datatype EventExtraction = EventExtraction(description: string, isCalendarEvent: bool, confidenceScore: real)

  datatype EventDetails = EventDetails(name: string, date: string, duration: int, participants: seq<string>)

  datatype EventConfirmation = EventConfirmation(message: string, calendarLink: Option<string>)

  /** One model call of the chain, with the input it was given */
  datatype Call =
    | ExtractCall(userInput: string)
    | ParseCall(description: string)
    | ConfirmCall(details: EventDetails)

  /** What `process_calendar_request` returns, and the calls it made in order */
  datatype Chained = Chained(result: Option<EventConfirmation>, calls: seq<Call>)

  const ConfidenceThreshold: real := 0.7

  /** `process_calendar_request(user_input)` */
  function ProcessCalendarRequest(userInput: string,
                                  extract: string -> EventExtraction,
                                  parse: string -> EventDetails,
                                  confirm: EventDetails -> EventConfirmation): (r: Chained)
    ensures r.calls != [] && r.calls[0] == ExtractCall(userInput)
  {
    var extraction := extract(userInput);
    if !extraction.isCalendarEvent || extraction.confidenceScore < ConfidenceThreshold then
      Chained(None, [ExtractCall(userInput)])
    else
      var details := parse(extraction.description);
      Chained(Some(confirm(details)),
              [ExtractCall(userInput), ParseCall(extraction.description), ConfirmCall(details)])
  }

  /** The gate lets a request through exactly when it is an event with confidence at least 0.7. */
  lemma GatePassesIff(userInput: string, extract: string -> EventExtraction,
                      parse: string -> EventDetails, confirm: EventDetails -> EventConfirmation)
    ensures var e := extract(userInput);
      var passed := ProcessCalendarRequest(userInput, extract, parse, confirm).result.Some?;
      passed <==> e.isCalendarEvent && e.confidenceScore >= 0.7
  {
  }

  /** A request stopped at the gate gives None and reaches neither the parsing nor the confirmation step. */
  lemma GateFailureCallsNothingElse(userInput: string, extract: string -> EventExtraction,
                                    parse: string -> EventDetails, confirm: EventDetails -> EventConfirmation)
    requires var e := extract(userInput); !e.isCalendarEvent || e.confidenceScore < 0.7
    ensures var r := ProcessCalendarRequest(userInput, extract, parse, confirm);
      && r.result == None
      && forall k :: 0 <= k < |r.calls| ==> r.calls[k].ExtractCall?
  {
  }

  /**
   * Past the gate, the parsing step gets the extraction's description, the
   * confirmation step gets what parsing produced, and the confirmation is
   * returned as it came.
   */
  lemma GatePassChains(userInput: string, extract: string -> EventExtraction,
                       parse: string -> EventDetails, confirm: EventDetails -> EventConfirmation)
    requires var e := extract(userInput); e.isCalendarEvent && e.confidenceScore >= 0.7
    ensures var r := ProcessCalendarRequest(userInput, extract, parse, confirm);
      var description := extract(userInput).description;
      && |r.calls| == 3
      && r.calls[1] == ParseCall(description)
      && r.calls[2] == ConfirmCall(parse(description))
      && r.result == Some(confirm(r.calls[2].details))
  {
  }

  /** An extraction with confidence exactly 0.7 passes the gate. */
  lemma ThresholdIsInclusive(userInput: string, extract: string -> EventExtraction,
                             parse: string -> EventDetails, confirm: EventDetails -> EventConfirmation)
    requires extract(userInput).isCalendarEvent && extract(userInput).confidenceScore == 0.7
    ensures ProcessCalendarRequest(userInput, extract, parse, confirm).result.Some?
  {
  }
}
