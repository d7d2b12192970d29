/**
 * The confidence router of ai_workflows/02-workflow_patterns/02_routing.py:
 * a routing step labels the request, a label with confidence below 0.7 is
 * dropped, and the two known labels go to a handler each, which builds the
 * response from the details its extraction step returns. The model calls
 * are functions the router is given; the router records which it called.
 */
module Routing {
  import opened Strings

  /** The routing step's answer; the label is a string, so labels other than the two known ones are modelled */
  datatype CalendarRequestType = CalendarRequestType(requestType: string, confidenceScore: real, description: string)

  datatype NewEventDetails = NewEventDetails(name: string, date: string, duration: int, participants: seq<string>)

  datatype Change = Change(field: string, newValue: string)

  datatype ModifyEventDetails =
    ModifyEventDetails(eventIdentifier: string, changes: seq<Change>,
                       participantsToAdd: seq<string>, participantsToRemove: seq<string>)

  datatype CalendarResponse = CalendarResponse(success: bool, message: string, calendarLink: Option<string>)

  /** One model call of the router, with the input it was given */
  datatype Call =
    | RouteCall(userInput: string)
    | NewEventCall(description: string)
    | ModifyEventCall(description: string)

  datatype Routed = Routed(result: Option<CalendarResponse>, calls: seq<Call>)

  const ConfidenceThreshold: real := 0.7
  const NewLinkPrefix := "calendar://new?event="
  const ModifyLinkPrefix := "calendar://modify?event="
  const ModifiedPrefix := "Modified event '"

  /** The response `handle_new_event` builds from the extracted details */
  function NewEventResponse(details: NewEventDetails): (r: CalendarResponse)
    ensures r.success && r.calendarLink.Some?
    ensures StartsWith(r.calendarLink.value, NewLinkPrefix)
    ensures r.calendarLink.value[|NewLinkPrefix|..] == details.name
  {
    CalendarResponse(
      true,
      "Created a new event '" + details.name + "' for " + details.date + " with "
        + Join(details.participants, ", ") + ", expected to be of " + IntToString(details.duration) + " minutes.",
      Some(NewLinkPrefix + details.name))
  }

  /** The response `handle_modify_event` builds from the extracted details */
  function ModifyEventResponse(details: ModifyEventDetails): (r: CalendarResponse)
    ensures r.success && r.calendarLink.Some?
    ensures StartsWith(r.calendarLink.value, ModifyLinkPrefix)
    ensures r.calendarLink.value[|ModifyLinkPrefix|..] == details.eventIdentifier
    ensures StartsWith(r.message, ModifiedPrefix) && EndsWith(r.message, "'") && |r.message| > |ModifiedPrefix|
    ensures r.message[|ModifiedPrefix|..|r.message| - 1] == details.eventIdentifier
  {
    CalendarResponse(
      true,
      ModifiedPrefix + details.eventIdentifier + "'",
      Some(ModifyLinkPrefix + details.eventIdentifier))
  }

  /** `process_calendar_request(user_input)` */
  function ProcessCalendarRequest(userInput: string,
                                  route: string -> CalendarRequestType,
                                  extractNew: string -> NewEventDetails,
                                  extractModify: string -> ModifyEventDetails): (r: Routed)
    ensures r.calls != [] && r.calls[0] == RouteCall(userInput)
  {
    var routed := route(userInput);
    if routed.confidenceScore < ConfidenceThreshold then Routed(None, [RouteCall(userInput)])
    else if routed.requestType == "new_event" then
      Routed(Some(NewEventResponse(extractNew(routed.description))),
             [RouteCall(userInput), NewEventCall(routed.description)])
    else if routed.requestType == "modify_event" then
      Routed(Some(ModifyEventResponse(extractModify(routed.description))),
             [RouteCall(userInput), ModifyEventCall(routed.description)])
    else Routed(None, [RouteCall(userInput)])
  }

  /** Below 0.7 the request is dropped and no handler runs. */
  lemma LowConfidenceDropped(userInput: string, route: string -> CalendarRequestType,
                             extractNew: string -> NewEventDetails, extractModify: string -> ModifyEventDetails)
    requires route(userInput).confidenceScore < 0.7
    ensures ProcessCalendarRequest(userInput, route, extractNew, extractModify) == Routed(None, [RouteCall(userInput)])
  {
  }

  /**
   * A confident request reaches exactly one handler, chosen by its label
   * and given the routed description; an unknown label reaches none.
   */
  lemma RoutesByLabel(userInput: string, route: string -> CalendarRequestType,
                      extractNew: string -> NewEventDetails, extractModify: string -> ModifyEventDetails)
    requires route(userInput).confidenceScore >= 0.7
    ensures var routed := route(userInput);
      var r := ProcessCalendarRequest(userInput, route, extractNew, extractModify);
      && (routed.requestType == "new_event" ==>
            r.calls == [RouteCall(userInput), NewEventCall(routed.description)]
            && r.result == Some(NewEventResponse(extractNew(routed.description))))
      && (routed.requestType == "modify_event" ==>
            r.calls == [RouteCall(userInput), ModifyEventCall(routed.description)]
            && r.result == Some(ModifyEventResponse(extractModify(routed.description))))
      && (routed.requestType !in {"new_event", "modify_event"} ==> r == Routed(None, [RouteCall(userInput)]))
  {
  }

  /** A result comes back exactly when some handler ran, and it always reports success. */
  lemma ResultIffHandled(userInput: string, route: string -> CalendarRequestType,
                         extractNew: string -> NewEventDetails, extractModify: string -> ModifyEventDetails)
    ensures var r := ProcessCalendarRequest(userInput, route, extractNew, extractModify);
      && (r.result.Some? <==> |r.calls| == 2)
      && (r.result.Some? ==> r.result.value.success)
      && |r.calls| <= 2
  {
  }

  /**
   * The new-event message names the event and its date, then lists its
   * participants separated by ", " right after " with ", and ends with the
   * expected duration in minutes.
   */
  lemma NewEventMessage(details: NewEventDetails)
    ensures var m := NewEventResponse(details).message;
      var head := "Created a new event '" + details.name + "' for " + details.date + " with ";
      var tail := ", expected to be of " + IntToString(details.duration) + " minutes.";
      && StartsWith(m, head)
      && OccursAt(m, Join(details.participants, ", "), |head|)
      && EndsWith(m, tail)
      && |m| == |head| + |Join(details.participants, ", ")| + |tail|
      && Contains(m, Join(details.participants, ", "))
  {
    var head := "Created a new event '" + details.name + "' for " + details.date + " with ";
    var joined := Join(details.participants, ", ");
    var m := NewEventResponse(details).message;
    assert m == head + joined + (", expected to be of " + IntToString(details.duration) + " minutes.");
    assert OccursAt(m, joined, |head|);
    ContainsIffOccurs(m, joined);
  }
}
