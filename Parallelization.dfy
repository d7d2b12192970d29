/**
 * The guard of ai_workflows/02-workflow_patterns/03_parallelization.py: two
 * checks of the same input, a calendar check and a security check, and a
 * request that is valid only when both agree. The two checks run
 * concurrently in the source; here they are functions, and the guard
 * records the calls it made as a multiset because their order is not fixed.
 */
module Parallelization {

  datatype CalendarValidation = CalendarValidation(isCalendarRequest: bool, confidenceScore: real)

  datatype SecurityCheck = SecurityCheck(isSafe: bool, riskFlags: seq<string>)

  datatype Call = CalendarCall(userInput: string) | SecurityCall(userInput: string)

  datatype Validated = Validated(isValid: bool, calls: multiset<Call>)

  const ConfidenceThreshold: real := 0.7

  /** The `is_valid` conjunction over the two results */
  predicate IsValid(calendar: CalendarValidation, security: SecurityCheck) {
    calendar.isCalendarRequest && calendar.confidenceScore > ConfidenceThreshold && security.isSafe
  }

  /** `validate_request(user_input)` */
  function ValidateRequest(userInput: string,
                           validate: string -> CalendarValidation,
                           check: string -> SecurityCheck): (r: Validated)
    ensures r.calls == multiset{CalendarCall(userInput), SecurityCall(userInput)}
  {
    var calendarCheck := validate(userInput);
    var securityCheck := check(userInput);
    Validated(IsValid(calendarCheck, securityCheck),
              multiset{CalendarCall(userInput), SecurityCall(userInput)})
  }

  /**
   * Both checks are asked about the user input and nothing else: two pairs
   * of checks that give the same answers on the inputs in the call log
   * give the same verdict.
   */
  lemma VerdictFromLoggedCalls(userInput: string,
                               validate: string -> CalendarValidation, check: string -> SecurityCheck,
                               validate': string -> CalendarValidation, check': string -> SecurityCheck)
    requires forall c :: c in ValidateRequest(userInput, validate, check).calls ==>
      (c.CalendarCall? ==> validate(c.userInput) == validate'(c.userInput))
      && (c.SecurityCall? ==> check(c.userInput) == check'(c.userInput))
    ensures ValidateRequest(userInput, validate, check) == ValidateRequest(userInput, validate', check')
  {
    assert CalendarCall(userInput) in ValidateRequest(userInput, validate, check).calls;
    assert SecurityCall(userInput) in ValidateRequest(userInput, validate, check).calls;
  }

  /** The request is valid exactly when it is a calendar request, the confidence is above 0.7 and it is safe. */
  lemma ValidIff(userInput: string, validate: string -> CalendarValidation, check: string -> SecurityCheck)
    ensures ValidateRequest(userInput, validate, check).isValid
      <==> validate(userInput).isCalendarRequest && validate(userInput).confidenceScore > 0.7 && check(userInput).isSafe
  {
  }

  /** Either check alone can reject: an unsafe input or a non-calendar input is never valid. */
  lemma EitherCheckRejects(calendar: CalendarValidation, security: SecurityCheck)
    requires !security.isSafe || !calendar.isCalendarRequest || calendar.confidenceScore <= 0.7
    ensures !IsValid(calendar, security)
  {
  }

  /** Confidence exactly 0.7 is not enough: the comparison is strict. */
  lemma ThresholdIsStrict(calendar: CalendarValidation, security: SecurityCheck)
    requires calendar.confidenceScore == 0.7
    ensures !IsValid(calendar, security)
  {
  }

  /** The risk flags are only logged: two security answers that agree on safety give the same verdict. */
  lemma RiskFlagsIgnored(calendar: CalendarValidation, security: SecurityCheck, flags: seq<string>)
    ensures IsValid(calendar, security) == IsValid(calendar, security.(riskFlags := flags))
  {
  }
}
