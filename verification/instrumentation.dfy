/** The two value objects of the instrument layer: the context a command
    batch is dispatched under, and the metadata recorded after it ran.

    `TimeSpan` is modelled as a whole number of ticks; the completion clock
    stamp of an execution result is not modelled.
 */
module Instrumentation {
  import opened Wrappers
  import opened Text

  const AddressRequiredMessage: string := "A VISA resource address is required."
  const AddressMissingMessage: string := "A resource address must be provided."

  /** Where a batch of commands goes: a non-blank trimmed VISA address and an
      optional sequence name used for logging. */
  datatype ExecutionContext = ExecutionContext(resourceAddress: string, sequenceName: Option<string>) {
    predicate Valid() {
      !IsBlank(resourceAddress) && Trim(resourceAddress) == resourceAddress && IsNormalised(sequenceName)
    }
  }

  /** The `InstrumentExecutionContext` constructor: a blank address throws;
      the address is trimmed and the name normalised. */
  function NewExecutionContext(resourceAddress: string, sequenceName: Option<string>): (r: Result<ExecutionContext>)
    ensures r.Failure? <==> IsBlank(resourceAddress)
    ensures r.Failure? ==> r.error == ArgumentException("resourceAddress", AddressRequiredMessage)
    ensures r.Success? ==> r.value.resourceAddress == Trim(resourceAddress) && NormalisedFrom(r.value.sequenceName, sequenceName)
    ensures r.Success? ==> r.value.Valid()
  {
    if IsBlank(resourceAddress) then Failure(ArgumentException("resourceAddress", AddressRequiredMessage))
    else
      TrimmedBlankIsEmpty(resourceAddress);
      TrimIdempotent(resourceAddress);
      NullIfBlankNormalises(sequenceName);
      Success(ExecutionContext(Trim(resourceAddress), NullIfBlank(sequenceName)))
  }

  /** A valid context is rebuilt unchanged from its own fields. */
  lemma ContextRoundTrip(c: ExecutionContext)
    requires c.Valid()
    ensures NewExecutionContext(c.resourceAddress, c.sequenceName) == Success(c)
  {
    NormalisedFixed(c.sequenceName);
  }

  /** What an execution reports: the address, the number of commands sent,
      the elapsed ticks and the sequence name. */
  datatype ExecutionResult = ExecutionResult(resourceAddress: string, commandCount: int, durationTicks: int, sequenceName: Option<string>)

  /** The `InstrumentExecutionResult` constructor. A blank address throws
      first, then a negative count; a negative duration is clamped to zero;
      address, count and name are stored verbatim. */
  function NewExecutionResult(resourceAddress: string, commandCount: int, durationTicks: int, sequenceName: Option<string>): (r: Result<ExecutionResult>)
    ensures r.Success? <==> !IsBlank(resourceAddress) && commandCount >= 0
    ensures IsBlank(resourceAddress) ==> r == Failure(ArgumentException("resourceAddress", AddressMissingMessage))
    ensures !IsBlank(resourceAddress) && commandCount < 0 ==> r == Failure(ArgumentOutOfRangeException("commandCount"))
    ensures r.Success? ==> r.value.resourceAddress == resourceAddress && r.value.commandCount == commandCount
    ensures r.Success? ==> r.value.sequenceName == sequenceName
    ensures r.Success? ==> r.value.durationTicks >= 0
    ensures r.Success? && durationTicks >= 0 ==> r.value.durationTicks == durationTicks
    ensures r.Success? && durationTicks < 0 ==> r.value.durationTicks == 0
  {
    if IsBlank(resourceAddress) then Failure(ArgumentException("resourceAddress", AddressMissingMessage))
    else if commandCount < 0 then Failure(ArgumentOutOfRangeException("commandCount"))
    else Success(ExecutionResult(resourceAddress, commandCount, if durationTicks < 0 then 0 else durationTicks, sequenceName))
  }

  /** Clamping is idempotent: a stored result rebuilt from its own fields is
      the same result. */
  lemma ExecutionResultRoundTrip(resourceAddress: string, commandCount: int, durationTicks: int, sequenceName: Option<string>)
    requires NewExecutionResult(resourceAddress, commandCount, durationTicks, sequenceName).Success?
    ensures var e := NewExecutionResult(resourceAddress, commandCount, durationTicks, sequenceName).value;
      NewExecutionResult(e.resourceAddress, e.commandCount, e.durationTicks, e.sequenceName) == Success(e)
  {
  }
}
