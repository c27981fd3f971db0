/** `OpenTapSequenceExecutor.ExecuteAsync`: parse a sequence, choose the
    resource address and hand the commands to the instrument executor.

    The parser is a parameter, and the instrument executor is represented by
    the call made to it: the context and the command list it receives.
 */
module OpenTapExecution {
  import opened Wrappers
  import opened Text
  import opened DomainModels
  import opened Instrumentation
  import opened OpenTapSequences

  const FallbackRequiredMessage: string := "A fallback VISA resource address must be provided."

  /** The call handed to the instrument executor. */
  datatype Dispatch = Dispatch(context: ExecutionContext, commands: seq<ScpiCommand>)

  /** The address a sequence runs against: its own when non-blank, else the
      fallback. */
  function ChosenAddress(sequence: OpenTapSequence, fallback: string): (a: string)
    ensures !IsNullOrWhiteSpace(sequence.resourceAddress) ==> a == sequence.resourceAddress.value
    ensures IsNullOrWhiteSpace(sequence.resourceAddress) ==> a == fallback
    ensures !IsBlank(fallback) ==> !IsBlank(a)
  {
    if IsNullOrWhiteSpace(sequence.resourceAddress) then fallback else sequence.resourceAddress.value
  }

  /** A blank fallback throws before the content is parsed; a parse failure
      propagates; otherwise the context carries the chosen address and the
      sequence name, and exactly the parsed commands are forwarded. */
  function Execute(content: string, fallback: string, parse: string -> Result<OpenTapSequence>): (r: Result<Dispatch>)
    ensures IsBlank(fallback) ==> r == Failure(ArgumentException("fallbackResourceAddress", FallbackRequiredMessage))
    ensures !IsBlank(fallback) && parse(content).Failure? ==> r == Failure(parse(content).error)
    ensures r.Success? <==> !IsBlank(fallback) && parse(content).Success?
    ensures r.Success? ==> r.value.commands == parse(content).value.commands
    ensures r.Success? ==> r.value.context.resourceAddress == Trim(ChosenAddress(parse(content).value, fallback))
    ensures r.Success? ==> NormalisedFrom(r.value.context.sequenceName, parse(content).value.name)
    ensures r.Success? ==> r.value.context.Valid()
  {
    if IsBlank(fallback) then Failure(ArgumentException("fallbackResourceAddress", FallbackRequiredMessage))
    else
      var sequence :- parse(content);
      var address := ChosenAddress(sequence, fallback);
      var context := NewExecutionContext(address, sequence.name);
      Success(Dispatch(context.value, sequence.commands))
  }

  /** The fallback is checked before parsing: with a blank fallback the
      parser's behaviour is irrelevant. */
  lemma BlankFallbackIgnoresParser(content: string, fallback: string, p: string -> Result<OpenTapSequence>, q: string -> Result<OpenTapSequence>)
    requires IsBlank(fallback)
    ensures Execute(content, fallback, p) == Execute(content, fallback, q)
  {
  }

  /** For a sequence built by its constructor, the context is exactly the
      sequence's own resource (or the trimmed fallback) and its own name. */
  lemma ExecuteUsesSequenceFields(content: string, fallback: string, parse: string -> Result<OpenTapSequence>)
    requires !IsBlank(fallback) && parse(content).Success? && parse(content).value.Valid()
    ensures var s := parse(content).value;
      && Execute(content, fallback, parse).value.context.sequenceName == s.name
      && Execute(content, fallback, parse).value.context.resourceAddress
         == (if s.resourceAddress.Some? then s.resourceAddress.value else Trim(fallback))
  {
    var s := parse(content).value;
    NormalisedFixed(s.name);
    NormalisedFixed(s.resourceAddress);
  }
}
