/** `OpenTapSequence`: a parsed OpenTAP sequence, holding an optional name, an
    optional resource address and the executable SCPI commands. */
module OpenTapSequences {
  import opened Wrappers
  import opened Text
  import opened DomainModels

  const NoExecutableCommandsMessage: string := "The OpenTAP sequence does not contain any executable SCPI commands."

  /** A sequence whose name and resource are normalised and whose command
      list is non-empty with no blank command. */
  datatype OpenTapSequence = OpenTapSequence(name: Option<string>, resourceAddress: Option<string>, commands: seq<ScpiCommand>) {
    predicate Valid() {
      IsNormalised(name) && IsNormalised(resourceAddress) && |commands| > 0 && NoneBlank(commands)
    }
  }

  /** The commands whose text is not blank, in their original order. */
  function Executable(commands: seq<ScpiCommand>): (r: seq<ScpiCommand>)
    ensures |r| <= |commands|
    ensures NoneBlank(r)
    ensures forall c <- r :: c in commands
    ensures forall c <- commands :: !IsBlank(c.text) ==> c in r
  {
    if |commands| == 0 then []
    else
      var rest := Executable(commands[1..]);
      if IsBlank(commands[0].text) then rest
      else
        NoneBlankAppend([commands[0]], rest);
        [commands[0]] + rest
  }

  /** Filtering distributes over concatenation, so the kept commands stay in
      their original relative order. */
  lemma {:induction false} ExecutableAppend(a: seq<ScpiCommand>, b: seq<ScpiCommand>)
    ensures Executable(a + b) == Executable(a) + Executable(b)
  {
    if |a| > 0 {
      assert (a + b)[0] == a[0];
      assert (a + b)[1..] == a[1..] + b;
      ExecutableAppend(a[1..], b);
      if !IsBlank(a[0].text) {
        assert Executable(a + b) == [a[0]] + (Executable(a[1..]) + Executable(b));
      }
    } else {
      assert a + b == b;
    }
  }

  /** A list without blank commands is kept whole. */
  lemma {:induction false} ExecutableKeepsNoneBlank(commands: seq<ScpiCommand>)
    requires NoneBlank(commands)
    ensures Executable(commands) == commands
  {
    if |commands| > 0 {
      assert NoneBlank(commands[1..]) by {
        forall i | 0 <= i < |commands[1..]|
          ensures !IsBlank(commands[1..][i].text)
        {
          assert commands[1..][i] == commands[i + 1];
        }
      }
      ExecutableKeepsNoneBlank(commands[1..]);
    }
  }

  /** The constructor. A null command list throws `ArgumentNullException`;
      blank commands are dropped, and if none remains the constructor throws
      `InvalidOperationException`; name and resource are normalised. */
  function NewSequence(name: Option<string>, resourceAddress: Option<string>, commands: Option<seq<ScpiCommand>>): (r: Result<OpenTapSequence>)
    ensures commands.None? ==> r == Failure(ArgumentNullException("commands"))
    ensures r.Success? <==> commands.Some? && exists c <- commands.value :: !IsBlank(c.text)
    ensures commands.Some? && r.Failure? ==> r.error == InvalidOperationException(NoExecutableCommandsMessage)
    ensures r.Success? ==> r.value.commands == Executable(commands.value)
    ensures r.Success? ==> NormalisedFrom(r.value.name, name) && NormalisedFrom(r.value.resourceAddress, resourceAddress)
    ensures r.Success? ==> r.value.Valid()
  {
    match commands
    case None => Failure(ArgumentNullException("commands"))
    case Some(list) =>
      var kept := Executable(list);
      if |kept| == 0 then
        Failure(InvalidOperationException(NoExecutableCommandsMessage))
      else
        NullIfBlankNormalises(name);
        NullIfBlankNormalises(resourceAddress);
        assert kept[0] in list;
        Success(OpenTapSequence(NullIfBlank(name), NullIfBlank(resourceAddress), kept))
  }

  /** A valid sequence is rebuilt unchanged from its own fields. */
  lemma SequenceRoundTrip(s: OpenTapSequence)
    requires s.Valid()
    ensures NewSequence(s.name, s.resourceAddress, Some(s.commands)) == Success(s)
  {
    NormalisedFixed(s.name);
    NormalisedFixed(s.resourceAddress);
    ExecutableKeepsNoneBlank(s.commands);
  }
}
