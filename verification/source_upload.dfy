/** The source upload contracts and `SimulatedSourceUploadService.UploadAsync`:
    a batch of source settings is validated as a whole and summarised by the
    number of sources and parameters sent.

    The simulated latency, the logging and cancellation are not modelled; the
    stopwatch reading is a parameter `elapsedTicks`.
 */
module SourceUpload {
  import opened Wrappers
  import opened Text
  import opened Collections

  const RequestNameMessage: string := "Each source upload request must specify a name."
  const ParameterNameMessage: string := "Source parameters must specify a name."

  datatype SourceUploadParameter = SourceUploadParameter(name: string, value: Option<string>)

  datatype SourceUploadRequest = SourceUploadRequest(
    name: string,
    source: Option<string>,
    frequency: Option<string>,
    power: Option<string>,
    mode: Option<string>,
    parameters: seq<SourceUploadParameter>)

  predicate RequestIsValid(r: SourceUploadRequest) {
    !IsBlank(r.name) && forall p <- r.parameters :: !IsBlank(p.name)
  }

  /** `SourceUploadParameter.EnsureIsValid`. */
  function ParameterError(p: SourceUploadParameter): (e: Option<Exception>)
    ensures e.None? <==> !IsBlank(p.name)
    ensures e.Some? ==> e.value == InvalidOperationException(ParameterNameMessage)
  {
    if IsBlank(p.name) then Some(InvalidOperationException(ParameterNameMessage)) else None
  }

  /** `SourceUploadRequest.EnsureIsValid`: the name, then each parameter in
      order. */
  function RequestError(r: SourceUploadRequest): (e: Option<Exception>)
    ensures e.None? <==> RequestIsValid(r)
    ensures IsBlank(r.name) ==> e == Some(InvalidOperationException(RequestNameMessage))
    ensures !IsBlank(r.name) && e.Some? ==> e == Some(InvalidOperationException(ParameterNameMessage))
  {
    if IsBlank(r.name) then Some(InvalidOperationException(RequestNameMessage))
    else
      var error := FirstSome(r.parameters, ParameterError);
      assert error.None? <==> forall p <- r.parameters :: !IsBlank(p.name) by {
        assert forall p <- r.parameters :: exists i :: 0 <= i < |r.parameters| && r.parameters[i] == p;
      }
      error
  }

  /** `SourceUploadResult`; the duration is in ticks. */
  datatype SourceUploadResult = SourceUploadResult(uploadedSources: int, totalParameters: int, durationTicks: int)

  /** The result constructor: negative counts throw, uploaded sources first;
      a negative duration is stored as zero. */
  function NewSourceUploadResult(uploadedSources: int, totalParameters: int, durationTicks: int): (r: Result<SourceUploadResult>)
    ensures r.Success? <==> uploadedSources >= 0 && totalParameters >= 0
    ensures uploadedSources < 0 ==> r == Failure(ArgumentOutOfRangeException("uploadedSources"))
    ensures uploadedSources >= 0 && totalParameters < 0 ==> r == Failure(ArgumentOutOfRangeException("totalParameters"))
    ensures r.Success? ==> r.value.uploadedSources == uploadedSources && r.value.totalParameters == totalParameters
    ensures r.Success? ==> r.value.durationTicks >= 0 && r.value.durationTicks >= durationTicks
    ensures r.Success? ==> (r.value.durationTicks == durationTicks || r.value.durationTicks == 0)
  {
    if uploadedSources < 0 then Failure(ArgumentOutOfRangeException("uploadedSources"))
    else if totalParameters < 0 then Failure(ArgumentOutOfRangeException("totalParameters"))
    else Success(SourceUploadResult(uploadedSources, totalParameters, if durationTicks < 0 then 0 else durationTicks))
  }

  /** `SourceUploadResult.Empty`. */
  const Empty: SourceUploadResult := SourceUploadResult(0, 0, 0)

  lemma EmptyIsConstructed()
    ensures NewSourceUploadResult(0, 0, 0) == Success(Empty)
  {
  }

  /** The parameters of all requests together. */
  function ParameterCount(rs: seq<SourceUploadRequest>): (n: nat)
    ensures |rs| == 1 ==> n == |rs[0].parameters|
  {
    if |rs| == 0 then 0 else |rs[0].parameters| + ParameterCount(rs[1..])
  }

  lemma {:induction false} ParameterCountAppend(a: seq<SourceUploadRequest>, b: seq<SourceUploadRequest>)
    ensures ParameterCount(a + b) == ParameterCount(a) + ParameterCount(b)
  {
    if |a| == 0 {
      assert a + b == b;
    } else {
      assert (a + b)[0] == a[0];
      assert (a + b)[1..] == a[1..] + b;
      ParameterCountAppend(a[1..], b);
    }
  }

  /** `UploadAsync(requests)`: a missing list throws `ArgumentNullException`;
      missing entries are skipped; with nothing left the result is `Empty`;
      otherwise every request is validated before anything is sent, and the
      result counts the requests and their parameters. */
  function UploadMany(requests: Option<seq<Option<SourceUploadRequest>>>, elapsedTicks: int): (r: Result<SourceUploadResult>)
    ensures requests.None? ==> r == Failure(ArgumentNullException("requests"))
    ensures requests.Some? && |Somes(requests.value)| == 0 ==> r == Success(Empty)
    ensures requests.Some? ==> (r.Success? <==> forall q <- Somes(requests.value) :: RequestIsValid(q))
    ensures requests.Some? && r.Failure? ==>
      var list := Somes(requests.value);
      exists i :: 0 <= i < |list| && RequestError(list[i]) == Some(r.error) && forall j :: 0 <= j < i ==> RequestIsValid(list[j])
    ensures r.Success? && |Somes(requests.value)| > 0 ==>
      && r.value.uploadedSources == |Somes(requests.value)|
      && r.value.totalParameters == ParameterCount(Somes(requests.value))
      && r.value.durationTicks == (if elapsedTicks < 0 then 0 else elapsedTicks)
  {
    if requests.None? then Failure(ArgumentNullException("requests"))
    else
      var list := Somes(requests.value);
      if |list| == 0 then Success(Empty)
      else
        var error := FirstSome(list, RequestError);
        if error.Some? then Failure(error.value)
        else NewSourceUploadResult(|list|, ParameterCount(list), elapsedTicks)
  }

  /** `UploadAsync(request)`: a missing request throws
      `ArgumentNullException`; otherwise the request is uploaded as a batch of
      one. */
  function UploadOne(request: Option<SourceUploadRequest>, elapsedTicks: int): (r: Result<SourceUploadResult>)
    ensures request.None? ==> r == Failure(ArgumentNullException("request"))
    ensures request.Some? ==> (r.Success? <==> RequestIsValid(request.value))
    ensures request.Some? && r.Failure? ==> RequestError(request.value) == Some(r.error)
    ensures r.Success? ==> r.value.uploadedSources == 1 && r.value.totalParameters == |request.value.parameters|
  {
    if request.None? then Failure(ArgumentNullException("request"))
    else
      assert Somes([request]) == [request.value];
      UploadMany(Some([request]), elapsedTicks)
  }

  /** Missing entries do not affect the upload. */
  lemma UploadIgnoresMissing(before: seq<Option<SourceUploadRequest>>, after: seq<Option<SourceUploadRequest>>, elapsedTicks: int)
    ensures UploadMany(Some(before + [None] + after), elapsedTicks) == UploadMany(Some(before + after), elapsedTicks)
  {
    SomesAppend(before + [None], after);
    SomesAppend(before, [None]);
    var missing: seq<Option<SourceUploadRequest>> := [None];
    assert Somes(missing) == [];
    assert Somes(before + [None]) == Somes(before);
    SomesAppend(before, after);
  }

  /** Uploading two valid non-empty batches one after the other sends as
      many sources and parameters as uploading them together. */
  lemma UploadBatchesAdd(a: seq<Option<SourceUploadRequest>>, b: seq<Option<SourceUploadRequest>>, elapsedTicks: int)
    requires UploadMany(Some(a), elapsedTicks).Success? && UploadMany(Some(b), elapsedTicks).Success?
    requires |Somes(a)| > 0 && |Somes(b)| > 0
    ensures UploadMany(Some(a + b), elapsedTicks).Success?
    ensures UploadMany(Some(a + b), elapsedTicks).value.uploadedSources
         == UploadMany(Some(a), elapsedTicks).value.uploadedSources + UploadMany(Some(b), elapsedTicks).value.uploadedSources
    ensures UploadMany(Some(a + b), elapsedTicks).value.totalParameters
         == UploadMany(Some(a), elapsedTicks).value.totalParameters + UploadMany(Some(b), elapsedTicks).value.totalParameters
  {
    SomesAppend(a, b);
    var all := Somes(a + b);
    forall q <- all
      ensures RequestIsValid(q)
    {
      if q !in Somes(a) {
        assert q in Somes(b);
      }
    }
    assert UploadMany(Some(a + b), elapsedTicks).Success?;
    ParameterCountAppend(Somes(a), Somes(b));
  }
}
