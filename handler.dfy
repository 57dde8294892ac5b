/** `lambda_handler`: one response per input record, in order, and the two
    counts it reports. */
module Handler {
  import opened Wrappers
  import opened Transform

  /** The list comprehension over `event['records']`. It stops at the first
      record whose base64 decoding raises, and the exception leaves the
      handler: `Err(i)` names the position of that record. */
  function LambdaHandler(lib: Lib, records: seq<InputRecord>): (r: Result<seq<Response>, nat>)
    ensures r.Ok? <==> forall i | 0 <= i < |records| :: ProcessRecord(lib, records[i]).Some?
    ensures r.Ok? ==> |r.value| == |records|
    ensures r.Ok? ==> forall i | 0 <= i < |records| :: r.value[i] == ProcessRecord(lib, records[i]).value
    ensures r.Err? ==> r.error < |records| && ProcessRecord(lib, records[r.error]).None?
    ensures r.Err? ==> forall j | 0 <= j < r.error :: ProcessRecord(lib, records[j]).Some?
  {
    if records == [] then Ok([])
    else
      match ProcessRecord(lib, records[0])
      case None => Err(0)
      case Some(first) =>
        match LambdaHandler(lib, records[1..])
        case Err(i) => Err(i + 1)
        case Ok(rest) => Ok([first] + rest)
  }

  /** The `result` field of each response, in order. */
  function Results(output: seq<Response>): (rs: seq<string>)
    ensures |rs| == |output|
    ensures forall i | 0 <= i < |output| :: rs[i] == output[i].result
  {
    seq(|output|, i requires 0 <= i < |output| => output[i].result)
  }

  /** `sum(1 for record in output if record['result'] == 'Ok')` */
  function SuccessCount(output: seq<Response>): (n: nat)
    ensures n <= |output|
    ensures n == 0 <==> forall i | 0 <= i < |output| :: output[i].result != OK
    ensures n == multiset(Results(output))[OK]
  {
    if output == [] then 0
    else
      assert Results(output) == [output[0].result] + Results(output[1..]);
      (if output[0].result == OK then 1 else 0) + SuccessCount(output[1..])
  }

  /** `sum(1 for record in output if record['result'] == 'ProcessingFailed')` */
  function FailureCount(output: seq<Response>): (n: nat)
    ensures n <= |output|
    ensures n == 0 <==> forall i | 0 <= i < |output| :: output[i].result != PROCESSING_FAILED
    ensures n == multiset(Results(output))[PROCESSING_FAILED]
  {
    if output == [] then 0
    else
      assert Results(output) == [output[0].result] + Results(output[1..]);
      (if output[0].result == PROCESSING_FAILED then 1 else 0) + FailureCount(output[1..])
  }

  /** Every result is one of the two literals. */
  predicate WellFormedResults(output: seq<Response>)
  {
    forall i | 0 <= i < |output| :: output[i].result == OK || output[i].result == PROCESSING_FAILED
  }

  /** With every result one of the two literals, the two counts add up to
      the number of responses. */
  lemma {:induction false} CountsPartition(output: seq<Response>)
    requires WellFormedResults(output)
    ensures SuccessCount(output) + FailureCount(output) == |output|
  {
    if output != [] {
      assert OK != PROCESSING_FAILED;
      assert WellFormedResults(output[1..]) by {
        forall i | 0 <= i < |output[1..]| ensures output[1..][i].result == OK || output[1..][i].result == PROCESSING_FAILED {
          assert output[1..][i] == output[i + 1];
        }
      }
      CountsPartition(output[1..]);
    }
  }

  /** Dispatcher invariants: a handler that returns gives one response per
      record, in order, each carrying its record's id, and its success and
      failure counts add up to the number of responses. */
  lemma DispatcherInvariants(lib: Lib, records: seq<InputRecord>)
    requires LambdaHandler(lib, records).Ok?
    ensures |LambdaHandler(lib, records).value| == |records|
    ensures forall i | 0 <= i < |records| :: LambdaHandler(lib, records).value[i].recordId == records[i].recordId
    ensures SuccessCount(LambdaHandler(lib, records).value) + FailureCount(LambdaHandler(lib, records).value) == |records|
  {
    var output := LambdaHandler(lib, records).value;
    assert WellFormedResults(output) by {
      forall i | 0 <= i < |output| ensures output[i].result == OK || output[i].result == PROCESSING_FAILED {
        assert output[i] == ProcessRecord(lib, records[i]).value;
      }
    }
    CountsPartition(output);
  }
}
