/** The WebSocket gateway's `message` handler: build the job from the request, hand
    it to the broker, and choose the reply from the request's flags and the result. */
module Gateway {
  import opened Json
  import opened Jobs
  import opened Broker

  /** The fields of the parsed request the handler reads; the two flags are their truthiness. */
  datatype Request = Request(editorCode: string, selectedLanguage: string, testCase: seq<TestCase>,
                             exampleTestCases: bool, all: bool)

  /** The time limit every submission carries. */
  const GatewayTimeout: nat := 2000

  /** The job handed to the broker. */
  function BuildJob(req: Request): (sub: Submission)
    ensures sub.code == req.editorCode && sub.language == req.selectedLanguage && sub.testCase == req.testCase
    ensures sub.timeout == GatewayTimeout
  {
    Submission(req.editorCode, req.selectedLanguage, req.testCase, GatewayTimeout)
  }

  /** What is sent back on the socket. `RawResults` and `GeneratedData` carry `None` when
      the result has no such field; `SomeFailed` carries `None` for `failedTestCase: null`;
      `NoReply` is a handler that throws before sending anything. */
  datatype Reply =
    | RawResults(results: Option<seq<Outcome>>)
    | GeneratedData(data: Option<seq<Generated>>)
    | AllPassedReply
    | SomeFailed(failedTestCase: Option<Outcome>)
    | CompileError(msg: string)
    | NoReply

  function ResultsField(r: JobResult): Option<seq<Outcome>> {
    if r.Completed? then Some(r.results) else None
  }

  function GeneratedField(r: JobResult): Option<seq<Generated>> {
    if r.Completed? then Some(r.generatedResults) else None
  }

  /** The message of a failed job: its standard error between "compilation error " and a space. */
  function CompileMessage(stderr: string): (m: string)
    ensures |m| == |stderr| + 19 && m[..18] == "compilation error " && m[18..|m| - 1] == stderr && m[|m| - 1] == ' '
  {
    "compilation error " + stderr + " "
  }

  /** The reply, as the handler is meant to choose it: `exampleTestCases` first, then
      `all`, then passed, failed and abandoned jobs. `res` is `None` when the broker
      returned `undefined` or its promise rejected; reading a field of it then throws. */
  function ChooseReply(req: Request, res: Option<JobResult>): (reply: Reply)
    ensures res.None? <==> reply.NoReply?
    ensures res.Some? && req.exampleTestCases ==> reply == RawResults(ResultsField(res.value))
    ensures res.Some? && !req.exampleTestCases && req.all ==> reply == GeneratedData(GeneratedField(res.value))
    ensures res.Some? && !req.exampleTestCases && !req.all ==>
      (reply.AllPassedReply? <==> res.value.Completed? && res.value.allPassed)
    ensures res.Some? && !req.exampleTestCases && !req.all && res.value.Aborted? ==>
      reply == CompileError(CompileMessage(res.value.stderr))
  {
    if res.None? then NoReply
    else if req.exampleTestCases then RawResults(ResultsField(res.value))
    else if req.all then GeneratedData(GeneratedField(res.value))
    else if res.value.Completed? then
      if res.value.allPassed then AllPassedReply else SomeFailed(FirstFailed(res.value.results))
    else CompileError(CompileMessage(res.value.stderr))
  }

  /** The search loop of the handler, with its loop variable declared: the first result
      that did not pass, or `None` (`null`) when every result passed. */
  method FindFailed(results: seq<Outcome>) returns (failed: Option<Outcome>)
    ensures failed == FirstFailed(results)
    ensures failed.None? <==> Every(results)
    ensures failed.Some? ==> !failed.value.Passed()
  {
    FirstFailedSpec(results);
    failed := None;
    var k := 0;
    while k < |results|
      invariant 0 <= k <= |results|
      invariant FirstFailed(results) == FirstFailed(results[k..])
      invariant failed == None
    {
      assert results[k..][1..] == results[k + 1..];
      if !results[k].Passed() {
        failed := Some(results[k]);
        break;
      }
      k := k + 1;
    }
  }

  /** The handler, given what the broker settled with. */
  method Handle(req: Request, res: Option<JobResult>) returns (reply: Reply)
    ensures reply == ChooseReply(req, res)
  {
    if res.None? {
      return NoReply;
    }
    var r := res.value;
    if req.exampleTestCases {
      reply := RawResults(ResultsField(r));
    } else if req.all {
      reply := GeneratedData(GeneratedField(r));
    } else if r.Completed? {
      if r.allPassed {
        reply := AllPassedReply;
      } else {
        var failedTestCase := FindFailed(r.results);
        reply := SomeFailed(failedTestCase);
      }
    } else {
      reply := CompileError(CompileMessage(r.stderr));
    }
  }

  /** For a result a runner produced (`allPassed` is `every` over the results), a failed
      job's reply names the first failing outcome and is never `null`. */
  lemma FailedReplyNamesFirstFailure(req: Request, r: JobResult)
    requires !req.exampleTestCases && !req.all
    requires r.Completed? && r.allPassed == Every(r.results)
    requires !r.allPassed
    ensures ChooseReply(req, Some(r)).SomeFailed?
    ensures var f := ChooseReply(req, Some(r)).failedTestCase;
      && f.Some? && !f.value.Passed()
      && exists k :: 0 <= k < |r.results| && r.results[k] == f.value
           && forall j :: 0 <= j < k ==> r.results[j].Passed()
  {
    FirstFailedSpec(r.results);
  }

  /** The handler as written: `for (tc of res.results)` assigns to an undeclared
      variable, which throws in an ES module as soon as there is a result to visit. */
  function ChooseReplyAsWritten(req: Request, res: Option<JobResult>): (reply: Reply)
    ensures (res.Some? && !req.exampleTestCases && !req.all && res.value.Completed?
             && !res.value.allPassed && res.value.results != []) ==> reply == NoReply
  {
    if res.None? then NoReply
    else if req.exampleTestCases then RawResults(ResultsField(res.value))
    else if req.all then GeneratedData(GeneratedField(res.value))
    else if res.value.Completed? then
      if res.value.allPassed then AllPassedReply
      else if res.value.results != [] then NoReply
      else SomeFailed(None)
    else CompileError(CompileMessage(res.value.stderr))
  }

  /** The two handlers differ exactly on a failed job with at least one result: the
      written one sends nothing where the intended one names the failing test case. */
  lemma AsWrittenDiffers(req: Request, res: Option<JobResult>)
    ensures ChooseReplyAsWritten(req, res) != ChooseReply(req, res) <==>
      && res.Some? && !req.exampleTestCases && !req.all && res.value.Completed?
      && !res.value.allPassed && res.value.results != []
  {
    if res.Some? && !req.exampleTestCases && !req.all && res.value.Completed? && !res.value.allPassed && res.value.results == [] {
      assert FirstFailed(res.value.results) == None;
    }
  }

  /** A submission whose single test case fails gets no reply at all from the written handler. */
  lemma FailingSubmissionUnanswered()
    ensures var req := Request("int main(){}", "C++", [TestCase(JNum(1), "1")], false, false);
      var o := Ran(0, JStr("1"), "1", "", false);
      var r := Completed([o], [Generated(JNum(1), "")], false, NotReported);
      && ChooseReplyAsWritten(req, Some(r)) == NoReply
      && ChooseReply(req, Some(r)) == SomeFailed(Some(o))
  {
  }
}
