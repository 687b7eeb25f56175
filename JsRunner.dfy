/** `JsTestRunner.execute`: write `<id>.js`, run it with `node` once per test case
    through the shared test loop, and remove the script on every path. There is
    no compile step, so only writing the script can abandon the job. */
module JsRunner {
  import opened Text
  import opened Jobs
  import opened Sandbox
  import opened ExecRunner
  import opened Workspace

  function ScriptName(jobId: string): string { jobId + ".js" }

  /** The time limit when the job gives none. */
  const DefaultTimeout: nat := 2000

  /** The test loop runs the script, unflattened, with `job.timeout || 2000`. */
  function LoopSetup(job: Job, sb: Sandbox): Setup {
    Setup(sb.runs, ScriptName(job.jobId), TimeoutOr(job.timeout, DefaultTimeout), false)
  }

  /** What `execute` returns: the tests run exactly when the script was written; an
      abandoned job carries the write error's message, no `compilationError` field and
      `runtimeError: false`. */
  function JsResult(job: Job, sb: Sandbox): (r: JobResult)
    ensures r.Completed? <==> sb.writeFault.None?
    ensures r.Aborted? ==> r.error == sb.writeFault.value && r.stderr == ""
    ensures r.Aborted? ==> r.compilationError.None? && !r.runtimeError
  {
    if sb.writeFault.Some? then Aborted(sb.writeFault.value, "", None, false)
    else
      var runs := Runs(LoopSetup(job, sb), job.testCase);
      var results := Results(job.testCase, runs);
      Completed(results, GeneratedOf(job.testCase, runs), Every(results), NotReported)
  }

  /** Once the script is written, every test case is run: one outcome each, at its own
      index, passing exactly when the script's trimmed output equals `expected`, and
      `allPassed` holds exactly when all of them pass. */
  lemma CompletedSpec(job: Job, sb: Sandbox)
    requires sb.writeFault.None?
    ensures var r := JsResult(job, sb);
      && r.Completed? && |r.results| == |job.testCase| && r.failedTestCase == NotReported
      && (forall i :: 0 <= i < |r.results| ==> r.results[i].testCaseId == i && r.results[i].expected == job.testCase[i].expected)
      && (forall i :: 0 <= i < |r.results| ==>
            (r.results[i].Passed() <==> var run := RunOf(LoopSetup(job, sb), job.testCase[i]);
               run.Clean() && Trim(run.run.stdout) == job.testCase[i].expected))
      && (r.allPassed <==> forall i :: 0 <= i < |r.results| ==> r.results[i].Passed())
  {
    LoopOutcomes(LoopSetup(job, sb), job.testCase);
  }

  /** `execute`: the script is gone from the temporary directory afterwards, whichever
      way the job ended, and nothing else in it changes. */
  method Execute(job: Job, sb: Sandbox, dir: TempDir) returns (res: JobResult)
    modifies dir
    ensures res == JsResult(job, sb)
    ensures dir.files == old(dir.files) - {ScriptName(job.jobId)}
  {
    var jsFile := ScriptName(job.jobId);
    if sb.writeFault.Some? {
      res := Aborted(sb.writeFault.value, "", None, false);
    } else {
      dir.Write(jsFile);
      var results, generatedResults := RunTests(LoopSetup(job, sb), job.testCase);
      res := Completed(results, generatedResults, Every(results), NotReported);
    }
    ghost var before := dir.files;
    dir.Cleanup([jsFile]);
    assert dir.files == before - {jsFile} by {
      var names := [jsFile];
      assert (set i | 0 <= i < |names| :: names[i]) == {jsFile} by {
        assert names[0] == jsFile;
      }
    }
  }
}
