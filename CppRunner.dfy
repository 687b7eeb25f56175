/** `CppTestRunner.execute`: write `<id>.cpp`, compile it to `<id>.exe`, run the
    shared test loop on the binary, and remove both files on every path. */
module CppRunner {
  import opened Text
  import opened Jobs
  import opened Sandbox
  import opened ExecRunner
  import opened Workspace

  function SourceName(jobId: string): string { jobId + ".cpp" }

  function BinaryName(jobId: string): string { jobId + ".exe" }

  /** The time limit when the job gives none. */
  const DefaultTimeout: nat := 2000

  /** The test loop runs the binary, unflattened, with `job.timeout || 2000`. */
  function LoopSetup(job: Job, sb: Sandbox): Setup {
    Setup(sb.runs, BinaryName(job.jobId), TimeoutOr(job.timeout, DefaultTimeout), false)
  }

  /** The files the compiler adds when the source was written and compiled. */
  function Produced(job: Job, sb: Sandbox): set<string> {
    if sb.writeFault.None? && Lookup(sb.compiler, job.code).Built? then Lookup(sb.compiler, job.code).produced else {}
  }

  /** The binary exists after compiling: the source was written, the compiler accepted
      it, and `<id>.exe` is among the files (a stale one from an earlier job counts). */
  predicate BinaryReady(job: Job, sb: Sandbox, files: set<string>) {
    && sb.writeFault.None?
    && Lookup(sb.compiler, job.code).Built?
    && BinaryName(job.jobId) in files + {SourceName(job.jobId)} + Lookup(sb.compiler, job.code).produced
  }

  /** What `execute` returns, given the files in the temporary directory beforehand:
      the tests run exactly when the binary is ready, and every abandoned job is
      reported as a compilation error, never as a runtime error. */
  function CppResult(job: Job, sb: Sandbox, files: set<string>): (r: JobResult)
    ensures r.Completed? <==> BinaryReady(job, sb, files)
    ensures r.Aborted? ==> r.compilationError == Some(true) && !r.runtimeError
    ensures r.Aborted? && sb.writeFault.None? ==> r.error == "Compilation failed"
  {
    if sb.writeFault.Some? then Aborted(sb.writeFault.value, "", Some(true), false)
    else
      match Lookup(sb.compiler, job.code)
      case Rejected(e) => Aborted("Compilation failed", e, Some(true), false)
      case Built(produced) =>
        if BinaryName(job.jobId) !in files + {SourceName(job.jobId)} + produced then
          Aborted("Compilation failed", "Compiler did not produce output file", Some(true), false)
        else
          var runs := Runs(LoopSetup(job, sb), job.testCase);
          var results := Results(job.testCase, runs);
          Completed(results, GeneratedOf(job.testCase, runs), Every(results), NotReported)
  }

  /** Once the binary exists, every test case is run: one outcome each, at its own index,
      passing exactly when the binary's trimmed output equals `expected`, and `allPassed`
      holds exactly when all of them pass. */
  lemma CompletedSpec(job: Job, sb: Sandbox, files: set<string>)
    requires BinaryReady(job, sb, files)
    ensures var r := CppResult(job, sb, files);
      && r.Completed? && |r.results| == |job.testCase| && r.failedTestCase == NotReported
      && (forall i :: 0 <= i < |r.results| ==> r.results[i].testCaseId == i && r.results[i].expected == job.testCase[i].expected)
      && (forall i :: 0 <= i < |r.results| ==>
            (r.results[i].Passed() <==> var run := RunOf(LoopSetup(job, sb), job.testCase[i]);
               run.Clean() && Trim(run.run.stdout) == job.testCase[i].expected))
      && (r.allPassed <==> forall i :: 0 <= i < |r.results| ==> r.results[i].Passed())
  {
    LoopOutcomes(LoopSetup(job, sb), job.testCase);
  }

  /** `execute`: the temporary directory ends without the source and the binary,
      whichever way the job ended; whatever else the compiler produced stays. */
  method Execute(job: Job, sb: Sandbox, dir: TempDir) returns (res: JobResult)
    modifies dir
    ensures res == CppResult(job, sb, old(dir.files))
    ensures dir.files == (old(dir.files) + Produced(job, sb)) - {SourceName(job.jobId), BinaryName(job.jobId)}
  {
    var cppFile, executable := SourceName(job.jobId), BinaryName(job.jobId);
    if sb.writeFault.Some? {
      res := Aborted(sb.writeFault.value, "", Some(true), false);
    } else {
      dir.Write(cppFile);
      var build := Lookup(sb.compiler, job.code);
      if build.Rejected? {
        res := Aborted("Compilation failed", build.stderr, Some(true), false);
      } else {
        dir.AddAll(build.produced);
        if executable !in dir.files {
          res := Aborted("Compilation failed", "Compiler did not produce output file", Some(true), false);
        } else {
          var results, generatedResults := RunTests(LoopSetup(job, sb), job.testCase);
          res := Completed(results, generatedResults, Every(results), NotReported);
        }
      }
    }
    ghost var before := dir.files;
    dir.Cleanup([cppFile, executable]);
    assert dir.files == before - {cppFile, executable} by {
      var names := [cppFile, executable];
      assert (set i | 0 <= i < |names| :: names[i]) == {cppFile, executable} by {
        assert names[0] == cppFile && names[1] == executable;
      }
    }
  }
}
