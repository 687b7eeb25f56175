/** `JavaTestRunner.execute`: prepare the code as class `Solution_<id>`, write it to
    `<class>.java`, compile it with `javac`, run `java <class>` once per test case
    through the shared test loop with array inputs flattened, and remove the source
    and every class file of that class on every path. */
module JavaRunner {
  import opened Text
  import opened Jobs
  import opened Sandbox
  import opened ExecRunner
  import opened Workspace
  import opened JavaSource

  function SourceName(cn: string): string { cn + ".java" }

  function ClassFile(cn: string): string { cn + ".class" }

  /** The time limit when the job gives none. */
  const DefaultTimeout: nat := 2000

  /** The source text written to `<class>.java`. */
  function Prepared(job: Job): string {
    PrepareJavaCode(job.code, ClassName(job.jobId))
  }

  /** The test loop runs the class, with array inputs flattened, and `job.timeout || 2000`. */
  function LoopSetup(job: Job, sb: Sandbox): Setup {
    Setup(sb.runs, ClassName(job.jobId), TimeoutOr(job.timeout, DefaultTimeout), true)
  }

  /** The files `javac` adds when the source was written and compiled. */
  function Produced(job: Job, sb: Sandbox): set<string> {
    if sb.writeFault.None? && Lookup(sb.compiler, Prepared(job)).Built? then Lookup(sb.compiler, Prepared(job)).produced else {}
  }

  /** The class is ready after compiling: the source was written, `javac` accepted it, and
      `<class>.class` is among the files (a stale one from an earlier job counts). */
  predicate ClassReady(job: Job, sb: Sandbox, files: set<string>) {
    var cn := ClassName(job.jobId);
    && sb.writeFault.None?
    && Lookup(sb.compiler, Prepared(job)).Built?
    && ClassFile(cn) in files + {SourceName(cn)} + Lookup(sb.compiler, Prepared(job)).produced
  }

  /** What `execute` returns, given the files in the temporary directory beforehand:
      the tests run exactly when the class is ready, and every abandoned job is reported
      as a compilation error, never as a runtime error. */
  function JavaResult(job: Job, sb: Sandbox, files: set<string>): (r: JobResult)
    ensures r.Completed? <==> ClassReady(job, sb, files)
    ensures r.Aborted? ==> r.compilationError == Some(true) && !r.runtimeError
    ensures r.Aborted? && sb.writeFault.None? ==> r.error == "Compilation failed"
  {
    var cn := ClassName(job.jobId);
    if sb.writeFault.Some? then Aborted(sb.writeFault.value, "", Some(true), false)
    else
      match Lookup(sb.compiler, Prepared(job))
      case Rejected(e) => Aborted("Compilation failed", e, Some(true), false)
      case Built(produced) =>
        if ClassFile(cn) !in files + {SourceName(cn)} + produced then
          Aborted("Compilation failed", "Compiler did not produce output file", Some(true), false)
        else
          var runs := Runs(LoopSetup(job, sb), job.testCase);
          var results := Results(job.testCase, runs);
          Completed(results, GeneratedOf(job.testCase, runs), Every(results), NotReported)
  }

  /** Once the class is ready, every test case is run: one outcome each, at its own index,
      passing exactly when the program's trimmed output for the flattened input equals
      `expected`, and `allPassed` holds exactly when all of them pass. */
  lemma CompletedSpec(job: Job, sb: Sandbox, files: set<string>)
    requires ClassReady(job, sb, files)
    ensures var r := JavaResult(job, sb, files);
      && r.Completed? && |r.results| == |job.testCase| && r.failedTestCase == NotReported
      && (forall i :: 0 <= i < |r.results| ==> r.results[i].testCaseId == i && r.results[i].expected == job.testCase[i].expected)
      && (forall i :: 0 <= i < |r.results| ==>
            (r.results[i].Passed() <==> var run := RunOf(LoopSetup(job, sb), job.testCase[i]);
               run.Clean() && Trim(run.run.stdout) == job.testCase[i].expected))
      && (r.allPassed <==> forall i :: 0 <= i < |r.results| ==> r.results[i].Passed())
  {
    LoopOutcomes(LoopSetup(job, sb), job.testCase);
  }

  /** The files of the directory that the cleanup of class `cn` selects. */
  function ClassFilesIn(files: set<string>, cn: string): (r: set<string>)
    ensures r <= files
    ensures forall f :: f in r <==> f in files && IsClassFileOf(f, cn)
  {
    set f | f in files && IsClassFileOf(f, cn)
  }

  /** `readdirSync(tempDir).filter(...)`: the listing comes in no particular order, and
      every selected file appears in it exactly once. */
  method ListClassFiles(dir: TempDir, cn: string) returns (selected: seq<string>)
    ensures forall f :: f in selected <==> f in ClassFilesIn(dir.files, cn)
    ensures forall i, j :: 0 <= i < j < |selected| ==> selected[i] != selected[j]
  {
    selected := [];
    var unseen := dir.files;
    while unseen != {}
      invariant unseen <= dir.files
      invariant forall f :: f in selected <==> f in dir.files - unseen && IsClassFileOf(f, cn)
      invariant forall i, j :: 0 <= i < j < |selected| ==> selected[i] != selected[j]
      decreases |unseen|
    {
      var f :| f in unseen;
      if IsClassFileOf(f, cn) {
        selected := selected + [f];
      }
      unseen := unseen - {f};
    }
  }

  /** The `finally` block: `cleanup` of the source and of the listed class files. */
  method RemoveClassFiles(dir: TempDir, cn: string)
    modifies dir
    ensures dir.files == old(dir.files) - {SourceName(cn)} - ClassFilesIn(old(dir.files), cn)
  {
    var classFiles := ListClassFiles(dir, cn);
    var names := [SourceName(cn)] + classFiles;
    ghost var before := dir.files;
    dir.Cleanup(names);
    assert (set i | 0 <= i < |names| :: names[i]) == {SourceName(cn)} + ClassFilesIn(before, cn) by {
      forall f | f in ClassFilesIn(before, cn) ensures f in set i | 0 <= i < |names| :: names[i] {
        var k :| 0 <= k < |classFiles| && classFiles[k] == f;
        assert names[k + 1] == f;
      }
      assert names[0] == SourceName(cn);
    }
  }

  /** `execute`: afterwards the directory holds neither the source nor any file that starts
      with the class name and ends in `.class`, whichever way the job ended; whatever else
      was there, or was produced, stays. */
  method Execute(job: Job, sb: Sandbox, dir: TempDir) returns (res: JobResult)
    modifies dir
    ensures res == JavaResult(job, sb, old(dir.files))
    ensures var cn, all := ClassName(job.jobId), old(dir.files) + Produced(job, sb);
      dir.files == all - {SourceName(cn)} - ClassFilesIn(all, cn)
  {
    var className := ClassName(job.jobId);
    var javaFile := SourceName(className);
    var preparedCode := PrepareJavaCode(job.code, className);
    if sb.writeFault.Some? {
      res := Aborted(sb.writeFault.value, "", Some(true), false);
    } else {
      dir.Write(javaFile);
      var build := Lookup(sb.compiler, preparedCode);
      if build.Rejected? {
        res := Aborted("Compilation failed", build.stderr, Some(true), false);
      } else {
        dir.AddAll(build.produced);
        if ClassFile(className) !in dir.files {
          res := Aborted("Compilation failed", "Compiler did not produce output file", Some(true), false);
        } else {
          var results, generatedResults := RunTests(LoopSetup(job, sb), job.testCase);
          res := Completed(results, generatedResults, Every(results), NotReported);
        }
      }
    }
    RemoveClassFiles(dir, className);
  }
}
