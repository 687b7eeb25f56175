/** The records that travel between the gateway, the queue, the worker and the
    runners: a job, its test cases, one outcome per test case, the entries of
    `generatedResults`, and the job result a runner returns. */
module Jobs {
  import opened Json

  datatype Option<T> = None | Some(value: T)

  /** `{input, expected}`; `input` is an array or a single value. */
  datatype TestCase = TestCase(input: Json, expected: string)

  /** The queue entry `{code, language, testCase, timeout, job_id}`; a timeout of 0 stands for a missing one. */
  datatype Job = Job(code: string, language: string, testCase: seq<TestCase>, timeout: nat, jobId: string)

  /** One entry of `results`: a run that exited cleanly, or one that failed. */
  datatype Outcome =
    | Ran(testCaseId: nat, input: Json, expected: string, actual: string, passed: bool)
    | Crashed(testCaseId: nat, input: Json, expected: string, error: string, stderr: string)
  {
    /** The outcome's `passed` field; a failed run records `passed: false`. */
    predicate Passed() { Ran? && passed }
  }

  /** One entry of `generatedResults`: the input paired with the output produced for it. */
  datatype Generated = Generated(input: Json, expected: string)

  /** The `failedTestCase` field: absent, `null`, or the first failing outcome. */
  datatype FailedField = NotReported | NoFailure | FirstFailure(outcome: Outcome)

  /** What `execute` returns: every test ran (`success: true`), or the job was abandoned
      (`success: false`). `compilationError` is `None` when the field is absent. */
  datatype JobResult =
    | Completed(results: seq<Outcome>, generatedResults: seq<Generated>, allPassed: bool, failedTestCase: FailedField)
    | Aborted(error: string, stderr: string, compilationError: Option<bool>, runtimeError: bool)
  {
    predicate Success() { Completed? }
  }

  /** `results.every((r) => r.passed)`. */
  function Every(rs: seq<Outcome>): bool {
    if rs == [] then true else rs[0].Passed() && Every(rs[1..])
  }

  /** `results.find((r) => !r.passed)`. */
  function FirstFailed(rs: seq<Outcome>): Option<Outcome> {
    if rs == [] then None
    else if !rs[0].Passed() then Some(rs[0])
    else FirstFailed(rs[1..])
  }

  /** `every` holds exactly when each outcome passed. */
  lemma {:induction false} EveryIff(rs: seq<Outcome>)
    ensures Every(rs) <==> forall i :: 0 <= i < |rs| ==> rs[i].Passed()
  {
    if rs != [] {
      EveryIff(rs[1..]);
      assert forall i :: 1 <= i < |rs| ==> rs[i] == rs[1..][i - 1];
    }
  }

  /** `find` returns nothing exactly when every outcome passed, and otherwise the
      failing outcome with the smallest index. */
  lemma {:induction false} FirstFailedSpec(rs: seq<Outcome>)
    ensures FirstFailed(rs).None? <==> Every(rs)
    ensures FirstFailed(rs).Some? ==>
      exists k :: 0 <= k < |rs| && rs[k] == FirstFailed(rs).value && !rs[k].Passed()
        && forall j :: 0 <= j < k ==> rs[j].Passed()
  {
    if rs != [] && rs[0].Passed() {
      FirstFailedSpec(rs[1..]);
      if FirstFailed(rs).Some? {
        var k :| 0 <= k < |rs[1..]| && rs[1..][k] == FirstFailed(rs).value && !rs[1..][k].Passed()
          && forall j :: 0 <= j < k ==> rs[1..][j].Passed();
        assert rs[k + 1] == rs[1..][k];
        forall j | 0 <= j < k + 1 ensures rs[j].Passed() {
          if j > 0 { assert rs[j] == rs[1..][j - 1]; }
        }
      }
    } else if rs != [] {
      assert rs[0] == FirstFailed(rs).value;
    }
  }
}

/** The foreign calls a runner makes, as oracles: writing the source file,
    running the toolchain, and running the program on one input. */
module Sandbox {
  import opened Jobs

  /** How the input reaches the program: on standard input, or as command-line arguments. */
  datatype Feed = Stdin(text: string) | Argv(args: seq<string>)

  /** How one run of the program ended. `cause` is the process library's own message
      (an exit code, a spawn error); `TimedOut` is a kill at the wall-clock limit. */
  datatype Run =
    | Finished(stdout: string)
    | Failed(stderr: string, cause: string)
    | TimedOut(stderr: string)
    | NotStarted(cause: string)

  /** One start of the program: what is started, what it is fed, and the time limit in milliseconds. */
  datatype Call = Call(target: string, feed: Feed, timeoutMs: nat)

  /** What the toolchain did with a source text: it produced some files, or it exited
      non-zero with this standard error. */
  datatype Build = Built(produced: set<string>) | Rejected(stderr: string)

  /** A foreign behaviour, as a table: the answer for each listed question, and
      `otherwise` for every question the table does not list. */
  datatype Table<K, V> = Table(entries: map<K, V>, otherwise: V)

  function Lookup<K, V>(t: Table<K, V>, k: K): (v: V)
    ensures k in t.entries ==> v == t.entries[k]
    ensures k !in t.entries ==> v == t.otherwise
  {
    if k in t.entries then t.entries[k] else t.otherwise
  }

  /** The environment of one runner for one job: whether writing the source file throws
      (and with what message), what the toolchain does with a source text, and how the
      program behaves when started. */
  datatype Sandbox = Sandbox(writeFault: Option<string>, compiler: Table<string, Build>, runs: Table<Call, Run>)

  /** The standard-error text a failed run carries. */
  function ErrText(r: Run): string {
    match r
    case Finished(_) => ""
    case Failed(e, _) => e
    case TimedOut(e) => e
    case NotStarted(_) => ""
  }

  /** `job.timeout || d`. */
  function TimeoutOr(t: nat, d: nat): (r: nat)
    ensures t != 0 ==> r == t
    ensures t == 0 ==> r == d
  {
    if t == 0 then d else t
  }
}

/** A runner's temporary directory, as the set of file names in it. */
module Workspace {

  class TempDir {
    var files: set<string>

    constructor (initial: set<string>)
      ensures files == initial
    {
      files := initial;
    }

    /** `fs.writeFileSync(name, ...)`: the file exists afterwards. */
    method Write(name: string)
      modifies this
      ensures files == old(files) + {name}
    {
      files := files + {name};
    }

    /** The toolchain leaves its output files in the directory. */
    method AddAll(names: set<string>)
      modifies this
      ensures files == old(files) + names
    {
      files := files + names;
    }

    /** `cleanup(names)`: each listed file that exists is unlinked, in order. */
    method Cleanup(names: seq<string>)
      modifies this
      ensures files == old(files) - set i | 0 <= i < |names| :: names[i]
    {
      var k := 0;
      while k < |names|
        invariant 0 <= k <= |names|
        invariant files == old(files) - set i | 0 <= i < k :: names[i]
      {
        if names[k] in files {
          files := files - {names[k]};
        }
        k := k + 1;
      }
    }
  }
}
