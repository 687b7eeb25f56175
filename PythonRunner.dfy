/** `PythonTestRunner` (through python-shell) and `PythonTestRunnerChildProcess`
    (through `spawn`): write `<id>.py`, pass each test case's input to the script as
    command-line arguments, compare the trimmed output with the trimmed `expected`,
    and remove the script on every path. The two classes differ in the messages of a
    failed run, in what a failed test adds to `generatedResults`, and in how they
    compute `failedTestCase`. */
module PythonRunner {
  import opened Text
  import opened Json
  import opened Jobs
  import opened Sandbox
  import opened Workspace

  /** Which of the two runner classes. */
  datatype Flavor = Shell | Spawn

  function ScriptName(jobId: string): string { jobId + ".py" }

  /** The time limit when the job gives none. */
  const DefaultTimeout: nat := 5000

  /** The arguments `parseInput` builds from the array elements handled so far, or the
      error of the first element whose `item.toString()` throws. */
  function ItemArgs(items: seq<Json>): Completion<seq<string>>
    decreases |items|
  {
    if items == [] then Normal([])
    else
      var n := |items| - 1;
      match ItemArgs(items[..n])
      case Abrupt(m) => Abrupt(m)
      case Normal(args) =>
        match CallToString(items[n], "item")
        case Abrupt(m) => Abrupt(m)
        case Normal(text) => Normal(args + Tokens(Trim(text)))
  }

  /** `parseInput(testCase)`: each array element, or the single value, converted with
      `toString()`, trimmed and split on white space; the error when a conversion throws. */
  function ArgsOf(input: Json): Completion<seq<string>> {
    match input
    case JArr(items) => ItemArgs(items)
    case _ =>
      match CallToString(input, "testCase.input")
      case Abrupt(m) => Abrupt(m)
      case Normal(text) => Normal(Tokens(Trim(text)))
  }

  /** Once an element throws, so does the whole conversion, with that element's error. */
  lemma {:induction false} ItemArgsStaysNone(items: seq<Json>, k: nat)
    requires k <= |items| && ItemArgs(items[..k]).Abrupt?
    ensures ItemArgs(items) == ItemArgs(items[..k])
    decreases |items| - k
  {
    if k < |items| {
      assert items[..k + 1][..k] == items[..k];
      ItemArgsStaysNone(items, k + 1);
    } else {
      assert items[..k] == items;
    }
  }

  /** The `toString()` of an element throws: it is `null`, an object with its own
      `toString` key, or an array holding such an object. */
  predicate Unconvertible(v: Json) {
    v == JNull || !Stringable(v)
  }

  /** `parseInput` throws on an array exactly when one of its elements cannot be
      converted, and then with the error of the first such element. */
  lemma {:induction false} ItemArgsNone(items: seq<Json>)
    ensures ItemArgs(items).Abrupt? <==> exists i :: 0 <= i < |items| && Unconvertible(items[i])
    ensures ItemArgs(items).Abrupt? ==>
      exists i :: (0 <= i < |items| && Unconvertible(items[i])
        && ItemArgs(items).message == CallToString(items[i], "item").message
        && forall j :: 0 <= j < i ==> !Unconvertible(items[j]))
    decreases |items|
  {
    if items != [] {
      var n := |items| - 1;
      ItemArgsNone(items[..n]);
      assert forall i :: 0 <= i < n ==> items[..n][i] == items[i];
      if ItemArgs(items[..n]).Abrupt? {
        var i :| 0 <= i < n && Unconvertible(items[..n][i])
          && ItemArgs(items[..n]).message == CallToString(items[..n][i], "item").message
          && forall j :: 0 <= j < i ==> !Unconvertible(items[..n][j]);
        assert Unconvertible(items[i]);
      } else if !Unconvertible(items[n]) {
        forall i | 0 <= i < |items| ensures !Unconvertible(items[i]) {
          if i < n { assert items[i] == items[..n][i]; }
        }
      }
    }
  }

  /** Every argument `parseInput` returns is non-empty and free of white space. */
  lemma {:induction false} ItemArgsAreWords(items: seq<Json>)
    requires ItemArgs(items).Normal?
    ensures Tokenlike(ItemArgs(items).value)
    decreases |items|
  {
    if items != [] {
      var n := |items| - 1;
      ItemArgsAreWords(items[..n]);
      var prev, more := ItemArgs(items[..n]).value, Tokens(Trim(ToStr(items[n])));
      TokensAreWords(Trim(ToStr(items[n])));
      TokenlikeAppend(prev, more);
    }
  }

  lemma TokenlikeAppend(a: seq<string>, b: seq<string>)
    requires Tokenlike(a) && Tokenlike(b)
    ensures Tokenlike(a + b)
  {
    forall k | 0 <= k < |a + b| ensures |(a + b)[k]| >= 1 && NoSpace((a + b)[k]) {
      if k >= |a| { assert (a + b)[k] == b[k - |a|]; }
    }
  }

  /** `parseInput` throws exactly on `null`, on an object with its own `toString` key,
      or on an array with an element that cannot be converted; a single value's error
      names `testCase.input`. Otherwise every argument is non-empty and free of white
      space. */
  lemma ArgsOfSpec(input: Json)
    ensures ArgsOf(input).Abrupt? <==>
      || input == JNull
      || (input.JObj? && "toString" in input.fields)
      || (input.JArr? && exists i :: 0 <= i < |input.items| && Unconvertible(input.items[i]))
    ensures !input.JArr? && ArgsOf(input).Abrupt? ==>
      ArgsOf(input).message == (if input == JNull then NullToString else "testCase.input.toString is not a function")
    ensures ArgsOf(input).Normal? ==> Tokenlike(ArgsOf(input).value)
  {
    if input.JArr? {
      ItemArgsNone(input.items);
      if ItemArgs(input.items).Normal? {
        ItemArgsAreWords(input.items);
      }
    } else {
      SingleArgs(input);
    }
  }

  /** A single value: `testCase.input.toString()` throws on `null` and on an own
      `toString` key, each with its own error. */
  lemma SingleArgs(input: Json)
    requires !input.JArr?
    ensures ArgsOf(input).Abrupt? <==> input == JNull || (input.JObj? && "toString" in input.fields)
    ensures ArgsOf(input).Abrupt? ==>
      ArgsOf(input).message == (if input == JNull then NullToString else "testCase.input.toString is not a function")
    ensures ArgsOf(input).Normal? ==> Tokenlike(ArgsOf(input).value)
  {
    var c := CallToString(input, "testCase.input");
    if c.Normal? {
      TokensAreWords(Trim(c.value));
    }
  }

  /** `parseInput`: the loop over the array elements pushes each element's tokens, and
      the first `toString()` that throws ends it. */
  method ParseInput(input: Json) returns (args: Completion<seq<string>>)
    ensures args == ArgsOf(input)
  {
    if input.JArr? {
      var items := input.items;
      var allArgs: seq<string> := [];
      var k := 0;
      while k < |items|
        invariant 0 <= k <= |items|
        invariant ItemArgs(items[..k]) == Normal(allArgs)
      {
        var itemStr := CallToString(items[k], "item");
        assert items[..k + 1][..k] == items[..k];
        if itemStr.Abrupt? {
          ItemArgsStaysNone(items, k + 1);
          return Abrupt(itemStr.message);
        }
        allArgs := allArgs + Tokens(Trim(itemStr.value));
        k := k + 1;
      }
      assert items[..k] == items;
      return Normal(allArgs);
    } else {
      var inputStr := CallToString(input, "testCase.input");
      if inputStr.Abrupt? {
        return Abrupt(inputStr.message);
      }
      return Normal(Tokens(Trim(inputStr.value)));
    }
  }

  /** What the loop needs: how the script behaves, its name, the time limit, the class. */
  datatype PySetup = PySetup(runs: Table<Call, Run>, script: string, timeout: nat, flavor: Flavor)

  /** How one test case went: `parseInput` threw, or the script ran with its arguments. */
  function Attempt(s: PySetup, tc: TestCase): Completion<Run> {
    match ArgsOf(tc.input)
    case Abrupt(m) => Abrupt(m)
    case Normal(args) => Normal(Lookup(s.runs, Call(s.script, Argv(args), s.timeout)))
  }

  /** The `message` and `stderr` of the error a failed test case is recorded with. */
  datatype Failure = Failure(message: string, stderr: string)

  /** python-shell: the collected standard error, else the library's message, else a
      fixed text; its own timer rejects first on a timeout, with no standard error. */
  function ShellFailure(r: Run, timeout: nat): (f: Failure)
    ensures f.message != ""
  {
    match r
    case Failed(e, cause) => Failure(if e != "" then e else if cause != "" then cause else "Python execution failed", e)
    case TimedOut(_) => Failure("Execution timeout after " + IntToString(timeout) + "ms", "")
    case NotStarted(cause) => Failure(if cause != "" then cause else "Python execution failed", "")
    case Finished(_) => Failure("Python execution failed", "")
  }

  /** `spawn`: the standard error, else the exit code; a kill at the time limit closes the
      process with code `null` before the runner's own timer looks; a process that cannot
      start reports the reason. */
  function SpawnFailure(r: Run): (f: Failure)
    ensures f.message != ""
  {
    match r
    case Failed(e, code) => Failure(if e != "" then e else "Process exited with code " + code, e)
    case TimedOut(e) => Failure(if e != "" then e else "Process exited with code null", e)
    case NotStarted(cause) => Failure("Failed to start Python process: " + cause, cause)
    case Finished(_) => Failure("Python execution failed", "")
  }

  function FailureOf(s: PySetup, r: Run): Failure {
    if s.flavor == Shell then ShellFailure(r, s.timeout) else SpawnFailure(r)
  }

  /** The outcome of test case `i`: a clean run records the input as given, the trimmed
      `expected` and the trimmed output; a failure records the untrimmed `expected`. */
  function PyJudge(s: PySetup, i: nat, tc: TestCase): (o: Outcome)
    ensures o.testCaseId == i && o.input == tc.input
    ensures o.Passed() <==> (Attempt(s, tc).Normal? && Attempt(s, tc).value.Finished?
      && Trim(Trim(Attempt(s, tc).value.stdout)) == Trim(tc.expected))
  {
    match Attempt(s, tc)
    case Abrupt(m) => Crashed(i, tc.input, tc.expected, m, "")
    case Normal(r) =>
      if r.Finished? then
        var actual := Trim(Trim(r.stdout));
        Ran(i, tc.input, Trim(tc.expected), actual, actual == Trim(tc.expected))
      else
        var f := FailureOf(s, r);
        Crashed(i, tc.input, tc.expected, f.message, f.stderr)
  }

  /** The script's output is trimmed twice (by the runner and by the loop), which is the
      same as once: a test passes exactly when the trimmed output equals the trimmed
      `expected`. */
  lemma PassedIff(s: PySetup, i: nat, tc: TestCase)
    ensures PyJudge(s, i, tc).Passed() <==> (Attempt(s, tc).Normal? && Attempt(s, tc).value.Finished?
      && Trim(Attempt(s, tc).value.stdout) == Trim(tc.expected))
  {
    if Attempt(s, tc).Normal? && Attempt(s, tc).value.Finished? {
      TrimIdempotent(Attempt(s, tc).value.stdout);
    }
  }

  /** What one test case adds to `generatedResults`: the trimmed output of a clean run;
      for a failure, an `"ERROR"` entry (python-shell) or nothing (`spawn`). */
  function GeneratedFor(s: PySetup, tc: TestCase): (g: seq<Generated>)
    ensures |g| <= 1 && (|g| == 1 ==> g[0].input == tc.input)
    ensures s.flavor == Shell ==> |g| == 1
    ensures s.flavor == Spawn ==> (|g| == 1 <==> RanCleanly(s, tc))
  {
    match Attempt(s, tc)
    case Normal(Finished(out)) => [Generated(tc.input, Trim(Trim(out)))]
    case _ => if s.flavor == Shell then [Generated(tc.input, "ERROR")] else []
  }

  function PyResults(s: PySetup, tcs: seq<TestCase>): (rs: seq<Outcome>)
    ensures |rs| == |tcs|
  {
    seq(|tcs|, i requires 0 <= i < |tcs| => PyJudge(s, i, tcs[i]))
  }

  function PyGenerated(s: PySetup, tcs: seq<TestCase>): seq<Generated>
    decreases |tcs|
  {
    if tcs == [] then [] else PyGenerated(s, tcs[..|tcs| - 1]) + GeneratedFor(s, tcs[|tcs| - 1])
  }

  /** With python-shell, `generatedResults` has one entry per test case, at its index. */
  lemma {:induction false} ShellGeneratedComplete(s: PySetup, tcs: seq<TestCase>)
    requires s.flavor == Shell
    ensures |PyGenerated(s, tcs)| == |tcs|
    ensures forall i :: 0 <= i < |tcs| ==> PyGenerated(s, tcs)[i].input == tcs[i].input
    decreases |tcs|
  {
    if tcs != [] {
      var n := |tcs| - 1;
      ShellGeneratedComplete(s, tcs[..n]);
      var prev: seq<Generated>, g: seq<Generated> := PyGenerated(s, tcs[..n]), GeneratedFor(s, tcs[n]);
      assert PyGenerated(s, tcs) == prev + g;
      forall i | 0 <= i < |tcs| ensures (prev + g)[i].input == tcs[i].input {
        if i < n {
          assert (prev + g)[i] == prev[i];
          assert tcs[..n][i] == tcs[i];
        } else {
          assert (prev + g)[i] == g[0];
        }
      }
    }
  }

  /** With `spawn`, a test case contributes to `generatedResults` exactly when its run
      finished: the entries are the clean runs' outputs, in order. */
  lemma {:induction false} SpawnGeneratedCount(s: PySetup, tcs: seq<TestCase>)
    requires s.flavor == Spawn
    ensures |PyGenerated(s, tcs)| == |Clean(s, tcs)|
    ensures forall i :: 0 <= i < |PyGenerated(s, tcs)| ==> PyGenerated(s, tcs)[i].input == Clean(s, tcs)[i].input
    decreases |tcs|
  {
    if tcs != [] {
      var n := |tcs| - 1;
      SpawnGeneratedCount(s, tcs[..n]);
      var g, c := PyGenerated(s, tcs), Clean(s, tcs);
      forall i | 0 <= i < |g| ensures g[i].input == c[i].input {
        if i < |PyGenerated(s, tcs[..n])| {
          assert g[i] == PyGenerated(s, tcs[..n])[i] && c[i] == Clean(s, tcs[..n])[i];
        }
      }
    }
  }

  /** The script ran on the test case's arguments and exited cleanly. */
  predicate RanCleanly(s: PySetup, tc: TestCase) {
    Attempt(s, tc).Normal? && Attempt(s, tc).value.Finished?
  }

  /** The test cases whose script ran cleanly, in order. */
  function Clean(s: PySetup, tcs: seq<TestCase>): seq<TestCase>
    decreases |tcs|
  {
    if tcs == [] then []
    else
      var n := |tcs| - 1;
      Clean(s, tcs[..n]) + (if RanCleanly(s, tcs[n]) then [tcs[n]] else [])
  }

  /** `allPassed ? null : results.find((r) => !r.passed)` (python-shell). */
  function ShellFailed(rs: seq<Outcome>): FailedField {
    if Every(rs) then NoFailure
    else
      FirstFailedSpec(rs);
      FirstFailure(FirstFailed(rs).value)
  }

  /** `results.find((r) => !r.passed) || null` (`spawn`). */
  function SpawnFailed(rs: seq<Outcome>): FailedField {
    match FirstFailed(rs)
    case Some(o) => FirstFailure(o)
    case None => NoFailure
  }

  /** The two ways of computing `failedTestCase` agree: `null` exactly when every test
      passed, and otherwise the failing outcome with the smallest index. */
  lemma FailedFieldSpec(rs: seq<Outcome>)
    ensures ShellFailed(rs) == SpawnFailed(rs)
    ensures ShellFailed(rs) == NoFailure <==> Every(rs)
    ensures ShellFailed(rs).FirstFailure? ==>
      exists k :: 0 <= k < |rs| && rs[k] == ShellFailed(rs).outcome && !rs[k].Passed()
        && forall j :: 0 <= j < k ==> rs[j].Passed()
  {
    FirstFailedSpec(rs);
  }

  /** What `execute` returns. A write error is reported as a runtime error, not as a
      compilation error. */
  function PyResult(job: Job, sb: Sandbox, flavor: Flavor): (r: JobResult)
    ensures r.Completed? <==> sb.writeFault.None?
    ensures r.Aborted? ==> r.compilationError == Some(false) && r.runtimeError && r.stderr == ""
  {
    if sb.writeFault.Some? then Aborted(sb.writeFault.value, "", Some(false), true)
    else
      var s := LoopSetup(job, sb, flavor);
      var results := PyResults(s, job.testCase);
      var failed := if flavor == Shell then ShellFailed(results) else SpawnFailed(results);
      Completed(results, PyGenerated(s, job.testCase), Every(results), failed)
  }

  function LoopSetup(job: Job, sb: Sandbox, flavor: Flavor): PySetup {
    PySetup(sb.runs, ScriptName(job.jobId), TimeoutOr(job.timeout, DefaultTimeout), flavor)
  }

  /** Once the script is written, every test case gets one outcome at its own index, which
      passes exactly when the script ran on the parsed arguments and its trimmed output
      equals the trimmed `expected`; `allPassed` holds exactly when all pass. */
  lemma CompletedSpec(job: Job, sb: Sandbox, flavor: Flavor)
    requires sb.writeFault.None?
    ensures var r, s := PyResult(job, sb, flavor), LoopSetup(job, sb, flavor);
      && r.Completed? && |r.results| == |job.testCase|
      && (forall i :: 0 <= i < |r.results| ==> r.results[i].testCaseId == i && r.results[i].input == job.testCase[i].input)
      && (forall i :: 0 <= i < |r.results| ==>
            (r.results[i].Passed() <==> (Attempt(s, job.testCase[i]).Normal? && Attempt(s, job.testCase[i]).value.Finished?
               && Trim(Attempt(s, job.testCase[i]).value.stdout) == Trim(job.testCase[i].expected))))
      && (r.allPassed <==> forall i :: 0 <= i < |r.results| ==> r.results[i].Passed())
  {
    var s := LoopSetup(job, sb, flavor);
    var rs := PyResults(s, job.testCase);
    forall i | 0 <= i < |rs|
      ensures rs[i].Passed() <==> (Attempt(s, job.testCase[i]).Normal? && Attempt(s, job.testCase[i]).value.Finished?
        && Trim(Attempt(s, job.testCase[i]).value.stdout) == Trim(job.testCase[i].expected))
    {
      PassedIff(s, i, job.testCase[i]);
    }
    EveryIff(rs);
  }

  lemma ResultsSnoc(s: PySetup, tcs: seq<TestCase>, n: nat)
    requires n < |tcs|
    ensures PyResults(s, tcs[..n + 1]) == PyResults(s, tcs[..n]) + [PyJudge(s, n, tcs[n])]
  {
    var a, b := PyResults(s, tcs[..n + 1]), PyResults(s, tcs[..n]) + [PyJudge(s, n, tcs[n])];
    forall i | 0 <= i < n + 1 ensures a[i] == b[i] {
      if i < n {
        assert tcs[..n + 1][i] == tcs[..n][i];
      }
    }
  }

  lemma GeneratedSnoc(s: PySetup, tcs: seq<TestCase>, n: nat)
    requires n < |tcs|
    ensures PyGenerated(s, tcs[..n + 1]) == PyGenerated(s, tcs[..n]) + GeneratedFor(s, tcs[n])
  {
    assert tcs[..n + 1][..n] == tcs[..n] && tcs[..n + 1][n] == tcs[n];
  }

  /** The loop of `execute`: test cases in order, one outcome each, a failure recorded
      without stopping the loop. */
  method RunTests(s: PySetup, tcs: seq<TestCase>) returns (results: seq<Outcome>, generated: seq<Generated>)
    ensures results == PyResults(s, tcs)
    ensures generated == PyGenerated(s, tcs)
  {
    results, generated := [], [];
    var index := 0;
    while index < |tcs|
      invariant 0 <= index <= |tcs|
      invariant results == PyResults(s, tcs[..index])
      invariant generated == PyGenerated(s, tcs[..index])
    {
      var testCase := tcs[index];
      var inputArgs := ParseInput(testCase.input);
      if inputArgs.Abrupt? {
        results := results + [Crashed(index, testCase.input, testCase.expected, inputArgs.message, "")];
        if s.flavor == Shell {
          generated := generated + [Generated(testCase.input, "ERROR")];
        }
      } else {
        var r := Lookup(s.runs, Call(s.script, Argv(inputArgs.value), s.timeout));
        if r.Finished? {
          var actualOutput := Trim(Trim(r.stdout));
          var expectedOutput := Trim(testCase.expected);
          results := results + [Ran(index, testCase.input, expectedOutput, actualOutput, actualOutput == expectedOutput)];
          generated := generated + [Generated(testCase.input, actualOutput)];
        } else {
          var f := FailureOf(s, r);
          results := results + [Crashed(index, testCase.input, testCase.expected, f.message, f.stderr)];
          if s.flavor == Shell {
            generated := generated + [Generated(testCase.input, "ERROR")];
          }
        }
      }
      ResultsSnoc(s, tcs, index);
      GeneratedSnoc(s, tcs, index);
      index := index + 1;
    }
    assert tcs[..index] == tcs;
  }

  /** `execute`: the script is gone from the temporary directory afterwards, whichever way
      the job ended, and nothing else in it changes. */
  method Execute(job: Job, sb: Sandbox, flavor: Flavor, dir: TempDir) returns (res: JobResult)
    modifies dir
    ensures res == PyResult(job, sb, flavor)
    ensures dir.files == old(dir.files) - {ScriptName(job.jobId)}
  {
    var pythonFile := ScriptName(job.jobId);
    if sb.writeFault.Some? {
      res := Aborted(sb.writeFault.value, "", Some(false), true);
    } else {
      dir.Write(pythonFile);
      var s := LoopSetup(job, sb, flavor);
      var results, generatedResults := RunTests(s, job.testCase);
      var allPassed := Every(results);
      var failed: FailedField;
      if flavor == Shell {
        failed := ShellFailed(results);
      } else {
        failed := SpawnFailed(results);
      }
      res := Completed(results, generatedResults, allPassed, failed);
    }
    ghost var before := dir.files;
    dir.Cleanup([pythonFile]);
    assert dir.files == before - {pythonFile} by {
      var names := [pythonFile];
      assert (set i | 0 <= i < |names| :: names[i]) == {pythonFile} by {
        assert names[0] == pythonFile;
      }
    }
  }
}
