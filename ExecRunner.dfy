/** The test loop the C++, Java and JavaScript runners share: each test case's
    input is written to the program's standard input, the trimmed output is
    compared with `expected`, and a failed run is recorded and skipped past. */
module ExecRunner {
  import opened Text
  import opened Json
  import opened Jobs
  import opened Sandbox

  /** What the loop needs from its runner: how the program behaves, what is started,
      the time limit, and whether array inputs are flattened one level first (Java). */
  datatype Setup = Setup(runs: Table<Call, Run>, program: string, timeout: nat, flatten: bool)

  /** The text fed on standard input: an array's elements (flattened one level first
      when `flatten`) rendered and joined by single spaces, or the value itself as a
      string, followed by one newline. Building it throws when `join` or the `+`
      meets an object whose own `toString` key hides the inherited method. */
  function StdinText(input: Json, flatten: bool): (r: Completion<string>)
    ensures r.Normal? ==> |r.value| >= 1 && r.value[|r.value| - 1] == '\n'
    ensures r.Abrupt? ==> r.message == NoPrimitive
    ensures input.JArr? ==> (r.Abrupt? <==> exists i :: 0 <= i < |input.items| && !Stringable(input.items[i]))
    ensures !input.JArr? ==> (r.Abrupt? <==> input.JObj? && "toString" in input.fields)
    ensures input.JArr? && r.Normal? ==>
      r.value == Join(ItemStrs(if flatten then Flat(input.items) else input.items), " ") + "\n"
    ensures !input.JArr? && r.Normal? ==> r.value == ToStr(input) + "\n"
  {
    match input
    case JArr(xs) =>
      var items := if flatten then Flat(xs) else xs;
      FlatStringable(xs);
      if AllStringable(items) then
        JoinItemsIsJoin(items, " ");
        Normal(JoinItems(items, " ") + "\n")
      else Abrupt(NoPrimitive)
    case _ =>
      match StringOf(input)
      case Normal(text) => Normal(text + "\n")
      case Abrupt(m) => Abrupt(m)
  }

  /** The message of the error a failed run rejects with: its standard error, or
      "Runtime error" when that is empty. */
  function RunMessage(r: Run): (m: string)
    ensures m != ""
    ensures ErrText(r) != "" ==> m == ErrText(r)
    ensures ErrText(r) == "" ==> m == "Runtime error"
  {
    if ErrText(r) != "" then ErrText(r) else "Runtime error"
  }

  /** How the loop body went for one test case: building the input text threw
      `message` and the program was never started, or the program was fed `text` and
      ended as `run`. */
  datatype Attempt = Unfed(message: string) | Fed(text: string, run: Run)
  {
    /** The program ran and exited cleanly. */
    predicate Clean() { Fed? && run.Finished? }
  }

  /** The attempt at one test case. */
  function RunOf(s: Setup, tc: TestCase): Attempt {
    match StdinText(tc.input, s.flatten)
    case Abrupt(m) => Unfed(m)
    case Normal(text) => Fed(text, Lookup(s.runs, Call(s.program, Stdin(text), s.timeout)))
  }

  /** The attempts at the test cases, in order. */
  function Runs(s: Setup, tcs: seq<TestCase>): (rs: seq<Attempt>)
    ensures |rs| == |tcs|
    decreases |tcs|
  {
    if tcs == [] then [] else Runs(s, tcs[..|tcs| - 1]) + [RunOf(s, tcs[|tcs| - 1])]
  }

  /** Attempt `i` is the attempt at test case `i`. */
  lemma {:induction false} RunsAt(s: Setup, tcs: seq<TestCase>, i: nat)
    requires i < |tcs|
    ensures Runs(s, tcs)[i] == RunOf(s, tcs[i])
    decreases |tcs|
  {
    var n := |tcs| - 1;
    if i < n {
      RunsAt(s, tcs[..n], i);
      assert tcs[..n][i] == tcs[i];
    }
  }

  /** The outcome recorded for test case `i`, given how its attempt went: a clean run
      records the trimmed input text, the trimmed output and whether it equals
      `expected`; a failed run records the error and its standard error; an input
      that could not be built records the conversion's error, with no standard error. */
  function Judge(i: nat, tc: TestCase, a: Attempt): (o: Outcome)
    ensures o.testCaseId == i && o.expected == tc.expected
    ensures o.Passed() <==> a.Clean() && Trim(a.run.stdout) == tc.expected
    ensures a.Unfed? ==> o.Crashed? && o.error == a.message && o.stderr == ""
  {
    match a
    case Unfed(m) => Crashed(i, tc.input, tc.expected, m, "")
    case Fed(text, r) =>
      if r.Finished? then
        Ran(i, JStr(Trim(text)), tc.expected, Trim(r.stdout), Trim(r.stdout) == tc.expected)
      else
        Crashed(i, tc.input, tc.expected, RunMessage(r), ErrText(r))
  }

  /** `results` after the loop has handled `tcs`, whose attempts went as `runs`: one
      outcome per test case, at the test case's own index. */
  function Results(tcs: seq<TestCase>, runs: seq<Attempt>): (rs: seq<Outcome>)
    requires |runs| == |tcs|
    ensures |rs| == |tcs|
  {
    seq(|tcs|, i requires 0 <= i < |tcs| => Judge(i, tcs[i], runs[i]))
  }

  /** `generatedResults` after the loop has handled `tcs`: clean runs only. */
  function GeneratedOf(tcs: seq<TestCase>, runs: seq<Attempt>): seq<Generated>
    requires |runs| == |tcs|
    decreases |tcs|
  {
    if tcs == [] then []
    else
      var n := |tcs| - 1;
      var prev := GeneratedOf(tcs[..n], runs[..n]);
      if runs[n].Clean() then prev + [Generated(tcs[n].input, Trim(runs[n].run.stdout))] else prev
  }

  /** The `actual` values of the outcomes that ran cleanly, in order. */
  function RanActuals(rs: seq<Outcome>): seq<string> {
    if rs == [] then []
    else RanActuals(rs[..|rs| - 1]) + (if rs[|rs| - 1].Ran? then [rs[|rs| - 1].actual] else [])
  }

  function Expecteds(gs: seq<Generated>): seq<string> {
    if gs == [] then [] else Expecteds(gs[..|gs| - 1]) + [gs[|gs| - 1].expected]
  }

  /** Handling one more test case appends exactly its outcome. */
  lemma ResultsSnoc(tcs: seq<TestCase>, runs: seq<Attempt>, a: Attempt, n: nat)
    requires n < |tcs| && |runs| == n
    ensures Results(tcs[..n + 1], runs + [a]) == Results(tcs[..n], runs) + [Judge(n, tcs[n], a)]
  {
    var x, y := Results(tcs[..n + 1], runs + [a]), Results(tcs[..n], runs) + [Judge(n, tcs[n], a)];
    forall i | 0 <= i < n + 1 ensures x[i] == y[i] {
      if i < n {
        assert tcs[..n + 1][i] == tcs[..n][i] && (runs + [a])[i] == runs[i];
      }
    }
  }

  /** Handling one more test case appends its generated entry when it ran cleanly. */
  lemma GeneratedSnoc(tcs: seq<TestCase>, runs: seq<Attempt>, a: Attempt, n: nat)
    requires n < |tcs| && |runs| == n
    ensures GeneratedOf(tcs[..n + 1], runs + [a]) ==
      GeneratedOf(tcs[..n], runs) + (if a.Clean() then [Generated(tcs[n].input, Trim(a.run.stdout))] else [])
  {
    assert tcs[..n + 1][..n] == tcs[..n] && tcs[..n + 1][n] == tcs[n];
    assert (runs + [a])[..n] == runs && (runs + [a])[n] == a;
  }

  lemma RunsSnoc(s: Setup, tcs: seq<TestCase>, n: nat)
    requires n < |tcs|
    ensures Runs(s, tcs[..n + 1]) == Runs(s, tcs[..n]) + [RunOf(s, tcs[n])]
  {
    assert tcs[..n + 1][..n] == tcs[..n] && tcs[..n + 1][n] == tcs[n];
  }

  /** The `expected` values of `generatedResults` are the `actual` values of the clean
      runs, in the same order, and a test case whose run failed, or whose input could
      not be built, contributes nothing. */
  lemma {:induction false} GeneratedMatchesRuns(tcs: seq<TestCase>, runs: seq<Attempt>)
    requires |runs| == |tcs|
    ensures Expecteds(GeneratedOf(tcs, runs)) == RanActuals(Results(tcs, runs))
    decreases |tcs|
  {
    if tcs != [] {
      var n := |tcs| - 1;
      GeneratedMatchesRuns(tcs[..n], runs[..n]);
      var rs := Results(tcs, runs);
      assert rs[..n] == Results(tcs[..n], runs[..n]);
      var gs := GeneratedOf(tcs, runs);
      if runs[n].Clean() {
        assert gs[..|gs| - 1] == GeneratedOf(tcs[..n], runs[..n]);
      }
    }
  }

  /** When every program run is clean, `generatedResults` pairs every input with its
      trimmed output. */
  lemma {:induction false} GeneratedWhenAllRan(tcs: seq<TestCase>, runs: seq<Attempt>)
    requires |runs| == |tcs|
    requires forall i :: 0 <= i < |runs| ==> runs[i].Clean()
    ensures |GeneratedOf(tcs, runs)| == |tcs|
    ensures forall i :: 0 <= i < |tcs| ==> runs[i].Clean() && GeneratedOf(tcs, runs)[i] == Generated(tcs[i].input, Trim(runs[i].run.stdout))
    decreases |tcs|
  {
    if tcs != [] {
      var n := |tcs| - 1;
      assert forall i :: 0 <= i < n ==> tcs[..n][i] == tcs[i] && runs[..n][i] == runs[i];
      GeneratedWhenAllRan(tcs[..n], runs[..n]);
    }
  }

  /** `allPassed` holds exactly when every test case's program ran cleanly and its
      trimmed output equals its (untrimmed) `expected`. */
  lemma AllPassedIff(tcs: seq<TestCase>, runs: seq<Attempt>)
    requires |runs| == |tcs|
    ensures Every(Results(tcs, runs)) <==>
      forall i :: 0 <= i < |tcs| ==> runs[i].Clean() && Trim(runs[i].run.stdout) == tcs[i].expected
  {
    var rs := Results(tcs, runs);
    EveryIff(rs);
    assert forall i :: 0 <= i < |tcs| ==> rs[i] == Judge(i, tcs[i], runs[i]);
  }

  /** Over the whole loop: one outcome per test case, at its own index, passing exactly
      when that test case's program ran cleanly with trimmed output equal to
      `expected`; a test case whose input cannot be converted is recorded as a failure
      with the conversion's error; and `every` holds exactly when all outcomes pass. */
  lemma LoopOutcomes(s: Setup, tcs: seq<TestCase>)
    ensures var rs := Results(tcs, Runs(s, tcs));
      && |rs| == |tcs|
      && (forall i :: 0 <= i < |rs| ==> rs[i].testCaseId == i && rs[i].expected == tcs[i].expected)
      && (forall i :: 0 <= i < |rs| ==>
            (rs[i].Passed() <==> RunOf(s, tcs[i]).Clean() && Trim(RunOf(s, tcs[i]).run.stdout) == tcs[i].expected))
      && (forall i :: 0 <= i < |rs| && StdinText(tcs[i].input, s.flatten).Abrupt? ==>
            rs[i] == Crashed(i, tcs[i].input, tcs[i].expected, NoPrimitive, ""))
      && (Every(rs) <==> forall i :: 0 <= i < |rs| ==> rs[i].Passed())
  {
    var rs := Results(tcs, Runs(s, tcs));
    forall i | 0 <= i < |rs|
      ensures rs[i].Passed() <==> RunOf(s, tcs[i]).Clean() && Trim(RunOf(s, tcs[i]).run.stdout) == tcs[i].expected
      ensures StdinText(tcs[i].input, s.flatten).Abrupt? ==> rs[i] == Crashed(i, tcs[i].input, tcs[i].expected, NoPrimitive, "")
    {
      RunsAt(s, tcs, i);
    }
    EveryIff(rs);
  }

  /** The loop of `execute`: test cases in order, one outcome each, a failed run or an
      input that cannot be built recorded without stopping the loop. */
  method RunTests(s: Setup, tcs: seq<TestCase>) returns (results: seq<Outcome>, generated: seq<Generated>)
    ensures results == Results(tcs, Runs(s, tcs))
    ensures generated == GeneratedOf(tcs, Runs(s, tcs))
  {
    results, generated := [], [];
    ghost var runs: seq<Attempt> := [];
    var index := 0;
    while index < |tcs|
      invariant 0 <= index <= |tcs|
      invariant runs == Runs(s, tcs[..index])
      invariant results == Results(tcs[..index], runs)
      invariant generated == GeneratedOf(tcs[..index], runs)
    {
      var testCase := tcs[index];
      var a: Attempt;
      var input := StdinText(testCase.input, s.flatten);
      if input.Abrupt? {
        a := Unfed(input.message);
      } else {
        var r := Lookup(s.runs, Call(s.program, Stdin(input.value), s.timeout));
        a := Fed(input.value, r);
        if r.Finished? {
          generated := generated + [Generated(testCase.input, Trim(r.stdout))];
        }
      }
      results := results + [Judge(index, testCase, a)];
      ResultsSnoc(tcs, runs, a, index);
      GeneratedSnoc(tcs, runs, a, index);
      RunsSnoc(s, tcs, index);
      runs := runs + [a];
      index := index + 1;
    }
    assert tcs[..index] == tcs;
  }
}
