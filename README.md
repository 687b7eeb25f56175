# ElitecodeAi code execution and test-case generation, modelled in Dafny

ElitecodeAi is a coding-practice site with two parts, and this project models the core of each.

The code-execution server (`QuickCode_Server`) works like this:
- A WebSocket gateway turns a submission into a job.
- The `RedisManager` broker pushes the job onto the Redis list `message`.
- The broker then waits for the result on a channel named after the job id.
- A worker pops jobs from the other end of that list.
- The worker runs each job with the runner for its language (C++, Java, JavaScript or Python).
- The worker publishes the result on the job's channel.
- Each runner writes the program to a temporary directory and compiles it when needed.
- Each runner feeds every test case's input to the program's standard input, or to its argument list for Python.
- It compares the trimmed output with `expected`, records one outcome per test case and cleans its files up.

The Next.js application (`QuickCode`) contributes three pieces:
- Test-case generation post-processes a model's reply. It repairs a reply that was cut off, validates and truncates the parsed entries, and expands shorthand inputs such as `a*3b*2` into `aaabb`.
- A daily request limiter applies to free accounts.
- All API routes share the success and error envelopes.

Modules and what they model:
- **Json, Text**: JSON values as JavaScript sees them, including when converting one to a string throws, together with the string functions the code relies on. These are `trim`, `split(/\s+/)`, `lastIndexOf`, `String(n)` and `repeat`.
- **Jobs, Sandbox, Workspace**:
  - a job, its per-test outcomes and its result;
  - the behaviour of the toolchain and of the submitted program, given as a table (a parameter);
  - the temporary directory, as a class whose file set the runners change.
- **ExecRunner**: the test loop shared by the C++, Java and JavaScript runners, as a method proved against specification functions.
- **CppRunner, JsRunner, JavaRunner, JavaSource, PythonRunner**: each runner's `execute`, including its error paths and its cleanup.
  - The Java runner also covers the class-name derivation, `extractClassName` and `prepareJavaCode`.
  - The Python runner covers both of its variants: the shell one the worker uses, and the spawn-based one below it.
- **Worker**: one pass of the worker loop.
- **Redis**: the list and channels the server parts share.
- **Broker**: `RedisManager`.
- **Gateway**: the WebSocket message handler.
- **TestCases, Shorthand**: `parseTestCaseJSArray` from the repair step on, and also `truncateString`, `normalizeExpression`, `expandShorthandString` and `expandTestCaseObject`.
- **RateLimit**: `limitCheker`.
- **Response**: `successResponse` and `errorResponse`.

Where the code and its description disagree, the model follows the code:
- **Worker:** `JavaTestRunner.execute` and `JsTestRunner.execute` are instance methods that the worker calls on the class. Java and JavaScript jobs therefore end the worker process, and the worker's JavaScript branch never writes its `results:<id>` list.
- **Broker:** the broker pushes the job before it subscribes to the job's channel. A result published before the subscription is in place is lost.
- **Shorthand:** the third `replace` in `expandShorthandString` substitutes each match by itself, so the model treats it as the identity.
- **TestCases:** the `< 2000` length test on the first input always holds, because the input has already been truncated to 1000 characters.
- **RateLimit:**
  - A free account is refused only when its count is exactly 3.
  - A missing `reduceCount` turns the count into `NaN`. Saving that count fails, and the error response follows.
  - For an unknown user, only the 400 response goes out. The code goes on to read the missing record, and its handler's 500 response comes after the 400 has already gone out, so it throws `ERR_HTTP_HEADERS_SENT` and the call rejects.

## Model

| member | source | states |
|---|---|---|
| Text.TrimEnds | QuickCode_Server/Worker-1/src/cpp_runner.js:91-94 | a trimmed output neither starts nor ends with white space |
| Text.TrimDropsSpaces | QuickCode_Server/Worker-1/src/cpp_runner.js:91-94 | trimming removes only white space: the input is white space, then the trimmed text, then white space |
| Text.TrimIdempotent | QuickCode_Server/Worker-1/src/python_runner.js:130-134 | trimming an already trimmed output changes nothing, so the Python runner's double trim equals a single trim |
| Text.TokensAreWords | QuickCode_Server/Worker-1/src/python_runner.js:89-95 | `split(/\s+/)` followed by the length filter yields only non-empty arguments without white space |
| Text.TokensKeepText | QuickCode_Server/Worker-1/src/python_runner.js:89-95 | joined back together, the arguments are the input with its white space removed, so no other character is lost |
| Text.LastIndexOf | QuickCode/src/pages/api/problem/generate/tests/index.js:118 | `lastIndexOf` gives an index where the pattern occurs with no later occurrence, or -1 when it never occurs |
| Text.ReplaceChar | QuickCode_Server/Worker-1/src/java_runner.js:125 | `replace(/-/g, "_")` keeps the length and maps each `-` to `_` and every other character to itself |
| Text.DigitsValueOfDecimal | QuickCode/src/pages/api/problem/generate/tests/index.js:357 | `Number` reads back the value of a rendered count |
| Json.Flat | QuickCode_Server/Worker-1/src/java_runner.js:142-144 | `flat()` leaves an array without nested arrays unchanged |
| Json.FlatAppend | QuickCode_Server/Worker-1/src/java_runner.js:142-144 | `flat()` works element by element: flattening two arrays put together gives the two flattenings put together |
| Json.FlatNested | QuickCode_Server/Worker-1/src/java_runner.js:142-144 | a nested array is replaced by its own elements, one level deep and no further |
| Json.FlatScalar | QuickCode_Server/Worker-1/src/java_runner.js:142-144 | an element that is not an array stays as it is |
| Json.JoinItemsIsJoin | QuickCode_Server/Worker-1/src/cpp_runner.js:79-81 | `join` on JSON values is `join` on their renderings, with `null` rendered as the empty string |
| Json.StringOf | QuickCode/src/pages/api/problem/generate/tests/index.js:250-254 | `String(v)` throws a `TypeError` exactly when `v` is an object with its own `toString` key, or an array with an element that cannot be converted (at any depth); otherwise it gives the value's text |
| Json.CallToString | QuickCode_Server/Worker-1/src/python_runner.js:80 | `v.toString()` throws exactly when `v` is `null` or cannot be converted. On `null` the error is the null read; on an own `toString` key it is "`<receiver>`.toString is not a function"; on an array it is the conversion error of `join`. Otherwise it gives the value's text |
| Json.FlatStringable | QuickCode_Server/Worker-1/src/java_runner.js:142-144 | after `flat()`, every element converts exactly when every element of the original array does |
| Jobs.EveryIff | QuickCode_Server/Worker-1/src/cpp_runner.js:117 | `allPassed` (`every`) holds exactly when every outcome passed |
| Jobs.FirstFailedSpec | QuickCode_Server/Worker-1/src/python_runner.js:181 | `find` gives nothing exactly when all passed; otherwise it gives a failing outcome that has only passing outcomes before it |
| Sandbox.TimeoutOr | QuickCode_Server/Worker-1/src/cpp_runner.js:86 | the job's own time limit when it is non-zero, otherwise the runner's default |
| Workspace.TempDir.Write | QuickCode_Server/Worker-1/src/cpp_runner.js:72 | writing a file adds exactly that name to the directory |
| Workspace.TempDir.Cleanup | QuickCode_Server/Worker-1/src/cpp_runner.js:132-138 | cleanup removes exactly the listed files, and the absent ones are skipped without error |
| ExecRunner.StdinText | QuickCode_Server/Worker-1/src/cpp_runner.js:79-81 | for an array input, the text fed to the program is its elements, flattened one level first when the runner flattens (Java), rendered and joined by single spaces; any other input is fed as its string form. Either way, one newline ends the text. Building the text throws a `TypeError`, and the program is not started, exactly when the input is an object with its own `toString` key or an array with an element that cannot be converted |
| ExecRunner.RunMessage | QuickCode_Server/Worker-1/src/cpp_runner.js:43-63 | a failed run is reported with its standard error, or with "Runtime error" when that is empty, and never with an empty message |
| ExecRunner.Judge | QuickCode_Server/Worker-1/src/cpp_runner.js:88-109 | an outcome carries its test case's index and `expected`, and passes exactly when the program ran, finished, and its trimmed output equals `expected`. When the input text could not be built, the outcome is a failure carrying the conversion's error and an empty `stderr` |
| ExecRunner.RunsAt | QuickCode_Server/Worker-1/src/cpp_runner.js:77-87 | the i-th attempt is test case i's input fed to the program under the job's time limit, or the conversion error when that input cannot be built |
| ExecRunner.GeneratedMatchesRuns | QuickCode_Server/Worker-1/src/cpp_runner.js:96-99 | the generated `expected` values are the `actual` values of the clean runs, in order, and a failed run or an input that cannot be built contributes nothing |
| ExecRunner.GeneratedWhenAllRan | QuickCode_Server/Worker-1/src/cpp_runner.js:96-99 | when no run fails, every input is paired with its own trimmed output |
| ExecRunner.AllPassedIff | QuickCode_Server/Worker-1/src/cpp_runner.js:117 | `allPassed` holds exactly when every run finished and its trimmed output equals its `expected` |
| ExecRunner.LoopOutcomes | QuickCode_Server/Worker-1/src/cpp_runner.js:77-118 | the loop gives one outcome per test case, at the test case's own index; each outcome passes exactly as its own run decides, and a test case whose input cannot be built is recorded as a failure with the `TypeError`'s message and an empty `stderr` |
| ExecRunner.RunTests | QuickCode_Server/Worker-1/src/cpp_runner.js:75-111 | the loop handles the test cases in order and goes on after a failed run or an input that cannot be built; its `results` and `generatedResults` are those of the specification functions |
| CppRunner.CppResult | QuickCode_Server/Worker-1/src/cpp_runner.js:65-130 | the job completes exactly when the source is written and the compiler produces the binary; otherwise it is a compilation error, with "Compilation failed" when the write succeeded |
| CppRunner.CompletedSpec | QuickCode_Server/Worker-1/src/cpp_runner.js:71-118 | a completed job carries one outcome per test case from the shared loop, and `allPassed` is `every` over them |
| CppRunner.Execute | QuickCode_Server/Worker-1/src/cpp_runner.js:65-138 | the result is `CppResult`; the source and the binary are gone afterwards, and the compiler's other products remain |
| JsRunner.JsResult | QuickCode_Server/Worker-1/src/js_runner.js:44-105 | the job completes exactly when the script is written; a failed write is reported with its error, with no compilation flag and no runtime flag |
| JsRunner.CompletedSpec | QuickCode_Server/Worker-1/src/js_runner.js:48-94 | a completed job carries the shared loop's outcomes for `node` on the script, and `allPassed` is `every` over them |
| JsRunner.Execute | QuickCode_Server/Worker-1/src/js_runner.js:44-114 | the result is `JsResult`, and exactly the script is removed |
| JavaSource.ClassName | QuickCode_Server/Worker-1/src/java_runner.js:125 | the class name is `Solution_` followed by the id with every `-` replaced, so it has 9 more characters than the id and contains no `-` |
| JavaSource.ClassNameInjective | QuickCode_Server/Worker-1/src/java_runner.js:125 | distinct UUID job ids give distinct class names |
| JavaSource.ClassNameIsWord | QuickCode_Server/Worker-1/src/java_runner.js:125 | the class name of a UUID id is made of word characters only |
| JavaSource.ClassFilesIsolated | QuickCode_Server/Worker-1/src/java_runner.js:193-201 | the prefix-based cleanup of one job selects its own class file and every nested class file (`<name>...class`). It never selects any file whose name starts with another job's class name, including that job's nested class files |
| JavaSource.LastMain | QuickCode_Server/Worker-1/src/java_runner.js:29-31 | the position of the last `public static void main`, with none after it, or -1 |
| JavaSource.Leftmost | QuickCode_Server/Worker-1/src/java_runner.js:22-37 | `match` finds the leftmost position where a pattern matches, or reports that it matches nowhere |
| JavaSource.CaptureSpec | QuickCode_Server/Worker-1/src/java_runner.js:24-34 | the captured group is a non-empty run of word characters that follows the keywords; in the second pattern, a main declaration follows it |
| JavaSource.ExtractClassName | QuickCode_Server/Worker-1/src/java_runner.js:22-37 | the name found is always a non-empty word |
| JavaSource.ExtractDefault | QuickCode_Server/Worker-1/src/java_runner.js:35-36 | code that never says `class` gets the name `Main` |
| JavaSource.ExtractDeclaredName | QuickCode_Server/Worker-1/src/java_runner.js:24-27 | code that opens with `public class Name` gets `Name` |
| JavaSource.PrepareWraps | QuickCode_Server/Worker-1/src/java_runner.js:86-116 | the test is textual. Code whose text contains neither `public class` nor `class <name>` is wrapped whole into `public class <name>`. Without the text `public static void main`, the code becomes the body of the template's `main`, right after the line that opens the `Scanner` and right before the line that closes it. With that text, the code becomes the class body |
| JavaSource.PrepareRenames | QuickCode_Server/Worker-1/src/java_runner.js:118-119 | otherwise the first `public class X` is renamed to `public class <name>`, and the text around it is kept |
| JavaRunner.JavaResult | QuickCode_Server/Worker-1/src/java_runner.js:122-190 | the job completes exactly when the prepared source is written and `javac` produces the class file; otherwise it is a compilation error |
| JavaRunner.CompletedSpec | QuickCode_Server/Worker-1/src/java_runner.js:128-182 | a completed job carries the shared loop's outcomes with array inputs flattened one level, and `allPassed` is `every` over them |
| JavaRunner.ClassFilesIn | QuickCode_Server/Worker-1/src/java_runner.js:195-200 | the selected files are exactly the class files of this class present in the directory |
| JavaRunner.ListClassFiles | QuickCode_Server/Worker-1/src/java_runner.js:195-200 | the listing holds each selected class file once and nothing else |
| JavaRunner.RemoveClassFiles | QuickCode_Server/Worker-1/src/java_runner.js:191-202 | the cleanup removes the source and every class file of the class, and nothing else |
| JavaRunner.Execute | QuickCode_Server/Worker-1/src/java_runner.js:122-203 | the result is `JavaResult`, and the directory afterwards has lost exactly the source and the class files of this class |
| PythonRunner.ItemArgsNone | QuickCode_Server/Worker-1/src/python_runner.js:75-88 | reading the arguments of an array throws exactly when one of its elements' `item.toString()` throws: the element is `null`, an object with its own `toString` key, or an array holding such an object. The error is that of the first such element |
| PythonRunner.ArgsOfSpec | QuickCode_Server/Worker-1/src/python_runner.js:67-99 | `parseInput` throws exactly on a `null` input, on an object with its own `toString` key, or on an array with an element that cannot be converted; a single value's error is the null read or "testCase.input.toString is not a function". Otherwise every argument is non-empty and free of white space |
| PythonRunner.SingleArgs | QuickCode_Server/Worker-1/src/python_runner.js:88-98 | a single input throws exactly when it is `null` or an object with its own `toString` key, with the matching error; otherwise its arguments are non-empty and free of white space |
| PythonRunner.ParseInput | QuickCode_Server/Worker-1/src/python_runner.js:67-99 | the loop over the elements computes exactly the specified arguments, or throws the first element's error |
| PythonRunner.ShellFailure | QuickCode_Server/Worker-1/src/python_runner.js:37-63 | the shell variant never rejects with an empty message |
| PythonRunner.SpawnFailure | QuickCode_Server/Worker-1/src/python_runner.js:249-275 | the spawn variant never rejects with an empty message |
| PythonRunner.PyJudge | QuickCode_Server/Worker-1/src/python_runner.js:114-171 | an outcome carries its index and its raw input, and passes exactly when the script ran and its trimmed output equals the trimmed `expected`; when `parseInput` throws, the outcome is a failure carrying that error |
| PythonRunner.PassedIff | QuickCode_Server/Worker-1/src/python_runner.js:126-134 | a test case passes exactly when its arguments parse, the script finishes, and its trimmed output equals the trimmed `expected` |
| PythonRunner.GeneratedFor | QuickCode_Server/Worker-1/src/python_runner.js:144-170 | the shell variant records one generated entry per test case, including `ERROR` entries, while the spawn variant records one only for a clean run |
| PythonRunner.ShellGeneratedComplete | QuickCode_Server/Worker-1/src/python_runner.js:144-170 | in the shell variant, `generatedResults` pairs every input in order, failures included |
| PythonRunner.SpawnGeneratedCount | QuickCode_Server/Worker-1/src/python_runner.js:330-338 | in the spawn variant, `generatedResults` lists exactly the clean runs' inputs, in order |
| PythonRunner.FailedFieldSpec | QuickCode_Server/Worker-1/src/python_runner.js:181 | the two variants' `failedTestCase` agree; it is `null` exactly when all passed, and otherwise it is the first failing outcome |
| PythonRunner.PyResult | QuickCode_Server/Worker-1/src/python_runner.js:101-197 | the job completes exactly when the script is written; otherwise it is a runtime error with an empty stderr |
| PythonRunner.CompletedSpec | QuickCode_Server/Worker-1/src/python_runner.js:113-182 | a completed job carries one outcome per test case, passing exactly as `PassedIff` says, and `allPassed` is `every` over them |
| PythonRunner.RunTests | QuickCode_Server/Worker-1/src/python_runner.js:114-172 | the loop's `results` and `generatedResults` are those of the specification functions |
| PythonRunner.Execute | QuickCode_Server/Worker-1/src/python_runner.js:101-197 | the result is `PyResult`, and exactly the script is removed |
| Worker.Worker.constructor | QuickCode_Server/Worker-1/src/index.js:8-9 | the worker starts alive, with the two runners' separate directories |
| Worker.Worker.Step | QuickCode_Server/Worker-1/src/index.js:15-63 | an empty pop changes nothing. A C++ or Python job is popped from the right and answered with its runner's result on the channel named by its id. A Java or JavaScript job stops the worker and publishes nothing. Any other job is dropped |
| Redis.Store.PushJob | QuickCode_Server/backend/src/RedisManager.js:41 | `lPush` puts the job at the left end and touches nothing else |
| Redis.Store.PopJob | QuickCode_Server/Worker-1/src/index.js:16-17 | `brPop` takes the job at the right end, or returns nothing from an empty list |
| Redis.Store.Publish | QuickCode_Server/Worker-1/src/index.js:28 | publishing appends one message on the named channel |
| Redis.Store.PushResult | QuickCode_Server/Worker-1/src/index.js:49-52 | `lPush` on `results:<id>` prepends to that list only |
| Redis.FirstInFirstOut | QuickCode_Server/backend/src/RedisManager.js:41 | jobs pushed on the left are popped on the right in the order they were sent, after every job already waiting |
| Broker.Manager.constructor | QuickCode_Server/backend/src/RedisManager.js:7-12 | a new manager has closed connections, no subscriptions and no pending replies |
| Broker.Manager.Init | QuickCode_Server/backend/src/RedisManager.js:14-20 | `init` opens the connections and changes nothing else |
| Broker.Manager.SendToWorker | QuickCode_Server/backend/src/RedisManager.js:31-69 | with no job or a closed publisher, nothing happens and the call returns `undefined`. Otherwise the job, tagged with the fresh id, is pushed onto `message` and only then is the id's channel subscribed, and the call returns a pending reply |
| Broker.Manager.OnMessage | QuickCode_Server/backend/src/RedisManager.js:50-60 | a message on a subscribed channel settles its reply (resolved, or rejected when it does not parse) unsubscribes the channel and removes every `message` and `error` listener of the shared subscriber; other channels are ignored |
| Broker.Registry.Construct | QuickCode_Server/backend/src/RedisManager.js:7-12 | the constructor returns the existing instance when there is one, and otherwise registers a fresh one |
| Broker.Registry.GetInstance | QuickCode_Server/backend/src/RedisManager.js:22-29 | `getInstance` returns the existing instance untouched, or a fresh, connected one |
| Gateway.BuildJob | QuickCode_Server/backend/src/index.js:14-19 | the job carries the submission's code, language and test cases, with a 2000 ms limit |
| Gateway.CompileMessage | QuickCode_Server/backend/src/index.js:49-55 | the compilation error message is "compilation error ", then the stderr, then a space |
| Gateway.ChooseReply | QuickCode_Server/backend/src/index.js:24-56 | the intended reply. Without a result there is no reply. Otherwise `exampleTestCases` gets the raw results, then `all` gets the generated data, a passed job gets `allPassed: true`, a failed job gets its first failing test case, and a job that did not complete gets the compilation error |
| Gateway.FindFailed | QuickCode_Server/backend/src/index.js:38-44 | the search loop, with its variable declared, finds the first failing outcome, or none exactly when all passed |
| Gateway.Handle | QuickCode_Server/backend/src/index.js:10-57 | the handler sends the reply `ChooseReply` gives |
| Gateway.FailedReplyNamesFirstFailure | QuickCode_Server/backend/src/index.js:37-47 | for a runner's result that did not pass, the reply names a failing outcome, never `null`, with only passing outcomes before it |
| Gateway.ChooseReplyAsWritten | QuickCode_Server/backend/src/index.js:38-44 | as written, a failed job with at least one result gets no reply, because the handler throws before it sends |
| Gateway.AsWrittenDiffers | QuickCode_Server/backend/src/index.js:38-44 | the written and the intended handler differ exactly on failed jobs with at least one result |
| Gateway.FailingSubmissionUnanswered | QuickCode_Server/backend/src/index.js:39 | a C++ submission whose single test fails is answered by the intended handler and not by the written one |
| TestCases.RepairTruncation | QuickCode/src/pages/api/problem/generate/tests/index.js:113-131 | content ending in `]` or `}` is kept. Otherwise the content is cut after its last `"}` and closed with `]`. Failing that, `"}]` is appended when there is a `[`. The result is closed exactly when one of these applied |
| TestCases.RepairIdempotent | QuickCode/src/pages/api/problem/generate/tests/index.js:113-131 | a repaired reply needs no second repair |
| TestCases.ProcessedInput | QuickCode/src/pages/api/problem/generate/tests/index.js:250-252 | `String` throws exactly when the input, or for an array one of its elements, cannot be converted. Otherwise an array input gives one string per element and any other input gives one string, each the value's text cut to 1000 characters |
| TestCases.Check | QuickCode/src/pages/api/problem/generate/tests/index.js:247-281 | the entry throws exactly when it is faulty: a `null` entry (reading `input`), an entry with a truthy `input` and its own `hasOwnProperty` key ("tc.hasOwnProperty is not a function"), or an entry with both fields whose `input` or `expected` `String` cannot convert. An entry is kept exactly when it has a truthy `input` and an own `expected`, is not faulty, and has a first input on one line; it is kept with its truncated inputs and `expected` |
| TestCases.ScreenSpec | QuickCode/src/pages/api/problem/generate/tests/index.js:245-282 | the loop throws exactly when some entry is faulty, with the error of the first faulty entry; otherwise it keeps exactly the clean entries, each within 1000 characters, and never more than it was given |
| TestCases.ScreenThrows | QuickCode/src/pages/api/problem/generate/tests/index.js:246-254 | the loop throws exactly when some entry is faulty, and its error is that of the first faulty entry |
| TestCases.ScreenKeeps | QuickCode/src/pages/api/problem/generate/tests/index.js:245-282 | the kept cases are exactly the checks' kept cases, and there are no more of them than entries |
| TestCases.ScreenClean | QuickCode/src/pages/api/problem/generate/tests/index.js:254-267 | every kept string is within 1000 characters, and every kept first input is on one line |
| TestCases.ValidateSpec | QuickCode/src/pages/api/problem/generate/tests/index.js:235-320 | a failure's error starts with the common prefix, and a success holds at least one clean case. It fails exactly when the value is not an array, is empty, holds a faulty entry, or keeps nothing |
| TestCases.ScreenEntries | QuickCode/src/pages/api/problem/generate/tests/index.js:245-282 | the validation loop computes what the specification gives |
| TestCases.ValidateParsed | QuickCode/src/pages/api/problem/generate/tests/index.js:235-320 | the structure checks, the loop and the error wrapping compute `Validate` |
| TestCases.ExpandOneSpec | QuickCode/src/pages/api/problem/generate/tests/index.js:374-375 | an expanded string is within 1000 characters, and a short string without `*` is kept as it is |
| TestCases.ExpandOneOfShorthand | QuickCode/src/pages/api/problem/generate/tests/index.js:374-375 | a string with multipliers becomes their expansions, concatenated in order and cut to 1000 characters |
| TestCases.ExpandAllAt | QuickCode/src/pages/api/problem/generate/tests/index.js:373-376 | the i-th expanded input is input i, expanded |
| TestCases.ExpandAllBounded | QuickCode/src/pages/api/problem/generate/tests/index.js:375 | every expanded input is within 1000 characters |
| TestCases.ExpandInputs | QuickCode/src/pages/api/problem/generate/tests/index.js:371-376 | the loop computes one expanded string per input, in order |
| TestCases.ExpandTestCaseObject | QuickCode/src/pages/api/problem/generate/tests/index.js:370-385 | the case keeps its number of inputs, every string is expanded, and all of them are within 1000 characters |
| Shorthand.Truncate | QuickCode/src/pages/api/problem/generate/tests/index.js:33-41 | `truncateString` gives the first `maxLength` characters of a longer string and leaves a shorter one unchanged |
| Shorthand.MultipliersWellFormed | QuickCode/src/pages/api/problem/generate/tests/index.js:328 | every match of `[a-zA-Z ]*\*\d+` consists of letters or blanks, a `*` and at least one digit |
| Shorthand.Normalize | QuickCode/src/pages/api/problem/generate/tests/index.js:323-337 | text without `*` is left unchanged |
| Shorthand.LastQuote | QuickCode/src/pages/api/problem/generate/tests/index.js:354 | the greedy `(.+)"` stops at the last quote of the part |
| Shorthand.RepeatFormOf | QuickCode/src/pages/api/problem/generate/tests/index.js:354-360 | a quoted multiplier with letters matches the repeat pattern with its own letters and count; one without letters matches neither quoted form |
| Shorthand.ExpandPart | QuickCode/src/pages/api/problem/generate/tests/index.js:351-366 | every expanded part is within 1000 characters |
| Shorthand.ExpandShorthand | QuickCode/src/pages/api/problem/generate/tests/index.js:339-368 | text without `*` is left unchanged |
| Shorthand.NormalizedKept | QuickCode/src/pages/api/problem/generate/tests/index.js:343-345 | the two joining `replace` calls leave a normalized expression unchanged |
| Shorthand.SplitFirst | QuickCode/src/pages/api/problem/generate/tests/index.js:350 | `split("+")` cuts at the first separator |
| Shorthand.ExpandPartOf | QuickCode/src/pages/api/problem/generate/tests/index.js:351-366 | a part cut out of a normalized expression expands to what its multiplier stands for |
| Shorthand.ExpandPartsOf | QuickCode/src/pages/api/problem/generate/tests/index.js:349-367 | the parts of a normalized expression expand to the multipliers' expansions, in order |
| Shorthand.ExpandJoined | QuickCode/src/pages/api/problem/generate/tests/index.js:339-368 | expanding the normalized text of well-formed multipliers gives their expansions |
| Shorthand.ExpandNormalized | QuickCode/src/pages/api/problem/generate/tests/index.js:323-368 | normalizing and then expanding gives, for each `letters*count` in the original, the letters repeated `min(count, 500)` times and cut to 1000 characters, concatenated in order |
| Shorthand.MultipliersExample | QuickCode/src/pages/api/problem/generate/tests/index.js:327-328 | `a*3b*2` holds the two multipliers `a*3` and `b*2` |
| Shorthand.ExpandExample | QuickCode/src/pages/api/problem/generate/tests/index.js:323-368 | `a*3b*2` expands to `aaabb` |
| RateLimit.Limit | QuickCode/src/middleware/limitCheker.js:13-32 | a premium account always passes with its record unchanged. A new day passes and restarts the count at 1. On the same day a call is refused exactly when the count is 3, and otherwise the count grows by the cost; a missing cost takes the error path |
| RateLimit.PremiumNeverLimited | QuickCode/src/middleware/limitCheker.js:13-15 | a premium account is never refused and its record never changes |
| RateLimit.UnitCostsCapped | QuickCode/src/middleware/limitCheker.js:19-31 | with a cost of 1 per call, a free account that has used c ≤ 3 calls today is allowed exactly 3 − c more, and every later call is refused |
| RateLimit.OvershootNeverDenied | QuickCode/src/middleware/limitCheker.js:25-30 | because only a count of exactly 3 is refused, a count already past 3 on the same day is never refused again |
| RateLimit.Responder.Send | QuickCode/src/middleware/limitCheker.js:8-10 | a response goes out only when nothing has been sent on the request yet; a later send throws and changes nothing |
| RateLimit.Check | QuickCode/src/middleware/limitCheker.js:4-39 | an unknown user gets only the 400 response, and the call rejects: the later 500 response throws because a response already went out. For a known user, the saved record is that of `Limit`. Only the error path sends a response, and the call also rejects when a response had already been sent on the request. Otherwise the outcome is that of `Limit` |
| Response.SuccessResponse | QuickCode/src/utils/response.js:1-16 | the envelope is exactly `status: true` and `content`, and `content` holds `meta` or `data` exactly when that argument is truthy |
| Response.ErrorResponse | QuickCode/src/utils/response.js:18-28 | the envelope is `status: false` with `content.error` holding exactly `code` and `message`, and the code defaults to `INTERNAL_SERVER_ERROR` |
| Response.EnvelopesReadBack | QuickCode/src/utils/response.js:1-28 | a client reads back the data that was sent when it is truthy; a success envelope carries no error, and an error envelope carries no data but its own code and message |
| Response.StatusTellsApart | QuickCode/src/utils/response.js:1-28 | a success envelope never equals an error envelope |

## Left out

- **Processes, files and networking.** Process spawning, the file system, Redis networking and the WebSocket transport are replaced by their effects. Program behaviour is a table parameter, the temporary directory is a set of file names, and Redis is a class holding lists and a log of publications.
- **Clock and randomness.** The calendar day and the `v4()` job id are parameters.
- **Console output.** Logging is not modelled.
- **setupTempDir.** Creating the temporary directories is not modelled; each directory is assumed to exist.
- **Numbers.** JSON numbers are integers; floating point is not modelled.
- **Object prototypes.** A parsed object's own keys are modelled where they hide an inherited method the core calls: `toString` (through `String`, `+`, `join` and `toString()`) and `hasOwnProperty`. Every other method call in the core is on an array, on a string, or on `expected`, which the model types as a string.
- **Expected values.** `expected` is a string, so the runners' loose `==` and strict equality coincide.
- **Character counting.** String lengths count characters, whereas JavaScript counts UTF-16 code units, so the 1000-character cut can fall elsewhere on text outside the Basic Multilingual Plane.
- **Cleaning a generated reply before parsing.** The earlier steps of `parseTestCaseJSArray` are not modelled: markdown stripping, quote and newline cleanup, the `JSON.parse` cascade, and the regular-expression fallback. The model starts from the cleaned text for the repair step, and from the parsed value for validation.
- **Expanding a parsed case.** Step 10 (`eval` of each input and its fallback) is not modelled, so `Validate` returns the cases as validation left them.
- **truncateString on non-strings.** The non-string branch is not modelled: every call site passes a string.
- **Broker errors.** `sendToWorker`'s handling of a throwing `lPush` or `JSON.stringify` is not modelled: the model treats both as always succeeding.
- **RateLimit.Check:** the error a rejected call carries is not modelled, only that the call rejects.
- **Jobs.Job:** test cases are typed, so a malformed job cannot be represented. In the source, a job whose `testCase` is missing or not an array, or that holds a `null` entry, makes the loop throw. For a `null` entry the per-test handler throws again when it re-reads `testCase.input`. The whole job is then reported by the runner's outer handler: `success: false` with `compilationError: true` for C++ and Java, no compilation flag for JavaScript, and a runtime error for Python.
- **Gateway.ChooseReplyAsWritten, Gateway.ChooseReply:** these model only which reply the socket gets. Where the handler throws (the undeclared `tc`, or reading a field of an `undefined` result), the error escapes an async listener that nothing awaits. On Node 15 and later, this unhandled rejection ends the gateway process by default, which drops the pending requests of every other connection too. Process lifetime is not modelled.
- **Worker.Worker.Step:** only one pass of the endless loop is modelled, and the Java and JavaScript branches end the worker before their runners run, so `JavaRunner.Execute` and `JsRunner.Execute` are modelled as the runners are written, not as reached.
- **PythonRunner.ShellFailure, PythonRunner.SpawnFailure:** the error texts that `PythonShell` and `spawn` themselves produce (an error's `message`, the collected standard error, the exit code) are opaque string parameters. The runner's choice among them is modelled, and so are its own fixed texts: "Execution timeout after <n>ms" and "Python execution failed" for python-shell, "Process exited with code …" and "Failed to start Python process: …" for `spawn`. The two members' own contracts state only that the message is non-empty.
- **Shorthand.Normalize, Shorthand.ExpandShorthand:** their own contracts state only the no-`*` case; what they compute on shorthand is stated by `Shorthand.ExpandNormalized`.
- **Shorthand.ExpandNormalized:** shorthand is proved only for text that `normalizeExpression` produced. Hand-written quoted forms such as `"ab"*2` are modelled by `Shorthand.ExpandShorthand` without a lemma about them.
- **Text.DigitsValueOfDecimal:** `Number` of a long digit string loses precision beyond 2^53; integers are exact here.

## Findings

| source | as written | input that shows it | evidently intended | confidence | as-written member | corrected member |
|---|---|---|---|---|---|---|
| QuickCode_Server/backend/src/index.js:39 | `for (tc of res.results)` assigns to a variable that is never declared. In the gateway's ES module this throws a `ReferenceError` on the first result, so the handler sends nothing. The error escapes the async `message` listener unhandled, which on Node 15 and later ends the gateway process and with it every other pending request | a C++ submission with one test case whose output differs from `expected`, with neither `exampleTestCases` nor `all` set | reply `{status: 1, allPassed: false, failedTestCase}` naming the first failing test case | not executed | Gateway.ChooseReplyAsWritten | Gateway.ChooseReply |
