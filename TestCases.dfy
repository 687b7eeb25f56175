/** The post-processing of generated test cases: the repair of a reply cut off
    mid-array, the validation of the parsed array, and `expandTestCaseObject`. */
module TestCases {
  import opened Text
  import opened Json
  import opened Jobs
  import opened Shorthand

  /** A test case after validation: its inputs and `expected`, as strings. */
  datatype CaseText = CaseText(input: seq<string>, expected: string)

  /** What `parseTestCaseJSArray` returns: `{ok: true, data}` or `{ok: false, error}`. */
  datatype Parsed = Parsed(data: seq<CaseText>) | ParseFailure(error: string)

  /** The prefix of every `error` of a failed parse. */
  const FailurePrefix: string := "\U{274C} Failed to parse: "

  const NotAnArray: string := "Parsed content is not an array"
  const EmptyArray: string := "Test case array is empty"
  const NoValidCases: string := "No valid test cases found after cleaning"
  /** The `TypeError` of reading `input` from a `null` entry. */
  const NullEntry: string := "Cannot read properties of null (reading 'input')"
  /** The `TypeError` of calling `tc.hasOwnProperty` when the entry's own key of that
      name hides the inherited method. */
  const NotAFunction: string := "tc.hasOwnProperty is not a function"

  // ---------------------------------------------------------------------------
  // Step 4: truncation repair

  predicate Closed(s: string) {
    EndsWith(s, "]") || EndsWith(s, "}")
  }

  /** The repair of content that ends with neither `]` nor `}`: cut after the last `"}`
      and close the array, or, with no `"}` but a `[`, append `"}]`. */
  function RepairTruncation(c: string): (r: string)
    ensures Closed(c) ==> r == c
    ensures Closed(r) <==> Closed(c) || Contains(c, "\"}") || Contains(c, "[")
    ensures !Closed(c) && Contains(c, "\"}") ==>
      exists k :: 2 <= k <= |c| && r == c[..k] + "]" && EndsWith(c[..k], "\"}")
        && forall j :: k - 2 < j ==> !OccursAt(c, j, "\"}")
    ensures !Closed(c) && !Contains(c, "\"}") ==> r == (if Contains(c, "[") then c + "\"}]" else c)
  {
    if Closed(c) then c
    else
      var last := LastIndexOf(c, "\"}");
      if last != -1 then
        assert c[..last + 2][last..] == c[last..last + 2];
        c[..last + 2] + "]"
      else if Contains(c, "[") then c + "\"}]"
      else c
  }

  /** A repaired reply needs no further repair. */
  lemma RepairIdempotent(c: string)
    ensures RepairTruncation(RepairTruncation(c)) == RepairTruncation(c)
  {
    var r := RepairTruncation(c);
    if !Closed(r) {
      assert !Contains(c, "\"}") && !Contains(c, "[") && r == c;
    }
  }

  // ---------------------------------------------------------------------------
  // Steps 8 and 9: validation

  /** Each element's text, cut to 1000 characters. */
  function TruncatedTexts(xs: seq<Json>): (r: seq<string>)
    ensures |r| == |xs| && forall i :: 0 <= i < |xs| ==> r[i] == Truncate(ToStr(xs[i]), MaxLength)
  {
    seq(|xs|, i requires 0 <= i < |xs| => Truncate(ToStr(xs[i]), MaxLength))
  }

  /** The inputs of an entry: an array's elements as strings, or the one value, each cut
      to 1000 characters; `String` throws on an element, or on the value, that cannot
      be converted. */
  function ProcessedInput(input: Json): (r: Completion<seq<string>>)
    ensures r.Abrupt? <==> !Stringable(input)
    ensures input.JArr? ==> (r.Abrupt? <==> exists i :: 0 <= i < |input.items| && !Stringable(input.items[i]))
    ensures r.Abrupt? ==> r.message == NoPrimitive
    ensures input.JArr? && r.Normal? ==> |r.value| == |input.items|
    ensures input.JArr? && r.Normal? ==>
      forall i :: 0 <= i < |r.value| ==> r.value[i] == Truncate(ToStr(input.items[i]), MaxLength)
    ensures !input.JArr? && r.Normal? ==> r.value == [Truncate(ToStr(input), MaxLength)]
  {
    match input
    case JArr(xs) =>
      if AllStringable(xs) then Normal(TruncatedTexts(xs)) else Abrupt(NoPrimitive)
    case _ =>
      match StringOf(input)
      case Abrupt(m) => Abrupt(m)
      case Normal(text) => Normal([Truncate(text, MaxLength)])
  }

  /** The check on the first input: present, on one line (neither a newline nor the two
      characters `\n`), and shorter than 2000 characters. */
  predicate FirstInputClean(input: seq<string>) {
    |input| >= 1 && '\n' !in input[0] && !Contains(input[0], "\\n") && |input[0]| < 2000
  }

  /** Every string of the case is at most 1000 characters long. */
  predicate Bounded(c: CaseText) {
    |c.expected| <= MaxLength && forall i :: 0 <= i < |c.input| ==> |c.input[i]| <= MaxLength
  }

  /** What the loop does with one entry. */
  datatype Verdict = Keep(kept: CaseText) | Skip | Throw(message: string)

  /** `tc.input` is truthy: the entry is an object with a truthy own `input`. */
  predicate HasInput(tc: Json) {
    tc.JObj? && "input" in tc.fields && Truthy(tc.fields["input"])
  }

  /** The entry has a truthy `input` and an own `expected`. */
  predicate HasFields(tc: Json) {
    HasInput(tc) && "expected" in tc.fields
  }

  /** The entries the loop throws on: `null`, whose `input` cannot be read; an entry with
      a truthy `input` whose own `hasOwnProperty` key hides the inherited method; and an
      entry with both fields whose `input` or `expected` `String` cannot convert. */
  predicate Faulty(tc: Json) {
    || tc == JNull
    || (HasInput(tc) && "hasOwnProperty" in tc.fields)
    || (HasFields(tc) && (!Stringable(tc.fields["input"]) || !Stringable(tc.fields["expected"])))
  }

  /** One pass of the loop body. It throws exactly on the faulty entries, with the error
      of the first operation that fails; any other entry without the two fields, or
      whose first input is not clean, is skipped. */
  function Check(tc: Json): (v: Verdict)
    ensures v.Throw? <==> Faulty(tc)
    ensures tc == JNull ==> v == Throw(NullEntry)
    ensures HasInput(tc) && "hasOwnProperty" in tc.fields ==> v == Throw(NotAFunction)
    ensures v.Throw? && tc != JNull && "hasOwnProperty" !in tc.fields ==> v.message == NoPrimitive
    ensures v.Keep? <==> HasFields(tc) && !Faulty(tc) && FirstInputClean(ProcessedInput(tc.fields["input"]).value)
    ensures v.Keep? ==> (v.kept.input == ProcessedInput(tc.fields["input"]).value
                         && v.kept.expected == Truncate(ToStr(tc.fields["expected"]), MaxLength))
  {
    if tc == JNull then Throw(NullEntry)
    else if !HasInput(tc) then Skip
    else if "hasOwnProperty" in tc.fields then Throw(NotAFunction)
    else if "expected" !in tc.fields then Skip
    else
      match ProcessedInput(tc.fields["input"])
      case Abrupt(m) => Throw(m)
      case Normal(input) =>
        match StringOf(tc.fields["expected"])
        case Abrupt(m) => Throw(m)
        case Normal(expected) =>
          if FirstInputClean(input) then Keep(CaseText(input, Truncate(expected, MaxLength))) else Skip
  }

  /** The state of the loop: the cases kept so far, or the error thrown. */
  datatype Screening = Screened(kept: seq<CaseText>) | Thrown(message: string)

  /** The loop over the entries, as a function of the entries handled so far. */
  function Screen(items: seq<Json>): Screening
    decreases |items|
  {
    if items == [] then Screened([])
    else
      match Screen(items[..|items| - 1])
      case Thrown(m) => Thrown(m)
      case Screened(k) =>
        match Check(items[|items| - 1])
        case Throw(m) => Thrown(m)
        case Keep(c) => Screened(k + [c])
        case Skip => Screened(k)
  }

  /** The loop throws exactly when some entry is faulty, with the error of the first
      faulty entry; otherwise it keeps exactly the entries that pass the checks, each in
      the processed form, and every kept case is clean and bounded. */
  lemma ScreenSpec(items: seq<Json>)
    ensures Screen(items).Thrown? <==> exists i :: 0 <= i < |items| && Faulty(items[i])
    ensures Screen(items).Thrown? ==>
      exists i :: (0 <= i < |items| && Check(items[i]) == Throw(Screen(items).message)
        && forall j :: 0 <= j < i ==> !Faulty(items[j]))
    ensures Screen(items).Screened? ==> |Screen(items).kept| <= |items|
    ensures Screen(items).Screened? ==> forall c :: c in Screen(items).kept <==>
      exists i :: 0 <= i < |items| && Check(items[i]) == Keep(c)
    ensures Screen(items).Screened? ==> forall c :: c in Screen(items).kept ==>
      FirstInputClean(c.input) && Bounded(c)
  {
    ScreenThrows(items);
    ScreenKeeps(items);
    ScreenClean(items);
  }

  lemma {:induction false} ScreenThrows(items: seq<Json>)
    ensures Screen(items).Thrown? <==> exists i :: 0 <= i < |items| && Faulty(items[i])
    ensures Screen(items).Thrown? ==>
      exists i :: (0 <= i < |items| && Check(items[i]) == Throw(Screen(items).message)
        && forall j :: 0 <= j < i ==> !Faulty(items[j]))
    decreases |items|
  {
    if items != [] {
      var n := |items| - 1;
      var prev := items[..n];
      ScreenThrows(prev);
      assert forall i :: 0 <= i < n ==> prev[i] == items[i];
      if Screen(prev).Thrown? {
        var i :| 0 <= i < n && Check(prev[i]) == Throw(Screen(prev).message)
          && forall j :: 0 <= j < i ==> !Faulty(prev[j]);
        assert Check(items[i]) == Throw(Screen(items).message);
      } else if Faulty(items[n]) {
        assert Check(items[n]) == Throw(Screen(items).message);
      } else {
        forall i | 0 <= i < |items| ensures !Faulty(items[i]) {
          if i < n { assert items[i] == prev[i]; }
        }
      }
    }
  }

  lemma {:induction false} ScreenKeeps(items: seq<Json>)
    ensures Screen(items).Screened? ==> |Screen(items).kept| <= |items|
    ensures Screen(items).Screened? ==> forall c :: c in Screen(items).kept <==>
      exists i :: 0 <= i < |items| && Check(items[i]) == Keep(c)
    decreases |items|
  {
    if items != [] {
      var n := |items| - 1;
      var prev := items[..n];
      ScreenKeeps(prev);
      assert forall i :: 0 <= i < n ==> prev[i] == items[i];
    }
  }

  lemma {:induction false} ScreenClean(items: seq<Json>)
    ensures Screen(items).Screened? ==> forall c :: c in Screen(items).kept ==>
      FirstInputClean(c.input) && Bounded(c)
    decreases |items|
  {
    if items != [] {
      var n := |items| - 1;
      ScreenClean(items[..n]);
      var v := Check(items[n]);
      if Screen(items[..n]).Screened? && v.Keep? {
        forall i | 0 <= i < |v.kept.input| ensures |v.kept.input[i]| <= MaxLength {
        }
      }
    }
  }

  /** Steps 8 and 9 on the parsed value; the other steps only shape the text before it is parsed. */
  function Validate(parsed: Json): (r: Parsed)
  {
    if !parsed.JArr? then ParseFailure(FailurePrefix + NotAnArray)
    else if parsed.items == [] then ParseFailure(FailurePrefix + EmptyArray)
    else
      match Screen(parsed.items)
      case Thrown(m) => ParseFailure(FailurePrefix + m)
      case Screened(k) => if k == [] then ParseFailure(FailurePrefix + NoValidCases) else Parsed(k)
  }

  /** A parse either fails with an error under the common prefix, or returns at least one
      case, at most one per entry, each clean and bounded; it fails exactly when the value
      is not an array, is empty, holds a faulty entry, or has no entry that passes the
      checks. */
  lemma ValidateSpec(parsed: Json)
    ensures Validate(parsed).ParseFailure? ==> StartsWith(Validate(parsed).error, FailurePrefix)
    ensures Validate(parsed).Parsed? ==>
      && parsed.JArr? && 1 <= |Validate(parsed).data| <= |parsed.items|
      && forall c :: c in Validate(parsed).data ==> FirstInputClean(c.input) && Bounded(c)
    ensures Validate(parsed).ParseFailure? <==>
      || !parsed.JArr?
      || (exists i :: 0 <= i < |parsed.items| && Faulty(parsed.items[i]))
      || (forall i :: 0 <= i < |parsed.items| ==> !Check(parsed.items[i]).Keep?)
  {
    var r := Validate(parsed);
    if r.ParseFailure? {
      var m :| r.error == FailurePrefix + m;
      assert r.error[..|FailurePrefix|] == FailurePrefix;
    }
    if parsed.JArr? {
      ScreenSpec(parsed.items);
      var s := Screen(parsed.items);
      if s.Screened? && s.kept != [] {
        var c := s.kept[0];
        assert c in s.kept;
      }
    }
  }

  /** The validation loop: entries in order, a kept case pushed, the first error thrown. */
  method ScreenEntries(items: seq<Json>) returns (valid: seq<CaseText>, thrown: Option<string>)
    ensures thrown.None? ==> Screen(items) == Screened(valid)
    ensures thrown.Some? ==> Screen(items) == Thrown(thrown.value)
  {
    valid, thrown := [], None;
    var i := 0;
    while i < |items|
      invariant 0 <= i <= |items|
      invariant Screen(items[..i]) == Screened(valid)
    {
      var tc := items[i];
      assert items[..i + 1][..i] == items[..i] && items[..i + 1][i] == tc;
      var error: Option<string> := None;
      if tc == JNull {
        error := Some(NullEntry);
      } else if tc.JObj? && "input" in tc.fields && Truthy(tc.fields["input"]) {
        if "hasOwnProperty" in tc.fields {
          error := Some(NotAFunction);
        } else if "expected" in tc.fields {
          var processedInput := ProcessedInput(tc.fields["input"]);
          var expectedStr := StringOf(tc.fields["expected"]);
          if processedInput.Abrupt? {
            error := Some(processedInput.message);
          } else if expectedStr.Abrupt? {
            error := Some(expectedStr.message);
          } else if FirstInputClean(processedInput.value) {
            valid := valid + [CaseText(processedInput.value, Truncate(expectedStr.value, MaxLength))];
          }
        }
      }
      if error.Some? {
        assert Screen(items[..i + 1]) == Thrown(error.value);
        ScreenPrefixThrown(items, i + 1);
        return valid, error;
      }
      i := i + 1;
    }
    assert items[..i] == items;
  }

  /** Once the loop has thrown, later entries do not matter. */
  lemma {:induction false} ScreenPrefixThrown(items: seq<Json>, n: nat)
    requires n <= |items| && Screen(items[..n]).Thrown?
    ensures Screen(items) == Screen(items[..n])
    decreases |items| - n
  {
    if n < |items| {
      assert items[..n + 1][..n] == items[..n];
      ScreenPrefixThrown(items, n + 1);
    } else {
      assert items[..n] == items;
    }
  }

  /** `parseTestCaseJSArray` from the parsed value on: the structure checks, the loop,
      and the failure record with its prefix. */
  method ValidateParsed(parsed: Json) returns (r: Parsed)
    ensures r == Validate(parsed)
  {
    if !parsed.JArr? {
      return ParseFailure(FailurePrefix + NotAnArray);
    }
    if |parsed.items| == 0 {
      return ParseFailure(FailurePrefix + EmptyArray);
    }
    var validTestCases, thrown := ScreenEntries(parsed.items);
    if thrown.Some? {
      return ParseFailure(FailurePrefix + thrown.value);
    }
    if |validTestCases| == 0 {
      return ParseFailure(FailurePrefix + NoValidCases);
    }
    return Parsed(validTestCases);
  }

  // ---------------------------------------------------------------------------
  // expandTestCaseObject

  /** One string of a case: normalized, expanded and cut to 1000 characters. */
  function ExpandOne(s: string): string {
    Truncate(ExpandShorthand(Normalize(s)), MaxLength)
  }

  /** An expanded string is at most 1000 characters long, and a string without `*`
      that is short enough is kept as it is. */
  lemma ExpandOneSpec(s: string)
    ensures |ExpandOne(s)| <= MaxLength
    ensures '*' !in s && |s| <= MaxLength ==> ExpandOne(s) == s
  {
  }

  /** A string with multipliers becomes their expansions, in order, cut to 1000 characters. */
  lemma ExpandOneOfShorthand(s: string)
    requires '*' in s && Multipliers(s) != []
    ensures ExpandOne(s) == Truncate(ExpectedAll(Multipliers(s)), MaxLength)
  {
    ExpandNormalized(s);
  }

  /** `xs.map(f)`. */
  function MapAll(f: string -> string, xs: seq<string>): (r: seq<string>)
    ensures |r| == |xs|
  {
    if xs == [] then [] else MapAll(f, xs[..|xs| - 1]) + [f(xs[|xs| - 1])]
  }

  lemma {:induction false} MapAllAt(f: string -> string, xs: seq<string>, i: nat)
    requires i < |xs|
    ensures MapAll(f, xs)[i] == f(xs[i])
  {
    var n := |xs| - 1;
    if i < n {
      MapAllAt(f, xs[..n], i);
      assert xs[..n][i] == xs[i];
    }
  }

  /** `inputs.map(expand)`: one expanded string per input, in order. */
  function ExpandAll(inputs: seq<string>): (r: seq<string>)
    ensures |r| == |inputs|
  {
    MapAll(ExpandOne, inputs)
  }

  /** Entry `i` of the expanded inputs is input `i`, expanded. */
  lemma ExpandAllAt(inputs: seq<string>, i: nat)
    requires i < |inputs|
    ensures ExpandAll(inputs)[i] == ExpandOne(inputs[i])
  {
    MapAllAt(ExpandOne, inputs, i);
  }

  /** Every expanded input is at most 1000 characters long. */
  lemma ExpandAllBounded(inputs: seq<string>)
    ensures forall i :: 0 <= i < |inputs| ==> |ExpandAll(inputs)[i]| <= MaxLength
  {
    forall i | 0 <= i < |inputs| ensures |ExpandAll(inputs)[i]| <= MaxLength {
      ExpandAllAt(inputs, i);
      ExpandOneSpec(inputs[i]);
    }
  }

  /** The loop of `expandTestCaseObject`. */
  method ExpandInputs(inputs: seq<string>) returns (actualInput: seq<string>)
    ensures actualInput == ExpandAll(inputs)
  {
    actualInput := [];
    var k := 0;
    while k < |inputs|
      invariant 0 <= k <= |inputs|
      invariant actualInput == ExpandAll(inputs[..k])
    {
      assert inputs[..k + 1][..k] == inputs[..k];
      actualInput := actualInput + [ExpandOne(inputs[k])];
      k := k + 1;
    }
    assert inputs[..k] == inputs;
  }

  /** `expandTestCaseObject(obj)`: the inputs in order, one expanded string each, and the
      expanded `expected`; every string of the result is at most 1000 characters. */
  method ExpandTestCaseObject(obj: CaseText) returns (r: CaseText)
    ensures r == CaseText(ExpandAll(obj.input), ExpandOne(obj.expected))
    ensures |r.input| == |obj.input| && Bounded(r)
  {
    var actualInput := ExpandInputs(obj.input);
    r := CaseText(actualInput, ExpandOne(obj.expected));
    ExpandAllBounded(obj.input);
    ExpandOneSpec(obj.expected);
  }
}
