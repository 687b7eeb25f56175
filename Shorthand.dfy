/** The `*`-shorthand of the test-case generator: `normalizeExpression` rewrites
    `a*3b*2` as `"a"*3 + "b"*2`, and `expandShorthandString` expands each `"s"*n`
    part to `s` repeated `min(n, 500)` times. Each regular expression is modelled
    as the scan JavaScript performs over the text, one suffix at a time. */
module Shorthand {
  import opened Text
  import opened Jobs

  /** The length `truncateString` cuts to. */
  const MaxLength: nat := 1000

  /** The cap on the repetition count of one part. */
  const MaxRepeat: nat := 500

  /** `truncateString(s, maxLength)` on a string: its first `maxLength` characters. */
  function Truncate(s: string, maxLength: nat): (r: string)
    ensures |r| == if |s| > maxLength then maxLength else |s|
    ensures r == s[..|r|]
  {
    if |s| > maxLength then s[..maxLength] else s
  }

  /** The class `[a-zA-Z ]`. */
  predicate IsLetterOrBlank(c: char) {
    ('a' <= c <= 'z') || ('A' <= c <= 'Z') || c == ' '
  }

  /** The characters `.` does not match. */
  predicate IsLineTerminator(c: char) {
    c == '\n' || c == '\r' || c == '\U{2028}' || c == '\U{2029}'
  }

  predicate NoLineTerminator(s: string) {
    forall i :: 0 <= i < |s| ==> !IsLineTerminator(s[i])
  }

  predicate AllDigits(s: string) {
    forall i :: 0 <= i < |s| ==> IsDigit(s[i])
  }

  predicate AllLettersOrBlanks(s: string) {
    forall i :: 0 <= i < |s| ==> IsLetterOrBlank(s[i])
  }

  /** How far `\s*` reaches from the start of `t`. */
  function SpaceLen(t: string): (n: nat)
    ensures n <= |t|
    ensures n < |t| ==> !IsSpace(t[n])
  {
    if t != [] && IsSpace(t[0]) then 1 + SpaceLen(t[1..]) else 0
  }

  /** How far `\d*` reaches from the start of `t`. */
  function DigitLen(t: string): (n: nat)
    ensures n <= |t|
    ensures n < |t| ==> !IsDigit(t[n])
  {
    if t != [] && IsDigit(t[0]) then 1 + DigitLen(t[1..]) else 0
  }

  /** What `\d*` takes is digits. */
  lemma {:induction false} DigitRun(t: string)
    ensures AllDigits(t[..DigitLen(t)])
  {
    if t != [] && IsDigit(t[0]) {
      DigitRun(t[1..]);
      var n := DigitLen(t);
      assert forall i :: 1 <= i < n ==> t[..n][i] == t[1..][..n - 1][i - 1];
    }
  }

  /** How far `[a-zA-Z ]*` reaches from the start of `t`. */
  function LetterLen(t: string): (n: nat)
    ensures n <= |t|
    ensures n < |t| ==> !IsLetterOrBlank(t[n])
  {
    if t != [] && IsLetterOrBlank(t[0]) then 1 + LetterLen(t[1..]) else 0
  }

  /** What `[a-zA-Z ]*` takes is letters and blanks. */
  lemma {:induction false} LetterRun(t: string)
    ensures AllLettersOrBlanks(t[..LetterLen(t)])
  {
    if t != [] && IsLetterOrBlank(t[0]) {
      LetterRun(t[1..]);
      var n := LetterLen(t);
      assert forall i :: 1 <= i < n ==> t[..n][i] == t[1..][..n - 1][i - 1];
    }
  }

  // ---------------------------------------------------------------------------
  // normalizeExpression

  /** One match of `[a-zA-Z ]*\*\d+`, split at its `*`. */
  datatype Multiplier = Multiplier(letters: string, count: string)

  predicate WellFormed(m: Multiplier) {
    AllLettersOrBlanks(m.letters) && m.count != [] && AllDigits(m.count)
  }

  /** Where a match of `[a-zA-Z ]*\*\d+` that starts at the beginning of `t` ends, or 0
      when none starts there. Shortening the greedy run of letters cannot help, since a
      letter is not a `*`. */
  function MatchEnd(t: string): (k: nat)
    ensures k == 0 || LetterLen(t) < k <= |t|
  {
    var j := LetterLen(t);
    if j < |t| && t[j] == '*' && DigitLen(t[j + 1..]) > 0 then j + 1 + DigitLen(t[j + 1..]) else 0
  }

  /** The match at the beginning of `t`, if one starts there. */
  function Found(t: string): (ms: seq<Multiplier>)
    ensures |ms| <= 1
  {
    var k := MatchEnd(t);
    if k == 0 then [] else [Multiplier(t[..LetterLen(t)], t[LetterLen(t) + 1..k])]
  }

  /** Where the scan goes on: after the match, or one character on. */
  function Next(t: string): (k: nat)
    requires t != []
    ensures 1 <= k <= |t|
  {
    if MatchEnd(t) == 0 then 1 else MatchEnd(t)
  }

  /** `t.match(/[a-zA-Z ]*\*\d+/g)`: the matches, left to right; a position where no
      match starts is skipped. */
  function Multipliers(t: string): (ms: seq<Multiplier>)
    decreases |t|
  {
    if t == [] then [] else Found(t) + Multipliers(t[Next(t)..])
  }

  /** A match found at the beginning of `t` is well formed. */
  lemma FoundWellFormed(t: string)
    ensures forall i :: 0 <= i < |Found(t)| ==> WellFormed(Found(t)[i])
  {
    var k := MatchEnd(t);
    if k != 0 {
      var j := LetterLen(t);
      LetterRun(t);
      DigitRun(t[j + 1..]);
      assert t[j + 1..k] == t[j + 1..][..DigitLen(t[j + 1..])];
    }
  }

  /** Every match is letters and blanks, a `*`, and at least one digit. */
  lemma {:induction false} MultipliersWellFormed(t: string)
    ensures forall i :: 0 <= i < |Multipliers(t)| ==> WellFormed(Multipliers(t)[i])
    decreases |t|
  {
    if t != [] {
      var f, rest := Found(t), Multipliers(t[Next(t)..]);
      MultipliersWellFormed(t[Next(t)..]);
      FoundWellFormed(t);
      assert Multipliers(t) == f + rest;
      assert forall i :: |f| <= i < |f| + |rest| ==> (f + rest)[i] == rest[i - |f|];
    }
  }

  /** `"${char}"*${num}`. */
  function Quoted(m: Multiplier): string {
    "\"" + m.letters + "\"*" + m.count
  }

  function QuotedAll(ms: seq<Multiplier>): (qs: seq<string>)
    ensures |qs| == |ms|
  {
    if ms == [] then [] else [Quoted(ms[0])] + QuotedAll(ms[1..])
  }

  /** `normalizeExpression(expr)`. */
  function Normalize(expr: string): (r: string)
    ensures '*' !in expr ==> r == expr
  {
    if '*' !in expr then expr
    else
      var ms := Multipliers(expr);
      if ms == [] then expr else Join(QuotedAll(ms), " + ")
  }

  // ---------------------------------------------------------------------------
  // expandShorthandString

  /** `\s*\*\s*\d+` at the start of `t`: the length it matches. */
  function MultiplierTail(t: string): (r: Option<nat>)
    ensures r.Some? ==> r.value <= |t|
  {
    var a := SpaceLen(t);
    if a < |t| && t[a] == '*' then
      var b := a + 1 + SpaceLen(t[a + 1..]);
      var d := DigitLen(t[b..]);
      if d > 0 then Some(b + d) else None
    else None
  }

  /** `".?"` at the start of `t`, taking `q - 2` characters between the quotes (`q` is 2 or 3). */
  predicate QuotePair(t: string, q: nat) {
    && (q == 2 || q == 3) && q <= |t| && t[0] == '"' && t[q - 1] == '"'
    && (q == 3 ==> !IsLineTerminator(t[1]))
  }

  /** `(".?"\s*\*\s*\d+)\s*(?=")` with `.?` taking `q - 2` characters: the end of the
      group and the end of the match. */
  function GlueAt(t: string, q: nat): (r: Option<(nat, nat)>)
    ensures r.Some? ==> q < r.value.0 <= r.value.1 < |t| && t[r.value.1] == '"'
  {
    if !QuotePair(t, q) then None
    else
      match MultiplierTail(t[q..])
      case None => None
      case Some(m) =>
        var g := q + m;
        var e := g + SpaceLen(t[g..]);
        if e < |t| && t[e] == '"' then Some((g, e)) else None
  }

  /** The first pattern at the start of `t`: `.?` tries one character, then none. */
  function Glue(t: string): (r: Option<(nat, nat)>)
    ensures r.Some? ==> 0 < r.value.0 <= r.value.1 < |t|
  {
    if GlueAt(t, 3).Some? then GlueAt(t, 3) else GlueAt(t, 2)
  }

  /** `t.replace(/(".?"\s*\*\s*\d+)\s*(?=")/g, "$1 + ")`. */
  function JoinMultipliers(t: string): string
    decreases |t|
  {
    if t == [] then ""
    else
      match Glue(t)
      case Some((g, e)) => t[..g] + " + " + JoinMultipliers(t[e..])
      case None => [t[0]] + JoinMultipliers(t[1..])
  }

  /** `(".?")\s(?=")` at the start of `t`: the end of the group. */
  function Adjacent(t: string): (r: Option<nat>)
    ensures r.Some? ==> r.value + 1 < |t|
  {
    if QuotePair(t, 3) && 4 < |t| && IsSpace(t[3]) && t[4] == '"' then Some(3)
    else if QuotePair(t, 2) && 3 < |t| && IsSpace(t[2]) && t[3] == '"' then Some(2)
    else None
  }

  /** `t.replace(/(".?")\s(?=")/g, "$1 + ")`. */
  function JoinQuoted(t: string): string
    decreases |t|
  {
    if t == [] then ""
    else
      match Adjacent(t)
      case Some(q) => t[..q] + " + " + JoinQuoted(t[q + 1..])
      case None => [t[0]] + JoinQuoted(t[1..])
  }

  /** `t.split(c)` for a one-character separator. */
  function Split(t: string, c: char): (ps: seq<string>)
    ensures |ps| >= 1
  {
    if t == [] then [""]
    else if t[0] == c then [""] + Split(t[1..], c)
    else
      var rest := Split(t[1..], c);
      [[t[0]] + rest[0]] + rest[1..]
  }

  /** The index of the last `"` in `p`, or -1. */
  function LastQuote(p: string): (r: int)
    ensures -1 <= r < |p|
    ensures r >= 0 ==> p[r] == '"'
    ensures forall j :: r < j < |p| ==> p[j] != '"'
  {
    if p == [] then -1 else if p[|p| - 1] == '"' then |p| - 1 else LastQuote(p[..|p| - 1])
  }

  /** `/^"(.+)"\s*\*\s*(\d+)$/` on a trimmed part: the repeated text and the count. */
  function RepeatForm(p: string): (r: Option<Multiplier>)
    ensures r.Some? ==> r.value.letters != [] && r.value.count != []
  {
    var q := LastQuote(p);
    if p == [] || p[0] != '"' || q < 2 || !NoLineTerminator(p[1..q]) then None
    else
      var u := p[q + 1..];
      var a := SpaceLen(u);
      if a < |u| && u[a] == '*' then
        var b := a + 1 + SpaceLen(u[a + 1..]);
        var d := DigitLen(u[b..]);
        if d > 0 && b + d == |u| then
          assert u[b..] == u[b..][..d];
          Some(Multiplier(p[1..q], u[b..]))
        else None
      else None
  }

  /** `/^"(.+)"$/`. */
  predicate QuotedForm(p: string) {
    |p| >= 3 && p[0] == '"' && p[|p| - 1] == '"' && NoLineTerminator(p[1..|p| - 1])
  }

  function Min(a: nat, b: nat): nat { if a < b then a else b }

  /** The callback of `.map` for one `+`-separated part. */
  function ExpandPart(part: string): (r: string)
    ensures |r| <= MaxLength
  {
    var p := Trim(part);
    match RepeatForm(p)
    case Some(m) => Expansion(m)
    case None => Unquoted(p)
  }

  /** A part that is no repetition: without its quotes when quoted, truncated. */
  function Unquoted(p: string): (r: string)
    ensures |r| <= MaxLength
  {
    if QuotedForm(p) then Truncate(p[1..|p| - 1], MaxLength) else Truncate(p, MaxLength)
  }

  /** `str.repeat(Math.min(Number(count), 500))`, truncated. */
  function Expansion(m: Multiplier): (r: string)
    ensures |r| <= MaxLength
  {
    Truncate(Repeat(m.letters, Min(DigitsValue(m.count), MaxRepeat)), MaxLength)
  }

  /** `.map(...).join("")` over the parts. */
  function ExpandParts(ps: seq<string>): string {
    if ps == [] then "" else ExpandPart(ps[0]) + ExpandParts(ps[1..])
  }

  /** `expandShorthandString(expr)`. The third `replace` of the source substitutes each
      match by itself, so it is left as the identity. */
  function ExpandShorthand(expr: string): (r: string)
    ensures '*' !in expr ==> r == expr
  {
    if '*' !in expr then expr
    else ExpandParts(Split(JoinQuoted(JoinMultipliers(expr)), '+'))
  }

  // ---------------------------------------------------------------------------
  // Expanding a normalized expression

  /** What one multiplier expands to: its letters repeated, or, with no letters, the
      part itself, which matches neither quoted form. */
  function Expected(m: Multiplier): string
  {
    if m.letters == [] then Truncate(Quoted(m), MaxLength) else Expansion(m)
  }

  function ExpectedAll(ms: seq<Multiplier>): string
  {
    if ms == [] then "" else Expected(ms[0]) + ExpectedAll(ms[1..])
  }

  /** What follows a part in a normalized expression: nothing, or ` + `. */
  predicate Separated(rest: string) {
    rest == [] || (|rest| >= 2 && rest[0] == ' ' && rest[1] == '+')
  }

  lemma {:induction false} DigitLenOf(c: string, rest: string)
    requires AllDigits(c) && (rest == [] || !IsDigit(rest[0]))
    ensures DigitLen(c + rest) == |c|
  {
    if c != [] {
      assert (c + rest)[1..] == c[1..] + rest;
      DigitLenOf(c[1..], rest);
    }
  }

  /** `\s*\*\s*\d+` takes the `*` and the whole count, and stops there. */
  lemma TailOf(count: string, rest: string)
    requires count != [] && AllDigits(count) && Separated(rest)
    ensures MultiplierTail("*" + count + rest) == Some(1 + |count|)
  {
    var t := "*" + count + rest;
    assert t[1..] == count + rest;
    DigitLenOf(count, rest);
  }

  /** `\s*` takes the one blank of a ` + ` separator, and a `+` follows it. */
  lemma SeparatorSpace(rest: string)
    requires Separated(rest)
    ensures SpaceLen(rest) == (if rest == [] then 0 else 1)
    ensures rest != [] ==> rest[1] == '+'
  {
    if rest != [] {
      assert rest[1..][0] == '+';
    }
  }

  /** The first pattern fails when what follows its group's blanks is no `"`. */
  lemma GlueAtNone(u: string, q: nat, m: nat)
    requires q <= |u| && MultiplierTail(u[q..]) == Some(m)
    requires var e := q + m + SpaceLen(u[q + m..]); e >= |u| || u[e] != '"'
    ensures GlueAt(u, q).None?
  {
  }

  /** The first pattern fails where the count is followed by ` + ` or by the end. */
  lemma GlueAtStops(u: string, q: nat, count: string, rest: string)
    requires q <= |u| && u[q..] == "*" + count + rest
    requires count != [] && AllDigits(count) && Separated(rest)
    ensures GlueAt(u, q).None?
  {
    TailOf(count, rest);
    var g := q + 1 + |count|;
    assert u[g..] == rest by {
      assert u[q..][1 + |count|..] == rest;
    }
    SeparatorSpace(rest);
    if rest != [] {
      assert u[g + 1] == '+';
    }
    GlueAtNone(u, q, 1 + |count|);
  }

  /** Neither pattern matches at the opening quote of a normalized part. */
  lemma NoMatchAtOpen(m: Multiplier, rest: string)
    requires WellFormed(m) && Separated(rest)
    ensures Glue(Quoted(m) + rest).None? && Adjacent(Quoted(m) + rest).None?
  {
    var n := |m.letters|;
    if n == 1 {
      OpenOneLetter(m, rest);
    } else if n == 0 {
      OpenNoLetter(m, rest);
    } else {
      var u := Quoted(m) + rest;
      assert u[1] == m.letters[0] && u[2] == m.letters[1];
    }
  }

  lemma OpenOneLetter(m: Multiplier, rest: string)
    requires WellFormed(m) && Separated(rest) && |m.letters| == 1
    ensures Glue(Quoted(m) + rest).None? && Adjacent(Quoted(m) + rest).None?
  {
    var u := Quoted(m) + rest;
    assert u[3..] == "*" + m.count + rest;
    GlueAtStops(u, 3, m.count, rest);
    assert u[1] == m.letters[0] && u[3] == '*';
  }

  lemma OpenNoLetter(m: Multiplier, rest: string)
    requires WellFormed(m) && Separated(rest) && m.letters == []
    ensures Glue(Quoted(m) + rest).None? && Adjacent(Quoted(m) + rest).None?
  {
    var u := Quoted(m) + rest;
    assert u[2..] == "*" + m.count + rest;
    GlueAtStops(u, 2, m.count, rest);
    assert u[2] == '*';
  }

  /** Neither pattern matches at the closing quote of a normalized part, where `*` follows. */
  lemma NoMatchAtClose(count: string, rest: string)
    requires count != [] && AllDigits(count)
    ensures Glue("\"*" + count + rest).None? && Adjacent("\"*" + count + rest).None?
  {
    var t := "\"*" + count + rest;
    assert t[1] == '*' && t[2] == count[0];
  }

  /** Where neither pattern matches, both `replace` calls copy one character. */
  lemma CopyStep(t: string)
    requires t != [] && Glue(t).None? && Adjacent(t).None?
    ensures JoinMultipliers(t) == [t[0]] + JoinMultipliers(t[1..])
    ensures JoinQuoted(t) == [t[0]] + JoinQuoted(t[1..])
  {
  }

  lemma ConsAppend(p: string, j: string)
    requires p != []
    ensures [p[0]] + (p[1..] + j) == p + j
  {
    assert p == [p[0]] + p[1..];
  }

  /** Both `replace` calls copy text without a `"` unchanged. */
  lemma {:induction false} CopyUnquoted(p: string, r: string)
    requires '"' !in p
    ensures JoinMultipliers(p + r) == p + JoinMultipliers(r)
    ensures JoinQuoted(p + r) == p + JoinQuoted(r)
  {
    if p == [] {
      assert p + r == r;
    } else {
      var t := p + r;
      assert t[0] == p[0] && t[1..] == p[1..] + r;
      assert Glue(t).None? && Adjacent(t).None?;
      CopyStep(t);
      CopyUnquoted(p[1..], r);
      ConsAppend(p, JoinMultipliers(r));
      ConsAppend(p, JoinQuoted(r));
    }
  }

  /** A quote at which neither pattern matches, then text without a `"`, is copied. */
  lemma CopyQuoteThen(p: string, r: string)
    requires '"' !in p
    requires Glue(['"'] + p + r).None? && Adjacent(['"'] + p + r).None?
    ensures JoinMultipliers(['"'] + p + r) == ['"'] + p + JoinMultipliers(r)
    ensures JoinQuoted(['"'] + p + r) == ['"'] + p + JoinQuoted(r)
  {
    var t := ['"'] + p + r;
    CopyStep(t);
    assert t[1..] == p + r;
    CopyUnquoted(p, r);
    QuoteAppend(p, JoinMultipliers(r));
    QuoteAppend(p, JoinQuoted(r));
  }

  lemma QuoteAppend(p: string, j: string)
    ensures ['"'] + (p + j) == ['"'] + p + j
  {
  }

  lemma NoQuoteInPart(m: Multiplier)
    requires WellFormed(m)
    ensures '"' !in m.letters && '"' !in "*" + m.count
  {
    forall i | 0 <= i < |m.letters| ensures m.letters[i] != '"' {
      assert IsLetterOrBlank(m.letters[i]);
    }
    var t := "*" + m.count;
    forall i | 0 <= i < |t| ensures t[i] != '"' {
      if i > 0 {
        assert t[i] == m.count[i - 1] && IsDigit(m.count[i - 1]);
      }
    }
  }

  lemma QuotedSplit(m: Multiplier, x: string)
    ensures Quoted(m) + x == ['"'] + m.letters + (['"'] + ("*" + m.count) + x)
  {
  }

  /** Both `replace` calls leave a part and the separator after it as they are. */
  lemma PartKept(m: Multiplier, rest: string)
    requires WellFormed(m) && Separated(rest)
    ensures JoinMultipliers(Quoted(m) + rest) == Quoted(m) + JoinMultipliers(rest)
    ensures JoinQuoted(Quoted(m) + rest) == Quoted(m) + JoinQuoted(rest)
  {
    var tail := ['"'] + ("*" + m.count) + rest;
    NoQuoteInPart(m);
    NoMatchAtOpen(m, rest);
    NoMatchAtClose(m.count, rest);
    QuotedSplit(m, rest);
    assert tail == "\"*" + m.count + rest;
    CopyQuoteThen(m.letters, tail);
    CopyQuoteThen("*" + m.count, rest);
    QuotedSplit(m, JoinMultipliers(rest));
    QuotedSplit(m, JoinQuoted(rest));
  }

  /** Neither `replace` matches at a separator. */
  lemma SeparatorKept(r: string)
    ensures JoinMultipliers(" + " + r) == " + " + JoinMultipliers(r)
    ensures JoinQuoted(" + " + r) == " + " + JoinQuoted(r)
  {
    CopyUnquoted(" + ", r);
  }

  /** A normalized expression has nothing for either `replace` to rewrite. */
  lemma {:induction false} NormalizedKept(ms: seq<Multiplier>)
    requires ms != [] && forall i :: 0 <= i < |ms| ==> WellFormed(ms[i])
    ensures JoinMultipliers(Join(QuotedAll(ms), " + ")) == Join(QuotedAll(ms), " + ")
    ensures JoinQuoted(Join(QuotedAll(ms), " + ")) == Join(QuotedAll(ms), " + ")
  {
    var q := Quoted(ms[0]);
    if |ms| == 1 {
      PartKept(ms[0], "");
      assert q + "" == q;
    } else {
      var j := Join(QuotedAll(ms[1..]), " + ");
      assert QuotedAll(ms)[1..] == QuotedAll(ms[1..]);
      assert Join(QuotedAll(ms), " + ") == q + (" + " + j);
      PartKept(ms[0], " + " + j);
      SeparatorKept(j);
      NormalizedKept(ms[1..]);
    }
  }

  lemma {:induction false} SplitWhole(a: string, c: char)
    requires c !in a
    ensures Split(a, c) == [a]
  {
    if a != [] {
      SplitWhole(a[1..], c);
      assert [a[0]] + a[1..] == a;
    }
  }

  /** `split` cuts at the first separator. */
  lemma {:induction false} SplitFirst(a: string, b: string, c: char)
    requires c !in a
    ensures Split(a + [c] + b, c) == [a] + Split(b, c)
  {
    var t := a + [c] + b;
    if a == [] {
      assert t == [c] + b && t[1..] == b;
    } else {
      assert t[1..] == a[1..] + [c] + b;
      SplitFirst(a[1..], b, c);
      assert [a[0]] + a[1..] == a;
    }
  }

  lemma NoPlus(m: Multiplier)
    requires WellFormed(m)
    ensures '+' !in Quoted(m)
  {
    var q, n := Quoted(m), |m.letters|;
    forall i | 0 <= i < |q| ensures q[i] != '+' {
      if 1 <= i <= n {
        assert q[i] == m.letters[i - 1];
      } else if i >= n + 3 {
        assert q[i] == m.count[i - n - 3];
      }
    }
  }

  lemma TrimPart(q: string, pre: string, post: string)
    requires q != [] && !IsSpace(q[0]) && !IsSpace(q[|q| - 1])
    requires (pre == "" || pre == " ") && (post == "" || post == " ")
    ensures Trim(pre + q + post) == q
  {
    TrimOfTrimmed(q);
    if post == " " {
      assert (q + post)[..|q|] == q;
    }
    if pre == " " {
      assert (pre + q + post)[1..] == q + post;
    }
    assert pre + q + post == (if pre == " " then " " else "") + (q + post);
  }

  lemma LastQuoteOf(m: Multiplier)
    requires WellFormed(m)
    ensures LastQuote(Quoted(m)) == |m.letters| + 1
  {
    var p, n := Quoted(m), |m.letters|;
    assert p[n + 1] == '"';
    forall j | n + 1 < j < |p| ensures p[j] != '"' {
      if j > n + 2 { assert p[j] == m.count[j - n - 3]; }
    }
  }

  /** After the closing quote, `\s*\*\s*(\d+)$` takes the `*` and the whole count. */
  lemma CountTail(u: string, count: string)
    requires u == "*" + count && count != [] && AllDigits(count)
    ensures SpaceLen(u) == 0 && u[0] == '*'
    ensures SpaceLen(u[1..]) == 0 && DigitLen(u[1..]) == |count| && u[1..] == count
  {
    assert u[1..] == count + "";
    DigitLenOf(count, "");
    assert !IsSpace(count[0]);
  }

  /** A quoted multiplier with letters matches `/^"(.+)"\s*\*\s*(\d+)$/` with its own
      letters and count; one without letters matches neither quoted form. */
  lemma RepeatFormOf(m: Multiplier)
    requires WellFormed(m)
    ensures m.letters != [] ==> RepeatForm(Quoted(m)) == Some(m)
    ensures m.letters == [] ==> RepeatForm(Quoted(m)).None? && !QuotedForm(Quoted(m))
  {
    var p, n := Quoted(m), |m.letters|;
    LastQuoteOf(m);
    if n > 0 {
      assert p[1..n + 1] == m.letters;
      assert NoLineTerminator(m.letters);
      CountTail(p[n + 2..], m.count);
    } else {
      assert p[|p| - 1] == m.count[|m.count| - 1];
    }
  }

  /** A part cut out of a normalized expression expands to what its multiplier stands for. */
  lemma ExpandPartOf(m: Multiplier, pre: string, post: string)
    requires WellFormed(m) && (pre == "" || pre == " ") && (post == "" || post == " ")
    ensures ExpandPart(pre + Quoted(m) + post) == Expected(m)
  {
    var p := Quoted(m);
    assert p[|p| - 1] == m.count[|m.count| - 1];
    TrimPart(p, pre, post);
    RepeatFormOf(m);
  }

  /** The `+`-separated parts of a normalized expression (after `pre`) expand to the
      expansions of its multipliers, in order. */
  lemma {:induction false} ExpandPartsOf(ms: seq<Multiplier>, pre: string)
    requires ms != [] && forall i :: 0 <= i < |ms| ==> WellFormed(ms[i])
    requires pre == "" || pre == " "
    ensures ExpandParts(Split(pre + Join(QuotedAll(ms), " + "), '+')) == ExpectedAll(ms)
  {
    if |ms| == 1 {
      ExpandPartsSingle(ms, pre);
    } else {
      var q, j := Quoted(ms[0]), Join(QuotedAll(ms[1..]), " + ");
      NoPlus(ms[0]);
      PartsCons(ms, pre);
      SplitFirst(pre + q + " ", " " + j, '+');
      ExpandPartOf(ms[0], pre, " ");
      ExpandPartsOf(ms[1..], " ");
    }
  }

  lemma ExpandPartsSingle(ms: seq<Multiplier>, pre: string)
    requires |ms| == 1 && WellFormed(ms[0]) && (pre == "" || pre == " ")
    ensures ExpandParts(Split(pre + Join(QuotedAll(ms), " + "), '+')) == ExpectedAll(ms)
  {
    var q := Quoted(ms[0]);
    NoPlus(ms[0]);
    assert pre + Join(QuotedAll(ms), " + ") == pre + q + "";
    SplitWhole(pre + q + "", '+');
    ExpandPartOf(ms[0], pre, "");
  }

  /** The text after `pre` cut at the `+` of its first separator. */
  lemma PartsCons(ms: seq<Multiplier>, pre: string)
    requires |ms| > 1
    ensures pre + Join(QuotedAll(ms), " + ") ==
      (pre + Quoted(ms[0]) + " ") + ['+'] + (" " + Join(QuotedAll(ms[1..]), " + "))
  {
    JoinedCons(ms);
  }

  /** The normalized text of several multipliers is the first one, ` + `, and the rest. */
  lemma JoinedCons(ms: seq<Multiplier>)
    requires |ms| > 1
    ensures Join(QuotedAll(ms), " + ") == Quoted(ms[0]) + (" + " + Join(QuotedAll(ms[1..]), " + "))
  {
    var qs := QuotedAll(ms);
    assert qs[0] == Quoted(ms[0]) && qs[1..] == QuotedAll(ms[1..]);
    assert Join(qs, " + ") == qs[0] + " + " + Join(qs[1..], " + ");
  }

  /** The normalized text of a well-formed multiplier has a `*` where its quotes end. */
  lemma StarInJoined(ms: seq<Multiplier>)
    requires ms != []
    ensures '*' in Join(QuotedAll(ms), " + ")
  {
    var n, q := Join(QuotedAll(ms), " + "), Quoted(ms[0]);
    if |ms| > 1 {
      JoinedCons(ms);
    }
    assert n[|ms[0].letters| + 2] == q[|ms[0].letters| + 2] == '*';
  }

  /** Expanding the normalized text of well-formed multipliers gives their expansions. */
  lemma ExpandJoined(ms: seq<Multiplier>)
    requires ms != [] && forall i :: 0 <= i < |ms| ==> WellFormed(ms[i])
    ensures ExpandShorthand(Join(QuotedAll(ms), " + ")) == ExpectedAll(ms)
  {
    var n := Join(QuotedAll(ms), " + ");
    StarInJoined(ms);
    NormalizedKept(ms);
    ExpandKept(n);
    ExpandPartsOfJoined(ms);
  }

  lemma ExpandPartsOfJoined(ms: seq<Multiplier>)
    requires ms != [] && forall i :: 0 <= i < |ms| ==> WellFormed(ms[i])
    ensures ExpandParts(Split(Join(QuotedAll(ms), " + "), '+')) == ExpectedAll(ms)
  {
    var n := Join(QuotedAll(ms), " + ");
    ExpandPartsOf(ms, "");
    assert "" + n == n;
  }

  /** Text with a `*` that neither `replace` changes is split at its `+` signs as it is. */
  lemma ExpandKept(n: string)
    requires '*' in n && JoinMultipliers(n) == n && JoinQuoted(n) == n
    ensures ExpandShorthand(n) == ExpandParts(Split(n, '+'))
  {
  }

  /** Expanding a normalized expression gives, for each `letters*count` of the original
      in order, `letters` repeated `min(count, 500)` times and cut to 1000 characters
      (a bare `*count` comes back as `""*count`). */
  lemma ExpandNormalized(expr: string)
    requires '*' in expr && Multipliers(expr) != []
    ensures ExpandShorthand(Normalize(expr)) == ExpectedAll(Multipliers(expr))
  {
    MultipliersWellFormed(expr);
    ExpandJoined(Multipliers(expr));
  }

  /** A match at the start of `t` is the first one, and the scan goes on after it. */
  lemma MultipliersStep(t: string)
    requires MatchEnd(t) > 0
    ensures Multipliers(t) ==
      [Multiplier(t[..LetterLen(t)], t[LetterLen(t) + 1..MatchEnd(t)])] + Multipliers(t[MatchEnd(t)..])
  {
  }

  lemma MultipliersOfTail()
    ensures Multipliers("b*2") == [Multiplier("b", "2")]
  {
    var u := "b*2";
    MatchOfTail();
    MultipliersStep(u);
    assert u[..1] == "b" && u[2..3] == "2" && u[3..] == [];
  }

  lemma MatchOfTail()
    ensures LetterLen("b*2") == 1 && MatchEnd("b*2") == 3
  {
    var u := "b*2";
    assert LetterLen(u[1..]) == 0;
    assert DigitLen(u[2..][1..]) == 0;
  }

  lemma MatchOfWhole()
    ensures LetterLen("a*3b*2") == 1 && MatchEnd("a*3b*2") == 3
  {
    var t := "a*3b*2";
    assert LetterLen(t[1..]) == 0;
    assert DigitLen(t[2..][1..]) == 0;
  }

  lemma MultipliersExample()
    ensures Multipliers("a*3b*2") == [Multiplier("a", "3"), Multiplier("b", "2")]
  {
    var t := "a*3b*2";
    MultipliersOfTail();
    MatchOfWhole();
    MultipliersStep(t);
    PiecesOfWhole();
  }

  lemma PiecesOfWhole()
    ensures "a*3b*2"[..1] == "a" && "a*3b*2"[2..3] == "3" && "a*3b*2"[3..] == "b*2"
  {
  }

  lemma ExpectedExample()
    ensures ExpectedAll([Multiplier("a", "3"), Multiplier("b", "2")]) == "aaabb"
  {
    var ma, mb := Multiplier("a", "3"), Multiplier("b", "2");
    assert DigitsValue("3") == 3 && Repeat("a", 3) == "aaa" && Expected(ma) == "aaa";
    assert DigitsValue("2") == 2 && Repeat("b", 2) == "bb" && Expected(mb) == "bb";
    assert [ma, mb][1..] == [mb];
  }

  /** `a*3b*2` expands to `aaabb`. */
  lemma ExpandExample()
    ensures ExpandShorthand(Normalize("a*3b*2")) == "aaabb"
  {
    MultipliersExample();
    ExpectedExample();
    assert "a*3b*2"[1] == '*';
    ExpandNormalized("a*3b*2");
  }
}
