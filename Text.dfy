/** String helpers with the meaning JavaScript gives them: white space as the
    `\s` class and `String.prototype.trim` see it, `join`, `startsWith`,
    `endsWith`, `includes`, `lastIndexOf`, `repeat` and decimal rendering. */
module Text {

  /** The characters matched by `\s` and removed by `trim()`. */
  predicate IsSpace(c: char) {
    || c == ' ' || c == '\t' || c == '\n' || c == '\r'
    || c == '\U{000B}' || c == '\U{000C}' || c == '\U{00A0}' || c == '\U{1680}'
    || ('\U{2000}' <= c <= '\U{200A}')
    || c == '\U{2028}' || c == '\U{2029}' || c == '\U{202F}' || c == '\U{205F}'
    || c == '\U{3000}' || c == '\U{FEFF}'
  }

  /** The characters matched by `\w`. */
  predicate IsWordChar(c: char) {
    ('a' <= c <= 'z') || ('A' <= c <= 'Z') || ('0' <= c <= '9') || c == '_'
  }

  predicate IsDigit(c: char) { '0' <= c <= '9' }

  predicate NoSpace(s: string) { forall i :: 0 <= i < |s| ==> !IsSpace(s[i]) }

  /** An occurrence in a suffix of `s` is an occurrence in `s`, shifted. */
  lemma OccursInSuffix(s: string, k: nat, i: nat, p: string)
    requires k <= |s| && OccursAt(s[k..], i, p)
    ensures OccursAt(s, k + i, p)
  {
    forall j | 0 <= j < |p| ensures s[k + i + j] == p[j] {
      assert s[k..][i..i + |p|][j] == p[j];
    }
    assert s[k + i..k + i + |p|] == p;
  }

  /** An occurrence in a prefix of `s` is an occurrence in `s`. */
  lemma OccursInPrefix(s: string, n: nat, i: nat, p: string)
    requires n <= |s| && OccursAt(s[..n], i, p)
    ensures OccursAt(s, i, p)
  {
    forall j | 0 <= j < |p| ensures s[i + j] == p[j] {
      assert s[..n][i..i + |p|][j] == p[j];
    }
    assert s[i..i + |p|] == p;
  }

  /** `s.trim()`: leading and trailing white space removed, one character at a time. */
  function Trim(s: string): (r: string)
    ensures |r| <= |s|
    decreases |s|
  {
    if s != [] && IsSpace(s[0]) then Trim(s[1..])
    else if s != [] && IsSpace(s[|s| - 1]) then Trim(s[..|s| - 1])
    else s
  }

  /** A string that neither starts nor ends with white space is its own trim. */
  lemma TrimOfTrimmed(s: string)
    requires s == [] || (!IsSpace(s[0]) && !IsSpace(s[|s| - 1]))
    ensures Trim(s) == s
  {
  }

  /** The trimmed string neither starts nor ends with white space. */
  lemma {:induction false} TrimEnds(s: string)
    ensures Trim(s) == [] || (!IsSpace(Trim(s)[0]) && !IsSpace(Trim(s)[|Trim(s)| - 1]))
    decreases |s|
  {
    if s != [] && IsSpace(s[0]) {
      TrimEnds(s[1..]);
    } else if s != [] && IsSpace(s[|s| - 1]) {
      TrimEnds(s[..|s| - 1]);
    }
  }

  /** Trimming twice is trimming once. */
  lemma TrimIdempotent(s: string)
    ensures Trim(Trim(s)) == Trim(s)
  {
    TrimEnds(s);
    TrimOfTrimmed(Trim(s));
  }

  /** Every character of `s` is white space. */
  predicate AllSpace(s: string) {
    s == [] || (IsSpace(s[0]) && AllSpace(s[1..]))
  }

  /** `r` occurs in `s` at `i`, with only white space around it. */
  predicate Framed(s: string, i: nat, r: string) {
    OccursAt(s, i, r) && AllSpace(s[..i]) && AllSpace(s[i + |r|..])
  }

  /** Only white space is removed: `s` is white space, then `Trim(s)`, then white space. */
  lemma {:induction false} TrimDropsSpaces(s: string) returns (i: nat)
    ensures Framed(s, i, Trim(s))
    decreases |s|
  {
    if s != [] && IsSpace(s[0]) {
      var k := TrimDropsSpaces(s[1..]);
      FramedCons(s, k, Trim(s));
      i := k + 1;
    } else if s != [] && IsSpace(s[|s| - 1]) {
      i := TrimDropsSpaces(s[..|s| - 1]);
      FramedSnoc(s, i, Trim(s));
    } else {
      i := 0;
      assert OccursAt(s, 0, s);
    }
  }

  lemma FramedCons(s: string, k: nat, r: string)
    requires s != [] && IsSpace(s[0])
    requires Framed(s[1..], k, r)
    ensures Framed(s, k + 1, r)
  {
    OccursInSuffix(s, 1, k, r);
    assert s[..k + 1] == [s[0]] + s[1..][..k];
    assert s[k + 1 + |r|..] == s[1..][k + |r|..];
  }

  lemma FramedSnoc(s: string, i: nat, r: string)
    requires s != [] && IsSpace(s[|s| - 1])
    requires Framed(s[..|s| - 1], i, r)
    ensures Framed(s, i, r)
  {
    var t := s[..|s| - 1];
    OccursInPrefix(s, |s| - 1, i, r);
    assert s[..i] == t[..i];
    AllSpaceSnoc(t[i + |r|..], s[|s| - 1]);
    assert s[i + |r|..] == t[i + |r|..] + [s[|s| - 1]];
  }

  lemma {:induction false} AllSpaceSnoc(s: string, c: char)
    requires AllSpace(s) && IsSpace(c)
    ensures AllSpace(s + [c])
    decreases |s|
  {
    if s != [] {
      AllSpaceSnoc(s[1..], c);
      assert (s + [c])[1..] == s[1..] + [c];
    }
  }

  /** `xs.join(sep)` for an array of strings. */
  function Join(xs: seq<string>, sep: string): string {
    if |xs| == 0 then ""
    else if |xs| == 1 then xs[0]
    else xs[0] + sep + Join(xs[1..], sep)
  }

  predicate StartsWith(s: string, p: string) {
    |p| <= |s| && s[..|p|] == p
  }

  predicate EndsWith(s: string, p: string) {
    |p| <= |s| && s[|s| - |p|..] == p
  }

  /** `p` occurs in `s` at index `i`. */
  predicate OccursAt(s: string, i: nat, p: string) {
    i + |p| <= |s| && s[i..i + |p|] == p
  }

  /** `b` occurs in `a + b + c` right after `a`. */
  lemma OccursBetween(a: string, b: string, c: string)
    ensures OccursAt(a + b + c, |a|, b)
  {
    assert (a + b + c)[|a|..|a| + |b|] == b;
  }

  /** An occurrence inside an occurrence is an occurrence. */
  lemma OccursWithin(s: string, k: nat, t: string, i: nat, p: string)
    requires OccursAt(s, k, t) && OccursAt(t, i, p)
    ensures OccursAt(s, k + i, p)
  {
    forall j | 0 <= j < |p| ensures s[k + i + j] == p[j] {
      assert s[k..k + |t|][i + j] == t[i + j];
      assert t[i..i + |p|][j] == p[j];
    }
    assert s[k + i..k + i + |p|] == p;
  }

  /** `s.includes(p)`. */
  predicate Contains(s: string, p: string) {
    exists i: nat | i <= |s| :: OccursAt(s, i, p)
  }

  /** The last index below `bound` at which `p` occurs in `s`, or -1. */
  function LastIndexBelow(s: string, p: string, bound: nat): (r: int)
    ensures -1 <= r < bound
    ensures r >= 0 ==> OccursAt(s, r, p)
    ensures forall j: nat :: r < j < bound ==> !OccursAt(s, j, p)
  {
    if bound == 0 then -1
    else if OccursAt(s, bound - 1, p) then bound - 1
    else LastIndexBelow(s, p, bound - 1)
  }

  /** `s.lastIndexOf(p)`: the last index at which `p` occurs, or -1. */
  function LastIndexOf(s: string, p: string): (r: int)
    ensures -1 <= r <= |s|
    ensures r >= 0 ==> OccursAt(s, r, p)
    ensures forall j: nat :: r < j ==> !OccursAt(s, j, p)
  {
    LastIndexBelow(s, p, |s| + 1)
  }

  /** `s.replace(/c/g, d)` for single characters. */
  function ReplaceChar(s: string, c: char, d: char): (r: string)
    ensures |r| == |s|
    ensures forall i :: 0 <= i < |s| ==> r[i] == (if s[i] == c then d else s[i])
  {
    if s == [] then [] else [if s[0] == c then d else s[0]] + ReplaceChar(s[1..], c, d)
  }

  /** `s.repeat(n)`. */
  function Repeat(s: string, n: nat): (r: string)
    ensures |r| == |s| * n
  {
    if n == 0 then "" else s + Repeat(s, n - 1)
  }

  function DigitChar(d: nat): char
    requires d < 10
  {
    "0123456789"[d]
  }

  /** The decimal rendering of a natural number, as `String(n)` gives it. */
  function Decimal(n: nat): (r: string)
    ensures |r| >= 1
    ensures forall i :: 0 <= i < |r| ==> IsDigit(r[i])
    decreases n
  {
    if n < 10 then [DigitChar(n)] else Decimal(n / 10) + [DigitChar(n % 10)]
  }

  /** The decimal rendering of an integer, with a leading `-` when negative. */
  function IntToString(n: int): string {
    if n < 0 then "-" + Decimal(-n) else Decimal(n)
  }

  /** The value of a digit character (0 for any other character). */
  function DigitValue(c: char): nat {
    if IsDigit(c) then c as int - '0' as int else 0
  }

  /** The value of a string of decimal digits, as `Number` or `parseInt` read it;
      callers pass digits only. */
  function DigitsValue(s: string): nat {
    if s == [] then 0 else DigitsValue(s[..|s| - 1]) * 10 + DigitValue(s[|s| - 1])
  }

  /** `DigitsValue` reads back what `Decimal` renders. */
  lemma {:induction false} DigitsValueOfDecimal(n: nat)
    ensures DigitsValue(Decimal(n)) == n
    decreases n
  {
    if n >= 10 {
      var s := Decimal(n);
      assert s[..|s| - 1] == Decimal(n / 10);
      DigitsValueOfDecimal(n / 10);
    }
  }

  /** The length of the leading run of characters that are not white space. */
  function WordLength(s: string): (n: nat)
    ensures n <= |s|
    ensures s != [] && !IsSpace(s[0]) ==> n >= 1
  {
    if s != [] && !IsSpace(s[0]) then 1 + WordLength(s[1..]) else 0
  }

  /** `s.split(/\s+/).filter((t) => t.length > 0)`: the maximal runs of characters that
      are not white space, in order. */
  function Tokens(s: string): seq<string>
    decreases |s|
  {
    if s == [] then []
    else if IsSpace(s[0]) then Tokens(s[1..])
    else
      var n := WordLength(s);
      [s[..n]] + Tokens(s[n..])
  }

  /** `s` with its white space removed. */
  function RemoveSpaces(s: string): string {
    if s == [] then "" else (if IsSpace(s[0]) then "" else [s[0]]) + RemoveSpaces(s[1..])
  }

  /** The strings of `ts` one after another. */
  function Concat(ts: seq<string>): string {
    if ts == [] then "" else ts[0] + Concat(ts[1..])
  }

  /** Every token is non-empty and contains no white space. */
  predicate Tokenlike(ts: seq<string>) {
    forall k :: 0 <= k < |ts| ==> |ts[k]| >= 1 && NoSpace(ts[k])
  }

  /** The leading run is free of white space. */
  lemma {:induction false} WordLengthNoSpace(s: string)
    ensures NoSpace(s[..WordLength(s)])
  {
    if s != [] && !IsSpace(s[0]) {
      WordLengthNoSpace(s[1..]);
      var n := WordLength(s);
      forall i | 0 <= i < n ensures !IsSpace(s[..n][i]) {
        if i > 0 {
          assert s[..n][i] == s[1..][..n - 1][i - 1];
        }
      }
    }
  }

  /** Splitting yields non-empty tokens without white space. */
  lemma {:induction false} TokensAreWords(s: string)
    ensures Tokenlike(Tokens(s))
    decreases |s|
  {
    if s != [] {
      if IsSpace(s[0]) {
        TokensAreWords(s[1..]);
      } else {
        var n := WordLength(s);
        TokensAreWords(s[n..]);
        WordLengthNoSpace(s);
        var ts := Tokens(s);
        forall k | 0 <= k < |ts| ensures |ts[k]| >= 1 && NoSpace(ts[k]) {
          if k > 0 {
            assert ts[k] == Tokens(s[n..])[k - 1];
          }
        }
      }
    }
  }

  /** Removing white space from a string that opens with a run of `n` other characters
      keeps that run whole. */
  lemma {:induction false} RemoveSpacesAfterWord(s: string)
    ensures RemoveSpaces(s) == s[..WordLength(s)] + RemoveSpaces(s[WordLength(s)..])
    decreases |s|
  {
    if s != [] && !IsSpace(s[0]) {
      RemoveSpacesAfterWord(s[1..]);
      var n := WordLength(s);
      assert s[1..][..n - 1] == s[1..n] && s[1..][n - 1..] == s[n..];
      assert s[..n] == [s[0]] + s[1..n];
    }
  }

  /** Splitting loses only the white space: the tokens, put back together, are the
      string without its white space. */
  lemma {:induction false} TokensKeepText(s: string)
    ensures Concat(Tokens(s)) == RemoveSpaces(s)
    decreases |s|
  {
    if s != [] {
      if IsSpace(s[0]) {
        TokensKeepText(s[1..]);
      } else {
        var n := WordLength(s);
        TokensKeepText(s[n..]);
        RemoveSpacesAfterWord(s);
        var ts := Tokens(s);
        assert ts[1..] == Tokens(s[n..]);
      }
    }
  }
}
