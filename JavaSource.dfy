/** The pure part of `JavaTestRunner`: the class name derived from the job id, the
    two regular expressions of `extractClassName`, and `prepareJavaCode`, which wraps
    or renames the submitted code so that it declares that class. */
module JavaSource {
  import opened Text
  import opened Jobs

  /** `"Solution_" + jobId.replace(/-/g, "_")`. */
  function ClassName(jobId: string): (r: string)
    ensures StartsWith(r, "Solution_") && |r| == 9 + |jobId|
    ensures forall i :: 0 <= i < |r| ==> r[i] != '-'
  {
    "Solution_" + ReplaceChar(jobId, '-', '_')
  }

  /** Job ids are version-4 UUIDs, which never contain `_`; on such ids the derivation
      loses nothing: different ids give different class names. */
  lemma ClassNameInjective(a: string, b: string)
    requires forall i :: 0 <= i < |a| ==> a[i] != '_'
    requires forall i :: 0 <= i < |b| ==> b[i] != '_'
    requires ClassName(a) == ClassName(b)
    ensures a == b
  {
    assert |a| == |b|;
    forall i | 0 <= i < |a| ensures a[i] == b[i] {
      assert ClassName(a)[9 + i] == ClassName(b)[9 + i];
    }
  }

  /** A file the cleanup of class `cn` removes: `file.startsWith(cn) && file.endsWith(".class")`. */
  predicate IsClassFileOf(file: string, cn: string) {
    StartsWith(file, cn) && EndsWith(file, ".class")
  }

  /** The selection is by prefix, so it takes the class's own file and the files of its
      nested classes (`<cn>$Inner.class`); with job ids of one length (UUIDs are 36
      characters) and without `_`, it never takes any file whose name starts with the
      class name of another job, its nested class files included. */
  lemma ClassFilesIsolated(a: string, b: string)
    requires |a| == |b| && a != b
    requires forall i :: 0 <= i < |a| ==> a[i] != '_'
    requires forall i :: 0 <= i < |b| ==> b[i] != '_'
    ensures forall x :: StartsWith(x, ClassName(b)) ==> !IsClassFileOf(x, ClassName(a))
    ensures forall inner :: IsClassFileOf(ClassName(a) + inner + ".class", ClassName(a))
  {
    var ca, cb := ClassName(a), ClassName(b);
    forall x | StartsWith(x, cb) ensures !IsClassFileOf(x, ca) {
      if StartsWith(x, ca) {
        assert ca == x[..|ca|] == cb;
        ClassNameInjective(a, b);
      }
    }
    forall inner ensures IsClassFileOf(ca + inner + ".class", ca) {
      var f := ca + inner + ".class";
      assert f[..|ca|] == ca;
      assert f[|f| - 6..] == ".class";
    }
  }

  /** Every character is a word character. */
  predicate AllWord(w: string) {
    forall i :: 0 <= i < |w| ==> IsWordChar(w[i])
  }

  /** The number of white-space characters from index `i` on, as far as `\s+` reaches. */
  function SpaceRun(s: string, i: nat): (n: nat)
    requires i <= |s|
    ensures i + n <= |s|
    decreases |s| - i
  {
    if i < |s| && IsSpace(s[i]) then 1 + SpaceRun(s, i + 1) else 0
  }

  /** The number of word characters from index `i` on, as far as `\w+` reaches. */
  function WordRun(s: string, i: nat): (n: nat)
    requires i <= |s|
    ensures i + n <= |s|
    ensures forall j :: i <= j < i + n ==> IsWordChar(s[j])
    ensures i + n < |s| ==> !IsWordChar(s[i + n])
    decreases |s| - i
  {
    if i < |s| && IsWordChar(s[i]) then 1 + WordRun(s, i + 1) else 0
  }

  /** Matches `w0\s+w1\s+...wk` at index `i` and gives the index after `wk`. No word
      starts with white space, so `\s+` matches the whole run of white space or nothing. */
  function Words(s: string, i: nat, ws: seq<string>): (r: Option<nat>)
    requires i <= |s|
    ensures r.Some? ==> i <= r.value <= |s|
    decreases ws
  {
    if ws == [] then Some(i)
    else if !OccursAt(s, i, ws[0]) then None
    else if |ws| == 1 then Some(i + |ws[0]|)
    else
      var n := SpaceRun(s, i + |ws[0]|);
      if n == 0 then None else Words(s, i + |ws[0]| + n, ws[1..])
  }

  /** `public\s+static\s+void\s+main` matches at index `m`. */
  predicate MainAt(s: string, m: nat) {
    m <= |s| && Words(s, m, ["public", "static", "void", "main"]).Some?
  }

  /** The last index below `bound` at which a main declaration starts, or -1. */
  function LastMainBelow(s: string, bound: nat): (r: int)
    ensures -1 <= r < bound
    ensures r >= 0 ==> MainAt(s, r)
    ensures forall j: nat :: r < j < bound ==> !MainAt(s, j)
  {
    if bound == 0 then -1
    else if MainAt(s, bound - 1) then bound - 1
    else LastMainBelow(s, bound - 1)
  }

  /** The last main declaration, or -1. */
  function LastMain(s: string): (r: int)
    ensures -1 <= r <= |s|
    ensures r >= 0 ==> MainAt(s, r)
    ensures forall j: nat :: r < j ==> !MainAt(s, j)
  {
    LastMainBelow(s, |s| + 1)
  }

  /** The two patterns of `extractClassName`: `public\s+class\s+(\w+)`, and
      `class\s+(\w+)[\s\S]*?public\s+static\s+void\s+main`. */
  datatype ClassPattern = PublicClass | ClassBeforeMain

  function Keywords(pat: ClassPattern): seq<string> {
    match pat
    case PublicClass => ["public", "class"]
    case ClassBeforeMain => ["class"]
  }

  /** Where the group `(\w+)` starts when the keywords, the white space after them and at
      least one word character match from index `p`. */
  function NameStart(pat: ClassPattern, s: string, p: nat): (q: Option<nat>)
    ensures q.Some? ==> p < q.value < |s| && IsWordChar(s[q.value])
  {
    if p > |s| then None
    else
      match Words(s, p, Keywords(pat))
      case None => None
      case Some(e) =>
        var n := SpaceRun(s, e);
        if n == 0 || WordRun(s, e + n) == 0 then None else Some(e + n)
  }

  /** The pattern matches at index `p`: for the second one, a main declaration must
      start after the first character of the name. */
  predicate MatchAt(pat: ClassPattern, s: string, p: nat) {
    NameStart(pat, s, p).Some? && (pat == ClassBeforeMain ==> LastMain(s) > NameStart(pat, s, p).value)
  }

  /** The leftmost index from `from` on at which the pattern matches. */
  function Leftmost(pat: ClassPattern, s: string, from: nat): (r: Option<nat>)
    ensures r.Some? ==> from <= r.value <= |s| && MatchAt(pat, s, r.value)
    ensures r.Some? ==> forall p: nat :: from <= p < r.value ==> !MatchAt(pat, s, p)
    ensures r.None? ==> forall p: nat :: from <= p ==> !MatchAt(pat, s, p)
    decreases |s| + 1 - from
  {
    if from > |s| then None
    else if MatchAt(pat, s, from) then Some(from)
    else Leftmost(pat, s, from + 1)
  }

  /** The length of the group: `\w+` is greedy, and in the second pattern it gives back
      characters until a main declaration starts at or after its end. */
  function NameLength(pat: ClassPattern, s: string, q: nat): nat
    requires q <= |s|
  {
    var w := WordRun(s, q);
    if pat == PublicClass || LastMain(s) - q >= w then w
    else if LastMain(s) < q then 0
    else LastMain(s) - q
  }

  /** The text of group 1 for the match at `p`. */
  function Capture(pat: ClassPattern, s: string, p: nat): (name: string)
    requires MatchAt(pat, s, p)
  {
    var q := NameStart(pat, s, p).value;
    s[q..q + NameLength(pat, s, q)]
  }

  /** The captured name is a non-empty run of word characters; in the second pattern it
      is the longest one after which a main declaration still starts. */
  lemma CaptureSpec(pat: ClassPattern, s: string, p: nat)
    requires MatchAt(pat, s, p)
    ensures var q, name := NameStart(pat, s, p).value, Capture(pat, s, p);
      && 1 <= |name| <= WordRun(s, q)
      && AllWord(name)
      && (pat == PublicClass ==> |name| == WordRun(s, q))
      && (pat == ClassBeforeMain ==>
            (exists m: nat :: q + |name| <= m && MainAt(s, m))
            && (|name| < WordRun(s, q) ==> forall m: nat :: q + |name| < m ==> !MainAt(s, m)))
  {
    var q := NameStart(pat, s, p).value;
    NameLengthSpec(pat, s, q);
    WordPrefix(s, q, NameLength(pat, s, q));
  }

  lemma NameLengthSpec(pat: ClassPattern, s: string, q: nat)
    requires q < |s| && IsWordChar(s[q])
    requires pat == ClassBeforeMain ==> LastMain(s) > q
    ensures var k := NameLength(pat, s, q);
      && 1 <= k <= WordRun(s, q)
      && (pat == PublicClass ==> k == WordRun(s, q))
      && (pat == ClassBeforeMain ==>
            (exists m: nat :: q + k <= m && MainAt(s, m))
            && (k < WordRun(s, q) ==> forall m: nat :: q + k < m ==> !MainAt(s, m)))
  {
    assert WordRun(s, q) >= 1;
    if pat == ClassBeforeMain {
      var m: nat := LastMain(s);
      assert q + NameLength(pat, s, q) <= m && MainAt(s, m);
    }
  }

  /** A prefix of a word run is made of word characters. */
  lemma WordPrefix(s: string, q: nat, k: nat)
    requires q <= |s| && k <= WordRun(s, q)
    ensures AllWord(s[q..q + k])
  {
    var w := s[q..q + k];
    forall i | 0 <= i < |w| ensures IsWordChar(w[i]) {
      assert w[i] == s[q + i];
    }
  }

  /** `extractClassName`: the name after the leftmost `public class`; otherwise the
      class named before a main declaration; otherwise `"Main"`. */
  function ExtractClassName(code: string): (r: string)
    ensures |r| >= 1 && AllWord(r)
  {
    match Leftmost(PublicClass, code, 0)
    case Some(p) => CaptureSpec(PublicClass, code, p); Capture(PublicClass, code, p)
    case None =>
      match Leftmost(ClassBeforeMain, code, 0)
      case Some(p) => CaptureSpec(ClassBeforeMain, code, p); Capture(ClassBeforeMain, code, p)
      case None => "Main"
  }

  /** Both patterns need `class`: code without it gets the default name. */
  lemma ExtractDefault(code: string)
    requires !Contains(code, "class")
    ensures ExtractClassName(code) == "Main"
  {
    forall pat: ClassPattern, p: nat | MatchAt(pat, code, p) ensures false {
      var j := WordsEnd(code, p, Keywords(pat));
    }
  }

  /** The last keyword of a successful `Words` match occurs just before the end it gives. */
  lemma {:induction false} WordsEnd(s: string, i: nat, ws: seq<string>) returns (j: nat)
    requires i <= |s| && ws != [] && Words(s, i, ws).Some?
    ensures OccursAt(s, j, ws[|ws| - 1])
    decreases ws
  {
    if |ws| == 1 {
      j := i;
    } else {
      var n := SpaceRun(s, i + |ws[0]|);
      j := WordsEnd(s, i + |ws[0]| + n, ws[1..]);
    }
  }

  /** A word run that the next character (or the end) stops has exactly its length. */
  lemma WordRunIs(s: string, i: nat, n: nat)
    requires i + n <= |s|
    requires forall j :: i <= j < i + n ==> IsWordChar(s[j])
    requires i + n == |s| || !IsWordChar(s[i + n])
    ensures WordRun(s, i) == n
  {
  }

  /** Code that opens with `public class Name` is given `Name`, whatever follows the name. */
  lemma ExtractDeclaredName(name: string, rest: string)
    requires |name| >= 1 && AllWord(name)
    requires rest == [] || !IsWordChar(rest[0])
    ensures ExtractClassName("public class " + name + rest) == name
  {
    var code := "public class " + name + rest;
    assert code[..13] == "public class ";
    assert code[13] == name[0];
    WordNotSpace(name[0]);
    KeywordsAtStart(code);
    forall j | 13 <= j < 13 + |name| ensures IsWordChar(code[j]) {
      assert code[j] == name[j - 13];
    }
    if rest != [] {
      assert code[13 + |name|] == rest[0];
    }
    WordRunIs(code, 13, |name|);
    assert code[13..13 + |name|] == name;
  }

  lemma WordNotSpace(c: char)
    requires IsWordChar(c)
    ensures !IsSpace(c)
  {
  }

  /** `public class ` followed by a word character matches at index 0, with the name at 13. */
  lemma KeywordsAtStart(s: string)
    requires |s| > 13 && s[..13] == "public class "
    requires IsWordChar(s[13]) && !IsSpace(s[13])
    ensures NameStart(PublicClass, s, 0) == Some(13)
  {
    assert OccursAt(s, 0, "public") by { assert s[0..6] == s[..13][0..6]; }
    assert SpaceRun(s, 6) == 1 by { assert s[6] == ' ' && s[7] == 'c'; }
    assert OccursAt(s, 7, "class") by { assert s[7..12] == s[..13][7..12]; }
    assert Words(s, 7, ["class"]) == Some(12);
    assert ["public", "class"][1..] == ["class"];
    assert Words(s, 0, ["public", "class"]) == Some(12);
    assert SpaceRun(s, 12) == 1 by { assert s[12] == ' '; }
  }

  /** Ids made of word characters and `-` (UUIDs are hexadecimal digits and `-`) give a
      class name that `\w+` matches in full. */
  lemma ClassNameIsWord(jobId: string)
    requires forall i :: 0 <= i < |jobId| ==> IsWordChar(jobId[i]) || jobId[i] == '-'
    ensures forall i :: 0 <= i < |ClassName(jobId)| ==> IsWordChar(ClassName(jobId)[i])
  {
    var cn := ClassName(jobId);
    forall i | 0 <= i < |cn| ensures IsWordChar(cn[i]) {
      if i >= 9 {
        assert cn[i] == ReplaceChar(jobId, '-', '_')[i - 9];
      } else {
        assert cn[..9] == "Solution_";
        assert cn[i] == "Solution_"[i];
      }
    }
  }

  /** The start of every wrapped class. */
  const Header := "\nimport java.util.*;\nimport java.io.*;\n\n"

  const MainSignature := "public static void main"

  /** The opening brace of a wrapped class and the indentation of its first line. */
  const Indent := " {\n    "

  /** What the statements template puts between the declaration and the code. */
  const StatementsOpen := Indent + MainSignature + "(String[] args) {\n        Scanner scanner = new Scanner(System.in);\n        "

  const StatementsClose := "\n        scanner.close();\n    }\n}"

  function Declaration(cn: string): string { "public class " + cn }

  /** Statements only: the code becomes the body of a `main` that opens a `Scanner`. */
  function WrapStatements(code: string, cn: string): string {
    Header + Declaration(cn) + StatementsOpen + code + StatementsClose
  }

  /** Members with a `main` but no class: the code becomes the class body. */
  function WrapMembers(code: string, cn: string): string {
    Header + Declaration(cn) + Indent + code + "\n}"
  }

  /** `code.replace(/public\s+class\s+\w+/, "public class " + cn)`: the first match, with
      the whole name, is replaced; without a match the code is unchanged. */
  function RenamePublicClass(code: string, cn: string): string {
    match Leftmost(PublicClass, code, 0)
    case None => code
    case Some(p) =>
      var q := NameStart(PublicClass, code, p).value;
      code[..p] + Declaration(cn) + code[q + WordRun(code, q)..]
  }

  /** `prepareJavaCode`. */
  function PrepareJavaCode(code: string, cn: string): string {
    if !Contains(code, "public class") && !Contains(code, "class " + cn) then
      if !Contains(code, MainSignature) then WrapStatements(code, cn) else WrapMembers(code, cn)
    else RenamePublicClass(code, cn)
  }

  /** Code whose text contains neither `public class` nor `class <cn>` is wrapped whole
      into `public class <cn>`. Without the text `public static void main`, the code becomes
      the body of the template's `main`, right after the line that opens the `Scanner` and
      right before the line that closes it; with it, the code becomes the class body. */
  lemma PrepareWraps(code: string, cn: string)
    requires !Contains(code, "public class") && !Contains(code, "class " + cn)
    ensures var r, d := PrepareJavaCode(code, cn), |Header| + |Declaration(cn)|;
      && r[..|Header|] == Header
      && OccursAt(r, |Header|, Declaration(cn))
      && Contains(r, code)
      && Contains(r, MainSignature)
      && (Contains(code, MainSignature) <==> r == WrapMembers(code, cn))
      && (!Contains(code, MainSignature) ==>
            && OccursAt(r, d, StatementsOpen)
            && OccursAt(r, d + |StatementsOpen|, code)
            && r[d + |StatementsOpen| + |code|..] == StatementsClose)
      && (Contains(code, MainSignature) ==>
            && OccursAt(r, d, Indent)
            && OccursAt(r, d + |Indent|, code)
            && r[d + |Indent| + |code|..] == "\n}")
  {
    if !Contains(code, MainSignature) {
      StatementsTemplate(code, cn);
      Pieces(Header, Declaration(cn), StatementsOpen, code, StatementsClose);
      assert |WrapStatements(code, cn)| != |WrapMembers(code, cn)|;
    } else {
      MembersTemplate(code, cn);
      Pieces(Header, Declaration(cn), Indent, code, "\n}");
    }
  }

  /** The statements template declares `main` itself. */
  lemma StatementsTemplate(code: string, cn: string)
    ensures Contains(WrapStatements(code, cn), MainSignature)
  {
    var r := WrapStatements(code, cn);
    Pieces(Header, Declaration(cn), StatementsOpen, code, StatementsClose);
    OccursBetween(Indent, MainSignature, StatementsOpen[|Indent| + |MainSignature|..]);
    assert StatementsOpen == Indent + MainSignature + StatementsOpen[|Indent| + |MainSignature|..];
    OccursWithin(r, |Header| + |Declaration(cn)|, StatementsOpen, |Indent|, MainSignature);
  }

  /** Where the pieces of a five-piece template sit. */
  lemma Pieces(a: string, b: string, c: string, d: string, e: string)
    ensures (a + b + c + d + e)[..|a|] == a
    ensures OccursAt(a + b + c + d + e, |a|, b)
    ensures OccursAt(a + b + c + d + e, |a| + |b|, c)
    ensures OccursAt(a + b + c + d + e, |a| + |b| + |c|, d)
    ensures (a + b + c + d + e)[|a| + |b| + |c| + |d|..] == e
  {
    var r := a + b + c + d + e;
    assert r == a + b + (c + d + e);
    OccursBetween(a, b, c + d + e);
    assert r == a + b + c + (d + e);
    OccursBetween(a + b, c, d + e);
    OccursBetween(a + b + c, d, e);
  }

  /** Code with its own `main` keeps declaring it inside the members template. */
  lemma MembersTemplate(code: string, cn: string)
    requires Contains(code, MainSignature)
    ensures Contains(WrapMembers(code, cn), MainSignature)
  {
    var r := WrapMembers(code, cn);
    Pieces(Header, Declaration(cn), Indent, code, "\n}");
    var i: nat :| i <= |code| && OccursAt(code, i, MainSignature);
    OccursWithin(r, |Header| + |Declaration(cn)| + |Indent|, code, i, MainSignature);
  }

  /** Otherwise the first `public class X` becomes `public class <cn>` and the text before
      and after it is kept; without such a match the code is passed on unchanged. */
  lemma PrepareRenames(code: string, cn: string)
    requires Contains(code, "public class") || Contains(code, "class " + cn)
    ensures var r := PrepareJavaCode(code, cn);
      && (Leftmost(PublicClass, code, 0).None? ==> r == code)
      && (Leftmost(PublicClass, code, 0).Some? ==>
            var p := Leftmost(PublicClass, code, 0).value;
            var q := NameStart(PublicClass, code, p).value;
            && r[..p] == code[..p]
            && OccursAt(r, p, Declaration(cn))
            && r[p + |Declaration(cn)|..] == code[q + WordRun(code, q)..])
  {
    assert PrepareJavaCode(code, cn) == RenamePublicClass(code, cn);
    match Leftmost(PublicClass, code, 0)
    case None =>
    case Some(p) =>
      var q := NameStart(PublicClass, code, p).value;
      Spliced(code[..p], Declaration(cn), code[q + WordRun(code, q)..]);
  }

  /** Where the pieces of `a + b + c` sit. */
  lemma Spliced(a: string, b: string, c: string)
    ensures (a + b + c)[..|a|] == a
    ensures OccursAt(a + b + c, |a|, b)
    ensures (a + b + c)[|a| + |b|..] == c
  {
    OccursBetween(a, b, c);
  }
}
