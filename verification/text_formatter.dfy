/**
 * `formatAiResponse`: the pipeline of rewrites that turns a model's
 * markdown and LaTeX into plain text for display. Each rewrite is either a
 * literal `replace` or a regular-expression `replace`; both scan left to
 * right and replace non-overlapping matches. A regular expression is
 * modelled by what it matches at one position (`MatchAt`), with the
 * semantics of `java.util.regex`: `\s` is ASCII whitespace, `[^}]` and
 * `[^*]` match line terminators too, and `^`/`$` in MULTILINE mode are
 * defined by `CaretAt`/`DollarAt`.
 */
module TextFormatter {
  import opened Wrappers
  import opened Text

  // ---------------------------------------------------------------------------
  // Character classes and runs

  predicate IsHash(c: char) { c == '#' }
  predicate IsDash(c: char) { c == '-' }
  predicate IsNewline(c: char) { c == '\n' }

  /** `[a-zA-Z]`. */
  predicate IsAsciiLetter(c: char) {
    ('a' <= c <= 'z') || ('A' <= c <= 'Z')
  }

  /** The end of the run of characters satisfying `p` that starts at `j`. */
  function Span(s: String, j: nat, p: char -> bool): (k: nat)
    requires j <= |s|
    ensures j <= k <= |s|
    ensures k < |s| ==> !p(s[k])
    decreases |s| - j
  {
    if j == |s| || !p(s[j]) then j else Span(s, j + 1, p)
  }

  lemma {:induction false} SpanShape(s: String, j: nat, p: char -> bool)
    requires j <= |s|
    ensures forall m :: j <= m < Span(s, j, p) ==> p(s[m])
    decreases |s| - j
  {
    if j < |s| && p(s[j]) {
      SpanShape(s, j + 1, p);
    }
  }

  lemma {:induction false} SpanIs(s: String, j: nat, k: nat, p: char -> bool)
    requires j <= k <= |s|
    requires forall m :: j <= m < k ==> p(s[m])
    requires k == |s| || !p(s[k])
    ensures Span(s, j, p) == k
    decreases k - j
  {
    if j < k {
      SpanIs(s, j + 1, k, p);
    }
  }

  /** The first `c` at or after `j`, or the end. */
  function FirstFrom(s: String, j: nat, c: char): (k: nat)
    requires j <= |s|
    ensures j <= k <= |s|
    ensures k < |s| ==> s[k] == c
    decreases |s| - j
  {
    if j == |s| || s[j] == c then j else FirstFrom(s, j + 1, c)
  }

  lemma {:induction false} FirstFromShape(s: String, j: nat, c: char)
    requires j <= |s|
    ensures forall m :: j <= m < FirstFrom(s, j, c) ==> s[m] != c
    decreases |s| - j
  {
    if j < |s| && s[j] != c {
      FirstFromShape(s, j + 1, c);
    }
  }

  lemma {:induction false} FirstFromIs(s: String, j: nat, k: nat, c: char)
    requires j <= k <= |s|
    requires forall m :: j <= m < k ==> s[m] != c
    requires k == |s| || s[k] == c
    ensures FirstFrom(s, j, c) == k
    decreases k - j
  {
    if j < k {
      FirstFromIs(s, j + 1, k, c);
    }
  }

  /** `^` in MULTILINE mode: at the start, or just after a line terminator
      (but not between `\r` and `\n`), and never at the very end. */
  predicate CaretAt(s: String, i: nat) {
    i < |s| && (i == 0 || (IsLineTerminator(s[i - 1]) && !(s[i - 1] == '\r' && s[i] == '\n')))
  }

  /** `$` in MULTILINE mode: at the end, or just before a line terminator
      (but not between `\r` and `\n`). */
  predicate DollarAt(s: String, i: nat) {
    i == |s| || (i < |s| && IsLineTerminator(s[i]) && !(s[i] == '\n' && i > 0 && s[i - 1] == '\r'))
  }

  /** The largest `e` with `lo <= e <= hi` at which `$` matches. */
  function LastDollar(s: String, lo: nat, hi: nat): (e: Option<nat>)
    requires lo <= hi <= |s|
    ensures e.Some? ==> lo <= e.value <= hi && DollarAt(s, e.value)
    decreases hi - lo
  {
    if DollarAt(s, hi) then Some(hi)
    else if hi == lo then None
    else LastDollar(s, lo, hi - 1)
  }

  // ---------------------------------------------------------------------------
  // The regular expressions

  /** The regular expressions of the pipeline, in the order they run. */
  datatype Pass =
    | Frac     // \\frac\{([^}]*)}\{([^}]*)}  ->  $1/$2
    | TextCmd  // \\text\{([^}]*)}            ->  $1
    | Sqrt     // \\sqrt\{([^}]*)}            ->  √($1)
    | Sub      // _\{([^}]*)}                 ->  _$1
    | Sup      // \^\{([^}]*)}                ->  ^$1
    | Header   // ^#{1,6}\s+  (MULTILINE)     ->  ""
    | Bold     // \*\*([^*]+)\*\*             ->  $1
    | Italic   // \*([^*]+)\*                 ->  $1
    | Rule     // ^-{3,}\s*$  (MULTILINE)     ->  ""
    | Command  // \\([a-zA-Z]+)               ->  $1
    | Blank    // \n{3,}                      ->  "\n\n"

  /** A match at some position: how many characters it covers and what
      replaces them. */
  datatype Match = Match(len: nat, rep: String)

  /** `open` followed by `[^}]*` and `}`: the group and the position after
      the closing brace. */
  datatype Group = Group(text: String, end: nat)

  function BraceGroup(s: String, i: nat, open: String): (g: Option<Group>)
    requires i <= |s|
    ensures g.Some? ==> i + |open| < g.value.end <= |s|
  {
    if StartsWith(s[i..], open) then
      var k := FirstFrom(s, i + |open|, '}');
      if k < |s| then Some(Group(s[i + |open|..k], k + 1)) else None
    else None
  }

  /** `\frac{a}{b}` at `i`: `a/b`. */
  function FracAt(s: String, i: nat): (m: Option<Match>)
    requires i < |s|
    ensures m.Some? ==> 0 < m.value.len && i + m.value.len <= |s|
  {
    match BraceGroup(s, i, "\\frac{")
    case Some(g1) =>
      (match BraceGroup(s, g1.end, "{")
       case Some(g2) => Some(Match(g2.end - i, g1.text + "/" + g2.text))
       case None => None)
    case None => None
  }

  /** `open` + group + `}` at `i`, replaced by `pre` + group + `post`. */
  function GroupAt(s: String, i: nat, open: String, pre: String, post: String): (m: Option<Match>)
    requires i < |s|
    ensures m.Some? ==> 0 < m.value.len && i + m.value.len <= |s|
  {
    match BraceGroup(s, i, open)
    case Some(g) => Some(Match(g.end - i, pre + g.text + post))
    case None => None
  }

  /** `^#{1,6}\s+` at `i`: removed. `#{1,6}` cannot stop inside a longer
      run, because `\s+` must follow. */
  function HeaderAt(s: String, i: nat): (m: Option<Match>)
    requires i < |s|
    ensures m.Some? ==> 0 < m.value.len && i + m.value.len <= |s|
  {
    if CaretAt(s, i) && s[i] == '#' then
      var h := Span(s, i, IsHash);
      if h - i <= 6 && h < |s| && IsRegexSpace(s[h]) then Some(Match(Span(s, h, IsRegexSpace) - i, ""))
      else None
    else None
  }

  /** `\*\*([^*]+)\*\*` at `i`: the text between the pairs of stars. */
  function BoldAt(s: String, i: nat): (m: Option<Match>)
    requires i < |s|
    ensures m.Some? ==> 0 < m.value.len && i + m.value.len <= |s|
  {
    if StartsWith(s[i..], "**") then
      var k := FirstFrom(s, i + 2, '*');
      if i + 2 < k && k + 1 < |s| && s[k + 1] == '*' then Some(Match(k + 2 - i, s[i + 2..k])) else None
    else None
  }

  /** `\*([^*]+)\*` at `i`: the text between the stars. */
  function ItalicAt(s: String, i: nat): (m: Option<Match>)
    requires i < |s|
    ensures m.Some? ==> 0 < m.value.len && i + m.value.len <= |s|
  {
    if s[i] == '*' then
      var k := FirstFrom(s, i + 1, '*');
      if i + 1 < k && k < |s| then Some(Match(k + 1 - i, s[i + 1..k])) else None
    else None
  }

  /** `^-{3,}\s*$` at `i`: removed. `-{3,}` takes the whole run (a dash is
      not `\s` and `$` cannot match before a dash); `\s*` then backs off to
      the last position where `$` matches. */
  function RuleAt(s: String, i: nat): (m: Option<Match>)
    requires i < |s|
    ensures m.Some? ==> 0 < m.value.len && i + m.value.len <= |s|
  {
    if CaretAt(s, i) && s[i] == '-' then
      var d := Span(s, i, IsDash);
      if d - i >= 3 then
        match LastDollar(s, d, Span(s, d, IsRegexSpace))
        case Some(e) => Some(Match(e - i, ""))
        case None => None
      else None
    else None
  }

  /** `\\([a-zA-Z]+)` at `i`: the letters without the backslash. */
  function CommandAt(s: String, i: nat): (m: Option<Match>)
    requires i < |s|
    ensures m.Some? ==> 0 < m.value.len && i + m.value.len <= |s|
  {
    if s[i] == '\\' && i + 1 < |s| && IsAsciiLetter(s[i + 1]) then
      var l := Span(s, i + 1, IsAsciiLetter);
      Some(Match(l - i, s[i + 1..l]))
    else None
  }

  /** `\n{3,}` at `i`: two newlines. */
  function BlankAt(s: String, i: nat): (m: Option<Match>)
    requires i < |s|
    ensures m.Some? ==> 0 < m.value.len && i + m.value.len <= |s|
  {
    if s[i] == '\n' && Span(s, i, IsNewline) - i >= 3 then Some(Match(Span(s, i, IsNewline) - i, "\n\n"))
    else None
  }

  /** What the pass's regular expression matches starting exactly at `i`,
      with Java's backtracking order. Every match is non-empty. */
  function MatchAt(p: Pass, s: String, i: nat): (m: Option<Match>)
    requires i < |s|
    ensures m.Some? ==> 0 < m.value.len && i + m.value.len <= |s|
  {
    match p
    case Frac => FracAt(s, i)
    case TextCmd => GroupAt(s, i, "\\text{", "", "")
    case Sqrt => GroupAt(s, i, "\\sqrt{", "√(", ")")
    case Sub => GroupAt(s, i, "_{", "_", "")
    case Sup => GroupAt(s, i, "^{", "^", "")
    case Header => HeaderAt(s, i)
    case Bold => BoldAt(s, i)
    case Italic => ItalicAt(s, i)
    case Rule => RuleAt(s, i)
    case Command => CommandAt(s, i)
    case Blank => BlankAt(s, i)
  }

  /** `Regex.replace` from position `i`: at each position either the match
      there is replaced and scanning resumes after it, or one character is
      copied. Anchors are evaluated on the original text. */
  function Scan(p: Pass, s: String, i: nat): String
    requires i <= |s|
    decreases |s| - i
  {
    if i == |s| then []
    else
      match MatchAt(p, s, i)
      case Some(m) => m.rep + Scan(p, s, i + m.len)
      case None => [s[i]] + Scan(p, s, i + 1)
  }

  function Apply(p: Pass, s: String): String {
    Scan(p, s, 0)
  }

  // ---------------------------------------------------------------------------
  // The pipeline

  /** One statement of the pipeline: a literal `replace` or a regular
      expression `replace`. */
  datatype Stage = Literal(pat: String, rep: String) | Regex(pass: Pass)

  /** The LaTeX symbol replacements, in source order: `\name` becomes its
      glyph. */
  const SYMBOL_STAGES: seq<Stage> := [
    Literal("\\pi", "π"),
    Literal("\\approx", "≈"),
    Literal("\\times", "×"),
    Literal("\\div", "÷"),
    Literal("\\cdot", "·"),
    Literal("\\leq", "≤"),
    Literal("\\geq", "≥"),
    Literal("\\neq", "≠"),
    Literal("\\infty", "∞"),
    Literal("\\sum", "Σ"),
    Literal("\\pm", "±"),
    Literal("\\degree", "°"),
    Literal("\\quad", " "),
    Literal("\\ ", " ")
  ]

  /** Literal `\n` decoding, then the math delimiters, then the LaTeX
      commands with a braced argument. */
  const LATEX_STAGES: seq<Stage> := [
    Literal("\\n", "\n"),
    Literal("\\[", ""),
    Literal("\\]", ""),
    Literal("\\(", ""),
    Literal("\\)", ""),
    Regex(Frac),
    Regex(TextCmd),
    Regex(Sqrt)
  ]

  /** Sub- and superscripts, markdown, unknown commands, blank lines. */
  const MARKUP_STAGES: seq<Stage> := [
    Regex(Sub),
    Regex(Sup),
    Regex(Header),
    Regex(Bold),
    Regex(Italic),
    Regex(Rule),
    Regex(Command)
  ]

  const STAGES: seq<Stage> := LATEX_STAGES + SYMBOL_STAGES + MARKUP_STAGES + [Regex(Blank)]

  /** One stage applied to the text. (No stage has an empty pattern.) */
  function ApplyStage(st: Stage, s: String): String {
    match st
    case Literal(pat, rep) => if pat == [] then s else ReplaceAll(s, pat, rep)
    case Regex(p) => Apply(p, s)
  }

  function RunStages(stages: seq<Stage>, s: String): String
    decreases |stages|
  {
    if stages == [] then s else RunStages(stages[1..], ApplyStage(stages[0], s))
  }

  /** `formatAiResponse`. */
  function Format(raw: String): String {
    Trim(RunStages(STAGES, raw))
  }

  lemma {:induction false} RunStagesAppend(a: seq<Stage>, b: seq<Stage>, s: String)
    ensures RunStages(a + b, s) == RunStages(b, RunStages(a, s))
    decreases |a|
  {
    if a == [] {
      assert a + b == b;
    } else {
      assert (a + b)[0] == a[0];
      assert (a + b)[1..] == a[1..] + b;
      RunStagesAppend(a[1..], b, ApplyStage(a[0], s));
    }
  }

  // ---------------------------------------------------------------------------
  // Scanning without a match copies

  lemma {:induction false} ScanCopies(p: Pass, s: String, i: nat)
    requires i <= |s|
    requires forall j :: i <= j < |s| ==> MatchAt(p, s, j).None?
    ensures Scan(p, s, i) == s[i..]
    decreases |s| - i
  {
    if i < |s| {
      ScanCopies(p, s, i + 1);
      assert s[i..] == [s[i]] + s[i + 1..];
    }
  }

  /** The character every match of the pass starts with. */
  function Lead(p: Pass): char {
    match p
    case Frac => '\\'
    case TextCmd => '\\'
    case Sqrt => '\\'
    case Sub => '_'
    case Sup => '^'
    case Header => '#'
    case Bold => '*'
    case Italic => '*'
    case Rule => '-'
    case Command => '\\'
    case Blank => '\n'
  }

  lemma MatchStartsWithLead(p: Pass, s: String, i: nat)
    requires i < |s|
    ensures MatchAt(p, s, i).Some? ==> s[i] == Lead(p)
  {
    if MatchAt(p, s, i).Some? {
      match p
      case Frac => assert s[i..][0] == s[i];
      case TextCmd => assert s[i..][0] == s[i];
      case Sqrt => assert s[i..][0] == s[i];
      case Sub => assert s[i..][0] == s[i];
      case Sup => assert s[i..][0] == s[i];
      case Bold => assert s[i..][0] == s[i];
      case _ =>
    }
  }

  /** A pass whose leading character does not occur changes nothing. */
  lemma PassWithoutLead(p: Pass, s: String)
    requires Lead(p) !in s
    ensures Apply(p, s) == s
  {
    forall j | 0 <= j < |s| ensures MatchAt(p, s, j).None? {
      MatchStartsWithLead(p, s, j);
    }
    ScanCopies(p, s, 0);
  }

  /** A literal replace whose first character does not occur changes
      nothing. */
  lemma {:induction false} ReplaceWithoutLead(s: String, pat: String, rep: String)
    requires |pat| > 0 && pat[0] !in s
    ensures ReplaceAll(s, pat, rep) == s
  {
    if s != [] {
      if |pat| <= |s| {
        assert s[..|pat|][0] == s[0];
      }
      assert pat[0] !in s[1..];
      ReplaceWithoutLead(s[1..], pat, rep);
    }
  }

  // ---------------------------------------------------------------------------
  // Output shape

  /** No run of three newlines. */
  predicate NoTripleNewline(s: String) {
    forall k :: 0 <= k && k + 2 < |s| ==> !(s[k] == '\n' && s[k + 1] == '\n' && s[k + 2] == '\n')
  }

  /** The number of newlines `s` starts with. */
  function LeadingNewlines(s: String): (n: nat)
    ensures n <= |s|
  {
    if s == [] || s[0] != '\n' then 0 else 1 + LeadingNewlines(s[1..])
  }

  lemma PrependKeepsNoTriple(c: char, x: String)
    requires NoTripleNewline(x)
    requires c != '\n' || LeadingNewlines(x) < 2
    ensures NoTripleNewline([c] + x)
  {
    var y := [c] + x;
    forall k | 0 <= k && k + 2 < |y| ensures !(y[k] == '\n' && y[k + 1] == '\n' && y[k + 2] == '\n') {
      if k == 0 && c == '\n' && x[0] == '\n' {
        assert LeadingNewlines(x[1..]) == 0;
        assert x[1..][0] == x[1];
      } else if k > 0 {
        assert y[k] == x[k - 1] && y[k + 1] == x[k] && y[k + 2] == x[k + 1];
      }
    }
  }

  lemma TwoNewlinesBefore(rest: String)
    requires NoTripleNewline(rest) && LeadingNewlines(rest) == 0
    ensures NoTripleNewline("\n\n" + rest) && LeadingNewlines("\n\n" + rest) == 2
  {
    PrependKeepsNoTriple('\n', rest);
    assert (['\n'] + rest)[1..] == rest;
    assert LeadingNewlines(['\n'] + rest) == 1;
    PrependKeepsNoTriple('\n', ['\n'] + rest);
    assert "\n\n" + rest == ['\n'] + (['\n'] + rest);
    assert (['\n'] + (['\n'] + rest))[1..] == ['\n'] + rest;
  }

  lemma OneCharBefore(c: char, rest: String)
    requires NoTripleNewline(rest) && (c != '\n' || LeadingNewlines(rest) < 2)
    ensures NoTripleNewline([c] + rest)
    ensures LeadingNewlines([c] + rest) == if c == '\n' then 1 + LeadingNewlines(rest) else 0
  {
    PrependKeepsNoTriple(c, rest);
    assert ([c] + rest)[1..] == rest;
  }

  /** The blank-line pass leaves no run of three newlines, and its output
      starts with as many newlines as its input, but at most two. */
  lemma {:induction false} BlankScanShape(s: String, i: nat)
    requires i <= |s|
    ensures NoTripleNewline(Scan(Blank, s, i))
    ensures LeadingNewlines(Scan(Blank, s, i)) == Min(LeadingNewlines(s[i..]), 2)
    decreases |s| - i
  {
    if i < |s| {
      var r := Span(s, i, IsNewline);
      RunIsLeading(s, i);
      match MatchAt(Blank, s, i)
      case Some(m) =>
        assert i + m.len == r;
        assert Scan(Blank, s, i) == "\n\n" + Scan(Blank, s, r);
        BlankScanShape(s, r);
        RunIsLeading(s, r);
        TwoNewlinesBefore(Scan(Blank, s, r));
      case None =>
        assert Scan(Blank, s, i) == [s[i]] + Scan(Blank, s, i + 1);
        BlankScanShape(s, i + 1);
        RunIsLeading(s, i + 1);
        if s[i] == '\n' {
          assert Span(s, i, IsNewline) == Span(s, i + 1, IsNewline);
        }
        OneCharBefore(s[i], Scan(Blank, s, i + 1));
    }
  }

  function Min(a: int, b: int): int {
    if a < b then a else b
  }

  /** The newline run at `i` is the leading newlines of the rest. */
  lemma {:induction false} RunIsLeading(s: String, i: nat)
    requires i <= |s|
    ensures Span(s, i, IsNewline) - i == LeadingNewlines(s[i..])
    decreases |s| - i
  {
    if i < |s| && s[i] == '\n' {
      RunIsLeading(s, i + 1);
      assert s[i..][1..] == s[i + 1..];
    }
  }

  /** A slice of text with no run of three newlines has none either. */
  lemma SliceKeepsNoTriple(s: String, a: nat, b: nat)
    requires a <= b <= |s| && NoTripleNewline(s)
    ensures NoTripleNewline(s[a..b])
  {
    var t := s[a..b];
    forall k | 0 <= k && k + 2 < |t| ensures !(t[k] == '\n' && t[k + 1] == '\n' && t[k + 2] == '\n') {
      assert t[k] == s[a + k] && t[k + 1] == s[a + k + 1] && t[k + 2] == s[a + k + 2];
    }
  }

  lemma TrimKeepsNoTriple(s: String)
    requires NoTripleNewline(s)
    ensures NoTripleNewline(Trim(s))
  {
    TrimShape(s);
    TrimStartShape(s);
    var t := TrimStart(s);
    var r := Trim(s);
    var a := |s| - |t|;
    assert t == s[a..];
    assert r == s[a..a + |r|];
    SliceKeepsNoTriple(s, a, a + |r|);
  }

  /** The pipeline ends with the blank-line pass. */
  lemma LastStageIsBlank(s: String)
    ensures RunStages(STAGES, s) == Apply(Blank, RunStages(LATEX_STAGES + SYMBOL_STAGES + MARKUP_STAGES, s))
  {
    var front := LATEX_STAGES + SYMBOL_STAGES + MARKUP_STAGES;
    RunStagesAppend(front, [Regex(Blank)], s);
    var x := RunStages(front, s);
    assert RunStages([Regex(Blank)], x) == RunStages([], Apply(Blank, x));
  }

  /** The formatted text has no leading or trailing whitespace and no run
      of three or more newlines. */
  lemma FormatShape(raw: String)
    ensures IsTrimmed(Format(raw))
    ensures NoTripleNewline(Format(raw))
  {
    var x := RunStages(STAGES, raw);
    TrimShape(x);
    LastStageIsBlank(raw);
    BlankScanShape(RunStages(LATEX_STAGES + SYMBOL_STAGES + MARKUP_STAGES, raw), 0);
    TrimKeepsNoTriple(x);
  }

  // ---------------------------------------------------------------------------
  // Literal `\n` comes first

  /** No backslash followed by `n`. */
  predicate NoEscapedNewline(s: String) {
    forall k :: 0 <= k && k + 1 < |s| ==> !(s[k] == '\\' && s[k + 1] == 'n')
  }

  function DecodeNewlines(s: String): String {
    ReplaceAll(s, "\\n", "\n")
  }

  /** After decoding, no literal `\n` is left: the output starts with a
      newline where the input starts with `\n`, and otherwise with the
      input's first character. */
  lemma {:induction false} DecodeLeavesNone(s: String)
    ensures NoEscapedNewline(DecodeNewlines(s))
    ensures DecodeNewlines(s) == [] <==> s == []
    ensures s != [] ==> DecodeNewlines(s)[0] == (if StartsWith(s, "\\n") then '\n' else s[0])
    decreases |s|
  {
    if s != [] {
      var out := DecodeNewlines(s);
      if StartsWith(s, "\\n") {
        var rest := DecodeNewlines(s[2..]);
        DecodeLeavesNone(s[2..]);
        assert out == "\n" + rest;
        forall k | 0 <= k && k + 1 < |out| ensures !(out[k] == '\\' && out[k + 1] == 'n') {
          if k > 0 {
            assert out[k] == rest[k - 1] && out[k + 1] == rest[k];
          }
        }
      } else {
        var rest := DecodeNewlines(s[1..]);
        DecodeLeavesNone(s[1..]);
        assert out == [s[0]] + rest;
        forall k | 0 <= k && k + 1 < |out| ensures !(out[k] == '\\' && out[k + 1] == 'n') {
          if k > 0 {
            assert out[k] == rest[k - 1] && out[k + 1] == rest[k];
          } else if s[0] == '\\' {
            assert |s| >= 2;
            assert s[..2] != "\\n";
            assert s[1] != 'n';
            if StartsWith(s[1..], "\\n") {
              assert rest[0] == '\n';
            } else {
              assert rest[0] == s[1..][0] == s[1];
            }
          }
        }
      }
    }
  }

  /** Decoding text with no literal `\n` changes nothing. */
  lemma {:induction false} DecodeIdle(s: String)
    requires NoEscapedNewline(s)
    ensures DecodeNewlines(s) == s
    decreases |s|
  {
    if s != [] {
      assert !StartsWith(s, "\\n") by {
        if |s| >= 2 {
          assert s[..2][0] == s[0] && s[..2][1] == s[1];
        }
      }
      assert NoEscapedNewline(s[1..]) by {
        forall k | 0 <= k && k + 1 < |s[1..]| ensures !(s[1..][k] == '\\' && s[1..][k + 1] == 'n') {
          assert s[1..][k] == s[k + 1] && s[1..][k + 1] == s[k + 2];
        }
      }
      DecodeIdle(s[1..]);
    }
  }

  /** The literal `\n` decoding runs before any other rewrite: formatting
      the decoded text gives the same result, because the decoding finds
      nothing left to decode. */
  lemma NewlinesDecodedFirst(raw: String)
    ensures STAGES[0] == Literal("\\n", "\n")
    ensures Format(raw) == Format(DecodeNewlines(raw))
  {
    var d := DecodeNewlines(raw);
    DecodeLeavesNone(raw);
    DecodeIdle(d);
    assert STAGES[0] == Literal("\\n", "\n");
    assert RunStages(STAGES, raw) == RunStages(STAGES[1..], d);
    assert RunStages(STAGES, d) == RunStages(STAGES[1..], DecodeNewlines(d));
  }

  // ---------------------------------------------------------------------------
  // What each pass does to its own construct

  /** A pass whose match covers the whole text yields just the
      replacement. */
  lemma WholeMatch(p: Pass, s: String, rep: String)
    requires |s| > 0 && MatchAt(p, s, 0) == Some(Match(|s|, rep))
    ensures Apply(p, s) == rep
  {
    assert Scan(p, s, 0) == rep + Scan(p, s, |s|);
  }

  /** `open` + `x` + `}` with no `}` in `x` is one brace group. */
  lemma BracedAt(s: String, i: nat, open: String, x: String)
    requires i + |open| + |x| < |s|
    requires s[i..i + |open|] == open && s[i + |open|..i + |open| + |x|] == x && s[i + |open| + |x|] == '}'
    requires '}' !in x
    ensures BraceGroup(s, i, open) == Some(Group(x, i + |open| + |x| + 1))
  {
    var j := i + |open|;
    assert s[i..][..|open|] == open;
    forall m | j <= m < j + |x| ensures s[m] != '}' {
      assert s[m] == x[m - j];
    }
    FirstFromIs(s, j, j + |x|, '}');
  }

  /** `\frac{a}{b}` becomes `a/b` when neither part holds `}`. */
  lemma FracInstance(a: String, b: String)
    requires '}' !in a && '}' !in b
    ensures Apply(Frac, "\\frac{" + a + "}{" + b + "}") == a + "/" + b
  {
    var s := "\\frac{" + a + "}{" + b + "}";
    BracedAt(s, 0, "\\frac{", a);
    var e := 6 + |a| + 1;
    BracedAt(s, e, "{", b);
    WholeMatch(Frac, s, a + "/" + b);
  }

  /** `\text{x}` becomes `x`. */
  lemma TextInstance(x: String)
    requires '}' !in x
    ensures Apply(TextCmd, "\\text{" + x + "}") == x
  {
    var s := "\\text{" + x + "}";
    BracedAt(s, 0, "\\text{", x);
    assert "" + x + "" == x;
    WholeMatch(TextCmd, s, x);
  }

  /** `\sqrt{x}` becomes `√(x)`. */
  lemma SqrtInstance(x: String)
    requires '}' !in x
    ensures Apply(Sqrt, "\\sqrt{" + x + "}") == "√(" + x + ")"
  {
    var s := "\\sqrt{" + x + "}";
    BracedAt(s, 0, "\\sqrt{", x);
    WholeMatch(Sqrt, s, "√(" + x + ")");
  }

  /** `_{x}` becomes `_x` and `^{x}` becomes `^x`. */
  lemma ScriptInstances(x: String)
    requires '}' !in x
    ensures Apply(Sub, "_{" + x + "}") == "_" + x
    ensures Apply(Sup, "^{" + x + "}") == "^" + x
  {
    var s := "_{" + x + "}";
    BracedAt(s, 0, "_{", x);
    assert "_" + x + "" == "_" + x;
    WholeMatch(Sub, s, "_" + x);
    var t := "^{" + x + "}";
    BracedAt(t, 0, "^{", x);
    assert "^" + x + "" == "^" + x;
    WholeMatch(Sup, t, "^" + x);
  }

  /** `**x**` becomes `x`, and so does `*x*`, for non-empty `x` without `*`. */
  lemma EmphasisInstances(x: String)
    requires |x| > 0 && '*' !in x
    ensures Apply(Bold, "**" + x + "**") == x
    ensures Apply(Italic, "*" + x + "*") == x
  {
    var s := "**" + x + "**";
    assert s[0..][..2] == "**";
    forall m | 2 <= m < 2 + |x| ensures s[m] != '*' {
      assert s[m] == x[m - 2];
    }
    FirstFromIs(s, 2, 2 + |x|, '*');
    assert s[2..2 + |x|] == x;
    WholeMatch(Bold, s, x);
    var t := "*" + x + "*";
    forall m | 1 <= m < 1 + |x| ensures t[m] != '*' {
      assert t[m] == x[m - 1];
    }
    FirstFromIs(t, 1, 1 + |x|, '*');
    assert t[1..1 + |x|] == x;
    WholeMatch(Italic, t, x);
  }

  /** `\name` of an unknown command becomes `name`. */
  lemma CommandInstance(name: String)
    requires |name| > 0 && forall k :: 0 <= k < |name| ==> IsAsciiLetter(name[k])
    ensures Apply(Command, "\\" + name) == name
  {
    var s := "\\" + name;
    forall m | 1 <= m < |s| ensures IsAsciiLetter(s[m]) {
      assert s[m] == name[m - 1];
    }
    SpanIs(s, 1, |s|, IsAsciiLetter);
    assert s[1..|s|] == name;
    WholeMatch(Command, s, name);
  }

  predicate AllChar(s: String, c: char) {
    forall k :: 0 <= k < |s| ==> s[k] == c
  }

  predicate AllRegexSpace(s: String) {
    forall k :: 0 <= k < |s| ==> IsRegexSpace(s[k])
  }

  /** A header line: one to six `#`, whitespace, then text on the same line;
      the marker and the whitespace go. */
  lemma HeaderInstance(h: String, w: String, t: String)
    requires 1 <= |h| <= 6 && AllChar(h, '#')
    requires |w| > 0 && AllRegexSpace(w)
    requires NoLineTerminator(w + t) && (t == [] || !IsRegexSpace(t[0]))
    ensures Apply(Header, h + w + t) == t
  {
    var s := h + w + t;
    var hw := |h| + |w|;
    forall m | 0 <= m < |h| ensures IsHash(s[m]) {
      assert s[m] == h[m];
    }
    SpanIs(s, 0, |h|, IsHash);
    forall m | |h| <= m < hw ensures IsRegexSpace(s[m]) {
      assert s[m] == w[m - |h|];
    }
    if hw < |s| {
      assert s[hw] == t[0];
    }
    SpanIs(s, |h|, hw, IsRegexSpace);
    assert s[|h|] == w[0];
    assert MatchAt(Header, s, 0) == Some(Match(hw, ""));
    assert Scan(Header, s, 0) == Scan(Header, s, hw);
    forall j | hw <= j < |s| ensures MatchAt(Header, s, j).None? {
      assert s[j - 1] == (w + t)[j - 1 - |h|];
    }
    ScanCopies(Header, s, hw);
    assert s[hw..] == t;
  }

  /** Seven or more `#` at the start of a line are not a header. */
  lemma LongHeaderKept(h: String, t: String)
    requires |h| > 6 && AllChar(h, '#')
    requires NoLineTerminator(t)
    ensures Apply(Header, h + t) == h + t
  {
    var s := h + t;
    forall m | 0 <= m < |h| ensures IsHash(s[m]) {
      assert s[m] == h[m];
    }
    SpanShape(s, 0, IsHash);
    var k := Span(s, 0, IsHash);
    assert k >= |h|;
    forall j | 0 <= j < |s| ensures MatchAt(Header, s, j).None? {
      if j > 0 {
        assert !IsLineTerminator(s[j - 1]) by {
          if j - 1 < |h| {
            assert s[j - 1] == h[j - 1];
          } else {
            assert s[j - 1] == t[j - 1 - |h|];
          }
        }
      }
    }
    ScanCopies(Header, s, 0);
  }

  /** A line of three or more dashes, with only spaces or tabs after them,
      is removed. */
  lemma RuleInstance(d: String, w: String)
    requires |d| >= 3 && AllChar(d, '-')
    requires AllRegexSpace(w) && NoLineTerminator(w)
    ensures Apply(Rule, d + w) == ""
  {
    var s := d + w;
    forall m | 0 <= m < |d| ensures IsDash(s[m]) {
      assert s[m] == d[m];
    }
    if |w| > 0 {
      assert s[|d|] == w[0];
    }
    SpanIs(s, 0, |d|, IsDash);
    forall m | |d| <= m < |s| ensures IsRegexSpace(s[m]) {
      assert s[m] == w[m - |d|];
    }
    SpanIs(s, |d|, |s|, IsRegexSpace);
    assert LastDollar(s, |d|, |s|) == Some(|s|);
    WholeMatch(Rule, s, "");
  }

  // ---------------------------------------------------------------------------
  // Symbols

  /** A literal replace on a token that does not start with the pattern
      and has no further occurrence of its first character leaves the
      token alone. */
  lemma ReplaceMisses(tok: String, pat: String, rep: String)
    requires |pat| > 0 && |tok| > 0 && !StartsWith(tok, pat) && pat[0] !in tok[1..]
    ensures ReplaceAll(tok, pat, rep) == tok
  {
    ReplaceWithoutLead(tok[1..], pat, rep);
    assert [tok[0]] + tok[1..] == tok;
  }

  /** Literal stages none of which starts the token and whose first
      character occurs in the token only at its start. */
  predicate MissesAll(stages: seq<Stage>, tok: String) {
    |tok| > 0 && forall k :: 0 <= k < |stages| ==>
      && stages[k].Literal? && |stages[k].pat| > 0
      && !StartsWith(tok, stages[k].pat) && stages[k].pat[0] !in tok[1..]
  }

  /** Literal stages whose first character does not occur in `s`. */
  predicate SkipAll(stages: seq<Stage>, s: String) {
    forall k :: 0 <= k < |stages| ==> stages[k].Literal? && |stages[k].pat| > 0 && stages[k].pat[0] !in s
  }

  lemma {:induction false} RunMisses(stages: seq<Stage>, tok: String)
    requires |tok| > 0 && MissesAll(stages, tok)
    ensures RunStages(stages, tok) == tok
    decreases |stages|
  {
    if stages != [] {
      ReplaceMisses(tok, stages[0].pat, stages[0].rep);
      RunMisses(stages[1..], tok);
    }
  }

  lemma {:induction false} RunSkips(stages: seq<Stage>, s: String)
    requires SkipAll(stages, s)
    ensures RunStages(stages, s) == s
    decreases |stages|
  {
    if stages != [] {
      ReplaceWithoutLead(s, stages[0].pat, stages[0].rep);
      RunSkips(stages[1..], s);
    }
  }

  /** A run of literal stages turns a token into the glyph of its own
      stage, provided no earlier stage touches the token and no later one
      touches the glyph. */
  lemma RunPicksGlyph(stages: seq<Stage>, k: nat, tok: String, glyph: String)
    requires k < |stages| && stages[k] == Literal(tok, glyph) && |tok| > 0
    requires MissesAll(stages[..k], tok) && SkipAll(stages[k + 1..], glyph)
    ensures RunStages(stages, tok) == glyph
  {
    assert stages == stages[..k] + [stages[k]] + stages[k + 1..];
    RunStagesAppend(stages[..k] + [stages[k]], stages[k + 1..], tok);
    RunStagesAppend(stages[..k], [stages[k]], tok);
    RunMisses(stages[..k], tok);
    assert tok[..|tok|] == tok;
    assert ReplaceAll(tok, tok, glyph) == glyph + ReplaceAll([], tok, glyph);
    assert RunStages([stages[k]], tok) == glyph;
    RunSkips(stages[k + 1..], glyph);
  }

  /** Every symbol pattern starts with a backslash and no glyph holds one. */
  lemma SymbolTableShape()
    ensures forall k :: 0 <= k < |SYMBOL_STAGES| ==>
      SYMBOL_STAGES[k].Literal? && |SYMBOL_STAGES[k].pat| > 0 && SYMBOL_STAGES[k].pat[0] == '\\'
    ensures forall k :: 0 <= k < |SYMBOL_STAGES| ==> SYMBOL_STAGES[k].Literal? && '\\' !in SYMBOL_STAGES[k].rep
  {
  }

  /** So a glyph passes the later symbol stages unchanged. */
  lemma GlyphSkipsRest(k: nat, glyph: String)
    requires k <= |SYMBOL_STAGES| && '\\' !in glyph
    ensures SkipAll(SYMBOL_STAGES[k..], glyph)
  {
    SymbolTableShape();
    forall j | 0 <= j < |SYMBOL_STAGES[k..]|
      ensures SYMBOL_STAGES[k..][j].Literal? && |SYMBOL_STAGES[k..][j].pat| > 0 && SYMBOL_STAGES[k..][j].pat[0] !in glyph
    {
      assert SYMBOL_STAGES[k..][j] == SYMBOL_STAGES[k + j];
    }
  }

  lemma DiffersAt(tok: String, pat: String, i: nat)
    requires i < |tok| && i < |pat| && tok[i] != pat[i]
    ensures !StartsWith(tok, pat)
  {
    if |pat| <= |tok| {
      assert tok[..|pat|][i] == tok[i];
    }
  }

  /** `\pi` becomes π. */
  lemma PiInstance()
    ensures RunStages(SYMBOL_STAGES, "\\pi") == "π"
  {
    assert SYMBOL_STAGES[0] == Literal("\\pi", "π");
    GlyphSkipsRest(1, "π");
    RunPicksGlyph(SYMBOL_STAGES, 0, "\\pi", "π");
  }

  /** `\times` becomes ×. */
  lemma TimesInstance()
    ensures RunStages(SYMBOL_STAGES, "\\times") == "×"
  {
    assert SYMBOL_STAGES[2] == Literal("\\times", "×");
    forall k | 0 <= k < 2 ensures !StartsWith("\\times", SYMBOL_STAGES[k].pat) {
      DiffersAt("\\times", SYMBOL_STAGES[k].pat, 1);
    }
    assert '\\' !in "\\times"[1..];
    assert MissesAll(SYMBOL_STAGES[..2], "\\times");
    GlyphSkipsRest(3, "×");
    RunPicksGlyph(SYMBOL_STAGES, 2, "\\times", "×");
  }

  /** `\leq` becomes ≤. */
  lemma LeqInstance()
    ensures RunStages(SYMBOL_STAGES, "\\leq") == "≤"
  {
    assert SYMBOL_STAGES[5] == Literal("\\leq", "≤");
    forall k | 0 <= k < 5 ensures !StartsWith("\\leq", SYMBOL_STAGES[k].pat) {
      DiffersAt("\\leq", SYMBOL_STAGES[k].pat, 1);
    }
    assert '\\' !in "\\leq"[1..];
    assert MissesAll(SYMBOL_STAGES[..5], "\\leq");
    GlyphSkipsRest(6, "≤");
    RunPicksGlyph(SYMBOL_STAGES, 5, "\\leq", "≤");
  }

  // ---------------------------------------------------------------------------
  // Text with no markup

  /** Text with none of the characters any rewrite starts with. */
  predicate NoMarkup(s: String) {
    '\\' !in s && '_' !in s && '^' !in s && '#' !in s && '*' !in s && '-' !in s
  }

  /** A stage that can only change text containing a markup character. */
  predicate MarkupOnly(st: Stage) {
    match st
    case Literal(pat, _) => |pat| > 0 && pat[0] == '\\'
    case Regex(p) => p != Blank
  }

  lemma StageIdle(st: Stage, s: String)
    requires NoMarkup(s) && MarkupOnly(st)
    ensures ApplyStage(st, s) == s
  {
    match st
    case Literal(pat, rep) => ReplaceWithoutLead(s, pat, rep);
    case Regex(p) => PassWithoutLead(p, s);
  }

  lemma {:induction false} StagesIdle(stages: seq<Stage>, s: String)
    requires NoMarkup(s)
    requires forall k :: 0 <= k < |stages| ==> MarkupOnly(stages[k])
    ensures RunStages(stages, s) == s
    decreases |stages|
  {
    if stages != [] {
      StageIdle(stages[0], s);
      StagesIdle(stages[1..], s);
    }
  }

  /** Text without markup characters is only trimmed and has its runs of
      blank lines collapsed. */
  lemma PlainTextOnlyCollapsed(raw: String)
    requires NoMarkup(raw)
    ensures Format(raw) == Trim(Apply(Blank, raw))
  {
    var front := LATEX_STAGES + SYMBOL_STAGES + MARKUP_STAGES;
    StagesIdle(front, raw);
    LastStageIsBlank(raw);
  }

  /** The LaTeX `\neq` never reaches its stage: the literal `\n` decoding
      runs first and turns it into a line break followed by `eq`, which
      trimming reduces to `eq`. The `\neq` stage can only fire on a `\neq`
      that an earlier removal splices together. */
  lemma NeqReadAsNewline(raw: String)
    requires raw == "\\neq"
    ensures Format(raw) == "eq"
  {
    var d := DecodeNewlines(raw);
    NeqDecoded(raw);
    NewlinesDecodedFirst(raw);
    PlainTextOnlyCollapsed(d);
    BlankIdle(d);
    NeqTrimmed(d);
  }

  lemma NeqDecoded(raw: String)
    requires raw == "\\neq"
    ensures DecodeNewlines(raw) == "\neq"
  {
    var pat, nl := "\\n", "\n";
    assert StartsWith(raw, pat);
    var t := raw[2..];
    assert t == "eq";
    var u := t[1..];
    assert t[..2][0] == 'e' && |u| < 2 && u[1..] == [];
    assert ReplaceAll(u, pat, nl) == [u[0]] + ReplaceAll(u[1..], pat, nl) == "q";
    assert ReplaceAll(t, pat, nl) == [t[0]] + ReplaceAll(u, pat, nl) == "eq";
    assert ReplaceAll(raw, pat, nl) == nl + ReplaceAll(t, pat, nl);
  }

  lemma NeqTrimmed(d: String)
    requires d == "\neq"
    ensures NoMarkup(d) && NoTripleNewline(d) && Trim(d) == "eq"
  {
    var e := d[1..];
    assert e == "eq" && IsWhitespace(d[0]);
    assert !IsWhitespace(e[0]) && !IsWhitespace(e[|e| - 1]);
    assert TrimStart(d) == TrimStart(e) == e;
  }

  /** On text with no run of three newlines, the blank-line pass is the
      identity, so it is idempotent. */
  lemma BlankIdle(s: String)
    requires NoTripleNewline(s)
    ensures Apply(Blank, s) == s
  {
    forall j | 0 <= j < |s| ensures MatchAt(Blank, s, j).None? {
      if s[j] == '\n' && j + 2 < |s| {
        assert !(s[j + 1] == '\n' && s[j + 2] == '\n');
        SpanShape(s, j, IsNewline);
      }
    }
    ScanCopies(Blank, s, 0);
  }

  lemma BlankIdempotent(s: String)
    ensures Apply(Blank, Apply(Blank, s)) == Apply(Blank, s)
  {
    BlankScanShape(s, 0);
    BlankIdle(Apply(Blank, s));
  }
}
