/**
 * `parseTestData`: a line-oriented parser that cuts a fixture into
 * `=== HEADER ===` sections and turns each header into a system prompt,
 * a dropped note, or a typed step.
 */
module TestDataParser {
  import opened Wrappers
  import opened Text
  import opened TestCase

  // ---------------------------------------------------------------------------
  // Kotlin's String.lines()

  /** `lines()`: splits on `\r\n`, `\n` and `\r`; the text after the last
      separator is a line too, so the result is never empty. */
  function SplitLines(s: String): (r: seq<String>)
    ensures |r| >= 1
    ensures forall i :: 0 <= i < |r| ==> '\n' !in r[i] && '\r' !in r[i]
  {
    if s == [] then [[]]
    else if s[0] == '\n' then [[]] + SplitLines(s[1..])
    else if s[0] == '\r' then
      if |s| >= 2 && s[1] == '\n' then [[]] + SplitLines(s[2..]) else [[]] + SplitLines(s[1..])
    else
      var rest := SplitLines(s[1..]);
      [[s[0]] + rest[0]] + rest[1..]
  }

  /** `joinToString("\n")`. */
  function JoinLines(ls: seq<String>): String
    requires |ls| >= 1
  {
    if |ls| == 1 then ls[0] else ls[0] + "\n" + JoinLines(ls[1..])
  }

  /** For text without carriage returns, joining the lines back with `\n`
      gives the original text. */
  lemma {:induction false} SplitLinesJoin(s: String)
    requires '\r' !in s
    ensures JoinLines(SplitLines(s)) == s
  {
    if s != [] {
      assert '\r' !in s[1..] by {
        forall k | 0 <= k < |s[1..]| ensures s[1..][k] != '\r' { assert s[1..][k] == s[k + 1]; }
      }
      SplitLinesJoin(s[1..]);
      var rest := SplitLines(s[1..]);
      if s[0] != '\n' {
        if |rest| == 1 {
          assert SplitLines(s) == [[s[0]] + rest[0]];
        } else {
          var r := SplitLines(s);
          assert r[1..] == rest[1..];
          assert JoinLines(r) == [s[0]] + rest[0] + "\n" + JoinLines(rest[1..]);
          assert JoinLines(rest) == rest[0] + "\n" + JoinLines(rest[1..]);
        }
      }
    }
  }

  // ---------------------------------------------------------------------------
  // Header syntax

  /** `^=== .+ ===$` on the trimmed line: `=== `, at least one character
      that is not a line terminator, then ` ===`. */
  predicate IsDivider(t: String) {
    |t| >= 9 && StartsWith(t, "=== ") && EndsWith(t, " ===") && NoLineTerminator(t[4..|t| - 4])
  }

  /** `removePrefix("=== ").removeSuffix(" ===")`: the header between the
      markers. */
  function DividerHeader(t: String): (h: String)
    requires IsDivider(t)
    ensures h == t[4..|t| - 4] && |h| >= 1
  {
    var a := RemovePrefix(t, "=== ");
    assert a == t[4..];
    assert EndsWith(a, " ===") by { assert a[|a| - 4..] == t[|t| - 4..]; }
    RemoveSuffix(a, " ===")
  }

  /** `^MESSAGE (\d+)$`. */
  predicate IsMessageHeader(h: String) {
    |h| > 8 && StartsWith(h, "MESSAGE ") && AllDigits(h[8..])
  }

  predicate IsIdChar(c: char) {
    IsWordChar(c) || c == '-'
  }

  /** Length of the longest prefix of `s` made of `[\w-]` characters. */
  function IdRun(s: String): (k: nat)
    ensures k <= |s|
    ensures forall i :: 0 <= i < k ==> IsIdChar(s[i])
    ensures k < |s| ==> !IsIdChar(s[k])
  {
    if s == [] || !IsIdChar(s[0]) then 0 else 1 + IdRun(s[1..])
  }

  /** The grammar of `^<keyword>(<lead>[\w-]+) \((.+)\)$`: the id starts
      with `lead`, has at least one more `[\w-]` character, and the failure
      mode in parentheses is non-empty and free of line terminators. */
  predicate TaggedHeader(h: String, keyword: String, lead: char, id: String, fm: String) {
    && h == keyword + id + " (" + fm + ")"
    && |id| >= 2 && id[0] == lead && (forall i :: 0 <= i < |id| ==> IsIdChar(id[i]))
    && |fm| >= 1 && NoLineTerminator(fm)
  }

  /** Matches `h` against `^<keyword>(<lead>[\w-]+) \((.+)\)$` and returns
      the two capture groups. The id group ends at the first character
      outside `[\w-]`, since a space must follow it. */
  function MatchTagged(h: String, keyword: String, lead: char): Option<(String, String)> {
    if !StartsWith(h, keyword) then None
    else
      var rest := h[|keyword|..];
      var k := IdRun(rest);
      if k >= 2 && rest[0] == lead && |rest| >= k + 4 && rest[k] == ' ' && rest[k + 1] == '('
         && rest[|rest| - 1] == ')' && NoLineTerminator(rest[k + 2..|rest| - 1])
      then Some((rest[..k], rest[k + 2..|rest| - 1]))
      else None
  }

  /** Whatever the matcher accepts is a header of the grammar, with the
      groups the grammar assigns. */
  lemma MatchTaggedSound(h: String, keyword: String, lead: char)
    ensures var r := MatchTagged(h, keyword, lead);
      r.Some? ==> TaggedHeader(h, keyword, lead, r.value.0, r.value.1)
  {
    var r := MatchTagged(h, keyword, lead);
    if r.Some? {
      var rest := h[|keyword|..];
      var k := IdRun(rest);
      var id := rest[..k];
      var fm := rest[k + 2..|rest| - 1];
      assert h == keyword + rest;
      assert rest == id + " (" + fm + ")";
    }
  }

  /** The matcher accepts exactly the headers of the grammar, and returns
      the groups the grammar assigns. */
  lemma MatchTaggedComplete(h: String, keyword: String, lead: char, id: String, fm: String)
    requires TaggedHeader(h, keyword, lead, id, fm)
    ensures MatchTagged(h, keyword, lead) == Some((id, fm))
  {
    assert h[..|keyword|] == keyword;
    var rest := h[|keyword|..];
    var tail := " (" + fm + ")";
    assert rest == id + tail;
    assert !IsIdChar(tail[0]);
    IdRunOf(id, tail);
    var k := |id|;
    assert IdRun(rest) == k;
    assert rest[..k] == id;
    assert rest[0] == lead && rest[k] == ' ' && rest[k + 1] == '(' && rest[|rest| - 1] == ')';
    assert rest[k + 2..|rest| - 1] == fm;
  }

  lemma {:induction false} IdRunOf(id: String, tail: String)
    requires forall i :: 0 <= i < |id| ==> IsIdChar(id[i])
    requires tail != [] && !IsIdChar(tail[0])
    ensures IdRun(id + tail) == |id|
  {
    if id != [] {
      assert (id + tail)[1..] == id[1..] + tail;
      IdRunOf(id[1..], tail);
    }
  }

  /** What a section header asks for, in the order the `when` tests it. */
  datatype HeaderKind =
    | SystemPrompt
    | Note
    | MessageHeader(number: String)
    | CheckpointHeader(id: String, failureMode: String)
    | VerificationHeader(id: String, failureMode: String)
    | Unmatched

  /** The `when` over a header: exact `SYSTEM PROMPT`, then the
      `NOTE FOR AUTOTEST` prefix, then the three step patterns. */
  function Classify(h: String): HeaderKind {
    if h == "SYSTEM PROMPT" then SystemPrompt
    else if StartsWith(h, "NOTE FOR AUTOTEST") then Note
    else if IsMessageHeader(h) then MessageHeader(h[8..])
    else match MatchTagged(h, "CHECKPOINT ", 'C')
      case Some((id, fm)) => CheckpointHeader(id, fm)
      case None =>
        match MatchTagged(h, "VERIFICATION ", 'V')
        case Some((id, fm)) => VerificationHeader(id, fm)
        case None => Unmatched
  }

  /** What each classification tells about the header it came from. */
  lemma ClassifySound(h: String)
    ensures var k := Classify(h);
      && (k.SystemPrompt? <==> h == "SYSTEM PROMPT")
      && (k.Note? ==> StartsWith(h, "NOTE FOR AUTOTEST"))
      && (k.MessageHeader? ==> IsMessageHeader(h) && h == "MESSAGE " + k.number)
      && (k.CheckpointHeader? ==> TaggedHeader(h, "CHECKPOINT ", 'C', k.id, k.failureMode))
      && (k.VerificationHeader? ==> TaggedHeader(h, "VERIFICATION ", 'V', k.id, k.failureMode))
  {
    MatchTaggedSound(h, "CHECKPOINT ", 'C');
    MatchTaggedSound(h, "VERIFICATION ", 'V');
    if IsMessageHeader(h) {
      assert h == "MESSAGE " + h[8..];
    }
  }

  // ---------------------------------------------------------------------------
  // Sections

  datatype Section = Section(header: String, body: String)

  /** The scanner's state: the header being collected (null before the
      first divider), its body so far, and the finished sections. */
  datatype Splitter = Splitter(current: Option<String>, body: String, sections: seq<Section>)

  /** The finished sections plus the open one, its body trimmed. */
  function Close(st: Splitter): seq<Section> {
    match st.current
    case None => st.sections
    case Some(h) => st.sections + [Section(h, Trim(st.body))]
  }

  /** One iteration of the line loop: a divider closes the open section and
      opens a new one; any other line is appended to the body with `\n`. */
  function Feed(st: Splitter, line: String): Splitter {
    var t := Trim(line);
    if IsDivider(t) then Splitter(Some(DividerHeader(t)), [], Close(st))
    else Splitter(st.current, st.body + line + "\n", st.sections)
  }

  function FeedAll(st: Splitter, lines: seq<String>): Splitter
    decreases |lines|
  {
    if lines == [] then st else FeedAll(Feed(st, lines[0]), lines[1..])
  }

  /** The first loop of `parseTestData` and the final flush. */
  function SplitSections(lines: seq<String>): seq<Section> {
    Close(FeedAll(Splitter(None, [], []), lines))
  }

  function Headers(secs: seq<Section>): (r: seq<String>)
    ensures |r| == |secs|
    ensures forall i :: 0 <= i < |secs| ==> r[i] == secs[i].header
  {
    if secs == [] then [] else [secs[0].header] + Headers(secs[1..])
  }

  lemma {:induction false} HeadersConcat(a: seq<Section>, b: seq<Section>)
    ensures Headers(a + b) == Headers(a) + Headers(b)
  {
    assert Headers(a + b) == Headers(a) + Headers(b);
  }

  /** The headers of the divider lines, in input order: the reference for
      which sections exist. */
  function DividerHeaders(lines: seq<String>): seq<String> {
    if lines == [] then []
    else
      (if IsDivider(Trim(lines[0])) then [DividerHeader(Trim(lines[0]))] else [])
      + DividerHeaders(lines[1..])
  }

  lemma {:induction false} FeedAllHeaders(st: Splitter, lines: seq<String>)
    ensures Headers(Close(FeedAll(st, lines))) == Headers(Close(st)) + DividerHeaders(lines)
    decreases |lines|
  {
    if lines != [] {
      var st1 := Feed(st, lines[0]);
      FeedAllHeaders(st1, lines[1..]);
      var t := Trim(lines[0]);
      if IsDivider(t) {
        HeadersConcat(Close(st), [Section(DividerHeader(t), Trim([]))]);
      } else {
        match st.current
        case None =>
        case Some(h) =>
          HeadersConcat(st.sections, [Section(h, Trim(st.body))]);
          HeadersConcat(st.sections, [Section(h, Trim(st1.body))]);
      }
    }
  }

  /** There is one section per divider line, in input order, headed by the
      text between that line's markers. */
  lemma SectionsFollowDividers(lines: seq<String>)
    ensures Headers(SplitSections(lines)) == DividerHeaders(lines)
  {
    FeedAllHeaders(Splitter(None, [], []), lines);
  }

  // ---------------------------------------------------------------------------
  // Sections by reference: each divider line opens a section whose body is
  // the lines up to the next divider, each followed by `\n`, trimmed.

  /** The number of lines before the first divider line. */
  function Lead(lines: seq<String>): (k: nat)
    ensures k <= |lines|
    ensures NoDivider(lines[..k])
    ensures k < |lines| ==> IsDivider(Trim(lines[k]))
  {
    if lines == [] || IsDivider(Trim(lines[0])) then 0
    else
      var k := 1 + Lead(lines[1..]);
      assert forall i :: 1 <= i < k ==> lines[..k][i] == lines[1..][..k - 1][i - 1];
      k
  }

  /** What `appendLine` builds from a run of lines: each line followed by
      `\n`. */
  function BodyText(lines: seq<String>): String {
    if lines == [] then [] else lines[0] + "\n" + BodyText(lines[1..])
  }

  /** The sections of the input, read off its divider lines: the header of
      each divider, and the trimmed text of the lines strictly between it
      and the next divider (or the end). Lines before the first divider
      belong to no section. */
  function RefSections(lines: seq<String>): seq<Section>
    decreases |lines|
  {
    var k := Lead(lines);
    if k == |lines| then []
    else
      var rest := lines[k + 1..];
      var b := Lead(rest);
      [Section(DividerHeader(Trim(lines[k])), Trim(BodyText(rest[..b])))] + RefSections(rest[b..])
  }

  /** Lines without a divider only extend the open body. */
  lemma {:induction false} FeedAllPlain(st: Splitter, lines: seq<String>)
    requires NoDivider(lines)
    ensures FeedAll(st, lines) == Splitter(st.current, st.body + BodyText(lines), st.sections)
    decreases |lines|
  {
    if lines == [] {
      assert st.body + BodyText(lines) == st.body;
    } else {
      assert !IsDivider(Trim(lines[0]));
      var st1 := Feed(st, lines[0]);
      assert NoDivider(lines[1..]) by {
        forall i | 0 <= i < |lines[1..]| ensures !IsDivider(Trim(lines[1..][i])) {
          assert lines[1..][i] == lines[i + 1];
        }
      }
      FeedAllPlain(st1, lines[1..]);
      assert st1.body + BodyText(lines[1..]) == st.body + BodyText(lines) by {
        AppendAssoc(st.body, lines[0] + "\n", BodyText(lines[1..]));
        AppendAssoc(lines[0], "\n", BodyText(lines[1..]));
      }
    }
  }

  /** Feeding lines to any state closes its open section with the lines
      before the first divider, then yields the reference sections of the
      rest. */
  lemma {:induction false} FeedAllRef(st: Splitter, lines: seq<String>)
    ensures var k := Lead(lines);
      Close(FeedAll(st, lines))
      == Close(Splitter(st.current, st.body + BodyText(lines[..k]), st.sections)) + RefSections(lines[k..])
    decreases |lines|, 1
  {
    var k := Lead(lines);
    var st1 := Splitter(st.current, st.body + BodyText(lines[..k]), st.sections);
    assert lines == lines[..k] + lines[k..];
    FeedAllConcat(st, lines[..k], lines[k..]);
    FeedAllPlain(st, lines[..k]);
    var tail := lines[k..];
    if k == |lines| {
      assert tail == [];
      RefSectionsEmpty(tail);
    } else {
      assert tail[0] == lines[k];
      FeedAllRefDivider(st1, tail);
    }
  }

  /** From a divider on, feeding yields the state's sections so far, then
      the reference sections. */
  lemma {:induction false} FeedAllRefDivider(st: Splitter, tail: seq<String>)
    requires tail != [] && IsDivider(Trim(tail[0]))
    ensures Close(FeedAll(st, tail)) == Close(st) + RefSections(tail)
    decreases |tail|, 0
  {
    var rest := tail[1..];
    var b := Lead(rest);
    var h := DividerHeader(Trim(tail[0]));
    var st2 := Splitter(Some(h), [], Close(st));
    FeedDivider(st, tail[0]);
    FeedAllCons(st, tail);
    FeedAllRef(st2, rest);
    EmptyBody(BodyText(rest[..b]));
    var sec := Section(h, Trim(BodyText(rest[..b])));
    RefSectionsAtDivider(tail);
    AppendAssoc(Close(st), [sec], RefSections(rest[b..]));
  }

  lemma FeedDivider(st: Splitter, line: String)
    requires IsDivider(Trim(line))
    ensures Feed(st, line) == Splitter(Some(DividerHeader(Trim(line))), [], Close(st))
  {
  }

  lemma FeedAllCons(st: Splitter, lines: seq<String>)
    requires lines != []
    ensures FeedAll(st, lines) == FeedAll(Feed(st, lines[0]), lines[1..])
  {
  }

  lemma EmptyBody(s: String)
    ensures [] + s == s
  {
  }

  lemma RefSectionsEmpty(lines: seq<String>)
    requires lines == []
    ensures RefSections(lines) == []
  {
  }

  lemma RefSectionsAtDivider(tail: seq<String>)
    requires tail != [] && IsDivider(Trim(tail[0]))
    ensures var rest := tail[1..]; var b := Lead(rest);
      RefSections(tail)
      == [Section(DividerHeader(Trim(tail[0])), Trim(BodyText(rest[..b])))] + RefSections(rest[b..])
  {
    assert Lead(tail) == 0;
  }

  /** The line loop and its final flush yield exactly the reference
      sections. */
  lemma SplitSectionsRef(lines: seq<String>)
    ensures SplitSections(lines) == RefSections(lines)
  {
    var st := Splitter(None, [], []);
    FeedAllRef(st, lines);
    var k := Lead(lines);
    if k < |lines| {
      assert RefSections(lines) == RefSections(lines[k..]) by {
        assert lines[k..][0] == lines[k] && lines[k..][1..] == lines[k + 1..];
      }
    } else {
      assert lines[k..] == [];
    }
  }

  lemma NoDividerLead(body: seq<String>, rest: seq<String>)
    requires NoDivider(body) && (rest == [] || IsDivider(Trim(rest[0])))
    ensures Lead(body + rest) == |body|
    decreases |body|
  {
    var t := body + rest;
    if body == [] {
      assert t == rest;
    } else {
      var b := body[1..];
      assert t[0] == body[0] && !IsDivider(Trim(body[0]));
      assert t[1..] == b + rest;
      NoDividerTail(body);
      NoDividerLead(b, rest);
      assert Lead(t) == 1 + Lead(t[1..]);
    }
  }

  lemma NoDividerTail(lines: seq<String>)
    requires lines != [] && NoDivider(lines)
    ensures NoDivider(lines[1..])
  {
    forall i | 0 <= i < |lines| - 1 ensures !IsDivider(Trim(lines[1..][i])) {
      assert lines[1..][i] == lines[i + 1];
    }
  }

  /** A divider followed by lines without one, up to the next divider or
      the end, is one section: its header is the divider's, its body the
      trimmed text of those lines, each followed by `\n`; whatever comes
      before and after yields its own sections. */
  lemma DividerOpensSection(pre: seq<String>, d: String, body: seq<String>, rest: seq<String>)
    requires IsDivider(Trim(d)) && NoDivider(body)
    requires rest == [] || IsDivider(Trim(rest[0]))
    ensures SplitSections(pre + [d] + body + rest)
         == SplitSections(pre) + [Section(DividerHeader(Trim(d)), Trim(BodyText(body)))] + SplitSections(rest)
  {
    var tail := [d] + body + rest;
    var sec := Section(DividerHeader(Trim(d)), Trim(BodyText(body)));
    Regroup(pre, d, body, rest);
    DividerHead(d, body, rest);
    SplitAt(pre, tail);
    RefOfTail(d, body, rest);
    AppendAssoc(SplitSections(pre), [sec], SplitSections(rest));
  }

  lemma Regroup(pre: seq<String>, d: String, body: seq<String>, rest: seq<String>)
    ensures pre + [d] + body + rest == pre + ([d] + body + rest)
  {
    AppendAssoc(pre, [d], body);
    AppendAssoc(pre, [d] + body, rest);
  }

  lemma DividerHead(d: String, body: seq<String>, rest: seq<String>)
    ensures ([d] + body + rest)[0] == d
  {
  }

  /** The sections of `pre + tail`, when `tail` starts with a divider. */
  lemma SplitAt(pre: seq<String>, tail: seq<String>)
    requires tail != [] && IsDivider(Trim(tail[0]))
    ensures SplitSections(pre + tail) == SplitSections(pre) + RefSections(tail)
  {
    var st0 := Splitter(None, [], []);
    FeedAllConcat(st0, pre, tail);
    FeedAllRefDivider(FeedAll(st0, pre), tail);
  }

  lemma RefOfTail(d: String, body: seq<String>, rest: seq<String>)
    requires IsDivider(Trim(d)) && NoDivider(body)
    requires rest == [] || IsDivider(Trim(rest[0]))
    ensures RefSections([d] + body + rest)
         == [Section(DividerHeader(Trim(d)), Trim(BodyText(body)))] + SplitSections(rest)
  {
    var tail := [d] + body + rest;
    var br := body + rest;
    assert tail[0] == d;
    assert tail[1..] == br;
    RefSectionsAtDivider(tail);
    NoDividerLead(body, rest);
    BodyThenRest(body, rest);
    assert br[..Lead(br)] == body;
    assert br[Lead(br)..] == rest;
    SplitSectionsRef(rest);
  }

  lemma BodyThenRest(body: seq<String>, rest: seq<String>)
    ensures (body + rest)[..|body|] == body && (body + rest)[|body|..] == rest
  {
  }

  predicate BodiesTrimmed(secs: seq<Section>) {
    forall i :: 0 <= i < |secs| ==> IsTrimmed(secs[i].body)
  }

  lemma {:induction false} FeedAllTrimmed(st: Splitter, lines: seq<String>)
    requires BodiesTrimmed(st.sections)
    ensures BodiesTrimmed(Close(FeedAll(st, lines)))
    decreases |lines|
  {
    TrimShape(st.body);
    if lines != [] {
      FeedAllTrimmed(Feed(st, lines[0]), lines[1..]);
    }
  }

  /** Every section body is trimmed. */
  lemma SectionBodiesTrimmed(lines: seq<String>)
    ensures BodiesTrimmed(SplitSections(lines))
  {
    FeedAllTrimmed(Splitter(None, [], []), lines);
  }

  predicate NoDivider(lines: seq<String>) {
    forall i :: 0 <= i < |lines| ==> !IsDivider(Trim(lines[i]))
  }

  lemma {:induction false} FeedAllConcat(st: Splitter, a: seq<String>, b: seq<String>)
    ensures FeedAll(st, a + b) == FeedAll(FeedAll(st, a), b)
    decreases |a|
  {
    if a == [] {
      assert a + b == b;
    } else {
      var st1 := Feed(st, a[0]);
      assert (a + b)[0] == a[0];
      assert (a + b)[1..] == a[1..] + b;
      assert FeedAll(st, a + b) == FeedAll(st1, a[1..] + b);
      assert FeedAll(st, a) == FeedAll(st1, a[1..]);
      FeedAllConcat(st1, a[1..], b);
    }
  }

  lemma {:induction false} FeedAllNoDivider(body: String, lines: seq<String>)
    requires NoDivider(lines)
    ensures FeedAll(Splitter(None, body, []), lines).current == None
    ensures FeedAll(Splitter(None, body, []), lines).sections == []
    decreases |lines|
  {
    if lines != [] {
      assert !IsDivider(Trim(lines[0]));
      FeedAllNoDivider(body + lines[0] + "\n", lines[1..]);
    }
  }

  /** Before the first divider the body collected so far is irrelevant. */
  lemma {:induction false} FeedAllForgetsPreamble(b1: String, b2: String, lines: seq<String>)
    ensures Close(FeedAll(Splitter(None, b1, []), lines)) == Close(FeedAll(Splitter(None, b2, []), lines))
    decreases |lines|
  {
    if lines != [] {
      if IsDivider(Trim(lines[0])) {
        assert Feed(Splitter(None, b1, []), lines[0]) == Feed(Splitter(None, b2, []), lines[0]);
      } else {
        FeedAllForgetsPreamble(b1 + lines[0] + "\n", b2 + lines[0] + "\n", lines[1..]);
      }
    }
  }

  /** Lines before the first divider are discarded. */
  lemma PreambleDiscarded(pre: seq<String>, rest: seq<String>)
    requires NoDivider(pre)
    ensures SplitSections(pre + rest) == SplitSections(rest)
  {
    var st0 := Splitter(None, [], []);
    FeedAllConcat(st0, pre, rest);
    FeedAllNoDivider([], pre);
    var mid := FeedAll(st0, pre);
    assert mid == Splitter(None, mid.body, []);
    FeedAllForgetsPreamble(mid.body, [], rest);
  }

  // ---------------------------------------------------------------------------
  // Dispatch

  /** The state of the second loop: the system prompt so far and the steps. */
  datatype Parsed = Parsed(systemPrompt: String, steps: seq<TestStep>)

  /** The step a section yields, if any. */
  function StepOf(sec: Section): Option<TestStep> {
    match Classify(sec.header)
    case MessageHeader(n) => Some(Message("M" + n, sec.body))
    case CheckpointHeader(id, fm) => Some(Checkpoint(id, fm, sec.body))
    case VerificationHeader(id, fm) => Some(Verification(id, fm, sec.body))
    case _ => None
  }

  /** One iteration of the `when` over a section. */
  function Dispatch(acc: Parsed, sec: Section): Parsed {
    match Classify(sec.header)
    case SystemPrompt => acc.(systemPrompt := sec.body)
    case Note => acc
    case MessageHeader(n) => acc.(steps := acc.steps + [Message("M" + n, sec.body)])
    case CheckpointHeader(id, fm) => acc.(steps := acc.steps + [Checkpoint(id, fm, sec.body)])
    case VerificationHeader(id, fm) => acc.(steps := acc.steps + [Verification(id, fm, sec.body)])
    case Unmatched => acc
  }

  function DispatchAll(acc: Parsed, secs: seq<Section>): Parsed
    decreases |secs|
  {
    if secs == [] then acc else DispatchAll(Dispatch(acc, secs[0]), secs[1..])
  }

  /** The step of a section as a sequence of at most one. */
  function StepSeq(sec: Section): seq<TestStep> {
    match StepOf(sec) case Some(s) => [s] case None => []
  }

  /** Reference: the steps of the sections that yield one, in order. */
  function StepsOf(secs: seq<Section>): seq<TestStep> {
    if secs == [] then [] else StepSeq(secs[0]) + StepsOf(secs[1..])
  }

  /** Reference: the body of the last `SYSTEM PROMPT` section, or `d`. */
  function LastSystemPrompt(secs: seq<Section>, d: String): String
    decreases |secs|
  {
    if secs == [] then d
    else if secs[|secs| - 1].header == "SYSTEM PROMPT" then secs[|secs| - 1].body
    else LastSystemPrompt(secs[..|secs| - 1], d)
  }

  lemma {:induction false} LastSystemPromptCons(sec: Section, secs: seq<Section>, d: String)
    ensures LastSystemPrompt([sec] + secs, d)
         == LastSystemPrompt(secs, if sec.header == "SYSTEM PROMPT" then sec.body else d)
    decreases |secs|
  {
    if secs != [] {
      assert ([sec] + secs)[..|secs|] == [sec] + secs[..|secs| - 1];
      LastSystemPromptCons(sec, secs[..|secs| - 1], d);
    }
  }

  lemma DispatchEffect(acc: Parsed, sec: Section)
    ensures Dispatch(acc, sec).steps
         == acc.steps + StepSeq(sec)
    ensures Dispatch(acc, sec).systemPrompt
         == if sec.header == "SYSTEM PROMPT" then sec.body else acc.systemPrompt
  {
  }

  /** The dispatch loop appends the reference steps in section order and
      keeps the last system prompt. */
  lemma DispatchAllSpec(acc: Parsed, secs: seq<Section>)
    ensures DispatchAll(acc, secs).steps == acc.steps + StepsOf(secs)
    ensures DispatchAll(acc, secs).systemPrompt == LastSystemPrompt(secs, acc.systemPrompt)
  {
    DispatchAllSteps(acc, secs);
    DispatchAllPrompt(acc, secs);
  }

  lemma {:induction false} DispatchAllSteps(acc: Parsed, secs: seq<Section>)
    ensures DispatchAll(acc, secs).steps == acc.steps + StepsOf(secs)
    decreases |secs|
  {
    if secs == [] {
      assert acc.steps + [] == acc.steps;
    } else {
      var acc1 := Dispatch(acc, secs[0]);
      var h := StepSeq(secs[0]);
      var rest := StepsOf(secs[1..]);
      DispatchEffect(acc, secs[0]);
      DispatchAllSteps(acc1, secs[1..]);
      assert DispatchAll(acc, secs) == DispatchAll(acc1, secs[1..]);
      assert StepsOf(secs) == h + rest;
      AppendAssoc(acc.steps, h, rest);
    }
  }

  lemma AppendAssoc<T>(a: seq<T>, b: seq<T>, c: seq<T>)
    ensures (a + b) + c == a + (b + c)
  {
  }

  lemma {:induction false} DispatchAllPrompt(acc: Parsed, secs: seq<Section>)
    ensures DispatchAll(acc, secs).systemPrompt == LastSystemPrompt(secs, acc.systemPrompt)
    decreases |secs|
  {
    if secs != [] {
      var acc1 := Dispatch(acc, secs[0]);
      DispatchEffect(acc, secs[0]);
      assert DispatchAll(acc, secs) == DispatchAll(acc1, secs[1..]);
      DispatchAllPrompt(acc1, secs[1..]);
      LastSystemPromptCons(secs[0], secs[1..], acc.systemPrompt);
      assert [secs[0]] + secs[1..] == secs;
    }
  }

  /** Whether a header yields a step. */
  predicate IsStepHeader(h: String) {
    var k := Classify(h);
    k.MessageHeader? || k.CheckpointHeader? || k.VerificationHeader?
  }

  function CountStepHeaders(hs: seq<String>): nat {
    if hs == [] then 0 else (if IsStepHeader(hs[0]) then 1 else 0) + CountStepHeaders(hs[1..])
  }

  lemma {:induction false} StepsOfCount(secs: seq<Section>)
    ensures |StepsOf(secs)| == CountStepHeaders(Headers(secs))
  {
    if secs != [] {
      StepsOfCount(secs[1..]);
      assert Headers(secs)[1..] == Headers(secs[1..]);
    }
  }

  lemma {:induction false} StepsOfTrimmed(secs: seq<Section>)
    requires BodiesTrimmed(secs)
    ensures forall i :: 0 <= i < |StepsOf(secs)| ==> IsTrimmed(StepsOf(secs)[i].content)
  {
    if secs != [] {
      StepsOfTrimmed(secs[1..]);
    }
  }

  lemma {:induction false} LastSystemPromptTrimmed(secs: seq<Section>)
    requires BodiesTrimmed(secs)
    ensures IsTrimmed(LastSystemPrompt(secs, []))
    decreases |secs|
  {
    if secs != [] && secs[|secs| - 1].header != "SYSTEM PROMPT" {
      LastSystemPromptTrimmed(secs[..|secs| - 1]);
    }
  }

  // ---------------------------------------------------------------------------
  // parseTestData

  /** `parseTestData`: the case keeps its name; its steps are those of the
      reference sections of the input lines, in order, and its system
      prompt is the body of the last SYSTEM PROMPT section, or empty. */
  function ParseTestData(name: String, rawText: String): (tc: TestCase)
    ensures tc.name == name
    ensures tc.steps == StepsOf(RefSections(SplitLines(rawText)))
    ensures tc.systemPrompt == LastSystemPrompt(RefSections(SplitLines(rawText)), [])
  {
    var lines := SplitLines(rawText);
    var secs := SplitSections(lines);
    var p := DispatchAll(Parsed([], []), secs);
    SplitSectionsRef(lines);
    DispatchAllSpec(Parsed([], []), secs);
    TestCase(name, p.systemPrompt, p.steps)
  }

  /** Without a divider line there are no sections: the system prompt is
      empty and there are no steps. */
  lemma ParseWithoutDivider(name: String, rawText: String)
    requires NoDivider(SplitLines(rawText))
    ensures ParseTestData(name, rawText) == TestCase(name, [], [])
  {
    var lines := SplitLines(rawText);
    FeedAllNoDivider([], lines);
  }

  /** The system prompt and every step's content are trimmed. */
  lemma ParseTrimmed(name: String, rawText: String)
    ensures IsTrimmed(ParseTestData(name, rawText).systemPrompt)
    ensures forall s :: s in ParseTestData(name, rawText).steps ==> IsTrimmed(s.content)
  {
    var secs := SplitSections(SplitLines(rawText));
    SectionBodiesTrimmed(SplitLines(rawText));
    DispatchAllSpec(Parsed([], []), secs);
    StepsOfTrimmed(secs);
    LastSystemPromptTrimmed(secs);
  }

  /** The number of steps is the number of divider headers that match the
      MESSAGE, CHECKPOINT or VERIFICATION patterns. */
  lemma ParseSteps(name: String, rawText: String)
    ensures |ParseTestData(name, rawText).steps| == CountStepHeaders(DividerHeaders(SplitLines(rawText)))
  {
    var lines := SplitLines(rawText);
    var secs := SplitSections(lines);
    SplitSectionsRef(lines);
    StepsOfCount(secs);
    SectionsFollowDividers(lines);
  }

  /** A `MESSAGE <digits>` section yields a message with id `M<digits>`. */
  lemma MessageSectionStep(digits: String, body: String)
    requires |digits| >= 1 && AllDigits(digits)
    ensures StepOf(Section("MESSAGE " + digits, body)) == Some(Message("M" + digits, body))
  {
    var h := "MESSAGE " + digits;
    assert h[8..] == digits;
    assert h != "SYSTEM PROMPT" by { assert h[0] != "SYSTEM PROMPT"[0]; }
    assert !StartsWith(h, "NOTE FOR AUTOTEST") by { assert h[0] != 'N'; }
  }

  /** A `CHECKPOINT <id> (<mode>)` section yields a checkpoint with that id
      and failure mode. */
  lemma CheckpointSectionStep(id: String, fm: String, body: String)
    ensures TaggedHeader("CHECKPOINT " + id + " (" + fm + ")", "CHECKPOINT ", 'C', id, fm) ==>
      StepOf(Section("CHECKPOINT " + id + " (" + fm + ")", body)) == Some(Checkpoint(id, fm, body))
  {
    var c := "CHECKPOINT " + id + " (" + fm + ")";
    if TaggedHeader(c, "CHECKPOINT ", 'C', id, fm) {
      MatchTaggedComplete(c, "CHECKPOINT ", 'C', id, fm);
      assert c[0] == 'C';
      assert !IsMessageHeader(c) by { assert c[0] != 'M'; }
      assert c != "SYSTEM PROMPT" by { assert c[0] != 'S'; }
      assert !StartsWith(c, "NOTE FOR AUTOTEST") by { assert c[0] != 'N'; }
    }
  }

  /** A `VERIFICATION <id> (<mode>)` section yields a verification step with
      that id and failure mode. */
  lemma VerificationSectionStep(id: String, fm: String, body: String)
    ensures TaggedHeader("VERIFICATION " + id + " (" + fm + ")", "VERIFICATION ", 'V', id, fm) ==>
      StepOf(Section("VERIFICATION " + id + " (" + fm + ")", body)) == Some(Verification(id, fm, body))
  {
    var v := "VERIFICATION " + id + " (" + fm + ")";
    if TaggedHeader(v, "VERIFICATION ", 'V', id, fm) {
      MatchTaggedComplete(v, "VERIFICATION ", 'V', id, fm);
      assert v[0] == 'V';
      assert !IsMessageHeader(v) by { assert v[0] != 'M'; }
      assert v != "SYSTEM PROMPT" by { assert v[0] != 'S'; }
      assert !StartsWith(v, "NOTE FOR AUTOTEST") by { assert v[0] != 'N'; }
      assert MatchTagged(v, "CHECKPOINT ", 'C') == None by { assert v[0] != 'C'; }
    }
  }

  /** A `NOTE FOR AUTOTEST…` section never yields a step. */
  lemma NoteSectionDropped(suffix: String, body: String)
    ensures StepOf(Section("NOTE FOR AUTOTEST" + suffix, body)) == None
  {
    var h := "NOTE FOR AUTOTEST" + suffix;
    assert StartsWith(h, "NOTE FOR AUTOTEST") by { assert h[..17] == "NOTE FOR AUTOTEST"; }
    assert h != "SYSTEM PROMPT" by { assert h[0] != 'S'; }
  }
}
