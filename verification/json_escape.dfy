/**
 * The hand-written JSON string escaping the two streaming routes apply
 * before they splice text into an SSE `data:` line, and a reader for the
 * body of a JSON string literal that tells whether the spliced text
 * survives a JSON decoder on the other end.
 */
module JsonEscape {
  import opened Wrappers
  import opened Text

  // ---------------------------------------------------------------------------
  // Reading a JSON string body

  /** A character that ends a line of a `text/event-stream`: a line feed,
      or a carriage return, alone or before a line feed (section 9.2.5 of
      the WHATWG HTML standard). Ktor's `readUTF8Line` splits there too. */
  predicate LineBreak(c: char) {
    c == '\n' || c == '\r'
  }

  /** The character a two-character escape `\<c>` stands for. */
  function Unescaped(c: char): char {
    if c == 'n' then '\n' else if c == 'r' then '\r' else c
  }

  /** The text between the quotes of a JSON string literal, decoded, for the
      escapes the routes write (`\\`, `\"`, `\n`, and `\r` in the corrected
      escapes). A raw quote ends the literal early and a raw line feed or
      carriage return splits the SSE line, so each makes the body
      unreadable, as does a backslash that starts no such escape. */
  function ReadStringBody(s: String): Option<String>
  {
    if s == [] then Some([])
    else if s[0] == '\\' then
      if |s| >= 2 && (s[1] == '\\' || s[1] == '"' || s[1] == 'n' || s[1] == 'r') then
        match ReadStringBody(s[2..])
        case Some(t) => Some([Unescaped(s[1])] + t)
        case None => None
      else None
    else if s[0] == '"' || LineBreak(s[0]) then None
    else
      match ReadStringBody(s[1..])
      case Some(t) => Some([s[0]] + t)
      case None => None
  }

  /** Every `"` in `s` has a backslash just before it. */
  predicate QuotesEscaped(s: String) {
    forall i :: 0 <= i < |s| && s[i] == '"' ==> i > 0 && s[i - 1] == '\\'
  }

  // ---------------------------------------------------------------------------
  // Content escaping

  /** What the content escape as written turns one character into. */
  function EscapeChar(c: char): String {
    if c == '\\' then "\\\\" else if c == '"' then "\\\"" else if c == '\n' then "\\n" else [c]
  }

  /** Character-by-character reference for the content escape as written. */
  function EscapeEach(s: String): String {
    if s == [] then [] else EscapeChar(s[0]) + EscapeEach(s[1..])
  }

  /** The content escape of both routes, as written: replace backslash, then
      quote, then newline. It agrees with the character-by-character escape
      and leaves no raw newline or unescaped quote, but it leaves a carriage
      return raw: a JSON reader gets `s` back exactly when `s` has none. */
  function EscapeContentAsWritten(s: String): (r: String)
    ensures r == EscapeEach(s)
    ensures '\n' !in r && QuotesEscaped(r)
    ensures ReadStringBody(r) == if '\r' in s then None else Some(s)
  {
    EscapeContentIsEach(s);
    EscapeEachReadsBack(s);
    EscapeEachShape(s);
    ReplaceAll(ReplaceAll(ReplaceAll(s, "\\", "\\\\"), "\"", "\\\""), "\n", "\\n")
  }

  /** The three sequential replaces compose into the per-character escape:
      the quote pass never re-touches the backslashes the first pass
      doubled, and the newline pass never touches either. */
  lemma EscapeContentIsEach(s: String)
    ensures ReplaceAll(ReplaceAll(ReplaceAll(s, "\\", "\\\\"), "\"", "\\\""), "\n", "\\n")
         == EscapeEach(s)
  {
    var a := ReplaceAll(s, "\\", "\\\\");
    ReplaceCharIsMap(s, '\\', "\\\\");
    var b := ReplaceAll(a, "\"", "\\\"");
    ReplaceCharIsMap(a, '"', "\\\"");
    ReplaceCharIsMap(b, '\n', "\\n");
    ThreeMapsAreEach(s);
  }

  lemma {:induction false} ThreeMapsAreEach(s: String)
    ensures MapChar(MapChar(MapChar(s, '\\', "\\\\"), '"', "\\\""), '\n', "\\n") == EscapeEach(s)
  {
    if s != [] {
      var c := s[0];
      var t := s[1..];
      var h1 := if c == '\\' then "\\\\" else [c];
      assert MapChar(s, '\\', "\\\\") == h1 + MapChar(t, '\\', "\\\\");
      MapCharConcat(h1, MapChar(t, '\\', "\\\\"), '"', "\\\"");
      var h2 := MapChar(h1, '"', "\\\"");
      MapCharConcat(h2, MapChar(MapChar(t, '\\', "\\\\"), '"', "\\\""), '\n', "\\n");
      ThreeMapsAreEach(t);
      assert MapChar(h2, '\n', "\\n") == EscapeChar(c) by {
        if c == '\\' {
          assert h2 == "\\\\";
        } else if c == '"' {
          assert h2 == "\\\"";
        } else if c == '\n' {
          assert h2 == "\n";
        } else {
          assert h2 == [c];
        }
      }
    }
  }

  /** Reading back the per-character escape as written recovers the
      original exactly when it has no carriage return. */
  lemma {:induction false} EscapeEachReadsBack(s: String)
    ensures ReadStringBody(EscapeEach(s)) == if '\r' in s then None else Some(s)
  {
    if s != [] {
      EscapeEachReadsBack(s[1..]);
      var e := EscapeEach(s);
      var c := s[0];
      assert e == EscapeChar(c) + EscapeEach(s[1..]);
      assert s == [c] + s[1..];
      if c == '\\' || c == '"' || c == '\n' {
        assert e[2..] == EscapeEach(s[1..]);
      } else if c != '\r' {
        assert e[1..] == EscapeEach(s[1..]);
      }
    }
  }

  /** The escaped text has no raw newline, never starts with a quote, and
      every quote in it is escaped. */
  lemma {:induction false} EscapeEachShape(s: String)
    ensures '\n' !in EscapeEach(s)
    ensures EscapeEach(s) == [] || EscapeEach(s)[0] != '"'
    ensures QuotesEscaped(EscapeEach(s))
  {
    if s != [] {
      EscapeEachShape(s[1..]);
      var h := EscapeChar(s[0]);
      var t := EscapeEach(s[1..]);
      assert EscapeEach(s) == h + t;
      forall i | 0 <= i < |h + t| && (h + t)[i] == '"'
        ensures i > 0 && (h + t)[i - 1] == '\\'
      {
        if i >= |h| {
          assert t[i - |h|] == '"';
        }
      }
    }
  }

  /** What the corrected content escape turns one character into: as
      written, and a carriage return becomes `\r`. */
  function SafeChar(c: char): String {
    if c == '\r' then "\\r" else EscapeChar(c)
  }

  /** Character-by-character reference for the corrected content escape. */
  function SafeEach(s: String): String {
    if s == [] then [] else SafeChar(s[0]) + SafeEach(s[1..])
  }

  /** The content escape as intended: the escape as written followed by
      `replace("\r", "\\r")`. It leaves no raw line break or unescaped
      quote, and a JSON reader gets every `s` back. */
  function EscapeContent(s: String): (r: String)
    ensures r == SafeEach(s)
    ensures '\n' !in r && '\r' !in r && QuotesEscaped(r)
    ensures ReadStringBody(r) == Some(s)
  {
    var a := EscapeContentAsWritten(s);
    ReplaceCharIsMap(a, '\r', "\\r");
    CarriageReturnMapIsSafe(s);
    SafeEachReadsBack(s);
    SafeEachShape(s);
    ReplaceAll(a, "\r", "\\r")
  }

  /** Escaping carriage returns after the escape as written gives the
      per-character corrected escape. */
  lemma {:induction false} CarriageReturnMapIsSafe(s: String)
    ensures MapChar(EscapeEach(s), '\r', "\\r") == SafeEach(s)
  {
    if s != [] {
      var c := s[0];
      var h := EscapeChar(c);
      MapCharConcat(h, EscapeEach(s[1..]), '\r', "\\r");
      CarriageReturnMapIsSafe(s[1..]);
      assert MapChar(h, '\r', "\\r") == SafeChar(c) by {
        if c == '\r' {
          assert h == [c];
        } else if c == '\\' {
          assert h == "\\\\";
        } else if c == '"' {
          assert h == "\\\"";
        } else if c == '\n' {
          assert h == "\\n";
        } else {
          assert h == [c];
        }
      }
    }
  }

  lemma {:induction false} SafeEachReadsBack(s: String)
    ensures ReadStringBody(SafeEach(s)) == Some(s)
  {
    if s != [] {
      SafeEachReadsBack(s[1..]);
      var e := SafeEach(s);
      var c := s[0];
      assert e == SafeChar(c) + SafeEach(s[1..]);
      assert s == [c] + s[1..];
      if c == '\\' || c == '"' || c == '\n' || c == '\r' {
        assert e[2..] == SafeEach(s[1..]);
      } else {
        assert e[1..] == SafeEach(s[1..]);
      }
    }
  }

  lemma {:induction false} SafeEachShape(s: String)
    ensures '\n' !in SafeEach(s) && '\r' !in SafeEach(s)
    ensures SafeEach(s) == [] || SafeEach(s)[0] != '"'
    ensures QuotesEscaped(SafeEach(s))
  {
    if s != [] {
      SafeEachShape(s[1..]);
      var h := SafeChar(s[0]);
      var t := SafeEach(s[1..]);
      assert SafeEach(s) == h + t;
      forall i | 0 <= i < |h + t| && (h + t)[i] == '"'
        ensures i > 0 && (h + t)[i - 1] == '\\'
      {
        if i >= |h| {
          assert t[i - |h|] == '"';
        }
      }
    }
  }

  // ---------------------------------------------------------------------------
  // Error-message escaping

  /** Kotlin's `replace("\n", " ")`, character by character. */
  function NewlinesToSpaces(s: String): String {
    if s == [] then [] else [if s[0] == '\n' then ' ' else s[0]] + NewlinesToSpaces(s[1..])
  }

  /** The error-message escape of both routes, as written: quotes are
      escaped and newlines become spaces, but backslashes are left alone.
      Carriage returns are left raw too. The result has no raw newline and
      every quote has a backslash before it; a message with no backslash
      reads back, with newlines as spaces, exactly when it has no carriage
      return. */
  function EscapeErrorAsWritten(m: String): (r: String)
    ensures '\n' !in r && QuotesEscaped(r)
    ensures '\\' !in m ==>
      ReadStringBody(r) == if '\r' in m then None else Some(NewlinesToSpaces(m))
  {
    var a := ReplaceAll(m, "\"", "\\\"");
    ReplaceCharIsMap(m, '"', "\\\"");
    ReplaceCharIsMap(a, '\n', " ");
    ErrorMapsShape(m);
    ErrorMapsReadBack(m);
    ReplaceAll(a, "\n", " ")
  }

  /** The two character maps of the as-written escape, one character at a
      time. */
  lemma ErrorMapsHead(m: String)
    requires m != []
    ensures MapChar(MapChar(m, '"', "\\\""), '\n', " ")
      == (if m[0] == '"' then "\\\"" else if m[0] == '\n' then " " else [m[0]])
         + MapChar(MapChar(m[1..], '"', "\\\""), '\n', " ")
  {
    var c := m[0];
    var h1 := if c == '"' then "\\\"" else [c];
    var t1 := MapChar(m[1..], '"', "\\\"");
    assert MapChar(m, '"', "\\\"") == h1 + t1;
    MapCharConcat(h1, t1, '\n', " ");
  }

  lemma {:induction false} ErrorMapsShape(m: String)
    ensures var r := MapChar(MapChar(m, '"', "\\\""), '\n', " ");
      && '\n' !in r && QuotesEscaped(r) && (r == [] || r[0] != '"')
  {
    if m != [] {
      ErrorMapsShape(m[1..]);
      ErrorMapsHead(m);
      var c := m[0];
      var h := if c == '"' then "\\\"" else if c == '\n' then " " else [c];
      var t := MapChar(MapChar(m[1..], '"', "\\\""), '\n', " ");
      var r := h + t;
      forall i | 0 <= i < |r| && r[i] == '"' ensures i > 0 && r[i - 1] == '\\' {
        if i >= |h| {
          assert t[i - |h|] == '"';
        }
      }
    }
  }

  lemma {:induction false} ErrorMapsReadBack(m: String)
    ensures '\\' !in m ==>
      ReadStringBody(MapChar(MapChar(m, '"', "\\\""), '\n', " "))
      == if '\r' in m then None else Some(NewlinesToSpaces(m))
  {
    if m != [] && '\\' !in m {
      var c := m[0];
      var u := m[1..];
      assert m == [c] + u;
      assert '\\' !in u;
      ErrorMapsHead(m);
      var t := MapChar(MapChar(u, '"', "\\\""), '\n', " ");
      if c == '\r' {
        CarriageReturnUnread(t);
      } else {
        assert ('\r' in m) == ('\r' in u);
        ErrorMapsReadBack(u);
        var d := if c == '\n' then ' ' else c;
        assert NewlinesToSpaces(m) == [d] + NewlinesToSpaces(u);
        if c == '"' {
          QuotePrefixReads(t);
        } else {
          PlainPrefixReads([d], t);
        }
      }
    }
  }

  /** A raw carriage return ends the string body. */
  lemma CarriageReturnUnread(t: String)
    ensures ReadStringBody("\r" + t) == None
  {
    assert ("\r" + t)[0] == '\r';
  }

  /** An escaped quote in front of a string body reads back as a quote. */
  lemma QuotePrefixReads(t: String)
    ensures ReadStringBody("\\\"" + t) == match ReadStringBody(t) case Some(v) => Some("\"" + v) case None => None
  {
    assert ("\\\"" + t)[2..] == t;
  }

  /** A message that is exactly one backslash: the as-written escape leaves
      it alone, so the JSON string it is spliced into does not read back. */
  lemma ErrorEscapeLosesTrailingBackslash()
    ensures ReadStringBody(EscapeErrorAsWritten("\\")) == None
  {
    assert ReplaceAll("\\", "\"", "\\\"") == "\\";
    assert ReplaceAll("\\", "\n", " ") == "\\";
  }

  /** What the intended error escape turns one character into. */
  function ErrorChar(c: char): String {
    if c == '\\' then "\\\\"
    else if c == '"' then "\\\""
    else if c == '\n' then " "
    else if c == '\r' then "\\r"
    else [c]
  }

  /** Character-by-character reference for the intended error escape. */
  function ErrorEach(m: String): String {
    if m == [] then [] else ErrorChar(m[0]) + ErrorEach(m[1..])
  }

  /** The error-message escape as intended: backslashes are escaped first
      and carriage returns are written as `\r`, so every message reads
      back, with newlines turned into spaces. */
  function EscapeError(m: String): (r: String)
    ensures '\n' !in r && '\r' !in r && QuotesEscaped(r)
    ensures ReadStringBody(r) == Some(NewlinesToSpaces(m))
  {
    var a := ReplaceAll(m, "\\", "\\\\");
    var b := ReplaceAll(a, "\"", "\\\"");
    var c := ReplaceAll(b, "\n", " ");
    ReplaceCharIsMap(m, '\\', "\\\\");
    ReplaceCharIsMap(a, '"', "\\\"");
    ReplaceCharIsMap(b, '\n', " ");
    ReplaceCharIsMap(c, '\r', "\\r");
    ErrorMapsAreEach(m);
    ErrorEachShape(m);
    ErrorEachReadsBack(m);
    ReplaceAll(c, "\r", "\\r")
  }

  /** The four character maps of the intended escape, one character at a
      time. */
  lemma ErrorMapsStep(c: char, t: String)
    ensures MapChar(MapChar(MapChar(MapChar([c] + t, '\\', "\\\\"), '"', "\\\""), '\n', " "), '\r', "\\r")
      == ErrorChar(c) + MapChar(MapChar(MapChar(MapChar(t, '\\', "\\\\"), '"', "\\\""), '\n', " "), '\r', "\\r")
  {
    var h1 := if c == '\\' then "\\\\" else [c];
    var t1 := MapChar(t, '\\', "\\\\");
    assert ([c] + t)[1..] == t;
    assert MapChar([c] + t, '\\', "\\\\") == h1 + t1;
    MapCharConcat(h1, t1, '"', "\\\"");
    var t2 := MapChar(t1, '"', "\\\"");
    MapCharConcat(MapChar(h1, '"', "\\\""), t2, '\n', " ");
    MapCharConcat(MapChar(MapChar(h1, '"', "\\\""), '\n', " "), MapChar(t2, '\n', " "), '\r', "\\r");
    ErrorMapsHeadChar(c);
  }

  /** The four maps applied to one character give `ErrorChar`. */
  lemma ErrorMapsHeadChar(c: char)
    ensures MapChar(MapChar(MapChar(if c == '\\' then "\\\\" else [c], '"', "\\\""), '\n', " "), '\r', "\\r")
      == ErrorChar(c)
  {
    var h1 := if c == '\\' then "\\\\" else [c];
    var h2 := MapChar(h1, '"', "\\\"");
    var h3 := MapChar(h2, '\n', " ");
    if c == '\\' {
      assert h3 == "\\\\";
    } else if c == '"' {
      assert h3 == "\\\"";
    } else if c == '\n' {
      assert h2 == "\n";
      assert h3 == " ";
    } else {
      assert h3 == [c];
    }
  }

  lemma {:induction false} ErrorMapsAreEach(m: String)
    ensures MapChar(MapChar(MapChar(MapChar(m, '\\', "\\\\"), '"', "\\\""), '\n', " "), '\r', "\\r") == ErrorEach(m)
  {
    if m != [] {
      assert m == [m[0]] + m[1..];
      ErrorMapsStep(m[0], m[1..]);
      ErrorMapsAreEach(m[1..]);
    }
  }

  lemma {:induction false} ErrorEachReadsBack(m: String)
    ensures ReadStringBody(ErrorEach(m)) == Some(NewlinesToSpaces(m))
  {
    if m != [] {
      ErrorEachReadsBack(m[1..]);
      var e := ErrorEach(m);
      var c := m[0];
      assert e == ErrorChar(c) + ErrorEach(m[1..]);
      if c == '\\' || c == '"' || c == '\r' {
        assert e[2..] == ErrorEach(m[1..]);
      } else {
        assert e[1..] == ErrorEach(m[1..]);
      }
    }
  }

  lemma {:induction false} ErrorEachShape(m: String)
    ensures '\n' !in ErrorEach(m) && '\r' !in ErrorEach(m)
    ensures ErrorEach(m) == [] || ErrorEach(m)[0] != '"'
    ensures QuotesEscaped(ErrorEach(m))
  {
    if m != [] {
      ErrorEachShape(m[1..]);
      var h := ErrorChar(m[0]);
      var t := ErrorEach(m[1..]);
      assert ErrorEach(m) == h + t;
      forall i | 0 <= i < |h + t| && (h + t)[i] == '"'
        ensures i > 0 && (h + t)[i - 1] == '\\'
      {
        if i >= |h| {
          assert t[i - |h|] == '"';
        }
      }
    }
  }

  // ---------------------------------------------------------------------------
  // Reading one string field back out of an SSE line

  /** Every line the routes write whose last field is a string ends in a
      closing quote, a closing brace and the blank line that ends the event. */
  const CLOSE := "\"}\n\n"

  /** The decoded string field of a line `open + body + CLOSE`. */
  function Field(line: String, open: String): Option<String> {
    if |open| + |CLOSE| <= |line| && StartsWith(line, open) && EndsWith(line, CLOSE)
    then ReadStringBody(line[|open|..|line| - |CLOSE|])
    else None
  }

  lemma FieldOf(open: String, x: String)
    ensures Field(open + x + CLOSE, open) == ReadStringBody(x)
  {
    var line := open + x + CLOSE;
    assert line[..|open|] == open;
    assert line[|line| - |CLOSE|..] == CLOSE;
    assert line[|open|..|line| - |CLOSE|] == x;
  }

  /** Text with nothing a JSON string body would need escaped. */
  predicate Plain(s: String) {
    forall i :: 0 <= i < |s| ==> s[i] != '\\' && s[i] != '"' && !LineBreak(s[i])
  }

  lemma PlainConcat(a: String, b: String)
    requires Plain(a) && Plain(b)
    ensures Plain(a + b)
  {
    forall i | 0 <= i < |a + b| ensures (a + b)[i] != '\\' && (a + b)[i] != '"' && !LineBreak((a + b)[i]) {
      if i >= |a| {
        assert (a + b)[i] == b[i - |a|];
      }
    }
  }

  /** Plain text spliced in front of a string body reads back as itself,
      and does not rescue a body that does not read. */
  lemma {:induction false} PlainPrefixReads(p: String, s: String)
    requires Plain(p)
    ensures ReadStringBody(p + s) == match ReadStringBody(s) case Some(t) => Some(p + t) case None => None
    decreases |p|
  {
    if p == [] {
      assert p + s == s;
      match ReadStringBody(s)
      case Some(t) => assert p + t == t;
      case None =>
    } else {
      var q := p[1..];
      assert p[0] != '\\' && p[0] != '"' && !LineBreak(p[0]);
      assert (p + s)[0] == p[0];
      assert (p + s)[1..] == q + s;
      assert Plain(q) by {
        forall i | 0 <= i < |q| ensures q[i] != '\\' && q[i] != '"' && !LineBreak(q[i]) {
          assert q[i] == p[i + 1];
        }
      }
      PlainPrefixReads(q, s);
      assert [p[0]] + q == p;
      match ReadStringBody(s)
      case Some(t) =>
        assert ReadStringBody(q + s) == Some(q + t);
        assert [p[0]] + (q + t) == p + t;
      case None =>
    }
  }
}
