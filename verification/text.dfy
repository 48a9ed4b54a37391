/**
 * String primitives with the semantics of the Kotlin/JVM standard library
 * calls the modelled code uses: `trim()`, `startsWith`, `removePrefix`,
 * literal `replace`, and integer-to-string conversion.
 */
module Text {

  type String = seq<char>

  /** Kotlin's `Char.isWhitespace()` on the JVM: `Character.isWhitespace`
      or `Character.isSpaceChar`. This is the set `trim()` strips. */
  predicate IsWhitespace(c: char) {
    c == ' ' || c == '\t' || c == '\n' || c == '\U{000B}' || c == '\U{000C}' || c == '\r'
    || ('\U{001C}' <= c <= '\U{001F}')
    || c == '\U{00A0}' || c == '\U{1680}' || ('\U{2000}' <= c <= '\U{200A}')
    || c == '\U{2028}' || c == '\U{2029}' || c == '\U{202F}' || c == '\U{205F}' || c == '\U{3000}'
  }

  /** The regular-expression class `\s` of `java.util.regex` (ASCII only). */
  predicate IsRegexSpace(c: char) {
    c == ' ' || c == '\t' || c == '\n' || c == '\U{000B}' || c == '\U{000C}' || c == '\r'
  }

  /** The characters `java.util.regex` treats as line terminators
      (for `.`, and for `^`/`$` in MULTILINE mode). */
  predicate IsLineTerminator(c: char) {
    c == '\n' || c == '\r' || c == '\U{0085}' || c == '\U{2028}' || c == '\U{2029}'
  }

  /** The regular-expression class `\d`: ASCII digits. */
  predicate IsDigit(c: char) {
    '0' <= c <= '9'
  }

  /** The regular-expression class `\w`: ASCII letters, digits and `_`. */
  predicate IsWordChar(c: char) {
    ('a' <= c <= 'z') || ('A' <= c <= 'Z') || IsDigit(c) || c == '_'
  }

  predicate AllDigits(s: String) {
    forall i :: 0 <= i < |s| ==> IsDigit(s[i])
  }

  predicate NoLineTerminator(s: String) {
    forall i :: 0 <= i < |s| ==> !IsLineTerminator(s[i])
  }

  predicate AllWhitespace(s: String) {
    forall i :: 0 <= i < |s| ==> IsWhitespace(s[i])
  }

  // ---------------------------------------------------------------------------
  // trim()

  /** Neither end of `s` is whitespace. */
  predicate IsTrimmed(s: String) {
    s == [] || (!IsWhitespace(s[0]) && !IsWhitespace(s[|s| - 1]))
  }

  /** `trimStart()`: the suffix left after dropping leading whitespace. */
  function TrimStart(s: String): String {
    if s == [] || !IsWhitespace(s[0]) then s else TrimStart(s[1..])
  }

  /** `trimEnd()`: the prefix left after dropping trailing whitespace. */
  function TrimEnd(s: String): String {
    if s == [] || !IsWhitespace(s[|s| - 1]) then s else TrimEnd(s[..|s| - 1])
  }

  /** `trim()`: `s` with whitespace removed from both ends. */
  function Trim(s: String): String {
    TrimEnd(TrimStart(s))
  }

  /** `trimStart()` drops a run of whitespace and stops at the first
      character that is not. */
  lemma {:induction false} TrimStartShape(s: String)
    ensures var r := TrimStart(s);
      && |r| <= |s| && r == s[|s| - |r|..]
      && AllWhitespace(s[..|s| - |r|])
      && (r == [] || !IsWhitespace(r[0]))
  {
    if s != [] && IsWhitespace(s[0]) {
      TrimStartShape(s[1..]);
      var r := TrimStart(s);
      assert s[1..][..|s[1..]| - |r|] == s[1..|s| - |r|];
    }
  }

  /** `trimEnd()` drops a run of whitespace from the end and stops at the
      last character that is not. */
  lemma {:induction false} TrimEndShape(s: String)
    ensures var r := TrimEnd(s);
      && |r| <= |s| && r == s[..|r|]
      && AllWhitespace(s[|r|..])
      && (r == [] || !IsWhitespace(r[|r| - 1]))
  {
    if s != [] && IsWhitespace(s[|s| - 1]) {
      var p := s[..|s| - 1];
      TrimEndShape(p);
      var r := TrimEnd(s);
      assert r == TrimEnd(p);
      assert p[..|r|] == s[..|r|];
      assert s[|r|..] == p[|r|..] + [s[|s| - 1]];
      forall i | 0 <= i < |s[|r|..]| ensures IsWhitespace(s[|r|..][i]) {
        if i < |p[|r|..]| {
          assert s[|r|..][i] == p[|r|..][i];
        }
      }
    }
  }

  /** What `trim()` leaves is trimmed, is a prefix of what `trimStart()`
      leaves, and is empty exactly when `s` is all whitespace. */
  lemma TrimShape(s: String)
    ensures IsTrimmed(Trim(s))
    ensures |Trim(s)| <= |TrimStart(s)| && Trim(s) == TrimStart(s)[..|Trim(s)|]
    ensures AllWhitespace(s) <==> Trim(s) == []
  {
    var t := TrimStart(s);
    TrimStartShape(s);
    TrimEndShape(t);
    var r := TrimEnd(t);
    if r != [] {
      assert r[0] == t[0];
    }
    if r == [] {
      assert t == [];
      assert s == s[..|s| - |t|];
    } else {
      assert !IsWhitespace(r[0]);
      assert !AllWhitespace(s) by {
        assert s[|s| - |t|] == t[0];
      }
    }
  }

  /** Trimming something already trimmed changes nothing. */
  lemma TrimTrimmed(s: String)
    requires IsTrimmed(s)
    ensures Trim(s) == s
  {
  }

  /** Whitespace padding after trimmed text is what `trim()` removes. */
  lemma TrimPadded(s: String, pad: String)
    requires IsTrimmed(s) && AllWhitespace(pad)
    ensures Trim(s + pad) == s
  {
    if s == [] {
      assert s + pad == pad;
      TrimShape(pad);
    } else {
      assert (s + pad)[0] == s[0];
      TrimEndPadded(s, pad);
    }
  }

  lemma {:induction false} TrimEndPadded(s: String, pad: String)
    requires IsTrimmed(s) && AllWhitespace(pad)
    ensures TrimEnd(s + pad) == s
    decreases |pad|
  {
    if pad == [] {
      assert s + pad == s;
    } else {
      var n := |pad| - 1;
      assert (s + pad)[|s + pad| - 1] == pad[n];
      assert (s + pad)[..|s + pad| - 1] == s + pad[..n];
      assert AllWhitespace(pad[..n]) by {
        forall i | 0 <= i < n ensures IsWhitespace(pad[..n][i]) {
          assert pad[..n][i] == pad[i];
        }
      }
      TrimEndPadded(s, pad[..n]);
    }
  }

  // ---------------------------------------------------------------------------
  // startsWith / removePrefix / endsWith

  predicate StartsWith(s: String, p: String) {
    |p| <= |s| && s[..|p|] == p
  }

  predicate EndsWith(s: String, p: String) {
    |p| <= |s| && s[|s| - |p|..] == p
  }

  /** `removePrefix(p)`: drops `p` when `s` starts with it. */
  function RemovePrefix(s: String, p: String): (r: String)
    ensures StartsWith(s, p) ==> s == p + r
    ensures !StartsWith(s, p) ==> r == s
  {
    if StartsWith(s, p) then s[|p|..] else s
  }

  /** `removeSuffix(p)`: drops `p` when `s` ends with it. */
  function RemoveSuffix(s: String, p: String): (r: String)
    ensures EndsWith(s, p) ==> s == r + p
    ensures !EndsWith(s, p) ==> r == s
  {
    if EndsWith(s, p) then s[..|s| - |p|] else s
  }

  /** `pat` occurs somewhere in `s`. */
  predicate Contains(s: String, pat: String) {
    exists i :: 0 <= i <= |s| && StartsWith(s[i..], pat)
  }

  // ---------------------------------------------------------------------------
  // Literal replace

  /** Kotlin's literal `String.replace(pat, rep)`: every occurrence of `pat`,
      found left to right without overlap, is replaced by `rep`. */
  function ReplaceAll(s: String, pat: String, rep: String): String
    requires |pat| > 0
  {
    if s == [] then []
    else if StartsWith(s, pat) then rep + ReplaceAll(s[|pat|..], pat, rep)
    else [s[0]] + ReplaceAll(s[1..], pat, rep)
  }

  /** Replacing one character, character by character: the reference
      definition a single-character `replace` agrees with. */
  function MapChar(s: String, c: char, rep: String): (r: String)
    ensures c !in s ==> r == s
  {
    if s == [] then [] else (if s[0] == c then rep else [s[0]]) + MapChar(s[1..], c, rep)
  }

  lemma {:induction false} MapCharConcat(a: String, b: String, c: char, rep: String)
    ensures MapChar(a + b, c, rep) == MapChar(a, c, rep) + MapChar(b, c, rep)
  {
    if a == [] {
      assert a + b == b;
    } else {
      assert (a + b)[1..] == a[1..] + b;
      MapCharConcat(a[1..], b, c, rep);
    }
  }

  /** With a one-character pattern, `replace` is the per-character map. */
  lemma {:induction false} ReplaceCharIsMap(s: String, c: char, rep: String)
    ensures ReplaceAll(s, [c], rep) == MapChar(s, c, rep)
  {
    if s != [] {
      ReplaceCharIsMap(s[1..], c, rep);
      assert s[..|[c]|] == [s[0]];
      if s[0] == c {
        assert ReplaceAll(s, [c], rep) == rep + ReplaceAll(s[1..], [c], rep);
      } else {
        assert ReplaceAll(s, [c], rep) == [s[0]] + ReplaceAll(s[1..], [c], rep);
      }
    }
  }

  /** Concatenation of a sequence of strings (`joinToString("")`). */
  function Concat(parts: seq<String>): (r: String)
    ensures |parts| == 1 ==> r == parts[0]
  {
    if parts == [] then [] else Concat(parts[..|parts| - 1]) + parts[|parts| - 1]
  }

  lemma ConcatAppend(parts: seq<String>, p: String)
    ensures Concat(parts + [p]) == Concat(parts) + p
  {
    assert (parts + [p])[..|parts|] == parts;
  }

  // ---------------------------------------------------------------------------
  // Integers as decimal text

  function DigitChar(d: nat): (c: char)
    requires d < 10
    ensures IsDigit(c)
  {
    "0123456789"[d]
  }

  /** Kotlin string interpolation of a non-negative `Int`: its decimal
      digits, most significant first, with no leading zero. */
  function NatToString(n: nat): (r: String)
    ensures |r| > 0 && AllDigits(r)
    ensures |r| > 1 ==> r[0] != '0'
    ensures n < 10 ==> r == [DigitChar(n)]
  {
    if n < 10 then [DigitChar(n)] else NatToString(n / 10) + [DigitChar(n % 10)]
  }

  /** Kotlin string interpolation of an `Int` that may be negative. */
  function IntToString(n: int): String {
    if n >= 0 then NatToString(n) else "-" + NatToString(-n)
  }
}
