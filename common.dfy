/** Values and string operations of the Java platform that every component of
    the signalling relay relies on: nullable references, exceptions as the
    handler reports them, and the three different notions of "white space"
    that `String.isBlank`, `String.trim` and the regular expression `\s` use. */
module Common {

  /** A Java reference that may be null. */
  datatype Option<T> = None | Some(value: T)

  /** An exception as the relay reports it: its simple class name and its
      message, which may be null. */
  datatype Fault = Fault(className: string, message: Option<string>)

  /** A JSON value as Jackson parses it. A number keeps its integral
      value and its literal text. */
  datatype Json =
    | JText(text: string)
    | JNumber(value: int, literal: string)
    | JBool(b: bool)
    | JNull
    | JArray(items: seq<Json>)
    | JObject(members: map<string, Json>)

  /** The outcome of a Java call that returns a value or throws. */
  datatype Outcome<T> = Done(value: T) | Thrown(fault: Fault)

  /** What Java's string conversion (`String.valueOf`, or `+` on a string)
      gives for a possibly null string: the string itself, or "null". */
  function JavaText(s: Option<string>): string {
    if s.Some? then s.value else "null"
  }

  /** `Character.isWhitespace`: the Unicode space, line and paragraph
      separators except the three non-breaking spaces, the ASCII controls
      U+0009..U+000D, and the separators U+001C..U+001F. */
  predicate IsJavaWhitespace(c: char) {
    var n := c as int;
    || n == 0x20 || 0x09 <= n <= 0x0D || 0x1C <= n <= 0x1F
    || n == 0x1680 || 0x2000 <= n <= 0x2006 || 0x2008 <= n <= 0x200A
    || n == 0x2028 || n == 0x2029 || n == 0x205F || n == 0x3000
  }

  /** `String.isBlank`: empty, or white space only. */
  predicate IsBlank(s: string) {
    forall i | 0 <= i < |s| :: IsJavaWhitespace(s[i])
  }

  /** A nullable string that is null or blank (the recurring
      `x == null || x.isBlank()` test). */
  predicate IsMissing(s: Option<string>) {
    s.None? || IsBlank(s.value)
  }

  /** The class `\s` of Java regular expressions: [ \t\n\x0B\f\r]. */
  predicate IsRegexSpace(c: char) {
    c == ' ' || c == '\t' || c == '\n' || c as int == 0x0B || c as int == 0x0C || c == '\r'
  }

  /** `String.trim` removes every leading and trailing character whose code is
      at most U+0020. */
  predicate IsTrimmable(c: char) {
    c as int <= 0x20
  }

  /** The string without its leading trimmable characters. */
  function TrimStart(s: string): (r: string)
    ensures |r| <= |s| && r == s[|s| - |r|..]
    ensures forall i | 0 <= i < |s| - |r| :: IsTrimmable(s[i])
    ensures r == [] || !IsTrimmable(r[0])
  {
    if s == [] || !IsTrimmable(s[0]) then s else TrimStart(s[1..])
  }

  /** The string without its trailing trimmable characters. */
  function TrimEnd(s: string): (r: string)
    ensures |r| <= |s| && r == s[..|r|]
    ensures forall i | |r| <= i < |s| :: IsTrimmable(s[i])
    ensures r == [] || !IsTrimmable(r[|r| - 1])
  {
    if s == [] || !IsTrimmable(s[|s| - 1]) then s else TrimEnd(s[..|s| - 1])
  }

  /** The number of leading trimmable characters of `s`. */
  function TrimOffset(s: string): nat {
    |s| - |TrimStart(s)|
  }

  /** `String.trim`: the longest infix that neither starts nor ends with a
      trimmable character, found after removing only trimmable characters. */
  function Trim(s: string): (r: string)
    ensures TrimOffset(s) + |r| <= |s| && r == s[TrimOffset(s)..TrimOffset(s) + |r|]
    ensures forall i | 0 <= i < TrimOffset(s) :: IsTrimmable(s[i])
    ensures forall i | TrimOffset(s) + |r| <= i < |s| :: IsTrimmable(s[i])
    ensures r == [] || (!IsTrimmable(r[0]) && !IsTrimmable(r[|r| - 1]))
  {
    var t := TrimStart(s);
    var r := TrimEnd(t);
    InfixOfSuffix(s, |s| - |t|, t, r);
    r
  }

  /** A prefix `r` of the suffix `t` of `s` starting at `off`, followed in
      `t` by trimmable characters only, is the infix of `s` at `off`, and
      `s` has only trimmable characters after it. */
  lemma InfixOfSuffix(s: string, off: nat, t: string, r: string)
    requires off <= |s| && t == s[off..] && |r| <= |t| && r == t[..|r|]
    requires forall i | |r| <= i < |t| :: IsTrimmable(t[i])
    ensures off + |r| <= |s| && r == s[off..off + |r|]
    ensures forall i | off + |r| <= i < |s| :: IsTrimmable(s[i])
  {
    forall i | off + |r| <= i < |s|
      ensures IsTrimmable(s[i])
    {
      assert s[i] == t[i - off];
    }
  }

  /** `s.startsWith(p)`. */
  predicate StartsWith(s: string, p: string) {
    |p| <= |s| && s[..|p|] == p
  }

  /** `s.contains(sub)`: `sub` occurs in `s` at some position. */
  predicate Contains(s: string, sub: string)
    decreases |s|
  {
    StartsWith(s, sub) || (|s| > 0 && Contains(s[1..], sub))
  }

  lemma {:induction false} ContainsAt(s: string, sub: string, k: nat)
    requires k + |sub| <= |s| && s[k..k + |sub|] == sub
    ensures Contains(s, sub)
    decreases k
  {
    if k > 0 {
      assert s[1..][k - 1..k - 1 + |sub|] == sub;
      ContainsAt(s[1..], sub, k - 1);
    }
  }

  /** `Character.toLowerCase` restricted to what a prefix test against an
      ASCII word can observe: only A..Z map into a..z. */
  function LowerAscii(c: char): char {
    if 'A' <= c <= 'Z' then (c as int + 32) as char else c
  }

  /** `toLowerCase(Locale.ROOT)` character by character. The contract only
      fixes the shape; what the lower-casing is for is stated by
      `Authorization.SchemeIsOptional`. */
  function ToLowerAscii(s: string): (r: string)
    ensures |r| == |s| && forall i | 0 <= i < |s| :: r[i] == LowerAscii(s[i])
  {
    seq(|s|, i requires 0 <= i < |s| => LowerAscii(s[i]))
  }

  /** `s` starts with the lower-case ASCII text `w` in any ASCII case. This
      is both the regular expression flag `(?i)` without Unicode case
      folding and `s.toLowerCase(Locale.ROOT).startsWith(w)`: no character
      outside A..Z lower-cases to a character of such a `w`, and the only
      character whose lower case is longer, U+0130, lower-cases to an `i`
      followed by a combining mark, neither of which occurs in `bearer `. */
  predicate MatchesIgnoringAsciiCase(s: string, w: string) {
    |w| <= |s| && ToLowerAscii(s[..|w|]) == w
  }

  /** Trimming a string that neither starts nor ends with a trimmable
      character changes nothing. */
  lemma TrimUntrimmable(s: string)
    requires s == [] || (!IsTrimmable(s[0]) && !IsTrimmable(s[|s| - 1]))
    ensures Trim(s) == s
  {
    if s != [] {
      assert TrimOffset(s) == 0;
      var r := Trim(s);
      assert !IsTrimmable(s[|s| - 1]);
    }
  }

  /** `Character.toUpperCase` restricted to the characters whose upper case is
      an ASCII letter: a..z, the dotless i (U+0131) and the long s (U+017F).
      Every other character is kept. The relay only compares upper-cased
      text with the words ACEPTADO, ACTIVE and ACTIVA, and no other
      character's Java upper case can occur in one of those words. */
  function UpperAscii(c: char): char {
    if 'a' <= c <= 'z' then (c as int - 32) as char
    else if c as int == 0x0131 then 'I'
    else if c as int == 0x017F then 'S'
    else c
  }

  /** `toUpperCase()` character by character. The contract only fixes the
      shape; what the upper-casing is for is stated by
      `Eligibility.VerdictExact`. */
  function ToUpperAscii(s: string): (r: string)
    ensures |r| == |s| && forall i | 0 <= i < |s| :: r[i] == UpperAscii(s[i])
  {
    seq(|s|, i requires 0 <= i < |s| => UpperAscii(s[i]))
  }
  /** Splitting on every occurrence of `sep`, keeping empty pieces. */
  function SplitOn(s: string, sep: char): (r: seq<string>)
    ensures |r| >= 1
    decreases |s|
  {
    if s == [] then [""]
    else if s[0] == sep then [""] + SplitOn(s[1..], sep)
    else
      var rest := SplitOn(s[1..], sep);
      [[s[0]] + rest[0]] + rest[1..]
  }

  /** The pieces without their trailing empty ones, as `String.split` with
      no limit returns them. */
  function DropTrailingEmpty(parts: seq<string>): (r: seq<string>)
    ensures |r| <= |parts| && r == parts[..|r|]
    ensures r == [] || r[|r| - 1] != ""
    ensures forall i | |r| <= i < |parts| :: parts[i] == ""
    decreases |parts|
  {
    if parts != [] && parts[|parts| - 1] == "" then DropTrailingEmpty(parts[..|parts| - 1]) else parts
  }

  /** The string without its leading regular-expression spaces (`\s*`,
      greedy). */
  function SkipRegexSpace(s: string): (r: string)
    ensures |r| <= |s| && r == s[|s| - |r|..]
    ensures forall i | 0 <= i < |s| - |r| :: IsRegexSpace(s[i])
    ensures r == [] || !IsRegexSpace(r[0])
  {
    if s == [] || !IsRegexSpace(s[0]) then s else SkipRegexSpace(s[1..])
  }

  /** The string without its trailing regular-expression spaces. */
  function DropRegexSpace(s: string): (r: string)
    ensures |r| <= |s| && r == s[..|r|]
    ensures forall i | |r| <= i < |s| :: IsRegexSpace(s[i])
    ensures r == [] || !IsRegexSpace(r[|r| - 1])
  {
    if s == [] || !IsRegexSpace(s[|s| - 1]) then s else DropRegexSpace(s[..|s| - 1])
  }

  /** A piece without the separator splits to itself. */
  lemma {:induction false} SplitOnWithout(p: string, sep: char)
    requires sep !in p
    ensures SplitOn(p, sep) == [p]
    decreases |p|
  {
    if p != [] {
      assert sep !in p[1..] by {
        forall c | c in p[1..] ensures c != sep {
          assert c in p;
        }
      }
      SplitOnWithout(p[1..], sep);
      assert [p[0]] + p[1..] == p;
    }
  }

  /** A leading piece without the separator splits off first. */
  lemma {:induction false} SplitOnFirst(h: string, sep: char, t: string)
    requires sep !in h
    ensures SplitOn(h + [sep] + t, sep) == [h] + SplitOn(t, sep)
    decreases |h|
  {
    if h == [] {
      assert h + [sep] + t == [sep] + t;
      assert ([sep] + t)[1..] == t;
    } else {
      assert sep !in h[1..] by {
        forall c | c in h[1..] ensures c != sep {
          assert c in h;
        }
      }
      SplitOnFirst(h[1..], sep, t);
      assert (h + [sep] + t)[1..] == h[1..] + [sep] + t;
      assert [h[0]] + h[1..] == h;
    }
  }

  /** Dropping trailing empty pieces never reaches past a non-empty one. */
  lemma {:induction false} DropKeepsFront(a: seq<string>, b: seq<string>)
    requires a != [] && a[|a| - 1] != ""
    ensures DropTrailingEmpty(a + b) == a + DropTrailingEmpty(b)
    decreases |b|
  {
    if b == [] {
      assert a + b == a;
    } else if b[|b| - 1] == "" {
      assert (a + b)[..|a + b| - 1] == a + b[..|b| - 1];
      DropKeepsFront(a, b[..|b| - 1]);
    }
  }

  /** Skipping spaces in front of a token that starts with a non-space gives
      back the token. */
  lemma {:induction false} SkipSpacesBefore(ws: string, tok: string)
    requires forall i | 0 <= i < |ws| :: IsRegexSpace(ws[i])
    requires tok == [] || !IsRegexSpace(tok[0])
    ensures SkipRegexSpace(ws + tok) == tok
    decreases |ws|
  {
    if ws != [] {
      assert (ws + tok)[1..] == ws[1..] + tok;
      SkipSpacesBefore(ws[1..], tok);
    } else {
      assert ws + tok == tok;
    }
  }

  /** Dropping trailing spaces behind a token that ends with a non-space gives
      back the token. */
  lemma {:induction false} DropSpacesAfter(tok: string, ws: string)
    requires forall i | 0 <= i < |ws| :: IsRegexSpace(ws[i])
    requires tok == [] || !IsRegexSpace(tok[|tok| - 1])
    ensures DropRegexSpace(tok + ws) == tok
    decreases |ws|
  {
    if ws != [] {
      assert (tok + ws)[..|tok + ws| - 1] == tok + ws[..|ws| - 1];
      DropSpacesAfter(tok, ws[..|ws| - 1]);
    } else {
      assert tok + ws == tok;
    }
  }
}
