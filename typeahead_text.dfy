/**
 * The string operations behind the listbox typeahead: `String.prototype.trim`,
 * the escaping of regular-expression syntax characters in the typed buffer,
 * and case-insensitive matching of the resulting `^pattern` regular
 * expression against an option's text.
 */
module TypeaheadText {

  /**
   * The characters `trim` removes: the ECMAScript WhiteSpace (tab, vertical
   * tab, form feed, space, no-break space, byte order mark and the other
   * space separators) and LineTerminator (line feed, carriage return, line
   * and paragraph separators) code points.
   */
  predicate IsWhitespace(c: char)
  {
    || c == '\U{0009}' || c == '\U{000A}' || c == '\U{000B}' || c == '\U{000C}' || c == '\U{000D}'
    || c == '\U{0020}' || c == '\U{00A0}' || c == '\U{1680}'
    || ('\U{2000}' <= c <= '\U{200A}')
    || c == '\U{2028}' || c == '\U{2029}' || c == '\U{202F}' || c == '\U{205F}' || c == '\U{3000}'
    || c == '\U{FEFF}'
  }

  /** `s` without its leading whitespace. */
  function TrimStart(s: string): string
  {
    if |s| > 0 && IsWhitespace(s[0]) then TrimStart(s[1..]) else s
  }

  /** `s` without its trailing whitespace. */
  function TrimEnd(s: string): string
  {
    if |s| > 0 && IsWhitespace(s[|s| - 1]) then TrimEnd(s[..|s| - 1]) else s
  }

  /** `trim`. */
  function Trim(s: string): string
  {
    TrimEnd(TrimStart(s))
  }

  /** `TrimStart` removes exactly the leading run of whitespace. */
  lemma {:induction false} TrimStartLaws(s: string)
    ensures var r := TrimStart(s);
      && |r| <= |s| && r == s[|s| - |r|..]
      && (forall i :: 0 <= i < |s| - |r| ==> IsWhitespace(s[i]))
      && (|r| > 0 ==> !IsWhitespace(r[0]))
  {
    if |s| > 0 && IsWhitespace(s[0]) {
      TrimStartLaws(s[1..]);
    }
  }

  /** `TrimEnd` removes exactly the trailing run of whitespace. */
  lemma {:induction false} TrimEndLaws(s: string)
    ensures var r := TrimEnd(s);
      && |r| <= |s| && r == s[..|r|]
      && (forall i :: |r| <= i < |s| ==> IsWhitespace(s[i]))
      && (|r| > 0 ==> !IsWhitespace(r[|r| - 1]))
  {
    if |s| > 0 && IsWhitespace(s[|s| - 1]) {
      TrimEndLaws(s[..|s| - 1]);
    }
  }

  /**
   * `trim`: the result neither starts nor ends with whitespace, a string with
   * no whitespace at either end is kept as it is, and an all-whitespace
   * string becomes empty.
   */
  lemma TrimLaws(s: string)
    ensures var r := Trim(s);
      && |r| <= |s|
      && (|r| > 0 ==> !IsWhitespace(r[0]) && !IsWhitespace(r[|r| - 1]))
      && (|s| > 0 && !IsWhitespace(s[0]) && !IsWhitespace(s[|s| - 1]) ==> r == s)
      && ((forall i :: 0 <= i < |s| ==> IsWhitespace(s[i])) ==> r == [])
  {
    var t := TrimStart(s);
    TrimStartLaws(s);
    TrimEndLaws(t);
    var r := TrimEnd(t);
    assert |r| > 0 ==> r[0] == t[0];
  }

  /** Trimming twice is trimming once. */
  lemma TrimIdempotent(s: string)
    ensures Trim(Trim(s)) == Trim(s)
  {
    var r := Trim(s);
    TrimLaws(s);
    if |r| > 0 {
      TrimLaws(r);
    }
  }

  /**
   * The case-insensitive canonical form of a character a regular expression
   * with the `i` flag compares: ASCII letters are upper-cased.
   */
  function Canonicalize(c: char): char
  {
    if 'a' <= c <= 'z' then (c as int - 32) as char else c
  }

  /** `text` starts with `prefix`, ignoring the case of ASCII letters. */
  predicate StartsWithIgnoringCase(text: string, prefix: string)
  {
    |prefix| == 0
    || (|text| > 0 && Canonicalize(text[0]) == Canonicalize(prefix[0]) && StartsWithIgnoringCase(text[1..], prefix[1..]))
  }

  /** The characters the typeahead escapes: `. * + - ? ^ $ { } ( ) | [ ] \`. */
  predicate IsRegExpSyntax(c: char)
  {
    c in ".*+-?^${}()|[]\\"
  }

  /** The typed buffer with a backslash put before every syntax character (`replace(…, "\\$&")`). */
  function EscapeRegExp(s: string): (r: string)
    ensures |s| <= |r| <= 2 * |s|
    ensures (forall i :: 0 <= i < |s| ==> !IsRegExpSyntax(s[i])) ==> r == s
  {
    if |s| == 0 then ""
    else if IsRegExpSyntax(s[0]) then ['\\', s[0]] + EscapeRegExp(s[1..])
    else [s[0]] + EscapeRegExp(s[1..])
  }

  /**
   * A pattern made only of literal atoms: characters that are not syntax
   * characters, and backslash escapes of syntax characters.
   */
  predicate IsLiteralPattern(p: string)
  {
    if |p| == 0 then true
    else if p[0] == '\\' then |p| >= 2 && IsRegExpSyntax(p[1]) && IsLiteralPattern(p[2..])
    else !IsRegExpSyntax(p[0]) && IsLiteralPattern(p[1..])
  }

  /** The characters a literal pattern stands for. */
  function Unescape(p: string): (r: string)
    requires IsLiteralPattern(p)
    ensures |r| <= |p|
  {
    if |p| == 0 then ""
    else if p[0] == '\\' then [p[1]] + Unescape(p[2..])
    else [p[0]] + Unescape(p[1..])
  }

  /**
   * Whether the regular expression `^pattern`, with the `i` flag, matches
   * `text`, for a literal pattern: each atom matches one character of the
   * text with the same canonical form.
   */
  predicate MatchesPrefix(pattern: string, text: string)
    requires IsLiteralPattern(pattern)
  {
    if |pattern| == 0 then true
    else if pattern[0] == '\\' then
      |text| > 0 && Canonicalize(text[0]) == Canonicalize(pattern[1]) && MatchesPrefix(pattern[2..], text[1..])
    else
      |text| > 0 && Canonicalize(text[0]) == Canonicalize(pattern[0]) && MatchesPrefix(pattern[1..], text[1..])
  }

  /** Escaping always yields a literal pattern, standing for exactly the typed characters. */
  lemma {:induction false} EscapeRegExpIsLiteral(s: string)
    ensures IsLiteralPattern(EscapeRegExp(s))
    ensures Unescape(EscapeRegExp(s)) == s
  {
    if |s| > 0 {
      EscapeRegExpIsLiteral(s[1..]);
      var rest := EscapeRegExp(s[1..]);
      if IsRegExpSyntax(s[0]) {
        var e := ['\\', s[0]] + rest;
        assert e[2..] == rest;
      } else {
        var e := [s[0]] + rest;
        assert e[1..] == rest;
      }
    }
  }

  /** Conversely, escaping what a literal pattern stands for gives the pattern back. */
  lemma {:induction false} UnescapeThenEscape(p: string)
    requires IsLiteralPattern(p)
    ensures EscapeRegExp(Unescape(p)) == p
    decreases |p|
  {
    if |p| > 0 {
      if p[0] == '\\' {
        UnescapeThenEscape(p[2..]);
        var u := [p[1]] + Unescape(p[2..]);
        assert u[1..] == Unescape(p[2..]);
        assert p == ['\\', p[1]] + p[2..];
      } else {
        UnescapeThenEscape(p[1..]);
        var u := [p[0]] + Unescape(p[1..]);
        assert u[1..] == Unescape(p[1..]);
        assert p == [p[0]] + p[1..];
      }
    }
  }

  /** A literal pattern matches exactly the texts that start with its characters, ignoring case. */
  lemma {:induction false} MatchesPrefixIffStartsWith(p: string, text: string)
    requires IsLiteralPattern(p)
    ensures MatchesPrefix(p, text) <==> StartsWithIgnoringCase(text, Unescape(p))
    decreases |p|
  {
    if |p| > 0 {
      var step := if p[0] == '\\' then 2 else 1;
      var u := Unescape(p);
      assert u[1..] == Unescape(p[step..]);
      if |text| > 0 {
        MatchesPrefixIffStartsWith(p[step..], text[1..]);
      }
    }
  }

  /**
   * The typeahead test of an option: the regular expression built from the
   * escaped buffer matches the trimmed text exactly when that text starts
   * with the buffer, ignoring case.
   */
  lemma EscapedBufferMatches(buffer: string, text: string)
    ensures IsLiteralPattern(EscapeRegExp(buffer))
    ensures MatchesPrefix(EscapeRegExp(buffer), text) <==> StartsWithIgnoringCase(text, buffer)
  {
    EscapeRegExpIsLiteral(buffer);
    MatchesPrefixIffStartsWith(EscapeRegExp(buffer), text);
  }
}
