/** The two string helpers of the SysOS namespace that the interpreter core
    relies on: `contains` and `unescape` (used when printing strings). */
module OsStr {
  import opened Results
  import opened Text

  /** `contains(haystack, needle)`: `find` does not return `npos`. */
  function Contains(haystack: string, needle: string): (r: bool)
    ensures r <==> Occurs(haystack, needle)
    ensures |needle| == 0 ==> r
  {
    var f := Find(haystack, needle, 0);
    FindIsFirst(haystack, needle, 0);
    assert f.Some? ==> OccursAt(haystack, needle, f.value);
    assert |needle| == 0 ==> OccursAt(haystack, needle, 0);
    f.Some?
  }

  /** The character an escape `\c` stands for, for the four escapes
      `unescape` knows. */
  function EscapeMeaning(c: char): Option<char> {
    match c
    case 'n' => Some('\n')
    case 't' => Some('\t')
    case '\\' => Some('\\')
    case '"' => Some('"')
    case _ => None
  }

  /** `unescape`: scanning left to right, a backslash followed by n, t, \ or
      " becomes newline, tab, backslash or quote and both characters are
      consumed; any other backslash (also a final one) is kept as is and
      the character after it is read normally. */
  function Unescape(s: string): (r: string)
    decreases |s|
  {
    if |s| == 0 then ""
    else if s[0] == '\\' && |s| > 1 && EscapeMeaning(s[1]).Some? then
      [EscapeMeaning(s[1]).value] + Unescape(s[2..])
    else [s[0]] + Unescape(s[1..])
  }

  /** Each character written so that `unescape` gives it back. */
  function EscapeChar(c: char): (r: string)
    ensures 1 <= |r| <= 2
  {
    match c
    case '\n' => "\\n"
    case '\t' => "\\t"
    case '\\' => "\\\\"
    case '"' => "\\\""
    case _ => [c]
  }

  /** The inverse direction of `unescape`: every newline, tab, backslash and
      quote written as its two-character escape. */
  function Escape(s: string): (r: string)
    ensures |s| <= |r| <= 2 * |s|
  {
    if |s| == 0 then "" else EscapeChar(s[0]) + Escape(s[1..])
  }

  /** `unescape` never lengthens a string. */
  lemma {:induction false} UnescapeShrinks(s: string)
    ensures |Unescape(s)| <= |s|
    decreases |s|
  {
    if |s| > 0 {
      if s[0] == '\\' && |s| > 1 && EscapeMeaning(s[1]).Some? {
        UnescapeShrinks(s[2..]);
      } else {
        UnescapeShrinks(s[1..]);
      }
    }
  }

  /** A string without backslashes comes back unchanged. */
  lemma {:induction false} UnescapeNoBackslash(s: string)
    requires forall i :: 0 <= i < |s| ==> s[i] != '\\'
    ensures Unescape(s) == s
    decreases |s|
  {
    if |s| > 0 {
      UnescapeNoBackslash(s[1..]);
    }
  }

  /** `unescape` decodes what `Escape` writes. */
  lemma {:induction false} UnescapeEscape(s: string)
    ensures Unescape(Escape(s)) == s
    decreases |s|
  {
    if |s| > 0 {
      UnescapeEscape(s[1..]);
      UnescapeEscapeChar(s[0], Escape(s[1..]));
      assert s == [s[0]] + s[1..];
    }
  }

  /** One escaped character in front of any text decodes to itself. */
  lemma UnescapeEscapeChar(c: char, rest: string)
    ensures Unescape(EscapeChar(c) + rest) == [c] + Unescape(rest)
  {
    var e := EscapeChar(c);
    if |e| == 2 {
      assert (e + rest)[2..] == rest;
    } else {
      assert (e + rest)[1..] == rest;
    }
  }

  /** A backslash before any other character survives, together with it. */
  lemma UnknownEscapeKept(c: char, rest: string)
    requires EscapeMeaning(c).None?
    ensures Unescape(['\\', c] + rest) == ['\\'] + Unescape([c] + rest)
  {
    assert (['\\', c] + rest)[1..] == [c] + rest;
  }
}
