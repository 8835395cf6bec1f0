/**
 * The Python string operations the configuration parsers rely on:
 * `str.strip()`, `str.split(sep)`, `str.startswith` and `", ".join`.
 */
module PyText {

  /**
   * `c.isspace()` in Python 3: the ASCII controls 0x09-0x0D and 0x1C-0x1F,
   * the space, and the Unicode separators Python treats as whitespace.
   * `str.strip()` with no argument removes exactly these characters.
   */
  predicate IsStrSpace(c: char) {
    ('\U{09}' <= c <= '\U{0D}') || ('\U{1C}' <= c <= '\U{20}') || IsWideSpace(c)
  }

  /**
   * The whitespace `int()` skips around a literal: CPython keeps every ASCII
   * character as it is and tests it with the C-locale table (0x09-0x0D and
   * the space), but turns every non-ASCII whitespace character into a space.
   * So 0x1C-0x1F are whitespace for `str.strip()` and not for `int()`.
   */
  predicate IsIntSpace(c: char) {
    ('\U{09}' <= c <= '\U{0D}') || c == ' ' || IsWideSpace(c)
  }

  /** Whitespace above the ASCII range. */
  predicate IsWideSpace(c: char) {
    c == '\U{85}' || c == '\U{A0}' || c == '\U{1680}' || ('\U{2000}' <= c <= '\U{200A}')
    || c == '\U{2028}' || c == '\U{2029}' || c == '\U{202F}' || c == '\U{205F}' || c == '\U{3000}'
  }

  /** `s` with every leading character that satisfies `isSpace` removed. */
  function TrimStart(s: string, isSpace: char -> bool): (r: string)
    ensures |r| <= |s| && r == s[|s| - |r|..]
    ensures r != [] ==> !isSpace(r[0])
  {
    if s != [] && isSpace(s[0]) then TrimStart(s[1..], isSpace) else s
  }

  /** `s` with every trailing character that satisfies `isSpace` removed. */
  function TrimEnd(s: string, isSpace: char -> bool): (r: string)
    ensures |r| <= |s| && r == s[..|r|]
    ensures r != [] ==> !isSpace(r[|r| - 1])
  {
    if s != [] && isSpace(s[|s| - 1]) then TrimEnd(s[..|s| - 1], isSpace) else s
  }

  /** `s.strip()`. */
  function Strip(s: string): string {
    TrimEnd(TrimStart(s, IsStrSpace), IsStrSpace)
  }

  /** Text with no whitespace at either end is unchanged by `strip()`. */
  lemma StripUnchanged(s: string)
    requires s != [] && !IsStrSpace(s[0]) && !IsStrSpace(s[|s| - 1])
    ensures Strip(s) == s
  {
    assert TrimStart(s, IsStrSpace) == s;
    assert TrimEnd(s, IsStrSpace) == s;
  }

  /** `s.startswith("0x") or s.startswith("0X")`. */
  predicate HasHexPrefix(s: string) {
    |s| >= 2 && s[0] == '0' && (s[1] == 'x' || s[1] == 'X')
  }

  /**
   * `s.split(sep)` for a one-character separator: the pieces between
   * separators, empty pieces included, so the empty string splits into `[""]`.
   */
  function Split(s: string, sep: char): (parts: seq<string>)
    ensures |parts| >= 1
    ensures forall i :: 0 <= i < |parts| ==> sep !in parts[i]
  {
    if s == [] then [[]]
    else
      var rest := Split(s[1..], sep);
      if s[0] == sep then [[]] + rest
      else [[s[0]] + rest[0]] + rest[1..]
  }

  /** `sep.join(parts)`. */
  function Join(parts: seq<string>, sep: char): string {
    if parts == [] then []
    else if |parts| == 1 then parts[0]
    else parts[0] + [sep] + Join(parts[1..], sep)
  }

  /** A piece without the separator, then the separator, splits off as one piece. */
  lemma {:induction false} SplitAfterPiece(piece: string, sep: char, rest: string)
    requires sep !in piece
    ensures Split(piece + [sep] + rest, sep) == [piece] + Split(rest, sep)
  {
    if piece == [] {
      assert piece + [sep] + rest == [sep] + rest;
    } else {
      var whole := piece + [sep] + rest;
      assert whole[0] == piece[0] != sep;
      assert whole[1..] == piece[1..] + [sep] + rest;
      SplitAfterPiece(piece[1..], sep, rest);
      assert [piece[0]] + piece[1..] == piece;
    }
  }

  /** A string without the separator is a single piece. */
  lemma {:induction false} SplitWithoutSeparator(s: string, sep: char)
    requires sep !in s
    ensures Split(s, sep) == [s]
  {
    if s != [] {
      assert s[0] != sep;
      SplitWithoutSeparator(s[1..], sep);
      assert [s[0]] + s[1..] == s;
    }
  }

  /** Splitting undoes joining when no piece contains the separator. */
  lemma {:induction false} SplitJoin(parts: seq<string>, sep: char)
    requires |parts| >= 1
    requires forall i :: 0 <= i < |parts| ==> sep !in parts[i]
    ensures Split(Join(parts, sep), sep) == parts
  {
    if |parts| == 1 {
      SplitWithoutSeparator(parts[0], sep);
    } else {
      SplitJoin(parts[1..], sep);
      SplitAfterPiece(parts[0], sep, Join(parts[1..], sep));
    }
  }
}
