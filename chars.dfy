/**
 * Character classes used by the command-line parser's regular expressions,
 * and the one regex shape the parser relies on: a maximal run of characters
 * of one class starting at a given position (`\G\w*`, `\G\s+`, `\G\S+`,
 * `\G[^']+`, `\G[^']*`).
 */
module CharClass {

  /** The single quote, the only quoting character the parser knows. */
  const Quote: char := '\''

  /**
   * `\s` of .NET regular expressions: `[\f\n\r\t\v\x85\p{Z}]`, where `\p{Z}`
   * is the union of the space, line and paragraph separator categories.
   */
  predicate IsSpace(c: char) {
    || c == ' ' || c == '\t' || c == '\n' || c == '\U{B}' || c == '\U{C}' || c == '\r'
    || c == '\U{85}' || c == '\U{A0}' || c == '\U{1680}'
    || ('\U{2000}' <= c <= '\U{200A}')
    || c == '\U{2028}' || c == '\U{2029}' || c == '\U{202F}' || c == '\U{205F}' || c == '\U{3000}'
  }

  /** `\w`, restricted to ASCII letters, ASCII digits and the underscore. */
  predicate IsWordChar(c: char) {
    ('a' <= c <= 'z') || ('A' <= c <= 'Z') || ('0' <= c <= '9') || c == '_'
  }

  /** The character classes of the parser's regular expressions. */
  datatype Class =
    | WordChars      // `\w`
    | Whitespace     // `\s`
    | NonWhitespace  // `\S`
    | NonQuote       // `[^']`

  predicate In(c: char, cl: Class) {
    match cl
    case WordChars => IsWordChar(c)
    case Whitespace => IsSpace(c)
    case NonWhitespace => !IsSpace(c)
    case NonQuote => c != Quote
  }

  /**
   * Length of the maximal run of characters of class `cl` that starts at
   * position `i` of `s`: every character of the run is in the class, and the
   * run stops at the end of `s` or at the first character that is not.
   * A regex `\G[cl]*` matched at `i` has exactly this length, and `\G[cl]+`
   * succeeds exactly when it is positive.
   */
  function RunLength(s: string, i: nat, cl: Class): (n: nat)
    requires i <= |s|
    ensures i + n <= |s|
    ensures forall k | i <= k < i + n :: In(s[k], cl)
    ensures i + n < |s| ==> !In(s[i + n], cl)
    decreases |s| - i
  {
    if i == |s| || !In(s[i], cl) then 0 else 1 + RunLength(s, i + 1, cl)
  }

  /** The classes the parser distinguishes never overlap where it matters. */
  lemma ClassesDisjoint(c: char)
    ensures IsSpace(c) ==> !IsWordChar(c)
    ensures IsSpace(c) ==> c != Quote
    ensures IsWordChar(c) ==> c != Quote && !IsSpace(c)
  {
  }
}
