/**
 * The reference grammar of a command line, one character at a time.
 *
 * A line is a command word (a non-empty run of word characters) followed by
 * whitespace-separated words. A word is a sequence of fragments with no
 * whitespace between them: a bare character other than whitespace and `'`,
 * or a single-quoted segment `'...'` whose contents are taken verbatim. The
 * fragments of one word are concatenated. A line made only of whitespace has
 * no words; an empty line is rejected.
 *
 * The parser in module CommandLine works run by run, through regular
 * expressions and an explicit state; it is proved to compute `Tokenize`.
 */
module TokenSpec {
  import opened CharClass

  datatype Option<T> = None | Some(value: T)

  /** A word scanned off the front of a text: its de-quoted value and the text after it. */
  datatype Scan = Scan(text: string, rest: string)

  predicate AllSpaces(s: string) {
    forall k | 0 <= k < |s| :: IsSpace(s[k])
  }

  /** `s` holds no quote. */
  predicate QuoteFree(s: string) {
    forall k | 0 <= k < |s| :: s[k] != Quote
  }

  /** Prepends `prefix` to a successful result; failure stays failure. */
  function AppendTo(prefix: seq<string>, o: Option<seq<string>>): Option<seq<string>> {
    match o
    case None => None
    case Some(ws) => Some(prefix + ws)
  }

  /** `s` without its leading whitespace. */
  function DropSpaces(s: string): (t: string)
    ensures |t| <= |s|
    ensures t == [] || !IsSpace(t[0])
  {
    if s != [] && IsSpace(s[0]) then DropSpaces(s[1..]) else s
  }

  /**
   * The inside of a quoted segment whose opening quote has been consumed:
   * everything up to the next quote, and what follows that quote. There is
   * no closing quote exactly when the text holds no quote at all.
   */
  function Quoted(t: string): (r: Option<Scan>)
    ensures r.None? <==> QuoteFree(t)
    ensures r.Some? ==> |r.value.rest| < |t|
  {
    if t == [] then None
    else if t[0] == Quote then Some(Scan([], t[1..]))
    else
      match Quoted(t[1..])
      case None => None
      case Some(q) => Some(Scan([t[0]] + q.text, q.rest))
  }

  /**
   * One word read off the front of `t`: fragments are concatenated until
   * whitespace or the end of the text. The rest is empty or starts with
   * whitespace, and something is consumed whenever `t` starts a word.
   */
  function Word(t: string): (r: Option<Scan>)
    ensures r.Some? ==> |r.value.rest| <= |t|
    ensures r.Some? ==> r.value.rest == [] || IsSpace(r.value.rest[0])
    ensures r.Some? && t != [] && !IsSpace(t[0]) ==> |r.value.rest| < |t|
    decreases |t|
  {
    if t == [] || IsSpace(t[0]) then Some(Scan([], t))
    else if t[0] == Quote then
      match Quoted(t[1..])
      case None => None
      case Some(q) => PrependText(q.text, Word(q.rest))
    else PrependText([t[0]], Word(t[1..]))
  }

  /** A scanned word with `p` put in front of its text. */
  function PrependText(p: string, r: Option<Scan>): Option<Scan> {
    match r
    case None => None
    case Some(w) => Some(Scan(p + w.text, w.rest))
  }

  /** All the words of `s`, which is empty or starts with whitespace (or starts a word). */
  function Words(s: string): Option<seq<string>>
    decreases |s|, 0
  {
    var t := DropSpaces(s);
    if t == [] then Some([])
    else
      match Word(t)
      case None => None
      case Some(w) => Close(w.text, w.rest)
  }

  /**
   * The word `word` has just ended before `rest`, which is empty or starts
   * with whitespace. A word ended by whitespace is always kept, even when
   * empty (it came from `''`); a word ended by the end of the line is kept
   * only when it is not empty.
   */
  function Close(word: string, rest: string): Option<seq<string>>
    decreases |rest|, 1
  {
    if rest == [] then Some(if word == [] then [] else [word])
    else AppendTo([word], Words(rest))
  }

  /** The words of `t`, when the word in progress already holds `cur`. */
  function Continue(cur: string, t: string): Option<seq<string>> {
    match Word(t)
    case None => None
    case Some(w) => Close(cur + w.text, w.rest)
  }

  /**
   * The words of a text just after an opening quote, when the word in
   * progress holds `cur`: `q` is that text read as a quoted segment.
   */
  function ContinueQuoted(cur: string, q: Option<Scan>): Option<seq<string>> {
    match q
    case None => None
    case Some(s) => Continue(cur + s.text, s.rest)
  }

  /**
   * The tokenizer: `None` for a line it rejects, otherwise the command word
   * followed by the argument words.
   */
  function Tokenize(line: string): Option<seq<string>> {
    if line == [] then None
    else
      var n := RunLength(line, 0, WordChars);
      if n == 0 then (if AllSpaces(line) then Some([]) else None)
      else if n < |line| && !IsSpace(line[n]) then None
      else AppendTo([line[..n]], Words(line[n..]))
  }
}
