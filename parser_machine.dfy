/**
 * The parser's state machine as values: a snapshot of the parser's fields,
 * the transition each step method performs on it, and the run of the driver
 * loop to a final state. The class in module CommandLine updates its
 * fields in place exactly as these functions say.
 *
 * Each step matches one regular expression at the cursor; here a match is
 * the length of a maximal character run (`CharClass.RunLength`).
 */
module ParserMachine {
  import opened CharClass
  import opened TokenSpec

  datatype ParserState =
    | Command        // at the start of the line, expecting the command word
    | BlankCommand   // the line does not start with a word character
    | Spaces         // a word has ended; whitespace must follow
    | Arg            // inside a word, outside quotes
    | InsideQuote    // inside a single-quoted segment
    | JustLeftQuote  // just after a closing quote
    | Done
    | Failed

  /** The parser's fields: cursor, state, words found so far, word in progress. */
  datatype Snapshot = Snapshot(index: nat, state: ParserState, sofar: seq<string>, cur: string)

  /** The parser's initial fields. */
  const Initial: Snapshot := Snapshot(0, Command, [], [])

  predicate IsFinal(st: ParserState) {
    st == Done || st == Failed
  }

  /**
   * A rank that every step which leaves the cursor where it is lowers;
   * `Done` and `Failed` are the lowest.
   */
  function Rank(st: ParserState): nat {
    match st
    case Done | Failed => 0
    case BlankCommand | Spaces | InsideQuote => 1
    case Command | Arg => 2
    case JustLeftQuote => 3
  }

  /**
   * What holds of every snapshot the parser reaches: the cursor is on the
   * line, the command states sit at its start, and no word is in progress
   * in the command and whitespace states.
   */
  predicate Reachable(line: string, c: Snapshot) {
    && c.index <= |line|
    && (c.state == Command || c.state == BlankCommand ==> c.index == 0)
    && (c.state == Command || c.state == Spaces ==> c.cur == [])
  }

  /** `d` is closer to the end of the run than `c`: the cursor moved on, or it stayed and the rank fell. */
  predicate Progress(c: Snapshot, d: Snapshot) {
    c.index < d.index || (c.index == d.index && Rank(d.state) < Rank(c.state))
  }

  /**
   * `\G\w*` matched at the start of the line: a non-empty match is the
   * command word, an empty one sends the parser to `BlankCommand`.
   */
  function CommandStepOf(line: string, c: Snapshot): Snapshot
    requires c.index <= |line|
  {
    var n := RunLength(line, 0, WordChars);
    if n == 0 then c.(state := BlankCommand)
    else c.(sofar := c.sofar + [line[..n]], index := c.index + n, state := Spaces)
  }

  /** `^\s+$`: the line is accepted with no words when it is all whitespace. */
  function BlankCommandStepOf(line: string, c: Snapshot): Snapshot {
    c.(state := if |line| > 0 && AllSpaces(line) then Done else Failed)
  }

  /** `\G\s+`: at least one whitespace character must follow a word; all are skipped. */
  function SpaceStepOf(line: string, c: Snapshot): Snapshot
    requires c.index <= |line|
  {
    var k := RunLength(line, c.index, Whitespace);
    if k == 0 then c.(state := Failed)
    else c.(index := c.index + k, state := Arg)
  }

  /**
   * `\G\S+` against `\G[^']+`: a quote inside the run of non-whitespace
   * opens a quoted segment after the bare text before it; otherwise the
   * whole run is added and the word is complete.
   */
  function ArgStepOf(line: string, c: Snapshot): Snapshot
    requires c.index <= |line|
  {
    var i := c.index;
    var untilSpace := RunLength(line, i, NonWhitespace);
    var untilQuote := RunLength(line, i, NonQuote);
    if untilQuote < untilSpace then
      c.(cur := c.cur + line[i..i + untilQuote], index := i + untilQuote + 1, state := InsideQuote)
    else
      c.(sofar := c.sofar + [c.cur + line[i..i + untilSpace]], cur := [], index := i + untilSpace, state := Spaces)
  }

  /** `\G[^']*`: the quoted text up to the closing quote, which must exist. */
  function InsideQuoteStepOf(line: string, c: Snapshot): Snapshot
    requires c.index <= |line|
  {
    var i := c.index;
    var m := RunLength(line, i, NonQuote);
    if i + m == |line| then c.(state := Failed)
    else c.(cur := c.cur + line[i..i + m], index := i + m + 1, state := JustLeftQuote)
  }

  /** `\G\s`: whitespace after a closing quote ends the word, anything else continues it. */
  function JustLeftQuoteStepOf(line: string, c: Snapshot): Snapshot
    requires c.index < |line|
  {
    if IsSpace(line[c.index]) then c.(sofar := c.sofar + [c.cur], cur := [], state := Spaces)
    else c.(state := Arg)
  }

  /** The driver loop's handling of the end of the line. */
  function EndOfLineOf(c: Snapshot): Snapshot {
    match c.state
    case Command | InsideQuote => c.(state := Failed)
    case BlankCommand | Spaces => c.(state := Done)
    case JustLeftQuote | Arg =>
      c.(sofar := if |c.cur| > 0 then c.sofar + [c.cur] else c.sofar, state := Done)
    case Done | Failed => c
  }

  /**
   * One iteration of the driver loop. From a reachable snapshot that is not
   * final it reaches a reachable snapshot and makes progress.
   */
  function Step(line: string, c: Snapshot): (d: Snapshot)
    requires Reachable(line, c)
    ensures Reachable(line, d)
    ensures !IsFinal(c.state) ==> Progress(c, d)
    ensures IsFinal(c.state) ==> d == c
  {
    if c.index >= |line| then EndOfLineOf(c)
    else
      match c.state
      case Command => CommandStepOf(line, c)
      case BlankCommand => BlankCommandStepOf(line, c)
      case Spaces => SpaceStepOf(line, c)
      case Arg => ArgStepOf(line, c)
      case InsideQuote => InsideQuoteStepOf(line, c)
      case JustLeftQuote => JustLeftQuoteStepOf(line, c)
      case Done | Failed => c
  }

  /** The result of running the driver loop from `c` until `Done` or `Failed`. */
  function Run(line: string, c: Snapshot): Option<seq<string>>
    requires Reachable(line, c)
    decreases |line| - c.index, Rank(c.state)
  {
    if c.state == Done then Some(c.sofar)
    else if c.state == Failed then None
    else Run(line, Step(line, c))
  }
}
