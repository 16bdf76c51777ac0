/**
 * The state machine computes the reference tokenizer: running the driver
 * loop from the initial snapshot yields `Tokenize(line)`.
 *
 * The proof assigns to every snapshot the result the rest of the run must
 * produce (`Outcome`, stated with the reference grammar), shows that each
 * step keeps it, and that a final snapshot yields it.
 */
module ParserCorrectness {
  import opened CharClass
  import opened TokenSpec
  import opened TokenProperties
  import opened ParserMachine

  /**
   * What the run yields from snapshot `c` of a parser for `line`: the words
   * found so far followed by those the reference grammar reads from the
   * rest of the line, given the state and the word in progress.
   */
  ghost function Outcome(line: string, c: Snapshot): Option<seq<string>>
    requires c.index <= |line|
  {
    var i := c.index;
    match c.state
    case Command => AppendTo(c.sofar, Tokenize(line))
    case BlankCommand => if AllSpaces(line[i..]) then Some(c.sofar) else None
    case Spaces => if i < |line| && !IsSpace(line[i]) then None else AppendTo(c.sofar, Words(line[i..]))
    case Arg | JustLeftQuote => AppendTo(c.sofar, Continue(c.cur, line[i..]))
    case InsideQuote => AppendTo(c.sofar, ContinueQuoted(c.cur, Quoted(line[i..])))
    case Done => Some(c.sofar)
    case Failed => None
  }

  /** Appending one word and then more is appending both. */
  lemma AppendToTwice(sofar: seq<string>, word: string, o: Option<seq<string>>)
    ensures AppendTo(sofar + [word], o) == AppendTo(sofar, AppendTo([word], o))
  {
    if o.Some? {
      assert sofar + [word] + o.value == sofar + ([word] + o.value);
    }
  }

  /** Appending nothing changes nothing. */
  lemma AppendToEmpty(o: Option<seq<string>>)
    ensures AppendTo([], o) == o
  {
    if o.Some? {
      assert [] + o.value == o.value;
    }
  }

  /**
   * At the end of the line, the driver loop's final switch yields the
   * outcome: a pending word is kept when it is not empty, an open quote
   * fails, and the command state means the line was empty.
   */
  lemma EndOfLineKeepsOutcome(line: string, c: Snapshot)
    requires Reachable(line, c) && c.index == |line|
    ensures Outcome(line, EndOfLineOf(c)) == Outcome(line, c)
  {
    assert line[c.index..] == [];
    assert c.sofar + [] == c.sofar;
    assert c.cur + [] == c.cur;
  }

  /** The command word, or the switch to the blank-line check. */
  lemma CommandStepKeepsOutcome(line: string, c: Snapshot)
    requires Reachable(line, c) && c.state == Command && c.index < |line|
    ensures Outcome(line, CommandStepOf(line, c)) == Outcome(line, c)
  {
    var n := RunLength(line, 0, WordChars);
    if n == 0 {
      assert line[c.index..] == line;
      assert c.sofar + [] == c.sofar;
    } else {
      AppendToTwice(c.sofar, line[..n], Words(line[n..]));
    }
  }

  /** The blank-line check. */
  lemma BlankCommandStepKeepsOutcome(line: string, c: Snapshot)
    requires Reachable(line, c) && c.state == BlankCommand && c.index < |line|
    ensures Outcome(line, BlankCommandStepOf(line, c)) == Outcome(line, c)
  {
    assert line[c.index..] == line;
  }

  // The grammar read run by run, as the step methods read it. Each lemma
  // either turns a run length into facts about characters or rewrites the
  // grammar over a split line, so that no proof has to do both.

  /** The run of whitespace at `i` is skipped before the next word. */
  lemma SkipSpaces(line: string, i: nat)
    requires i < |line| && IsSpace(line[i])
    ensures Words(line[i..]) == Continue([], line[i + RunLength(line, i, Whitespace)..])
  {
    var k := RunLength(line, i, Whitespace);
    assert line[i..] == line[i..i + k] + line[i + k..];
    WordsAfterSpaces(line[i..i + k], line[i + k..]);
  }

  /** The characters of a run that has neither whitespace nor quotes are bare. */
  lemma BareRun(line: string, i: nat, n: nat)
    requires i + n <= |line|
    requires forall k | i <= k < i + n :: In(line[k], NonWhitespace)
    requires forall k | i <= k < i + n :: In(line[k], NonQuote)
    ensures IsBare(line[i..i + n])
  {
    var u := line[i..i + n];
    forall k | 0 <= k < |u|
      ensures !IsSpace(u[k]) && u[k] != Quote
    {
      assert In(line[i + k], NonWhitespace) && In(line[i + k], NonQuote);
    }
  }

  /** Bare text followed by a quote: the text joins the word and the quote opens a segment. */
  lemma BareThenQuoteAt(line: string, i: nat, n: nat, cur: string)
    requires i + n < |line| && line[i + n] == Quote
    requires IsBare(line[i..i + n])
    ensures Continue(cur, line[i..]) == ContinueQuoted(cur + line[i..i + n], Quoted(line[i + n + 1..]))
  {
    var u := line[i..i + n];
    var rest := line[i + n + 1..];
    assert line[i..] == u + ([Quote] + rest);
    ContinueBare(cur, u, [Quote] + rest);
    ContinueQuote(cur + u, rest);
  }

  /** A quote comes before any whitespace: the bare text before it joins the word. */
  lemma BareThenQuote(line: string, i: nat, cur: string)
    requires i <= |line|
    requires RunLength(line, i, NonQuote) < RunLength(line, i, NonWhitespace)
    ensures var n := RunLength(line, i, NonQuote);
      Continue(cur, line[i..]) == ContinueQuoted(cur + line[i..i + n], Quoted(line[i + n + 1..]))
  {
    var n := RunLength(line, i, NonQuote);
    BareRun(line, i, n);
    BareThenQuoteAt(line, i, n, cur);
  }

  /** Bare text followed by whitespace or the end of the line completes the word. */
  lemma BareThenBoundaryAt(line: string, i: nat, n: nat, cur: string)
    requires i + n <= |line|
    requires i + n < |line| ==> IsSpace(line[i + n])
    requires IsBare(line[i..i + n])
    ensures Continue(cur, line[i..]) == Close(cur + line[i..i + n], line[i + n..])
  {
    var u := line[i..i + n];
    assert line[i..] == u + line[i + n..];
    ContinueBare(cur, u, line[i + n..]);
    ContinueAtBoundary(cur + u, line[i + n..]);
  }

  /** Whitespace or the end of the line comes before any quote: the word is complete. */
  lemma BareThenBoundary(line: string, i: nat, cur: string)
    requires i < |line|
    requires RunLength(line, i, NonWhitespace) <= RunLength(line, i, NonQuote)
    ensures var n := RunLength(line, i, NonWhitespace);
      && Continue(cur, line[i..]) == Close(cur + line[i..i + n], line[i + n..])
      && (i + n < |line| ==> IsSpace(line[i + n]))
      && (i + n == |line| ==> cur + line[i..i + n] != [])
  {
    var n := RunLength(line, i, NonWhitespace);
    BareRun(line, i, n);
    BareThenBoundaryAt(line, i, n, cur);
    if i + n == |line| {
      assert line[i..i + n][0] == line[i];
    }
  }

  /** The run of non-quotes at `i` holds no quote. */
  lemma NoQuoteInRun(line: string, i: nat)
    requires i <= |line|
    ensures QuoteFree(line[i..i + RunLength(line, i, NonQuote)])
  {
    var m := RunLength(line, i, NonQuote);
    var q := line[i..i + m];
    forall k | 0 <= k < m
      ensures q[k] != Quote
    {
      assert In(line[i + k], NonQuote);
    }
  }

  /** A quoted segment runs to the next quote; without one there is no segment. */
  lemma QuotedRun(line: string, i: nat)
    requires i <= |line|
    ensures var m := RunLength(line, i, NonQuote);
      Quoted(line[i..]) == if i + m == |line| then None else Some(Scan(line[i..i + m], line[i + m + 1..]))
  {
    var m := RunLength(line, i, NonQuote);
    NoQuoteInRun(line, i);
    if i + m == |line| {
      assert line[i..] == line[i..i + m];
      assert Quoted(line[i..]) == None;
    } else {
      QuotedRunClosed(line, i, m);
    }
  }

  /** A run without quotes followed by a quote is a complete segment. */
  lemma QuotedRunClosed(line: string, i: nat, m: nat)
    requires i + m < |line| && line[i + m] == Quote
    requires QuoteFree(line[i..i + m])
    ensures Quoted(line[i..]) == Some(Scan(line[i..i + m], line[i + m + 1..]))
  {
    assert line[i..] == line[i..i + m] + [Quote] + line[i + m + 1..];
    QuotedAt(line[i..i + m], line[i + m + 1..]);
  }

  // The outcome of each state that reads the grammar, and the snapshot
  // each step leaves.

  lemma OutcomeInWord(line: string, c: Snapshot)
    requires c.index <= |line| && (c.state == Arg || c.state == JustLeftQuote)
    ensures Outcome(line, c) == AppendTo(c.sofar, Continue(c.cur, line[c.index..]))
  { }

  lemma OutcomeAfterWord(line: string, c: Snapshot)
    requires c.index <= |line| && c.state == Spaces
    requires c.index < |line| ==> IsSpace(line[c.index])
    ensures Outcome(line, c) == AppendTo(c.sofar, Words(line[c.index..]))
  { }

  lemma OutcomeInQuote(line: string, c: Snapshot)
    requires c.index <= |line| && c.state == InsideQuote
    ensures Outcome(line, c) == AppendTo(c.sofar, ContinueQuoted(c.cur, Quoted(line[c.index..])))
  { }

  lemma ArgStepOpening(line: string, c: Snapshot)
    requires c.index < |line|
    requires RunLength(line, c.index, NonQuote) < RunLength(line, c.index, NonWhitespace)
    ensures var n := RunLength(line, c.index, NonQuote);
      ArgStepOf(line, c) == Snapshot(c.index + n + 1, InsideQuote, c.sofar, c.cur + line[c.index..c.index + n])
  { }

  lemma ArgStepEnding(line: string, c: Snapshot)
    requires c.index < |line|
    requires RunLength(line, c.index, NonWhitespace) <= RunLength(line, c.index, NonQuote)
    ensures var n := RunLength(line, c.index, NonWhitespace);
      ArgStepOf(line, c) == Snapshot(c.index + n, Spaces, c.sofar + [c.cur + line[c.index..c.index + n]], [])
  { }

  lemma InsideQuoteStepClosing(line: string, c: Snapshot)
    requires c.index <= |line| && c.index + RunLength(line, c.index, NonQuote) < |line|
    ensures var m := RunLength(line, c.index, NonQuote);
      InsideQuoteStepOf(line, c) == Snapshot(c.index + m + 1, JustLeftQuote, c.sofar, c.cur + line[c.index..c.index + m])
  { }

  /** Skipping whitespace after a word. */
  lemma SpaceStepKeepsOutcome(line: string, c: Snapshot)
    requires Reachable(line, c) && c.state == Spaces && c.index < |line|
    ensures Outcome(line, SpaceStepOf(line, c)) == Outcome(line, c)
  {
    var i := c.index;
    var k := RunLength(line, i, Whitespace);
    var d := SpaceStepOf(line, c);
    if k > 0 {
      OutcomeAfterWord(line, c);
      SkipSpaces(line, i);
      OutcomeInWord(line, d);
    }
  }

  /** In a word, a quote before the next whitespace: the bare text before it is kept and the quote opens. */
  lemma ArgOpensQuote(line: string, c: Snapshot)
    requires Reachable(line, c) && c.state == Arg && c.index < |line|
    requires RunLength(line, c.index, NonQuote) < RunLength(line, c.index, NonWhitespace)
    ensures Outcome(line, ArgStepOf(line, c)) == Outcome(line, c)
  {
    ArgStepOpening(line, c);
    OutcomeInQuote(line, ArgStepOf(line, c));
    OutcomeInWord(line, c);
    BareThenQuote(line, c.index, c.cur);
  }

  /** A word that ended at whitespace or (when not empty) at the end of the line is kept. */
  lemma ClosedWordKept(line: string, j: nat, sofar: seq<string>, word: string)
    requires j <= |line|
    requires j == |line| ==> word != []
    requires j < |line| ==> IsSpace(line[j])
    ensures AppendTo(sofar, Close(word, line[j..])) == Outcome(line, Snapshot(j, Spaces, sofar + [word], []))
  {
    if j == |line| {
      assert line[j..] == [];
      assert sofar + [word] + [] == sofar + [word];
    } else {
      AppendToTwice(sofar, word, Words(line[j..]));
    }
  }

  /** In a word, whitespace or the end of the line before any quote: the word is complete. */
  lemma ArgEndsWord(line: string, c: Snapshot)
    requires Reachable(line, c) && c.state == Arg && c.index < |line|
    requires RunLength(line, c.index, NonWhitespace) <= RunLength(line, c.index, NonQuote)
    ensures Outcome(line, ArgStepOf(line, c)) == Outcome(line, c)
  {
    var i := c.index;
    var n := RunLength(line, i, NonWhitespace);
    ArgStepEnding(line, c);
    OutcomeInWord(line, c);
    BareThenBoundary(line, i, c.cur);
    ClosedWordKept(line, i + n, c.sofar, c.cur + line[i..i + n]);
  }

  /** Inside quotes, the quoted text runs to the next quote; without one the line fails. */
  lemma InsideQuoteStepKeepsOutcome(line: string, c: Snapshot)
    requires Reachable(line, c) && c.state == InsideQuote && c.index < |line|
    ensures Outcome(line, InsideQuoteStepOf(line, c)) == Outcome(line, c)
  {
    var i := c.index;
    var m := RunLength(line, i, NonQuote);
    OutcomeInQuote(line, c);
    QuotedRun(line, i);
    if i + m < |line| {
      InsideQuoteStepClosing(line, c);
      OutcomeInWord(line, InsideQuoteStepOf(line, c));
    }
  }

  /** After a closing quote, whitespace ends the word and anything else continues it. */
  lemma JustLeftQuoteStepKeepsOutcome(line: string, c: Snapshot)
    requires Reachable(line, c) && c.state == JustLeftQuote && c.index < |line|
    ensures Outcome(line, JustLeftQuoteStepOf(line, c)) == Outcome(line, c)
  {
    var i := c.index;
    OutcomeInWord(line, c);
    if IsSpace(line[i]) {
      ContinueAtBoundary(c.cur, line[i..]);
      AppendToTwice(c.sofar, c.cur, Words(line[i..]));
      OutcomeAfterWord(line, JustLeftQuoteStepOf(line, c));
    } else {
      OutcomeInWord(line, JustLeftQuoteStepOf(line, c));
    }
  }

  /** Every iteration of the driver loop keeps the outcome. */
  lemma StepKeepsOutcome(line: string, c: Snapshot)
    requires Reachable(line, c)
    ensures Outcome(line, Step(line, c)) == Outcome(line, c)
  {
    if c.index >= |line| {
      EndOfLineKeepsOutcome(line, c);
    } else {
      match c.state
      case Command => CommandStepKeepsOutcome(line, c);
      case BlankCommand => BlankCommandStepKeepsOutcome(line, c);
      case Spaces => SpaceStepKeepsOutcome(line, c);
      case Arg =>
        if RunLength(line, c.index, NonQuote) < RunLength(line, c.index, NonWhitespace) {
          ArgOpensQuote(line, c);
        } else {
          ArgEndsWord(line, c);
        }
      case InsideQuote => InsideQuoteStepKeepsOutcome(line, c);
      case JustLeftQuote => JustLeftQuoteStepKeepsOutcome(line, c);
      case Done | Failed =>
    }
  }

  /** Running the loop from any reachable snapshot yields that snapshot's outcome. */
  lemma {:induction false} RunYieldsOutcome(line: string, c: Snapshot)
    requires Reachable(line, c)
    ensures Run(line, c) == Outcome(line, c)
    decreases |line| - c.index, Rank(c.state)
  {
    if !IsFinal(c.state) {
      StepKeepsOutcome(line, c);
      RunYieldsOutcome(line, Step(line, c));
    }
  }

  /** The parser, started on a line, returns exactly the reference tokenization of that line. */
  lemma ParserComputesTokenize(line: string)
    ensures Run(line, Initial) == Tokenize(line)
  {
    RunYieldsOutcome(line, Initial);
    AppendToEmpty(Tokenize(line));
  }
}
