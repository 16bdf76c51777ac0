/**
 * The command-line parser as an object: the line it was built for, a
 * cursor, a state, the words found so far and the word being built. Each
 * step method updates the fields exactly as the matching function of module
 * ParserMachine says, and `ParseArgs` drives the steps until the state is
 * `Done` or `Failed`. `ParseLine` builds a parser for a line and runs it;
 * it returns the reference tokenization of the line.
 */
module CommandLine {
  import opened CharClass
  import opened TokenSpec
  import opened ParserMachine
  import ParserCorrectness

  class CommandLineParser {
    const commandLine: string
    var index: nat
    var state: ParserState
    var sofarArgs: seq<string>
    var currentArg: string

    /** The fields as a value. */
    ghost function Snap(): Snapshot
      reads this
    {
      Snapshot(index, state, sofarArgs, currentArg)
    }

    ghost predicate Valid()
      reads this
    {
      Reachable(commandLine, Snap())
    }

    constructor (commandLine: string)
      ensures this.commandLine == commandLine
      ensures Snap() == Initial && Valid()
    {
      this.commandLine := commandLine;
      index := 0;
      state := Command;
      sofarArgs := [];
      currentArg := [];
    }

    /** `\G\w*` from the start of the line: the command word, or the blank-line check. */
    method CommandStep()
      requires Valid() && state == Command && index < |commandLine|
      modifies this
      ensures Valid()
      ensures Snap() == CommandStepOf(commandLine, old(Snap()))
    {
      var n := RunLength(commandLine, 0, WordChars);
      if n == 0 {
        state := BlankCommand;
        return;
      }
      sofarArgs := sofarArgs + [commandLine[..n]];
      index := index + n;
      state := Spaces;
    }

    /** `^\s+$`: a line of whitespace only has no words; anything else fails. */
    method BlankCommandStep()
      requires Valid() && state == BlankCommand && index < |commandLine|
      modifies this
      ensures Valid()
      ensures Snap() == BlankCommandStepOf(commandLine, old(Snap()))
    {
      if !(|commandLine| > 0 && AllSpaces(commandLine)) {
        state := Failed;
      } else {
        state := Done;
      }
    }

    /** `\G\s+`: a word must be followed by whitespace, which is skipped. */
    method SpaceStep()
      requires Valid() && state == Spaces && index < |commandLine|
      modifies this
      ensures Valid()
      ensures Snap() == SpaceStepOf(commandLine, old(Snap()))
    {
      var k := RunLength(commandLine, index, Whitespace);
      if k == 0 {
        state := Failed;
        return;
      }
      index := index + k;
      state := Arg;
    }

    /**
     * `\G\S+` against `\G[^']+`: when a quote comes first, the text before
     * it joins the word and the quote is consumed; otherwise the run of
     * non-whitespace completes the word.
     */
    method ArgStep()
      requires Valid() && state == Arg && index < |commandLine|
      modifies this
      ensures Valid()
      ensures Snap() == ArgStepOf(commandLine, old(Snap()))
    {
      var untilSpace := RunLength(commandLine, index, NonWhitespace);
      var untilQuote := RunLength(commandLine, index, NonQuote);
      if untilQuote < untilSpace {
        currentArg := currentArg + commandLine[index..index + untilQuote];
        index := index + untilQuote + 1;
        state := InsideQuote;
      } else {
        currentArg := currentArg + commandLine[index..index + untilSpace];
        index := index + untilSpace;
        sofarArgs := sofarArgs + [currentArg];
        currentArg := [];
        state := Spaces;
      }
    }

    /** `\G[^']*`: the quoted text joins the word; a missing closing quote fails. */
    method InsideSingleQuoteStep()
      requires Valid() && state == InsideQuote && index < |commandLine|
      modifies this
      ensures Valid()
      ensures Snap() == InsideQuoteStepOf(commandLine, old(Snap()))
    {
      var m := RunLength(commandLine, index, NonQuote);
      if index + m == |commandLine| {
        state := Failed;
        return;
      }
      currentArg := currentArg + commandLine[index..index + m];
      index := index + m + 1;
      state := JustLeftQuote;
    }

    /** `\G\s`: whitespace after a closing quote ends the word, even an empty one. */
    method JustLeftQuoteStep()
      requires Valid() && state == JustLeftQuote && index < |commandLine|
      modifies this
      ensures Valid()
      ensures Snap() == JustLeftQuoteStepOf(commandLine, old(Snap()))
    {
      if IsSpace(commandLine[index]) {
        sofarArgs := sofarArgs + [currentArg];
        currentArg := [];
        state := Spaces;
      } else {
        state := Arg;
      }
    }

    /**
     * Runs the steps until the state is `Done` or `Failed`, handling the end
     * of the line, and returns the words on `Done` and nothing on `Failed`.
     * The result is what the run of the machine from the old fields gives;
     * on a fresh parser it is the reference tokenization of the line.
     */
    method ParseArgs() returns (r: Option<seq<string>>)
      requires Valid()
      modifies this
      ensures Valid() && IsFinal(state) && old(index) <= index
      ensures r == (if state == Done then Some(sofarArgs) else None)
      ensures r == Run(commandLine, old(Snap()))
      ensures old(Snap()) == Initial ==> r == Tokenize(commandLine)
    {
      ghost var start := Snap();
      while state != Done && state != Failed
        invariant Valid() && start.index <= index
        invariant Run(commandLine, Snap()) == Run(commandLine, start)
        decreases |commandLine| - index, Rank(state)
      {
        ghost var before := Snap();
        if index >= |commandLine| {
          match state
          case Command | InsideQuote =>
            state := Failed;
          case BlankCommand | Spaces =>
            state := Done;
          case JustLeftQuote | Arg =>
            if |currentArg| > 0 {
              sofarArgs := sofarArgs + [currentArg];
            }
            state := Done;
        } else {
          match state
          case Command => CommandStep();
          case BlankCommand => BlankCommandStep();
          case Spaces => SpaceStep();
          case Arg => ArgStep();
          case InsideQuote => InsideSingleQuoteStep();
          case JustLeftQuote => JustLeftQuoteStep();
        }
        assert Snap() == Step(commandLine, before);
      }
      r := if state == Done then Some(sofarArgs) else None;
      if start == Initial {
        ParserCorrectness.ParserComputesTokenize(commandLine);
      }
    }
  }

  /**
   * Parses one command line: `None` when the line is rejected, otherwise the
   * command word followed by the argument words.
   */
  method ParseLine(line: string) returns (r: Option<seq<string>>)
    ensures r == Tokenize(line)
  {
    var parser := new CommandLineParser(line);
    r := parser.ParseArgs();
  }
}
