# Command-line tokenizer of a small shell

This project models the command-line tokenizer of a small interactive shell:
the class `CommandLineParser` in `src/CommandLineParser.cs`. The class takes one
input line and returns either the list of words on that line (the command
name, then its arguments) or nothing when it rejects the line.

The parser is a state machine. Its states are `Command`, `BlankCommand`,
`Spaces`, `Arg`, `InsideQuote`, `JustLeftQuote`, `Done` and `Failed`. It keeps
four fields:

- a cursor into the line;
- the current state;
- the words found so far;
- the word being built.

The driver `ParseArgs` calls one step method per state until the state is
`Done` or `Failed`. Most steps match a regular expression anchored at the
cursor (`\G\s+`, `\G[^']*`, `\G\s`). `ArgStep` matches two, `\G\S+` and
`\G[^']+`, and compares their lengths. `CommandStep` matches `\G\w*` from the
start of the line rather than the cursor, and `BlankCommandStep` tests the
whole line against `^\s+$`. When the cursor reaches the end of the line,
`ParseArgs` decides the outcome from the state alone.

The grammar the code accepts:

- The command word is the maximal leading run of word characters (`\w`). It
  must be non-empty, and whitespace or the end of the line must follow it.
- A line that does not start with a word character is accepted only if it
  is non-empty and all whitespace. It then has no words.
- Each later word is a sequence of fragments with no whitespace between
  them. A fragment is either bare text (no whitespace, no `'`) or a
  single-quoted segment. The quoted contents are taken verbatim, and all the
  fragments of a word are concatenated.
- A quote with no closing quote rejects the line.
- An empty word `''` followed by whitespace is kept. At the very end of the
  line it is dropped.

The parser handles no double quotes and no backslash escapes, and it
recognizes no redirection: `"`, `\` and `>` are ordinary characters of an
argument word. An empty line is rejected, because `Command` at end of input becomes
`Failed` (src/CommandLineParser.cs:34-36); see `LineProperties.BlankLines`.

## Structure

The project has seven modules, one per file:

- `CharClass` (`chars.dfy`): the character classes `\s` and `\w`, and
  `RunLength`, which is the length of a maximal run of one class. It stands
  in for the matches `\G\w*`, `\G\s+`, `\G\S+`, `\G[^']+` and `\G[^']*`;
  the whole-line `^\s+$` is `TokenSpec.AllSpaces`, and the single-character
  `\G\s` is `CharClass.IsSpace`.
- `TokenSpec` (`token_spec.dfy`): an independent reference grammar that reads
  the line one character at a time. `Tokenize` is its result.
- `TokenProperties` (`token_properties.dfy`): rewriting lemmas about the
  reference grammar.
- `ParserMachine` (`parser_machine.dfy`): the parser's states and fields as a
  value (`Snapshot`), one function per step method, the loop's end-of-line
  handling, one loop iteration (`Step`) and the whole run (`Run`).
- `ParserCorrectness` (`parser_correctness.dfy`): the invariant `Outcome`,
  which every step preserves. The main theorem is that a run from the initial
  fields yields `Tokenize` of the line.
- `CommandLine` (`command_line_parser.dfy`): the class `CommandLineParser`,
  whose fields its methods update in place, and `ParseLine`. Each step method
  is proved to change the fields exactly as its `ParserMachine` function says.
  `ParseArgs` is proved to return `Run` of its starting fields, and therefore
  `Tokenize` of the line on a fresh parser.
- `LineProperties` (`line_properties.dfy`): properties of `Tokenize` that the
  parser's behaviour implies for whole lines.

## Model

| member | source | states |
|---|---|---|
| CommandLine.CommandLineParser.constructor | src/CommandLineParser.cs:19-24 | a new parser is at the start of the line in state `Command`, with no words and an empty word in progress |
| CommandLine.CommandLineParser.ParseArgs | src/CommandLineParser.cs:26-86 | the loop ends in `Done` or `Failed`, the cursor never moves back and stays on the line, the result is the word list on `Done` and nothing on `Failed`, it equals the run of the machine from the starting fields, and from fresh fields it is the reference tokenization of the line |
| CommandLine.CommandLineParser.BlankCommandStep | src/CommandLineParser.cs:88-99 | the state becomes `Done` exactly when the line is non-empty and all whitespace, and `Failed` otherwise; nothing else changes |
| CommandLine.CommandLineParser.CommandStep | src/CommandLineParser.cs:101-120 | an empty leading run of word characters moves to `BlankCommand`; a non-empty run is added as the first word, the cursor passes it and the state becomes `Spaces` |
| CommandLine.CommandLineParser.SpaceStep | src/CommandLineParser.cs:122-134 | with no whitespace at the cursor the state becomes `Failed`; otherwise the whole whitespace run is skipped and the state becomes `Arg` |
| CommandLine.CommandLineParser.ArgStep | src/CommandLineParser.cs:136-161 | when a quote comes before the next whitespace, the text before it joins the word, the quote is consumed and the state becomes `InsideQuote`; otherwise the non-whitespace run completes the word, which is added, and the state becomes `Spaces` |
| CommandLine.CommandLineParser.InsideSingleQuoteStep | src/CommandLineParser.cs:163-176 | with no closing quote before the end of the line the state becomes `Failed`; otherwise the quoted text joins the word, the closing quote is consumed and the state becomes `JustLeftQuote` |
| CommandLine.CommandLineParser.JustLeftQuoteStep | src/CommandLineParser.cs:178-192 | whitespace after a closing quote adds the word, even an empty one, and moves to `Spaces`; any other character moves to `Arg` |
| CommandLine.ParseLine | src/CommandLineParser.cs:19-86 | building a parser for a line and calling `ParseArgs` returns exactly the reference tokenization of the line |
| ParserMachine.Step | src/CommandLineParser.cs:28-83 | one loop iteration keeps the cursor on the line and the per-state field invariants; from a non-final state it advances the cursor, or keeps it and lowers the state's rank (so the loop terminates); `Done` and `Failed` are absorbing |
| CharClass.RunLength | src/CommandLineParser.cs:143-144 | the length of a regex match `\G[class]*` at a position: all characters in the run belong to the class, the run stays within the line, and the character after it does not belong to the class |
| TokenSpec.Quoted | src/CommandLineParser.cs:165-171 | a quoted segment has no closing quote exactly when the rest of the line holds no quote |
| ParserCorrectness.EndOfLineKeepsOutcome | src/CommandLineParser.cs:30-53 | the end-of-line handling of every state keeps what the run yields: `Command` and `InsideQuote` fail, `BlankCommand` and `Spaces` finish, and `Arg` and `JustLeftQuote` finish after adding a non-empty word in progress |
| ParserCorrectness.CommandStepKeepsOutcome | src/CommandLineParser.cs:101-120 | `CommandStep` preserves the invariant relating the fields to the reference tokenization |
| ParserCorrectness.BlankCommandStepKeepsOutcome | src/CommandLineParser.cs:88-99 | `BlankCommandStep` preserves the invariant |
| ParserCorrectness.SpaceStepKeepsOutcome | src/CommandLineParser.cs:122-134 | `SpaceStep` preserves the invariant: several whitespace characters between words never add a word |
| ParserCorrectness.ArgOpensQuote | src/CommandLineParser.cs:147-152 | the quote-opening branch of `ArgStep` preserves the invariant |
| ParserCorrectness.ArgEndsWord | src/CommandLineParser.cs:153-160 | the word-completing branch of `ArgStep` preserves the invariant |
| ParserCorrectness.InsideQuoteStepKeepsOutcome | src/CommandLineParser.cs:163-176 | `InsideSingleQuoteStep` preserves the invariant |
| ParserCorrectness.JustLeftQuoteStepKeepsOutcome | src/CommandLineParser.cs:178-192 | `JustLeftQuoteStep` preserves the invariant |
| ParserCorrectness.StepKeepsOutcome | src/CommandLineParser.cs:28-83 | every loop iteration from a reachable state preserves the invariant |
| ParserCorrectness.RunYieldsOutcome | src/CommandLineParser.cs:28-85 | running the loop to the end from any reachable state yields the invariant's value for that state |
| ParserCorrectness.ParserComputesTokenize | src/CommandLineParser.cs:26-86 | the parser started on a line returns exactly the reference tokenization of that line |
| LineProperties.BlankLines | src/CommandLineParser.cs:30-41 | an empty line is rejected; the result is the empty list exactly when the line is non-empty and all whitespace; a line that starts with neither a word character nor only whitespace is rejected |
| LineProperties.CommandWordFirst | src/CommandLineParser.cs:103-119 | on success the first word is a non-empty prefix of the line made of word characters, and whitespace or the end of the line follows it, so it is the maximal leading run |
| LineProperties.CommandGlued | src/CommandLineParser.cs:122-130 | a command word followed by a character that is neither a word character nor whitespace rejects the line |
| LineProperties.CommandThenWords | src/CommandLineParser.cs:117-133 | a line that starts with a command word and then whitespace yields that word followed by the words of the rest |
| LineProperties.QuoteFreeLine | src/CommandLineParser.cs:122-160 | a line with no quote that is accepted yields exactly its whitespace-separated fields, each non-empty and free of whitespace |
| LineProperties.FragmentsJoin | src/CommandLineParser.cs:144-152 | bare text, a quoted segment and what follows continue one word, whose text is their concatenation with the quotes removed |
| LineProperties.JoinedArgument | src/CommandLineParser.cs:163-191 | a command, then bare text, a quoted segment and bare text with no whitespace between them, yields two words, the second the concatenation without quotes |
| LineProperties.JoinExample | src/CommandLineParser.cs:144-191 | `echo a'b c'd` yields `echo` and `ab cd` |
| LineProperties.WordsCount | src/CommandLineParser.cs:163-176 | the arguments part of any accepted line holds an even number of quotes |
| LineProperties.UnbalancedQuotesRejected | src/CommandLineParser.cs:35-36 | a line with an odd number of quotes (counted by the helper `QuoteCount`) is rejected: an opening quote without a closing one fails |
| LineProperties.QuoteRoundTrip | src/CommandLineParser.cs:178-191 | a command followed by arguments without quotes, each written as ` 'arg'`, tokenizes back to the command and the arguments, except that an empty last argument is dropped |
| LineProperties.EmptyQuotedArgument | src/CommandLineParser.cs:42-48 | `''` followed by whitespace is kept as an empty word (`echo '' 'x'` gives `echo`, an empty word and `x`), but at the end of the line it is dropped (`echo ''` gives only `echo`) |
| LineProperties.Fields | src/CommandLineParser.cs:143 | the whitespace-separated fields of a text are non-empty and free of whitespace |

## Left out

- `src/main.cs` is not part of this model. It is the console read-eval loop, and it does not call the parser.
- `src/StreamDirector.cs` is not part of this model. It only wraps console and file output.
- `src/ast/CommandNode.cs` and `src/ast/RedirectNode.cs` are not part of this model. They are data holders with no behaviour, and the parser never builds them.
- CharClass.IsWordChar: `\w` is modelled as the ASCII letters, digits and `_`. .NET's `\w` also accepts non-ASCII letters, digits, marks and connector punctuation.
- CharClass.IsSpace: this follows .NET's `\s` on single characters. The model's characters are Unicode scalar values, whereas .NET strings are UTF-16 code units, so surrogate pairs are not modelled.
- CommandLine.CommandLineParser.BlankCommandStep: `$` in `^\s+$` also matches before a final newline. The model tests that every character is whitespace. This gives the same result, because a newline is whitespace.
- The `!Success` branches of `CommandStep` and `InsideSingleQuoteStep` (src/CommandLineParser.cs:105-109 and the first half of 167) are not modelled. Patterns ending in `*` always match, so those branches are dead.
- The `case ParserState.Failed: return null;` and `case ParserState.Done:` branches inside the loop (src/CommandLineParser.cs:50-52 and 77-80) are not modelled. The loop condition excludes both states, so they are dead.
- The word list (`List<string>`) and the word in progress (`StringBuilder`) are modelled as sequence fields that the methods reassign. The returned list shares storage with the parser in the source, and that aliasing is not modelled.
- The cursor is a `nat` rather than a 32-bit `int`. Its value never exceeds the line length, so it cannot overflow.
