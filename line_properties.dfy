/**
 * What the tokenizer promises about whole lines: empty and blank lines, the
 * command word, plain whitespace splitting when there are no quotes, the
 * joining of quoted and bare fragments, unbalanced quotes, and a quoting
 * round trip. By `CommandLine.ParseLine`'s contract each of these holds of
 * the parser.
 */
module LineProperties {
  import opened CharClass
  import opened TokenSpec
  import opened TokenProperties

  // ---------------------------------------------------------------------
  // Run lengths
  // ---------------------------------------------------------------------

  /** A run is maximal exactly when its characters are in the class and the next one is not. */
  lemma {:induction false} RunLengthIs(s: string, i: nat, n: nat, cl: Class)
    requires i + n <= |s|
    requires forall k | i <= k < i + n :: In(s[k], cl)
    requires i + n < |s| ==> !In(s[i + n], cl)
    ensures RunLength(s, i, cl) == n
    decreases n
  {
    if n > 0 {
      RunLengthIs(s, i + 1, n - 1, cl);
    }
  }

  /** A leading run of word characters is where the command word stops. */
  lemma CommandRun(cmd: string, rest: string)
    requires cmd != [] && forall k | 0 <= k < |cmd| :: IsWordChar(cmd[k])
    requires rest == [] || !IsWordChar(rest[0])
    ensures RunLength(cmd + rest, 0, WordChars) == |cmd|
  {
    var s := cmd + rest;
    forall k | 0 <= k < |cmd|
      ensures In(s[k], WordChars)
    {
      assert s[k] == cmd[k];
    }
    if rest != [] {
      assert s[|cmd|] == rest[0];
    }
    RunLengthIs(s, 0, |cmd|, WordChars);
  }

  // ---------------------------------------------------------------------
  // Empty and blank lines
  // ---------------------------------------------------------------------

  /**
   * The empty line is rejected; a line of whitespace only, and nothing
   * else, yields no words; a line that starts with neither a word character
   * nor whitespace only is rejected.
   */
  lemma BlankLines(line: string)
    ensures line == [] ==> Tokenize(line) == None
    ensures Tokenize(line) == Some([]) <==> |line| > 0 && AllSpaces(line)
    ensures line != [] && !IsWordChar(line[0]) && !AllSpaces(line) ==> Tokenize(line) == None
  {
    if line != [] {
      var n := RunLength(line, 0, WordChars);
      if AllSpaces(line) {
        ClassesDisjoint(line[0]);
        assert n == 0;
      }
      if !IsWordChar(line[0]) {
        assert n == 0;
      }
      if n > 0 && Tokenize(line).Some? {
        assert Tokenize(line).value[0] == line[..n];
      }
    }
  }

  // ---------------------------------------------------------------------
  // The command word
  // ---------------------------------------------------------------------

  /**
   * On success the first word is a non-empty run of word characters at the
   * start of the line, followed by whitespace or the end of the line, so it
   * is the longest such run.
   */
  lemma CommandWordFirst(line: string, ws: seq<string>)
    requires Tokenize(line) == Some(ws) && ws != []
    ensures var cmd := ws[0];
      && cmd != []
      && |cmd| <= |line| && cmd == line[..|cmd|]
      && (forall k | 0 <= k < |cmd| :: IsWordChar(cmd[k]))
      && (|cmd| < |line| ==> IsSpace(line[|cmd|]))
  {
    var n := RunLength(line, 0, WordChars);
    if n > 0 {
      assert ws[0] == line[..n];
      forall k | 0 <= k < n
        ensures IsWordChar(ws[0][k])
      {
        assert In(line[k], WordChars);
      }
    }
  }

  /** A command word followed by anything but whitespace rejects the line. */
  lemma CommandGlued(cmd: string, c: char, rest: string)
    requires cmd != [] && forall k | 0 <= k < |cmd| :: IsWordChar(cmd[k])
    requires !IsWordChar(c) && !IsSpace(c)
    ensures Tokenize(cmd + [c] + rest) == None
  {
    var line := cmd + [c] + rest;
    assert line == cmd + ([c] + rest);
    CommandRun(cmd, [c] + rest);
    assert line[|cmd|] == c;
  }

  /** A command word followed by whitespace or the end of the line: the rest is read as words. */
  lemma CommandThenWords(cmd: string, rest: string)
    requires cmd != [] && forall k | 0 <= k < |cmd| :: IsWordChar(cmd[k])
    requires rest == [] || IsSpace(rest[0])
    ensures Tokenize(cmd + rest) == AppendTo([cmd], Words(rest))
  {
    var line := cmd + rest;
    if rest != [] {
      ClassesDisjoint(rest[0]);
    }
    CommandRun(cmd, rest);
    assert line[..|cmd|] == cmd && line[|cmd|..] == rest;
  }

  // ---------------------------------------------------------------------
  // Lines without quotes: plain whitespace splitting
  // ---------------------------------------------------------------------

  /** The runs of non-whitespace of `s`, in order: splitting at whitespace. */
  function Fields(s: string): (fs: seq<string>)
    ensures forall j | 0 <= j < |fs| :: fs[j] != [] && AllNonSpace(fs[j])
    decreases |s|
  {
    var t := DropSpaces(s);
    if t == [] then []
    else
      var n := RunLength(t, 0, NonWhitespace);
      assert n > 0 by { assert In(t[0], NonWhitespace); }
      assert AllNonSpace(t[..n]) by {
        forall k | 0 <= k < n
          ensures !IsSpace(t[..n][k])
        {
          assert In(t[k], NonWhitespace);
        }
      }
      [t[..n]] + Fields(t[n..])
  }

  predicate AllNonSpace(s: string) {
    forall k | 0 <= k < |s| :: !IsSpace(s[k])
  }

  /** Leading whitespace holds no quote. */
  lemma {:induction false} DropSpacesQuoteFree(s: string)
    requires QuoteFree(s)
    ensures QuoteFree(DropSpaces(s))
    decreases |s|
  {
    if s != [] && IsSpace(s[0]) {
      assert QuoteFree(s[1..]) by {
        forall k | 0 <= k < |s[1..]|
          ensures s[1..][k] != Quote
        {
          assert s[1..][k] == s[k + 1];
        }
      }
      DropSpacesQuoteFree(s[1..]);
    }
  }

  /** Without quotes, a word is the run of non-whitespace at the front. */
  lemma QuoteFreeWord(t: string)
    requires QuoteFree(t)
    ensures var n := RunLength(t, 0, NonWhitespace);
      Word(t) == Some(Scan(t[..n], t[n..]))
  {
    var n := RunLength(t, 0, NonWhitespace);
    assert IsBare(t[..n]) by {
      forall k | 0 <= k < n
        ensures !IsSpace(t[..n][k]) && t[..n][k] != Quote
      {
        assert In(t[k], NonWhitespace);
      }
    }
    assert t == t[..n] + t[n..];
    WordBarePrefix(t[..n], t[n..]);
    assert t[..n] + [] == t[..n];
  }

  /** The words of a text without quotes are its whitespace-separated fields. */
  lemma {:induction false} QuoteFreeWords(s: string)
    requires QuoteFree(s)
    ensures Words(s) == Some(Fields(s))
    decreases |s|
  {
    var t := DropSpaces(s);
    DropSpacesQuoteFree(s);
    if t != [] {
      var n := RunLength(t, 0, NonWhitespace);
      assert n > 0 by { assert In(t[0], NonWhitespace); }
      QuoteFreeWord(t);
      var rest := t[n..];
      if rest != [] {
        assert QuoteFree(rest) by {
          forall k | 0 <= k < |rest|
            ensures rest[k] != Quote
          {
            assert rest[k] == t[n + k];
          }
        }
        QuoteFreeWords(rest);
        assert Close(t[..n], rest) == Some([t[..n]] + Fields(rest));
      } else {
        assert Fields(rest) == [];
        assert [t[..n]] + [] == [t[..n]];
        assert Close(t[..n], rest) == Some([t[..n]]);
      }
      assert Words(s) == Close(t[..n], rest);
      assert Fields(s) == [t[..n]] + Fields(rest);
    }
  }

  /**
   * A line without quotes is accepted exactly as plain whitespace splitting
   * would cut it: no word is empty and none holds whitespace, however long
   * the whitespace between words.
   */
  lemma QuoteFreeLine(line: string, ws: seq<string>)
    requires QuoteFree(line) && Tokenize(line) == Some(ws)
    ensures ws == Fields(line)
    ensures forall j | 0 <= j < |ws| :: ws[j] != [] && AllNonSpace(ws[j])
  {
    var n := RunLength(line, 0, WordChars);
    if n == 0 {
      assert AllSpaces(line);
      DropSpacesAfter(line, []);
      assert line + [] == line;
    } else {
      var cmd := line[..n];
      var rest := line[n..];
      assert line == cmd + rest;
      if rest != [] {
        ClassesDisjoint(rest[0]);
      }
      forall k | 0 <= k < n
        ensures In(line[k], NonWhitespace)
      {
        assert In(line[k], WordChars);
        ClassesDisjoint(line[k]);
      }
      RunLengthIs(line, 0, n, NonWhitespace);
      assert !IsSpace(line[0]) by {
        assert In(line[0], WordChars);
        ClassesDisjoint(line[0]);
      }
      assert DropSpaces(line) == line;
      assert QuoteFree(rest) by {
        forall k | 0 <= k < |rest|
          ensures rest[k] != Quote
        {
          assert rest[k] == line[n + k];
        }
      }
      QuoteFreeWords(rest);
    }
  }

  // ---------------------------------------------------------------------
  // Quoted fragments
  // ---------------------------------------------------------------------

  /**
   * Bare text, a quoted segment and what follows, with no whitespace in
   * between, continue the same word: the segment's text is taken verbatim
   * and the quotes are dropped.
   */
  lemma FragmentsJoin(cur: string, u: string, q: string, t: string)
    requires IsBare(u) && QuoteFree(q)
    ensures Continue(cur, u + [Quote] + q + [Quote] + t) == Continue(cur + u + q, t)
  {
    assert u + [Quote] + q + [Quote] + t == u + ([Quote] + (q + [Quote] + t));
    ContinueBare(cur, u, [Quote] + (q + [Quote] + t));
    ContinueQuote(cur + u, q + [Quote] + t);
    QuotedAt(q, t);
  }

  /**
   * Bare text, a quoted segment and more bare text glued together after
   * whitespace make one argument.
   */
  lemma JoinedWords(u: string, q: string, v: string)
    requires IsBare(u) && QuoteFree(q) && IsBare(v) && v != []
    ensures Words([' '] + u + [Quote] + q + [Quote] + v) == Some([u + q + v])
  {
    var arg := u + [Quote] + q + [Quote] + v;
    var w := u + q + v;
    assert [' '] + u + [Quote] + q + [Quote] + v == [' '] + arg;
    assert Words([' '] + arg) == Continue([], arg) by {
      assert arg[0] == if u != [] then u[0] else Quote;
      WordsAfterSpaces([' '], arg);
    }
    assert Continue([], arg) == Continue(u + q, v) by {
      FragmentsJoin([], u, q, v);
      assert [] + u + q == u + q;
    }
    assert Continue(u + q, v) == Continue(w, []) by {
      assert v + [] == v;
      ContinueBare(u + q, v, []);
    }
    ContinueAtBoundary(w, []);
  }

  /**
   * A command, one space, and bare text, a quoted segment and more bare
   * text glued together: the three fragments make one argument.
   */
  lemma JoinedArgument(cmd: string, u: string, q: string, v: string)
    requires cmd != [] && forall k | 0 <= k < |cmd| :: IsWordChar(cmd[k])
    requires IsBare(u) && QuoteFree(q) && IsBare(v) && v != []
    ensures Tokenize(cmd + [' '] + u + [Quote] + q + [Quote] + v) == Some([cmd, u + q + v])
  {
    var rest := [' '] + u + [Quote] + q + [Quote] + v;
    assert cmd + [' '] + u + [Quote] + q + [Quote] + v == cmd + rest;
    CommandThenWords(cmd, rest);
    JoinedWords(u, q, v);
    assert [cmd] + [u + q + v] == [cmd, u + q + v];
  }

  /** `echo a'b c'd` gives the command and the single argument `ab cd`. */
  lemma JoinExample(line: string)
    requires line == "echo a'b c'd"
    ensures Tokenize(line) == Some(["echo", "ab cd"])
  {
    JoinedArgument("echo", "a", "b c", "d");
    JoinExampleLine(line);
  }

  lemma JoinExampleLine(line: string)
    requires line == "echo a'b c'd"
    ensures line == "echo" + [' '] + "a" + [Quote] + "b c" + [Quote] + "d"
    ensures "a" + "b c" + "d" == "ab cd"
  { }

  // ---------------------------------------------------------------------
  // Unbalanced quotes
  // ---------------------------------------------------------------------

  /** The number of quotes in `s`. */
  function QuoteCount(s: string): (n: nat)
    ensures n <= |s|
    ensures n == 0 <==> QuoteFree(s)
  {
    if s == [] then 0
    else (if s[0] == Quote then 1 else 0) + QuoteCount(s[1..])
  }

  /** A complete quoted segment consumes exactly one more quote. */
  lemma {:induction false} QuotedCount(t: string)
    requires Quoted(t).Some?
    ensures QuoteCount(t) == QuoteCount(Quoted(t).value.rest) + 1
  {
    if t[0] != Quote {
      QuotedCount(t[1..]);
    }
  }

  /** A word consumes an even number of quotes. */
  lemma {:induction false} WordCount(t: string)
    requires Word(t).Some?
    ensures QuoteCount(t) % 2 == QuoteCount(Word(t).value.rest) % 2
    decreases |t|
  {
    if t == [] || IsSpace(t[0]) {
    } else if t[0] == Quote {
      var q := Quoted(t[1..]).value;
      assert Word(t) == PrependText(q.text, Word(q.rest));
      assert QuoteCount(t) == 1 + QuoteCount(t[1..]);
      QuotedCount(t[1..]);
      WordCount(q.rest);
    } else {
      assert Word(t) == PrependText([t[0]], Word(t[1..]));
      assert QuoteCount(t) == QuoteCount(t[1..]);
      WordCount(t[1..]);
    }
  }

  /** Leading whitespace holds no quote. */
  lemma {:induction false} DropSpacesCount(s: string)
    ensures QuoteCount(DropSpaces(s)) == QuoteCount(s)
    decreases |s|
  {
    if s != [] && IsSpace(s[0]) {
      ClassesDisjoint(s[0]);
      DropSpacesCount(s[1..]);
    }
  }

  /** Words that are read successfully hold an even number of quotes. */
  lemma {:induction false} WordsCount(s: string)
    requires Words(s).Some?
    ensures QuoteCount(s) % 2 == 0
    decreases |s|
  {
    var t := DropSpaces(s);
    DropSpacesCount(s);
    if t != [] {
      var w := Word(t).value;
      WordCount(t);
      if w.rest != [] {
        WordsCount(w.rest);
      }
    }
  }

  /** Dropping a prefix without quotes keeps the count. */
  lemma {:induction false} CountAfterPrefix(s: string, n: nat)
    requires n <= |s| && forall k | 0 <= k < n :: s[k] != Quote
    ensures QuoteCount(s) == QuoteCount(s[n..])
    decreases n
  {
    if n > 0 {
      assert forall k | 0 <= k < n - 1 :: s[1..][k] == s[k + 1];
      CountAfterPrefix(s[1..], n - 1);
      assert s[1..][n - 1..] == s[n..];
    }
  }

  /** A line with an odd number of quotes leaves a quote open and is rejected. */
  lemma UnbalancedQuotesRejected(line: string)
    requires QuoteCount(line) % 2 == 1
    ensures Tokenize(line) == None
  {
    if Tokenize(line).Some? {
      var n := RunLength(line, 0, WordChars);
      if n == 0 {
        assert AllSpaces(line);
        DropSpacesAfter(line, []);
        assert line + [] == line;
        DropSpacesCount(line);
      } else {
        forall k | 0 <= k < n
          ensures line[k] != Quote
        {
          assert In(line[k], WordChars);
          ClassesDisjoint(line[k]);
        }
        CountAfterPrefix(line, n);
        WordsCount(line[n..]);
      }
    }
  }

  // ---------------------------------------------------------------------
  // Quoting round trip
  // ---------------------------------------------------------------------

  /** Each argument as ` '...'`: a space, then the argument in quotes. */
  function QuoteJoin(args: seq<string>): string {
    if args == [] then [] else [' ', Quote] + args[0] + [Quote] + QuoteJoin(args[1..])
  }

  /** The arguments the parser gives back: an empty last argument is dropped, because it ends the line. */
  function Kept(args: seq<string>): seq<string> {
    if args != [] && args[|args| - 1] == [] then args[..|args| - 1] else args
  }

  /** One quoted argument, then the others. */
  lemma QuoteJoinStep(a: string, rest: seq<string>)
    requires QuoteFree(a)
    ensures Words(QuoteJoin([a] + rest)) == Close(a, QuoteJoin(rest))
  {
    var j := QuoteJoin(rest);
    assert ([a] + rest)[1..] == rest;
    assert QuoteJoin([a] + rest) == [' '] + ([Quote] + (a + [Quote] + j));
    WordsAfterSpaces([' '], [Quote] + (a + [Quote] + j));
    ContinueQuote([], a + [Quote] + j);
    QuotedAt(a, j);
    ContinueAtBoundary([] + a, j);
    assert [] + a == a;
  }

  /** The words of quoted arguments are the arguments, but for an empty last one. */
  lemma {:induction false} QuoteJoinWords(args: seq<string>)
    requires forall j | 0 <= j < |args| :: QuoteFree(args[j])
    ensures Words(QuoteJoin(args)) == Some(Kept(args))
    decreases |args|
  {
    if args != [] {
      var a, rest := args[0], args[1..];
      assert args == [a] + rest;
      QuoteJoinStep(a, rest);
      if rest == [] {
        assert QuoteJoin(rest) == [];
        assert Kept(args) == if a == [] then [] else [a] by {
          assert args[..0] == [];
        }
      } else {
        QuoteJoinWords(rest);
        assert rest[|rest| - 1] == args[|args| - 1];
        assert QuoteJoin(rest)[0] == ' ';
        if args[|args| - 1] == [] {
          assert [a] + rest[..|rest| - 1] == args[..|args| - 1];
        }
      }
    }
  }

  /**
   * Quoting each argument and putting a space before it gives back the
   * command and the arguments; an empty last argument is the one thing lost.
   */
  lemma QuoteRoundTrip(cmd: string, args: seq<string>)
    requires cmd != [] && forall k | 0 <= k < |cmd| :: IsWordChar(cmd[k])
    requires forall j | 0 <= j < |args| :: QuoteFree(args[j])
    ensures Tokenize(cmd + QuoteJoin(args)) == Some([cmd] + Kept(args))
    ensures args != [] && args[|args| - 1] != [] ==> Tokenize(cmd + QuoteJoin(args)) == Some([cmd] + args)
  {
    CommandThenWords(cmd, QuoteJoin(args));
    QuoteJoinWords(args);
  }

  /** `echo '' 'x'` keeps the empty argument; `echo ''` drops it at the end of the line. */
  lemma EmptyQuotedArgument(line1: string, line2: string)
    requires line1 == "echo '' 'x'" && line2 == "echo ''"
    ensures Tokenize(line1) == Some(["echo", "", "x"])
    ensures Tokenize(line2) == Some(["echo"])
  {
    QuoteRoundTrip("echo", ["", "x"]);
    QuoteRoundTrip("echo", [""]);
    EmptyQuotedLines(line1, line2);
  }

  lemma EmptyQuotedLines(line1: string, line2: string)
    requires line1 == "echo '' 'x'" && line2 == "echo ''"
    ensures line1 == "echo" + QuoteJoin(["", "x"]) && ["echo"] + Kept(["", "x"]) == ["echo", "", "x"]
    ensures line2 == "echo" + QuoteJoin([""]) && ["echo"] + Kept([""]) == ["echo"]
  {
    assert ["", "x"][1..] == ["x"] && ["x"][1..] == [] && [""][1..] == [];
  }
}
