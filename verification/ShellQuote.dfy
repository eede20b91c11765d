/**
  Quoting an argument vector for a remote `sh -c`, and the shell's own reading of the
  result: sections 2.2.1, 2.2.2 and 2.3 of the POSIX.1-2017 Shell Command Language.
 */
module ShellQuote {
  import opened Text

  const QUOTE := '\''
  const BACKSLASH := '\\'
  const ESCAPED_QUOTE := "'\\''"

  // ------------------------------------------------------------------------ the quoter

  /** Every quote replaced by: close the quotes, an escaped quote, open the quotes. */
  function ReplaceQuotes(a: string): string
  {
    if a == "" then ""
    else (if a[0] == QUOTE then ESCAPED_QUOTE else [a[0]]) + ReplaceQuotes(a[1..])
  }

  function Quoted(a: string): string
  {
    [QUOTE] + ReplaceQuotes(a) + [QUOTE]
  }

  function CommandLine(argv: seq<string>): string
  {
    if argv == [] then ""
    else if |argv| == 1 then Quoted(argv[0])
    else CommandLine(argv[..|argv| - 1]) + " " + Quoted(argv[|argv| - 1])
  }

  /** The loop over the argument vector that fills the string builder. */
  method QuoteArgv(argv: seq<string>) returns (b: string)
    ensures b == CommandLine(argv)
  {
    b := "";
    var i := 0;
    while i < |argv|
      invariant 0 <= i <= |argv|
      invariant b == CommandLine(argv[..i])
    {
      ghost var front := argv[..i + 1];
      assert front[..i] == argv[..i];
      var a := argv[i];
      if i > 0 {
        b := b + " ";
      }
      b := b + [QUOTE];
      b := b + ReplaceQuotes(a);
      b := b + [QUOTE];
      i := i + 1;
    }
    assert argv[..|argv|] == argv;
  }

  // ------------------------------------------------------------------------- the shell

  /**
    What the shell makes of a command line: its words, or `Active` when an unquoted
    character makes it do more than split words, or when quoting is left open.
   */
  datatype Lexed = Words(words: seq<string>) | Active

  predicate IsBlank(c: char)
  {
    c == ' ' || c == '\t'
  }

  /** Operators, expansions, double quotes and the other characters that need quoting. */
  predicate IsActive(c: char)
  {
    c in "|&;<>()$`\"\n*?[#~=%"
  }

  function Flush(inWord: bool, word: string, done: seq<string>): seq<string>
  {
    if inWord then done + [word] else done
  }

  /** Reads `s` with `word` begun (if `inWord`) after the words `done`. */
  function Lex(s: string, inWord: bool, word: string, done: seq<string>): Lexed
    decreases |s|
  {
    if s == "" then Words(Flush(inWord, word, done))
    else
      var c, rest := s[0], s[1..];
      if c == QUOTE then
        var close := IndexByte(rest, QUOTE);
        if close < 0 then Active
        else Lex(rest[close + 1..], true, word + rest[..close], done)
      else if c == BACKSLASH then
        if rest == "" then Active
        else if rest[0] == '\n' then Lex(rest[1..], inWord, word, done)
        else Lex(rest[1..], true, word + [rest[0]], done)
      else if IsBlank(c) then Lex(rest, false, "", Flush(inWord, word, done))
      else if IsActive(c) then Active
      else Lex(rest, true, word + [c], done)
  }

  function Tokenise(s: string): Lexed
  {
    Lex(s, false, "", [])
  }

  // ----------------------------------------------------------------------- round trip

  /** A quoted run without quotes inside is one step of the lexer. */
  lemma LexQuotedRun(x: string, rest: string, inWord: bool, word: string, done: seq<string>)
    requires QUOTE !in x
    ensures Lex([QUOTE] + x + [QUOTE] + rest, inWord, word, done) == Lex(rest, true, word + x, done)
  {
    var s := [QUOTE] + x + [QUOTE] + rest;
    var tail := x + [QUOTE] + rest;
    assert s[0] == QUOTE && s[1..] == tail;
    FirstSeparator(x, rest, QUOTE);
    assert tail[..|x|] == x && tail[|x| + 1..] == rest;
  }

  lemma LexEscapedQuote(rest: string, word: string, done: seq<string>)
    ensures Lex([BACKSLASH, QUOTE] + rest, true, word, done) == Lex(rest, true, word + [QUOTE], done)
  {
    var s := [BACKSLASH, QUOTE] + rest;
    assert s[0] == BACKSLASH && s[1..] == [QUOTE] + rest && s[1..][1..] == rest;
  }

  lemma {:induction false} ReplaceNone(x: string)
    requires QUOTE !in x
    ensures ReplaceQuotes(x) == x
  {
    if x != "" { ReplaceNone(x[1..]); }
  }

  lemma {:induction false} ReplaceConcat(x: string, y: string)
    ensures ReplaceQuotes(x + y) == ReplaceQuotes(x) + ReplaceQuotes(y)
  {
    if x == "" {
      assert x + y == y;
    } else {
      assert (x + y)[1..] == x[1..] + y;
      ReplaceConcat(x[1..], y);
    }
  }

  /** Quoting a token with a quote in it: its first run, an escaped quote, the rest quoted. */
  lemma QuotedAtQuote(x: string, y: string)
    requires QUOTE !in x
    ensures Quoted(x + [QUOTE] + y) == [QUOTE] + x + [QUOTE] + ([BACKSLASH, QUOTE] + Quoted(y))
  {
    ReplaceAtQuote(x, y);
    QuotesAround(x, ReplaceQuotes(y));
  }

  lemma ReplaceAtQuote(x: string, y: string)
    requires QUOTE !in x
    ensures ReplaceQuotes(x + [QUOTE] + y) == x + ESCAPED_QUOTE + ReplaceQuotes(y)
  {
    ReplaceConcat(x + [QUOTE], y);
    ReplaceConcat(x, [QUOTE]);
    ReplaceNone(x);
    assert ReplaceQuotes([QUOTE]) == ESCAPED_QUOTE;
  }

  lemma QuotesAround(x: string, z: string)
    ensures [QUOTE] + (x + ESCAPED_QUOTE + z) + [QUOTE]
         == [QUOTE] + x + [QUOTE] + ([BACKSLASH, QUOTE] + ([QUOTE] + z + [QUOTE]))
  {
    assert ESCAPED_QUOTE == [QUOTE] + [BACKSLASH, QUOTE] + [QUOTE];
  }

  lemma Regroup3(a: string, b: string, c: string, d: string)
    ensures a + (b + c) + d == a + (b + (c + d))
  {
  }

  /** The lexer reads a quoted token back as the token itself. */
  lemma {:induction false} LexQuoted(a: string, rest: string, inWord: bool, word: string, done: seq<string>)
    ensures Lex(Quoted(a) + rest, inWord, word, done) == Lex(rest, true, word + a, done)
    decreases |a|
  {
    hide Lex, ReplaceQuotes, IndexByte;
    if QUOTE !in a {
      ReplaceNone(a);
      LexQuotedRun(a, rest, inWord, word, done);
    } else {
      var i := IndexByte(a, QUOTE);
      CutAt(a, i);
      var x, y := a[..i], a[i + 1..];
      QuotedAtQuote(x, y);
      var tail := Quoted(y) + rest;
      Regroup3([QUOTE] + x + [QUOTE], [BACKSLASH, QUOTE], Quoted(y), rest);
      LexQuotedRun(x, [BACKSLASH, QUOTE] + tail, inWord, word, done);
      LexEscapedQuote(tail, word + x, done);
      LexQuoted(y, rest, true, word + x + [QUOTE], done);
      assert word + x + [QUOTE] + y == word + a;
    }
  }

  lemma LexBlank(rest: string, word: string, done: seq<string>)
    ensures Lex(" " + rest, true, word, done) == Lex(rest, false, "", done + [word])
  {
    assert (" " + rest)[1..] == rest;
  }

  /** Reading a command line leaves the last token as the word begun. */
  lemma {:induction false} LexCommandLine(argv: seq<string>, rest: string)
    requires argv != []
    ensures var n := |argv| - 1;
      Lex(CommandLine(argv) + rest, false, "", []) == Lex(rest, true, argv[n], argv[..n])
    decreases |argv|
  {
    hide Lex, ReplaceQuotes, Quoted;
    var n := |argv| - 1;
    var a := argv[n];
    if n == 0 {
      LexQuoted(a, rest, false, "", []);
      assert "" + a == a;
    } else {
      var front := argv[..n];
      var tail := " " + (Quoted(a) + rest);
      LexCommandLine(front, tail);
      assert CommandLine(argv) + rest == CommandLine(front) + tail;
      LexBlank(Quoted(a) + rest, front[n - 1], front[..n - 1]);
      assert front[..n - 1] + [front[n - 1]] == front;
      LexQuoted(a, rest, false, "", front);
      assert "" + a == a;
    }
  }

  /** The remote shell sees exactly the argument vector that was quoted. */
  lemma QuoteRoundTrip(argv: seq<string>)
    ensures Tokenise(CommandLine(argv)) == Words(argv)
  {
    if argv != [] {
      LexCommandLine(argv, "");
      var n := |argv| - 1;
      assert CommandLine(argv) + "" == CommandLine(argv);
      assert argv[..n] + [argv[n]] == argv;
    }
  }

  /** Different argument vectors never share a command line. */
  lemma QuoteInjective(argv: seq<string>, argw: seq<string>)
    requires CommandLine(argv) == CommandLine(argw)
    ensures argv == argw
  {
    QuoteRoundTrip(argv);
    QuoteRoundTrip(argw);
  }
}
