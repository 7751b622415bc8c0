/** Scans of small sources worked out token by token: a number followed by
    a point, a line comment before an operator, and a string literal. Each
    example fixes the lexeme at every cursor position the scan loop visits,
    then the loop's trace, then the scan's outcome. */
module ScanExamples {

  import opened Wrappers
  import opened Tokens
  import opened Scanner
  import opened ScannerLemmas

  // `123.`

  lemma TrailingPointNumber(s: string)
    requires s == "123."
    ensures ScanToken(s, 0, 1, AsWritten) == Step(3, 1, Some(Token(Number, "123", Num("123", ""), 1)), None)
  {
    NumberMunch(s, 0, 3, 1, AsWritten);
    assert s[0..3] == "123";
  }

  lemma TrailingPointDot(s: string)
    requires s == "123."
    ensures ScanToken(s, 3, 1, AsWritten) == Step(4, 1, Some(Token(Dot, ".", Absent, 1)), None)
  {
    PunctuationIsOneToken(s, 3, 1, AsWritten);
  }

  lemma TrailingPointRun(s: string)
    requires s == "123."
    ensures Run(s, 0, 1, AsWritten) == Finished([
      Located(Token(Number, "123", Num("123", ""), 1), 0, 3),
      Located(Token(Dot, ".", Absent, 1), 3, 4)], [], 1)
  {
    TrailingPointNumber(s);
    TrailingPointDot(s);
    RunAtEnd(s, 1, AsWritten);
    RunStep(s, 3, 1, AsWritten, ScanToken(s, 3, 1, AsWritten), Run(s, 4, 1, AsWritten));
    RunStep(s, 0, 1, AsWritten, ScanToken(s, 0, 1, AsWritten), Run(s, 3, 1, AsWritten));
  }

  /** A point with no digit after it is not part of the number: `123.` is a
      number and then a separate dot. */
  lemma TrailingPointIsDot(s: string)
    requires s == "123."
    ensures ScanTokens(s) == Scanned([
      Token(Number, "123", Num("123", ""), 1),
      Token(Dot, ".", Absent, 1),
      Token(Eof, "", Absent, 1)], [])
  {
    TrailingPointRun(s);
    var t := Run(s, 0, 1, AsWritten);
    ScanOfFinishedRun(s, AsWritten, t);
    assert TokensOf(t.lexed) == [t.lexed[0].token, t.lexed[1].token];
  }

  // `// x` newline `+`

  lemma LineCommentSteps(s: string)
    requires s == "// x\n+"
    ensures ScanToken(s, 0, 1, AsWritten) == Step(4, 1, None, None)
    ensures ScanToken(s, 4, 1, AsWritten) == Step(5, 2, None, None)
  {
    LineCommentSkipped(s, 0, 4, 1, AsWritten);
    WhitespaceSkipped(s, 4, 1, AsWritten);
  }

  lemma LineCommentPlus(s: string)
    requires s == "// x\n+"
    ensures ScanToken(s, 5, 2, AsWritten) == Step(6, 2, Some(Token(Plus, "+", Absent, 2)), None)
  {
    PunctuationIsOneToken(s, 5, 2, AsWritten);
  }

  lemma LineCommentRun(s: string)
    requires s == "// x\n+"
    ensures Run(s, 0, 1, AsWritten) == Finished([Located(Token(Plus, "+", Absent, 2), 5, 6)], [], 2)
  {
    LineCommentSteps(s);
    LineCommentPlus(s);
    RunAtEnd(s, 2, AsWritten);
    RunStep(s, 5, 2, AsWritten, ScanToken(s, 5, 2, AsWritten), Run(s, 6, 2, AsWritten));
    RunStep(s, 4, 1, AsWritten, ScanToken(s, 4, 1, AsWritten), Run(s, 5, 2, AsWritten));
    RunStep(s, 0, 1, AsWritten, ScanToken(s, 0, 1, AsWritten), Run(s, 4, 1, AsWritten));
  }

  /** A line comment leaves its newline to be counted, so the `+` after it is on line 2. */
  lemma LineCommentThenOperator(s: string)
    requires s == "// x\n+"
    ensures ScanTokens(s) == Scanned([Token(Plus, "+", Absent, 2), Token(Eof, "", Absent, 2)], [])
  {
    LineCommentRun(s);
    var t := Run(s, 0, 1, AsWritten);
    ScanOfFinishedRun(s, AsWritten, t);
    TokensOfOne(t.lexed[0]);
  }

  // `"abc"`

  lemma QuotedStringStep(s: string)
    requires s == "\"abc\""
    ensures ScanToken(s, 0, 1, AsWritten) == Step(5, 1, Some(Token(String, "\"abc\"", Str("abc"), 1)), None)
  {
    StringTerminated(s, 0, 4, 1, AsWritten);
    assert s[0..4] == "\"abc";
    assert s[0..5] == "\"abc\"" && s[1..4] == "abc";
  }

  lemma QuotedStringRun(s: string)
    requires s == "\"abc\""
    ensures Run(s, 0, 1, AsWritten) == Finished([Located(Token(String, "\"abc\"", Str("abc"), 1), 0, 5)], [], 1)
  {
    QuotedStringStep(s);
    RunAtEnd(s, 1, AsWritten);
    RunStep(s, 0, 1, AsWritten, ScanToken(s, 0, 1, AsWritten), Run(s, 5, 1, AsWritten));
  }

  /** A string literal's value is its text without the quotes. */
  lemma QuotedString(s: string)
    requires s == "\"abc\""
    ensures ScanTokens(s) == Scanned([
      Token(String, "\"abc\"", Str("abc"), 1),
      Token(Eof, "", Absent, 1)], [])
  {
    QuotedStringRun(s);
    var t := Run(s, 0, 1, AsWritten);
    ScanOfFinishedRun(s, AsWritten, t);
    TokensOfOne(t.lexed[0]);
  }
}
