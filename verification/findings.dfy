/** Three block-comment sources on which the scanner as written departs from
    the comment syntax it evidently means, each scanned both ways: with the
    closing test as written (`*` under the cursor OR `/` after it) and with
    the intended one (`*` under the cursor AND `/` after it). */
module CommentFindings {

  import opened Wrappers
  import opened Tokens
  import opened Scanner
  import opened ScannerLemmas

  // A slash inside a comment: `/* a/b */`.

  lemma SlashInCommentOpening(s: string)
    requires s == "/* a/b */"
    ensures ScanToken(s, 0, 1, AsWritten) == Step(5, 1, None, None)
  {
    assert !ClosesComment(s, 2, AsWritten) && ClosesComment(s, 3, AsWritten);
    BlockCommentAsWritten(s, 0, 3, 1);
    assert s[2..3] == " ";
  }

  lemma SlashInCommentWord(s: string)
    requires s == "/* a/b */"
    ensures ScanToken(s, 5, 1, AsWritten) == Step(6, 1, Some(Token(Identifier, "b", Absent, 1)), None)
  {
    WordMunch(s, 5, 6, 1, AsWritten);
    assert s[5..6] == "b";
    assert "b" !in Keywords;
  }

  lemma SlashInCommentTail(s: string)
    requires s == "/* a/b */"
    ensures ScanToken(s, 6, 1, AsWritten) == Step(7, 1, None, None)
    ensures ScanToken(s, 7, 1, AsWritten) == Step(8, 1, Some(Token(Star, "*", Absent, 1)), None)
    ensures ScanToken(s, 8, 1, AsWritten) == Step(9, 1, Some(Token(Slash, "/", Absent, 1)), None)
  {
    WhitespaceSkipped(s, 6, 1, AsWritten);
    PunctuationIsOneToken(s, 7, 1, AsWritten);
    SlashAlone(s, 8, 1, AsWritten);
  }

  lemma SlashInCommentRun(s: string)
    requires s == "/* a/b */"
    ensures Run(s, 0, 1, AsWritten) == Finished([
      Located(Token(Identifier, "b", Absent, 1), 5, 6),
      Located(Token(Star, "*", Absent, 1), 7, 8),
      Located(Token(Slash, "/", Absent, 1), 8, 9)], [], 1)
  {
    SlashInCommentOpening(s);
    SlashInCommentWord(s);
    SlashInCommentTail(s);
    RunAtEnd(s, 1, AsWritten);
    RunStep(s, 8, 1, AsWritten, ScanToken(s, 8, 1, AsWritten), Run(s, 9, 1, AsWritten));
    RunStep(s, 7, 1, AsWritten, ScanToken(s, 7, 1, AsWritten), Run(s, 8, 1, AsWritten));
    RunStep(s, 6, 1, AsWritten, ScanToken(s, 6, 1, AsWritten), Run(s, 7, 1, AsWritten));
    RunStep(s, 5, 1, AsWritten, ScanToken(s, 5, 1, AsWritten), Run(s, 6, 1, AsWritten));
    RunStep(s, 0, 1, AsWritten, ScanToken(s, 0, 1, AsWritten), Run(s, 5, 1, AsWritten));
  }

  /** As written, the comment ends at the `a` because a `/` follows it; the
      rest of the comment is scanned as code. */
  lemma SlashInCommentAsWritten(s: string)
    requires s == "/* a/b */"
    ensures ScanTokens(s) == Scanned([
      Token(Identifier, "b", Absent, 1),
      Token(Star, "*", Absent, 1),
      Token(Slash, "/", Absent, 1),
      Token(Eof, "", Absent, 1)], [])
  {
    SlashInCommentRun(s);
    var t := Run(s, 0, 1, AsWritten);
    ScanOfFinishedRun(s, AsWritten, t);
    TokensOfThree(t.lexed[0], t.lexed[1], t.lexed[2]);
  }

  lemma SlashInCommentIntendedRun(s: string)
    requires s == "/* a/b */"
    ensures Run(s, 0, 1, Intended) == Finished([], [], 1)
  {
    BlockCommentIntended(s, 0, 7, 1);
    assert s[0..9] == s;
    NoNewlines(s);
    RunAtEnd(s, 1, Intended);
    RunStep(s, 0, 1, Intended, ScanToken(s, 0, 1, Intended), Run(s, 9, 1, Intended));
  }

  /** With the intended test the whole source is one comment. */
  lemma SlashInCommentCorrected(s: string)
    requires s == "/* a/b */"
    ensures ScanTokensCorrected(s) == Scanned([Token(Eof, "", Absent, 1)], [])
  {
    SlashInCommentIntendedRun(s);
    ScanOfEmptyRun(s, Intended, 1);
  }

  // A star as the last character of an unterminated comment: `/* *`.

  lemma StarAtEndOpening(s: string)
    requires s == "/* *"
    ensures ScanToken(s, 0, 1, AsWritten) == Fault(4)
  {
    assert !ClosesComment(s, 2, AsWritten) && ClosesComment(s, 3, AsWritten);
    BlockCommentAsWritten(s, 0, 3, 1);
  }

  /** As written, the loop stops on the final `*` and the second of the two
      closing advances reads one past the end of the source: the scan throws. */
  lemma StarAtEndAsWritten(s: string)
    requires s == "/* *"
    ensures ScanTokens(s) == Threw(4, [])
  {
    StarAtEndOpening(s);
    RunFault(s, 0, 1, AsWritten);
    ScanOfAbortedRun(s, AsWritten, 4, []);
  }

  lemma StarAtEndIntendedRun(s: string)
    requires s == "/* *"
    ensures Run(s, 0, 1, Intended) == Finished([], [Diagnostic(1, UnterminatedComment)], 1)
  {
    BlockCommentIntended(s, 0, 4, 1);
    assert s[0..] == s;
    NoNewlines(s);
    RunAtEnd(s, 1, Intended);
    RunStep(s, 0, 1, Intended, ScanToken(s, 0, 1, Intended), Run(s, 4, 1, Intended));
  }

  /** With the intended test the comment is reported as unterminated and the
      scan completes. */
  lemma StarAtEndCorrected(s: string)
    requires s == "/* *"
    ensures ScanTokensCorrected(s) == Scanned([Token(Eof, "", Absent, 1)], [Diagnostic(1, UnterminatedComment)])
  {
    StarAtEndIntendedRun(s);
    var t := Run(s, 0, 1, Intended);
    ScanOfFinishedRun(s, Intended, t);
    assert TokensOf(t.lexed) == [];
  }

  // A newline after a star inside a comment: `/* *` newline `*/ +`.

  lemma StarNewlineOpening(s: string)
    requires s == "/* *\n*/ +"
    ensures ScanToken(s, 0, 1, AsWritten) == Step(5, 1, None, None)
  {
    assert !ClosesComment(s, 2, AsWritten) && ClosesComment(s, 3, AsWritten);
    BlockCommentAsWritten(s, 0, 3, 1);
    assert s[2..3] == " ";
  }

  lemma StarNewlineStarSlash(s: string)
    requires s == "/* *\n*/ +"
    ensures ScanToken(s, 5, 1, AsWritten) == Step(6, 1, Some(Token(Star, "*", Absent, 1)), None)
    ensures ScanToken(s, 6, 1, AsWritten) == Step(7, 1, Some(Token(Slash, "/", Absent, 1)), None)
  {
    PunctuationIsOneToken(s, 5, 1, AsWritten);
    SlashAlone(s, 6, 1, AsWritten);
  }

  lemma StarNewlinePlus(s: string)
    requires s == "/* *\n*/ +"
    ensures ScanToken(s, 7, 1, AsWritten) == Step(8, 1, None, None)
    ensures ScanToken(s, 8, 1, AsWritten) == Step(9, 1, Some(Token(Plus, "+", Absent, 1)), None)
  {
    WhitespaceSkipped(s, 7, 1, AsWritten);
    PunctuationIsOneToken(s, 8, 1, AsWritten);
  }

  lemma StarNewlineRun(s: string)
    requires s == "/* *\n*/ +"
    ensures Run(s, 0, 1, AsWritten) == Finished([
      Located(Token(Star, "*", Absent, 1), 5, 6),
      Located(Token(Slash, "/", Absent, 1), 6, 7),
      Located(Token(Plus, "+", Absent, 1), 8, 9)], [], 1)
  {
    StarNewlineOpening(s);
    StarNewlineStarSlash(s);
    StarNewlinePlus(s);
    RunAtEnd(s, 1, AsWritten);
    RunStep(s, 8, 1, AsWritten, ScanToken(s, 8, 1, AsWritten), Run(s, 9, 1, AsWritten));
    RunStep(s, 7, 1, AsWritten, ScanToken(s, 7, 1, AsWritten), Run(s, 8, 1, AsWritten));
    RunStep(s, 6, 1, AsWritten, ScanToken(s, 6, 1, AsWritten), Run(s, 7, 1, AsWritten));
    RunStep(s, 5, 1, AsWritten, ScanToken(s, 5, 1, AsWritten), Run(s, 6, 1, AsWritten));
    RunStep(s, 0, 1, AsWritten, ScanToken(s, 0, 1, AsWritten), Run(s, 5, 1, AsWritten));
  }

  /** As written, the comment stops at the first `*` and its two closing
      advances swallow the newline without counting it: every token,
      including the final one, is reported on line 1. */
  lemma StarNewlineAsWritten(s: string)
    requires s == "/* *\n*/ +"
    ensures ScanTokens(s) == Scanned([
      Token(Star, "*", Absent, 1),
      Token(Slash, "/", Absent, 1),
      Token(Plus, "+", Absent, 1),
      Token(Eof, "", Absent, 1)], [])
  {
    StarNewlineRun(s);
    var t := Run(s, 0, 1, AsWritten);
    ScanOfFinishedRun(s, AsWritten, t);
    TokensOfThree(t.lexed[0], t.lexed[1], t.lexed[2]);
  }

  lemma StarNewlineIntendedComment(s: string)
    requires s == "/* *\n*/ +"
    ensures ScanToken(s, 0, 1, Intended) == Step(7, 2, None, None)
  {
    assert s[2] == ' ' && s[3] == '*' && s[4] == '\n' && s[5] == '*' && s[6] == '/';
    forall k | 2 <= k < 5 ensures !(s[k] == '*' && k + 1 < |s| && s[k + 1] == '/') {
      assert k == 2 || k == 3 || k == 4;
    }
    BlockCommentIntended(s, 0, 5, 1);
    NewlinesSplit(s, 0, 4, 7);
    NewlinesSplit(s, 4, 5, 7);
    NoNewlines(s[0..4]);
    NoNewlines(s[5..7]);
    assert s[4..5][0] == '\n' && s[4..5][1..] == [];
  }

  lemma StarNewlineIntendedPlus(s: string)
    requires s == "/* *\n*/ +"
    ensures ScanToken(s, 7, 2, Intended) == Step(8, 2, None, None)
    ensures ScanToken(s, 8, 2, Intended) == Step(9, 2, Some(Token(Plus, "+", Absent, 2)), None)
  {
    WhitespaceSkipped(s, 7, 2, Intended);
    PunctuationIsOneToken(s, 8, 2, Intended);
  }

  lemma StarNewlineIntendedRun(s: string)
    requires s == "/* *\n*/ +"
    ensures Run(s, 0, 1, Intended) == Finished([Located(Token(Plus, "+", Absent, 2), 8, 9)], [], 2)
  {
    StarNewlineIntendedComment(s);
    StarNewlineIntendedPlus(s);
    RunAtEnd(s, 2, Intended);
    RunStep(s, 8, 2, Intended, ScanToken(s, 8, 2, Intended), Run(s, 9, 2, Intended));
    RunStep(s, 7, 2, Intended, ScanToken(s, 7, 2, Intended), Run(s, 8, 2, Intended));
    RunStep(s, 0, 1, Intended, ScanToken(s, 0, 1, Intended), Run(s, 7, 2, Intended));
  }

  /** With the intended test the comment spans the newline, which is counted:
      the `+` and the end of input are on line 2. */
  lemma StarNewlineCorrected(s: string)
    requires s == "/* *\n*/ +"
    ensures ScanTokensCorrected(s) == Scanned([Token(Plus, "+", Absent, 2), Token(Eof, "", Absent, 2)], [])
  {
    StarNewlineIntendedRun(s);
    var t := Run(s, 0, 1, Intended);
    ScanOfFinishedRun(s, Intended, t);
    TokensOfOne(t.lexed[0]);
  }
}
