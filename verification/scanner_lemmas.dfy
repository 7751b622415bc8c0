/** What the scanner does with each class of first character, the reserved-word
    table, and properties of whole scans. */
module ScannerLemmas {

  import opened Wrappers
  import opened Tokens
  import opened Scanner

  // ---------------------------------------------------------------------------
  // The reserved-word table

  /** The table holds exactly the sixteen reserved kinds, each under its own
      spelling, so a word gets a reserved kind exactly when it is spelled as one. */
  lemma KeywordTableExact(k: TokenType, text: string)
    ensures k.Reserved() ==> k.Spelling() in Keywords && Keywords[k.Spelling()] == k
    ensures text in Keywords ==> Keywords[text].Reserved() && Keywords[text].Spelling() == text
    ensures KeywordKind(text) != Identifier <==> text in Keywords
  {
    if text in Keywords {
      KeywordSpelling(text);
    }
  }

  // ---------------------------------------------------------------------------
  // One lexeme, by its first character. Each lemma first fixes which
  // recogniser the first character selects, then states what that one does.

  /** A one-character punctuation mark is one token spelled as that character. */
  lemma PunctuationIsOneToken(src: string, start: nat, line: int, rule: CommentRule)
    requires start < |src| && SingleCharacter(src[start])
    ensures var s := ScanToken(src, start, line, rule);
      && s.Step? && s.next == start + 1 && s.line == line && s.diagnostic.None?
      && s.token.Some? && s.token.value.lexeme == [src[start]]
      && s.token.value.kind.Spelling() == [src[start]] && s.token.value.literal == Absent
      && s == Step(start + 1, line, Some(Token(PunctuationKind(src[start]), [src[start]], Absent, line)), None)
  {
    assert ScanToken(src, start, line, rule) == Punctuation(src, start, line);
  }

  /** `!`, `=`, `<` and `>` take a following `=` into one two-character token,
      and otherwise leave the next character unconsumed. */
  lemma OperatorMunch(src: string, start: nat, line: int, rule: CommentRule)
    requires start < |src| && src[start] in "!=<>"
    ensures var s := ScanToken(src, start, line, rule);
      && s.Step? && s.line == line && s.diagnostic.None? && s.token.Some?
      && s.token.value.kind.Spelling() == s.token.value.lexeme
      && (start + 1 < |src| && src[start + 1] == '=' ==>
            s.next == start + 2 && s.token.value.lexeme == [src[start], '='])
      && (!(start + 1 < |src| && src[start + 1] == '=') ==>
            s.next == start + 1 && s.token.value.lexeme == [src[start]])
  {
    assert ScanToken(src, start, line, rule) == Operator(src, start, line);
    OperatorSpan(src, start, line);
  }

  lemma OperatorSpan(src: string, start: nat, line: int)
    requires start < |src| && src[start] in "!=<>"
    ensures var s := Operator(src, start, line);
      && s.token.value.kind.Spelling() == s.token.value.lexeme
      && (start + 1 < |src| && src[start + 1] == '=' ==> s.token.value.lexeme == [src[start], '='])
      && (!(start + 1 < |src| && src[start + 1] == '=') ==> s.token.value.lexeme == [src[start]])
  {
    var s := Operator(src, start, line);
    assert s.token.value.lexeme == src[start..s.next];
  }

  /** A `/` followed by neither `/` nor `*` is the division operator. */
  lemma SlashAlone(src: string, start: nat, line: int, rule: CommentRule)
    requires start < |src| && src[start] == '/'
    requires Peek(src, start + 1) != '/' && Peek(src, start + 1) != '*'
    ensures ScanToken(src, start, line, rule) == Step(start + 1, line, Some(Token(Slash, "/", Absent, line)), None)
  {
    assert ScanToken(src, start, line, rule) == SlashToken(src, start, line, rule);
    assert src[start..start + 1] == "/";
  }

  /** A line comment emits nothing and stops before the newline that ends it. */
  lemma LineCommentSkipped(src: string, start: nat, end: nat, line: int, rule: CommentRule)
    requires start + 2 <= end <= |src| && src[start] == '/' && src[start + 1] == '/'
    requires forall k :: start + 2 <= k < end ==> src[k] != '\n'
    requires end == |src| || src[end] == '\n'
    ensures ScanToken(src, start, line, rule) == Step(end, line, None, None)
  {
    assert ScanToken(src, start, line, rule) == SlashToken(src, start, line, rule);
    assert SlashToken(src, start, line, rule) == LineComment(src, start, line);
    SkipWhileStopsAt(src, start + 2, NotNewline, end);
  }

  /** Blanks emit nothing; a newline emits nothing and adds one to the line. */
  lemma WhitespaceSkipped(src: string, start: nat, line: int, rule: CommentRule)
    requires start < |src| && src[start] in " \r\t\n"
    ensures ScanToken(src, start, line, rule)
      == Step(start + 1, if src[start] == '\n' then line + 1 else line, None, None)
  {
    assert ScanToken(src, start, line, rule) == Whitespace(src, start, line);
  }

  /** A character that begins no lexeme is skipped alone with one diagnostic. */
  lemma UnexpectedCharacterReported(src: string, start: nat, line: int, rule: CommentRule)
    requires start < |src|
    requires !SingleCharacter(src[start]) && src[start] !in "!=<>/ \r\t\n\""
    requires !IsDigit(src[start]) && !IsAlpha(src[start])
    ensures ScanToken(src, start, line, rule)
      == Step(start + 1, line, None, Some(Diagnostic(line, UnexpectedCharacter)))
  {
    assert ScanToken(src, start, line, rule) == Unexpected(src, start, line);
  }

  /** "Unexpected character." is reported exactly for a character outside
      every class the scanner dispatches on; every other first character is
      accepted silently or with a message of its own. */
  lemma UnexpectedExactlyUnclassified(src: string, start: nat, line: int, rule: CommentRule)
    requires start < |src|
    ensures var s := ScanToken(src, start, line, rule);
      (s.Step? && s.diagnostic == Some(Diagnostic(line, UnexpectedCharacter)))
      <==> (&& !SingleCharacter(src[start]) && src[start] !in "!=<>/ \r\t\n\""
            && !IsDigit(src[start]) && !IsAlpha(src[start]))
  {
    var c := src[start];
    if SingleCharacter(c) {
      assert ScanToken(src, start, line, rule) == Punctuation(src, start, line);
    } else if c in "!=<>" {
      assert ScanToken(src, start, line, rule) == Operator(src, start, line);
    } else if c == '/' {
      assert ScanToken(src, start, line, rule) == SlashToken(src, start, line, rule);
    } else if c in " \r\t\n" {
      assert ScanToken(src, start, line, rule) == Whitespace(src, start, line);
    } else if c == '"' {
      assert ScanToken(src, start, line, rule) == StringToken(src, start, line);
    } else if IsDigit(c) {
      assert ScanToken(src, start, line, rule) == NumberToken(src, start, line);
    } else if IsAlpha(c) {
      assert ScanToken(src, start, line, rule) == WordToken(src, start, line);
    } else {
      UnexpectedCharacterReported(src, start, line, rule);
    }
  }

  /** A string runs to the first double quote after the opening one; its
      literal drops the quotes and its line is that of the closing quote. */
  lemma StringTerminated(src: string, start: nat, close: nat, line: int, rule: CommentRule)
    requires start < close < |src| && src[start] == '"' && src[close] == '"'
    requires forall k :: start < k < close ==> src[k] != '"'
    ensures var l := line + Newlines(src[start..close]);
      ScanToken(src, start, line, rule)
        == Step(close + 1, l, Some(Token(String, src[start..close + 1], Str(src[start + 1..close]), l)), None)
  {
    assert ScanToken(src, start, line, rule) == StringToken(src, start, line);
    StringTokenTerminated(src, start, close, line);
  }

  lemma StringTokenTerminated(src: string, start: nat, close: nat, line: int)
    requires start < close < |src| && src[start] == '"' && src[close] == '"'
    requires forall k :: start < k < close ==> src[k] != '"'
    ensures var l := line + Newlines(src[start..close]);
      StringToken(src, start, line)
        == Step(close + 1, l, Some(Token(String, src[start..close + 1], Str(src[start + 1..close]), l)), None)
  {
    var s := StringToken(src, start, line);
    assert s.token.Some? && s.next == close + 1 by {
      assert src[close] == '"';
      assert s.token.Some? ==> src[s.next - 1] == '"';
    }
    NewlinesSplit(src, start, close, close + 1);
    NoNewlines(src[close..close + 1]);
  }


  /** A string with no closing quote emits nothing, consumes the rest of the
      source and reports one diagnostic on the last line reached. */
  lemma StringUnterminated(src: string, start: nat, line: int, rule: CommentRule)
    requires start < |src| && src[start] == '"'
    requires forall k :: start < k < |src| ==> src[k] != '"'
    ensures var l := line + Newlines(src[start..]);
      ScanToken(src, start, line, rule) == Step(|src|, l, None, Some(Diagnostic(l, UnterminatedString)))
  {
    assert ScanToken(src, start, line, rule) == StringToken(src, start, line);
    StringBodyStopsAt(src, start + 1, line, |src|);
    NewlinesSplit(src, start, start + 1, |src|);
    assert src[start..] == src[start..|src|];
  }

  /** A number takes the whole digit run at its start; it takes a point only
      when a digit follows it, and then the digit run after the point. */
  lemma NumberMunch(src: string, start: nat, whole: nat, line: int, rule: CommentRule)
    requires start < whole <= |src|
    requires forall k :: start <= k < whole ==> IsDigit(src[k])
    requires whole == |src| || !IsDigit(src[whole])
    ensures var s := ScanToken(src, start, line, rule);
      && s.Step? && s.line == line && s.diagnostic.None? && s.token.Some?
      && s.token.value.kind == Number
      && s.token.value.literal.Num? && s.token.value.literal.whole == src[start..whole]
      && (s.token.value.literal.fraction == [] <==> !(Peek(src, whole) == '.' && IsDigit(PeekNext(src, whole))))
      && (s.token.value.literal.fraction == [] ==>
            s == Step(whole, line, Some(Token(Number, src[start..whole], Num(src[start..whole], ""), line)), None))
  {
    assert ScanToken(src, start, line, rule) == NumberToken(src, start, line);
    SkipWhileStopsAt(src, start + 1, IsDigit, whole);
  }

  /** An identifier takes the whole run of identifier characters, and its kind
      is the reserved kind of exactly that text, or `Identifier`. */
  lemma WordMunch(src: string, start: nat, end: nat, line: int, rule: CommentRule)
    requires start < end <= |src| && IsAlpha(src[start])
    requires forall k :: start < k < end ==> IsAlphaNumeric(src[k])
    requires end == |src| || !IsAlphaNumeric(src[end])
    ensures ScanToken(src, start, line, rule)
      == Step(end, line, Some(Token(KeywordKind(src[start..end]), src[start..end], Absent, line)), None)
  {
    assert ScanToken(src, start, line, rule) == WordToken(src, start, line);
    var s := WordToken(src, start, line);
    assert s.next == end by {
      assert end == |src| || !IsAlphaNumeric(src[end]);
      assert s.next == |src| || !IsAlphaNumeric(src[s.next]);
    }
  }

  /** The block comment as written: it stops at the first position holding a
      `*` or followed by a `/`, counting the newlines before it, and then
      consumes two characters without counting newlines among them. */
  lemma BlockCommentAsWritten(src: string, start: nat, stop: nat, line: int)
    requires start + 2 <= stop <= |src| && src[start] == '/' && src[start + 1] == '*'
    requires forall k :: start + 2 <= k < stop ==> !ClosesComment(src, k, AsWritten)
    requires stop == |src| || ClosesComment(src, stop, AsWritten)
    ensures var s := ScanToken(src, start, line, AsWritten);
      var l := line + Newlines(src[start + 2..stop]);
      && (stop == |src| ==> s == Step(|src|, l, None, Some(Diagnostic(l, UnterminatedComment))))
      && (stop == |src| - 1 ==> s == Fault(|src|))
      && (stop + 1 < |src| ==> s == Step(stop + 2, l, None, None))
  {
    assert ScanToken(src, start, line, AsWritten) == SlashToken(src, start, line, AsWritten);
    assert SlashToken(src, start, line, AsWritten) == BlockComment(src, start, line, AsWritten);
    CommentBodyStopsAt(src, start + 2, line, AsWritten, stop);
  }

  /** The block comment with the intended test: it runs to the first `*`
      immediately followed by `/`, consumes both, and counts every newline in
      it; without such a pair it runs to the end of the source and reports one
      diagnostic. */
  lemma BlockCommentIntended(src: string, start: nat, stop: nat, line: int)
    requires start + 2 <= stop <= |src| && src[start] == '/' && src[start + 1] == '*'
    requires forall k :: start + 2 <= k < stop ==> !(src[k] == '*' && k + 1 < |src| && src[k + 1] == '/')
    requires stop == |src| || (stop + 1 < |src| && src[stop] == '*' && src[stop + 1] == '/')
    ensures var s := ScanToken(src, start, line, Intended);
      && (stop == |src| ==>
            var l := line + Newlines(src[start..]);
            s == Step(|src|, l, None, Some(Diagnostic(l, UnterminatedComment))))
      && (stop < |src| ==> s == Step(stop + 2, line + Newlines(src[start..stop + 2]), None, None))
  {
    assert ScanToken(src, start, line, Intended) == SlashToken(src, start, line, Intended);
    assert SlashToken(src, start, line, Intended) == BlockComment(src, start, line, Intended);
    CommentBodyStopsAt(src, start + 2, line, Intended, stop);
    assert src[start..] == src[start..|src|];
  }

  // ---------------------------------------------------------------------------
  // Whole scans

  /** A source of blanks and newlines scans to the end-of-input token alone, on
      the line after the last newline. */
  lemma {:induction false} BlankRun(src: string, current: nat, line: int, rule: CommentRule)
    requires current <= |src|
    requires forall k :: current <= k < |src| ==> src[k] in " \r\t\n"
    ensures Run(src, current, line, rule) == Finished([], [], line + Newlines(src[current..]))
    decreases |src| - current
  {
    if current < |src| {
      WhitespaceSkipped(src, current, line, rule);
      var l := if src[current] == '\n' then line + 1 else line;
      BlankRun(src, current + 1, l, rule);
      assert src[current..] == [src[current]] + src[current + 1..];
      NewlinesAppend([src[current]], src[current + 1..]);
    } else {
      assert src[current..] == [];
    }
  }

  /** One step of the scan loop: the lexeme at `current`, then the rest of the scan. */
  lemma RunStep(src: string, current: nat, line: int, rule: CommentRule, s: Step, rest: Trace)
    requires current < |src| && s == ScanToken(src, current, line, rule) && s.Step?
    requires rest == Run(src, s.next, s.line, rule) && rest.Finished?
    ensures Run(src, current, line, rule) == Finished(
      (if s.token.Some? then [Located(s.token.value, current, s.next)] else []) + rest.lexed,
      ToSeq(s.diagnostic) + rest.diagnostics,
      rest.line)
  {
  }

  /** The scan loop stops at the end of the source. */
  lemma RunAtEnd(src: string, line: int, rule: CommentRule)
    ensures Run(src, |src|, line, rule) == Finished([], [], line)
  {
  }

  /** The tokens of a single located token. */
  lemma TokensOfOne(x: Located)
    ensures TokensOf([x]) == [x.token]
  {
  }

  /** The tokens of three located tokens. */
  lemma TokensOfThree(x: Located, y: Located, z: Located)
    ensures TokensOf([x, y, z]) == [x.token, y.token, z.token]
  {
  }

  /** A scan loop that stops at a failed read makes the whole scan throw. */
  lemma RunFault(src: string, current: nat, line: int, rule: CommentRule)
    requires current < |src| && ScanToken(src, current, line, rule).Fault?
    ensures Run(src, current, line, rule) == Aborted(ScanToken(src, current, line, rule).index, [])
  {
  }

  lemma ScanOfAbortedRun(source: string, rule: CommentRule, index: nat, ds: seq<Diagnostic>)
    requires Run(source, 0, 1, rule) == Aborted(index, ds)
    ensures ScanWith(source, rule) == Threw(index, ds)
  {
  }

  /** A finished scan's tokens are those it lexed followed by the end-of-input token. */
  lemma ScanOfFinishedRun(source: string, rule: CommentRule, t: Trace)
    requires t.Finished? && Run(source, 0, 1, rule) == t
    ensures ScanWith(source, rule)
      == Scanned(TokensOf(t.lexed) + [Token(Eof, "", Absent, t.line)], t.diagnostics)
  {
  }

  /** Every character of `s` is a blank or a newline. */
  predicate Blank(s: string)
  {
    forall k :: 0 <= k < |s| ==> s[k] in " \r\t\n"
  }

  lemma BlankRunFromStart(source: string, rule: CommentRule)
    requires Blank(source)
    ensures Run(source, 0, 1, rule) == Finished([], [], 1 + Newlines(source))
  {
    assert source[0..] == source;
    BlankRun(source, 0, 1, rule);
  }

  lemma ScanOfEmptyRun(source: string, rule: CommentRule, line: int)
    requires Run(source, 0, 1, rule) == Finished([], [], line)
    ensures ScanWith(source, rule) == Scanned([Token(Eof, "", Absent, line)], [])
  {
    ScanOfFinishedRun(source, rule, Finished([], [], line));
    assert TokensOf([]) == [];
  }

  /** A source of blanks and newlines alone scans, under either comment rule,
      to the end-of-input token on the line after its last newline. */
  lemma BlankSource(source: string, rule: CommentRule)
    requires Blank(source)
    ensures ScanWith(source, rule) == Scanned([Token(Eof, "", Absent, 1 + Newlines(source))], [])
  {
    BlankRunFromStart(source, rule);
    ScanOfEmptyRun(source, rule, 1 + Newlines(source));
  }

  /** The scanner as written can fail only on a source that ends in `*`. */
  lemma ThrowsOnlyAfterTrailingStar(source: string)
    requires |source| == 0 || source[|source| - 1] != '*'
    ensures ScanTokens(source).Scanned?
  {
  }

  /** Every token before the end-of-input token is the exact source text of
      its span; the spans are in source order and do not overlap. */
  lemma TokensAreSourceSpans(source: string, rule: CommentRule)
    requires ScanWith(source, rule).Scanned?
    ensures var ts := ScanWith(source, rule).tokens;
      var xs := Run(source, 0, 1, rule).lexed;
      && |xs| == |ts| - 1
      && (forall k :: 0 <= k < |xs| ==>
            xs[k].start < xs[k].end <= |source| && ts[k].lexeme == source[xs[k].start..xs[k].end])
      && (forall k :: 0 <= k < |xs| - 1 ==> xs[k].end <= xs[k + 1].start)
  {
    RunLexesWell(source, 0, 1, rule);
    RunLexesInOrder(source, 0, 1, rule);
    var ts := ScanWith(source, rule).tokens;
    assert forall k :: 0 <= k < |ts| - 1 ==> ts[k] == ts[..|ts| - 1][k];
  }
}
