/** The lexical scanner: a single forward pass of a cursor over the source
    text that produces the token list, ending in one end-of-input token.

    The scanner state is the source, the cursor `current` (the next character
    to examine), the `start` of the lexeme being recognised and the `line`
    counter. Each operation here takes that state as arguments and returns the
    new state instead of updating fields. Diagnostics are returned as
    `Diagnostic` values rather than reported to a sink.

    The block-comment scanner is parameterised by a `CommentRule`. Under
    `AsWritten` it stops at a `*` or before a `/`, whichever comes first, and
    then consumes two characters. When that second character would lie past
    the end of the source the outcome is `Threw`. Under `Intended` it stops
    only at `*` immediately followed by `/`. `ScanTokens` is the scanner as
    written; `ScanTokensCorrected` uses the intended closing test. */
module Scanner {

  import opened Wrappers
  import opened Tokens

  /** A message reported, with the line it was reported on, without stopping the scan. */
  datatype Diagnostic = Diagnostic(line: int, message: string)

  const UnexpectedCharacter: string := "Unexpected character."
  const UnterminatedString: string := "Unterminated string."
  const UnterminatedComment: string := "Unterminated comment."

  /** Which test ends a block comment. */
  datatype CommentRule = AsWritten | Intended

  /** The result of recognising one lexeme: the new cursor and line, the token
      emitted (if any) and the diagnostic reported (if any); or the index past
      the end of the source that a character read was attempted at. */
  datatype Step =
    | Step(next: nat, line: int, token: Option<Token>, diagnostic: Option<Diagnostic>)
    | Fault(index: nat)

  /** An emitted token together with the span `[start, end)` of the source it was cut from. */
  datatype Located = Located(token: Token, start: nat, end: nat)

  /** The located tokens and diagnostics of a scan from some position on, with
      the line reached at the end; or a failed character read. */
  datatype Trace =
    | Finished(lexed: seq<Located>, diagnostics: seq<Diagnostic>, line: int)
    | Aborted(index: nat, diagnostics: seq<Diagnostic>)

  /** The result of a whole scan: the token list with the diagnostics reported,
      or the index of the failed character read with the diagnostics reported
      before it. */
  datatype Outcome =
    | Scanned(tokens: seq<Token>, diagnostics: seq<Diagnostic>)
    | Threw(index: nat, diagnostics: seq<Diagnostic>)

  // ---------------------------------------------------------------------------
  // The reserved-word table

  /** The reserved words and the kind each one is scanned as. */
  const Keywords: map<string, TokenType> := map[
    "and" := And, "class" := Class, "else" := Else, "false" := False,
    "for" := For, "fun" := Fun, "if" := If, "nil" := Nil,
    "or" := Or, "print" := Print, "return" := Return, "super" := Super,
    "this" := This, "true" := True, "var" := Var, "while" := While
  ]

  /** The kind of an identifier-shaped lexeme: a reserved kind exactly when
      the text is that kind's own spelling, and `Identifier` otherwise. */
  function KeywordKind(text: string): (k: TokenType)
    ensures k == Identifier || k.Reserved()
    ensures k.Reserved() <==> text in Keywords
    ensures k.Reserved() ==> k.Spelling() == text
    ensures text in Keywords ==> k == Keywords[text]
  {
    if text in Keywords then
      KeywordSpelling(text);
      Keywords[text]
    else Identifier
  }

  // ---------------------------------------------------------------------------
  // Character classes

  predicate IsDigit(c: char) {
    '0' <= c <= '9'
  }

  /** An ASCII letter or an underscore: a character that can start an identifier. */
  predicate IsAlpha(c: char) {
    ('a' <= c <= 'z') || ('A' <= c <= 'Z') || c == '_'
  }

  /** A character that can continue an identifier. */
  predicate IsAlphaNumeric(c: char) {
    IsAlpha(c) || IsDigit(c)
  }

  // ---------------------------------------------------------------------------
  // Cursor primitives

  /** The character under the cursor, or NUL at the end of the source. */
  function Peek(src: string, current: nat): char {
    if current >= |src| then '\0' else src[current]
  }

  /** The character after the one under the cursor, or NUL past the end. */
  function PeekNext(src: string, current: nat): char {
    if current + 1 >= |src| then '\0' else src[current + 1]
  }

  /** The cursor after trying to consume `expected`: it moves on by one exactly
      when the character under it is `expected`, and otherwise stays put. */
  function Match(src: string, current: nat, expected: char): (next: nat)
    ensures next == current || next == current + 1
    ensures next == current + 1 <==> current < |src| && src[current] == expected
  {
    if current >= |src| then current
    else if src[current] != expected then current
    else current + 1
  }

  /** The cursor after consuming characters while `keep` holds of them: the end
      of the longest run of `keep` characters starting at `current`. */
  function SkipWhile(src: string, current: nat, keep: char -> bool): (next: nat)
    requires current <= |src|
    ensures current <= next <= |src|
    ensures forall k :: current <= k < next ==> keep(src[k])
    ensures next == |src| || !keep(src[next])
    decreases |src| - current
  {
    if current < |src| && keep(src[current]) then SkipWhile(src, current + 1, keep) else current
  }

  /** `SkipWhile` stops exactly at the end of the run of `keep` characters.
      This follows from `SkipWhile`'s own ensures. */
  lemma SkipWhileStopsAt(src: string, current: nat, keep: char -> bool, end: nat)
    requires current <= end <= |src|
    requires forall k :: current <= k < end ==> keep(src[k])
    requires end == |src| || !keep(src[end])
    ensures SkipWhile(src, current, keep) == end
  {
  }

  /** Counts the newline characters of `s`. */
  function Newlines(s: string): nat {
    if s == [] then 0 else (if s[0] == '\n' then 1 else 0) + Newlines(s[1..])
  }

  predicate NotNewline(c: char) {
    c != '\n'
  }

  /** A cursor position together with the line counter at that position. */
  datatype Cursor = Cursor(next: nat, line: int)

  /** The cursor and line after the body of a string literal: characters are
      consumed up to the closing double quote or the end of the source, and
      each newline among them adds one to the line. */
  function StringBody(src: string, current: nat, line: int): (r: Cursor)
    requires current <= |src|
    ensures current <= r.next <= |src|
    ensures r.next == |src| || src[r.next] == '\"'
    ensures forall k :: current <= k < r.next ==> src[k] != '\"'
    ensures r.line == line + Newlines(src[current..r.next])
    decreases |src| - current
  {
    if Peek(src, current) == '\"' || current >= |src| then Cursor(current, line)
    else
      var r := StringBody(src, current + 1, if Peek(src, current) == '\n' then line + 1 else line);
      assert src[current..r.next][1..] == src[current + 1..r.next];
      r
  }

  /** `StringBody` stops exactly at the first double quote. This follows
      from `StringBody`'s own ensures. */
  lemma StringBodyStopsAt(src: string, current: nat, line: int, close: nat)
    requires current <= close <= |src|
    requires forall k :: current <= k < close ==> src[k] != '\"'
    requires close == |src| || src[close] == '\"'
    ensures StringBody(src, current, line).next == close
  {
  }

  // ---------------------------------------------------------------------------
  // What a well-formed emitted token looks like

  predicate AllDigits(s: string) {
    forall k :: 0 <= k < |s| ==> IsDigit(s[k])
  }

  /** A number token: digits, optionally a point and more digits, recorded
      exactly in the literal; neither a further digit nor a point followed by a
      digit comes after an integer-only number. */
  predicate NumberShaped(src: string, x: Located)
    requires x.end <= |src|
  {
    match x.token.literal
    case Num(whole, fraction) =>
      && |whole| > 0 && AllDigits(whole) && AllDigits(fraction)
      && x.token.lexeme == (if fraction == [] then whole else whole + "." + fraction)
      && (x.end == |src| || !IsDigit(src[x.end]))
      && (fraction == [] ==> !(Peek(src, x.end) == '.' && IsDigit(PeekNext(src, x.end))))
    case _ => false
  }

  /** A string token: text between two double quotes with no double quote
      inside, whose literal is that text with the quotes removed. */
  predicate StringShaped(t: Token) {
    && |t.lexeme| >= 2
    && t.lexeme[0] == '\"' && t.lexeme[|t.lexeme| - 1] == '\"'
    && '\"' !in t.lexeme[1..|t.lexeme| - 1]
    && t.literal == Str(t.lexeme[1..|t.lexeme| - 1])
  }

  /** An identifier or reserved word: a letter or underscore then letters,
      digits and underscores, not followed by another such character, with
      the kind the reserved-word table gives that exact text. */
  predicate WordShaped(src: string, x: Located)
    requires x.end <= |src|
  {
    && |x.token.lexeme| > 0
    && IsAlpha(x.token.lexeme[0])
    && (forall k :: 0 <= k < |x.token.lexeme| ==> IsAlphaNumeric(x.token.lexeme[k]))
    && (x.end == |src| || !IsAlphaNumeric(src[x.end]))
    && x.token.kind == KeywordKind(x.token.lexeme)
    && x.token.literal == Absent
  }

  /** Everything an emitted token promises about the source span it came from. */
  predicate WellLexed(src: string, x: Located) {
    && x.start < x.end <= |src|
    && x.token.lexeme == src[x.start..x.end]
    && x.token.kind != Eof
    && (x.token.kind.FixedSpelling() ==> x.token.lexeme == x.token.kind.Spelling() && x.token.literal == Absent)
    && (x.token.kind == Number ==> NumberShaped(src, x))
    && (x.token.kind == String ==> StringShaped(x.token))
    && (x.token.kind == Identifier || x.token.kind.Reserved() ==> WordShaped(src, x))
    && (x.token.kind in {Bang, Equal, Less, Greater} ==> Peek(src, x.end) != '=')
    && (x.token.kind == Slash ==> Peek(src, x.end) != '/' && Peek(src, x.end) != '*')
  }

  // ---------------------------------------------------------------------------
  // Recognising one lexeme

  /** Emits a token of `kind` for the span `[start, next)`. */
  function Emit(src: string, start: nat, next: nat, kind: TokenType, literal: Literal, line: int): (s: Step)
    requires start <= next <= |src|
  {
    Step(next, line, Some(Token(kind, src[start..next], literal, line)), None)
  }

  lemma {:induction false} NewlinesAppend(a: string, b: string)
    ensures Newlines(a + b) == Newlines(a) + Newlines(b)
  {
    if a == [] {
      assert a + b == b;
    } else {
      assert (a + b)[0] == a[0];
      assert (a + b)[1..] == a[1..] + b;
      NewlinesAppend(a[1..], b);
    }
  }

  lemma NewlinesSplit(s: string, i: nat, j: nat, k: nat)
    requires i <= j <= k <= |s|
    ensures Newlines(s[i..k]) == Newlines(s[i..j]) + Newlines(s[j..k])
  {
    assert s[i..k] == s[i..j] + s[j..k];
    NewlinesAppend(s[i..j], s[j..k]);
  }

  lemma {:induction false} NoNewlines(s: string)
    requires forall k :: 0 <= k < |s| ==> s[k] != '\n'
    ensures Newlines(s) == 0
  {
    if s != [] {
      NoNewlines(s[1..]);
    }
  }

  /** The kind an operator character is scanned as on its own. */
  function OneCharKind(c: char): (k: TokenType)
    requires c in "!=<>"
    ensures k in {Bang, Equal, Less, Greater}
    ensures k.Spelling() == [c]
  {
    match c
    case '!' => Bang
    case '=' => Equal
    case '<' => Less
    case _ => Greater
  }

  /** The kind an operator character is scanned as when `=` follows it. */
  function TwoCharKind(c: char): (k: TokenType)
    requires c in "!=<>"
    ensures k.Spelling() == [c, '=']
  {
    match c
    case '!' => BangEqual
    case '=' => EqualEqual
    case '<' => LessEqual
    case _ => GreaterEqual
  }

  /** `!`, `=`, `<` and `>`: the two-character kind when `=` follows, the
      one-character kind otherwise. */
  function Operator(src: string, start: nat, line: int): (s: Step)
    requires start < |src| && src[start] in "!=<>"
    ensures s.Step? && s.line == line && s.diagnostic.None? && s.token.Some?
    ensures s.next == start + 2 <==> Peek(src, start + 1) == '='
    ensures s.next == start + 1 <==> Peek(src, start + 1) != '='
    ensures s.token.value.kind == (if s.next == start + 2 then TwoCharKind(src[start]) else OneCharKind(src[start]))
    ensures WellLexed(src, Located(s.token.value, start, s.next)) && s.token.value.line == line
  {
    var next := Match(src, start + 1, '=');
    var kind := if next == start + 2 then TwoCharKind(src[start]) else OneCharKind(src[start]);
    var s := Emit(src, start, next, kind, Absent, line);
    assert s.token.value.lexeme == s.token.value.kind.Spelling();
    s
  }

  /** A number: a digit run, then a point and a second digit run only when a
      digit follows the point. */
  function NumberToken(src: string, start: nat, line: int): (s: Step)
    requires start < |src| && IsDigit(src[start])
    ensures s.Step? && s.line == line && s.diagnostic.None? && s.token.Some?
    ensures s.token.value.kind == Number && s.token.value.line == line
    ensures WellLexed(src, Located(s.token.value, start, s.next))
    ensures Newlines(src[start..s.next]) == 0
  {
    var whole := SkipWhile(src, start + 1, IsDigit);
    assert AllDigits(src[start..whole]);
    if Peek(src, whole) == '.' && IsDigit(PeekNext(src, whole)) then
      Fractional(src, start, whole, line)
    else
      var s := Emit(src, start, whole, Number, Num(src[start..whole], ""), line);
      NoNewlines(src[start..whole]);
      assert NumberShaped(src, Located(s.token.value, start, s.next));
      s
  }

  /** A number whose integer digits end at `whole`, where a point and a digit follow. */
  function Fractional(src: string, start: nat, whole: nat, line: int): (s: Step)
    requires start < whole && whole + 1 < |src| && src[whole] == '.' && IsDigit(src[whole + 1])
    requires AllDigits(src[start..whole])
    ensures s.Step? && s.line == line && s.diagnostic.None? && s.token.Some?
    ensures s.token.value.kind == Number && s.token.value.line == line
    ensures WellLexed(src, Located(s.token.value, start, s.next))
    ensures Newlines(src[start..s.next]) == 0
  {
    var end := SkipWhile(src, whole + 1, IsDigit);
    assert AllDigits(src[whole + 1..end]);
    var s := Emit(src, start, end, Number, Num(src[start..whole], src[whole + 1..end]), line);
    assert src[start..end] == src[start..whole] + "." + src[whole + 1..end];
    NoNewlines(src[start..end]);
    assert NumberShaped(src, Located(s.token.value, start, s.next));
    s
  }

  /** An identifier or reserved word: the longest identifier-shaped run, looked up whole. */
  function WordToken(src: string, start: nat, line: int): (s: Step)
    requires start < |src| && IsAlpha(src[start])
    ensures s.Step? && start < s.next <= |src| && s.line == line && s.diagnostic.None? && s.token.Some?
    ensures forall k :: start < k < s.next ==> IsAlphaNumeric(src[k])
    ensures s.next == |src| || !IsAlphaNumeric(src[s.next])
    ensures s.token.value == Token(KeywordKind(src[start..s.next]), src[start..s.next], Absent, line)
  {
    var end := SkipWhile(src, start + 1, IsAlphaNumeric);
    Emit(src, start, end, KeywordKind(src[start..end]), Absent, line)
  }


  /** A string literal after its opening quote: everything up to the closing
      quote, counting newlines; an unterminated string emits nothing and
      reports one diagnostic. */
  function StringToken(src: string, start: nat, line: int): (s: Step)
    requires start < |src| && src[start] == '\"'
    ensures s.Step? && start < s.next <= |src|
    ensures s.line == line + Newlines(src[start..s.next])
    ensures s.token.Some? <==> s.diagnostic.None?
    ensures s.token.Some? ==>
      && start + 1 < s.next && src[s.next - 1] == '\"'
      && (forall k :: start < k < s.next - 1 ==> src[k] != '\"')
      && s.token.value == Token(String, src[start..s.next], Str(src[start + 1..s.next - 1]), s.line)
    ensures s.diagnostic.Some? ==>
      && s.next == |src| && (forall k :: start < k < |src| ==> src[k] != '\"')
      && s.diagnostic.value == Diagnostic(s.line, UnterminatedString)
  {
    var r := StringBody(src, start + 1, line);
    var close := r.next;
    NewlinesSplit(src, start, start + 1, close);
    NoNewlines(src[start..start + 1]);
    if close >= |src| then
      Step(close, r.line, None, Some(Diagnostic(r.line, UnterminatedString)))
    else
      NewlinesSplit(src, start, close, close + 1);
      NoNewlines(src[close..close + 1]);
      Emit(src, start, close + 1, String, Str(src[start + 1..close]), r.line)
  }


  /** The span from an opening double quote to the first closing one is a
      string token whose literal is the text in between. */
  lemma QuotedSpan(src: string, start: nat, close: nat, line: int)
    requires start < close < |src| && src[start] == '\"' && src[close] == '\"'
    requires forall k :: start < k < close ==> src[k] != '\"'
    ensures StringShaped(Token(String, src[start..close + 1], Str(src[start + 1..close]), line))
  {
    var lexeme := src[start..close + 1];
    var inner := lexeme[1..|lexeme| - 1];
    assert forall k :: 0 <= k < |inner| ==> inner[k] == src[start + 1 + k];
    assert inner == src[start + 1..close];
    assert forall k :: 0 <= k < |inner| ==> inner[k] != '\"';
  }

  /** Whether the block-comment loop stops with the cursor at `k`. */
  predicate ClosesComment(src: string, k: nat, rule: CommentRule) {
    match rule
    case AsWritten => Peek(src, k) == '*' || PeekNext(src, k) == '/'
    case Intended => Peek(src, k) == '*' && PeekNext(src, k) == '/'
  }

  /** The cursor and line after the body of a block comment: characters are
      consumed until the closing test holds at the cursor or the source is
      exhausted, and each newline among them adds one to the line. */
  function CommentBody(src: string, current: nat, line: int, rule: CommentRule): (r: Cursor)
    requires current <= |src|
    ensures current <= r.next <= |src|
    ensures r.next == |src| || ClosesComment(src, r.next, rule)
    ensures forall k :: current <= k < r.next ==> !ClosesComment(src, k, rule)
    ensures r.line == line + Newlines(src[current..r.next])
    decreases |src| - current
  {
    if ClosesComment(src, current, rule) || current >= |src| then Cursor(current, line)
    else
      var r := CommentBody(src, current + 1, if Peek(src, current) == '\n' then line + 1 else line, rule);
      assert src[current..r.next][1..] == src[current + 1..r.next];
      r
  }

  /** The closing test as written stops the comment loop no later than the
      intended one: every `*` followed by `/` also passes the test as written. */
  lemma AsWrittenStopsNoLater(src: string, current: nat, line: int)
    requires current <= |src|
    ensures CommentBody(src, current, line, AsWritten).next <= CommentBody(src, current, line, Intended).next
  {
    var j := CommentBody(src, current, line, Intended).next;
    assert j < |src| ==> ClosesComment(src, j, AsWritten);
  }

  /** `CommentBody` stops exactly at the first position where the closing
      test holds. This follows from `CommentBody`'s own ensures. */
  lemma CommentBodyStopsAt(src: string, current: nat, line: int, rule: CommentRule, stop: nat)
    requires current <= stop <= |src|
    requires forall k :: current <= k < stop ==> !ClosesComment(src, k, rule)
    requires stop == |src| || ClosesComment(src, stop, rule)
    ensures CommentBody(src, current, line, rule).next == stop
  {
  }

  /** A block comment after its opening slash and star: advance, counting newlines, until
      the closing test holds; then consume two more characters, which the
      loop does not count newlines in. Emits no token; an exhausted source
      reports one diagnostic; a second closing character past the end is a
      failed read. */
  function BlockComment(src: string, start: nat, line: int, rule: CommentRule): (s: Step)
    requires start + 2 <= |src| && src[start] == '/' && src[start + 1] == '*'
    ensures s.Step? ==> start < s.next <= |src| && line <= s.line <= line + Newlines(src[start..s.next])
    ensures s.Step? && rule == Intended ==> s.line == line + Newlines(src[start..s.next])
    ensures s.Step? ==> s.token.None?
    ensures s.Step? && s.diagnostic.Some? ==>
      s.next == |src| && s.diagnostic.value == Diagnostic(s.line, UnterminatedComment)
    ensures (s.Step? && s.diagnostic.Some?) <==> forall k :: start + 2 <= k < |src| ==> !ClosesComment(src, k, rule)
    ensures s.Fault? ==> rule == AsWritten && s.index == |src| && src[|src| - 1] == '*'
    ensures s.Fault? ==> forall k :: start + 2 <= k < |src| - 1 ==> !ClosesComment(src, k, rule)
    ensures (&& rule == AsWritten && start + 3 <= |src| && src[|src| - 1] == '*'
             && forall k :: start + 2 <= k < |src| - 1 ==> !ClosesComment(src, k, rule))
            ==> s.Fault?
  {
    var r := CommentBody(src, start + 2, line, rule);
    var j := r.next;
    var l := r.line;
    assert start + 3 <= |src| && src[|src| - 1] == '*' ==> ClosesComment(src, |src| - 1, AsWritten);
    NewlinesSplit(src, start, start + 2, j);
    assert Newlines(src[start..start + 2]) == 0 by {
      NoNewlines(src[start..start + 2]);
    }
    if j >= |src| then
      Step(j, l, None, Some(Diagnostic(l, UnterminatedComment)))
    else if j + 1 >= |src| then
      // the second closing advance reads the character at the source's length
      Fault(j + 1)
    else
      NewlinesSplit(src, start, j, j + 2);
      assert rule == Intended ==> Newlines(src[j..j + 2]) == 0 by {
        if rule == Intended {
          NoNewlines(src[j..j + 2]);
        }
      }
      Step(j + 2, l, None, None)
  }

  /** A line comment after its two slashes: everything up to the next
      newline, which is left for the scan loop to count. */
  function LineComment(src: string, start: nat, line: int): (s: Step)
    requires start + 2 <= |src| && src[start] == '/' && src[start + 1] == '/'
    ensures s.Step? && start + 2 <= s.next <= |src| && s.line == line && s.token.None? && s.diagnostic.None?
    ensures forall k :: start + 2 <= k < s.next ==> src[k] != '\n'
    ensures s.next == |src| || src[s.next] == '\n'
  {
    var end := SkipWhile(src, start + 2, NotNewline);
    assert forall k :: start + 2 <= k < end ==> NotNewline(src[k]);
    Step(end, line, None, None)
  }

  /** A `/`: a line comment, a block comment or the division operator. */
  function SlashToken(src: string, start: nat, line: int, rule: CommentRule): (s: Step)
    requires start < |src| && src[start] == '/'
    ensures SoundStep(src, start, line, rule, s)
    ensures s.Step? && s.diagnostic.Some? ==>
      s.next == |src| && s.diagnostic.value.message == UnterminatedComment
  {
    var afterSlash := Match(src, start + 1, '/');
    if afterSlash == start + 2 then
      LineCommentSound(src, start, line, rule);
      LineComment(src, start, line)
    else
      var afterStar := Match(src, start + 1, '*');
      if afterStar == start + 2 then
        BlockComment(src, start, line, rule)
      else
        var s := Emit(src, start, start + 1, Slash, Absent, line);
        NoNewlines(src[start..start + 1]);
        s
  }

  /** Punctuation that is always one character. */
  predicate SingleCharacter(c: char) {
    c in "(){},.-+;*"
  }

  /** What recognising one lexeme at `start` promises: the cursor moves
      forward within the source; the line grows by at most the newlines
      consumed, and by exactly those under the intended comment rule; an
      emitted token is well lexed from its span, carries the line reached and
      comes without a diagnostic; a diagnostic carries the line reached; and
      only the comment loop as written can fail, on a source ending in `*`. */
  predicate SoundStep(src: string, start: nat, line: int, rule: CommentRule, s: Step)
    requires start < |src|
  {
    && (s.Step? ==>
          && start < s.next <= |src|
          && line <= s.line <= line + Newlines(src[start..s.next])
          && (rule == Intended ==> s.line == line + Newlines(src[start..s.next]))
          && (s.token.Some? ==>
                && s.diagnostic.None? && s.token.value.line == s.line
                && WellLexed(src, Located(s.token.value, start, s.next)))
          && (s.diagnostic.Some? ==> s.diagnostic.value.line == s.line))
    && (s.Fault? ==> rule == AsWritten && s.index == |src| && src[|src| - 1] == '*')
  }

  /** Recognises the one lexeme starting at `start`, dispatching on its first character. */
  function ScanToken(src: string, start: nat, line: int, rule: CommentRule): (s: Step)
    requires start < |src|
    ensures SoundStep(src, start, line, rule, s)
  {
    var c := src[start];
    match c
    case '(' | ')' | '{' | '}' | ',' | '.' | '-' | '+' | ';' | '*' =>
      PunctuationSound(src, start, line, rule);
      Punctuation(src, start, line)
    case '!' | '=' | '<' | '>' =>
      OperatorSound(src, start, line, rule);
      Operator(src, start, line)
    case '/' =>
      SlashToken(src, start, line, rule)
    case ' ' | '\r' | '\t' | '\n' =>
      WhitespaceSound(src, start, line, rule);
      Whitespace(src, start, line)
    case '\"' =>
      StringSound(src, start, line, rule);
      StringToken(src, start, line)
    case _ =>
      if IsDigit(c) then
        NumberSound(src, start, line, rule);
        NumberToken(src, start, line)
      else if IsAlpha(c) then
        WordSound(src, start, line, rule);
        WordToken(src, start, line)
      else
        UnexpectedSound(src, start, line, rule);
        Unexpected(src, start, line)
  }

  /** A blank emits nothing; a newline emits nothing and moves to the next line. */
  function Whitespace(src: string, start: nat, line: int): (s: Step)
    requires start < |src| && src[start] in " \r\t\n"
    ensures s.Step? && s.next == start + 1 && s.token.None? && s.diagnostic.None?
    ensures s.line == line + Newlines(src[start..start + 1])
  {
    var w := src[start..start + 1];
    assert w[0] == src[start] && w[1..] == [];
    Step(start + 1, if src[start] == '\n' then line + 1 else line, None, None)
  }

  /** A character that begins no lexeme: skipped, with one diagnostic. */
  function Unexpected(src: string, start: nat, line: int): (s: Step)
    requires start < |src| && src[start] != '\n'
    ensures s.Step? && s.next == start + 1 && s.token.None?
    ensures s.diagnostic == Some(Diagnostic(line, UnexpectedCharacter))
    ensures s.line == line + Newlines(src[start..start + 1])
  {
    NoNewlines(src[start..start + 1]);
    Step(start + 1, line, None, Some(Diagnostic(line, UnexpectedCharacter)))
  }

  /** The kind of a one-character punctuation mark. */
  function PunctuationKind(c: char): (k: TokenType)
    requires SingleCharacter(c)
    ensures k.Spelling() == [c] && k.FixedSpelling() && !k.Reserved()
    ensures k !in {Bang, Equal, Less, Greater, Slash}
  {
    match c
    case '(' => LeftParen
    case ')' => RightParen
    case '{' => LeftBrace
    case '}' => RightBrace
    case ',' => Comma
    case '.' => Dot
    case '-' => Minus
    case '+' => Plus
    case ';' => Semicolon
    case _ => Star
  }

  /** A one-character punctuation token. */
  function Punctuation(src: string, start: nat, line: int): (s: Step)
    requires start < |src| && SingleCharacter(src[start])
    ensures s.Step? && s.next == start + 1 && s.line == line && s.diagnostic.None? && s.token.Some?
    ensures s.token.value.lexeme == src[start..start + 1] && s.token.value.lexeme == s.token.value.kind.Spelling()
    ensures s.token.value.kind == PunctuationKind(src[start])
    ensures s.token.value.kind.FixedSpelling() && s.token.value.literal == Absent && s.token.value.line == line
    ensures s.line == line + Newlines(src[start..start + 1])
  {
    var lexeme := src[start..start + 1];
    assert lexeme == [src[start]];
    NoNewlines(lexeme);
    Emit(src, start, start + 1, PunctuationKind(src[start]), Absent, line)
  }

  // Each recogniser keeps the promise of `SoundStep`.

  lemma PunctuationSound(src: string, start: nat, line: int, rule: CommentRule)
    requires start < |src| && SingleCharacter(src[start])
    ensures SoundStep(src, start, line, rule, Punctuation(src, start, line))
  {
    NoNewlines(src[start..start + 1]);
    assert src[start..start + 1] == [src[start]];
  }

  lemma OperatorSound(src: string, start: nat, line: int, rule: CommentRule)
    requires start < |src| && src[start] in "!=<>"
    ensures SoundStep(src, start, line, rule, Operator(src, start, line))
  {
    var s := Operator(src, start, line);
    assert src[start..s.next] == s.token.value.lexeme;
    NoNewlines(src[start..s.next]);
  }

  lemma WhitespaceSound(src: string, start: nat, line: int, rule: CommentRule)
    requires start < |src| && src[start] in " \r\t\n"
    ensures SoundStep(src, start, line, rule, Whitespace(src, start, line))
  {
    var w := src[start..start + 1];
    assert w[0] == src[start] && w[1..] == [];
  }

  lemma UnexpectedSound(src: string, start: nat, line: int, rule: CommentRule)
    requires start < |src| && src[start] != '\n'
    ensures SoundStep(src, start, line, rule, Unexpected(src, start, line))
  {
    NoNewlines(src[start..start + 1]);
  }

  lemma StringSound(src: string, start: nat, line: int, rule: CommentRule)
    requires start < |src| && src[start] == '\"'
    ensures SoundStep(src, start, line, rule, StringToken(src, start, line))
  {
    var s := StringToken(src, start, line);
    if s.token.Some? {
      QuotedSpan(src, start, s.next - 1, s.line);
    }
  }

  lemma NumberSound(src: string, start: nat, line: int, rule: CommentRule)
    requires start < |src| && IsDigit(src[start])
    ensures SoundStep(src, start, line, rule, NumberToken(src, start, line))
  {
  }

  lemma WordSound(src: string, start: nat, line: int, rule: CommentRule)
    requires start < |src| && IsAlpha(src[start])
    ensures SoundStep(src, start, line, rule, WordToken(src, start, line))
  {
    var s := WordToken(src, start, line);
    var text := src[start..s.next];
    assert forall k :: 0 <= k < |text| ==> IsAlphaNumeric(text[k]);
    NoNewlines(text);
    if text in Keywords {
      KeywordSpelling(text);
    }
  }

  lemma LineCommentSound(src: string, start: nat, line: int, rule: CommentRule)
    requires start + 2 <= |src| && src[start] == '/' && src[start + 1] == '/'
    ensures SoundStep(src, start, line, rule, LineComment(src, start, line))
  {
    var s := LineComment(src, start, line);
    NoNewlines(src[start..s.next]);
  }

  /** A reserved word is spelled as the kind the table maps it to. */
  lemma KeywordSpelling(w: string)
    requires w in Keywords
    ensures Keywords[w].Reserved() && Keywords[w].Spelling() == w
  {
  }

  // ---------------------------------------------------------------------------
  // The scan loop

  /** The scan from cursor `current` on: recognise one lexeme at a time until
      the source is exhausted, stopping early only at a failed character read. */
  function Run(src: string, current: nat, line: int, rule: CommentRule): (t: Trace)
    requires current <= |src|
    decreases |src| - current
  {
    if current >= |src| then Finished([], [], line)
    else
      match ScanToken(src, current, line, rule)
      case Fault(index) => Aborted(index, [])
      case Step(next, l, token, diagnostic) =>
        match Run(src, next, l, rule)
        case Aborted(index, ds) => Aborted(index, ToSeq(diagnostic) + ds)
        case Finished(xs, ds, last) =>
          var here := if token.Some? then [Located(token.value, current, next)] else [];
          Finished(here + xs, ToSeq(diagnostic) + ds, last)
  }

  /** The line never decreases and grows by at most the number of newlines
      scanned over, by exactly that number under the intended comment rule;
      every diagnostic carries a line reached during the scan. */
  lemma {:induction false} RunCountsLines(src: string, current: nat, line: int, rule: CommentRule)
    requires current <= |src|
    ensures var t := Run(src, current, line, rule);
      && (t.Finished? ==> line <= t.line <= line + Newlines(src[current..]))
      && (t.Finished? && rule == Intended ==> t.line == line + Newlines(src[current..]))
      && (t.Finished? ==> forall k :: 0 <= k < |t.diagnostics| ==> line <= t.diagnostics[k].line <= t.line)
    decreases |src| - current
  {
    if current < |src| {
      var s := ScanToken(src, current, line, rule);
      if s.Step? {
        RunCountsLines(src, s.next, s.line, rule);
        assert src[current..] == src[current..|src|] && src[s.next..] == src[s.next..|src|];
        NewlinesSplit(src, current, s.next, |src|);
      }
    }
  }

  /** Only the block comment as written can make a scan fail, and only by
      reading at the length of the source. */
  lemma {:induction false} RunFailsOnlyAtEnd(src: string, current: nat, line: int, rule: CommentRule)
    requires current <= |src|
    ensures var t := Run(src, current, line, rule);
      t.Aborted? ==> rule == AsWritten && t.index == |src| && src[|src| - 1] == '*'
    decreases |src| - current
  {
    if current < |src| {
      var s := ScanToken(src, current, line, rule);
      if s.Step? {
        RunFailsOnlyAtEnd(src, s.next, s.line, rule);
      }
    }
  }

  /** Every emitted token is well formed for the span it was cut from, which
      lies after `current`; its line lies between the starting line and the
      final one. */
  lemma {:induction false} RunLexesWell(src: string, current: nat, line: int, rule: CommentRule)
    requires current <= |src|
    ensures var t := Run(src, current, line, rule);
      t.Finished? ==> forall k :: 0 <= k < |t.lexed| ==>
        && current <= t.lexed[k].start
        && WellLexed(src, t.lexed[k])
        && line <= t.lexed[k].token.line <= t.line
    decreases |src| - current
  {
    if current < |src| {
      var s := ScanToken(src, current, line, rule);
      if s.Step? {
        RunLexesWell(src, s.next, s.line, rule);
        RunCountsLines(src, s.next, s.line, rule);
      }
    }
  }

  /** The spans of the emitted tokens are in source order and do not overlap,
      and token lines never decrease. */
  lemma {:induction false} RunLexesInOrder(src: string, current: nat, line: int, rule: CommentRule)
    requires current <= |src|
    ensures var t := Run(src, current, line, rule);
      t.Finished? ==> forall k :: 0 <= k < |t.lexed| - 1 ==>
        t.lexed[k].end <= t.lexed[k + 1].start && t.lexed[k].token.line <= t.lexed[k + 1].token.line
    decreases |src| - current
  {
    if current < |src| {
      var s := ScanToken(src, current, line, rule);
      if s.Step? {
        RunLexesInOrder(src, s.next, s.line, rule);
        RunLexesWell(src, s.next, s.line, rule);
      }
    }
  }

  /** Under the intended comment rule each token's line is the starting line
      plus the newlines from `current` to the end of the token. */
  lemma {:induction false} RunTokenLines(src: string, current: nat, line: int)
    requires current <= |src|
    ensures var t := Run(src, current, line, Intended);
      t.Finished? ==> forall k :: 0 <= k < |t.lexed| ==>
        && current <= t.lexed[k].end <= |src|
        && t.lexed[k].token.line == line + Newlines(src[current..t.lexed[k].end])
    decreases |src| - current
  {
    if current < |src| {
      var s := ScanToken(src, current, line, Intended);
      if s.Step? {
        RunTokenLines(src, s.next, s.line);
        RunLexesWell(src, s.next, s.line, Intended);
        var t := Run(src, s.next, s.line, Intended);
        if t.Finished? {
          LinesFrom(src, current, s.next, line, s.line, t.lexed);
        }
      }
    }
  }

  /** Lines counted from `next` on are lines counted from `current` on once
      the newlines between the two are added. */
  lemma LinesFrom(src: string, current: nat, next: nat, line: int, l: int, xs: seq<Located>)
    requires current <= next <= |src| && l == line + Newlines(src[current..next])
    requires forall k :: 0 <= k < |xs| ==> next <= xs[k].end <= |src|
    requires forall k :: 0 <= k < |xs| ==> xs[k].token.line == l + Newlines(src[next..xs[k].end])
    ensures forall k :: 0 <= k < |xs| ==> xs[k].token.line == line + Newlines(src[current..xs[k].end])
  {
    forall k | 0 <= k < |xs|
      ensures xs[k].token.line == line + Newlines(src[current..xs[k].end])
    {
      NewlinesSplit(src, current, next, xs[k].end);
    }
  }

  /** The tokens of a list of located tokens, in order. */
  function TokensOf(xs: seq<Located>): (ts: seq<Token>)
    ensures |ts| == |xs| && forall k :: 0 <= k < |xs| ==> ts[k] == xs[k].token
  {
    seq(|xs|, k requires 0 <= k < |xs| => xs[k].token)
  }

  /** A whole scan under the given block-comment rule: the tokens of the scan
      from the start of the source at line one, then one end-of-input token. */
  function ScanWith(source: string, rule: CommentRule): (r: Outcome)
    ensures r.Scanned? ==>
      && |r.tokens| >= 1
      && r.tokens[|r.tokens| - 1].kind == Eof
      && r.tokens[|r.tokens| - 1].lexeme == ""
      && r.tokens[|r.tokens| - 1].literal == Absent
      && 1 <= r.tokens[|r.tokens| - 1].line <= 1 + Newlines(source)
    ensures r.Scanned? && rule == Intended ==> r.tokens[|r.tokens| - 1].line == 1 + Newlines(source)
    ensures r.Scanned? ==> forall k :: 0 <= k < |r.tokens| - 1 ==> r.tokens[k].kind != Eof
    ensures r.Scanned? ==> forall k :: 0 <= k < |r.tokens| - 1 ==> r.tokens[k].line <= r.tokens[k + 1].line
    ensures r.Scanned? <==> Run(source, 0, 1, rule).Finished?
    ensures r.Scanned? ==> r.tokens[..|r.tokens| - 1] == TokensOf(Run(source, 0, 1, rule).lexed)
    ensures r.Threw? ==> rule == AsWritten && r.index == |source| > 0 && source[|source| - 1] == '*'
  {
    assert source[0..] == source;
    RunCountsLines(source, 0, 1, rule);
    RunFailsOnlyAtEnd(source, 0, 1, rule);
    RunLexesWell(source, 0, 1, rule);
    RunLexesInOrder(source, 0, 1, rule);
    match Run(source, 0, 1, rule)
    case Aborted(index, ds) => Threw(index, ds)
    case Finished(xs, ds, line) =>
      var ts := TokensOf(xs) + [Token(Eof, "", Absent, line)];
      assert ts[..|ts| - 1] == TokensOf(xs);
      Scanned(ts, ds)
  }

  /** The scanner as written. */
  function ScanTokens(source: string): (r: Outcome)
    ensures r.Scanned? ==> |r.tokens| >= 1 && r.tokens[|r.tokens| - 1] == Token(Eof, "", Absent, r.tokens[|r.tokens| - 1].line)
    ensures r.Threw? ==> r.index == |source| > 0 && source[|source| - 1] == '*'
  {
    ScanWith(source, AsWritten)
  }

  /** The scanner with the block comment closed only by `*` followed by `/`:
      it never fails, and the end-of-input token's line is one more than the
      number of newlines in the source. */
  function ScanTokensCorrected(source: string): (r: Outcome)
    ensures r.Scanned? && |r.tokens| >= 1
    ensures r.tokens[|r.tokens| - 1] == Token(Eof, "", Absent, 1 + Newlines(source))
  {
    ScanWith(source, Intended)
  }
}
