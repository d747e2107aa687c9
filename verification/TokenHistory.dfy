// What the parser's run looks like from the input's side: which tokens were lexed, from what text,
// how much of the input they cover, and which here-document bodies were read on the way.

module TokenHistory {
  import opened CStrings
  import opened Grammar
  import opened Derivations
  import opened NodeArena
  import opened Context
  import opened Syntax
  import opened ShellText
  import opened Handlers
  import opened QuoteRemoval
  import opened Lexer
  import opened LexerFacts
  import opened Classification
  import opened HereDocument

  // ---- Tokens ----------------------------------------------------------------------------

  /** The token that a record and its text stand for. */
  function TokenOf(index: nat, text: string, flags: nat): Token {
    Token(ClassifyToken(text), index, index, flags)
  }

  /**
   * A record and its string are those of a lexed token; a delimiter's string has lost its quotes. It
   * is flagged as quoted exactly if its text has quotes that enclose something.
   */
  ghost predicate TokenAt(tokens: seq<TokenRecord>, strings: seq<string>, delims: seq<nat>, lexed: seq<Token>,
                          texts: seq<string>, i: nat)
    requires 0 < i < |tokens| && i < |strings| && i <= |lexed| && i <= |texts|
  {
    var token, text := lexed[i - 1], texts[i - 1];
    && token == TokenOf(i, text, tokens[i].flags) && tokens[i].offset == i
    && strings[i] == (if i in delims then QuoteRemove(text) else text)
    && (token.kind == SYM_WORD <==> tokens[i].kind == WordToken)
    && (tokens[i].kind == WordToken && tokens[i].flags % WORD_FLAGS == 0 ==> IsPlainWord(text))
    && (tokens[i].flags % 2 == TKN_HAS_QUOTES <==> HoldsQuotes(text))
  }

  /** The arenas hold the lexed tokens, one record and one string for each. */
  ghost predicate TokensOk(tokens: seq<TokenRecord>, strings: seq<string>, lexed: seq<Token>, texts: seq<string>,
                           delims: seq<nat>) {
    && |tokens| == |strings| == |lexed| + 1 == |texts| + 1
    && tokens[0] == NO_TOKEN_RECORD
    && forall i: nat :: 0 < i <= |lexed| ==> TokenAt(tokens, strings, delims, lexed, texts, i)
  }

  lemma TokensGrow(tokens: seq<TokenRecord>, strings: seq<string>, lexed: seq<Token>, texts: seq<string>,
                   delims: seq<nat>, kind: TokenType, flags: nat, text: string)
    requires TokensOk(tokens, strings, lexed, texts, delims) && |lexed| + 1 !in delims
    requires ClassifyToken(text) == SYM_WORD <==> kind == WordToken
    requires kind == WordToken && flags % WORD_FLAGS == 0 ==> IsPlainWord(text)
    requires flags % 2 == TKN_HAS_QUOTES <==> HoldsQuotes(text)
    ensures TokensOk(tokens + [TokenRecord(|strings|, kind, flags)], strings + [text],
                     lexed + [TokenOf(|strings|, text, flags)], texts + [text], delims)
  {
    hide HoldsQuotes, IsPlainWord, ClassifyToken, QuoteRemove;
    var tokens', strings' := tokens + [TokenRecord(|strings|, kind, flags)], strings + [text];
    var lexed', texts' := lexed + [TokenOf(|strings|, text, flags)], texts + [text];
    forall i: nat | 0 < i <= |lexed'| ensures TokenAt(tokens', strings', delims, lexed', texts', i) {
      if i <= |lexed| {
        assert TokenAt(tokens, strings, delims, lexed, texts, i);
      }
    }
  }

  /** A delimiter's string loses its quotes once. */
  lemma DelimiterTaken(tokens: seq<TokenRecord>, strings: seq<string>, lexed: seq<Token>, texts: seq<string>,
                       delims: seq<nat>, n: nat)
    requires TokensOk(tokens, strings, lexed, texts, delims) && 0 < n <= |lexed| && n !in delims
    ensures n < |strings| && strings[n] == texts[n - 1]
    ensures TokensOk(tokens, strings[n := QuoteRemove(strings[n])], lexed, texts, delims + [n])
  {
    hide HoldsQuotes, IsPlainWord, ClassifyToken, QuoteRemove;
    assert TokenAt(tokens, strings, delims, lexed, texts, n);
    var strings' := strings[n := QuoteRemove(strings[n])];
    forall i: nat | 0 < i <= |lexed| ensures TokenAt(tokens, strings', delims + [n], lexed, texts, i) {
      assert TokenAt(tokens, strings, delims, lexed, texts, i);
    }
  }

  lemma TokenIn(tokens: seq<TokenRecord>, strings: seq<string>, lexed: seq<Token>, texts: seq<string>, delims: seq<nat>,
                i: nat)
    requires TokensOk(tokens, strings, lexed, texts, delims) && 0 < i <= |lexed|
    ensures i < |tokens| && i < |strings| && IsToken(tokens, i, lexed[i - 1]) && IsTokenKind(lexed[i - 1].kind)
    ensures lexed[i - 1].index == i == lexed[i - 1].offset
    ensures i !in delims ==> lexed[i - 1].kind == ClassifyToken(strings[i])
    ensures i !in delims ==> (lexed[i - 1].kind == SYM_NEWLINE <==> strings[i] != [] && strings[i][0] == '\n')
  {
    hide HoldsQuotes, IsPlainWord, QuoteRemove;
    assert TokenAt(tokens, strings, delims, lexed, texts, i);
  }

  /** Whatever the tokenizer leaves unflagged can be taken as it is. */
  lemma UnflaggedIsPlain(tokens: seq<TokenRecord>, strings: seq<string>, lexed: seq<Token>, texts: seq<string>,
                         delims: seq<nat>, i: nat)
    requires TokensOk(tokens, strings, lexed, texts, delims) && 0 < i <= |lexed| && i !in delims
    requires lexed[i - 1].kind == SYM_WORD && lexed[i - 1].flags % WORD_FLAGS == 0
    ensures i < |strings| && IsPlainWord(strings[i])
  {
    hide HoldsQuotes, IsPlainWord, QuoteRemove, ClassifyToken;
    assert TokenAt(tokens, strings, delims, lexed, texts, i);
  }

  /** Whether a token is quoted is seen in its text. */
  lemma QuotedAsWritten(tokens: seq<TokenRecord>, strings: seq<string>, lexed: seq<Token>, texts: seq<string>,
                        delims: seq<nat>, i: nat)
    requires TokensOk(tokens, strings, lexed, texts, delims) && 0 < i <= |lexed|
    ensures i <= |texts|
    ensures lexed[i - 1].flags % 2 == TKN_HAS_QUOTES <==> HoldsQuotes(texts[i - 1])
    ensures RedirHasQuotes in HereFlags(lexed[i - 1]) <==> HoldsQuotes(texts[i - 1])
  {
    hide HoldsQuotes, IsPlainWord, QuoteRemove, ClassifyToken;
    assert TokenAt(tokens, strings, delims, lexed, texts, i);
  }

  lemma OffsetsInStrings(tokens: seq<TokenRecord>, strings: seq<string>, lexed: seq<Token>, texts: seq<string>,
                         delims: seq<nat>)
    requires TokensOk(tokens, strings, lexed, texts, delims)
    ensures forall i :: 0 <= i < |tokens| ==> tokens[i].offset < |strings|
  {
    hide HoldsQuotes, IsPlainWord, QuoteRemove, ClassifyToken;
    forall i | 0 <= i < |tokens| ensures tokens[i].offset < |strings| {
      if 0 < i { assert TokenAt(tokens, strings, delims, lexed, texts, i); }
    }
  }

  // ---- Input -----------------------------------------------------------------------------

  function TokenTexts(ps: seq<Piece>): seq<string> {
    if ps == [] then []
    else TokenTexts(ps[..|ps| - 1]) + (if ps[|ps| - 1].TokenPiece? then [ps[|ps| - 1].text] else [])
  }

  function BodyPieces(ps: seq<Piece>): seq<Piece> {
    if ps == [] then []
    else BodyPieces(ps[..|ps| - 1]) + (if ps[|ps| - 1].BodyPiece? then [ps[|ps| - 1]] else [])
  }

  lemma PiecesSnoc(ps: seq<Piece>, p: Piece)
    ensures TextOf(ps + [p]) == TextOf(ps) + PieceText(p)
    ensures TokenTexts(ps + [p]) == TokenTexts(ps) + (if p.TokenPiece? then [p.text] else [])
    ensures BodyPieces(ps + [p]) == BodyPieces(ps) + (if p.BodyPiece? then [p] else [])
  {
    hide TextOf;
    TextOfConcat(ps, [p]);
    TextOfOne(p);
    assert (ps + [p])[..|ps|] == ps;
  }

  /** Gaps are blanks and comments; a body's lines are lines before the delimiter's. */
  ghost predicate PieceOk(p: Piece) {
    match p
    case TokenPiece(text) => text != []
    case GapPiece(text) => IsGap(text)
    case BodyPiece(lines, delim, _, _, _, _) => forall i ::
      0 <= i < |lines| ==> IsLine(lines[i]) && lines[i] != delim + "\n"
  }

  /** What is left of the input behind what the pieces cover. */
  function Unpieced(readLine: Option<string>, s: LexState, unread: seq<string>): string {
    Rest(readLine, Uncovered(s), unread)
  }

  /** The pieces and what is left are the whole input. */
  ghost predicate PiecesOk(pieces: seq<Piece>, texts: seq<string>, left: string, whole: string) {
    && whole == TextOf(pieces) + left
    && TokenTexts(pieces) == texts
    && forall i :: 0 <= i < |pieces| ==> PieceOk(pieces[i])
  }

  lemma PiecesGrow(pieces: seq<Piece>, texts: seq<string>, left: string, whole: string, p: Piece, left': string)
    requires PiecesOk(pieces, texts, left, whole) && PieceOk(p) && left == PieceText(p) + left'
    ensures PiecesOk(pieces + [p], texts + (if p.TokenPiece? then [p.text] else []), left', whole)
  {
    hide TextOf, TokenTexts, PieceOk;
    PiecesSnoc(pieces, p);
  }

  // ---- The lexer between and within tokens -----------------------------------------------

  predicate LastIsNewline(lexed: seq<Token>) {
    lexed != [] && lexed[|lexed| - 1].kind == SYM_NEWLINE
  }

  /** Nowhere in the line can a here-document start. */
  predicate NoHere(line: string) {
    forall i :: 0 <= i < |line| - 1 ==> !(line[i] == '<' && line[i + 1] == '<')
  }

  predicate NoHereTokens(lexed: seq<Token>) {
    forall i :: 0 <= i < |lexed| ==> lexed[i].kind != SYM_DLESS
  }

  /** A here-document's line ends in a newline. */
  predicate LineEnds(lexed: seq<Token>) {
    LastIsNewline(lexed) || NoHereTokens(lexed)
  }

  predicate NoNewlines(lexed: seq<Token>) {
    forall i :: 0 <= i < |lexed| ==> lexed[i].kind != SYM_NEWLINE
  }

  /** The line ends in a newline, or has none, as the last one of a file; or it has no here-document. */
  predicate IsComplete(line: string) {
    EndsInNewline(line) || '\n' !in line || NoHere(line)
  }

  /** The lexer's invariant; at the end of a line the line's newline was, or is about to be, a token. */
  ghost predicate LineOk(line: string, s: LexState, lexed: seq<Token>) {
    && LexOk(line, s) && WordOk(line, s) && PlainSoFar(line, s) && !s.interrupted
    && (s.atEoi ==> s.idx == |line| && !s.building)
    && (EndsInNewline(line) || (NoHere(line) && NoHereTokens(lexed)) || ('\n' !in line && NoNewlines(lexed)))
    && (EndsInNewline(line) && s.idx == |line| ==>
          if s.building then s.kind == OperatorToken && line[s.pos] == '\n' else LastIsNewline(lexed))
  }

  /** The input as the lexer sees it; without a line, its end was reached in a here-document. */
  ghost predicate InputOk(readLine: Option<string>, s: LexState, unread: seq<string>, lexed: seq<Token>) {
    && AreLines(unread)
    && (readLine.Some? ==> LineOk(readLine.value, s, lexed))
    && (readLine.None? ==>
      unread == [] && s.atEoi && !s.building && s.kind == NoToken && !s.interrupted && LastIsNewline(lexed))
  }

  // ---- One call of the tokenizer ---------------------------------------------------------

  lemma StepKeepsLine(line: string, s: LexState, lexed: seq<Token>)
    requires LineOk(line, s, lexed) && !s.atEoi
    ensures LexStep(line, s).Continue? ==> LineOk(line, LexStep(line, s).state, lexed)
    ensures LexStep(line, s).Delimited? ==> !LexStep(line, s).state.building
    ensures LexStep(line, s).Delimited? ==>
              var x := LexStep(line, s).lexeme;
              forall token: Token ::
                token.kind == ClassifyToken(x.text) ==> LineOk(line, LexStep(line, s).state, lexed + [token])
  {
    hide LexStep, LexOk, WordOk, PlainSoFar, ClassifyToken, QuoteRule;
    StepCases(line, s);
    StepKeepsWord(line, s);
    StepKeepsPlain(line, s);
    var next := LexStep(line, s).state;
    NotBuildingIsPlain(line, next);
    if LexStep(line, s).Delimited? && !EndsInNewline(line) {
      if NoHere(line) { NoHereLexed(line, s); }
      if '\n' !in line { NoNewlineLexed(line, s); }
    }
    if next.idx == |line| && EndsInNewline(line) {
      if s.idx < |line| {
        LastNewlineIsToken(line, s);
      } else if s.building {
        NewlineBody(line, s);
      }
    }
  }

  lemma NoHereLexed(line: string, s: LexState)
    requires LexOk(line, s) && LexStep(line, s).Delimited? && NoHere(line)
    ensures ClassifyToken(LexStep(line, s).lexeme.text) != SYM_DLESS
  {
    hide LexStep;
    StepCases(line, s);
    var text := LexStep(line, s).lexeme.text;
    assert |text| == 2 ==> text[0] == line[s.pos] && text[1] == line[s.pos + 1];
  }

  lemma NoNewlineLexed(line: string, s: LexState)
    requires LexOk(line, s) && LexStep(line, s).Delimited? && '\n' !in line
    ensures ClassifyToken(LexStep(line, s).lexeme.text) != SYM_NEWLINE
  {
    hide LexStep;
    StepCases(line, s);
    var text := LexStep(line, s).lexeme.text;
    assert text != [] ==> text[0] == line[s.pos];
  }

  lemma NotBuildingIsPlain(line: string, s: LexState)
    ensures s.kind == NoToken ==> WordOk(line, s) && PlainSoFar(line, s)
  {
  }

  lemma NewlineBody(line: string, s: LexState)
    requires LexOk(line, s) && s.building && s.idx == |line| && s.kind == OperatorToken && line[s.pos] == '\n'
    ensures LexStep(line, s).Delimited? && ClassifyToken(LexStep(line, s).lexeme.text) == SYM_NEWLINE
  {
    hide QuoteRule;
    assert line[s.pos..s.pos + s.len][0] == line[s.pos];
  }

  /** The pieces a step adds: the tokens' texts among them are the delimited token's. */
  lemma StepKeepsPieces(line: string, s: LexState, unread: seq<string>, pieces: seq<Piece>, texts: seq<string>,
                        whole: string)
    requires LexOk(line, s) && PiecesOk(pieces, texts, Unpieced(Some(line), s, unread), whole)
    ensures var step := LexStep(line, s);
      PiecesOk(pieces + StepPieces(line, s), texts + (if step.Delimited? then [step.lexeme.text] else []),
               Unpieced(Some(line), step.state, unread), whole)
  {
    hide LexStep, LexOk, TextOf, TokenTexts, PieceOk, Uncovered;
    StepCovers(line, s);
    var step, ps := LexStep(line, s), StepPieces(line, s);
    var left := Unpieced(Some(line), step.state, unread);
    assert line[Uncovered(s)..] == line[Uncovered(s)..Uncovered(step.state)] + line[Uncovered(step.state)..];
    assert Unpieced(Some(line), s, unread) == TextOf(ps) + left;
    StepPiecesShape(line, s);
    if |ps| == 0 {
      TextOfNone();
      assert pieces + ps == pieces;
    } else if |ps| == 1 {
      assert ps == [ps[0]];
      TextOfOne(ps[0]);
      PiecesGrow(pieces, texts, TextOf(ps) + left, whole, ps[0], left);
    } else {
      assert ps == [ps[0]] + [ps[1]];
      TextOfConcat([ps[0]], [ps[1]]);
      TextOfOne(ps[0]);
      TextOfOne(ps[1]);
      PiecesGrow(pieces, texts, TextOf(ps) + left, whole, ps[0], PieceText(ps[1]) + left);
      PiecesGrow(pieces + [ps[0]], texts + [step.lexeme.text], PieceText(ps[1]) + left, whole, ps[1], left);
      assert pieces + [ps[0]] + [ps[1]] == pieces + ps;
    }
  }

  lemma StepPiecesShape(line: string, s: LexState)
    requires LexOk(line, s)
    ensures var step, ps := LexStep(line, s), StepPieces(line, s);
      && |ps| <= 2 && (forall i :: 0 <= i < |ps| ==> PieceOk(ps[i]))
      && (step.Delimited? ==> 1 <= |ps| && ps[0] == TokenPiece(step.lexeme.text) && (|ps| == 2 ==> ps[1].GapPiece?))
      && (step.Continue? ==> |ps| <= 1 && (|ps| == 1 ==> ps[0].GapPiece?))
  {
    hide LexStep;
    StepCases(line, s);
    StepCovers(line, s);
  }

  // ---- The first line --------------------------------------------------------------------

  /** What a run starts on: its line, and the lines after it. */
  datatype Input = Input(line: string, unread: seq<string>)

  function Whole(input: Input): string {
    input.line + Joined(input.unread)
  }

  /** All tokens of the line from a state on. */
  function Lexemes(line: string, s: LexState): seq<Lexeme>
    requires LexOk(line, s)
    decreases Remaining(line, s), !s.atEoi
  {
    StepMakesProgress(line, s);
    if s.atEoi then []
    else
      var step := LexStep(line, s);
      (if step.Delimited? then [step.lexeme] else []) + Lexemes(line, step.state)
  }

  /** The tokens that the lexemes become, numbered from `index` on. */
  function TokensOf(index: nat, xs: seq<Lexeme>): (ts: seq<Token>)
    ensures |ts| == |xs|
    decreases |xs|
  {
    if xs == [] then [] else [TokenOf(index, xs[0].text, xs[0].flags)] + TokensOf(index + 1, xs[1..])
  }

  /** The tokens of a line, and their texts. */
  function LineTokens(line: string): seq<Token> {
    TokensOf(1, Lexemes(line, ZEROED))
  }

  function TextsOf(xs: seq<Lexeme>): (ts: seq<string>)
    ensures |ts| == |xs| && forall i :: 0 <= i < |ts| ==> ts[i] == xs[i].text
  {
    seq(|xs|, i requires 0 <= i < |xs| => xs[i].text)
  }

  function LineTexts(line: string): seq<string> {
    TextsOf(Lexemes(line, ZEROED))
  }

  /** The lines that bodies were read from, their delimiters' included. */
  function BodyLines(bs: seq<Piece>): seq<string> {
    if bs == [] then [] else BodyLines(bs[..|bs| - 1]) + LinesOf(bs[|bs| - 1])
  }

  function LinesOf(p: Piece): seq<string> {
    if p.BodyPiece? then p.lines + (if p.closed then [p.delim + "\n"] else []) else []
  }

  /**
   * Before the first body is read, the tokens so far and those that are left are the first line's;
   * the newline that ends the line is lexed last. Bodies are only read behind a line that ends in
   * one. If the line is only one, all of its tokens are lexed then; and if all lines behind it are
   * single ones, no others are, and the bodies are read from whole lines.
   */
  ghost predicate FirstLineOk(input: Input, served: nat, readLine: Option<string>, s: LexState, unread: seq<string>,
                              lexed: seq<Token>, texts: seq<string>, pieces: seq<Piece>) {
    if served == 0 then
      && readLine == Some(input.line) && unread == input.unread && LexOk(input.line, s)
      && lexed + TokensOf(|lexed| + 1, Lexemes(input.line, s)) == LineTokens(input.line)
      && texts + TextsOf(Lexemes(input.line, s)) == LineTexts(input.line) && BodyPieces(pieces) == []
      && (IsLine(input.line) && s.idx < |input.line| ==> forall i :: 0 <= i < |lexed| ==> lexed[i].kind != SYM_NEWLINE)
    else
      && EndsInNewline(input.line) && (readLine.Some? ==> EndsInNewline(readLine.value))
      && (IsLine(input.line) ==> LineTokens(input.line) <= lexed && LineTexts(input.line) <= texts)
      && (IsLine(input.line) && AreSingle(input.unread) ==>
            && OnlyBodies(input, readLine, unread, lexed, pieces)
            && (readLine.Some? ==> s.idx == |readLine.value| && !s.building))
  }

  /** Behind the first line nothing but bodies was read. */
  ghost predicate OnlyBodies(input: Input, readLine: Option<string>, unread: seq<string>, lexed: seq<Token>,
                             pieces: seq<Piece>) {
    && lexed == LineTokens(input.line) && (readLine.None? ==> unread == [])
    && input.unread == BodyLines(BodyPieces(pieces)) + unread
  }

  lemma FirstLineStarts(input: Input)
    ensures FirstLineOk(input, 0, Some(input.line), ZEROED, input.unread, [], [], [])
  {
    hide Lexemes, TokensOf;
    assert [] + TokensOf(1, Lexemes(input.line, ZEROED)) == LineTokens(input.line);
    assert [] + TextsOf(Lexemes(input.line, ZEROED)) == LineTexts(input.line);
  }

  lemma LexemesStep(line: string, s: LexState)
    requires LexOk(line, s) && !s.atEoi
    ensures var step := LexStep(line, s);
      && LexOk(line, step.state)
      && Lexemes(line, s) == (if step.Delimited? then [step.lexeme] else []) + Lexemes(line, step.state)
  {
    hide LexStep;
    StepMakesProgress(line, s);
  }

  lemma TokensOfFirst(index: nat, x: Lexeme, xs: seq<Lexeme>)
    ensures TokensOf(index, [x] + xs) == [TokenOf(index, x.text, x.flags)] + TokensOf(index + 1, xs)
    ensures TextsOf([x] + xs) == [x.text] + TextsOf(xs)
  {
    assert ([x] + xs)[1..] == xs;
  }

  lemma StepKeepsFirstLine(input: Input, served: nat, line: string, s: LexState, unread: seq<string>,
                           lexed: seq<Token>, texts: seq<string>, pieces: seq<Piece>, pieces': seq<Piece>)
    requires FirstLineOk(input, served, Some(line), s, unread, lexed, texts, pieces) && LexOk(line, s) && !s.atEoi
    requires BodyPieces(pieces') == BodyPieces(pieces)
    ensures LexStep(line, s).Continue? ==>
              FirstLineOk(input, served, Some(line), LexStep(line, s).state, unread, lexed, texts, pieces')
    ensures LexStep(line, s).Delimited? ==>
              var x := LexStep(line, s).lexeme;
              FirstLineOk(input, served, Some(line), LexStep(line, s).state, unread, lexed
                + [TokenOf(|lexed| + 1, x.text, x.flags)], texts + [x.text], pieces')
  {
    hide LexStep, TokensOf, Lexemes, LineTokens, LineTexts, LexOk, ClassifyToken, BodyPieces, AreSingle;
    if served == 0 {
      LexemesStep(line, s);
      StepCases(line, s);
      var step := LexStep(line, s);
      var rest := Lexemes(line, step.state);
      if step.Delimited? {
        var x := step.lexeme;
        TokensOfFirst(|lexed| + 1, x, rest);
        var token := TokenOf(|lexed| + 1, x.text, x.flags);
        assert lexed + ([token] + TokensOf(|lexed| + 2, rest)) == (lexed + [token]) + TokensOf(|lexed| + 2, rest);
        assert texts + ([x.text] + TextsOf(rest)) == (texts + [x.text]) + TextsOf(rest);
        if IsLine(line) { NewlineIsLast(line, s); }
      } else {
        assert [] + rest == rest;
      }
    } else if IsLine(input.line) && AreSingle(input.unread) {
      EndSetsEoi(line, s);
      NoDelimiterAtEnd(line, s);
    }
  }

  /** In a line with one newline, behind the newline is its end. */
  lemma NewlineIsLast(line: string, s: LexState)
    requires IsLine(line) && LexOk(line, s) && LexStep(line, s).Delimited?
    ensures ClassifyToken(LexStep(line, s).lexeme.text) == SYM_NEWLINE ==> LexStep(line, s).state.idx == |line|
    ensures s.idx <= LexStep(line, s).state.idx
  {
    hide LexStep;
    StepCases(line, s);
    var text := LexStep(line, s).lexeme.text;
    assert text != [] ==> text[0] == line[s.pos];
    assert forall k :: 0 <= k < |line| - 1 ==> line[k] == line[..|line| - 1][k];
  }

  /** Behind the newline nothing is left of the line. */
  lemma NothingLeftOfLine(line: string, s: LexState)
    requires LexOk(line, s) && s.idx == |line| && !s.building
    ensures Lexemes(line, s) == []
  {
    hide LexStep, LexOk;
    StepMakesProgress(line, s);
    if !s.atEoi {
      EndSetsEoi(line, s);
      LexemesStep(line, s);
      NoDelimiterAtEnd(line, s);
      assert Lexemes(line, LexStep(line, s).state) == [];
    }
  }

  lemma NoDelimiterAtEnd(line: string, s: LexState)
    requires LexOk(line, s) && s.idx == |line| && !s.building
    ensures LexStep(line, s).Continue?
  {
  }

  /** When the first body is about to be read, the first line's tokens are lexed. */
  lemma FirstLineLexed(input: Input, readLine: Option<string>, s: LexState, unread: seq<string>, lexed: seq<Token>,
                       texts: seq<string>, pieces: seq<Piece>)
    requires FirstLineOk(input, 0, readLine, s, unread, lexed, texts, pieces) && !s.building && LastIsNewline(lexed)
    requires IsLine(input.line)
    ensures lexed == LineTokens(input.line) && texts == LineTexts(input.line) && readLine == Some(input.line)
    ensures s.idx == |input.line|
    ensures unread == input.unread
  {
    hide LexOk, LineTokens, Lexemes, TokensOf;
    assert lexed[|lexed| - 1].kind == SYM_NEWLINE;
    LexOkBound(input.line, s);
    NothingLeftOfLine(input.line, s);
    NoTokensOf(|lexed| + 1);
  }

  lemma LexOkBound(line: string, s: LexState)
    requires LexOk(line, s)
    ensures s.idx <= |line|
  {
  }

  lemma NoTokensOf(index: nat)
    ensures TokensOf(index, []) == []
  {
  }

  /** What is certain about the tokens whenever a run stops. */
  ghost predicate FirstTokens(input: Input, served: nat, readLine: Option<string>, unread: seq<string>,
                              lexed: seq<Token>, texts: seq<string>, pieces: seq<Piece>) {
    if served == 0 then lexed <= LineTokens(input.line) && BodyPieces(pieces) == [] && unread == input.unread
    else
      && EndsInNewline(input.line)
      && (IsLine(input.line) ==> LineTokens(input.line) <= lexed && LineTexts(input.line) <= texts)
      && (IsLine(input.line) && AreSingle(input.unread) ==> OnlyBodies(input, readLine, unread, lexed, pieces))
  }

  lemma FirstLineTokens(input: Input, served: nat, readLine: Option<string>, s: LexState, unread: seq<string>,
                        lexed: seq<Token>, texts: seq<string>, pieces: seq<Piece>)
    requires FirstLineOk(input, served, readLine, s, unread, lexed, texts, pieces)
    ensures FirstTokens(input, served, readLine, unread, lexed, texts, pieces)
    ensures served == 0 && s.atEoi ==> lexed == LineTokens(input.line)
  {
    hide LineTokens, TokensOf, LexStep, LineTexts;
    NoTokensOf(|lexed| + 1);
  }
}
