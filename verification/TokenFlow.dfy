// Where the parser's next token comes from: the lexer, or the tokens saved while a here-document
// waited for the end of its line. Flags divert the flow to the body and replay it.

module TokenFlow {
  import opened CStrings
  import opened Grammar
  import opened Derivations
  import opened LrMachine
  import opened NodeArena
  import opened Syntax
  import opened ShellText
  import opened QuoteRemoval
  import opened Context
  import opened Handlers
  import opened ParserInvariant
  import opened ShiftReduce
  import opened HereDescriptors
  import opened Lexer
  import opened LexerFacts
  import opened LexerRules
  import opened Classification
  import opened HereDocument
  import opened TokenHistory
  import opened Agreement
  import opened RunInvariant

  // ---- The invariant of the run ----------------------------------------------------------

  /** The stack has parsed the shifted tokens, whatever the rest will be. */
  ghost predicate StackAgrees(c: Ctx, parse: ParserState)
    reads c`stack, c`nodes, c`tokens, c`strings, c`shadow, c`lexed, c`shifted, parse`stackIdx, parse`state
    reads parse`execRootIdx
  {
    ParserOk(c, parse) && parse.execRootIdx == 0 && Agrees(c.lexed, Machine(c), c.shifted)
  }

  /** What holds even after an interrupt. */
  ghost predicate Consistent(c: Ctx, parse: ParserState)
    reads c`stack, c`nodes, c`tokens, c`strings, c`shadow, c`lexed, c`shifted, parse`stackIdx, parse`state
    reads parse`execRootIdx
    reads c`texts, c`delims, c`bodies, c`pieces
  {
    && StackAgrees(c, parse)
    && TokensOk(c.tokens, c.strings, c.lexed, c.texts, c.delims)
    && BodiesOk(c.bodies, c.pieces, c.delims, c.lexed, c.texts)
  }

  /** A delimiter waits for its body. */
  predicate Waits(parse: ParserState)
    reads parse`saveTokens, parse`hereBody
  {
    parse.saveTokens || parse.hereBody
  }

  ghost predicate DelimitersOk(c: Ctx, waiting: bool)
    reads c`shadow, c`delims, c`bodies, c`lexed, c`shifted
  {
    HereOk(c.shadow, c.delims, |c.bodies|, c.lexed, c.shifted, waiting)
  }

  /**
   * The pieces so far and what the lexer has not covered are the whole input, the tokens so far
   * are its first line's until a body is read, and the input only ends in the last body.
   */
  ghost predicate ReadOk(c: Ctx, lex: LexerState, input: Input)
    reads c`readLine, c`unread, c`lexed, c`pieces, c`texts, c`bodies, c`delims, c`moments, c`env, c`returnStatus, lex
  {
    && HistoryOk(c.readLine, lex.Value(), c.unread, c.lexed, c.pieces, c.texts, |c.bodies|, c.delims, c.moments, input)
    && IsNow(c)
  }

  ghost predicate HistoryOk(readLine: Option<string>, s: LexState, unread: seq<string>, lexed: seq<Token>,
                            pieces: seq<Piece>,
                            texts: seq<string>, served: nat, delims: seq<nat>, moments: seq<Moment>, input: Input)
  {
    && InputOk(readLine, s, unread, lexed)
    && PiecesOk(pieces, texts, Unpieced(readLine, s, unread), Whole(input))
    && FirstLineOk(input, served, readLine, s, unread, lexed, texts, pieces)
    && EndOk(readLine.None?, pieces, delims, lexed)
    && Timed(pieces, moments)
  }

  /** That there are more delimiters and moments changes nothing about what was read. */
  lemma HistoryGrows(readLine: Option<string>, s: LexState, unread: seq<string>, lexed: seq<Token>, pieces: seq<Piece>,
                     texts: seq<string>, served: nat, delims: seq<nat>, moments: seq<Moment>, input: Input,
                     delims': seq<nat>, moments': seq<Moment>)
    requires HistoryOk(readLine, s, unread, lexed, pieces, texts, served, delims, moments, input)
    requires delims <= delims' && moments <= moments'
    ensures HistoryOk(readLine, s, unread, lexed, pieces, texts, served, delims', moments', input)
  {
    hide InputOk, PiecesOk, FirstLineOk, EndOk, Unpieced, Timed;
    EndGrows(readLine.None?, pieces, delims, lexed, delims');
    TimedGrows(pieces, moments, pieces, moments');
  }

  /** The invariant between two calls of the tokenizer, within a token too. */
  ghost predicate Core(c: Ctx, parse: ParserState, lex: LexerState, input: Input)
    reads c`stack, c`nodes, c`tokens, c`strings, c`shadow, c`lexed, c`shifted, parse`stackIdx, parse`state
    reads parse`execRootIdx, parse`saveTokens, parse`hereBody
    reads c`texts, c`delims, c`bodies, c`pieces, c`readLine, c`unread, c`moments, c`env, c`returnStatus, lex
  {
    Consistent(c, parse) && DelimitersOk(c, Waits(parse)) && ReadOk(c, lex, input)
  }

  /** The invariant between two tokens. */
  ghost predicate RunOk(c: Ctx, parse: ParserState, lex: LexerState, input: Input)
    reads c`stack, c`nodes, c`tokens, c`strings, c`shadow, c`lexed, c`shifted, parse`stackIdx, parse`state
    reads parse`execRootIdx, parse
    reads c`texts, c`delims, c`bodies, c`pieces, c`readLine, c`unread, c`moments, c`env, c`returnStatus, lex
  {
    Core(c, parse, lex, input) && !lex.building && FlowOk(c.lexed, c.shifted, FlowOf(parse))
  }

  // ---- Lexing ----------------------------------------------------------------------------

  lemma TokensGrowStack(stack: seq<Entry>, nodes: seq<Node>, tokens: seq<TokenRecord>, shadow: seq<Shadow>,
                        t: TokenRecord)
    requires StackOk(stack, nodes, tokens, shadow, false)
    ensures StackOk(stack, nodes, tokens + [t], shadow, false)
  {
    hide IsPath, EntryOk, StackOk;
    StackBottom(stack, nodes, tokens, shadow, false);
    forall i | 0 <= i < |shadow|
      ensures EntryOk(nodes, tokens + [t], stack[i + 1], shadow[i], false) && shadow[i].lo == Mark(shadow, i)
    {
      StackEntry(stack, nodes, tokens, shadow, false, i);
      EntryGrows(nodes, tokens, stack[i + 1], shadow[i], t);
    }
    NewStackOk(stack, nodes, tokens + [t], shadow, false);
  }

  lemma EntryGrows(nodes: seq<Node>, tokens: seq<TokenRecord>, e: Entry, s: Shadow, t: TokenRecord)
    requires EntryOk(nodes, tokens, e, s, false)
    ensures EntryOk(nodes, tokens + [t], e, s, false)
  {
    hide ChainOk, IsDerivation, Yield, Root;
  }

  /** What a delimited token does to the values the invariant speaks of. */
  lemma DelimitedOk(line: string, s: LexState, unread: seq<string>, tokens: seq<TokenRecord>, strings: seq<string>,
                    lexed: seq<Token>, texts: seq<string>, pieces: seq<Piece>, served: nat, delims: seq<nat>,
                    moments: seq<Moment>, input: Input)
    requires HistoryOk(Some(line), s, unread, lexed, pieces, texts, served, delims, moments, input) && !s.atEoi
    requires LexOk(line, s) && LexStep(line, s).Delimited?
    requires TokensOk(tokens, strings, lexed, texts, delims) && |lexed| + 1 !in delims
    ensures var step := LexStep(line, s); var x := step.lexeme; var token := TokenOf(|strings|, x.text, x.flags);
      && TokensOk(tokens + [TokenRecord(|strings|, x.kind, x.flags)], strings + [x.text], lexed + [token], texts
        + [x.text], delims)
      && HistoryOk(Some(line), step.state, unread, lexed + [token], pieces + StepPieces(line, s), texts + [x.text],
                   served, delims, moments, input)
      && !step.state.building && IsTokenKind(token.kind)
      && BodyPieces(pieces + StepPieces(line, s)) == BodyPieces(pieces)
  {
    hide LexStep, LexOk, WordOk, PlainSoFar, ClassifyToken, TokensOk, PiecesOk, IsPlainWord, FirstLineOk, EndOk, Timed,
      HoldsQuotes;
    StepKeepsLine(line, s, lexed);
    StepKeepsPieces(line, s, unread, pieces, texts, Whole(input));
    NoBodies(line, s, pieces);
    ClassifiedAsLexed(line, s);
    ClearFlagsArePlain(line, s);
    StepKeepsFirstLine(input, served, line, s, unread, lexed, texts, pieces, pieces + StepPieces(line, s));
    StringsOfTokens(tokens, strings, lexed, texts, delims);
    var x := LexStep(line, s).lexeme;
    TokensGrow(tokens, strings, lexed, texts, delims, x.kind, x.flags, x.text);
    EndLexes(pieces, delims, lexed, pieces + StepPieces(line, s), lexed + [TokenOf(|strings|, x.text, x.flags)]);
    TimedGrows(pieces, moments, pieces + StepPieces(line, s), moments);
  }

  lemma ContinuedOk(line: string, s: LexState, unread: seq<string>, lexed: seq<Token>, texts: seq<string>,
                    pieces: seq<Piece>,
                    served: nat, delims: seq<nat>, moments: seq<Moment>, input: Input)
    requires HistoryOk(Some(line), s, unread, lexed, pieces, texts, served, delims, moments, input) && !s.atEoi
    requires LexOk(line, s) && LexStep(line, s).Continue?
    ensures HistoryOk(Some(line), LexStep(line, s).state, unread, lexed, pieces + StepPieces(line, s), texts, served,
      delims, moments, input)
    ensures BodyPieces(pieces + StepPieces(line, s)) == BodyPieces(pieces)
  {
    hide LexStep, LexOk, WordOk, PlainSoFar, PiecesOk, FirstLineOk, EndOk, Timed;
    StepKeepsLine(line, s, lexed);
    StepKeepsPieces(line, s, unread, pieces, texts, Whole(input));
    NoBodies(line, s, pieces);
    assert texts + [] == texts;
    StepKeepsFirstLine(input, served, line, s, unread, lexed, texts, pieces, pieces + StepPieces(line, s));
    EndLexes(pieces, delims, lexed, pieces + StepPieces(line, s), lexed);
    TimedGrows(pieces, moments, pieces + StepPieces(line, s), moments);
  }

  lemma NoBodies(line: string, s: LexState, pieces: seq<Piece>)
    requires LexOk(line, s)
    ensures BodyPieces(pieces + StepPieces(line, s)) == BodyPieces(pieces)
  {
    hide LexStep, LexOk, TextOf, TokenTexts, StepPieces, BodyPieces;
    var ps := StepPieces(line, s);
    StepPiecesShape(line, s);
    if |ps| == 0 {
      assert pieces + ps == pieces;
    } else {
      PiecesSnoc(pieces, ps[0]);
      if |ps| == 1 {
        assert ps == [ps[0]];
      } else {
        PiecesSnoc(pieces + [ps[0]], ps[1]);
        assert pieces + [ps[0]] + [ps[1]] == pieces + ps;
      }
    }
  }

  /** The stack is where it was, in arenas with the tokens. */
  ghost predicate StackIn(c: Ctx, parse: ParserState, tokens: seq<TokenRecord>)
    reads c`stack, c`nodes, c`shadow, parse`stackIdx, parse`state, parse`execRootIdx
  {
    && StackOk(c.stack, c.nodes, tokens, c.shadow, false) && |c.stack| == |c.shadow| + 1 && parse.stackIdx == |c.shadow|
    && parse.state == c.stack[parse.stackIdx].state && parse.execRootIdx == 0
  }

  lemma StackParts(c: Ctx, parse: ParserState)
    requires StackAgrees(c, parse)
    ensures StackIn(c, parse, c.tokens) && Agrees(c.lexed, Machine(c), c.shifted)
  {
    hide StackOk, AgreesOn, IsPath;
  }

  /** One more token changes nothing about the stack, whichever it is. */
  lemma NoteToken(c: Ctx, parse: ParserState, tokens: seq<TokenRecord>, t: TokenRecord, lexed: seq<Token>, token: Token)
    requires StackIn(c, parse, tokens) && Agrees(lexed, Machine(c), c.shifted) && IsTokenKind(token.kind)
    requires HereOk(c.shadow, c.delims, |c.bodies|, lexed, c.shifted, Waits(parse))
    requires c.tokens == tokens + [t] && c.lexed == lexed + [token]
    requires TokensOk(c.tokens, c.strings, c.lexed, c.texts, c.delims)
    ensures StackAgrees(c, parse) && DelimitersOk(c, Waits(parse))
  {
    hide StackOk, Agrees, HereOk, TokensOk, Machine;
    TokensGrowStack(c.stack, c.nodes, tokens, c.shadow, t);
    OffsetsInStrings(c.tokens, c.strings, c.lexed, c.texts, c.delims);
    AgreesGrows(lexed, Machine(c), c.shifted, token);
    HereGrows(c.shadow, c.delims, |c.bodies|, lexed, c.shifted, Waits(parse), token);
  }

  /** One call of the tokenizer, and what it does to tokens, texts and pieces. */
  method LexOnce(c: Ctx, lex: LexerState, ghost input: Input) returns (delimited: bool)
    requires ReadOk(c, lex, input) && TokensOk(c.tokens, c.strings, c.lexed, c.texts, c.delims)
    requires BodiesOk(c.bodies, c.pieces, c.delims, c.lexed, c.texts)
    requires |c.lexed| + 1 !in c.delims && c.readLine.Some? && !lex.atEoi
    modifies lex, c`tokens, c`strings, c`lexed, c`texts, c`pieces
    ensures ReadOk(c, lex, input) && TokensOk(c.tokens, c.strings, c.lexed, c.texts, c.delims)
    ensures BodiesOk(c.bodies, c.pieces, c.delims, c.lexed, c.texts)
    ensures delimited ==>
              && |c.tokens| == |old(c.tokens)| + 1 && |c.lexed| == |old(c.lexed)| + 1 && !lex.building
              && c.tokens == old(c.tokens) + [c.tokens[|old(c.tokens)|]]
              && c.lexed == old(c.lexed) + [c.lexed[|old(c.lexed)|]] && IsTokenKind(c.lexed[|old(c.lexed)|].kind)
    ensures !delimited ==> c.tokens == old(c.tokens) && c.strings == old(c.strings) && c.lexed == old(c.lexed)
    ensures lex.idx <= |c.readLine.value|
    ensures Remaining(c.readLine.value, lex.Value()) <= old(Remaining(c.readLine.value, lex.Value()))
    ensures delimited || !lex.atEoi ==>
              Remaining(c.readLine.value, lex.Value()) < old(Remaining(c.readLine.value, lex.Value()))
  {
    hide LexStep, LexOk, ClassifyToken, TokensOk, BodiesOk, StepPieces, Remaining, HistoryOk, BodyPieces, IsNow,
      TokenOf, Whole;
    ghost var line, s := c.readLine.value, lex.Value();
    LexerIsOk(c, lex, input);
    StepMakesProgress(line, s);
    if LexStep(line, s).Delimited? {
      DelimitedOk(line, s, c.unread, c.tokens, c.strings, c.lexed, c.texts, c.pieces, |c.bodies|, c.delims, c.moments,
        input);
    } else {
      ContinuedOk(line, s, c.unread, c.lexed, c.texts, c.pieces, |c.bodies|, c.delims, c.moments, input);
    }
    ghost var pieces, lexed, texts, strings := c.pieces, c.lexed, c.texts, c.strings;
    delimited := LexToken(c, lex);
    c.pieces := c.pieces + StepPieces(line, s);
    if delimited {
      ghost var x := LexStep(line, s).lexeme;
      c.lexed, c.texts := c.lexed + [TokenOf(|strings|, x.text, x.flags)], c.texts + [x.text];
    }
    BodiesGrow(c.bodies, pieces, c.delims, lexed, texts, c.pieces, c.delims, c.lexed, c.texts);
  }

  /** One call of the tokenizer; the token it may delimit is lexed from then on. */
  method Lex(c: Ctx, parse: ParserState, lex: LexerState, ghost input: Input) returns (delimited: bool)
    requires Core(c, parse, lex, input) && c.readLine.Some? && !lex.atEoi
    modifies lex, c`tokens, c`strings, c`lexed, c`texts, c`pieces
    ensures Core(c, parse, lex, input)
    ensures delimited ==> |c.lexed| == |old(c.lexed)| + 1 && old(c.lexed) <= c.lexed && !lex.building
    ensures !delimited ==> c.lexed == old(c.lexed)
    ensures lex.idx <= |c.readLine.value|
    ensures Remaining(c.readLine.value, lex.Value()) <= old(Remaining(c.readLine.value, lex.Value()))
    ensures delimited || !lex.atEoi ==>
              Remaining(c.readLine.value, lex.Value()) < old(Remaining(c.readLine.value, lex.Value()))
  {
    hide TokensOk, BodiesOk, HereOk, Agrees, StackOk, Remaining, ReadOk, Machine, StackAgrees, StackIn,
      LexerState.Value;
    NextIsNoDelimiter(c, Waits(parse));
    StackParts(c, parse);
    ghost var lexed, tokens := c.lexed, c.tokens;
    delimited := LexOnce(c, lex, input);
    if delimited {
      NoteToken(c, parse, tokens, c.tokens[|tokens|], lexed, c.lexed[|lexed|]);
    }
  }

  lemma StringsOfTokens(tokens: seq<TokenRecord>, strings: seq<string>, lexed: seq<Token>, texts: seq<string>,
                        delims: seq<nat>)
    requires TokensOk(tokens, strings, lexed, texts, delims)
    ensures |strings| == |lexed| + 1
  {
    hide TokenAt;
  }

  lemma LexerIsOk(c: Ctx, lex: LexerState, input: Input)
    requires ReadOk(c, lex, input) && c.readLine.Some?
    ensures LexOk(c.readLine.value, lex.Value()) && lex.idx <= |c.readLine.value|
  {
    hide PiecesOk, FirstLineOk, EndOk, Timed;
  }

  lemma NextIsNoDelimiter(c: Ctx, waiting: bool)
    requires DelimitersOk(c, waiting)
    ensures |c.lexed| + 1 !in c.delims
  {
    hide StackServed, IsHereCell;
  }

  // ---- Bodies ----------------------------------------------------------------------------

  /** The delimiter's string is the word without its quotes, and its flag says if it had any. */
  lemma WaitingRecord(c: Ctx, parse: ParserState)
    requires StackAgrees(c, parse) && DelimitersOk(c, true)
    requires TokensOk(c.tokens, c.strings, c.lexed, c.texts, c.delims)
    ensures c.shadow != [] && |c.stack| == |c.shadow| + 1 && parse.stackIdx == |c.shadow|
    ensures var i := c.stack[|c.shadow|].node; var top := c.shadow[|c.shadow| - 1]; var n := c.shifted;
      && i < |c.nodes| && top.chain.Cell? && top.chain.data.Redir?
        && c.nodes[i] == Node(top.chain.data, 0, top.chain.flags)
      && 0 < n <= |c.lexed| && n < |c.strings| && c.nodes[i].data.offset == n == c.delims[|c.bodies|]
      && c.strings[n] == QuoteRemove(c.texts[n - 1])
      && (RedirHasQuotes in c.nodes[i].flags) == (c.lexed[n - 1].flags % 2 == TKN_HAS_QUOTES) && |c.texts| == |c.lexed|
  {
    hide IsPath, StackOk, AgreesOn, ChainOk, IsDerivation, IsToken, StackServed, QuoteRemove, ClassifyToken,
      IsPlainWord;
    FdKeepsStack(c.stack, c.nodes, c.tokens, c.shadow, c.lexed[c.shifted - 1], 0);
    assert TokenAt(c.tokens, c.strings, c.delims, c.lexed, c.texts, c.shifted);
  }

  /** A line with a here-document ends in a newline, if one was lexed. */
  lemma WaitingLine(c: Ctx, parse: ParserState, lex: LexerState)
    requires StackAgrees(c, parse) && DelimitersOk(c, true) && InputOk(c.readLine, lex.Value(), c.unread, c.lexed)
    ensures !NoHereTokens(c.lexed)
    ensures c.readLine.Some? && LastIsNewline(c.lexed) ==> EndsInNewline(c.readLine.value)
    ensures c.readLine.Some? && !EndsInNewline(c.readLine.value) ==> '\n' !in c.readLine.value && NoNewlines(c.lexed)
  {
    hide StackOk, AgreesOn, IsPath, IsEdge, IsDerivation, StackServed, IsHereCell, NoHereTokens, LexOk, WordOk,
      PlainSoFar;
    MachineOk(c, parse);
    var fs := Machine(c);
    assert fs[|fs| - 1].tree == c.shadow[|c.shadow| - 1].tree;
    HereIsLexed(fs, c.lexed, c.shifted);
  }

  /** Between two tokens only the position matters to the lexer's invariant. */
  lemma AtLineIsInput(c: Ctx, lex: LexerState)
    requires AtLine(c, lex) && !lex.atEoi && LastIsNewline(c.lexed)
    ensures InputOk(c.readLine, lex.Value(), c.unread, c.lexed)
  {
  }

  lemma InputIsAtLine(c: Ctx, lex: LexerState)
    requires InputOk(c.readLine, lex.Value(), c.unread, c.lexed) && c.readLine.Some? && !lex.building
    requires EndsInNewline(c.readLine.value)
    ensures AtLine(c, lex) && Unpieced(c.readLine, lex.Value(), c.unread) == ToRead(c, lex)
  {
  }

  /** A here-document waits for its body, but the input ended in one on the same line. */
  ghost predicate NoLineForBody(c: Ctx)
    reads c`pieces, c`delims, c`lexed
  {
    EndedInBody(c.pieces, c.delims, c.lexed)
  }

  /** The first line's tokens come first, and the input only ended in the last body. */
  ghost predicate SoFar(c: Ctx, input: Input)
    reads c`readLine, c`unread, c`lexed, c`texts, c`pieces, c`bodies, c`delims, c`moments
  {
    && Timed(c.pieces, c.moments)
    && FirstTokens(input, |c.bodies|, c.readLine, c.unread, c.lexed, c.texts, c.pieces)
    && EndOk(c.readLine.None?, c.pieces, c.delims, c.lexed)
  }

  lemma ReadSoFar(c: Ctx, lex: LexerState, input: Input)
    requires ReadOk(c, lex, input)
    ensures SoFar(c, input) && (c.bodies == [] && lex.atEoi ==> c.lexed == LineTokens(input.line))
  {
    hide InputOk, PiecesOk, FirstLineOk, FirstTokens, EndOk, LineTokens, Timed, Unpieced;
    FirstLineTokens(input, |c.bodies|, c.readLine, lex.Value(), c.unread, c.lexed, c.texts, c.pieces);
  }

  /** Every delimiter so far has its body. */
  ghost predicate AllServed(c: Ctx)
    reads c`delims, c`bodies
  {
    |c.delims| == |c.bodies|
  }

  lemma EndIsInput(c: Ctx, lex: LexerState)
    requires c.readLine.None? && c.unread == [] && lex.atEoi && !lex.building && lex.kind == NoToken && !lex.interrupted
    requires LastIsNewline(c.lexed)
    ensures InputOk(c.readLine, lex.Value(), c.unread, c.lexed)
  {
  }

  /** The waiting record gets the descriptor of the body that was read for it. */
  method StoreBody(c: Ctx, parse: ParserState, i: nat, fd: int, ghost bodies: seq<string>, ghost text: string,
                   ghost p: Piece)
    requires StackAgrees(c, parse) && TokensOk(c.tokens, c.strings, c.lexed, c.texts, c.delims)
    requires HereOk(c.shadow, c.delims, |bodies|, c.lexed, c.shifted, true) && |c.stack| == |c.shadow| + 1
    requires i == c.stack[|c.shadow|].node
    requires c.bodies == bodies + [text] && BodiesOk(bodies, c.pieces, c.delims, c.lexed, c.texts)
    requires p.BodyPiece? && 0 < c.shifted <= |c.texts| == |c.lexed| && p.delim == QuoteRemove(c.texts[c.shifted - 1])
    requires p.quoted == (c.lexed[c.shifted - 1].flags % 2 == TKN_HAS_QUOTES)
    requires text == BodyText(p.now.env, p.now.status, p.quoted, p.lines) && NoDelimLine(p)
    modifies c`nodes, c`shadow, c`pieces
    ensures Consistent(c, parse) && c.pieces == old(c.pieces) + [p] && Machine(c) == old(Machine(c))
    ensures TopRoot(c.shadow) == SYM_IO_HERE
    ensures fd == |bodies| ==> DelimitersOk(c, false)
  {
    hide TokensOk, BodiesOk, HereOk, Agrees, StackOk, BodyText, IsHereCell, QuoteRemove, Frames;
    HereServes(c.shadow, c.delims, |bodies|, c.lexed, c.shifted);
    FdKeepsStack(c.stack, c.nodes, c.tokens, c.shadow, c.lexed[c.shifted - 1], fd);
    SameFrames(c.stack, c.shadow, fd, c.lexed[c.shifted - 1]);
    DelimIsLast(c.shadow, c.delims, |bodies|, c.lexed, c.shifted);
    BodyRead(bodies, c.pieces, c.delims, c.lexed, c.texts, text, p);
    c.nodes := c.nodes[i := c.nodes[i].(data := c.nodes[i].data.(fd := fd))];
    ghost var top := c.shadow[|c.shadow| - 1];
    c.shadow := c.shadow[|c.shadow| - 1 := top.(chain := WithFd(top.chain, fd))];
    c.pieces := c.pieces + [p];
  }

  lemma SameFrames(stack: seq<Entry>, shadow: seq<Shadow>, fd: int, word: Token)
    requires |stack| == |shadow| + 1 && shadow != [] && IsHereCell(shadow[|shadow| - 1].chain, word)
    ensures var top := shadow[|shadow| - 1];
      && top.chain.Cell? && top.chain.data.Redir?
      && Frames(stack, shadow[|shadow| - 1 := top.(chain := WithFd(top.chain, fd))]) == Frames(stack, shadow)
      && TopRoot(shadow[|shadow| - 1 := top.(chain := WithFd(top.chain, fd))]) == TopRoot(shadow)
  {
  }

  lemma DelimIsLast(shadow: seq<Shadow>, delims: seq<nat>, served: nat, lexed: seq<Token>, n: nat)
    requires HereOk(shadow, delims, served, lexed, n, true)
    ensures |delims| == served + 1 && delims[served] == n && TopRoot(shadow) == SYM_IO_HERE
  {
  }

  lemma BodyCount(c: Ctx)
    requires BodiesOk(c.bodies, c.pieces, c.delims, c.lexed, c.texts)
    ensures |BodyPieces(c.pieces)| == |c.bodies|
  {
    hide BodyAt;
  }

  lemma LineForBody(c: Ctx, parse: ParserState, lex: LexerState, input: Input)
    requires StackAgrees(c, parse) && DelimitersOk(c, true) && ReadOk(c, lex, input) && c.readLine.Some?
    requires !lex.building && RestOfLine(c.lexed, c.shifted)
    ensures AtLine(c, lex)
  {
    hide StackAgrees, HereOk, PiecesOk, FirstLineOk, EndOk, Timed, RestOfLine;
    NewlineLast(c.lexed, c.shifted);
    WaitingLine(c, parse, lex);
    InputIsAtLine(c, lex);
  }

  /** Reads a body from the current line on, expanded as of now. */
  method ReadNewBody(c: Ctx, lex: LexerState, delim: string, quoted: bool) returns (ghost p: Piece)
    requires AtLine(c, lex) && c.moments != []
    modifies c`bodies, c`readLine, c`unread, lex
    ensures p.BodyPiece? && p.delim == delim && p.quoted == quoted && p.at == |c.moments| - 1
    ensures p.now == Moment(c.env, c.returnStatus)
    ensures c.bodies == old(c.bodies) + [BodyText(p.now.env, p.now.status, quoted, p.lines)]
    ensures old(ToRead(c, lex)) == Joined(p.lines) + (if p.closed then delim + "\n" else []) + ToRead(c, lex)
    ensures forall i :: 0 <= i < |p.lines| ==> IsLine(p.lines[i]) && p.lines[i] != delim + "\n"
    ensures p.closed ==> AtLine(c, lex) && !lex.atEoi
    ensures !p.closed ==>
      c.readLine == None && c.unread == [] && !lex.building && lex.kind == NoToken && lex.atEoi
        && lex.interrupted == c.sigint
    ensures Left(c, lex) < old(Left(c, lex))
    ensures old(lex.idx) == |old(c.readLine).value| && AreSingle(old(c.unread)) ==>
              old(c.unread) == LinesOf(p) + c.unread && (p.closed ==> lex.idx == |c.readLine.value|)
  {
    hide AtLine, ToRead, Left, BodyText, IsLine, AreSingle, Joined;
    var fd := |c.bodies|;
    c.bodies := c.bodies + [""];
    ghost var lines, closed := ReadBody(c, lex, delim, quoted, fd);
    p := BodyPiece(lines, delim, quoted, |c.moments| - 1, Moment(c.env, c.returnStatus), closed);
    assert "" + BodyText(c.env, c.returnStatus, quoted, lines) == BodyText(c.env, c.returnStatus, quoted, lines);
  }

  /** Reads the waiting body from the current line on. */
  method ReadWaitingBody(c: Ctx, parse: ParserState, lex: LexerState, ghost input: Input)
    requires Consistent(c, parse) && DelimitersOk(c, true) && ReadOk(c, lex, input) && !lex.building && c.readLine.Some?
    requires RestOfLine(c.lexed, c.shifted)
    modifies c`nodes, c`shadow, c`bodies, c`readLine, c`unread, c`pieces, lex
    ensures Consistent(c, parse) && AllServed(c) && (lex.interrupted ==> c.sigint)
    ensures !lex.interrupted ==>
      DelimitersOk(c, false) && ReadOk(c, lex, input) && !lex.building && Left(c, lex) < old(Left(c, lex))
    ensures Machine(c) == old(Machine(c)) && |c.stack| == |c.shadow| + 1 && TopRoot(c.shadow) == SYM_IO_HERE
  {
    hide TokensOk, BodiesOk, HereOk, StackAgrees, Rest, InputLeft, IsLine, BodyText, Agrees, StackOk, QuoteRemove,
      RestOfLine, HistoryOk, Frames, BodyPieces, EntryOk, IsPath, WithFd, AreSingle, LinesOf, Joined, Left;
    DelimIsLast(c.shadow, c.delims, |c.bodies|, c.lexed, c.shifted);
    WaitingRecord(c, parse);
    LineForBody(c, parse, lex, input);
    var i := c.stack[parse.stackIdx].node;
    var node := c.nodes[i];
    var fd := |c.bodies|;
    ghost var bodies, pieces, before := c.bodies, c.pieces, lex.Value();
    ghost var p := ReadNewBody(c, lex, c.strings[node.data.offset], RedirHasQuotes in node.flags);
    StoreBody(c, parse, i, if lex.interrupted then -1 else fd, bodies, c.bodies[fd], p);
    BodyCount(c);
    if !lex.interrupted {
      BodyIsRead(c, lex, input, |bodies|, old(c.readLine), before, old(c.unread), pieces, p);
    }
  }

  /** What reading a body does to the history. */
  lemma BodyIsRead(c: Ctx, lex: LexerState, input: Input, served: nat, readLine: Option<string>, s: LexState,
                   unread: seq<string>,
                   pieces: seq<Piece>, p: Piece)
    requires HistoryOk(readLine, s, unread, c.lexed, pieces, c.texts, served, c.delims, c.moments, input) && IsNow(c)
    requires readLine.Some? && !s.building && s.idx <= |readLine.value|
    requires c.pieces == pieces + [p] && p.BodyPiece? && p.at == |c.moments| - 1
    requires p.now == Moment(c.env, c.returnStatus)
    requires |c.bodies| == |BodyPieces(c.pieces)| == served + 1 == |c.delims| && c.delims[served] == c.shifted
    requires Rest(readLine, s.idx, unread)
      == Joined(p.lines) + (if p.closed then p.delim + "\n" else []) + ToRead(c, lex)
    requires RestOfLine(c.lexed, c.shifted)
    requires forall i :: 0 <= i < |p.lines| ==> IsLine(p.lines[i]) && p.lines[i] != p.delim + "\n"
    requires p.closed ==> AtLine(c, lex) && !lex.atEoi
    requires !p.closed ==>
      c.readLine == None && c.unread == [] && !lex.building && lex.kind == NoToken && lex.atEoi && !lex.interrupted
    requires s.idx == |readLine.value| && AreSingle(unread) ==>
      unread == LinesOf(p) + c.unread && (p.closed ==> lex.idx == |c.readLine.value|)
    requires EndsInNewline(readLine.value)
    ensures ReadOk(c, lex, input) && !lex.building
  {
    hide PiecesOk, InputOk, FirstLineOk, EndOk, Timed, IsLine, Rest, RestOfLine, BodyPieces, TextOf, TokenTexts,
      AreSingle, LinesOf;
    PiecesSnoc(pieces, p);
    UnpiecedBetween(readLine, s, unread);
    ReadOn(c, lex, Whole(input), pieces, Rest(readLine, s.idx, unread), p);
    EndReads(pieces, c.delims, c.lexed, p);
    BodyKeepsFirstLine(input, served, readLine, s, unread, c, lex, pieces, p);
    TimedReads(pieces, c.moments, p);
  }

  lemma UnpiecedBetween(readLine: Option<string>, s: LexState, unread: seq<string>)
    requires !s.building
    ensures Unpieced(readLine, s, unread) == Rest(readLine, s.idx, unread)
  {
  }

  /** Reads the waiting here-document's body and gives its record the descriptor. */
  method GetHereDoc(c: Ctx, parse: ParserState, lex: LexerState, ghost input: Input)
    requires Consistent(c, parse) && DelimitersOk(c, true) && ReadOk(c, lex, input) && !lex.building && !c.fault
    requires RestOfLine(c.lexed, c.shifted)
    modifies c`nodes, c`shadow, c`bodies, c`readLine, c`unread, c`pieces, c`fault, lex
    ensures Consistent(c, parse) && c.fault == old(c.readLine).None?
    ensures c.fault ==> NoLineForBody(c) && SoFar(c, input) && !lex.interrupted
    ensures !c.fault ==> AllServed(c) && (lex.interrupted ==> c.sigint)
    ensures !c.fault && !lex.interrupted ==>
      DelimitersOk(c, false) && ReadOk(c, lex, input) && !lex.building && Left(c, lex) < old(Left(c, lex))
    ensures Machine(c) == old(Machine(c))
    ensures (!c.fault ==> |c.stack| == |c.shadow| + 1 && TopRoot(c.shadow) == SYM_IO_HERE)
  {
    hide TokensOk, PiecesOk, BodiesOk, HereOk, StackAgrees, Agrees, FirstLineOk, EndOk, RestOfLine, EndedInBody, SoFar,
      BodyPieces,
      InputLeft, Machine;
    if c.readLine.None? {
      DelimIsLast(c.shadow, c.delims, |c.bodies|, c.lexed, c.shifted);
      BodyCount(c);
      NoLineLeft(c.pieces, c.delims, c.lexed, c.shifted);
      ReadSoFar(c, lex, input);
      c.fault := true;
      return;
    }
    ReadWaitingBody(c, parse, lex, input);
  }

  lemma NewlineLast(lexed: seq<Token>, k: nat)
    requires RestOfLine(lexed, k)
    ensures LastIsNewline(lexed)
  {
  }

  /** The first line was lexed when its first body was read, and single lines are read as a whole. */
  lemma BodyKeepsFirstLine(input: Input, served: nat, readLine: Option<string>, s: LexState, unread: seq<string>,
                           c: Ctx, lex: LexerState, pieces: seq<Piece>, p: Piece)
    requires FirstLineOk(input, served, readLine, s, unread, c.lexed, c.texts, pieces) && !s.building && readLine.Some?
    requires RestOfLine(c.lexed, c.shifted) && |c.bodies| == served + 1 && EndsInNewline(readLine.value)
    requires c.pieces == pieces + [p] && p.BodyPiece? && BodyPieces(c.pieces) == BodyPieces(pieces) + [p]
    requires !p.closed ==> c.readLine.None? && c.unread == []
    requires p.closed ==> AtLine(c, lex)
    requires s.idx == |readLine.value| && AreSingle(unread) ==>
      unread == LinesOf(p) + c.unread && (p.closed ==> lex.idx == |c.readLine.value|)
    ensures FirstLineOk(input, |c.bodies|, c.readLine, lex.Value(), c.unread, c.lexed, c.texts, c.pieces)
  {
    hide LineTokens, LineTexts, Lexemes, TokensOf, RestOfLine, IsLine, LexOk, BodyPieces, LinesOf, BodyLines;
    NewlineLast(c.lexed, c.shifted);
    if IsLine(input.line) && served == 0 {
      FirstLineLexed(input, readLine, s, unread, c.lexed, c.texts, pieces);
    }
    if IsLine(input.line) && AreSingle(input.unread) {
      NoBodyLines();
      BodyLinesSnoc(BodyPieces(pieces), p);
      RestIsSingle(input.unread, BodyLines(BodyPieces(pieces)), unread);
      BodyLinesRead(input.unread, BodyLines(BodyPieces(pieces)), unread, LinesOf(p), c.unread);
    }
  }

  lemma NoBodyLines()
    ensures BodyLines([]) == []
  {
  }

  lemma BodyLinesSnoc(bs: seq<Piece>, p: Piece)
    ensures BodyLines(bs + [p]) == BodyLines(bs) + LinesOf(p)
  {
    assert (bs + [p])[..|bs|] == bs;
  }

  /** The reading goes on behind the body. */
  lemma ReadOn(c: Ctx, lex: LexerState, whole: string, pieces: seq<Piece>, left: string, p: Piece)
    requires PiecesOk(pieces, c.texts, left, whole) && c.pieces == pieces + [p] && p.BodyPiece?
    requires left == Joined(p.lines) + (if p.closed then p.delim + "\n" else []) + ToRead(c, lex)
    requires RestOfLine(c.lexed, c.shifted)
    requires forall i :: 0 <= i < |p.lines| ==> IsLine(p.lines[i]) && p.lines[i] != p.delim + "\n"
    requires p.closed ==> AtLine(c, lex) && !lex.atEoi
    requires !p.closed ==>
      c.readLine == None && c.unread == [] && !lex.building && lex.kind == NoToken && lex.atEoi && !lex.interrupted
    ensures InputOk(c.readLine, lex.Value(), c.unread, c.lexed)
    ensures PiecesOk(c.pieces, c.texts, Unpieced(c.readLine, lex.Value(), c.unread), whole)
  {
    hide PiecesOk, IsLine, InputOk, Rest, RestOfLine;
    NewlineLast(c.lexed, c.shifted);
    PiecesGrow(pieces, c.texts, left, whole, p, ToRead(c, lex));
    assert c.texts + [] == c.texts;
    if p.closed {
      AtLineIsInput(c, lex);
    } else {
      EndIsInput(c, lex);
    }
  }

  // ---- Divert and replay -----------------------------------------------------------------

  method StartHereBody(parse: ParserState)
    modifies parse`saveTokens, parse`hasSavedTokens, parse`hereBody
    ensures !parse.saveTokens && parse.hasSavedTokens && parse.hereBody
  {
    parse.saveTokens := false;
    parse.hasSavedTokens, parse.hereBody := true, true;
  }

  /** Reads the body, and rewinds to the last token that was shifted. */
  method HandleHereBody(c: Ctx, parse: ParserState, lex: LexerState, ghost input: Input)
    requires RunOk(c, parse, lex, input) && parse.hereBody && !c.fault
    modifies c`nodes, c`shadow, c`bodies, c`readLine, c`unread, c`pieces, c`fault, lex, parse`hereBody, parse`tokenIdx
    ensures Consistent(c, parse) && c.fault == old(c.readLine).None? && !parse.hereBody
    ensures c.fault ==> NoLineForBody(c) && SoFar(c, input) && !lex.interrupted
    ensures !c.fault ==> AllServed(c) && (lex.interrupted ==> c.sigint)
    ensures !c.fault && !lex.interrupted ==>
              RunOk(c, parse, lex, input) && Left(c, lex) < old(Left(c, lex)) && parse.tokenIdx == c.shifted
    ensures Machine(c) == old(Machine(c))
  {
    hide TokensOk, PiecesOk, BodiesOk, HereOk, Agrees, ParserOk, InputOk, LexOk, Unpieced, InputLeft, ReadOk,
      EndedInBody, RestOfLine,
      SoFar;
    BodyIsSaved(c.lexed, c.shifted, FlowOf(parse));
    GetHereDoc(c, parse, lex, input);
    parse.hereBody := false;
    TopEntry(c, parse);
    if !c.fault {
      parse.tokenIdx := c.stack[parse.stackIdx].token;
    }
  }

  lemma TopEntry(c: Ctx, parse: ParserState)
    requires Consistent(c, parse)
    ensures |c.stack| == |c.shadow| + 1 && parse.stackIdx == |c.shadow|
    ensures TopRoot(c.shadow) == SYM_IO_HERE ==> c.stack[parse.stackIdx].token == c.shifted
  {
    hide IsPath, StackOk, AgreesOn, ChainOk, IsDerivation, IsToken, StackServed, IsHereCell, QuoteRemove, ClassifyToken,
      IsPlainWord, BodiesOk;
    StackBottom(c.stack, c.nodes, c.tokens, c.shadow, false);
    if TopRoot(c.shadow) == SYM_IO_HERE {
      var n := |c.shadow| - 1;
      StackEntry(c.stack, c.nodes, c.tokens, c.shadow, false, n);
      TopToken(Machine(c), c.lexed, c.shifted);
      TokenIn(c.tokens, c.strings, c.lexed, c.texts, c.delims, c.shifted);
    }
  }

  /** Takes the next saved token; the newline is the last of them. */
  method HandleSavedTokens(c: Ctx, parse: ParserState)
    requires TokensOk(c.tokens, c.strings, c.lexed, c.texts, c.delims) && DelimitersOk(c, Waits(parse))
    requires parse.hasSavedTokens
    requires c.shifted <= parse.tokenIdx && RestOfLine(c.lexed, parse.tokenIdx)
    modifies parse`hasSavedTokens, parse`tokenIdx
    ensures parse.tokenIdx == old(parse.tokenIdx) + 1 <= |c.lexed|
    ensures parse.hasSavedTokens == (c.lexed[parse.tokenIdx - 1].kind != SYM_NEWLINE)
    ensures SavedOk(c.lexed, parse.tokenIdx, parse.hasSavedTokens)
  {
    hide TokensOk, QuoteRemove, IsPlainWord, ClassifyToken, HereOk;
    TokenIn(c.tokens, c.strings, c.lexed, c.texts, c.delims, parse.tokenIdx + 1);
    NotYetDelimiter(c, Waits(parse), parse.tokenIdx + 1);
    var next := c.tokens[parse.tokenIdx + 1];
    var body := c.strings[next.offset];
    if body != [] && body[0] == '\n' {
      parse.hasSavedTokens := false;
    }
    parse.tokenIdx := parse.tokenIdx + 1;
  }

  /** Tokens that are not shifted still have their text. */
  lemma NotYetDelimiter(c: Ctx, waiting: bool, i: nat)
    requires DelimitersOk(c, waiting) && c.shifted < i
    ensures i !in c.delims
  {
    hide StackServed, IsHereCell;
  }

  /** All of the line was read, lexed and shifted. */
  ghost predicate Ended(c: Ctx, parse: ParserState, input: Input)
    reads c`stack, c`nodes, c`tokens, c`strings, c`shadow, c`lexed, c`shifted, parse
    reads c`texts, c`delims, c`bodies, c`pieces, c`unread, c`readLine, c`moments
  {
    && Consistent(c, parse) && DelimitersOk(c, false) && PiecesOk(c.pieces, c.texts, Joined(c.unread), Whole(input))
    && c.shifted == |c.lexed| == parse.tokenIdx && (LineEnds(c.lexed) || '\n' !in input.line) && !Waits(parse)
    && !parse.hasSavedTokens && !parse.hasLookahead
    && SoFar(c, input) && (c.bodies == [] ==> c.lexed == LineTokens(input.line))
  }

  /** The line, which does not end in a newline, ended while a here-document waited for one. */
  ghost predicate EndedOpen(c: Ctx, parse: ParserState, input: Input)
    reads c`stack, c`nodes, c`tokens, c`strings, c`shadow, c`lexed, c`shifted, parse
    reads c`texts, c`delims, c`bodies, c`pieces, c`unread, c`readLine, c`moments
  {
    && parse.saveTokens && Consistent(c, parse) && DelimitersOk(c, true) && SoFar(c, input)
    && '\n' !in input.line && c.bodies == [] && c.lexed == LineTokens(input.line)
  }

  ghost predicate NoMore(c: Ctx, parse: ParserState, input: Input)
    reads c`stack, c`nodes, c`tokens, c`strings, c`shadow, c`lexed, c`shifted, parse
    reads c`texts, c`delims, c`bodies, c`pieces, c`unread, c`readLine, c`moments
  {
    if parse.saveTokens then EndedOpen(c, parse, input) else Ended(c, parse, input)
  }

  lemma LineIsRead(c: Ctx, parse: ParserState, lex: LexerState, input: Input)
    requires Core(c, parse, lex, input) && FlowOk(c.lexed, c.shifted, FlowOf(parse))
    requires lex.atEoi && !parse.hereBody && !parse.hasSavedTokens && !parse.hasLookahead
    ensures NoMore(c, parse, input)
  {
    hide TokensOk, PiecesOk, BodiesOk, HereOk, StackAgrees, LexOk, WordOk, PlainSoFar, SoFar, LineTokens, FirstLineOk,
      EndOk, NoHereTokens, LineTexts;
    ReadSoFar(c, lex, input);
    assert Unpieced(c.readLine, lex.Value(), c.unread) == Joined(c.unread);
    if Waits(parse) { WaitingLine(c, parse, lex); }
    if c.readLine.Some? && !EndsInNewline(c.readLine.value) { OnFirstLine(c, lex, input); }
  }

  /** Only the first line may lack its newline. */
  lemma OnFirstLine(c: Ctx, lex: LexerState, input: Input)
    requires ReadOk(c, lex, input) && c.readLine.Some? && !EndsInNewline(c.readLine.value)
    ensures c.bodies == [] && c.readLine.value == input.line
  {
    hide PiecesOk, InputOk, EndOk, Timed, LineTokens, LineTexts, OnlyBodies;
  }

  /** What is left to do before the next token is there: read a body, lex on, or find the end. */
  function ToLex(c: Ctx, lex: LexerState): nat
    reads c`readLine, lex
  {
    if c.readLine.Some? && lex.idx <= |c.readLine.value| then Remaining(c.readLine.value, lex.Value()) else 0
  }

  lemma LeftOfLine(c: Ctx, lex: LexerState)
    requires c.readLine.Some? && lex.idx <= |c.readLine.value| && !lex.building
    ensures Left(c, lex) == 1 + ToLex(c, lex) + LinesLeft(c.unread)
  {
  }

  lemma FlowLexes(before: seq<Token>, after: seq<Token>, n: nat, f: Flow)
    requires FlowOk(before, n, f) && !f.hereBody && !f.hasSaved && !f.hasLookahead
    requires before <= after && |after| == |before| + 1
    ensures Fetched(after, n, f.(tokenIdx := f.tokenIdx + 1))
  {
  }

  lemma FlowReplays(lexed: seq<Token>, n: nat, f: Flow)
    requires FlowOk(lexed, n, f) && !f.hereBody && f.hasSaved && !f.hasLookahead
    ensures n <= f.tokenIdx && RestOfLine(lexed, f.tokenIdx)
    ensures SavedOk(lexed, f.tokenIdx + 1, true) ==> Fetched(lexed, n, f.(tokenIdx := f.tokenIdx + 1, hasSaved := true))
    ensures SavedOk(lexed, f.tokenIdx + 1, false) ==>
      Fetched(lexed, n, f.(tokenIdx := f.tokenIdx + 1, hasSaved := false))
  {
  }

  lemma BodyIsSaved(lexed: seq<Token>, n: nat, f: Flow)
    requires FlowOk(lexed, n, f) && f.hereBody
    ensures f.hasSaved && RestOfLine(lexed, n)
  {
  }

  /** Where a token came from. */
  datatype Source = Nowhere | FromLexer | FromSaved | FromBody

  /** What one pass of the loop did when it ended in a token. */
  twostate predicate Took(c: Ctx, parse: ParserState, lex: LexerState, source: Source)
    reads c`lexed, c`readLine, c`unread, lex, parse`tokenIdx
  {
    match source
    case FromLexer =>
      && !lex.building && c.readLine.Some? && c.readLine == old(c.readLine) && c.unread == old(c.unread)
        && ToLex(c, lex) < old(ToLex(c, lex))
    case FromSaved =>
      && !old(parse.hereBody) && old(parse.hasSavedTokens) && c.readLine == old(c.readLine) && c.unread == old(c.unread)
        && lex.idx == old(lex.idx)
      && c.lexed == old(c.lexed) && parse.tokenIdx == old(parse.tokenIdx) + 1 && !old(lex.building) && !lex.building
    case FromBody => old(parse.hereBody) && Left(c, lex) < old(Left(c, lex)) && !old(lex.building) && !lex.building
    case Nowhere => false
  }

  /** One pass of the loop: `done` with or without a token, or still within one. */
  method NextPass(c: Ctx, parse: ParserState, lex: LexerState, ghost input: Input)
    returns (done: bool, ok: bool, ghost source: Source)
    requires Core(c, parse, lex, input) && FlowOk(c.lexed, c.shifted, FlowOf(parse)) && !parse.hasLookahead && !c.fault
    requires parse.hereBody || parse.hasSavedTokens ==> !lex.building
    modifies lex, c`tokens, c`strings, c`lexed, c`texts, c`pieces
    modifies c`nodes, c`shadow, c`bodies, c`readLine, c`unread, c`fault, parse`hereBody, parse`tokenIdx
    modifies parse`hasSavedTokens
    ensures Consistent(c, parse) && Machine(c) == old(Machine(c))
    ensures done && ok ==>
      Core(c, parse, lex, input) && !c.fault && Fetched(c.lexed, c.shifted, FlowOf(parse))
        && Took(c, parse, lex, source)
    ensures done && !ok ==> c.fault || lex.interrupted || NoMore(c, parse, input)
    ensures c.fault ==> done && !ok && !lex.interrupted && NoLineForBody(c) && SoFar(c, input)
    ensures done && !ok && lex.interrupted ==> AllServed(c) && c.sigint
    ensures !done ==>
      Core(c, parse, lex, input) && !c.fault && c.lexed == old(c.lexed) && FlowOf(parse) == old(FlowOf(parse))
    ensures !done ==>
      !parse.hereBody && !parse.hasSavedTokens && c.readLine == old(c.readLine) && c.unread == old(c.unread)
    ensures !done ==>
      ToLex(c, lex) < old(ToLex(c, lex)) || (ToLex(c, lex) == old(ToLex(c, lex)) && lex.atEoi && !old(lex.atEoi))
  {
    hide Core, Consistent, StackAgrees, TokensOk, PiecesOk, BodiesOk, HereOk, ParserOk, InputOk, Unpieced, LexOk,
      ReadOk, DelimitersOk, FlowOk,
      SoFar, EndedInBody, Fetched, RestOfLine, SavedOk, InputLeft, Remaining, LexStep, Machine, Ended, EndedOpen,
      LinesLeft;
    done, ok, source := true, false, Nowhere;
    CoreParts(c, parse, lex, input);
    ghost var hadBody := parse.hereBody;
    if parse.hereBody {
      BodyIsSaved(c.lexed, c.shifted, FlowOf(parse));
      HandleHereBody(c, parse, lex, input);
      if lex.interrupted || c.fault {
        return;
      }
      CoreParts(c, parse, lex, input);
    }
    if parse.hasSavedTokens {
      FlowReplays(c.lexed, c.shifted, FlowOf(parse));
      HandleSavedTokens(c, parse);
      return true, true, if hadBody then FromBody else FromSaved;
    }
    if lex.atEoi {
      LineIsRead(c, parse, lex, input);
      lex.Zero();
      return;
    }
    ghost var flow := FlowOf(parse);
    var delimited := Lex(c, parse, lex, input);
    CoreParts(c, parse, lex, input);
    if delimited {
      FlowLexes(old(c.lexed), c.lexed, c.shifted, flow);
      parse.tokenIdx := parse.tokenIdx + 1;
      return true, true, FromLexer;
    }
    done := false;
  }

  /**
   * The next token: a saved one, after the body if one is waiting to be read, or a new one. The
   * flags decide. Without a next token the input is at its end, or was interrupted.
   */
  method GetNextToken(c: Ctx, parse: ParserState, lex: LexerState, ghost input: Input) returns (ok: bool)
    requires RunOk(c, parse, lex, input) && !parse.hasLookahead && !c.fault
    modifies lex, c`tokens, c`strings, c`lexed, c`texts, c`pieces
    modifies c`nodes, c`shadow, c`bodies, c`readLine, c`unread, c`fault, parse`hereBody, parse`tokenIdx
    modifies parse`hasSavedTokens
    ensures Consistent(c, parse) && Machine(c) == old(Machine(c))
    ensures ok ==> Core(c, parse, lex, input) && !lex.building && !c.fault && Fetched(c.lexed, c.shifted, FlowOf(parse))
    ensures ok ==> Left(c, lex) < old(Left(c, lex))
                   || (Left(c, lex) == old(Left(c, lex)) && !old(parse.hereBody) && |c.lexed| == |old(c.lexed)|
                     && parse.tokenIdx == old(parse.tokenIdx) + 1)
    ensures !ok ==> c.fault || lex.interrupted || NoMore(c, parse, input)
    ensures c.fault ==> !ok && !lex.interrupted && NoLineForBody(c) && SoFar(c, input)
    ensures !ok && lex.interrupted ==> AllServed(c) && c.sigint
  {
    hide SoFar, EndedInBody, Core, Consistent, TokensOk, PiecesOk, BodiesOk, HereOk, StackAgrees, InputOk, LexOk,
      FlowOk, Fetched, InputLeft, Remaining, Machine, Ended, EndedOpen, LinesLeft, ToLex;
    CoreParts(c, parse, lex, input);
    if c.readLine.Some? { LeftOfLine(c, lex); }
    while true
      invariant Core(c, parse, lex, input) && FlowOk(c.lexed, c.shifted, FlowOf(parse)) && !c.fault
      invariant Machine(c) == old(Machine(c))
      invariant c.lexed == old(c.lexed) && FlowOf(parse) == old(FlowOf(parse)) && c.readLine == old(c.readLine)
      invariant c.unread == old(c.unread)
      invariant parse.hereBody || parse.hasSavedTokens ==> !lex.building && lex.idx == old(lex.idx)
      invariant ToLex(c, lex) <= old(ToLex(c, lex))
      decreases ToLex(c, lex), !lex.atEoi
    {
      label pass:
      var done;
      ghost var source;
      done, ok, source := NextPass(c, parse, lex, input);
      if done {
        if ok {
          CoreParts(c, parse, lex, input);
          if c.readLine.Some? && source.FromLexer? { LeftOfLine(c, lex); }
        }
        return;
      }
    }
  }

  lemma CoreParts(c: Ctx, parse: ParserState, lex: LexerState, input: Input)
    requires Core(c, parse, lex, input)
    ensures TokensOk(c.tokens, c.strings, c.lexed, c.texts, c.delims) && DelimitersOk(c, Waits(parse))
    ensures Consistent(c, parse)
    ensures !lex.interrupted && (c.readLine.None? ==> lex.atEoi) && (lex.atEoi ==> !lex.building)
    ensures c.readLine.Some? ==> lex.idx <= |c.readLine.value|
  {
    hide TokensOk, PiecesOk, BodiesOk, HereOk, StackAgrees;
  }

  // ---- The lookahead ---------------------------------------------------------------------

  method ClassifyCurrent(c: Ctx, parse: ParserState) returns (kind: Symbol)
    requires TokensOk(c.tokens, c.strings, c.lexed, c.texts, c.delims) && DelimitersOk(c, Waits(parse))
    requires c.shifted < parse.tokenIdx <= |c.lexed|
    ensures kind == c.lexed[parse.tokenIdx - 1].kind
  {
    hide TokensOk, HereOk, ClassifyToken;
    TokenIn(c.tokens, c.strings, c.lexed, c.texts, c.delims, parse.tokenIdx);
    NotYetDelimiter(c, Waits(parse), parse.tokenIdx);
    var token := c.tokens[parse.tokenIdx];
    kind := ClassifyToken(c.strings[token.offset]);
  }

  /**
   * Takes the next token as the lookahead. Behind a line that ends in a newline the input never
   * ends while tokens are being saved. On a line that does not, the lexer has been reset by then,
   * and the body would be read from the start of that line; the model does not go on there.
   */
  method GetLookahead(c: Ctx, parse: ParserState, lex: LexerState, ghost input: Input) returns (ok: bool)
    requires RunOk(c, parse, lex, input) && !parse.hasLookahead && !c.fault && !c.adrift
    modifies lex, c`tokens, c`strings, c`lexed, c`texts, c`pieces
    modifies c`nodes, c`shadow, c`bodies, c`readLine, c`unread, c`fault, c`adrift
    modifies parse`hereBody, parse`tokenIdx, parse`hasSavedTokens, parse`lookaheadType, parse`hasLookahead
    ensures Consistent(c, parse) && Machine(c) == old(Machine(c))
    ensures ok ==> Core(c, parse, lex, input) && !lex.building && !c.fault && Fetched(c.lexed, c.shifted, FlowOf(parse))
    ensures ok ==> parse.hasLookahead && parse.lookaheadType == c.lexed[parse.tokenIdx - 1].kind
    ensures ok ==> Left(c, lex) < old(Left(c, lex))
                   || (Left(c, lex) == old(Left(c, lex)) && !old(parse.hereBody) && |c.lexed| == |old(c.lexed)|
                     && parse.tokenIdx == old(parse.tokenIdx) + 1)
    ensures !ok ==> c.fault || lex.interrupted || c.adrift || Ended(c, parse, input)
    ensures c.fault ==> !ok && !lex.interrupted && NoLineForBody(c) && SoFar(c, input)
    ensures !ok && lex.interrupted ==> AllServed(c) && c.sigint
    ensures c.adrift ==> !ok && !c.fault && !lex.interrupted && EndedOpen(c, parse, input)
    ensures c.adrift <==> !ok && !c.fault && !lex.interrupted && parse.saveTokens
  {
    hide SoFar, EndedInBody, Core, Consistent, TokensOk, PiecesOk, BodiesOk, HereOk, InputOk, LexOk, FlowOk, Fetched,
      InputLeft, Machine, Ended, EndedOpen;
    ok := GetNextToken(c, parse, lex, input);
    if ok {
      CoreParts(c, parse, lex, input);
      FetchedBounds(c.lexed, c.shifted, FlowOf(parse));
      SameFetched(c.lexed, c.shifted, FlowOf(parse), true);
      parse.lookaheadType := ClassifyCurrent(c, parse);
      parse.hasLookahead := true;
    } else if !c.fault && !lex.interrupted && parse.saveTokens {
      c.adrift := true;
    }
  }

  lemma FetchedBounds(lexed: seq<Token>, n: nat, f: Flow)
    requires Fetched(lexed, n, f)
    ensures n < f.tokenIdx <= |lexed|
  {
  }

  lemma SameFetched(lexed: seq<Token>, n: nat, f: Flow, hasLookahead: bool)
    requires Fetched(lexed, n, f)
    ensures forall a: Symbol :: Fetched(lexed, n, f.(lookahead := a, hasLookahead := hasLookahead))
  {
  }

  /** While a here-document waits, its line goes on up to the newline. */
  method HandleHereDoc(c: Ctx, parse: ParserState)
    requires TokensOk(c.tokens, c.strings, c.lexed, c.texts, c.delims) && DelimitersOk(c, true)
    requires Fetched(c.lexed, c.shifted, FlowOf(parse)) && parse.saveTokens && !parse.hasLookahead
    modifies parse`saveTokens, parse`hasSavedTokens, parse`hereBody
    ensures FlowOk(c.lexed, c.shifted, FlowOf(parse)) && Waits(parse)
    ensures parse.hereBody || FlowOf(parse) == old(FlowOf(parse))
  {
    hide TokensOk, HereOk, ClassifyToken;
    TokenIn(c.tokens, c.strings, c.lexed, c.texts, c.delims, parse.tokenIdx);
    NotYetDelimiter(c, true, parse.tokenIdx);
    var cur := c.tokens[parse.tokenIdx];
    var body := c.strings[cur.offset];
    if body != [] && body[0] == '\n' {
      StartHereBody(parse);
    }
  }
}
