// A program on one line: what becomes of its here-documents is decided by its delimiters and the
// lines behind it.

module HereOutcomes {
  import opened CStrings
  import opened Grammar
  import opened Derivations
  import opened LrMachine
  import opened LrCompleteness
  import opened Syntax
  import opened Context
  import opened QuoteRemoval
  import opened HereDescriptors
  import opened HereDocument
  import opened HereOrder
  import opened Lexer
  import opened Classification
  import opened TokenHistory
  import opened Agreement
  import opened CompleteCommands
  import opened RunInvariant
  import opened TokenFlow
  import opened AndOr
  import opened Execution
  import opened ParseInput
  import opened Samples

  // ---- Delimiters and lines --------------------------------------------------------------

  /** The words behind the here-documents' operators of a line, without their quotes. */
  function DelimTexts(line: string): (ds: seq<string>)
    ensures |ds| == |DelimsIn(LineTokens(line))|
  {
    var ds := DelimsIn(LineTokens(line));
    seq(|ds|, i requires 0 <= i < |ds| => DelimText(LineTexts(line), ds[i]))
  }

  function DelimText(texts: seq<string>, n: nat): string {
    if 0 < n <= |texts| then QuoteRemove(texts[n - 1]) else []
  }

  /** How many of the delimiters, one behind the other, find their line. */
  function Found(lines: seq<string>, delims: seq<string>): nat {
    if lines == [] || delims == [] then 0
    else if lines[0] == delims[0] + "\n" then 1 + Found(lines[1..], delims[1..])
    else Found(lines[1..], delims)
  }

  /** The body's own lines are passed over. */
  lemma {:induction false} FoundBehind(lines: seq<string>, rest: seq<string>, delims: seq<string>)
    requires delims != [] && forall i :: 0 <= i < |lines| ==> lines[i] != delims[0] + "\n"
    ensures Found(lines + rest, delims) == Found(rest, delims)
  {
    if lines == [] {
      assert lines + rest == rest;
    } else {
      assert (lines + rest)[0] == lines[0] && (lines + rest)[1..] == lines[1..] + rest;
      FoundBehind(lines[1..], rest, delims);
    }
  }

  lemma FoundInBody(p: Piece, rest: seq<string>, delims: seq<string>)
    requires p.BodyPiece? && NoDelimLine(p) && delims != [] && p.delim == delims[0]
    ensures Found(LinesOf(p) + rest, delims) == if p.closed then 1 + Found(rest, delims[1..]) else Found(rest, delims)
  {
    if p.closed {
      var last := [p.delim + "\n"];
      assert LinesOf(p) + rest == p.lines + (last + rest);
      FoundBehind(p.lines, last + rest, delims);
      assert (last + rest)[1..] == rest;
    } else {
      assert LinesOf(p) == p.lines;
      FoundBehind(p.lines, rest, delims);
    }
  }

  /** The bodies are those of the first delimiters. */
  ghost predicate AreBodiesOf(bs: seq<Piece>, delims: seq<string>) {
    |bs| <= |delims| && forall k :: 0 <= k < |bs| ==> bs[k].BodyPiece? && NoDelimLine(bs[k]) && bs[k].delim == delims[k]
  }

  /** Every closed body takes its delimiter's line. */
  lemma {:induction false} FoundInClosed(bs: seq<Piece>, rest: seq<string>, delims: seq<string>)
    requires AreBodiesOf(bs, delims) && forall k :: 0 <= k < |bs| ==> bs[k].closed
    ensures Found(BodyLines(bs) + rest, delims) == |bs| + Found(rest, delims[|bs|..])
  {
    hide NoDelimLine, LinesOf, Found;
    if bs == [] {
      assert BodyLines(bs) + rest == rest && delims[0..] == delims;
    } else {
      var n := |bs| - 1;
      assert BodyLines(bs) + rest == BodyLines(bs[..n]) + (LinesOf(bs[n]) + rest);
      FoundInClosed(bs[..n], LinesOf(bs[n]) + rest, delims);
      FoundInBody(bs[n], rest, delims[n..]);
      assert delims[n..][1..] == delims[n + 1..];
    }
  }

  /** Where the input ends in the last body, that body's delimiter is not found. */
  lemma FoundInEnded(bs: seq<Piece>, delims: seq<string>)
    requires AreBodiesOf(bs, delims) && BodiesClosed(bs, true)
    ensures Found(BodyLines(bs), delims) == |bs| - 1
  {
    hide NoDelimLine, Found;
    var n := |bs| - 1;
    assert BodyLines(bs) == BodyLines(bs[..n]) + LinesOf(bs[n]);
    FoundInClosed(bs[..n], LinesOf(bs[n]), delims);
    assert LinesOf(bs[n]) + [] == LinesOf(bs[n]);
    FoundInBody(bs[n], [], delims[n..]);
    NothingFound(delims[n..]);
  }

  lemma NothingFound(delims: seq<string>)
    ensures Found([], delims) == 0
  {
  }

  // ---- A run on single lines -------------------------------------------------------------

  /** When a body was read, the whole of the first line was lexed before, and nothing but bodies after. */
  lemma AllLexed(c: Ctx, parse: ParserState, input: Input, outcomes: nat -> nat -> Status, before: Status)
    requires Result(c, parse, input, outcomes, before) && IsLine(input.line) && AreSingle(input.unread)
    requires !parse.interrupted
    ensures |BodyPieces(c.pieces)| == |c.bodies| && c.lexed <= LineTokens(input.line) && !c.adrift
    ensures c.bodies != [] ==>
              && c.lexed == LineTokens(input.line) && c.texts == LineTexts(input.line)
              && (c.readLine.None? ==> c.unread == []) && input.unread == BodyLines(BodyPieces(c.pieces)) + c.unread
    ensures BodiesClosed(BodyPieces(c.pieces), c.readLine.None?)
    ensures parse.done ==> c.lexed == LineTokens(input.line)
  {
    hide TokenAt, BodyAt, BodyPieces, BodiesClosed, ExecutedOk, Accepted, Derives, NoProgramStartsWith, PiecesOk,
      RestOfLine, BodyLines, DelimitersFirst, Timed, Lexemes, TokensOf, EndedInBody;
  }

  /** The bodies that were read are those of the program's first here-documents. */
  lemma BodiesOfLine(c: Ctx, line: string)
    requires BodiesOk(c.bodies, c.pieces, c.delims, c.lexed, c.texts) && c.delims <= DelimsIn(LineTokens(line))
    requires c.bodies != [] ==> c.texts == LineTexts(line)
    ensures AreBodiesOf(BodyPieces(c.pieces), DelimTexts(line))
  {
    hide NoDelimLine, BodyText, QuoteRemove, LineTexts, LineTokens, DelimsIn, BodyPieces;
    var bs := BodyPieces(c.pieces);
    forall k: nat | k < |bs| ensures bs[k].BodyPiece? && NoDelimLine(bs[k]) && bs[k].delim == DelimTexts(line)[k] {
      assert BodyAt(c.bodies, bs, c.delims, c.lexed, c.texts, k);
      assert c.delims[k] == DelimsIn(LineTokens(line))[k];
    }
  }

  /** A program's here-documents are those of its line. */
  lemma HereDocsOfLine(line: string, t: Tree)
    requires Derives(t, LineTokens(line))
    ensures HereDocs(t) == DelimsIn(LineTokens(line))
  {
    hide LineTokens, HereDocs, DelimsIn, IsDerivation;
    HereDocsAreDelims(t);
  }

  /**
   * What becomes of a program on one line is decided by its delimiters and the single lines behind
   * it: a null line is read from if and only if two or more of the delimiters, taken one behind the
   * other, do not find their line. Otherwise the program is done; if one does not find its line,
   * its body, the last one, is ended by the input.
   */
  lemma FaultIff(c: Ctx, parse: ParserState, line: string, unread: seq<string>, t: Tree,
                 outcomes: nat -> nat -> Status, before: Status)
    requires Result(c, parse, Input(line, unread), outcomes, before) && IsLine(line) && AreSingle(unread)
    requires !parse.interrupted && Derives(t, LineTokens(line))
    ensures var delims := DelimTexts(line); var found := Found(unread, delims);
      && (c.fault <==> found + 1 < |delims|)
      && (parse.done <==> |delims| <= found + 1)
      && (parse.done ==> (BodiesClosed(BodyPieces(c.pieces), true) <==> found + 1 == |delims|))
  {
    hide TokensOk, BodyAt, BodyPieces, ExecutedOk, Derives, PiecesOk, LineTokens, LineTexts, RestOfLine, BodiesClosed,
      FirstTokens, EndOk, TopLevel, HereDocs, RanServed, DelimTexts, DelimsIn, Found, BodyLines, NoProgramStartsWith;
    var input := Input(line, unread);
    AllLexed(c, parse, input, outcomes, before);
    NotRejected(c, parse, input, t, outcomes, before);
    HereDocsOfLine(line, t);
    var bs := BodyPieces(c.pieces);
    if c.fault {
      EndedBodies(c);
      BodiesOfLine(c, line);
      FoundInEnded(bs, DelimTexts(line));
      assert BodyLines(bs) + [] == BodyLines(bs);
    } else {
      var u: Tree :| Accepted(c, u);
      Unambiguous(t, u, c.lexed);
      BodiesOfLine(c, line);
      if c.bodies == [] {
        NothingWanted(unread, DelimTexts(line));
        NotClosed(bs);
      } else if c.readLine.None? {
        FoundInEnded(bs, DelimTexts(line));
        assert BodyLines(bs) + [] == BodyLines(bs);
      } else {
        AllClosed(bs);
        FoundInClosed(bs, c.unread, DelimTexts(line));
        assert DelimTexts(line)[|bs|..] == [];
        NothingWanted(c.unread, []);
      }
    }
  }

  lemma NothingWanted(lines: seq<string>, delims: seq<string>)
    requires delims == []
    ensures Found(lines, delims) == 0
  {
  }

  lemma NotClosed(bs: seq<Piece>)
    requires bs == []
    ensures !BodiesClosed(bs, true)
  {
  }

  lemma AllClosed(bs: seq<Piece>)
    requires BodiesClosed(bs, false)
    ensures forall k :: 0 <= k < |bs| ==> bs[k].BodyPiece? && bs[k].closed
    ensures !BodiesClosed(bs, true)
  {
  }

  lemma EndedBodies(c: Ctx)
    requires NoLineForBody(c) && BodiesClosed(BodyPieces(c.pieces), c.readLine.None?)
    ensures BodyPieces(c.pieces) != [] && BodiesClosed(BodyPieces(c.pieces), true) && c.readLine.None?
    ensures |c.delims| == |BodyPieces(c.pieces)| + 1
  {
    hide BodyPieces;
  }

  lemma NotRejected(c: Ctx, parse: ParserState, input: Input, t: Tree, outcomes: nat -> nat -> Status, before: Status)
    requires Result(c, parse, input, outcomes, before) && !parse.interrupted && !c.adrift
    requires Derives(t, LineTokens(input.line)) && c.lexed <= LineTokens(input.line)
    requires c.bodies != [] ==> c.lexed == LineTokens(input.line)
    ensures !parse.error && parse.done == !c.fault
  {
    hide Derives, LineTokens, TokensOk, BodiesOk, ExecutedOk, PiecesOk, SoFar, NoLineForBody, Accepted, DelimitersFirst;
    var more := LineTokens(input.line)[|c.lexed|..];
    assert c.lexed + more == LineTokens(input.line);
  }

  /**
   * A program on a line without a newline: a here-document is left without its body if and only if
   * the line has one. Any other program is done.
   */
  lemma AdriftIff(c: Ctx, parse: ParserState, line: string, unread: seq<string>, t: Tree,
                  outcomes: nat -> nat -> Status, before: Status)
    requires Result(c, parse, Input(line, unread), outcomes, before) && !EndsInNewline(line)
    requires !parse.interrupted && Derives(t, LineTokens(line))
    ensures c.adrift <==> DelimTexts(line) != []
    ensures parse.done <==> DelimTexts(line) == []
  {
    hide TokensOk, BodyAt, BodyPieces, ExecutedOk, Derives, PiecesOk, LineTokens, LineTexts, RestOfLine, BodiesClosed,
      TopLevel, HereDocs, RanServed, NoProgramStartsWith, Timed, DelimsIn;
    var input := Input(line, unread);
    HereDocsOfLine(line, t);
    assert c.bodies == [];
    if !c.adrift {
      NotRejected(c, parse, input, t, outcomes, before);
      var u: Tree :| Accepted(c, u);
      Unambiguous(t, u, c.lexed);
    }
  }

  // ---- Three inputs ----------------------------------------------------------------------

  lemma Passes(line: string, s: LexState, next: LexState)
    requires LexOk(line, s) && !s.atEoi && LexStep(line, s) == Continue(next)
    ensures LexOk(line, next) && Lexemes(line, s) == Lexemes(line, next)
  {
    hide LexStep, LexOk;
    LexemesStep(line, s);
    assert [] + Lexemes(line, next) == Lexemes(line, next);
  }

  lemma Takes(line: string, s: LexState, next: LexState, x: Lexeme)
    requires LexOk(line, s) && !s.atEoi && LexStep(line, s) == Delimited(next, x)
    ensures LexOk(line, next) && Lexemes(line, s) == [x] + Lexemes(line, next)
  {
    hide LexStep, LexOk;
    LexemesStep(line, s);
  }

  /** A token being built, and the lexer between two tokens. */
  function Within(pos: nat, idx: nat, kind: TokenType): LexState
    requires pos <= idx
  {
    LexState(pos, idx - pos, idx, kind, false, false, true, false, false)
  }

  function Between(pos: nat, len: nat, idx: nat): LexState {
    LexState(pos, len, idx, NoToken, false, false, false, false, false)
  }

  function WordLexeme(text: string): Lexeme {
    Lexeme(text, WordToken, 0)
  }

  function OperatorLexeme(text: string): Lexeme {
    Lexeme(text, OperatorToken, 0)
  }

  predicate IsLetter(c: char) {
    'a' <= c <= 'z' || 'A' <= c <= 'Z'
  }

  lemma LetterStarts(line: string, pos: nat, len: nat, i: nat)
    requires i < |line| && IsLetter(line[i])
    ensures var s, next := Between(pos, len, i), Within(i, i + 1, WordToken);
      LexOk(line, s) && LexOk(line, next) && Lexemes(line, s) == Lexemes(line, next)
  {
    hide Lexemes;
    Passes(line, Between(pos, len, i), Within(i, i + 1, WordToken));
  }

  lemma LetterGrows(line: string, pos: nat, i: nat)
    requires pos < i < |line| && IsLetter(line[i])
    ensures var s, next := Within(pos, i, WordToken), Within(pos, i + 1, WordToken);
      LexOk(line, s) && LexOk(line, next) && Lexemes(line, s) == Lexemes(line, next)
  {
    hide Lexemes;
    Passes(line, Within(pos, i, WordToken), Within(pos, i + 1, WordToken));
  }

  lemma WordEnds(line: string, pos: nat, i: nat)
    requires pos < i < |line| && (line[i] == '<' || line[i] == '\n')
    ensures var s, next := Within(pos, i, WordToken), Between(pos, i - pos, i);
      && LexOk(line, s) && LexOk(line, next)
      && Lexemes(line, s) == [WordLexeme(line[pos..i])] + Lexemes(line, next)
  {
    hide Lexemes;
    Takes(line, Within(pos, i, WordToken), Between(pos, i - pos, i), WordLexeme(line[pos..i]));
  }

  lemma HereTaken(line: string, pos: nat, len: nat, i: nat)
    requires i + 1 < |line| && line[i] == '<' && line[i + 1] == '<'
    ensures var s, next := Between(pos, len, i), Between(i, 2, i + 2);
      && LexOk(line, s) && LexOk(line, next)
      && Lexemes(line, s) == [OperatorLexeme("<<")] + Lexemes(line, next)
  {
    hide Lexemes;
    Passes(line, Between(pos, len, i), Within(i, i + 1, OperatorToken));
    assert line[i..i + 2] == "<<";
    Takes(line, Within(i, i + 1, OperatorToken), Between(i, 2, i + 2), OperatorLexeme("<<"));
  }

  lemma NewlineTaken(line: string, pos: nat, len: nat)
    requires EndsInNewline(line)
    ensures var s := Between(pos, len, |line| - 1);
      LexOk(line, s) && Lexemes(line, s) == [OperatorLexeme("\n")]
  {
    hide Lexemes;
    var i := |line| - 1;
    Passes(line, Between(pos, len, i), Within(i, i + 1, OperatorToken));
    assert line[i..i + 1] == "\n";
    var end := Between(i, 1, i + 1).(atEoi := true);
    Takes(line, Within(i, i + 1, OperatorToken), end, OperatorLexeme("\n"));
    NothingLeftOfLine(line, end);
  }

  /** At the end of the line what is being built is delimited. */
  lemma WordAtEnd(line: string, pos: nat)
    requires pos < |line|
    ensures LexOk(line, Within(pos, |line|, WordToken))
    ensures Lexemes(line, Within(pos, |line|, WordToken)) == [WordLexeme(line[pos..])]
  {
    hide Lexemes;
    var i := |line|;
    assert line[pos..i] == line[pos..];
    var end := Between(pos, i - pos, i).(atEoi := true);
    Takes(line, Within(pos, i, WordToken), end, WordLexeme(line[pos..]));
    NothingLeftOfLine(line, end);
  }

  /** `cat<<A`, whose last word may go on. */
  lemma CommandLexed(line: string)
    requires |line| >= 6 && line[..6] == "cat<<A"
    ensures LexOk(line, Within(5, 6, WordToken))
    ensures Lexemes(line, ZEROED) ==
            [WordLexeme("cat")] + ([OperatorLexeme("<<")] + Lexemes(line, Within(5, 6, WordToken)))
  {
    hide Lexemes, LexOk;
    assert forall i :: 0 <= i < 6 ==> line[i] == line[..6][i];
    assert line[0..3] == "cat";
    LetterStarts(line, 0, 0, 0);
    LetterGrows(line, 0, 1);
    LetterGrows(line, 0, 2);
    WordEnds(line, 0, 3);
    HereTaken(line, 0, 3, 3);
    LetterStarts(line, 3, 2, 5);
  }

  const OPEN_HERE := "cat<<A"
  const ONE_HERE := "cat<<A\n"
  const TWO_HERES := "cat<<A<<B\n"

  lemma OpenHereLexed()
    ensures Lexemes(OPEN_HERE, ZEROED) == [WordLexeme("cat"), OperatorLexeme("<<"), WordLexeme("A")]
  {
    hide Lexemes, LexOk;
    assert OPEN_HERE[..6] == "cat<<A" && OPEN_HERE[5..] == "A";
    CommandLexed(OPEN_HERE);
    WordAtEnd(OPEN_HERE, 5);
  }

  lemma OneHereLexed()
    ensures Lexemes(ONE_HERE, ZEROED) == [WordLexeme("cat"), OperatorLexeme("<<"), WordLexeme("A"),
      OperatorLexeme("\n")]
  {
    hide Lexemes, LexOk;
    assert ONE_HERE[..6] == "cat<<A" && ONE_HERE[5..6] == "A";
    CommandLexed(ONE_HERE);
    WordEnds(ONE_HERE, 5, 6);
    NewlineTaken(ONE_HERE, 5, 1);
  }

  lemma TwoHeresLexed()
    ensures Lexemes(TWO_HERES, ZEROED) ==
            [WordLexeme("cat"), OperatorLexeme("<<"), WordLexeme("A"), OperatorLexeme("<<"), WordLexeme("B"),
              OperatorLexeme("\n")]
  {
    hide Lexemes, LexOk;
    var line := TWO_HERES;
    assert line[..6] == "cat<<A" && line[5..6] == "A" && line[8..9] == "B";
    CommandLexed(line);
    WordEnds(line, 5, 6);
    HereTaken(line, 5, 1, 6);
    LetterStarts(line, 6, 2, 8);
    WordEnds(line, 8, 9);
    NewlineTaken(line, 8, 1);
  }

  lemma FirstOf(index: nat, xs: seq<Lexeme>)
    requires xs != []
    ensures TokensOf(index, xs) == [TokenOf(index, xs[0].text, xs[0].flags)] + TokensOf(index + 1, xs[1..])
  {
  }

  lemma Kinds()
    ensures ClassifyToken("cat") == ClassifyToken("A") == ClassifyToken("B") == SYM_WORD
    ensures ClassifyToken("<<") == SYM_DLESS && ClassifyToken("\n") == SYM_NEWLINE
  {
  }

  lemma OpenHereTokens()
    ensures LineTokens(OPEN_HERE) == [Tok(SYM_WORD, 1), Tok(SYM_DLESS, 2), Tok(SYM_WORD, 3)]
    ensures DelimTexts(OPEN_HERE) == ["A"]
  {
    hide Lexemes, TokensOf, ClassifyToken;
    OpenHereLexed();
    Kinds();
    var xs := Lexemes(OPEN_HERE, ZEROED);
    FirstOf(1, xs);
    FirstOf(2, xs[1..]);
    FirstOf(3, xs[2..]);
    NoTokensOf(4);
    var rest: seq<Token> := [];
    OperatorFirst(Tok(SYM_DLESS, 2), Tok(SYM_WORD, 3), rest);
    PlainFirst(Tok(SYM_WORD, 1), [Tok(SYM_DLESS, 2), Tok(SYM_WORD, 3)] + rest);
    assert LineTokens(OPEN_HERE) == [Tok(SYM_WORD, 1)] + ([Tok(SYM_DLESS, 2), Tok(SYM_WORD, 3)] + rest);
    PlainDelims();
  }

  lemma OneHereTokens()
    ensures LineTokens(ONE_HERE) == [Tok(SYM_WORD, 1), Tok(SYM_DLESS, 2), Tok(SYM_WORD, 3), Tok(SYM_NEWLINE, 4)]
    ensures DelimTexts(ONE_HERE) == ["A"]
  {
    hide Lexemes, TokensOf, ClassifyToken;
    OneHereLexed();
    Kinds();
    var xs := Lexemes(ONE_HERE, ZEROED);
    FirstOf(1, xs);
    FirstOf(2, xs[1..]);
    FirstOf(3, xs[2..]);
    FirstOf(4, xs[3..]);
    NoTokensOf(5);
    var rest := [Tok(SYM_NEWLINE, 4)];
    OperatorFirst(Tok(SYM_DLESS, 2), Tok(SYM_WORD, 3), rest);
    PlainFirst(Tok(SYM_WORD, 1), [Tok(SYM_DLESS, 2), Tok(SYM_WORD, 3)] + rest);
    assert LineTokens(ONE_HERE) == [Tok(SYM_WORD, 1)] + ([Tok(SYM_DLESS, 2), Tok(SYM_WORD, 3)] + rest);
    PlainDelims();
  }

  lemma TwoHeresTokens()
    ensures LineTokens(TWO_HERES) == [Tok(SYM_WORD, 1), Tok(SYM_DLESS, 2), Tok(SYM_WORD, 3), Tok(SYM_DLESS, 4),
                                      Tok(SYM_WORD, 5), Tok(SYM_NEWLINE, 6)]
    ensures DelimTexts(TWO_HERES) == ["A", "B"]
  {
    hide Lexemes, TokensOf, ClassifyToken;
    TwoHeresLexed();
    Kinds();
    var xs := Lexemes(TWO_HERES, ZEROED);
    FirstOf(1, xs);
    FirstOf(2, xs[1..]);
    FirstOf(3, xs[2..]);
    FirstOf(4, xs[3..]);
    FirstOf(5, xs[4..]);
    FirstOf(6, xs[5..]);
    NoTokensOf(7);
    var rest := [Tok(SYM_NEWLINE, 6)];
    var second := [Tok(SYM_DLESS, 4), Tok(SYM_WORD, 5)] + rest;
    OperatorFirst(Tok(SYM_DLESS, 4), Tok(SYM_WORD, 5), rest);
    OperatorFirst(Tok(SYM_DLESS, 2), Tok(SYM_WORD, 3), second);
    PlainFirst(Tok(SYM_WORD, 1), [Tok(SYM_DLESS, 2), Tok(SYM_WORD, 3)] + second);
    assert LineTokens(TWO_HERES) == [Tok(SYM_WORD, 1)] + ([Tok(SYM_DLESS, 2), Tok(SYM_WORD, 3)] + second);
    PlainDelims();
  }

  /** A token that is no operator, and an operator with its delimiter. */
  lemma PlainFirst(token: Token, rest: seq<Token>)
    requires token.kind != SYM_DLESS
    ensures DelimsIn([token] + rest) == DelimsIn(rest)
  {
    assert ([token] + rest)[1..] == rest;
  }

  lemma OperatorFirst(op: Token, word: Token, rest: seq<Token>)
    requires op.kind == SYM_DLESS && word.kind != SYM_DLESS
    ensures DelimsIn([op, word] + rest) == [word.offset] + DelimsIn(rest)
  {
    assert ([op, word] + rest)[1..] == [word] + rest;
    PlainFirst(word, rest);
  }

  lemma PlainDelims()
    ensures QuoteRemove("A") == "A" && QuoteRemove("B") == "B"
  {
    assert "A"[1..] == "" && "B"[1..] == "";
  }

  // ---- Their derivations -----------------------------------------------------------------

  /** A here-document as a redirection. */
  function Here(i: nat): Tree {
    Branch(35, [Branch(40, [Leaf(Tok(SYM_DLESS, i)), Branch(41, [Leaf(Tok(SYM_WORD, i + 1))])])])
  }

  lemma HereRules()
    ensures RhsLen(41) == 1 && RhsAt(41, 0) == SYM_WORD && Lhs(41) == SYM_HERE_END
    ensures RhsLen(40) == 2 && RhsAt(40, 0) == SYM_DLESS && RhsAt(40, 1) == SYM_HERE_END && Lhs(40) == SYM_IO_HERE
    ensures RhsLen(35) == 1 && RhsAt(35, 0) == SYM_IO_HERE && Lhs(35) == SYM_IO_REDIRECT
    ensures RhsLen(28) == 1 && RhsAt(28, 0) == SYM_IO_REDIRECT && Lhs(28) == SYM_CMD_SUFFIX
    ensures RhsLen(29) == 2 && RhsAt(29, 0) == SYM_CMD_SUFFIX && RhsAt(29, 1) == SYM_IO_REDIRECT
    ensures Lhs(29) == SYM_CMD_SUFFIX
    ensures RhsLen(22) == 2 && RhsAt(22, 0) == SYM_CMD_NAME && RhsAt(22, 1) == SYM_CMD_SUFFIX
    ensures Lhs(22) == SYM_SIMPLE_COMMAND
  {
  }

  lemma LeafDerives(token: Token)
    requires IsTokenKind(token.kind)
    ensures IsDerivation(Leaf(token)) && Root(Leaf(token)) == token.kind && Yield(Leaf(token)) == [token]
  {
  }

  lemma HereDerives(i: nat)
    ensures IsDerivation(Here(i)) && Root(Here(i)) == SYM_IO_REDIRECT
    ensures Yield(Here(i)) == [Tok(SYM_DLESS, i), Tok(SYM_WORD, i + 1)]
  {
    hide IsDerivation, Yield, RhsAt, RhsLen, Lhs;
    HereRules();
    var op, word := Leaf(Tok(SYM_DLESS, i)), Leaf(Tok(SYM_WORD, i + 1));
    LeafDerives(op.token);
    LeafDerives(word.token);
    var end := Branch(41, [word]);
    Applies(41, [word]);
    YieldOfBranch(41, [word]);
    YieldAllSingle(word);
    var here := Branch(40, [op, end]);
    Applies(40, [op, end]);
    YieldOfBranch(40, [op, end]);
    YieldOfTwo(op, end);
    Applies(35, [here]);
    YieldOfBranch(35, [here]);
    YieldAllSingle(here);
  }

  /** A command's name and what comes behind it. */
  function Command(suffix: Tree): Tree {
    Alone(Piped(Branch(22, [Name(1), suffix])))
  }

  lemma CommandDerives(suffix: Tree)
    requires IsDerivation(suffix) && Root(suffix) == SYM_CMD_SUFFIX
    ensures var first := FirstLine(Command(suffix));
      IsDerivation(first) && Root(first) == SYM_COMPLETE_COMMANDS && Yield(first) == [Tok(SYM_WORD, 1)] + Yield(suffix)
  {
    hide IsDerivation, Yield, RhsAt, RhsLen, Lhs, Piped, Name, Alone;
    HereRules();
    NameDerives(1);
    var simple := Branch(22, [Name(1), suffix]);
    Applies(22, [Name(1), suffix]);
    YieldOfBranch(22, [Name(1), suffix]);
    YieldOfTwo(Name(1), suffix);
    PipedDerives(simple);
    AloneDerives(Piped(simple));
    FirstLineDerives(Command(suffix));
  }

  const FIRST_HERE := Branch(28, [Here(2)])
  const BOTH_HERES := Branch(29, [FIRST_HERE, Here(4)])

  lemma SuffixesDerive()
    ensures IsDerivation(FIRST_HERE) && Root(FIRST_HERE) == SYM_CMD_SUFFIX
    ensures Yield(FIRST_HERE) == [Tok(SYM_DLESS, 2), Tok(SYM_WORD, 3)]
    ensures IsDerivation(BOTH_HERES) && Root(BOTH_HERES) == SYM_CMD_SUFFIX
    ensures Yield(BOTH_HERES) == [Tok(SYM_DLESS, 2), Tok(SYM_WORD, 3), Tok(SYM_DLESS, 4), Tok(SYM_WORD, 5)]
  {
    hide IsDerivation, Yield, RhsAt, RhsLen, Lhs, Here;
    HereRules();
    HereDerives(2);
    HereDerives(4);
    Applies(28, [Here(2)]);
    YieldOfBranch(28, [Here(2)]);
    YieldAllSingle(Here(2));
    Applies(29, [FIRST_HERE, Here(4)]);
    YieldOfBranch(29, [FIRST_HERE, Here(4)]);
    YieldOfTwo(FIRST_HERE, Here(4));
  }

  const OPEN_HERE_PROGRAM := Branch(2, [NOTHING, FirstLine(Command(FIRST_HERE)), NOTHING])
  const ONE_HERE_PROGRAM := Program(FirstLine(Command(FIRST_HERE)), 4)
  const TWO_HERES_PROGRAM := Program(FirstLine(Command(BOTH_HERES)), 6)

  lemma OpenHereDerives()
    ensures Derives(OPEN_HERE_PROGRAM, LineTokens(OPEN_HERE))
  {
    hide LineTokens, IsDerivation, Yield, FIRST_HERE, FirstLine, Command;
    SuffixesDerive();
    CommandDerives(FIRST_HERE);
    var first := FirstLine(Command(FIRST_HERE));
    NothingDerives();
    Applies(2, [NOTHING, first, NOTHING]);
    YieldOfBranch(2, [NOTHING, first, NOTHING]);
    YieldOfThree(NOTHING, first, NOTHING);
    OpenHereTokens();
    assert [Tok(SYM_WORD, 1)] + Yield(FIRST_HERE) == LineTokens(OPEN_HERE);
  }

  lemma OneHereDerives()
    ensures Derives(ONE_HERE_PROGRAM, LineTokens(ONE_HERE))
  {
    hide Derives, LineTokens, IsDerivation, Yield, FIRST_HERE, FirstLine, Program, Command;
    SuffixesDerive();
    CommandDerives(FIRST_HERE);
    ProgramDerives(FirstLine(Command(FIRST_HERE)), 4);
    OneHereTokens();
    assert [Tok(SYM_WORD, 1)] + Yield(FIRST_HERE) + [Tok(SYM_NEWLINE, 4)] == LineTokens(ONE_HERE);
  }

  lemma TwoHeresDerive()
    ensures Derives(TWO_HERES_PROGRAM, LineTokens(TWO_HERES))
  {
    hide Derives, LineTokens, IsDerivation, Yield, BOTH_HERES, FirstLine, Program, Command;
    SuffixesDerive();
    CommandDerives(BOTH_HERES);
    ProgramDerives(FirstLine(Command(BOTH_HERES)), 6);
    TwoHeresTokens();
    assert [Tok(SYM_WORD, 1)] + Yield(BOTH_HERES) + [Tok(SYM_NEWLINE, 6)] == LineTokens(TWO_HERES);
  }

  /** Without the first delimiter's line, neither is found. */
  lemma {:induction false} FoundOfTwo(lines: seq<string>, a: string, b: string)
    ensures Found(lines, [a, b]) == 0 <==> a + "\n" !in lines
  {
    if lines != [] && lines[0] != a + "\n" { FoundOfTwo(lines[1..], a, b); }
  }

  /** Behind `cat<<A<<B` the second body is read through a null line if and only if no line is `A`. */
  method FaultAtEnd(unread: seq<string>, env: map<string, string>, envs: nat -> map<string, string>,
                    outcomes: nat -> nat -> Status)
    returns (c: Ctx, parse: ParserState)
    requires AreSingle(unread)
    ensures c.fault <==> "A\n" !in unread
    ensures c.fault ==> !parse.done && !parse.error
  {
    hide Result, IsComplete, LineTokens, Derives, DelimTexts, IsLine, Found;
    c := new Ctx(TWO_HERES, unread, false, env, envs);
    ghost var before := Status(c.returnStatus, c.shouldExit);
    EndsRight();
    AreLinesToo(unread);
    parse := ParseInput.ParseInput(c, outcomes);
    TwoHeresDerive();
    TwoHeresTokens();
    Uninterrupted(c, parse, Input(TWO_HERES, unread), outcomes, before);
    FaultIff(c, parse, TWO_HERES, unread, TWO_HERES_PROGRAM, outcomes, before);
    assert "A" + "\n" == "A\n";
    FoundOfTwo(unread, "A", "B");
  }

  /** `cat<<A`, at whose newline the input ends: the body is ended by the input, and the program is done. */
  method BodyAtEnd(env: map<string, string>, envs: nat -> map<string, string>, outcomes: nat -> nat -> Status)
    returns (c: Ctx, parse: ParserState)
    ensures !c.fault && parse.done && BodiesClosed(BodyPieces(c.pieces), true)
  {
    hide Result, IsComplete, LineTokens, Derives, BodiesClosed, BodyPieces, DelimTexts, IsLine, Found;
    c := new Ctx(ONE_HERE, [], false, env, envs);
    ghost var before := Status(c.returnStatus, c.shouldExit);
    EndsRight();
    parse := ParseInput.ParseInput(c, outcomes);
    OneHereDerives();
    OneHereTokens();
    Uninterrupted(c, parse, Input(ONE_HERE, []), outcomes, before);
    NothingFound(DelimTexts(ONE_HERE));
    FaultIff(c, parse, ONE_HERE, [], ONE_HERE_PROGRAM, outcomes, before);
  }

  /** `cat<<A` without a newline: no body is read for the here-document, whatever lines come behind it. */
  method OpenAtEnd(unread: seq<string>, env: map<string, string>, envs: nat -> map<string, string>,
                   outcomes: nat -> nat -> Status)
    returns (c: Ctx, parse: ParserState)
    requires AreSingle(unread)
    ensures c.adrift && !parse.done && !parse.error
  {
    hide Result, IsComplete, LineTokens, Derives, DelimTexts, IsLine;
    c := new Ctx(OPEN_HERE, unread, false, env, envs);
    ghost var before := Status(c.returnStatus, c.shouldExit);
    EndsRight();
    AreLinesToo(unread);
    parse := ParseInput.ParseInput(c, outcomes);
    OpenHereDerives();
    OpenHereTokens();
    Uninterrupted(c, parse, Input(OPEN_HERE, unread), outcomes, before);
    AdriftIff(c, parse, OPEN_HERE, unread, OPEN_HERE_PROGRAM, outcomes, before);
  }

  lemma AreLinesToo(lines: seq<string>)
    requires AreSingle(lines)
    ensures AreLines(lines)
  {
  }

  lemma EndsRight()
    ensures IsComplete(ONE_HERE) && IsComplete(TWO_HERES) && IsLine(ONE_HERE) && IsLine(TWO_HERES) && AreLines([])
    ensures IsComplete(OPEN_HERE) && !EndsInNewline(OPEN_HERE) && AreSingle([])
  {
    assert '\n' !in OPEN_HERE;
    assert ONE_HERE[..|ONE_HERE| - 1] == "cat<<A" && TWO_HERES[..|TWO_HERES| - 1] == "cat<<A<<B";
  }

  lemma Uninterrupted(c: Ctx, parse: ParserState, input: Input, outcomes: nat -> nat -> Status, before: Status)
    requires Result(c, parse, input, outcomes, before) && !c.sigint
    ensures !parse.interrupted
    ensures c.fault || c.adrift ==> !parse.error && !parse.done
  {
    hide TokensOk, BodiesOk, ExecutedOk, NoLineForBody, SoFar, ReadToEnd, Accepted, Derives, NoProgramStartsWith,
      DelimitersFirst;
  }
}
