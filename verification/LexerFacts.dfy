// What the tokenizer guarantees: every call makes progress, tokens and gaps rebuild the line,
// and a token's body alone tells which terminal it is.

module LexerFacts {
  import opened CStrings
  import opened Grammar
  import opened Context
  import opened Syntax
  import opened Lexer

  // ---- Invariant and progress ------------------------------------------------------------

  /** Where the text starts that no earlier piece covers. */
  function Uncovered(s: LexState): nat {
    if s.building then s.pos else s.idx
  }

  /** A blank, or a comment without its newline. */
  predicate IsGap(text: string) {
    text != [] && ((IsBlank(text[0]) && |text| == 1) || (text[0] == '#' && '\n' !in text))
  }

  /** The step delimits the token being built, at its end or one character further. */
  predicate DelimitsAt(line: string, s: LexState, step: Step)
    requires LexOk(line, s) && step.Delimited?
  {
    var end := s.pos + |step.lexeme.text|;
    && s.building && s.idx <= end <= |line| && step.lexeme.text == line[s.pos..end]
    && step.lexeme.kind == s.kind && step.lexeme.flags == FlagsOf(s)
    && (end == s.idx || (end == s.idx + 1 && s.kind == OperatorToken && IsPair(line, s.pos)))
    && (step.state.idx == end || (end == s.idx < |line| && step.state.idx == end + 1 && IsBlank(line[end])
      && s.kind == WordToken))
    && !step.state.building && (s.idx < |line| ==> step.state.atEoi == s.atEoi)
  }

  /** A gap that is passed over: a blank, or a comment up to its newline. */
  predicate PassesGap(line: string, i: nat, j: nat) {
    i < j <= |line| && IsGap(line[i..j])
  }

  /** A step delimits a token, extends one, starts one, passes a gap, or finds the end. */
  predicate IsStep(line: string, s: LexState, step: Step)
    requires LexOk(line, s)
  {
    && LexOk(line, step.state) && (step.state.interrupted ==> s.interrupted)
    && (step.Delimited? ==> DelimitsAt(line, s, step))
    && (step.Continue? ==>
          if s.idx == |line| then step.state == s.(atEoi := true) && !s.building
          else if step.state.building then
            step.state.pos == Uncovered(s) && s.idx < step.state.idx && step.state.atEoi == (s.building && s.atEoi)
          else !s.building && PassesGap(line, s.idx, step.state.idx) && step.state.atEoi == s.atEoi)
  }

  lemma QuoteCase(line: string, s: LexState)
    requires LexOk(line, s) && s.idx < |line| && s.kind != OperatorToken && IsQuote(line[s.idx])
    ensures IsStep(line, s, LexStep(line, s))
  {
    hide HasExpansion;
  }

  lemma ExpansionCase(line: string, s: LexState)
    requires LexOk(line, s) && s.idx < |line| && s.kind != OperatorToken && !IsQuote(line[s.idx])
    requires IsExpansionStart(line, s.idx)
    ensures IsStep(line, s, LexStep(line, s))
  {
    hide ExpansionLen, QuoteRule;
  }

  lemma EndCase(line: string, s: LexState)
    requires LexOk(line, s) && (s.idx == |line| || s.kind == OperatorToken)
    ensures IsStep(line, s, LexStep(line, s))
  {
    hide QuoteRule, CommentEnd, ExpansionLen, IsGap;
  }

  /** No quote, expansion or comment starts here. */
  lemma PlainCase(line: string, s: LexState)
    requires LexOk(line, s) && s.idx < |line| && s.kind != OperatorToken
    requires !IsQuote(line[s.idx]) && !IsExpansionStart(line, s.idx) && (s.building || line[s.idx] != '#')
    ensures IsStep(line, s, LexStep(line, s))
  {
    hide IsQuote, IsExpansionStart, LexStep, LexOk, IsStep;
    if s.building { PlainGoesOn(line, s); } else { PlainStarts(line, s); }
  }

  lemma PlainGoesOn(line: string, s: LexState)
    requires LexOk(line, s) && s.idx < |line| && s.kind != OperatorToken && s.building
    requires !IsQuote(line[s.idx]) && !IsExpansionStart(line, s.idx)
    ensures IsStep(line, s, LexStep(line, s))
  {
    hide QuoteRule, CommentEnd, ExpansionLen, IsExpansionStart, IsGap;
  }

  lemma PlainStarts(line: string, s: LexState)
    requires LexOk(line, s) && s.idx < |line| && s.kind != OperatorToken && !s.building
    requires !IsQuote(line[s.idx]) && !IsExpansionStart(line, s.idx) && line[s.idx] != '#'
    ensures IsStep(line, s, LexStep(line, s))
  {
    hide QuoteRule, CommentEnd, ExpansionLen, IsExpansionStart;
    assert line[s.idx..s.idx + 1] == [line[s.idx]];
  }

  lemma CommentCase(line: string, s: LexState)
    requires LexOk(line, s) && s.idx < |line| && !s.building && line[s.idx] == '#'
    ensures IsStep(line, s, LexStep(line, s))
  {
    hide QuoteRule, ExpansionLen;
    CommentBound(line, s.idx);
    var end := CommentEnd(line, s.idx);
    assert CommentEnd(line, s.idx) == CommentEnd(line, s.idx + 1);
    CommentBound(line, s.idx + 1);
    assert forall k :: 0 <= k < end - s.idx ==> line[s.idx..end][k] == line[s.idx + k];
    assert PassesGap(line, s.idx, end);
  }

  /** Every call of the tokenizer is such a step; in particular it keeps the invariant. */
  lemma StepCases(line: string, s: LexState)
    requires LexOk(line, s)
    ensures IsStep(line, s, LexStep(line, s))
  {
    hide IsStep, LexStep, IsExpansionStart, IsQuote;
    if s.idx == |line| || s.kind == OperatorToken {
      EndCase(line, s);
    } else if IsQuote(line[s.idx]) {
      QuoteCase(line, s);
    } else if IsExpansionStart(line, s.idx) {
      ExpansionCase(line, s);
    } else if !s.building && line[s.idx] == '#' {
      CommentCase(line, s);
    } else {
      PlainCase(line, s);
    }
  }

  /** Twice the characters still to be read, plus one while a token is being built. */
  function Remaining(line: string, s: LexState): nat
    requires s.idx <= |line|
  {
    2 * (|line| - s.idx) + (if s.building then 1 else 0)
  }

  /** Every call consumes a character, delimits a token, or sets the end of the input. */
  lemma StepMakesProgress(line: string, s: LexState)
    requires LexOk(line, s)
    ensures var step := LexStep(line, s);
      && LexOk(line, step.state) && step.state.idx <= |line|
      && (s.idx < |line| || step.Delimited? ==> Remaining(line, step.state) < Remaining(line, s))
      && (s.idx == |line| ==>
        step.state.idx == |line| && step.state.atEoi && Remaining(line, step.state) <= Remaining(line, s))
      && (step.state.atEoi && !s.atEoi ==> s.idx == |line|)
  {
    hide LexStep;
    StepCases(line, s);
    EndSetsEoi(line, s);
  }

  lemma EndSetsEoi(line: string, s: LexState)
    requires LexOk(line, s)
    ensures s.idx == |line| ==> LexStep(line, s).state == s.(atEoi := true, building := false, kind := NoToken)
  {
    hide QuoteRule, CommentEnd, ExpansionLen;
  }

  lemma {:induction false} CommentBound(line: string, i: nat)
    requires i <= |line|
    ensures i <= CommentEnd(line, i) <= |line|
    ensures forall k :: i <= k < CommentEnd(line, i) ==> line[k] != '\n'
    ensures CommentEnd(line, i) < |line| ==> line[CommentEnd(line, i)] == '\n'
    decreases |line| - i
  {
    if i < |line| && line[i] != '\n' { CommentBound(line, i + 1); }
  }

  // ---- Reconstruction --------------------------------------------------------------------

  /** The input a piece was read from. */
  function PieceText(p: Piece): string {
    match p
    case TokenPiece(text) => text
    case GapPiece(text) => text
    case BodyPiece(lines, delim, _, _, _, closed) => Joined(lines) + (if closed then delim + "\n" else [])
  }

  function TextOf(ps: seq<Piece>): string {
    if ps == [] then [] else PieceText(ps[0]) + TextOf(ps[1..])
  }


  /** The pieces a step adds behind what was read: a delimited token, a blank, a comment. */
  function StepPieces(line: string, s: LexState): seq<Piece>
    requires LexOk(line, s)
  {
    StepCases(line, s);
    var step := LexStep(line, s);
    if step.Delimited? then
      var end := s.pos + |step.lexeme.text|;
      [TokenPiece(step.lexeme.text)] + (if end < step.state.idx then [GapPiece(line[end..step.state.idx])] else [])
    else if !step.state.building && s.idx < step.state.idx then [GapPiece(line[s.idx..step.state.idx])]
    else []
  }

  /** All pieces of the line from a state on. */
  function Pieces(line: string, s: LexState): seq<Piece>
    requires LexOk(line, s)
    decreases Remaining(line, s), !s.atEoi
  {
    StepMakesProgress(line, s);
    if s.atEoi then [] else StepPieces(line, s) + Pieces(line, LexStep(line, s).state)
  }

  lemma TextOfOne(p: Piece)
    ensures TextOf([p]) == PieceText(p)
  {
  }

  /** One step covers exactly the text between the old and the new uncovered start. */
  lemma StepCovers(line: string, s: LexState)
    requires LexOk(line, s)
    ensures LexOk(line, LexStep(line, s).state)
    ensures var next := LexStep(line, s).state;
      && Uncovered(s) <= Uncovered(next) <= |line|
      && TextOf(StepPieces(line, s)) == line[Uncovered(s)..Uncovered(next)]
    ensures forall i ::
      0 <= i < |StepPieces(line, s)| && StepPieces(line, s)[i].GapPiece? ==> IsGap(StepPieces(line, s)[i].text)
  {
    hide LexStep, TextOf;
    StepCases(line, s);
    var step := LexStep(line, s);
    var ps := StepPieces(line, s);
    if |ps| == 0 {
      TextOfNone();
    } else if |ps| == 1 {
      TextOfOne(ps[0]);
      assert ps == [ps[0]];
    } else {
      var end := s.pos + |step.lexeme.text|;
      assert line[end..end + 1] == [line[end]];
      TextOfOne(ps[0]);
      TextOfOne(ps[1]);
      TextOfConcat([ps[0]], [ps[1]]);
      assert line[s.pos..end] + line[end..end + 1] == line[s.pos..end + 1];
    }
  }

  lemma TextOfNone()
    ensures TextOf([]) == []
  {
  }

  lemma {:induction false} TextOfConcat(a: seq<Piece>, b: seq<Piece>)
    ensures TextOf(a + b) == TextOf(a) + TextOf(b)
  {
    if a == [] {
      assert a + b == b;
    } else {
      assert (a + b)[1..] == a[1..] + b;
      TextOfConcat(a[1..], b);
    }
  }

  lemma PiecesOfStep(line: string, s: LexState)
    requires LexOk(line, s)
    ensures s.atEoi ==> Pieces(line, s) == []
    ensures !s.atEoi ==>
              var next := LexStep(line, s).state;
              LexOk(line, next) && Pieces(line, s) == StepPieces(line, s) + Pieces(line, next)
  {
    hide LexStep, StepPieces;
    StepMakesProgress(line, s);
  }

  /**
   * For every line: the tokens and the gaps between them, in order, are the line again, and
   * every gap is a blank or a comment.
   */
  lemma {:induction false} PiecesRebuildLine(line: string, s: LexState)
    requires LexOk(line, s)
    ensures !s.atEoi ==> TextOf(Pieces(line, s)) == line[Uncovered(s)..]
    ensures forall i :: 0 <= i < |Pieces(line, s)| && Pieces(line, s)[i].GapPiece? ==> IsGap(Pieces(line, s)[i].text)
    decreases Remaining(line, s), !s.atEoi
  {
    hide LexStep, LexOk, StepPieces, IsGap, Pieces, TextOf, Uncovered;
    PiecesOfStep(line, s);
    if !s.atEoi {
      StepMakesProgress(line, s);
      StepCovers(line, s);
      var next := LexStep(line, s).state;
      PiecesRebuildLine(line, next);
      TextOfConcat(StepPieces(line, s), Pieces(line, next));
      if next.atEoi {
        EndIsCovered(line, s);
        PiecesOfStep(line, next);
        TextOfNone();
      }
      assert line[Uncovered(s)..Uncovered(next)] + line[Uncovered(next)..] == line[Uncovered(s)..];
    }
  }

  /** The end of the input is only set when everything is covered. */
  lemma EndIsCovered(line: string, s: LexState)
    requires LexOk(line, s) && !s.atEoi && LexStep(line, s).state.atEoi
    ensures Uncovered(LexStep(line, s).state) == |line|
  {
    hide LexStep;
    StepMakesProgress(line, s);
    EndSetsEoi(line, s);
  }
}
