// Token bodies and terminals: the parser classifies a token by its body alone. What the
// tokenizer delimits as a word is classified as a WORD, and every operator as its terminal.

module Classification {
  import opened CStrings
  import opened Grammar
  import opened Context
  import opened Syntax
  import opened ShellText
  import opened Lexer
  import opened LexerFacts

  function ClassifyToken(body: string): (a: Symbol)
    ensures SYM_WORD <= a <= SYM_CPAR
  {
    if body != [] && body[0] == '\n' then SYM_NEWLINE
    else if body == "<<" then SYM_DLESS
    else if body == ">>" then SYM_DGREAT
    else if body == "&&" then SYM_AND_IF
    else if body == "||" then SYM_OR_IF
    else if body == "|" then SYM_PIPE
    else if body == "<" then SYM_LESS
    else if body == ">" then SYM_GREAT
    else if body == "(" then SYM_OPAR
    else if body == ")" then SYM_CPAR
    else SYM_WORD
  }

  /** An operator is classified as the terminal it spells, and nothing else is. */
  lemma ClassifiedAsSpelled(text: string)
    ensures forall kind: Symbol :: IsOperator(kind) && text == Spelling(kind) ==> ClassifyToken(text) == kind
    ensures var kind := ClassifyToken(text);
      kind != SYM_WORD ==>
        IsOperator(kind) && if kind == SYM_NEWLINE then text != [] && text[0] == '\n' else text == Spelling(kind)
  {
    forall kind: Symbol | IsOperator(kind) && text == Spelling(kind) ensures ClassifyToken(text) == kind {
      assert text[0] == Spelling(kind)[0] && |text| == |Spelling(kind)|;
    }
  }

  /** A word being built does not start where an operator could. */
  predicate WordOk(line: string, s: LexState) {
    s.kind == WordToken ==> s.pos < |line| && !StartsOperator(line, s.pos)
  }

  lemma StepKeepsWord(line: string, s: LexState)
    requires LexOk(line, s) && WordOk(line, s)
    ensures WordOk(line, LexStep(line, s).state)
  {
    hide CommentEnd, ExpansionLen, HasExpansion;
  }

  /** A word never has an operator's body. */
  lemma WordBody(line: string, s: LexState)
    requires LexOk(line, s) && WordOk(line, s) && s.kind == WordToken
    ensures ClassifyToken(line[s.pos..s.idx]) == SYM_WORD
  {
    var body := line[s.pos..s.idx];
    assert body[0] == line[s.pos];
    assert |body| > 1 ==> body[1] == line[s.pos + 1];
  }

  /** The operator at `i`: two characters whenever they form one. */
  function OperatorAt(line: string, i: nat): string
    requires i < |line|
  {
    if IsPair(line, i) && i + 1 < |line| then line[i..i + 2] else line[i..i + 1]
  }

  lemma OperatorBody(line: string, s: LexState)
    requires LexOk(line, s) && s.kind == OperatorToken && LexStep(line, s).Delimited?
    ensures LexStep(line, s).lexeme.text == OperatorAt(line, s.pos)
    ensures ClassifyToken(OperatorAt(line, s.pos)) != SYM_WORD
    ensures OperatorAt(line, s.pos) != "&"
  {
    hide QuoteRule, CommentEnd, ExpansionLen;
    var body := OperatorAt(line, s.pos);
    assert body[0] == line[s.pos];
    assert |body| == 2 ==> body == [line[s.pos], line[s.pos]];
    assert |body| == 1 ==> body == [line[s.pos]];
  }

  /**
   * The body alone decides: a delimited token is classified as a WORD exactly if it was lexed
   * as one, and an operator as the one it spells. An operator takes both its characters whenever
   * it has two, and `&` alone is none.
   */
  lemma ClassifiedAsLexed(line: string, s: LexState)
    requires LexOk(line, s) && WordOk(line, s) && LexStep(line, s).Delimited?
    ensures var x := LexStep(line, s).lexeme;
      && (ClassifyToken(x.text) == SYM_WORD <==> x.kind == WordToken)
      && (x.kind == OperatorToken ==>
            && s.pos < |line| && x.text == OperatorAt(line, s.pos) && x.text != "&"
            && IsOperator(ClassifyToken(x.text)) && x.text == Spelling(ClassifyToken(x.text)))
  {
    hide LexStep, ClassifyToken, WordOk, Spelling;
    StepCases(line, s);
    if s.kind == OperatorToken {
      OperatorBody(line, s);
      ClassifiedAsSpelled(OperatorAt(line, s.pos));
      assert Spelling(SYM_NEWLINE) == "\n" by { NewlineSpelling(); }
    } else {
      WordBody(line, s);
    }
  }

  lemma NewlineSpelling()
    ensures Spelling(SYM_NEWLINE) == "\n"
  {
  }

  // ---- Words without flags ---------------------------------------------------------------

  /** No quote of the word is closed in it, and no expansion starts in it. */
  predicate IsPlainWord(text: string) {
    forall i: nat :: i < |text| ==> !IsExpansionStart(text, i) && (IsQuote(text[i]) ==> text[i] !in text[i + 1..])
  }

  /** What was read into a word whose flags are still clear, and what its flag of quotes says. */
  ghost predicate PlainSoFar(line: string, s: LexState) {
    && QuotesSoFar(line, s)
    && (s.kind == WordToken && !s.quotes && !s.expansion ==>
      forall k: nat :: s.pos <= k < s.idx && k < |line| ==>
        !IsExpansionStart(line, k) && (IsQuote(line[k]) ==> QuoteEnd(line, k + 1, line[k]) == |line|))
  }

  /** A quote was closed in the word being built if and only if it is flagged. */
  ghost predicate QuotesSoFar(line: string, s: LexState) {
    && (s.kind == WordToken ==>
          && (s.quotes ==> PairIn(line, s.pos, s.idx))
          && (!s.quotes ==> forall k: nat :: s.pos <= k < s.idx && QuoteAt(line, k) ==> IsLoneQuote(line, k)))
    && (s.kind == OperatorToken ==> !s.quotes)
  }

  lemma StepKeepsQuotes(line: string, s: LexState)
    requires LexOk(line, s) && QuotesSoFar(line, s)
    ensures QuotesSoFar(line, LexStep(line, s).state)
  {
    hide LexStep, QuotesSoFar, IsQuote, IsExpansionStart;
    if s.idx < |line| && s.kind != OperatorToken && IsQuote(line[s.idx]) {
      QuoteKeepsQuotes(line, s);
    } else if s.idx < |line| && s.kind != OperatorToken && IsExpansionStart(line, s.idx) {
      ExpansionKeepsQuotes(line, s);
    } else {
      OtherKeepsQuotes(line, s);
    }
  }

  lemma QuoteKeepsQuotes(line: string, s: LexState)
    requires LexOk(line, s) && QuotesSoFar(line, s) && s.idx < |line| && s.kind != OperatorToken
    requires IsQuote(line[s.idx])
    ensures QuotesSoFar(line, LexStep(line, s).state)
  {
    hide HasExpansion, IsClosedQuote, PairIn;
    var next := QuoteRule(line, s);
    QuoteIsClosed(line, s.idx);
    QuoteHasPair(line, Uncovered(s), s.idx, next.idx);
    if s.building && s.quotes { PairGrows(line, s.pos, s.idx, next.idx); }
  }

  lemma ExpansionKeepsQuotes(line: string, s: LexState)
    requires LexOk(line, s) && QuotesSoFar(line, s) && s.idx < |line| && s.kind != OperatorToken
    requires !IsQuote(line[s.idx]) && IsExpansionStart(line, s.idx)
    ensures QuotesSoFar(line, LexStep(line, s).state)
  {
    hide PairIn, IsLoneQuote;
    var next := LexStep(line, s).state;
    ExpansionIsParameter(line, s.idx);
    if s.building && s.quotes { PairGrows(line, s.pos, s.idx, next.idx); }
  }

  lemma OtherKeepsQuotes(line: string, s: LexState)
    requires LexOk(line, s) && QuotesSoFar(line, s)
    requires s.idx < |line| && s.kind != OperatorToken ==> !IsQuote(line[s.idx]) && !IsExpansionStart(line, s.idx)
    ensures QuotesSoFar(line, LexStep(line, s).state)
  {
    hide CommentEnd, IsExpansionStart, PairIn, IsLoneQuote, StartsOperator, IsPair, QuoteRule, ExpansionLen;
    var next := LexStep(line, s).state;
    if next.kind == WordToken && s.building && s.quotes { PairGrows(line, s.pos, s.idx, next.idx); }
  }

  lemma PairGrows(line: string, i: nat, j: nat, k: nat)
    requires PairIn(line, i, j) && j <= k
    ensures PairIn(line, i, k)
  {
    var a: nat, b: nat :| i <= a < b < j && QuoteAt(line, a) && b < |line| && line[b] == line[a];
  }

  lemma QuoteHasPair(line: string, i: nat, j: nat, k: nat)
    requires i <= j
    ensures IsClosedQuote(line, j, k) ==> PairIn(line, i, k)
  {
    if IsClosedQuote(line, j, k) { assert QuoteAt(line, j) && line[k - 1] == line[j]; }
  }

  lemma StepKeepsPlain(line: string, s: LexState)
    requires LexOk(line, s) && PlainSoFar(line, s)
    ensures PlainSoFar(line, LexStep(line, s).state)
  {
    hide CommentEnd, ExpansionLen, HasExpansion, IsExpansionStart, QuotesSoFar;
    StepKeepsQuotes(line, s);
    if s.idx < |line| && IsQuote(line[s.idx]) { QuoteStartsNoExpansion(line, s.idx); }
  }

  lemma QuoteStartsNoExpansion(line: string, i: nat)
    requires i < |line| && IsQuote(line[i])
    ensures !IsExpansionStart(line, i)
  {
  }

  lemma {:induction false} NoQuoteBehind(line: string, i: nat, close: char)
    requires i <= |line| && QuoteEnd(line, i, close) == |line|
    ensures forall k :: i <= k < |line| ==> line[k] != close
    decreases |line| - i
  {
    if i < |line| { NoQuoteBehind(line, i + 1, close); }
  }

  /** A word whose token carries neither flag is plain: nothing in it needs expansion or quote removal. */
  lemma ClearFlagsArePlain(line: string, s: LexState)
    requires LexOk(line, s) && PlainSoFar(line, s) && LexStep(line, s).Delimited?
    ensures var x := LexStep(line, s).lexeme;
      && (x.kind == WordToken && x.flags % WORD_FLAGS == 0 ==> IsPlainWord(x.text))
      && (x.flags % 2 == TKN_HAS_QUOTES <==> HoldsQuotes(x.text))
  {
    hide LexStep, PairIn, IsLoneQuote;
    StepCases(line, s);
    if s.kind == WordToken {
      PairInSlice(line, s.pos, s.idx);
      if !s.quotes { LoneHaveNoPair(line, s.pos, s.idx); }
    } else {
      OperatorHasNoPair(line, s);
    }
    if s.kind == WordToken && FlagsOf(s) % WORD_FLAGS == 0 {
      var text := line[s.pos..s.idx];
      forall i: nat | i < |text| ensures !IsExpansionStart(text, i)
        && (IsQuote(text[i]) ==> text[i] !in text[i + 1..]) {
        assert text[i] == line[s.pos + i];
        if IsQuote(text[i]) { NoQuoteBehind(line, s.pos + i + 1, text[i]); }
      }
    }
  }

  lemma OperatorHasNoPair(line: string, s: LexState)
    requires LexOk(line, s) && s.kind == OperatorToken && LexStep(line, s).Delimited?
    ensures !HoldsQuotes(LexStep(line, s).lexeme.text)
  {
    hide LexStep;
    OperatorBody(line, s);
    var text := OperatorAt(line, s.pos);
    assert text[0] == line[s.pos] && (|text| == 2 ==> text == [line[s.pos], line[s.pos]]);
    assert |text| <= 2;
  }

  lemma LoneHaveNoPair(line: string, i: nat, j: nat)
    requires forall k: nat :: i <= k < j && QuoteAt(line, k) ==> IsLoneQuote(line, k)
    ensures !PairIn(line, i, j)
  {
  }

  // ---- Newlines --------------------------------------------------------------------------

  /** The newline that ends a line is only ever read as the start of an operator. */
  lemma LastNewlineIsToken(line: string, s: LexState)
    requires LexOk(line, s) && EndsInNewline(line) && s.idx < |line| && LexStep(line, s).state.idx == |line|
    ensures LexStep(line, s) == Continue(Start(s, OperatorToken).(idx := |line|)) && s.idx == |line| - 1
  {
    hide QuoteRule, ExpansionLen, CommentEnd, IsExpansionStart;
    if s.kind == OperatorToken {
    } else if IsQuote(line[s.idx]) {
      QuoteStopsBefore(line, s);
    } else if IsExpansionStart(line, s.idx) {
      ExpansionStopsBefore(line, s.idx);
    } else if !s.building && line[s.idx] == '#' {
      CommentStopsBefore(line, s.idx);
    }
  }

  lemma QuoteStopsBefore(line: string, s: LexState)
    requires LexOk(line, s) && EndsInNewline(line) && s.idx < |line| && IsQuote(line[s.idx])
    ensures QuoteRule(line, s).idx < |line|
  {
    hide HasExpansion;
  }

  lemma ExpansionStopsBefore(line: string, i: nat)
    requires EndsInNewline(line) && IsExpansionStart(line, i)
    ensures i + ExpansionLen(line, i) < |line|
  {
    NameEndsBefore(line, i + 2);
  }

  lemma CommentStopsBefore(line: string, i: nat)
    requires EndsInNewline(line) && i < |line| && line[i] == '#'
    ensures CommentEnd(line, i) < |line|
  {
    CommentBound(line, i);
  }

  lemma {:induction false} NameEndsBefore(line: string, i: nat)
    requires EndsInNewline(line) && i <= |line|
    ensures i < |line| ==> NameEnd(line, i) < |line|
    decreases |line| - i
  {
    if i + 1 < |line| && IsNameBody(line[i]) { NameEndsBefore(line, i + 1); }
  }
}
