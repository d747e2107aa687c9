// What the tokens of a line are, and that the tokenizer finds them: blanks and comments apart, an
// operator is the longest one written at its place, and a word goes on until a blank or an
// operator that no quote encloses.

module Tokenization {
  import opened CStrings
  import opened Grammar
  import opened Context
  import opened Syntax
  import opened ShellText
  import opened Lexer
  import opened LexerFacts
  import opened Classification
  import opened WordUnits
  import opened TokenHistory

  // ---- Lines -----------------------------------------------------------------------------

  /** A comment goes on up to a newline. */
  predicate IsComment(text: string, i: nat, j: nat) {
    i < j <= |text| && text[i] == '#' && '\n' !in text[i..j] && (j < |text| ==> text[j] == '\n')
  }

  /** The tokens of the text from `i` on. */
  ghost predicate Tokenizes(text: string, i: nat, xs: seq<Lexeme>)
    decreases |text| - i
  {
    if i >= |text| then xs == []
    else if BlankAt(text, i) then Tokenizes(text, i + 1, xs)
    else if text[i] == '#' then exists j: nat :: IsComment(text, i, j) && Tokenizes(text, j, xs)
    else if OperatorStarts(text, i) then
      xs != [] && exists kind: Symbol ::
        && OperatorIs(text, i, kind) && xs[0] == Lexeme(Spelling(kind), OperatorToken, 0)
        && Tokenizes(text, i + |Spelling(kind)|, xs[1..])
    else
      xs != [] && exists cuts: seq<nat> ::
        && IsWord(text, i, cuts) && xs[0] == LexemeOf(text, cuts) && Tokenizes(text, Last(cuts), xs[1..])
  }

  // ---- The tokenizer's steps -------------------------------------------------------------

  /** The word being built is cut into units, and its flags say what is among them. */
  ghost predicate Builds(line: string, s: LexState, cuts: seq<nat>) {
    && |cuts| >= 2 && cuts[0] == s.pos < s.idx == Last(cuts) <= |line| && line[s.pos] != '#' && AreUnits(line, cuts)
    && s.quotes == SomeClosed(line, cuts) && s.expansion == SomeExpands(line, cuts)
  }

  ghost predicate Within(line: string, s: LexState, cuts: seq<nat>) {
    && LexOk(line, s) && !s.interrupted && (s.atEoi ==> s.idx == |line| && !s.building)
    && (s.kind == WordToken ==> Builds(line, s, cuts))
    && (s.kind == OperatorToken ==> !s.quotes && !s.expansion)
  }

  /** One more unit. */
  lemma OneMoreUnit(text: string, cuts: seq<nat>, j: nat)
    requires cuts != [] && AreUnits(text, cuts) && IsUnit(text, Last(cuts), j)
    ensures AreUnits(text, cuts + [j])
    ensures SomeClosed(text, cuts + [j]) <==> SomeClosed(text, cuts) || IsClosedQuote(text, Last(cuts), j)
    ensures SomeExpands(text, cuts + [j]) <==> SomeExpands(text, cuts) || UnitExpands(text, Last(cuts), j)
  {
    hide IsUnit, IsClosedQuote, UnitExpands;
    var more := cuts + [j];
    var n := |cuts| - 1;
    assert more[n] == Last(cuts) && more[n + 1] == j;
    forall k: nat | k + 1 < |more| ensures UnitAt(text, more, k) {
      if k < n { assert UnitAt(text, cuts, k); }
    }
    if k: nat :| ClosedAt(text, cuts, k) { assert ClosedAt(text, more, k); }
    if k: nat :| ExpandsAt(text, cuts, k) { assert ExpandsAt(text, more, k); }
    if IsClosedQuote(text, Last(cuts), j) { assert ClosedAt(text, more, n); }
    if UnitExpands(text, Last(cuts), j) { assert ExpandsAt(text, more, n); }
    if k: nat :| ClosedAt(text, more, k) { assert k < n ==> ClosedAt(text, cuts, k); }
    if k: nat :| ExpandsAt(text, more, k) { assert k < n ==> ExpandsAt(text, cuts, k); }
  }

  /** The cuts behind a step. */
  ghost function NextCuts(line: string, s: LexState, cuts: seq<nat>): seq<nat>
    requires LexOk(line, s)
  {
    var next := LexStep(line, s).state;
    if next.kind != WordToken then [] else (if s.building then cuts else [s.idx]) + [next.idx]
  }

  lemma StepStaysWithin(line: string, s: LexState, cuts: seq<nat>)
    requires Within(line, s, cuts) && !s.atEoi
    ensures Within(line, LexStep(line, s).state, NextCuts(line, s, cuts))
  {
    hide LexStep, AreUnits, SomeClosed, SomeExpands, IsUnit, IsClosedQuote, UnitExpands;
    StepMakesProgress(line, s);
    StepCases(line, s);
    KindsOfStep(line, s);
    var next := LexStep(line, s).state;
    if next.kind == WordToken {
      StepIsUnit(line, s);
      NoUnits(line, s.idx);
      OneMoreUnit(line, if s.building then cuts else [s.idx], next.idx);
    }
  }

  /** Where a step goes on to; an operator starts with clear flags. */
  lemma KindsOfStep(line: string, s: LexState)
    requires LexOk(line, s)
    ensures var step := LexStep(line, s); var next := step.state;
      && (next.kind == WordToken ==> step.Continue? && s.idx < |line| && s.kind != OperatorToken)
      && (next.kind == OperatorToken ==> !next.quotes && !next.expansion && !next.interrupted)
  {
    hide ExpansionLen, CommentEnd, IsExpansionStart, StartsOperator, IsPair, IsQuote, IsBlank, Delimit, QuoteRule, At;
    if s.idx < |line| { QuoteIsWord(line, s); }
    if s.building {
      DelimitedKind(line, s);
      DelimitedKind(line, s.(atEoi := true));
      if s.idx < |line| { DelimitedKind(line, GrowTo(s, s.idx + 1)); }
    }
  }

  lemma QuoteIsWord(line: string, s: LexState)
    requires LexOk(line, s) && s.idx < |line|
    ensures s.kind != OperatorToken ==> QuoteRule(line, s).kind == WordToken
  {
    hide HasExpansion;
  }

  lemma DelimitedKind(line: string, s: LexState)
    requires s.pos + s.len <= |line|
    ensures Delimit(line, s).Delimited? && Delimit(line, s).state.kind == NoToken
  {
  }

  lemma NoUnits(line: string, i: nat)
    ensures AreUnits(line, [i]) && !SomeClosed(line, [i]) && !SomeExpands(line, [i])
  {
  }

  /** A word is delimited at its end. */
  lemma WordDelimited(line: string, s: LexState, cuts: seq<nat>)
    requires Within(line, s, cuts) && s.kind == WordToken && LexStep(line, s).Delimited?
    ensures IsWord(line, s.pos, cuts) && LexStep(line, s).lexeme == LexemeOf(line, cuts) && Last(cuts) == s.idx
    ensures !OperatorStarts(line, s.pos) && !BlankAt(line, s.pos)
  {
    hide LexStep, AreUnits, SomeClosed, SomeExpands, OperatorStarts, StartsOperator, LexOk;
    StepCases(line, s);
    WordStops(line, s);
    UnitStarts(line, cuts);
  }

  /** No unit starts with a blank or an operator. */
  lemma UnitStarts(line: string, cuts: seq<nat>)
    requires |cuts| >= 2 && AreUnits(line, cuts)
    ensures !OperatorStarts(line, cuts[0]) && !BlankAt(line, cuts[0])
  {
    var i := cuts[0];
    assert UnitAt(line, cuts, 0);
    assert i < |line| && StartsOperator(line, i) ==> IsOperatorChar(line[i]);
    OperatorChars(line, i);
  }

  lemma OperatorDelimited(line: string, s: LexState, cuts: seq<nat>) returns (kind: Symbol)
    requires Within(line, s, cuts) && s.kind == OperatorToken && LexStep(line, s).Delimited?
    ensures s.pos < |line| && OperatorIs(line, s.pos, kind)
    ensures LexStep(line, s).lexeme == Lexeme(Spelling(kind), OperatorToken, 0)
    ensures LexStep(line, s).state.idx == s.pos + |Spelling(kind)|
    ensures !BlankAt(line, s.pos) && line[s.pos] != '#' && OperatorStarts(line, s.pos)
  {
    hide LexStep, OperatorStarts, OperatorIs, Spelling;
    StepCases(line, s);
    OperatorBody(line, s);
    OperatorChars(line, s.pos);
    kind := LongestOperator(line, s.pos);
    IsStarted(line, s.pos, kind);
  }

  lemma IsStarted(line: string, i: nat, kind: Symbol)
    requires OperatorIs(line, i, kind)
    ensures OperatorStarts(line, i) && IsOperator(kind) && Spelling(kind) != []
  {
  }

  /** A blank or a comment is passed over. */
  lemma GapPassed(line: string, s: LexState, xs: seq<Lexeme>)
    requires LexOk(line, s) && !s.building && s.idx < |line| && !LexStep(line, s).state.building
    requires Tokenizes(line, LexStep(line, s).state.idx, xs)
    ensures Tokenizes(line, s.idx, xs)
  {
    hide LexStep, Tokenizes;
    StepCases(line, s);
    var j := LexStep(line, s).state.idx;
    var text := line[s.idx..j];
    assert text[0] == line[s.idx];
    if IsBlank(line[s.idx]) {
      BlankPassed(line, s.idx, xs);
    } else {
      CommentTaken(line, s);
      CommentPassed(line, s.idx, j, xs);
    }
  }

  lemma CommentTaken(line: string, s: LexState)
    requires LexOk(line, s) && !s.building && s.idx < |line| && !LexStep(line, s).state.building
    requires !IsBlank(line[s.idx])
    ensures IsComment(line, s.idx, LexStep(line, s).state.idx)
  {
    hide ExpansionLen, IsExpansionStart, HasExpansion, QuoteEnd;
    CommentBound(line, s.idx);
    var j := CommentEnd(line, s.idx);
    forall c: char | c in line[s.idx..j] ensures c != '\n' {
      var k :| 0 <= k < |line[s.idx..j]| && line[s.idx..j][k] == c;
      assert line[s.idx..j][k] == line[s.idx + k];
    }
  }

  lemma BlankPassed(line: string, i: nat, xs: seq<Lexeme>)
    requires BlankAt(line, i) && Tokenizes(line, i + 1, xs)
    ensures Tokenizes(line, i, xs)
  {
  }

  lemma CommentPassed(line: string, i: nat, j: nat, xs: seq<Lexeme>)
    requires IsComment(line, i, j) && Tokenizes(line, j, xs)
    ensures Tokenizes(line, i, xs)
  {
  }

  lemma OperatorTaken(line: string, i: nat, kind: Symbol, rest: seq<Lexeme>)
    requires i < |line| && OperatorIs(line, i, kind) && !BlankAt(line, i) && line[i] != '#'
    requires Tokenizes(line, i + |Spelling(kind)|, rest)
    ensures Tokenizes(line, i, [Lexeme(Spelling(kind), OperatorToken, 0)] + rest)
  {
    hide OperatorIs;
    IsStarted(line, i, kind);
    var xs := [Lexeme(Spelling(kind), OperatorToken, 0)] + rest;
    assert xs[1..] == rest;
  }

  lemma WordTaken(line: string, i: nat, cuts: seq<nat>, rest: seq<Lexeme>)
    requires IsWord(line, i, cuts) && !BlankAt(line, i) && !OperatorStarts(line, i)
    requires Tokenizes(line, Last(cuts), rest)
    ensures Tokenizes(line, i, [LexemeOf(line, cuts)] + rest)
  {
    var xs := [LexemeOf(line, cuts)] + rest;
    assert xs[1..] == rest;
  }

  /** From every state on, the tokenizer finds the tokens of what it has not covered. */
  lemma {:induction false} LexesRight(line: string, s: LexState, cuts: seq<nat>)
    requires Within(line, s, cuts)
    ensures Tokenizes(line, Uncovered(s), Lexemes(line, s))
    decreases Remaining(line, s), !s.atEoi
  {
    hide LexStep, LexOk, Lexemes, Tokenizes, Builds, IsWord, OperatorIs, OperatorStarts, Spelling, LexemeOf;
    if s.atEoi {
      NothingLexed(line, s);
    } else {
      StepMakesProgress(line, s);
      StepStaysWithin(line, s, cuts);
      LexemesStep(line, s);
      var step := LexStep(line, s);
      var next, rest := step.state, Lexemes(line, step.state);
      LexesRight(line, next, NextCuts(line, s, cuts));
      StepCases(line, s);
      if step.Delimited? {
        DelimitedRight(line, s, cuts, rest);
      } else {
        assert [] + rest == rest;
        if !next.building && s.idx < |line| { GapPassed(line, s, rest); }
      }
    }
  }

  lemma NothingLexed(line: string, s: LexState)
    requires LexOk(line, s) && s.atEoi && s.idx == |line| && !s.building
    ensures Lexemes(line, s) == [] && Tokenizes(line, |line|, [])
  {
    hide LexStep, LexOk;
  }

  lemma DelimitedRight(line: string, s: LexState, cuts: seq<nat>, rest: seq<Lexeme>)
    requires Within(line, s, cuts) && LexStep(line, s).Delimited?
    requires Tokenizes(line, Uncovered(LexStep(line, s).state), rest)
    ensures Tokenizes(line, s.pos, [LexStep(line, s).lexeme] + rest)
  {
    hide LexStep, Tokenizes, Builds, IsWord, OperatorIs, OperatorStarts, Spelling, LexemeOf;
    StepCases(line, s);
    if s.kind == OperatorToken {
      var kind := OperatorDelimited(line, s, cuts);
      OperatorTaken(line, s.pos, kind, rest);
    } else {
      WordDelimited(line, s, cuts);
      if LexStep(line, s).state.idx > s.idx { BlankPassed(line, s.idx, rest); }
      WordTaken(line, s.pos, cuts, rest);
    }
  }

  /** The tokens that the tokenizer finds in a line are the line's. */
  lemma LineIsTokenized(line: string)
    ensures Tokenizes(line, 0, Lexemes(line, ZEROED))
  {
    hide Lexemes, Tokenizes;
    LexesRight(line, ZEROED, []);
  }

  // ---- No other tokens -------------------------------------------------------------------

  lemma UnitEndsOnce(text: string, i: nat, j: nat, k: nat)
    requires IsUnit(text, i, j) && IsUnit(text, i, k)
    ensures j == k
  {
    hide OperatorStarts;
    if IsClosedQuote(text, i, j) && IsClosedQuote(text, i, k) { QuoteEndsOnce(text, i, j, k); }
    if IsParameter(text, i, j) && IsParameter(text, i, k) { ParameterEndsOnce(text, i, j, k); }
  }

  lemma {:induction false} CutsAgree(text: string, a: seq<nat>, b: seq<nat>, n: nat)
    requires a != [] && b != [] && a[0] == b[0] && AreUnits(text, a) && AreUnits(text, b)
    requires n < |a| && n < |b|
    ensures a[n] == b[n]
  {
    hide IsUnit;
    if n > 0 {
      CutsAgree(text, a, b, n - 1);
      assert UnitAt(text, a, n - 1) && UnitAt(text, b, n - 1);
      UnitEndsOnce(text, a[n - 1], a[n], b[n]);
    }
  }

  lemma WordEndsOnce(text: string, i: nat, a: seq<nat>, b: seq<nat>)
    requires IsWord(text, i, a) && IsWord(text, i, b)
    ensures a == b
  {
    hide IsUnit, OperatorStarts;
    forall n: nat | n < |a| && n < |b| ensures a[n] == b[n] {
      CutsAgree(text, a, b, n);
    }
    if |a| < |b| { GoesOn(text, b, |a| - 1); }
    if |b| < |a| { GoesOn(text, a, |b| - 1); }
  }

  lemma GoesOn(text: string, cuts: seq<nat>, n: nat)
    requires AreUnits(text, cuts) && n + 1 < |cuts|
    ensures !EndsWord(text, cuts[n])
  {
    assert UnitAt(text, cuts, n);
    assert UnitAt(text, cuts[n..], 0);
    var i := cuts[n];
    assert i < |text| && StartsOperator(text, i) ==> IsOperatorChar(text[i]);
    OperatorChars(text, i);
  }

  lemma OperatorIsOnce(text: string, i: nat, a: Symbol, b: Symbol)
    requires OperatorIs(text, i, a) && OperatorIs(text, i, b)
    ensures a == b
  {
    assert |Spelling(a)| == |Spelling(b)|;
    SpellingsDiffer(a, b);
  }

  lemma CommentEndsOnce(text: string, i: nat, j: nat, k: nat)
    requires IsComment(text, i, j) && IsComment(text, i, k)
    ensures j == k
  {
    if j < k { CommentHasNone(text, i, k, j); }
    if k < j { CommentHasNone(text, i, j, k); }
  }

  lemma CommentHasNone(text: string, i: nat, j: nat, k: nat)
    requires IsComment(text, i, j) && i <= k < j
    ensures text[k] != '\n'
  {
    assert text[i..j][k - i] == text[k];
  }

  /** A text has one sequence of tokens. */
  lemma {:induction false} TokenizesOnce(text: string, i: nat, xs: seq<Lexeme>, ys: seq<Lexeme>)
    requires Tokenizes(text, i, xs) && Tokenizes(text, i, ys)
    ensures xs == ys
    decreases |text| - i
  {
    hide AreUnits, EndsWord, SomeClosed, SomeExpands, OperatorStarts, Spelled, Spelling, IsComment;
    if i >= |text| {
    } else if BlankAt(text, i) {
      TokenizesOnce(text, i + 1, xs, ys);
    } else if text[i] == '#' {
      var j: nat :| IsComment(text, i, j) && Tokenizes(text, j, xs);
      var k: nat :| IsComment(text, i, k) && Tokenizes(text, k, ys);
      CommentEndsOnce(text, i, j, k);
      CommentGoesOn(text, i, j);
      TokenizesOnce(text, j, xs, ys);
    } else if OperatorStarts(text, i) {
      var a: Symbol :| OperatorIs(text, i, a) && xs[0] == Lexeme(Spelling(a), OperatorToken, 0)
        && Tokenizes(text, i + |Spelling(a)|, xs[1..]);
      var b: Symbol :| OperatorIs(text, i, b) && ys[0] == Lexeme(Spelling(b), OperatorToken, 0)
        && Tokenizes(text, i + |Spelling(b)|, ys[1..]);
      OperatorIsOnce(text, i, a, b);
      IsStarted(text, i, a);
      TokenizesOnce(text, i + |Spelling(a)|, xs[1..], ys[1..]);
      assert xs == [xs[0]] + xs[1..] && ys == [ys[0]] + ys[1..];
    } else {
      var a: seq<nat> :| IsWord(text, i, a) && xs[0] == LexemeOf(text, a) && Tokenizes(text, Last(a), xs[1..]);
      var b: seq<nat> :| IsWord(text, i, b) && ys[0] == LexemeOf(text, b) && Tokenizes(text, Last(b), ys[1..]);
      WordEndsOnce(text, i, a, b);
      TokenizesOnce(text, Last(a), xs[1..], ys[1..]);
      assert xs == [xs[0]] + xs[1..] && ys == [ys[0]] + ys[1..];
    }
  }

  lemma CommentGoesOn(text: string, i: nat, j: nat)
    requires IsComment(text, i, j)
    ensures i < j
  {
  }

  // ---- The flag of quotes ----------------------------------------------------------------

  /** What a unit has to do with the quotes behind it. */
  lemma UnitHasPair(text: string, i: nat, k: nat, j: nat)
    requires IsUnit(text, i, k) && k <= j <= |text|
    ensures PairIn(text, i, j) <==> IsClosedQuote(text, i, k) || PairIn(text, k, j)
  {
    hide OperatorStarts;
    if IsClosedQuote(text, i, k) {
      assert QuoteAt(text, i) && text[k - 1] == text[i];
    } else if PairIn(text, i, j) {
      var a: nat, b: nat :| i <= a < b < j && QuoteAt(text, a) && b < |text| && text[b] == text[a];
      if a < k { NoQuoteInside(text, i, k, a); }
    }
  }

  lemma NoQuoteInside(text: string, i: nat, k: nat, a: nat)
    requires IsUnit(text, i, k) && !IsClosedQuote(text, i, k) && i <= a < k && QuoteAt(text, a)
    ensures a == i && IsLoneQuote(text, i)
  {
    hide OperatorStarts;
  }

  /** One of the units is a closed quote if and only if two of the text's quotes are alike. */
  lemma {:induction false} ClosedIffPair(text: string, cuts: seq<nat>)
    requires cuts != [] && AreUnits(text, cuts) && Last(cuts) <= |text|
    ensures SomeClosed(text, cuts) <==> PairIn(text, cuts[0], Last(cuts))
    decreases |cuts|
  {
    hide IsUnit, IsClosedQuote, PairIn;
    if |cuts| == 1 {
      NoPair(text, cuts[0]);
    } else {
      assert UnitAt(text, cuts, 0);
      var rest := cuts[1..];
      forall k: nat | k + 1 < |rest| ensures UnitAt(text, rest, k) {
        assert UnitAt(text, cuts, k + 1);
      }
      ClosedIffPair(text, rest);
      UnitsGoUp(text, rest);
      UnitHasPair(text, cuts[0], cuts[1], Last(cuts));
      if k: nat :| ClosedAt(text, rest, k) { assert ClosedAt(text, cuts, k + 1); }
      if k: nat :| ClosedAt(text, cuts, k) { assert k > 0 ==> ClosedAt(text, rest, k - 1); }
      if IsClosedQuote(text, cuts[0], cuts[1]) { assert ClosedAt(text, cuts, 0); }
    }
  }

  lemma NoPair(text: string, i: nat)
    ensures !PairIn(text, i, i)
  {
  }

  lemma {:induction false} UnitsGoUp(text: string, cuts: seq<nat>)
    requires cuts != [] && AreUnits(text, cuts)
    ensures cuts[0] <= Last(cuts)
    decreases |cuts|
  {
    if |cuts| > 1 {
      var rest := cuts[1..];
      assert UnitAt(text, cuts, 0);
      forall k: nat | k + 1 < |rest| ensures UnitAt(text, rest, k) {
        assert UnitAt(text, cuts, k + 1);
      }
      UnitsGoUp(text, rest);
    }
  }

  /** A word is flagged as quoted if and only if two of its quotes are alike. */
  lemma QuotesAreFlagged(text: string, i: nat, cuts: seq<nat>)
    requires IsWord(text, i, cuts)
    ensures var x := LexemeOf(text, cuts);
      x.flags % 2 == TKN_HAS_QUOTES <==> HoldsQuotes(x.text)
  {
    hide IsClosedQuote, UnitExpands, AreUnits, EndsWord, SomeClosed, SomeExpands;
    ClosedIffPair(text, cuts);
    PairInSlice(text, i, Last(cuts));
  }

  // ---- Word boundaries -------------------------------------------------------------------

  /** No word ends within a quote: one that is closed on the line is in the word with its closing quote. */
  lemma QuotesAreWhole(text: string, i: nat, cuts: seq<nat>, n: nat, j: nat)
    requires IsWord(text, i, cuts) && n + 1 < |cuts| && IsClosedQuote(text, cuts[n], j)
    ensures j == cuts[n + 1] <= Last(cuts)
  {
    hide IsUnit, IsClosedQuote, OperatorStarts;
    assert UnitAt(text, cuts, n);
    assert IsUnit(text, cuts[n], j) by { ClosedIsUnit(text, cuts[n], j); }
    UnitEndsOnce(text, cuts[n], cuts[n + 1], j);
    var rest := cuts[n + 1..];
    forall k: nat | k + 1 < |rest| ensures UnitAt(text, rest, k) {
      assert UnitAt(text, cuts, n + 1 + k);
    }
    UnitsGoUp(text, rest);
  }

  lemma ClosedIsUnit(text: string, i: nat, j: nat)
    requires IsClosedQuote(text, i, j)
    ensures IsUnit(text, i, j)
  {
  }

  /** A blank or an operator within a word is enclosed by a quote that is closed in the word. */
  lemma {:induction false} SeparatorIsEnclosed(text: string, cuts: seq<nat>, k: nat) returns (n: nat)
    requires cuts != [] && AreUnits(text, cuts) && cuts[0] <= k < Last(cuts)
    requires BlankAt(text, k) || OperatorStarts(text, k)
    ensures ClosedAt(text, cuts, n) && cuts[n] < k < cuts[n + 1]
    decreases |cuts|
  {
    hide IsUnit, OperatorStarts, IsClosedQuote;
    assert UnitAt(text, cuts, 0);
    if k < cuts[1] {
      n := 0;
      OnlyQuotesEnclose(text, cuts[0], cuts[1], k);
    } else {
      var rest := cuts[1..];
      forall m: nat | m + 1 < |rest| ensures UnitAt(text, rest, m) {
        assert UnitAt(text, cuts, m + 1);
      }
      var m := SeparatorIsEnclosed(text, rest, k);
      n := m + 1;
    }
  }

  lemma OnlyQuotesEnclose(text: string, i: nat, j: nat, k: nat)
    requires IsUnit(text, i, j) && i <= k < j
    requires BlankAt(text, k) || OperatorStarts(text, k)
    ensures IsClosedQuote(text, i, j) && i < k
  {
    hide OperatorStarts;
    assert k < |text| ==> (StartsOperator(text, k) ==> IsOperatorChar(text[k]));
    if k < |text| { OperatorChars(text, k); }
  }
}
