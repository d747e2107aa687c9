// What a word of the input is made of, told by its characters, and that each step of the tokenizer
// takes one such unit.

module WordUnits {
  import opened CStrings
  import opened Grammar
  import opened Context
  import opened Syntax
  import opened ShellText
  import opened Lexer
  import opened LexerFacts
  import opened Classification

  // ---- Words -----------------------------------------------------------------------------

  /** A character that stands for itself. */
  ghost predicate IsPlain(text: string, i: nat) {
    && i < |text| && !BlankAt(text, i) && !QuoteAt(text, i) && !OperatorStarts(text, i)
    && forall j: nat :: !IsParameter(text, i, j)
  }

  /** What a word is made of: a quote with all it encloses, a parameter, or one character. */
  ghost predicate IsUnit(text: string, i: nat, j: nat) {
    || IsClosedQuote(text, i, j) || IsParameter(text, i, j)
    || (j == i + 1 && (IsLoneQuote(text, i) || IsPlain(text, i)))
  }

  ghost predicate UnitAt(text: string, cuts: seq<nat>, k: nat)
    requires k + 1 < |cuts|
  {
    IsUnit(text, cuts[k], cuts[k + 1])
  }

  /** The text is cut into units. */
  ghost predicate AreUnits(text: string, cuts: seq<nat>) {
    forall k: nat :: k + 1 < |cuts| ==> UnitAt(text, cuts, k)
  }

  ghost predicate EndsWord(text: string, i: nat) {
    i == |text| || BlankAt(text, i) || OperatorStarts(text, i)
  }

  function Last(cuts: seq<nat>): nat
    requires cuts != []
  {
    cuts[|cuts| - 1]
  }

  /** A word is cut into units, the first of which starts no comment; it ends where one of no word follows. */
  ghost predicate IsWord(text: string, i: nat, cuts: seq<nat>) {
    && |cuts| >= 2 && cuts[0] == i && i < Last(cuts) <= |text| && text[i] != '#'
    && AreUnits(text, cuts) && EndsWord(text, Last(cuts))
  }

  ghost predicate ClosedAt(text: string, cuts: seq<nat>, k: nat) {
    k + 1 < |cuts| && IsClosedQuote(text, cuts[k], cuts[k + 1])
  }

  /** A parameter, or a double quote behind which there is one: if it is closed, before its end. */
  ghost predicate UnitExpands(text: string, i: nat, j: nat) {
    || IsParameter(text, i, j)
    || (i < |text| && text[i] == '"' && exists p: nat, q: nat ::
          i < p && IsParameter(text, p, q) && (IsClosedQuote(text, i, j) ==> p < j))
  }

  ghost predicate ExpandsAt(text: string, cuts: seq<nat>, k: nat) {
    k + 1 < |cuts| && UnitExpands(text, cuts[k], cuts[k + 1])
  }

  ghost predicate SomeClosed(text: string, cuts: seq<nat>) {
    exists k: nat :: ClosedAt(text, cuts, k)
  }

  ghost predicate SomeExpands(text: string, cuts: seq<nat>) {
    exists k: nat :: ExpandsAt(text, cuts, k)
  }

  ghost function LexemeOf(text: string, cuts: seq<nat>): Lexeme
    requires cuts != [] && cuts[0] <= Last(cuts) <= |text|
  {
    Lexeme(text[cuts[0]..Last(cuts)], WordToken,
      (if SomeClosed(text, cuts) then TKN_HAS_QUOTES else 0)
        + (if SomeExpands(text, cuts) then TKN_HAS_EXPANSION else 0))
  }

  // ---- The tokenizer's characters --------------------------------------------------------

  lemma OperatorChars(line: string, i: nat)
    requires i < |line|
    ensures OperatorStarts(line, i) <==> StartsOperator(line, i)
    ensures BlankAt(line, i) <==> IsBlank(line[i])
    ensures QuoteAt(line, i) <==> IsQuote(line[i])
    ensures IsExpansionStart(line, i) <==> exists j: nat :: IsParameter(line, i, j)
  {
    if StartsOperator(line, i) { var kind := LongestOperator(line, i); }
    if OperatorStarts(line, i) {
      var kind: Symbol :| IsOperator(kind) && Spelled(line, i, kind);
      var s := Spelling(kind);
      assert line[i] == line[i..i + |s|][0] && (|s| == 2 ==> line[i + 1] == line[i..i + |s|][1]);
    }
    if IsExpansionStart(line, i) { ExpansionIsParameter(line, i); }
    if j: nat :| IsParameter(line, i, j) { ParameterIsExpansion(line, i, j); }
  }

  /** The operator that the tokenizer takes is the longest one. */
  lemma LongestOperator(line: string, i: nat) returns (kind: Symbol)
    requires i < |line| && StartsOperator(line, i)
    ensures OperatorIs(line, i, kind) && Spelling(kind) == OperatorAt(line, i)
  {
    var s := OperatorAt(line, i);
    assert s[0] == line[i] && (|s| == 2 ==> s == [line[i], line[i]]) && (|s| == 1 ==> s == [line[i]]);
    kind := KindOf(s);
    assert Spelled(line, i, kind);
    forall other: Symbol | IsOperator(other) && Spelled(line, i, other)
      ensures |Spelling(other)| <= |Spelling(kind)|
    {
      var t := Spelling(other);
      assert line[i] == line[i..i + |t|][0] && (|t| == 2 ==> line[i + 1] == line[i..i + |t|][1]);
    }
  }

  function KindOf(s: string): (kind: Symbol)
    requires s == "\n" || s == "|" || s == "<" || s == ">" || s == "<<" || s == ">>" || s == "&&" || s == "||"
      || s == "(" || s == ")"
    ensures IsOperator(kind) && Spelling(kind) == s
  {
    if s == "\n" then SYM_NEWLINE
    else if s == "|" then SYM_PIPE
    else if s == "<" then SYM_LESS
    else if s == ">" then SYM_GREAT
    else if s == "<<" then SYM_DLESS
    else if s == ">>" then SYM_DGREAT
    else if s == "&&" then SYM_AND_IF
    else if s == "||" then SYM_OR_IF
    else if s == "(" then SYM_OPAR
    else SYM_CPAR
  }

  // ---- One step --------------------------------------------------------------------------

  /** A step within or into a word takes one unit. */
  lemma StepIsUnit(line: string, s: LexState)
    requires LexOk(line, s) && s.idx < |line| && s.kind != OperatorToken
    requires LexStep(line, s).Continue? && LexStep(line, s).state.kind == WordToken
    ensures var next := LexStep(line, s).state;
      && IsUnit(line, s.idx, next.idx) && next.pos == Uncovered(s) && (s.building || line[s.idx] != '#')
      && next.quotes == ((s.building && s.quotes) || IsClosedQuote(line, s.idx, next.idx))
      && next.expansion == ((s.building && s.expansion) || UnitExpands(line, s.idx, next.idx))
      && next.interrupted == (s.building && s.interrupted) && next.atEoi == (s.building && s.atEoi)
  {
    hide QuoteRule, ExpansionLen, CommentEnd, IsExpansionStart, IsParameter, IsClosedQuote, IsLoneQuote, UnitExpands,
      OperatorStarts, StartsOperator, IsQuote;
    OperatorChars(line, s.idx);
    if IsQuote(line[s.idx]) {
      QuoteUnit(line, s);
    } else if IsExpansionStart(line, s.idx) {
      ParameterUnit(line, s);
    } else {
      PlainUnit(line, s);
    }
  }

  lemma QuoteUnit(line: string, s: LexState)
    requires LexOk(line, s) && s.idx < |line| && s.kind != OperatorToken && IsQuote(line[s.idx])
    ensures LexStep(line, s) == Continue(QuoteRule(line, s))
    ensures var next := QuoteRule(line, s);
      && (IsClosedQuote(line, s.idx, next.idx) || (next.idx == s.idx + 1 && IsLoneQuote(line, s.idx)))
      && next.pos == Uncovered(s) && line[s.idx] != '#'
      && next.quotes == ((s.building && s.quotes) || IsClosedQuote(line, s.idx, next.idx))
      && next.expansion == ((s.building && s.expansion) || UnitExpands(line, s.idx, next.idx))
      && next.interrupted == (s.building && s.interrupted) && next.atEoi == (s.building && s.atEoi)
  {
    hide HasExpansion;
    QuoteIsClosed(line, s.idx);
    QuoteExpands(line, s.idx, QuoteRule(line, s).idx);
  }

  /** A double quote expands if there is an expansion up to its end, or, if it has none, anywhere behind it. */
  lemma QuoteExpands(line: string, i: nat, j: nat)
    requires i < j <= |line| && IsQuote(line[i])
    requires IsClosedQuote(line, i, j) || IsLoneQuote(line, i)
    ensures UnitExpands(line, i, j)
      <==> line[i] == '"' && HasExpansion(line, i + 1, if IsClosedQuote(line, i, j) then j - 1 else |line|)
  {
    var end := if IsClosedQuote(line, i, j) then j - 1 else |line|;
    if line[i] == '"' && HasExpansion(line, i + 1, end) {
      var k: nat :| i + 1 <= k < end && IsExpansionStart(line, k);
      ExpansionIsParameter(line, k);
      assert i < k && IsParameter(line, k, k + ExpansionLen(line, k));
    }
    if UnitExpands(line, i, j) {
      var p: nat, q: nat :| i < p && IsParameter(line, p, q) && (IsClosedQuote(line, i, j) ==> p < j);
      ParameterIsExpansion(line, p, q);
      assert line[p] == '$';
    }
  }

  lemma ParameterUnit(line: string, s: LexState)
    requires LexOk(line, s) && s.idx < |line| && s.kind != OperatorToken && !IsQuote(line[s.idx])
    requires IsExpansionStart(line, s.idx)
    ensures var step := LexStep(line, s); var next := step.state;
      && step.Continue? && next.kind == WordToken && IsParameter(line, s.idx, next.idx) && next.pos == Uncovered(s)
      && line[s.idx] != '#' && !IsClosedQuote(line, s.idx, next.idx) && UnitExpands(line, s.idx, next.idx)
      && next.quotes == (s.building && s.quotes) && next.expansion
      && next.interrupted == (s.building && s.interrupted) && next.atEoi == (s.building && s.atEoi)
  {
    ExpansionIsParameter(line, s.idx);
  }

  lemma PlainUnit(line: string, s: LexState)
    requires LexOk(line, s) && s.idx < |line| && s.kind != OperatorToken
    requires !IsQuote(line[s.idx]) && !IsExpansionStart(line, s.idx)
    requires LexStep(line, s).Continue? && LexStep(line, s).state.kind == WordToken
    ensures var next := LexStep(line, s).state;
      && next.idx == s.idx + 1 && IsPlain(line, s.idx) && next.pos == Uncovered(s) && (s.building || line[s.idx] != '#')
      && next.quotes == (s.building && s.quotes) && next.expansion == (s.building && s.expansion)
      && !IsClosedQuote(line, s.idx, next.idx) && !UnitExpands(line, s.idx, next.idx)
      && next.interrupted == (s.building && s.interrupted) && next.atEoi == (s.building && s.atEoi)
  {
    hide StartsOperator, OperatorStarts, IsExpansionStart;
    OperatorChars(line, s.idx);
  }

  lemma WordStops(line: string, s: LexState)
    requires LexOk(line, s) && s.kind == WordToken && LexStep(line, s).Delimited?
    ensures EndsWord(line, s.idx) && |LexStep(line, s).lexeme.text| == s.idx - s.pos
  {
    hide QuoteRule, ExpansionLen, CommentEnd, IsExpansionStart, OperatorStarts, StartsOperator;
    if s.idx < |line| { OperatorChars(line, s.idx); }
  }

  /** One step: a word that starts or goes on takes one unit, and one that is delimited ends there. */
  lemma StepIsLexed(line: string, s: LexState)
    requires LexOk(line, s)
    ensures match LexStep(line, s)
      case Delimited(_, _) => s.kind == WordToken ==> EndsWord(line, s.idx)
      case Continue(next) => next.kind == WordToken && s.idx < |line| ==> IsUnit(line, s.idx, next.idx)
  {
    hide LexStep, IsUnit, EndsWord, LexOk;
    var step := LexStep(line, s);
    if step.Delimited? {
      if s.kind == WordToken { WordStops(line, s); }
    } else if step.state.kind == WordToken && s.idx < |line| {
      if s.kind == OperatorToken { OperatorsAreDelimited(line, s); }
      StepIsUnit(line, s);
    }
  }

  lemma OperatorsAreDelimited(line: string, s: LexState)
    requires LexOk(line, s) && s.kind == OperatorToken && s.idx < |line|
    ensures LexStep(line, s).Delimited?
  {
  }
}
