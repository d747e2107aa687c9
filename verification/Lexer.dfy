// The tokenizer: one step of rule selection, as a function of the line and the lexer state,
// and the loops the rules use.

module Lexer {
  import opened CStrings
  import opened Context
  import opened Syntax
  import opened ShellText

  /** The lexer's record; its flag bits are one field each. */
  datatype LexState = LexState(
    pos: nat, len: nat, idx: nat, kind: TokenType,
    quotes: bool, expansion: bool, building: bool, atEoi: bool, interrupted: bool)

  const ZEROED := LexState(0, 0, 0, NoToken, false, false, false, false, false)

  /** A token as it is delimited: its slice of the line, its kind, its record's flags. */
  datatype Lexeme = Lexeme(text: string, kind: TokenType, flags: nat)

  /** What a step leaves: the new state, and the token it delimited, if any. */
  datatype Step = Continue(state: LexState) | Delimited(state: LexState, lexeme: Lexeme)

  /** The character at an index; the end of the line reads as NUL. */
  function At(line: string, i: nat): char {
    if i < |line| then line[i] else NUL
  }

  predicate IsOperatorChar(c: char) {
    c == '<' || c == '>' || c == '&' || c == '|' || c == '(' || c == ')' || c == '\n'
  }

  /** The two characters at `i` form an operator. */
  predicate IsPair(line: string, i: nat) {
    At(line, i) == At(line, i + 1) && (At(line, i) == '<' || At(line, i) == '>' || At(line, i) == '&'
      || At(line, i) == '|')
  }

  predicate StartsOperator(line: string, i: nat) {
    IsOperatorChar(At(line, i)) && (At(line, i) != '&' || At(line, i + 1) == '&')
  }

  // ---- Scans -----------------------------------------------------------------------------

  /** Where the name that starts at `i` ends. */
  function NameEnd(line: string, i: nat): (j: nat)
    ensures i <= j && (i <= |line| ==> j <= |line|)
    decreases |line| - i
  {
    if i < |line| && IsNameBody(line[i]) then NameEnd(line, i + 1) else i
  }

  /** The length of the expansion that starts at `i`. */
  function ExpansionLen(line: string, i: nat): (n: nat)
    requires IsExpansionStart(line, i)
    ensures 2 <= n && i + n <= |line|
  {
    if line[i + 1] == '?' then 2 else NameEnd(line, i + 2) - i
  }

  /** The first `close` from `i` on, or the end of the line. */
  function QuoteEnd(line: string, i: nat, close: char): (j: nat)
    requires i <= |line|
    ensures i <= j <= |line| && (j < |line| ==> line[j] == close)
    decreases |line| - i
  {
    if i == |line| || line[i] == close then i else QuoteEnd(line, i + 1, close)
  }

  lemma {:induction false} NameEndIs(line: string, i: nat)
    requires i <= |line|
    ensures forall k :: i <= k < NameEnd(line, i) ==> ContinuesName(line[k])
    ensures NameEnd(line, i) < |line| ==> !ContinuesName(line[NameEnd(line, i)])
    decreases |line| - i
  {
    if i < |line| && IsNameBody(line[i]) { NameEndIs(line, i + 1); }
  }

  /** An expansion is `$?`, or a `$` and all of the name behind it. */
  lemma ExpansionIsParameter(line: string, i: nat)
    requires IsExpansionStart(line, i)
    ensures IsParameter(line, i, i + ExpansionLen(line, i))
  {
    if line[i + 1] != '?' { NameEndIs(line, i + 2); }
  }

  lemma ParameterIsExpansion(line: string, i: nat, j: nat)
    requires IsParameter(line, i, j)
    ensures IsExpansionStart(line, i) && j == i + ExpansionLen(line, i)
  {
    ExpansionIsParameter(line, i);
    ParameterEndsOnce(line, i, j, i + ExpansionLen(line, i));
  }

  lemma {:induction false} QuoteEndIsFirst(line: string, i: nat, close: char)
    requires i <= |line|
    ensures forall k :: i <= k < QuoteEnd(line, i, close) ==> line[k] != close
    decreases |line| - i
  {
    if i < |line| && line[i] != close { QuoteEndIsFirst(line, i + 1, close); }
  }

  /** A quote is closed by the next one like it, or not at all. */
  lemma QuoteIsClosed(line: string, i: nat)
    requires i < |line| && IsQuote(line[i])
    ensures var end := QuoteEnd(line, i + 1, line[i]);
      if end < |line| then IsClosedQuote(line, i, end + 1) else IsLoneQuote(line, i)
  {
    QuoteEndIsFirst(line, i + 1, line[i]);
  }

  /** Some expansion starts between `i` and `j`. */
  predicate HasExpansion(line: string, i: nat, j: nat) {
    exists k: nat :: i <= k < j && IsExpansionStart(line, k)
  }

  /** Where the comment at `i` ends: before the newline. */
  function CommentEnd(line: string, i: nat): nat
    requires i <= |line|
    decreases |line| - i
  {
    if i == |line| || line[i] == '\n' then i else CommentEnd(line, i + 1)
  }

  // ---- The rules -------------------------------------------------------------------------

  function Start(s: LexState, kind: TokenType): LexState {
    LexState(s.idx, 1, s.idx, kind, false, false, true, false, false)
  }

  function FlagsOf(s: LexState): nat {
    (if s.quotes then TKN_HAS_QUOTES else 0) + (if s.expansion then TKN_HAS_EXPANSION else 0)
      + (if s.interrupted then 16 else 0)
  }

  function Delimit(line: string, s: LexState): Step
    requires s.pos + s.len <= |line|
  {
    Delimited(s.(kind := NoToken, building := false), Lexeme(line[s.pos..s.pos + s.len], s.kind, FlagsOf(s)))
  }

  /** Extends the token over what lies before `to`. */
  function GrowTo(s: LexState, to: nat): LexState
    requires s.idx <= to
  {
    s.(len := s.len + (to - s.idx), idx := to)
  }

  /** The token as it is after rule 4 or 5 has started it or kept it; its next character is not in it yet. */
  function Opened(s: LexState): LexState {
    if s.building then s else Start(s, WordToken).(len := 0)
  }

  /** Rule 4: a quote that is closed takes everything up to its end; another one is a character. */
  function QuoteRule(line: string, s: LexState): LexState
    requires s.idx < |line|
  {
    var open := line[s.idx];
    var end := QuoteEnd(line, s.idx + 1, open);
    var begun := Opened(s);
    var seen := begun.(expansion := begun.expansion || (open == '"' && HasExpansion(line, s.idx + 1, end)));
    if end < |line| then GrowTo(seen, end + 1).(quotes := true) else GrowTo(seen, s.idx + 1)
  }

  /** The lexer's invariant: the token being built ends where the lexer is. */
  predicate LexOk(line: string, s: LexState) {
    && s.idx <= |line|
    && (s.building ==> s.kind != NoToken && 0 < s.len && s.pos + s.len == s.idx)
    && (!s.building ==> s.kind == NoToken)
    && (s.kind == OperatorToken ==>
      s.len == 1 && IsOperatorChar(line[s.pos]) && (line[s.pos] == '&' ==> At(line, s.idx) == '&'))
  }

  /** One call of the tokenizer. */
  function LexStep(line: string, s: LexState): Step
    requires LexOk(line, s)
  {
    if s.idx == |line| then
      if s.building then Delimit(line, s.(atEoi := true)) else Continue(s.(atEoi := true))
    else if s.kind == OperatorToken then
      if IsPair(line, s.idx - 1) then Delimit(line, GrowTo(s, s.idx + 1)) else Delimit(line, s)
    else if IsQuote(line[s.idx]) then
      Continue(QuoteRule(line, s))
    else if IsExpansionStart(line, s.idx) then
      Continue(GrowTo(Opened(s), s.idx + ExpansionLen(line, s.idx)).(expansion := true))
    else if StartsOperator(line, s.idx) then
      if s.building then Delimit(line, s) else Continue(Start(s, OperatorToken).(idx := s.idx + 1))
    else if IsBlank(line[s.idx]) then
      if s.building then Delimit(line, s).(state := Delimit(line, s).state.(idx := s.idx + 1))
        else Continue(s.(idx := s.idx + 1))
    else if s.kind == WordToken then
      Continue(GrowTo(s, s.idx + 1))
    else if line[s.idx] == '#' then
      Continue(s.(idx := CommentEnd(line, s.idx)))
    else
      Continue(Start(s, WordToken).(idx := s.idx + 1))
  }
}
