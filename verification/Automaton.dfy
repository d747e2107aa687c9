// The parser's decision and goto functions over the packed tables, and the item sets that
// explain them: which productions can be in progress in each of the 61 states.

module Automaton {
  import opened Grammar
  import opened ParseTables

  datatype Decision = Shift(state: int) | Reduce(rule: int) | Error

  function ReduceOrError(action: int): Decision {
    if action == 0 then Error else Reduce(action)
  }

  /** What the automaton does in state `s` when it sees terminal `a`. */
  function Decide(s: int, a: Symbol): Decision
    requires IsState(s)
  {
    if YyPact(s) == YYPACT_NINF then
      ReduceOrError(YyDefact(s))
    else
      var index := YyPact(s) + a;
      if index < 0 || index > YYLAST || YyCheck(index) != a then
        ReduceOrError(YyDefact(s))
      else if YyTable(index) <= 0 then
        ReduceOrError(-YyTable(index))
      else
        Shift(YyTable(index))
  }

  /** The state entered from `s` after reducing to nonterminal `x`. */
  function Goto(s: int, x: Symbol): int
    requires IsState(s) && IsNonterminal(x)
  {
    var index := YyPgoto(x - NTERM_OFFSET) + s;
    if 0 <= index <= YYLAST && YyCheck(index) == s then YyTable(index) else YyDefgoto(x - NTERM_OFFSET)
  }

  // ---- Item sets -------------------------------------------------------------------------

  /** States in which a command may start. */
  predicate CommandStart(s: int) {
    s == 4 || s == 31 || s == 32 || s == 49 || s == 50 || s == 51 || s == 56
  }

  /** States in which a redirection may start. */
  predicate RedirectStart(s: int) {
    CommandStart(s) || s == 17 || s == 19 || s == 20 || s == 37 || s == 40 || s == 43 || s == 55
  }

  /** States in which an optional newline list may start. */
  predicate LinebreakStart(s: int) {
    s == 0 || s == 12 || s == 13 || s == 34 || s == 35 || s == 36
  }

  /** State `s` contains an item with the dot in front of `x`. */
  predicate Before(s: int, x: Symbol) {
    if x == SYM_EOF then s == 2
    else if x == SYM_WORD then CommandStart(s) || 8 <= s <= 11 || s == 19 || s == 20 || s == 40 || s == 43 || s == 55
    else if x == SYM_NEWLINE then LinebreakStart(s) || s == 3 || s == 32 || s == 47 || s == 56
    else if x == SYM_PIPE then s == 15 || s == 57 || s == 58
    else if SYM_LESS <= x <= SYM_DGREAT then RedirectStart(s)
    else if x == SYM_AND_IF || x == SYM_OR_IF then s == 14 || s == 46 || s == 48 || s == 60
    else if x == SYM_OPAR then CommandStart(s)
    else if x == SYM_CPAR then s == 30
    else if x == SYM_PROGRAM then s == 0
    else if x == SYM_COMPLETE_COMMANDS then s == 4
    else if x == SYM_AND_OR then s == 4 || s == 31 || s == 32 || s == 56
    else if x == SYM_PIPELINE then CommandStart(s) && s != 51
    else if SYM_COMMAND <= x <= SYM_SUBSHELL then CommandStart(s)
    else if x == SYM_COMPOUND_LIST then s == 12
    else if x == SYM_TERM then s == 31
    else if SYM_SIMPLE_COMMAND <= x <= SYM_CMD_NAME then CommandStart(s)
    else if x == SYM_CMD_WORD then s == 20
    else if x == SYM_CMD_PREFIX then CommandStart(s)
    else if x == SYM_CMD_SUFFIX then s == 19 || s == 43
    else if x == SYM_REDIRECT_LIST then s == 17
    else if SYM_IO_REDIRECT <= x <= SYM_IO_FILE then RedirectStart(s)
    else if x == SYM_FILENAME then s == 8 || s == 9 || s == 11
    else if x == SYM_IO_HERE then RedirectStart(s)
    else if x == SYM_HERE_END then s == 10
    else if x == SYM_NEWLINE_LIST then LinebreakStart(s) || s == 47
    else x == SYM_LINEBREAK && LinebreakStart(s)
  }

  /** State `s` contains production `r` with the dot after its first `d > 0` symbols. */
  predicate After(s: int, r: int, d: int)
    requires IsRule(r)
  {
    match r
    case 1 => (d == 1 && s == 2) || (d == 2 && s == 5)
    case 2 => (d == 1 && s == 4) || (d == 2 && s == 13) || (d == 3 && s == 33)
    case 3 => d == 1 && s == 4
    case 4 => (d == 1 && s == 13) || (d == 2 && s == 32) || (d == 3 && s == 48)
    case 5 => d == 1 && s == 14
    case 6 => d == 1 && s == 15
    case 7 =>
      (d == 1 && (s == 14 || s == 46 || s == 48 || s == 60)) || (d == 2 && s == 34) || (d == 3 && s == 49)
        || (d == 4 && s == 57)
    case 8 =>
      (d == 1 && (s == 14 || s == 46 || s == 48 || s == 60)) || (d == 2 && s == 35) || (d == 3 && s == 50)
        || (d == 4 && s == 58)
    case 9 => d == 1 && s == 16
    case 10 =>
      (d == 1 && (s == 15 || s == 57 || s == 58)) || (d == 2 && s == 36) || (d == 3 && s == 51) || (d == 4 && s == 59)
    case 11 => d == 1 && s == 18
    case 12 => d == 1 && s == 17
    case 13 => (d == 1 && s == 17) || (d == 2 && s == 37)
    case 14 => (d == 1 && s == 12) || (d == 2 && s == 30) || (d == 3 && s == 45)
    case 15 => (d == 1 && s == 31) || (d == 2 && s == 47)
    case 16 => (d == 1 && s == 31) || (d == 2 && s == 47) || (d == 3 && s == 56)
    case 17 => (d == 1 && s == 47) || (d == 2 && s == 56) || (d == 3 && s == 60)
    case 18 => d == 1 && s == 46
    case 19 => (d == 1 && s == 20) || (d == 2 && s == 43) || (d == 3 && s == 55)
    case 20 => (d == 1 && s == 20) || (d == 2 && s == 43)
    case 21 => d == 1 && s == 20
    case 22 => (d == 1 && s == 19) || (d == 2 && s == 40)
    case 23 => d == 1 && s == 19
    case 24 => d == 1 && s == 7
    case 25 => d == 1 && s == 42
    case 26 => d == 1 && s == 21
    case 27 => (d == 1 && s == 20) || (d == 2 && s == 44)
    case 28 => d == 1 && s == 41
    case 29 => (d == 1 && (s == 40 || s == 55)) || (d == 2 && s == 54)
    case 30 => d == 1 && s == 39
    case 31 => (d == 1 && (s == 40 || s == 55)) || (d == 2 && s == 53)
    case 32 => d == 1 && s == 38
    case 33 => (d == 1 && s == 37) || (d == 2 && s == 52)
    case 34 => d == 1 && s == 22
    case 35 => d == 1 && s == 23
    case 36 => (d == 1 && s == 8) || (d == 2 && s == 25)
    case 37 => (d == 1 && s == 9) || (d == 2 && s == 26)
    case 38 => (d == 1 && s == 11) || (d == 2 && s == 29)
    case 39 => d == 1 && s == 24
    case 40 => (d == 1 && s == 10) || (d == 2 && s == 28)
    case 41 => d == 1 && s == 27
    case 42 => d == 1 && s == 1
    case 43 => (d == 1 && (s == 3 || s == 32 || s == 56)) || (d == 2 && s == 6)
    case 44 => d == 1 && (s == 3 || s == 32)
    case _ => false
  }

  /** State `s` contains production `r` with the dot at position `d`. */
  predicate HasItem(s: int, r: int, d: int)
    requires IsRule(r)
  {
    if r == 1 && d == 0 then s == 0
    else if d == 0 then Before(s, Lhs(r))
    else After(s, r, d)
  }

  // ---- Transitions -----------------------------------------------------------------------

  function NextTerminal(s: int, a: Symbol): int {
    if a == SYM_EOF then YYFINAL
    else if a == SYM_WORD then
      if CommandStart(s) then 7
      else if s == 10 then 27
      else if s == 20 then 42
      else if s == 19 || s == 43 then 39
      else if s == 40 || s == 55 then 53
      else 24
    else if a == SYM_NEWLINE then (if s == 3 || s == 32 || s == 56 then 6 else 1)
    else if a == SYM_PIPE then 36
    else if a == SYM_LESS then 8
    else if a == SYM_GREAT then 9
    else if a == SYM_DLESS then 10
    else if a == SYM_DGREAT then 11
    else if a == SYM_AND_IF then 34
    else if a == SYM_OR_IF then 35
    else if a == SYM_OPAR then 12
    else 45
  }

  function NextNonterminal(s: int, x: Symbol): int {
    if x == SYM_PROGRAM then 2
    else if x == SYM_COMPLETE_COMMANDS then 13
    else if x == SYM_AND_OR then (if s == 4 then 14 else if s == 31 then 46 else if s == 32 then 48 else 60)
    else if x == SYM_PIPELINE then (if s == 49 then 57 else if s == 50 then 58 else 15)
    else if x == SYM_COMMAND then (if s == 51 then 59 else 16)
    else if x == SYM_SUBSHELL then 17
    else if x == SYM_COMPOUND_LIST then 30
    else if x == SYM_TERM then 47
    else if x == SYM_SIMPLE_COMMAND then 18
    else if x == SYM_CMD_NAME then 19
    else if x == SYM_CMD_WORD then 43
    else if x == SYM_CMD_PREFIX then 20
    else if x == SYM_CMD_SUFFIX then (if s == 19 then 40 else 55)
    else if x == SYM_REDIRECT_LIST then 37
    else if x == SYM_IO_REDIRECT then
      if CommandStart(s) then 21
      else if s == 17 then 38
      else if s == 19 || s == 43 then 41
      else if s == 20 then 44
      else if s == 37 then 52
      else 54
    else if x == SYM_IO_FILE then 22
    else if x == SYM_FILENAME then (if s == 8 then 25 else if s == 9 then 26 else 29)
    else if x == SYM_IO_HERE then 23
    else if x == SYM_HERE_END then 28
    else if x == SYM_NEWLINE_LIST then (if s == 13 then 32 else if s == 47 then 56 else 3)
    else if s == 0 then 4
    else if s == 12 then 31
    else if s == 13 then 33
    else if s == 34 then 49
    else if s == 35 then 50
    else 51
  }

  /** The state the automaton moves to from `s` over `x`, where `Before(s, x)`. */
  function Next(s: int, x: Symbol): int {
    if IsNonterminal(x) then NextNonterminal(s, x) else NextTerminal(s, x)
  }

  // ---- The packed tables implement the automaton -----------------------------------------

  /** A terminal is shifted exactly where it stands after a dot, and to the right state. */
  lemma TablesShift(s: int, a: Symbol)
    requires IsState(s) && IsTerminal(a)
    ensures Decide(s, a).Shift? <==> Before(s, a)
    ensures Before(s, a) ==> Decide(s, a) == Shift(Next(s, a))
  {
    hide Decide, Before, Next;
    if s <= 30 { ShiftOfFirstStates(s, a); } else { ShiftOfLastStates(s, a); }
  }

  lemma ShiftOfFirstStates(s: int, a: Symbol)
    requires 0 <= s <= 30 && IsTerminal(a)
    ensures Decide(s, a).Shift? <==> Before(s, a)
    ensures Before(s, a) ==> Decide(s, a) == Shift(Next(s, a))
  {
  }

  lemma ShiftOfLastStates(s: int, a: Symbol)
    requires IsState(s) && 30 < s && IsTerminal(a)
    ensures Decide(s, a).Shift? <==> Before(s, a)
    ensures Before(s, a) ==> Decide(s, a) == Shift(Next(s, a))
  {
  }

  /** A goto is right wherever its nonterminal stands after a dot. */
  lemma TablesGoto(s: int, x: Symbol)
    requires IsState(s) && IsNonterminal(x) && Before(s, x)
    ensures Goto(s, x) == Next(s, x)
  {
  }

  /** Every reduction is the state's default one, and its production is complete there. */
  lemma TablesReduce(s: int, a: Symbol)
    requires IsState(s) && IsTerminal(a) && Decide(s, a).Reduce?
    ensures Decide(s, a).rule == YyDefact(s)
    ensures IsRule(YyDefact(s)) && (s != YYFINAL ==> YyDefact(s) != 1)
    ensures HasItem(s, YyDefact(s), RhsLen(YyDefact(s)))
  {
    hide Decide;
    TablesDefault(s, a);
    DefaultsAreRules(s);
    DefaultsAreComplete(s, YyDefact(s));
  }

  /** Where nothing is shifted, the state's default decides. */
  lemma TablesDefault(s: int, a: Symbol)
    requires IsState(s) && IsTerminal(a) && !Decide(s, a).Shift?
    ensures Decide(s, a) == ReduceOrError(YyDefact(s))
  {
    if YyPact(s) != YYPACT_NINF && 0 <= YyPact(s) + a <= YYLAST {
      TableEntriesAreNotNegative(YyPact(s) + a);
    }
  }

  lemma TableEntriesAreNotNegative(i: int)
    requires 0 <= i <= YYLAST
    ensures YyTable(i) >= 0
    ensures YyTable(i) == 0 <==> YyCheck(i) == -1
  {
  }

  lemma DefaultsAreRules(s: int)
    requires IsState(s)
    ensures YyDefact(s) != 0 ==> IsRule(YyDefact(s))
    ensures YyDefact(s) == 1 <==> s == YYFINAL
  {
  }

  lemma DefaultsAreComplete(s: int, r: int)
    requires IsState(s) && IsRule(r) && YyDefact(s) == r
    ensures HasItem(s, r, RhsLen(r))
  {
    if r == 45 {
      assert LinebreakStart(s);
    } else if r <= 20 {
      DefaultsOfLists(s, r);
    } else {
      DefaultsOfCommands(s, r);
    }
  }

  lemma DefaultsOfLists(s: int, r: int)
    requires IsState(s) && 0 < r <= 20 && YyDefact(s) == r
    ensures After(s, r, RhsLen(r))
  {
  }

  lemma DefaultsOfCommands(s: int, r: int)
    requires IsState(s) && 20 < r < 45 && YyDefact(s) == r
    ensures After(s, r, RhsLen(r))
  {
  }

  // ---- Moves between item sets -----------------------------------------------------------

  lemma NextIsState(s: int, x: Symbol)
    requires IsState(s) && Before(s, x)
    ensures 0 < Next(s, x) < STATE_COUNT
    ensures Next(s, x) == YYFINAL <==> x == SYM_EOF
  {
  }

  /** Every edge into a state is labelled with the state's accessing symbol. */
  lemma AccessingSymbol(s: int, x: Symbol)
    requires IsState(s) && (IsTerminal(x) || IsNonterminal(x)) && Before(s, x)
    ensures IsState(Next(s, x)) && YyStos(Next(s, x)) == if x == SYM_EOF then 0 else x
  {
  }

  lemma AccessingSymbolOfItem(s: int, r: int, d: nat)
    requires IsState(s) && IsRule(r) && d < RhsLen(r) && After(s, r, d + 1)
    ensures YyStos(s) == RhsAt(r, d)
  {
  }

  /** A production is only started where its left-hand side stands after a dot. */
  lemma StartItem(s: int, r: int)
    requires IsRule(r) && r != 1 && HasItem(s, r, 0)
    ensures Before(s, Lhs(r)) && SYM_PROGRAM <= Lhs(r) <= SYM_LINEBREAK
  {
  }

  /** Every item with the dot before a symbol has its successor in the next state. */
  lemma MoveForward(s: int, r: int, d: nat)
    requires IsState(s) && IsRule(r) && d < RhsLen(r) && HasItem(s, r, d)
    ensures Before(s, RhsAt(r, d)) && HasItem(Next(s, RhsAt(r, d)), r, d + 1)
  {
    if 0 < d && r <= 20 {
      ForwardInList(s, r, d);
    } else if 0 < d {
      ForwardInCommand(s, r, d);
    } else if r <= 20 {
      ForwardFromListStart(s, r);
    } else {
      ForwardFromCommandStart(s, r);
    }
  }

  lemma ForwardFromListStart(s: int, r: int)
    requires IsState(s) && 0 < r <= 20 && HasItem(s, r, 0)
    ensures Before(s, RhsAt(r, 0)) && After(Next(s, RhsAt(r, 0)), r, 1)
  {
  }

  lemma ForwardFromCommandStart(s: int, r: int)
    requires IsState(s) && IsRule(r) && 20 < r && 0 < RhsLen(r) && HasItem(s, r, 0)
    ensures Before(s, RhsAt(r, 0)) && After(Next(s, RhsAt(r, 0)), r, 1)
  {
  }

  lemma ForwardInList(s: int, r: int, d: nat)
    requires IsState(s) && 0 < r <= 20 && 0 < d < RhsLen(r) && After(s, r, d)
    ensures Before(s, RhsAt(r, d)) && After(Next(s, RhsAt(r, d)), r, d + 1)
  {
  }

  lemma ForwardInCommand(s: int, r: int, d: nat)
    requires IsState(s) && IsRule(r) && 20 < r && 0 < d < RhsLen(r) && After(s, r, d)
    ensures Before(s, RhsAt(r, d)) && After(Next(s, RhsAt(r, d)), r, d + 1)
  {
  }

  /** Every item with the dot after a symbol came over that symbol from its predecessor item. */
  lemma MoveBackward(s: int, x: Symbol, r: int, d: nat)
    requires IsState(s) && (IsTerminal(x) || IsNonterminal(x)) && Before(s, x)
    requires IsRule(r) && d < RhsLen(r) && HasItem(Next(s, x), r, d + 1)
    ensures x == RhsAt(r, d) && HasItem(s, r, d)
  {
    AccessingSymbol(s, x);
    AccessingSymbolOfItem(Next(s, x), r, d);
    if 0 < d {
      MoveBackwardToKernel(s, r, d);
    } else if r <= 20 {
      BackwardToListStart(s, r);
    } else {
      BackwardToCommandStart(s, r);
    }
  }

  lemma BackwardToListStart(s: int, r: int)
    requires IsState(s) && 0 < r <= 20
    requires Before(s, RhsAt(r, 0)) && After(Next(s, RhsAt(r, 0)), r, 1)
    ensures HasItem(s, r, 0)
  {
  }

  lemma BackwardToCommandStart(s: int, r: int)
    requires IsState(s) && IsRule(r) && 20 < r && 0 < RhsLen(r)
    requires Before(s, RhsAt(r, 0)) && After(Next(s, RhsAt(r, 0)), r, 1)
    ensures HasItem(s, r, 0)
  {
  }

  lemma MoveBackwardToKernel(s: int, r: int, d: nat)
    requires IsState(s) && IsRule(r) && 0 < d < RhsLen(r)
    requires Before(s, RhsAt(r, d)) && After(Next(s, RhsAt(r, d)), r, d + 1)
    ensures After(s, r, d)
  {
  }
}
