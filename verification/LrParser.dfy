// The run of the machine: reductions terminate, an accepted input is derived by the accepted
// tree (soundness), and every derivation is found again from its yield (completeness).

module LrParser {
  import opened Grammar
  import opened ParseTables
  import opened Automaton
  import opened Derivations
  import opened LrMachine

  // ---- Termination of reductions ---------------------------------------------------------

  const STACK_WEIGHT := 20

  /** How far a symbol on top of the stack can still be reduced without reading a token. */
  function Weight(x: Symbol): nat {
    if x == SYM_EOF then 23
    else if x == SYM_WORD then 40
    else if x == SYM_NEWLINE then 4
    else if SYM_PIPE <= x <= SYM_CPAR then 23
    else if x == SYM_LINEBREAK then 1
    else if x == SYM_NEWLINE_LIST then 2
    else if x == SYM_COMPLETE_COMMANDS then 23
    else if x == SYM_AND_OR then 24
    else if x == SYM_PIPELINE then 25
    else if x == SYM_COMMAND then 26
    else if x == SYM_SIMPLE_COMMAND || x == SYM_SUBSHELL then 27
    else if SYM_CMD_NAME <= x <= SYM_CMD_PREFIX then 28
    else if x == SYM_IO_REDIRECT then 29
    else if x == SYM_IO_FILE || x == SYM_IO_HERE then 30
    else if x == SYM_FILENAME || x == SYM_HERE_END then 11
    else if x == SYM_CMD_SUFFIX || x == SYM_REDIRECT_LIST then 10
    else 0
  }

  function TopSymbol(stack: seq<Frame>): Symbol {
    if stack == [] then SYM_EOF else Root(stack[|stack| - 1].tree)
  }

  /** Bounds the reductions that can happen before the next token is read. */
  function Measure(stack: seq<Frame>): nat {
    STACK_WEIGHT * |stack| + Weight(TopSymbol(stack))
  }

  lemma RuleLosesWeight(r: int)
    requires IsRule(r) && r != 1 && RhsLen(r) > 0
    ensures Weight(Lhs(r)) < STACK_WEIGHT * (RhsLen(r) - 1) + Weight(RhsAt(r, RhsLen(r) - 1))
  {
  }

  lemma LinebreakLosesWeight(s: int)
    requires IsState(s) && LinebreakStart(s)
    ensures STACK_WEIGHT + Weight(SYM_LINEBREAK) < Weight(YyStos(s))
  {
  }

  lemma TopSymbolAccessesTop(stack: seq<Frame>)
    requires IsPath(stack)
    ensures IsState(Top(stack)) && YyStos(Top(stack)) == TopSymbol(stack)
  {
    hide Before, Next, YyStos;
    PathTop(stack);
    if stack == [] {
      SentinelSymbol();
    } else {
      var n := |stack| - 1;
      assert IsEdge(stack, n);
      DerivationRoot(stack[n].tree);
      AccessingSymbol(Top(stack[..n]), Root(stack[n].tree));
    }
  }

  lemma SentinelSymbol()
    ensures YyStos(0) == SYM_EOF
  {
  }

  /** With the lookahead fixed, every reduction makes the measure smaller. */
  lemma ReductionsTerminate(stack: seq<Frame>, a: Symbol)
    requires IsPath(stack) && IsTerminal(a) && IsState(Top(stack)) && Decide(Top(stack), a).Reduce?
    ensures var r := Decide(Top(stack), a).rule;
      && IsRule(r) && RhsLen(r) <= |stack| && IsState(Top(Base(stack, r)))
      && Measure(ReduceStack(stack, r)) < Measure(stack)
  {
    hide *;
    ReduceFindsRhs(stack, a);
    TablesReduce(Top(stack), a);
    ReductionLosesWeight(stack, Decide(Top(stack), a).rule);
  }

  lemma ReductionLosesWeight(stack: seq<Frame>, r: int)
    requires IsPath(stack) && IsRule(r) && r != 1 && RhsLen(r) <= |stack| && IsState(Top(Base(stack, r)))
    requires IsState(Top(stack)) && HasItem(Top(stack), r, RhsLen(r))
    ensures Measure(ReduceStack(stack, r)) < Measure(stack)
  {
    hide Before, After, HasItem, Next, Goto, RhsAt, RhsLen, Lhs, IsEdge, IsPath, YyStos, Weight;
    MeasureOfReduced(stack, r);
    if RhsLen(r) == 0 {
      EmptyRule(r, Top(stack));
      LinebreakLosesWeight(Top(stack));
      TopSymbolAccessesTop(stack);
    } else {
      LastOfRhsOnTop(stack, r);
      RuleLosesWeight(r);
    }
  }

  lemma LastOfRhsOnTop(stack: seq<Frame>, r: int)
    requires IsPath(stack) && IsRule(r) && 0 < RhsLen(r)
    requires IsState(Top(stack)) && HasItem(Top(stack), r, RhsLen(r))
    ensures TopSymbol(stack) == RhsAt(r, RhsLen(r) - 1)
  {
    hide Before, After, HasItem, RhsAt, RhsLen, IsPath;
    ItemOnStack(stack, r, RhsLen(r));
    assert Root(stack[|stack| - RhsLen(r) + (RhsLen(r) - 1)].tree) == RhsAt(r, RhsLen(r) - 1);
  }

  lemma MeasureOfReduced(stack: seq<Frame>, r: int)
    requires IsRule(r) && RhsLen(r) <= |stack| && IsState(Top(Base(stack, r)))
    ensures Measure(ReduceStack(stack, r)) == STACK_WEIGHT * (|stack| - RhsLen(r) + 1) + Weight(Lhs(r))
  {
    hide Goto, RhsLen, Lhs, Weight;
  }

  lemma EmptyRule(r: int, s: int)
    requires IsRule(r) && RhsLen(r) == 0 && HasItem(s, r, 0)
    ensures Lhs(r) == SYM_LINEBREAK && LinebreakStart(s)
  {
  }

  // ---- The run ---------------------------------------------------------------------------

  datatype Outcome = Accept(tree: Tree) | Reject

  /** Runs the machine from a stack over the rest of the input, then EOF. */
  function Parse(stack: seq<Frame>, input: seq<Token>): Outcome
    requires IsPath(stack) && AreTokens(input)
    decreases |input|, Measure(stack)
  {
    PathTop(stack);
    match Decide(Top(stack), Lookahead(input))
    case Error => Reject
    case Reduce(r) =>
      ReduceKeepsPath(stack, Lookahead(input));
      ReductionsTerminate(stack, Lookahead(input));
      Parse(ReduceStack(stack, r), input)
    case Shift(s) =>
      if input == [] then
        ShiftOfEof(stack);
        Accept(stack[0].tree)
      else
        ShiftKeepsPath(stack, input[0]);
        Parse(stack + [Frame(s, Leaf(input[0]))], input[1..])
  }

  // ---- One step of the run ---------------------------------------------------------------

  lemma ParseReduce(stack: seq<Frame>, input: seq<Token>)
    requires IsPath(stack) && AreTokens(input) && IsTerminal(Lookahead(input)) && IsState(Top(stack))
    requires Decide(Top(stack), Lookahead(input)).Reduce?
    ensures var r := Decide(Top(stack), Lookahead(input)).rule;
      && IsRule(r) && RhsLen(r) <= |stack| && IsState(Top(Base(stack, r))) && IsPath(ReduceStack(stack, r))
      && YieldAll(Trees(ReduceStack(stack, r))) == YieldAll(Trees(stack))
      && Parse(stack, input) == Parse(ReduceStack(stack, r), input)
      && Measure(ReduceStack(stack, r)) < Measure(stack)
  {
    hide Decide, IsPath, ReduceStack, Measure, IsRule, RhsLen, Goto, Base;
    ReduceKeepsPath(stack, Lookahead(input));
    ReductionsTerminate(stack, Lookahead(input));
  }

  lemma ParseShift(stack: seq<Frame>, input: seq<Token>)
    requires IsPath(stack) && AreTokens(input) && input != [] && IsState(Top(stack))
    requires Decide(Top(stack), input[0].kind).Shift?
    ensures var pushed := stack + [Frame(Decide(Top(stack), input[0].kind).state, Leaf(input[0]))];
      && IsPath(pushed) && AreTokens(input[1..])
      && YieldAll(Trees(pushed)) == YieldAll(Trees(stack)) + [input[0]]
      && Parse(stack, input) == Parse(pushed, input[1..])
  {
    hide Decide, IsPath, ReduceStack, Measure;
    ShiftKeepsPath(stack, input[0]);
  }

  lemma ParseReject(stack: seq<Frame>, input: seq<Token>)
    requires IsPath(stack) && AreTokens(input) && IsState(Top(stack)) && Decide(Top(stack), Lookahead(input)).Error?
    ensures Parse(stack, input) == Reject
  {
    hide Decide, IsPath, ReduceStack, Measure;
  }

  lemma ParseAccept(stack: seq<Frame>)
    requires IsPath(stack) && IsState(Top(stack)) && Decide(Top(stack), SYM_EOF).Shift?
    ensures |stack| == 1 && Parse(stack, []) == Accept(stack[0].tree)
  {
    hide Decide, IsPath, ReduceStack, Measure;
    ShiftOfEof(stack);
  }
}
