// Soundness: whatever the machine accepts is derived from the start symbol.

module LrSoundness {
  import opened Grammar
  import opened Automaton
  import opened Derivations
  import opened LrMachine
  import opened LrParser

  /** From any reachable stack, an accepted tree is a program over the stack's yield and the input. */
  lemma {:induction false} AcceptedFromStack(stack: seq<Frame>, input: seq<Token>)
    requires IsPath(stack) && AreTokens(input)
    ensures Parse(stack, input).Accept? ==> Derives(Parse(stack, input).tree, YieldAll(Trees(stack)) + input)
    decreases |input|, Measure(stack)
  {
    hide Decide, IsEdge, IsPath, Measure;
    PathTop(stack);
    match Decide(Top(stack), Lookahead(input))
    case Error =>
    case Reduce(r) =>
      ReduceKeepsPath(stack, Lookahead(input));
      ReductionsTerminate(stack, Lookahead(input));
      AcceptedFromStack(ReduceStack(stack, r), input);
    case Shift(s) =>
      if input == [] {
        ShiftOfEof(stack);
        FinishedProgram(stack);
      } else {
        ShiftKeepsPath(stack, input[0]);
        var pushed := stack + [Frame(s, Leaf(input[0]))];
        AcceptedFromStack(pushed, input[1..]);
        assert YieldAll(Trees(pushed)) + input[1..] == YieldAll(Trees(stack)) + input;
      }
  }

  lemma FinishedProgram(stack: seq<Frame>)
    requires IsPath(stack) && |stack| == 1 && Root(stack[0].tree) == SYM_PROGRAM
    ensures Derives(stack[0].tree, YieldAll(Trees(stack)) + [])
  {
    assert Trees(stack) == [stack[0].tree];
    YieldAllSingle(stack[0].tree);
    assert IsEdge(stack, 0) && IsDerivation(stack[0].tree);
  }

  /** An accepted input is derived by the accepted tree. */
  lemma Soundness(input: seq<Token>)
    requires AreTokens(input)
    ensures Parse([], input).Accept? ==> Derives(Parse([], input).tree, input)
  {
    hide Parse;
    AcceptedFromStack([], input);
    assert YieldAll(Trees([])) + input == input;
  }
}
