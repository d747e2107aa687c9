// The lists that a run executes on its way: the top-level AND-OR lists of the program, each when
// the complete commands it ends are reduced.

module CompleteCommands {
  import opened Grammar
  import opened ParseTables
  import opened Automaton
  import opened Derivations
  import opened LrMachine

  /** The AND-OR lists of a sequence of complete commands, in source order. */
  ghost function Completed(t: Tree): seq<Tree>
    decreases t
  {
    if t.Branch? && t.rule == 4 && |t.kids| == 3 then Completed(t.kids[0]) + [t.kids[2]]
    else if t.Branch? && t.rule == 5 && |t.kids| == 1 then [t.kids[0]]
    else []
  }

  /** The top-level AND-OR lists of a program. */
  ghost function TopLevel(t: Tree): seq<Tree> {
    if t.Branch? && t.rule == 2 && |t.kids| == 3 then Completed(t.kids[1]) else []
  }

  /** The lists that are complete when the stack is this one. */
  ghost function CompletedOn(stack: seq<Frame>): seq<Tree> {
    if |stack| == 1 then TopLevel(stack[0].tree)
    else if |stack| >= 2 then Completed(stack[1].tree)
    else []
  }

  lemma ShiftCompletes(stack: seq<Frame>, f: Frame)
    requires IsPath(stack) && IsPath(stack + [f]) && f.tree.Leaf?
    ensures CompletedOn(stack + [f]) == CompletedOn(stack)
  {
    hide IsDerivation;
    if |stack| == 1 {
      assert IsEdge(stack + [f], 1) && IsEdge(stack + [f], 0);
      assert (stack + [f])[..1] == stack && stack[..0] == [];
      BelowIsNoProgram(stack[0], f.tree);
    }
  }

  /** Nothing is pushed on a finished program. */
  lemma BelowIsNoProgram(f: Frame, t: Tree)
    requires IsPath([f]) && Before(f.state, Root(t)) && Root(t) != SYM_EOF
    ensures TopLevel(f.tree) == []
  {
    assert IsEdge([f], 0);
    assert [f][..0] == [];
    if Root(f.tree) == SYM_PROGRAM {
      ProgramState(Root(t));
      assert false;
    }
  }

  lemma ProgramState(x: Symbol)
    requires x != SYM_EOF
    ensures !Before(Next(0, SYM_PROGRAM), x)
  {
  }

  /** Complete commands come directly on top of the first linebreak, a program at the very bottom. */
  lemma PlaceOfCommands(s: int, x: Symbol)
    requires Before(s, x)
    ensures x == SYM_COMPLETE_COMMANDS ==> s == 4
    ensures x == SYM_PROGRAM ==> s == 0
    ensures s == 0 && IsNonterminal(x) ==> x == SYM_PROGRAM || x == SYM_NEWLINE_LIST || x == SYM_LINEBREAK
  {
  }

  lemma RulesOfCommands(r: int)
    requires IsRule(r)
    ensures Lhs(r) == SYM_COMPLETE_COMMANDS <==> r == 4 || r == 5
    ensures Lhs(r) == SYM_PROGRAM <==> r == 2 || r == 3
    ensures RhsLen(2) == 3 && RhsAt(2, 1) == SYM_COMPLETE_COMMANDS && RhsLen(3) == 1
    ensures RhsLen(4) == 3 && RhsAt(4, 0) == SYM_COMPLETE_COMMANDS && RhsLen(5) == 1 && RhsAt(5, 0) == SYM_AND_OR
    ensures r != 4 && 0 < RhsLen(r) ==> RhsAt(r, 0) != SYM_COMPLETE_COMMANDS
    ensures r != 1 && 0 < RhsLen(r) ==> RhsAt(r, 0) != SYM_PROGRAM
    ensures Lhs(r) == SYM_NEWLINE_LIST && 1 < RhsLen(r) ==> RhsAt(r, 1) == SYM_NEWLINE
    ensures Lhs(r) == SYM_LINEBREAK ==> RhsLen(r) <= 1
    ensures Lhs(r) == SYM_NEWLINE_LIST || Lhs(r) == SYM_LINEBREAK ==> RhsLen(r) <= 2
  {
  }

  lemma NotCompleted(t: Tree)
    requires IsDerivation(t)
    ensures Root(t) != SYM_COMPLETE_COMMANDS ==> Completed(t) == []
    ensures Root(t) != SYM_PROGRAM ==> TopLevel(t) == []
  {
  }

  /** What a reduction by `r` completes: the last symbol of complete commands. */
  ghost function Completes(stack: seq<Frame>, r: int): seq<Tree>
    requires IsRule(r) && RhsLen(r) <= |stack|
  {
    if Lhs(r) == SYM_COMPLETE_COMMANDS && 0 < RhsLen(r) then [stack[|stack| - 1].tree] else []
  }

  lemma CompletedBranch(r: int, kids: seq<Tree>)
    requires IsDerivation(Branch(r, kids))
    ensures r == 4 ==> |kids| == 3 && Completed(Branch(r, kids)) == Completed(kids[0]) + [kids[2]]
    ensures r == 5 ==> |kids| == 1 && Completed(Branch(r, kids)) == [kids[0]]
    ensures r == 2 ==> |kids| == 3 && TopLevel(Branch(r, kids)) == Completed(kids[1])
  {
  }

  /** Every reduction leaves the completed lists as they were, but for the one it completes. */
  lemma ReduceCompletes(stack: seq<Frame>, a: Symbol)
    requires IsPath(stack) && IsTerminal(a) && IsState(Top(stack)) && Decide(Top(stack), a).Reduce?
    ensures var r := Decide(Top(stack), a).rule;
      && IsRule(r) && RhsLen(r) <= |stack| && IsState(Top(Base(stack, r)))
      && CompletedOn(ReduceStack(stack, r)) == CompletedOn(stack) + Completes(stack, r)
  {
    hide Decide, Before, Next, Goto, RhsAt, RhsLen, Lhs, IsDerivation, IsPath, Completed, TopLevel, Root, IsNonterminal;
    ReduceFindsRhs(stack, a);
    var r := Decide(Top(stack), a).rule;
    CompletesOn(stack, r);
  }

  lemma CompletesOn(stack: seq<Frame>, r: int)
    requires IsPath(stack) && IsRule(r) && r != 1 && RhsLen(r) <= |stack| && IsState(Top(Base(stack, r)))
    requires IsPath(Base(stack, r))
    requires Before(Top(Base(stack, r)), Lhs(r)) && IsDerivation(Reduced(stack, r))
    ensures CompletedOn(ReduceStack(stack, r)) == CompletedOn(stack) + Completes(stack, r)
  {
    hide Decide, Before, Next, Goto, RhsAt, RhsLen, Lhs, IsDerivation, IsPath, Completed, TopLevel, Root, IsNonterminal,
      IsEdge;
    var base := Base(stack, r);
    var t := Reduced(stack, r);
    var m := |base|;
    RulesOfCommands(r);
    PlaceOfCommands(Top(base), Lhs(r));
    LhsIsNonterminal(r);
    CompletedBranch(r, t.kids);
    PathTop(base);
    RootIsLhs(r, t.kids);
    NotCompleted(t);
    if m == 0 {
      AtBottom(stack, r);
    } else if m == 1 {
      AboveLinebreak(stack, r);
    } else {
      CommandsAreSecond(base, r);
    }
  }

  lemma LhsIsNonterminal(r: int)
    requires IsRule(r)
    ensures IsNonterminal(Lhs(r))
  {
  }

  lemma RootIsLhs(r: int, kids: seq<Tree>)
    requires IsRule(r)
    ensures Root(Branch(r, kids)) == Lhs(r)
  {
  }

  lemma KidRoot(stack: seq<Frame>, r: int, i: nat)
    requires IsRule(r) && RhsLen(r) <= |stack| && i < RhsLen(r) && IsDerivation(Reduced(stack, r))
    ensures Root(stack[|stack| - RhsLen(r) + i].tree) == RhsAt(r, i)
    ensures IsDerivation(stack[|stack| - RhsLen(r) + i].tree)
  {
    hide RhsAt, RhsLen, Lhs;
    var t := Reduced(stack, r);
    assert t.kids[i] == stack[|stack| - RhsLen(r) + i].tree;
    assert Root(t.kids[i]) == RhsAt(r, 0 + i);
  }

  lemma CommandsAreSecond(base: seq<Frame>, r: int)
    requires IsPath(base) && IsRule(r) && |base| >= 2 && Before(Top(base), Lhs(r))
    ensures Lhs(r) != SYM_COMPLETE_COMMANDS && Lhs(r) != SYM_PROGRAM
  {
    hide Decide, Next, RhsAt, RhsLen, Lhs, IsDerivation, Root;
    PathTop(base);
    PlaceOfCommands(Top(base), Lhs(r));
    if Lhs(r) == SYM_COMPLETE_COMMANDS {
      LinebreakItem();
      ItemOnStack(base, 2, 1);
      PathPrefix(base, |base| - 1);
      PathTop(base[..|base| - 1]);
      LinebreakStartsAtBottom(Top(base[..|base| - 1]));
    }
  }

  lemma LinebreakItem()
    ensures HasItem(4, 2, 1) && RhsLen(2) == 3
  {
  }

  lemma LinebreakStartsAtBottom(s: int)
    requires HasItem(s, 2, 0)
    ensures s == 0
  {
  }

  lemma AtBottom(stack: seq<Frame>, r: int)
    requires IsPath(stack) && IsRule(r) && r != 1 && RhsLen(r) == |stack| && IsState(Top(Base(stack, r)))
    requires Before(Top(Base(stack, r)), Lhs(r)) && IsDerivation(Reduced(stack, r))
    ensures CompletedOn(ReduceStack(stack, r)) == CompletedOn(stack) + Completes(stack, r)
  {
    hide Decide, Before, Next, Goto, RhsAt, RhsLen, Lhs, IsDerivation, IsPath, Completed, TopLevel, Root, IsNonterminal,
      IsEdge;
    RulesOfCommands(r);
    PlaceOfCommands(Top(Base(stack, r)), Lhs(r));
    LhsIsNonterminal(r);
    var t := Reduced(stack, r);
    RootIsLhs(r, t.kids);
    CompletedBranch(r, t.kids);
    NotCompleted(t);
    if |stack| == 1 {
      KidRoot(stack, r, 0);
      NotCompleted(stack[0].tree);
      ProgramOfLinebreak(t);
    } else if |stack| >= 2 {
      KidRoot(stack, r, 1);
      NotCompleted(stack[1].tree);
    }
  }

  lemma ProgramOfLinebreak(t: Tree)
    requires t.Branch? && |t.kids| == 1
    ensures TopLevel(t) == []
  {
  }

  lemma AboveLinebreak(stack: seq<Frame>, r: int)
    requires IsPath(stack) && IsRule(r) && r != 1 && RhsLen(r) + 1 == |stack| && IsState(Top(Base(stack, r)))
    requires Before(Top(Base(stack, r)), Lhs(r)) && IsDerivation(Reduced(stack, r)) && IsPath(Base(stack, r))
    ensures CompletedOn(ReduceStack(stack, r)) == CompletedOn(stack) + Completes(stack, r)
  {
    hide Decide, Before, Next, Goto, RhsAt, RhsLen, Lhs, IsDerivation, IsPath, Completed, TopLevel, Root, IsNonterminal,
      IsEdge;
    RulesOfCommands(r);
    PlaceOfCommands(Top(Base(stack, r)), Lhs(r));
    LhsIsNonterminal(r);
    var t := Reduced(stack, r);
    RootIsLhs(r, t.kids);
    CompletedBranch(r, t.kids);
    NotCompleted(t);
    if |stack| == 1 {
      assert Base(stack, r) == [stack[0]] == stack;
      NonterminalIsNotEof(r);
      BelowIsNoProgram(stack[0], t);
    } else {
      KidRoot(stack, r, 0);
      NotCompleted(stack[1].tree);
    }
  }

  lemma NonterminalIsNotEof(r: int)
    requires IsRule(r)
    ensures Lhs(r) != SYM_EOF
  {
  }
}
