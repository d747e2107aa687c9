// Short inputs on which the shell does otherwise than intended, each with its derivation.

module Samples {
  import opened Grammar
  import opened Derivations
  import opened NodeArena
  import opened Syntax
  import opened Context
  import opened AndOr
  import opened CompleteCommands
  import opened Execution

  // ---- Building derivations --------------------------------------------------------------

  lemma Applies(r: int, kids: seq<Tree>)
    requires IsRule(r) && r != 1 && |kids| == RhsLen(r)
    requires forall i :: 0 <= i < |kids| ==> IsDerivation(kids[i]) && Root(kids[i]) == RhsAt(r, i)
    ensures IsDerivation(Branch(r, kids)) && Root(Branch(r, kids)) == Lhs(r)
  {
  }

  lemma YieldOfTwo(a: Tree, b: Tree)
    ensures YieldAll([a, b]) == Yield(a) + Yield(b)
  {
    YieldAllConcat([a], [b]);
    YieldAllSingle(a);
    YieldAllSingle(b);
    assert [a, b] == [a] + [b];
  }

  lemma YieldOfThree(a: Tree, b: Tree, c: Tree)
    ensures YieldAll([a, b, c]) == Yield(a) + Yield(b) + Yield(c)
  {
    YieldOfTwo(a, b);
    YieldAllConcat([a, b], [c]);
    YieldAllSingle(c);
    assert [a, b, c] == [a, b] + [c];
  }

  lemma YieldOfFour(a: Tree, b: Tree, c: Tree, d: Tree)
    ensures YieldAll([a, b, c, d]) == Yield(a) + Yield(b) + Yield(c) + Yield(d)
  {
    YieldOfThree(a, b, c);
    YieldAllConcat([a, b, c], [d]);
    YieldAllSingle(d);
    assert [a, b, c, d] == [a, b, c] + [d];
  }

  function Tok(kind: Symbol, i: nat): Token {
    Token(kind, i, i, 0)
  }

  const NOTHING := Branch(45, [])

  lemma NothingDerives()
    ensures IsDerivation(NOTHING) && Root(NOTHING) == SYM_LINEBREAK && Yield(NOTHING) == []
  {
  }

  /** A newline, as a list of newlines. */
  function NewlineList(i: nat): Tree {
    Branch(42, [Leaf(Tok(SYM_NEWLINE, i))])
  }

  lemma NewlineDerives(i: nat)
    ensures IsDerivation(NewlineList(i)) && Root(NewlineList(i)) == SYM_NEWLINE_LIST
    ensures Yield(NewlineList(i)) == [Tok(SYM_NEWLINE, i)]
  {
    var leaf := Leaf(Tok(SYM_NEWLINE, i));
    Applies(42, [leaf]);
    YieldAllSingle(leaf);
  }

  /** A pipeline of the simple command. */
  function Piped(simple: Tree): Tree {
    Branch(9, [Branch(11, [simple])])
  }

  lemma PipedDerives(simple: Tree)
    requires IsDerivation(simple) && Root(simple) == SYM_SIMPLE_COMMAND
    ensures IsDerivation(Piped(simple)) && Root(Piped(simple)) == SYM_PIPELINE && Yield(Piped(simple)) == Yield(simple)
  {
    Applies(11, [simple]);
    Applies(9, [Branch(11, [simple])]);
    YieldAllSingle(simple);
    YieldAllSingle(Branch(11, [simple]));
  }

  /** A name and nothing else. */
  function Name(i: nat): Tree {
    Branch(24, [Leaf(Tok(SYM_WORD, i))])
  }

  lemma NameDerives(i: nat)
    ensures IsDerivation(Name(i)) && Root(Name(i)) == SYM_CMD_NAME && Yield(Name(i)) == [Tok(SYM_WORD, i)]
  {
    var leaf := Leaf(Tok(SYM_WORD, i));
    Applies(24, [leaf]);
    YieldAllSingle(leaf);
  }

  /** The pipeline of one word. */
  function OneWord(i: nat): Tree {
    Piped(Branch(23, [Name(i)]))
  }

  lemma OneWordDerives(i: nat)
    ensures IsDerivation(OneWord(i)) && Root(OneWord(i)) == SYM_PIPELINE && Yield(OneWord(i)) == [Tok(SYM_WORD, i)]
  {
    hide IsDerivation, Yield, Lhs, RhsAt;
    NameDerives(i);
    SimpleRules();
    Applies(23, [Name(i)]);
    YieldOfBranch(23, [Name(i)]);
    YieldAllSingle(Name(i));
    PipedDerives(Branch(23, [Name(i)]));
  }

  lemma SimpleRules()
    ensures RhsLen(23) == 1 && RhsAt(23, 0) == SYM_CMD_NAME && Lhs(23) == SYM_SIMPLE_COMMAND
  {
  }

  lemma YieldOfBranch(r: int, kids: seq<Tree>)
    ensures Yield(Branch(r, kids)) == YieldAll(kids)
  {
  }

  /** The pipeline of two words, a name and an argument. */
  function TwoWords(i: nat): Tree {
    Piped(Branch(22, [Name(i), Branch(30, [Leaf(Tok(SYM_WORD, i + 1))])]))
  }

  lemma TwoWordsDerive(i: nat)
    ensures IsDerivation(TwoWords(i)) && Root(TwoWords(i)) == SYM_PIPELINE
    ensures Yield(TwoWords(i)) == [Tok(SYM_WORD, i), Tok(SYM_WORD, i + 1)]
  {
    var leaf := Leaf(Tok(SYM_WORD, i + 1));
    var suffix := Branch(30, [leaf]);
    NameDerives(i);
    Applies(30, [leaf]);
    Applies(22, [Name(i), suffix]);
    YieldAllSingle(leaf);
    YieldOfTwo(Name(i), suffix);
    PipedDerives(Branch(22, [Name(i), suffix]));
  }

  /** An AND-OR list of one pipeline. */
  function Alone(pipeline: Tree): Tree {
    Branch(6, [pipeline])
  }

  lemma AloneDerives(pipeline: Tree)
    requires IsDerivation(pipeline) && Root(pipeline) == SYM_PIPELINE
    ensures IsDerivation(Alone(pipeline)) && Root(Alone(pipeline)) == SYM_AND_OR
    ensures Yield(Alone(pipeline)) == Yield(pipeline)
  {
    Applies(6, [pipeline]);
    YieldAllSingle(pipeline);
  }

  /** The AND of two pipelines. */
  function AndOf(p: Tree, i: nat, q: Tree): Tree {
    Branch(7, [Alone(p), Leaf(Tok(SYM_AND_IF, i)), NOTHING, q])
  }

  lemma AndDerives(p: Tree, i: nat, q: Tree)
    requires IsDerivation(p) && Root(p) == SYM_PIPELINE && IsDerivation(q) && Root(q) == SYM_PIPELINE
    ensures IsDerivation(AndOf(p, i, q)) && Root(AndOf(p, i, q)) == SYM_AND_OR
    ensures Yield(AndOf(p, i, q)) == Yield(p) + [Tok(SYM_AND_IF, i)] + Yield(q)
  {
    var leaf := Leaf(Tok(SYM_AND_IF, i));
    AloneDerives(p);
    NothingDerives();
    Applies(7, [Alone(p), leaf, NOTHING, q]);
    YieldOfFour(Alone(p), leaf, NOTHING, q);
    assert Yield(leaf) == [Tok(SYM_AND_IF, i)];
  }

  /** The list of the first line. */
  function FirstLine(list: Tree): Tree {
    Branch(5, [list])
  }

  /** One more line behind the complete commands. */
  function NextLine(commands: Tree, i: nat, list: Tree): Tree {
    Branch(4, [commands, NewlineList(i), list])
  }

  /** The program of the lines, the last one ended by a newline. */
  function Program(commands: Tree, i: nat): Tree {
    Branch(2, [NOTHING, commands, Branch(44, [NewlineList(i)])])
  }

  lemma FirstLineDerives(list: Tree)
    requires IsDerivation(list) && Root(list) == SYM_AND_OR
    ensures IsDerivation(FirstLine(list)) && Root(FirstLine(list)) == SYM_COMPLETE_COMMANDS
    ensures Yield(FirstLine(list)) == Yield(list) && Completed(FirstLine(list)) == [list]
  {
    Applies(5, [list]);
    YieldAllSingle(list);
  }

  lemma NextLineDerives(commands: Tree, i: nat, list: Tree)
    requires IsDerivation(commands) && Root(commands) == SYM_COMPLETE_COMMANDS
    requires IsDerivation(list) && Root(list) == SYM_AND_OR
    ensures IsDerivation(NextLine(commands, i, list)) && Root(NextLine(commands, i, list)) == SYM_COMPLETE_COMMANDS
    ensures Yield(NextLine(commands, i, list)) == Yield(commands) + [Tok(SYM_NEWLINE, i)] + Yield(list)
    ensures Completed(NextLine(commands, i, list)) == Completed(commands) + [list]
  {
    hide Yield, NewlineList, RhsAt, Lhs;
    ListRules();
    NewlineDerives(i);
    Applies(4, [commands, NewlineList(i), list]);
    YieldOfBranch(4, [commands, NewlineList(i), list]);
    YieldOfThree(commands, NewlineList(i), list);
  }

  lemma ListRules()
    ensures RhsLen(4) == 3 && RhsAt(4, 0) == SYM_COMPLETE_COMMANDS && RhsAt(4, 1) == SYM_NEWLINE_LIST
    ensures RhsAt(4, 2) == SYM_AND_OR && Lhs(4) == SYM_COMPLETE_COMMANDS
  {
  }

  lemma ProgramDerives(commands: Tree, i: nat)
    requires IsDerivation(commands) && Root(commands) == SYM_COMPLETE_COMMANDS
    ensures Derives(Program(commands, i), Yield(commands) + [Tok(SYM_NEWLINE, i)])
    ensures TopLevel(Program(commands, i)) == Completed(commands)
  {
    hide Yield;
    var last := Branch(44, [NewlineList(i)]);
    NothingDerives();
    NewlineDerives(i);
    Applies(44, [NewlineList(i)]);
    YieldOfBranch(44, [NewlineList(i)]);
    YieldAllSingle(NewlineList(i));
    Applies(2, [NOTHING, commands, last]);
    YieldOfBranch(2, [NOTHING, commands, last]);
    YieldOfThree(NOTHING, commands, last);
  }

  /** A program of one line. */
  function OneLine(list: Tree, i: nat): Tree {
    Program(FirstLine(list), i)
  }

  lemma OneLineDerives(list: Tree, i: nat)
    requires IsDerivation(list) && Root(list) == SYM_AND_OR
    ensures Derives(OneLine(list, i), Yield(list) + [Tok(SYM_NEWLINE, i)])
    ensures TopLevel(OneLine(list, i)) == [list]
  {
    FirstLineDerives(list);
    ProgramDerives(FirstLine(list), i);
  }

  // ---- `exit x`, newline, `a && b` -------------------------------------------------------

  const EXIT_LIST := Alone(TwoWords(1))
  const AND_LIST := AndOf(OneWord(4), 5, OneWord(6))
  const EXIT_PROGRAM := Program(NextLine(FirstLine(EXIT_LIST), 3, AND_LIST), 7)

  lemma ExitLists()
    ensures IsDerivation(EXIT_LIST) && Root(EXIT_LIST) == SYM_AND_OR
    ensures Yield(EXIT_LIST) == [Tok(SYM_WORD, 1), Tok(SYM_WORD, 2)]
    ensures IsDerivation(AND_LIST) && Root(AND_LIST) == SYM_AND_OR
    ensures Yield(AND_LIST) == [Tok(SYM_WORD, 4), Tok(SYM_AND_IF, 5), Tok(SYM_WORD, 6)]
  {
    hide IsDerivation, Yield, TwoWords, OneWord;
    TwoWordsDerive(1);
    AloneDerives(TwoWords(1));
    OneWordDerives(4);
    OneWordDerives(6);
    AndDerives(OneWord(4), 5, OneWord(6));
  }

  lemma ExitDerives()
    ensures Derives(EXIT_PROGRAM, [Tok(SYM_WORD, 1), Tok(SYM_WORD, 2), Tok(SYM_NEWLINE, 3),
                                   Tok(SYM_WORD, 4), Tok(SYM_AND_IF, 5), Tok(SYM_WORD, 6), Tok(SYM_NEWLINE, 7)])
    ensures TopLevel(EXIT_PROGRAM) == [EXIT_LIST, AND_LIST]
  {
    hide Yield, IsDerivation, FirstLine, NextLine, Completed, TopLevel, EXIT_LIST, AND_LIST;
    ExitLists();
    FirstLineDerives(EXIT_LIST);
    NextLineDerives(FirstLine(EXIT_LIST), 3, AND_LIST);
    ProgramDerives(NextLine(FirstLine(EXIT_LIST), 3, AND_LIST), 7);
  }

  /**
   * `exit x`, newline, `a && b`: however the program is run, if `exit` leaves the shell to exit
   * `a` is still started, where nothing is to be run any more.
   */
  lemma {:induction false} RunBehindExit(ex: seq<Executed>, outcomes: nat -> nat -> Status)
    requires AreExecuted(ex) && TreesOf(ex) == TopLevel(EXIT_PROGRAM)
    ensures |ex| == 2 && |ex[0].ids| == 1 && |ex[1].ids| == 2
    ensures outcomes(0)(ex[0].ids[0]) == Status(2, true) ==>
              && RunAll(ex, outcomes, Status(0, false)).trace == [ex[0].ids[0], ex[1].ids[0]]
              && RunUntilExit(ex, outcomes, Status(0, false)).trace == [ex[0].ids[0]]
  {
    hide IsDerivation, Meaning, EXIT_PROGRAM;
    ExitDerives();
    ExitLists();
    assert ex[0].tree == TreesOf(ex)[0] && ex[1].tree == TreesOf(ex)[1];
    AndOrMeaning(EXIT_LIST);
    AndOrMeaning(AND_LIST);
    AndOrMeaning(Alone(OneWord(4)));
    var before, first := Status(0, false), ex[..1];
    assert first[..0] == [] && ex[..|ex| - 1] == first;
    assert RunAll([], outcomes, before) == Run([], before) == RunUntilExit([], outcomes, before);
    assert RunAll(first, outcomes, before) == Prepend([], RunList(ex[0], outcomes(0), before));
    assert RunUntilExit(first, outcomes, before) == Prepend([], Evaluate(ex[0].tree, ex[0].ids, outcomes(0)));
  }

  // ---- `(false && a`, newline, `b)` ------------------------------------------------------

  const FALSE_AND := AndOf(OneWord(2), 3, OneWord(4))
  const B_ALONE := Alone(OneWord(6))
  const SKIPPING := Branch(15, [NOTHING, Branch(17, [Branch(18, [FALSE_AND]), NewlineList(5), B_ALONE])])
  const SKIPPING_PROGRAM := OneLine(Alone(Parenthesised(SKIPPING, 1, 7)), 8)

  lemma SkippedLists()
    ensures IsDerivation(FALSE_AND) && Root(FALSE_AND) == SYM_AND_OR && IsDerivation(B_ALONE)
    ensures Root(B_ALONE) == SYM_AND_OR
    ensures Yield(FALSE_AND) == [Tok(SYM_WORD, 2), Tok(SYM_AND_IF, 3), Tok(SYM_WORD, 4)]
    ensures Yield(B_ALONE) == [Tok(SYM_WORD, 6)]
  {
    hide IsDerivation, Yield, OneWord;
    OneWordDerives(2);
    OneWordDerives(4);
    AndDerives(OneWord(2), 3, OneWord(4));
    OneWordDerives(6);
    AloneDerives(OneWord(6));
  }

  lemma CompoundRules()
    ensures RhsLen(18) == 1 && RhsAt(18, 0) == SYM_AND_OR && Lhs(18) == SYM_TERM == Lhs(17)
    ensures RhsLen(17) == 3 && RhsAt(17, 0) == SYM_TERM && RhsAt(17, 1) == SYM_NEWLINE_LIST
    ensures RhsAt(17, 2) == SYM_AND_OR
    ensures RhsLen(15) == 2 && RhsAt(15, 0) == SYM_LINEBREAK && RhsAt(15, 1) == SYM_TERM && Lhs(15) == SYM_COMPOUND_LIST
  {
  }

  lemma SkippingDerives()
    ensures IsDerivation(SKIPPING) && Root(SKIPPING) == SYM_COMPOUND_LIST
    ensures Yield(SKIPPING) == [Tok(SYM_WORD, 2), Tok(SYM_AND_IF, 3), Tok(SYM_WORD, 4), Tok(SYM_NEWLINE, 5),
      Tok(SYM_WORD, 6)]
  {
    hide IsDerivation, Yield, FALSE_AND, B_ALONE, NewlineList, RhsAt, Lhs;
    SkippedLists();
    CompoundRules();
    NewlineDerives(5);
    NothingDerives();
    var first := Branch(18, [FALSE_AND]);
    var term := Branch(17, [first, NewlineList(5), B_ALONE]);
    Applies(18, [FALSE_AND]);
    YieldOfBranch(18, [FALSE_AND]);
    YieldAllSingle(FALSE_AND);
    Applies(17, [first, NewlineList(5), B_ALONE]);
    YieldOfBranch(17, [first, NewlineList(5), B_ALONE]);
    YieldOfThree(first, NewlineList(5), B_ALONE);
    Applies(15, [NOTHING, term]);
    YieldOfBranch(15, [NOTHING, term]);
    YieldOfTwo(NOTHING, term);
  }

  lemma SubshellRules()
    ensures RhsLen(14) == 3 && RhsAt(14, 0) == SYM_OPAR && RhsAt(14, 1) == SYM_COMPOUND_LIST && RhsAt(14, 2) == SYM_CPAR
    ensures Lhs(14) == SYM_SUBSHELL && RhsLen(12) == 1 && RhsAt(12, 0) == SYM_SUBSHELL && Lhs(12) == SYM_COMMAND
    ensures RhsLen(9) == 1 && RhsAt(9, 0) == SYM_COMMAND && Lhs(9) == SYM_PIPELINE
  {
  }

  /** A pipeline of the list in parentheses. */
  function Parenthesised(list: Tree, i: nat, j: nat): Tree {
    Branch(9, [Branch(12, [Branch(14, [Leaf(Tok(SYM_OPAR, i)), list, Leaf(Tok(SYM_CPAR, j))])])])
  }

  lemma ParenthesisedDerives(list: Tree, i: nat, j: nat)
    requires IsDerivation(list) && Root(list) == SYM_COMPOUND_LIST
    ensures IsDerivation(Parenthesised(list, i, j)) && Root(Parenthesised(list, i, j)) == SYM_PIPELINE
    ensures Yield(Parenthesised(list, i, j)) == [Tok(SYM_OPAR, i)] + Yield(list) + [Tok(SYM_CPAR, j)]
  {
    hide RhsAt, Lhs;
    SubshellRules();
    var open, close := Leaf(Tok(SYM_OPAR, i)), Leaf(Tok(SYM_CPAR, j));
    var subshell := Branch(14, [open, list, close]);
    Applies(14, [open, list, close]);
    YieldOfThree(open, list, close);
    Applies(12, [subshell]);
    YieldAllSingle(subshell);
    Applies(9, [Branch(12, [subshell])]);
    YieldAllSingle(Branch(12, [subshell]));
  }

  /**
   * `(false && a`, newline, `b)`: the walk over the list ends behind `false`, where `b` is to be
   * run.
   */
  lemma SkippedCommand()
    ensures Derives(SKIPPING_PROGRAM, [Tok(SYM_OPAR, 1), Tok(SYM_WORD, 2), Tok(SYM_AND_IF, 3), Tok(SYM_WORD, 4),
                                       Tok(SYM_NEWLINE, 5), Tok(SYM_WORD, 6), Tok(SYM_CPAR, 7), Tok(SYM_NEWLINE, 8)])
    ensures IsDerivation(SKIPPING) && Root(SKIPPING) == SYM_COMPOUND_LIST
    ensures ListLinks(SKIPPING) == [Always, OnSuccess, Always]
    ensures Walk(ListLinks(SKIPPING), [1, 2, 3], id => Status(1, false), 0, Status(0, false)).trace == [1]
    ensures InOrder(ListLinks(SKIPPING), [1, 2, 3], id => Status(1, false), 0).trace == [1, 3]
  {
    hide IsDerivation, Meaning, Yield, SKIPPING, Walk, InOrder;
    SkippingDerives();
    ParenthesisedDerives(SKIPPING, 1, 7);
    AloneDerives(Parenthesised(SKIPPING, 1, 7));
    OneLineDerives(Alone(Parenthesised(SKIPPING, 1, 7)), 8);
    SkippingLinks();
    WalkSkips();
  }

  lemma SkippingLinks()
    requires IsDerivation(SKIPPING) && Root(SKIPPING) == SYM_COMPOUND_LIST
    ensures ListLinks(SKIPPING) == [Always, OnSuccess, Always]
  {
    hide IsDerivation, Meaning;
    SkippedLists();
    var term := SKIPPING.kids[1];
    CompoundListMeaning(SKIPPING);
    CompoundListMeaning(term);
    CompoundListMeaning(term.kids[0]);
    CompoundListStarts(SKIPPING);
    AndOrMeaning(FALSE_AND);
    AndOrMeaning(FALSE_AND.kids[0]);
    AndOrMeaning(B_ALONE);
    AndOrLinks(FALSE_AND);
    AndOrLinks(B_ALONE);
    var m := Meaning(FALSE_AND);
    assert Meaning(SKIPPING) == m + Meaning(B_ALONE) && |m| == 2 && m[1].flags == {AndIf};
  }

  lemma WalkSkips()
    ensures var ls := [Always, OnSuccess, Always];
      && Walk(ls, [1, 2, 3], id => Status(1, false), 0, Status(0, false)).trace == [1]
      && InOrder(ls, [1, 2, 3], id => Status(1, false), 0).trace == [1, 3]
  {
    var ls, ids, outcome := [Always, OnSuccess, Always], [1, 2, 3], (id: nat) => Status(1, false);
    assert SkipTo(ls, 2, OnFailure) == 3;
    assert Walk(ls, ids, outcome, 3, outcome(1)).trace == [];
    var first := AndThen(Run([], Status(0, false)), ls[0], ids[0], outcome);
    assert first.trace == [1];
    var second := AndThen(first, ls[1], ids[1], outcome);
    var third := AndThen(second, ls[2], ids[2], outcome);
    assert third.trace == [1, 3];
    assert Fold(ls, ids, outcome, 3, third) == third;
    assert Fold(ls, ids, outcome, 2, second) == third;
  }
}
