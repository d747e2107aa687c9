// `(cd`, newline, `pwd) | cat`: what the parentheses of a pipeline inherit from it.

module Subshells {
  import opened Grammar
  import opened Derivations
  import opened NodeArena
  import opened Syntax
  import opened Reductions
  import opened Context
  import opened CompleteCommands
  import opened AndOr
  import opened ExecuteList
  import opened Pipelines
  import opened ListWiring
  import opened Samples
  import opened SampleRecords

  const CD_PWD := Branch(15, [NOTHING, Branch(17,
    [Branch(18, [Alone(OneWord(2))]), NewlineList(3), Alone(OneWord(4))])])
  const SUBSHELL := Parenthesised(CD_PWD, 1, 5)
  const INTO_CAT := Alone(Into(SUBSHELL, 6))

  const CD_AND_PWD := [APipeline({}, [Words(2)]), APipeline({}, [Words(4)])]

  lemma ListMeans()
    ensures IsDerivation(CD_PWD) && Root(CD_PWD) == SYM_COMPOUND_LIST && Meaning(CD_PWD) == CD_AND_PWD
    ensures Yield(CD_PWD) == [Tok(SYM_WORD, 2), Tok(SYM_NEWLINE, 3), Tok(SYM_WORD, 4)]
  {
    hide IsDerivation, Yield, Meaning, OneWord, Alone, NewlineList, RhsAt, Lhs, Words;
    var cd, pwd, newline := Alone(OneWord(2)), Alone(OneWord(4)), NewlineList(3);
    var first, term := Branch(18, [cd]), Branch(17, [Branch(18, [cd]), newline, pwd]);
    OneWordMeans(2);
    AloneMeans(OneWord(2));
    OneWordMeans(4);
    AloneMeans(OneWord(4));
    CompoundRules();
    NewlineDerives(3);
    NothingDerives();
    Applies(18, [cd]);
    YieldOfBranch(18, [cd]);
    YieldAllSingle(cd);
    Applies(17, [first, newline, pwd]);
    YieldOfBranch(17, [first, newline, pwd]);
    YieldOfThree(first, newline, pwd);
    Applies(15, [NOTHING, term]);
    YieldOfBranch(15, [NOTHING, term]);
    YieldOfTwo(NOTHING, term);
    CompoundListMeaning(CD_PWD);
    CompoundListMeaning(term);
    CompoundListMeaning(first);
    assert [APipeline({}, [Words(2)])] + [APipeline({}, [Words(4)])] == CD_AND_PWD;
  }

  lemma SubshellMeans()
    ensures IsDerivation(SUBSHELL) && Root(SUBSHELL) == SYM_PIPELINE
    ensures Yield(SUBSHELL) == [Tok(SYM_OPAR, 1), Tok(SYM_WORD, 2), Tok(SYM_NEWLINE, 3), Tok(SYM_WORD, 4),
                                Tok(SYM_CPAR, 5)]
    ensures Meaning(SUBSHELL) == [APipeline({}, [ACommand({InSubshell}, CD_AND_PWD, [])])]
  {
    hide CD_PWD, CD_AND_PWD, Yield;
    ListMeans();
    ParenthesisedDerives(CD_PWD, 1, 5);
    ParenthesesMean(CD_PWD, 1, 5);
  }

  lemma ParenthesesMean(list: Tree, i: nat, j: nat)
    requires IsDerivation(list) && Root(list) == SYM_COMPOUND_LIST
    ensures IsDerivation(Parenthesised(list, i, j))
    ensures Meaning(Parenthesised(list, i, j)) == [APipeline({}, [ACommand({InSubshell}, Meaning(list), [])])]
  {
    ParenthesisedDerives(list, i, j);
    var command := Parenthesised(list, i, j).kids[0];
    MeaningOfBranch(Parenthesised(list, i, j));
    MeaningOfBranch(command);
    MeaningOfBranch(command.kids[0]);
  }

  const INTO_CAT_TOKENS := [Tok(SYM_OPAR, 1), Tok(SYM_WORD, 2), Tok(SYM_NEWLINE, 3), Tok(SYM_WORD, 4),
                            Tok(SYM_CPAR, 5), Tok(SYM_PIPE, 6), Tok(SYM_WORD, 7), Tok(SYM_NEWLINE, 8)]

  lemma IntoCatDerives()
    ensures Derives(OneLine(INTO_CAT, 8), INTO_CAT_TOKENS)
    ensures TopLevel(OneLine(INTO_CAT, 8)) == [INTO_CAT]
    ensures IsDerivation(INTO_CAT)
    ensures Meaning(INTO_CAT) == [APipeline({}, [ACommand({InSubshell}, CD_AND_PWD, []), Words(7)])]
  {
    hide Yield, IsDerivation, Meaning, SUBSHELL, Into, Alone, Words, CD_AND_PWD;
    SubshellMeans();
    var outer := ACommand({InSubshell}, CD_AND_PWD, []);
    IntoMeans(SUBSHELL, 6, [outer]);
    assert [outer] + [Words(7)] == [outer, Words(7)];
    AloneMeans(Into(SUBSHELL, 6));
    OneLineDerives(INTO_CAT, 8);
  }

  /** A pipeline from parentheses around two lists into a command. */
  predicate IsSubshellPair(p: Cell) {
    && p.Cell? && p.data.Pipeline? && AreCommands(p.first)
    && p.first.Cell? && p.first.flags == {InSubshell} && p.first.second.Nil?
    && IsPlain(p.first.rest) && p.first.rest.rest.Nil?
    && IsWord(p.first.first) && IsWord(p.first.first.rest) && p.first.first.rest.rest.Nil?
    && p.first.first.rest.flags == {}
  }

  lemma SubshellRecords(nodes: seq<Node>, p: Cell)
    requires Holds(nodes, p) && Denote(p) == [APipeline({}, [ACommand({InSubshell}, CD_AND_PWD, []), Words(7)])]
    ensures IsSubshellPair(p)
  {
    DenotesOne(nodes, p, APipeline({}, [ACommand({InSubshell}, CD_AND_PWD, []), Words(7)]));
    var c := p.first;
    DenotesTwo(nodes, c, ACommand({InSubshell}, CD_AND_PWD, []), Words(7));
    assert Denote(c.second) == [] == Denote(c.rest.second);
    DenotesTwo(nodes, c.first, APipeline({}, [Words(2)]), APipeline({}, [Words(4)]));
    WordRecords(nodes, c.first, [AWord(2, 0)]);
    WordRecords(nodes, c.first.rest, [AWord(4, 0)]);
    assert AreCommands(c.rest.rest);
    assert AreCommands(c.rest);
  }

  /**
   * What the child of parentheses starts with: its streams are its own, and it is as far in a
   * pipeline as the shell.
   */
  function ChildOf(s: Ran): Ran {
    s.(launches := [], streams := CLOSED, waiting := None)
  }

  lemma BuiltinAlone(p: Cell, w: World, s: Ran)
    requires IsWord(p) && w.attempts(p.first.index) == BUILTIN && !s.exit && s.waiting.None? && s.streams == CLOSED
    ensures RunPipeline(p.first, w, s)
            == s.(launches := s.launches + [Launch(p.first.index, s.piped, CLOSED)], result := 0, piped := false)
  {
    OneIsAll(p.first, w, s);
    NoRedirection(w, false, CLOSED);
  }

  lemma {:induction false} TwoRun(c: Cell, w: World, s: Ran)
    requires IsWord(c) && IsWord(c.rest) && c.rest.rest.Nil? && c.rest.flags == {}
    requires w.attempts(c.first.index) == BUILTIN == w.attempts(c.rest.first.index)
    requires !s.exit && s.waiting.None? && s.streams == CLOSED && s.launches == []
    ensures Runnable(c) && ArePipelines(c)
    ensures RunPipelines(c, w, 0, s).launches
            == [Launch(c.first.index, s.piped, CLOSED), Launch(c.rest.first.index, false, CLOSED)]
  {
    hide RunPipeline;
    assert Runnable(c.rest.rest) && Runnable(c.rest) && ArePipelines(c.rest.rest) && ArePipelines(c.rest);
    BuiltinAlone(c, w, s);
    var r := RunPipeline(c.first, w, s);
    BuiltinAlone(c.rest, w, r);
    assert Indices(c.rest.rest) == [];
    assert Indices(c.rest) == [c.rest.index];
    assert Indices(c) == [c.index, c.rest.index];
    assert ChainLinks(c)[1] == ChainLinks(c.rest)[0] == Always;
    assert Drop(c, 0) == c && Drop(c, 1) == c.rest;
    assert RunPipelines(c, w, 0, s) == RunPipelines(c, w, 1, r);
    assert RunPipelines(c, w, 1, r) == RunPipelines(c, w, 2, RunPipeline(c.rest.first, w, r));
  }

  /**
   * `(cd`, newline, `pwd) | cat`: the child runs `cd` in a child of its own, where it has no effect,
   * and `pwd` itself; outside of a pipeline it would run both itself.
   */
  lemma CdIsLost(nodes: seq<Node>, p: Cell, w: World)
    requires IsDerivation(INTO_CAT) && Holds(nodes, p) && Denote(p) == Meaning(INTO_CAT)
    requires IsSubshellPair(p) ==>
               && w.attempts(p.first.first.first.index) == BUILTIN == w.attempts(p.first.first.rest.first.index)
    ensures Derives(OneLine(INTO_CAT, 8), INTO_CAT_TOKENS) && TopLevel(OneLine(INTO_CAT, 8)) == [INTO_CAT]
    ensures IsSubshellPair(p) && Runnable(p.first.first) && ArePipelines(p.first.first)
    ensures var list := p.first.first; var cd, pwd := list.first.index, list.rest.first.index;
      && RunPipelines(list, w, 0, ChildOf(Piping(p.first, AT_REST))).launches
         == [Launch(cd, true, CLOSED), Launch(pwd, false, CLOSED)]
      && RunPipelines(list, w, 0, ChildOf(AT_REST)).launches
         == [Launch(cd, false, CLOSED), Launch(pwd, false, CLOSED)]
  {
    hide IsDerivation, Meaning, INTO_CAT, RunPipelines, IsWord, OneLine, INTO_CAT_TOKENS, TopLevel, Derives;
    IntoCatDerives();
    SubshellRecords(nodes, p);
    TwoRun(p.first.first, w, ChildOf(Piping(p.first, AT_REST)));
    TwoRun(p.first.first, w, ChildOf(AT_REST));
  }
}
