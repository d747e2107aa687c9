// What the samples' derivations mean, and the records that stand for them in the arena.

module SampleRecords {
  import opened Grammar
  import opened Derivations
  import opened NodeArena
  import opened Syntax
  import opened Reductions
  import opened Context
  import opened Pipelines
  import opened Samples

  // ---- Meanings --------------------------------------------------------------------------

  function Words(i: nat): Ast {
    ACommand({}, [AWord(i, 0)], [])
  }

  lemma NameMeans(i: nat)
    ensures IsDerivation(Name(i)) && Meaning(Name(i)) == [AWord(i, 0)]
  {
    NameDerives(i);
    MeaningOfBranch(Name(i));
  }

  /** The command of one word. */
  function OneName(i: nat): Tree {
    Branch(23, [Name(i)])
  }

  lemma OneNameMeans(i: nat)
    ensures IsDerivation(OneName(i)) && Root(OneName(i)) == SYM_SIMPLE_COMMAND
    ensures Yield(OneName(i)) == [Tok(SYM_WORD, i)]
    ensures Meaning(OneName(i)) == [Words(i)]
  {
    hide Yield, Name;
    NameDerives(i);
    NameMeans(i);
    Applies(23, [Name(i)]);
    YieldOfBranch(23, [Name(i)]);
    YieldAllSingle(Name(i));
    MeaningOfBranch(OneName(i));
  }

  lemma PipedMeans(simple: Tree, command: Ast)
    requires IsDerivation(simple) && Root(simple) == SYM_SIMPLE_COMMAND && Meaning(simple) == [command]
    ensures IsDerivation(Piped(simple)) && Meaning(Piped(simple)) == [APipeline({}, [command])]
  {
    PipedDerives(simple);
    MeaningOfBranch(Branch(11, [simple]));
    MeaningOfBranch(Piped(simple));
  }

  lemma OneWordMeans(i: nat)
    ensures IsDerivation(OneWord(i)) && Root(OneWord(i)) == SYM_PIPELINE && Yield(OneWord(i)) == [Tok(SYM_WORD, i)]
    ensures Meaning(OneWord(i)) == [APipeline({}, [Words(i)])]
  {
    hide Meaning, IsDerivation, Yield;
    OneWordDerives(i);
    OneNameMeans(i);
    PipedMeans(OneName(i), Words(i));
  }

  lemma TwoWordsMean(i: nat)
    ensures IsDerivation(TwoWords(i)) && Root(TwoWords(i)) == SYM_PIPELINE
    ensures Yield(TwoWords(i)) == [Tok(SYM_WORD, i), Tok(SYM_WORD, i + 1)]
    ensures Meaning(TwoWords(i)) == [APipeline({}, [ACommand({}, [AWord(i, 0), AWord(i + 1, 0)], [])])]
  {
    hide Yield;
    TwoWordsDerive(i);
    WordsMean(i);
    PipedMeans(Branch(22, [Name(i), Branch(30, [Leaf(Tok(SYM_WORD, i + 1))])]),
      ACommand({}, [AWord(i, 0), AWord(i + 1, 0)], []));
  }

  lemma WordsMean(i: nat)
    ensures var simple := Branch(22, [Name(i), Branch(30, [Leaf(Tok(SYM_WORD, i + 1))])]);
      && IsDerivation(simple) && Root(simple) == SYM_SIMPLE_COMMAND
      && Meaning(simple) == [ACommand({}, [AWord(i, 0), AWord(i + 1, 0)], [])]
  {
    hide Name;
    var leaf := Leaf(Tok(SYM_WORD, i + 1));
    var suffix := Branch(30, [leaf]);
    NameDerives(i);
    NameMeans(i);
    Applies(30, [leaf]);
    YieldAllSingle(leaf);
    Applies(22, [Name(i), suffix]);
    MeaningOfBranch(suffix);
    MeaningOfBranch(Branch(22, [Name(i), suffix]));
    assert [AWord(i, 0)] + [AWord(i + 1, 0)] == [AWord(i, 0), AWord(i + 1, 0)];
  }

  lemma AloneMeans(pipeline: Tree)
    requires IsDerivation(pipeline) && Root(pipeline) == SYM_PIPELINE
    ensures IsDerivation(Alone(pipeline)) && Root(Alone(pipeline)) == SYM_AND_OR
    ensures Yield(Alone(pipeline)) == Yield(pipeline) && Meaning(Alone(pipeline)) == Meaning(pipeline)
  {
    AloneDerives(pipeline);
    MeaningOfBranch(Alone(pipeline));
  }

  /** A pipeline with one more command behind it, of one word. */
  function Into(pipeline: Tree, i: nat): Tree {
    Branch(10, [pipeline, Leaf(Tok(SYM_PIPE, i)), NOTHING, Branch(11, [OneName(i + 1)])])
  }

  lemma IntoDerives(pipeline: Tree, i: nat)
    requires IsDerivation(pipeline) && Root(pipeline) == SYM_PIPELINE
    ensures var command := Branch(11, [OneName(i + 1)]);
      IsDerivation(command) && Root(command) == SYM_COMMAND && Meaning(command) == [Words(i + 1)]
    ensures IsDerivation(Into(pipeline, i)) && Root(Into(pipeline, i)) == SYM_PIPELINE
    ensures Yield(Into(pipeline, i)) == Yield(pipeline) + [Tok(SYM_PIPE, i), Tok(SYM_WORD, i + 1)]
  {
    hide OneName;
    var bar, command := Leaf(Tok(SYM_PIPE, i)), Branch(11, [OneName(i + 1)]);
    OneNameMeans(i + 1);
    NothingDerives();
    Applies(11, [OneName(i + 1)]);
    YieldAllSingle(OneName(i + 1));
    MeaningOfBranch(command);
    Applies(10, [pipeline, bar, NOTHING, command]);
    YieldOfFour(pipeline, bar, NOTHING, command);
  }

  lemma IntoMeans(pipeline: Tree, i: nat, commands: seq<Ast>)
    requires IsDerivation(pipeline) && Root(pipeline) == SYM_PIPELINE && Meaning(pipeline) == [APipeline({}, commands)]
    ensures IsDerivation(Into(pipeline, i)) && Root(Into(pipeline, i)) == SYM_PIPELINE
    ensures Yield(Into(pipeline, i)) == Yield(pipeline) + [Tok(SYM_PIPE, i), Tok(SYM_WORD, i + 1)]
    ensures Meaning(Into(pipeline, i)) == [APipeline({}, commands + [Words(i + 1)])]
  {
    hide OneName, IsDerivation, Yield, Words;
    IntoDerives(pipeline, i);
    MeaningOfBranch(Into(pipeline, i));
  }

  // ---- Records ---------------------------------------------------------------------------

  lemma DenotesOne(nodes: seq<Node>, c: Cell, a: Ast)
    requires Holds(nodes, c) && Denote(c) == [a]
    ensures c.Cell? && c.rest.Nil? && AstOf(c) == a
  {
    assert Denote(c)[0] == AstOf(c) && Denote(c)[1..] == Denote(c.rest);
    assert Denote(c.rest) == [];
  }

  lemma DenotesTwo(nodes: seq<Node>, c: Cell, a: Ast, b: Ast)
    requires Holds(nodes, c) && Denote(c) == [a, b]
    ensures c.Cell? && c.rest.Cell? && c.rest.rest.Nil? && AstOf(c) == a && AstOf(c.rest) == b
  {
    assert Denote(c)[0] == AstOf(c) && Denote(c)[1..] == Denote(c.rest);
    assert Denote(c.rest) == [b];
    DenotesOne(nodes, c.rest, b);
  }

  /** A command that is not in parentheses and has no redirections. */
  predicate IsPlain(c: Cell) {
    c.Cell? && c.data.Command? && c.flags == {} && c.second.Nil?
  }

  /** A pipeline of one such command. */
  predicate IsWord(p: Cell) {
    p.Cell? && p.data.Pipeline? && IsPlain(p.first) && p.first.rest.Nil? && AreCommands(p.first)
  }

  /** A pipeline of two. */
  predicate IsPair(p: Cell) {
    && p.Cell? && p.data.Pipeline? && IsPlain(p.first) && IsPlain(p.first.rest) && p.first.rest.rest.Nil?
    && AreCommands(p.first)
  }

  lemma WordRecords(nodes: seq<Node>, p: Cell, words: seq<Ast>)
    requires Holds(nodes, p) && p.Cell? && AstOf(p) == APipeline({}, [ACommand({}, words, [])])
    ensures IsWord(p)
  {
    DenotesOne(nodes, p.first, ACommand({}, words, []));
    assert Denote(p.first.second) == [];
    assert AreCommands(p.first.rest);
  }

  lemma PairRecords(nodes: seq<Node>, p: Cell, a: seq<Ast>, b: seq<Ast>)
    requires Holds(nodes, p) && p.Cell? && AstOf(p) == APipeline({}, [ACommand({}, a, []), ACommand({}, b, [])])
    ensures IsPair(p)
  {
    DenotesTwo(nodes, p.first, ACommand({}, a, []), ACommand({}, b, []));
    assert Denote(p.first.second) == [] == Denote(p.first.rest.second);
    assert AreCommands(p.first.rest.rest);
    assert AreCommands(p.first.rest);
  }

  // ---- Runs ------------------------------------------------------------------------------

  /** The shell before its first list. */
  const AT_REST := Ran([], CLOSED, 0, None, false, false, 0)

  /** A program that can be run, and a builtin. */
  const PROGRAM := Attempt(External, true, true, 0, false)
  const BUILTIN := Attempt(Builtin, true, true, 0, false)

  lemma OneIsAll(c: Cell, w: World, s: Ran)
    requires c.Cell? && c.rest.Nil? && AreCommands(c)
    ensures RunCommands(c, w, s) == RunOne(c, w, s) == RunCommand(c, w, s)
  {
    hide RunCommand;
    assert RunCommands(c.rest, w, RunOne(c, w, s)) == RunOne(c, w, s);
  }

  lemma NoRedirection(w: World, exit: bool, s: Streams)
    ensures Redirect(Nil, w, exit, s) == Redirected(true, s)
  {
  }

  /** A program alone is started in a child on what is on the shell's streams. */
  lemma ProgramAlone(p: Cell, w: World, s: Ran)
    requires IsWord(p) && w.attempts(p.first.index) == PROGRAM
    ensures RunPipeline(p.first, w, s).launches == s.launches + [Launch(p.first.index, true, s.streams)]
  {
    OneIsAll(p.first, w, s);
    NoRedirection(w, s.exit, s.streams);
  }
}
