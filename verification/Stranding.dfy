// Two inputs behind which a stream of the shell stays redirected, and the next command finds it.

module Stranding {
  import opened Grammar
  import opened Derivations
  import opened NodeArena
  import opened Syntax
  import opened Reductions
  import opened Context
  import opened Samples
  import opened SampleRecords
  import opened Pipelines
  import opened CompleteCommands

  // ---- `echo >out <missing`, newline, `ls` --------------------------------------------------------------------

  /** A redirection from or to the file of the next word. */
  function FileRedir(r: int, i: nat): Tree
    requires r == 36 || r == 37
  {
    Branch(34, [Branch(r, [Leaf(Tok(RhsAt(r, 0), i)), Branch(39, [Leaf(Tok(SYM_WORD, i + 1))])])])
  }

  function FileRedirAst(r: int, i: nat): Ast {
    ARedir(if r == 36 then {RedirIn} else {RedirOut}, i + 1, 0)
  }

  lemma FileRedirDerives(r: int, i: nat)
    requires r == 36 || r == 37
    ensures IsDerivation(FileRedir(r, i)) && Root(FileRedir(r, i)) == SYM_IO_REDIRECT
    ensures Yield(FileRedir(r, i)) == [Tok(RhsAt(r, 0), i), Tok(SYM_WORD, i + 1)]
    ensures Meaning(FileRedir(r, i)) == [FileRedirAst(r, i)]
  {
    hide IsDerivation, Meaning, Yield;
    FileDerives(r, i);
    var file := FileRedir(r, i).kids[0];
    RuleOfFile(file);
    YieldOfBranch(34, [file]);
    YieldAllSingle(file);
  }

  lemma RuleOfFile(file: Tree)
    requires IsDerivation(file) && Root(file) == SYM_IO_FILE
    ensures IsDerivation(Branch(34, [file])) && Root(Branch(34, [file])) == SYM_IO_REDIRECT
    ensures Meaning(Branch(34, [file])) == Meaning(file)
  {
    Applies(34, [file]);
    MeaningOfBranch(Branch(34, [file]));
  }

  lemma FileDerives(r: int, i: nat)
    requires r == 36 || r == 37
    ensures var file := FileRedir(r, i).kids[0];
      && IsDerivation(file) && Root(file) == SYM_IO_FILE && Meaning(file) == [FileRedirAst(r, i)]
      && Yield(file) == [Tok(RhsAt(r, 0), i), Tok(SYM_WORD, i + 1)]
  {
    var op, word := Leaf(Tok(RhsAt(r, 0), i)), Leaf(Tok(SYM_WORD, i + 1));
    var name := Branch(39, [word]);
    var file := Branch(r, [op, name]);
    Applies(39, [word]);
    YieldAllSingle(word);
    Applies(r, [op, name]);
    YieldOfTwo(op, name);
    MeaningOfBranch(name);
    MeaningOfBranch(file);
  }

  const ECHO_SUFFIX := Branch(29, [Branch(28, [FileRedir(37, 2)]), FileRedir(36, 4)])
  const ECHO := Piped(Branch(22, [Name(1), ECHO_SUFFIX]))

  const ECHO_COMMAND := ACommand({}, [AWord(1, 0)], [FileRedirAst(37, 2), FileRedirAst(36, 4)])

  lemma SuffixDerives()
    ensures IsDerivation(ECHO_SUFFIX) && Root(ECHO_SUFFIX) == SYM_CMD_SUFFIX
    ensures Yield(ECHO_SUFFIX) == [Tok(SYM_GREAT, 2), Tok(SYM_WORD, 3), Tok(SYM_LESS, 4), Tok(SYM_WORD, 5)]
    ensures Meaning(ECHO_SUFFIX) == [ACommand({}, [], [FileRedirAst(37, 2), FileRedirAst(36, 4)])]
  {
    var first := Branch(28, [FileRedir(37, 2)]);
    FileRedirDerives(37, 2);
    FileRedirDerives(36, 4);
    Applies(28, [FileRedir(37, 2)]);
    YieldAllSingle(FileRedir(37, 2));
    Applies(29, [first, FileRedir(36, 4)]);
    YieldOfTwo(first, FileRedir(36, 4));
    MeaningOfBranch(first);
    MeaningOfBranch(ECHO_SUFFIX);
    assert [FileRedirAst(37, 2)] + [FileRedirAst(36, 4)] == [FileRedirAst(37, 2), FileRedirAst(36, 4)];
  }

  lemma EchoMeans()
    ensures IsDerivation(ECHO) && Root(ECHO) == SYM_PIPELINE && Meaning(ECHO) == [APipeline({}, [ECHO_COMMAND])]
    ensures Yield(ECHO) == [Tok(SYM_WORD, 1), Tok(SYM_GREAT, 2), Tok(SYM_WORD, 3), Tok(SYM_LESS, 4), Tok(SYM_WORD, 5)]
  {
    hide Yield, IsDerivation, ECHO_SUFFIX, Meaning;
    EchoCommand();
    PipedDerives(Branch(22, [Name(1), ECHO_SUFFIX]));
    PipedMeans(Branch(22, [Name(1), ECHO_SUFFIX]), ECHO_COMMAND);
  }

  lemma EchoCommand()
    ensures var simple := Branch(22, [Name(1), ECHO_SUFFIX]);
      && IsDerivation(simple) && Root(simple) == SYM_SIMPLE_COMMAND && Meaning(simple) == [ECHO_COMMAND]
      && Yield(simple) == [Tok(SYM_WORD, 1), Tok(SYM_GREAT, 2), Tok(SYM_WORD, 3), Tok(SYM_LESS, 4), Tok(SYM_WORD, 5)]
  {
    hide ECHO_SUFFIX;
    NameDerives(1);
    SuffixDerives();
    Applies(22, [Name(1), ECHO_SUFFIX]);
    YieldOfTwo(Name(1), ECHO_SUFFIX);
    MeaningOfBranch(Name(1));
    MeaningOfBranch(Branch(22, [Name(1), ECHO_SUFFIX]));
    assert [AWord(1, 0)] + [] == [AWord(1, 0)];
  }

  const ECHO_LS := Program(NextLine(FirstLine(Alone(ECHO)), 6, Alone(OneWord(7))), 8)

  const ECHO_LS_TOKENS := [Tok(SYM_WORD, 1), Tok(SYM_GREAT, 2), Tok(SYM_WORD, 3), Tok(SYM_LESS, 4), Tok(SYM_WORD, 5),
                           Tok(SYM_NEWLINE, 6), Tok(SYM_WORD, 7), Tok(SYM_NEWLINE, 8)]

  lemma EchoLsDerives()
    ensures Derives(ECHO_LS, ECHO_LS_TOKENS)
    ensures TopLevel(ECHO_LS) == [Alone(ECHO), Alone(OneWord(7))]
    ensures IsDerivation(Alone(ECHO)) && Meaning(Alone(ECHO)) == [APipeline({}, [ECHO_COMMAND])]
    ensures IsDerivation(Alone(OneWord(7))) && Meaning(Alone(OneWord(7))) == [APipeline({}, [Words(7)])]
  {
    hide Yield, IsDerivation, Meaning, ECHO, OneWord, FirstLine, NextLine, Completed, Alone, TopLevel;
    EchoMeans();
    OneWordMeans(7);
    AloneMeans(ECHO);
    AloneMeans(OneWord(7));
    FirstLineDerives(Alone(ECHO));
    NextLineDerives(FirstLine(Alone(ECHO)), 6, Alone(OneWord(7)));
    ProgramDerives(NextLine(FirstLine(Alone(ECHO)), 6, Alone(OneWord(7))), 8);
  }

  /** One command, whose redirections are an output and an input. */
  predicate IsEcho(p: Cell) {
    && p.Cell? && p.first.Cell? && p.first.rest.Nil? && p.first.flags == {} && AreCommands(p.first)
    && p.first.second.Cell? && p.first.second.flags == {RedirOut}
    && p.first.second.rest.Cell? && p.first.second.rest.flags == {RedirIn} && p.first.second.rest.rest.Nil?
  }

  lemma EchoRecords(nodes: seq<Node>, p: Cell)
    requires Holds(nodes, p) && Denote(p) == [APipeline({}, [ECHO_COMMAND])]
    ensures IsEcho(p)
  {
    DenotesOne(nodes, p, APipeline({}, [ECHO_COMMAND]));
    DenotesOne(nodes, p.first, ECHO_COMMAND);
    var out := p.first.second;
    DenotesTwo(nodes, out, FileRedirAst(37, 2), FileRedirAst(36, 4));
    assert AreRedirs(out.rest) && AreRedirs(out);
    assert AreCommands(p.first.rest);
  }

  lemma EchoFails(p: Cell, w: World)
    requires IsEcho(p) && w.attempts(p.first.index) == BUILTIN
    requires w.opens(p.first.second.index) && !w.opens(p.first.second.rest.index)
    ensures RunPipeline(p.first, w, AT_REST)
            == AT_REST.(streams := Streams(None, Some(FileOut(p.first.second.index))), result := 1)
  {
    var c, out := p.first, p.first.second;
    var output := Streams(None, Some(FileOut(out.index)));
    assert Redirect(out.rest, w, false, output) == Redirected(false, output);
    assert Redirect(out, w, false, CLOSED) == Redirected(false, output);
    OneIsAll(c, w, AT_REST);
  }

  /**
   * `echo >out <missing`, newline, `ls`, each as it lies in the arena when it is run: `echo` is
   * not started, as the input cannot be opened, but the output stays open, and `ls` is started with
   * `out` on its output instead of the shell's.
   */
  lemma StrandedOutput(p: Cell, q: Cell, before: seq<Node>, after: seq<Node>, w: World, v: World)
    requires IsDerivation(Alone(ECHO)) && Holds(before, p) && Denote(p) == Meaning(Alone(ECHO))
    requires IsDerivation(Alone(OneWord(7))) && Holds(after, q) && Denote(q) == Meaning(Alone(OneWord(7)))
    requires IsEcho(p) ==>
               && w.attempts(p.first.index) == BUILTIN
               && w.opens(p.first.second.index) && !w.opens(p.first.second.rest.index)
    requires IsWord(q) ==> v.attempts(q.first.index) == PROGRAM
    ensures Derives(ECHO_LS, ECHO_LS_TOKENS) && TopLevel(ECHO_LS) == [Alone(ECHO), Alone(OneWord(7))]
    ensures IsEcho(p) && IsWord(q)
    ensures var r := RunPipeline(p.first, w, AT_REST);
      var stranded := Streams(None, Some(FileOut(p.first.second.index)));
      && r.launches == [] && r.result == 1 && r.streams == stranded
      && RunPipeline(q.first, v, r).launches == [Launch(q.first.index, true, stranded)]
      && RunPipeline(q.first, v, AT_REST).launches == [Launch(q.first.index, true, CLOSED)]
  {
    hide IsDerivation, Meaning, ECHO, OneWord, RunPipeline, ECHO_LS, ECHO_LS_TOKENS, TopLevel, Derives;
    EchoLsDerives();
    EchoRecords(before, p);
    DenotesOne(after, q, APipeline({}, [Words(7)]));
    WordRecords(after, q, [AWord(7, 0)]);
    EchoFails(p, w);
    ProgramAlone(q, v, RunPipeline(p.first, w, AT_REST));
    ProgramAlone(q, v, AT_REST);
  }

  // ---- `exit x`, newline, `a | b`, newline, `c` ------------------------------------------

  const EXIT_X := Alone(TwoWords(1))
  const A_INTO_B := Alone(Into(OneWord(4), 5))
  const C_ALONE := Alone(OneWord(8))
  const EXIT_PIPE := Program(NextLine(NextLine(FirstLine(EXIT_X), 3, A_INTO_B), 7, C_ALONE), 9)

  lemma ExitPipeLists()
    ensures IsDerivation(EXIT_X) && Root(EXIT_X) == SYM_AND_OR && Yield(EXIT_X) == [Tok(SYM_WORD, 1), Tok(SYM_WORD, 2)]
    ensures Meaning(EXIT_X) == [APipeline({}, [ACommand({}, [AWord(1, 0), AWord(2, 0)], [])])]
    ensures IsDerivation(A_INTO_B) && Root(A_INTO_B) == SYM_AND_OR
    ensures Yield(A_INTO_B) == [Tok(SYM_WORD, 4), Tok(SYM_PIPE, 5), Tok(SYM_WORD, 6)]
    ensures Meaning(A_INTO_B) == [APipeline({}, [Words(4), Words(6)])]
    ensures IsDerivation(C_ALONE) && Root(C_ALONE) == SYM_AND_OR && Yield(C_ALONE) == [Tok(SYM_WORD, 8)]
    ensures Meaning(C_ALONE) == [APipeline({}, [Words(8)])]
  {
    hide Yield, IsDerivation, Meaning, OneWord, TwoWords, Into, Alone;
    TwoWordsMean(1);
    AloneMeans(TwoWords(1));
    OneWordMeans(4);
    IntoMeans(OneWord(4), 5, [Words(4)]);
    assert [Words(4)] + [Words(6)] == [Words(4), Words(6)];
    AloneMeans(Into(OneWord(4), 5));
    OneWordMeans(8);
    AloneMeans(OneWord(8));
  }

  const EXIT_PIPE_TOKENS := [Tok(SYM_WORD, 1), Tok(SYM_WORD, 2), Tok(SYM_NEWLINE, 3), Tok(SYM_WORD, 4),
                             Tok(SYM_PIPE, 5), Tok(SYM_WORD, 6), Tok(SYM_NEWLINE, 7), Tok(SYM_WORD, 8),
                             Tok(SYM_NEWLINE, 9)]

  lemma ExitPipeDerives()
    ensures Derives(EXIT_PIPE, EXIT_PIPE_TOKENS)
    ensures TopLevel(EXIT_PIPE) == [EXIT_X, A_INTO_B, C_ALONE]
  {
    hide Yield, IsDerivation, Meaning, EXIT_X, A_INTO_B, C_ALONE, FirstLine, NextLine, Completed, TopLevel;
    ExitPipeLists();
    FirstLineDerives(EXIT_X);
    NextLineDerives(FirstLine(EXIT_X), 3, A_INTO_B);
    NextLineDerives(NextLine(FirstLine(EXIT_X), 3, A_INTO_B), 7, C_ALONE);
    ProgramDerives(NextLine(NextLine(FirstLine(EXIT_X), 3, A_INTO_B), 7, C_ALONE), 9);
  }

  /** `exit x` leaves the shell to exit with status 2. */
  const EXIT := Attempt(Builtin, true, true, 2, true)

  lemma ExitRaises(p: Cell, w: World)
    requires IsWord(p) && w.attempts(p.first.index) == EXIT
    ensures RunPipeline(p.first, w, AT_REST)
            == AT_REST.(launches := [Launch(p.first.index, false, CLOSED)], result := 2, exit := true)
  {
    OneIsAll(p.first, w, AT_REST);
    NoRedirection(w, false, CLOSED);
  }

  /** Of two programs only the first is started, and its pipe stays. */
  lemma PairStops(p: Cell, w: World, s: Ran)
    requires IsPair(p) && w.attempts(p.first.index) == PROGRAM && s.exit && s.streams == CLOSED
    ensures var r := RunPipeline(p.first, w, s);
      && r.launches == s.launches + [Launch(p.first.index, true, Streams(None, Some(PipeWrite(s.pipes))))]
      && r.streams == Streams(Some(PipeRead(s.pipes)), None) && r.exit
  {
    NoRedirection(w, true, Streams(None, Some(PipeWrite(s.pipes))));
  }

  /**
   * `exit x`, newline, `a | b`, newline, `c`: `a` is started and `b` is not, and `c` is started with
   * the pipe on its input instead of the shell's, though no command was refused.
   */
  lemma StrandedPipe(p: Cell, q: Cell, r: Cell, nodes: seq<seq<Node>>, w: seq<World>)
    requires |nodes| == |w| == 3
    requires IsDerivation(EXIT_X) && Holds(nodes[0], p) && Denote(p) == Meaning(EXIT_X)
    requires IsDerivation(A_INTO_B) && Holds(nodes[1], q) && Denote(q) == Meaning(A_INTO_B)
    requires IsDerivation(C_ALONE) && Holds(nodes[2], r) && Denote(r) == Meaning(C_ALONE)
    requires IsWord(p) ==> w[0].attempts(p.first.index) == EXIT
    requires IsPair(q) ==> w[1].attempts(q.first.index) == PROGRAM == w[1].attempts(q.first.rest.index)
    requires IsWord(r) ==> w[2].attempts(r.first.index) == PROGRAM
    ensures Derives(EXIT_PIPE, EXIT_PIPE_TOKENS) && TopLevel(EXIT_PIPE) == [EXIT_X, A_INTO_B, C_ALONE]
    ensures IsWord(p) && IsPair(q) && IsWord(r)
    ensures var behind := RunPipeline(q.first, w[1], RunPipeline(p.first, w[0], AT_REST));
      && behind.streams == Streams(Some(PipeRead(0)), None)
      && RunPipeline(r.first, w[2], behind).launches
         == [Launch(p.first.index, false, CLOSED), Launch(q.first.index, true, Streams(None, Some(PipeWrite(0)))),
             Launch(r.first.index, true, Streams(Some(PipeRead(0)), None))]
  {
    hide IsDerivation, Meaning, EXIT_X, A_INTO_B, C_ALONE, RunPipeline, EXIT_PIPE, EXIT_PIPE_TOKENS, TopLevel, Derives;
    ExitPipeDerives();
    ExitPipeLists();
    DenotesOne(nodes[0], p, APipeline({}, [ACommand({}, [AWord(1, 0), AWord(2, 0)], [])]));
    WordRecords(nodes[0], p, [AWord(1, 0), AWord(2, 0)]);
    DenotesOne(nodes[1], q, APipeline({}, [Words(4), Words(6)]));
    PairRecords(nodes[1], q, [AWord(4, 0)], [AWord(6, 0)]);
    DenotesOne(nodes[2], r, APipeline({}, [Words(8)]));
    WordRecords(nodes[2], r, [AWord(8, 0)]);
    ExitRaises(p, w[0]);
    PairStops(q, w[1], RunPipeline(p.first, w[0], AT_REST));
    ProgramAlone(r, w[2], RunPipeline(q.first, w[1], RunPipeline(p.first, w[0], AT_REST)));
  }
}
