// Running what was parsed: each top-level list is run when its complete commands are reduced,
// after which the node arena starts over.

module Execution {
  import opened Grammar
  import opened Derivations
  import opened LrMachine
  import opened NodeArena
  import opened Syntax
  import opened Reductions
  import opened Context
  import opened AndOr
  import opened ExecuteList
  import opened ParserInvariant
  import opened ShiftReduce
  import opened CompleteCommands
  import opened HereDescriptors

  // ---- What was run ----------------------------------------------------------------------

  /** The records that were run denoted the list's derivation. */
  ghost predicate IsExecuted(e: Executed) {
    && IsDerivation(e.tree) && Root(e.tree) == SYM_AND_OR && |e.ids| == |Meaning(e.tree)|
    && Denote(e.chain) == Meaning(e.tree) && Indices(e.chain) == e.ids
  }

  ghost predicate AreExecuted(ex: seq<Executed>) {
    forall i :: 0 <= i < |ex| ==> IsExecuted(ex[i])
  }

  ghost function TreesOf(ex: seq<Executed>): (ts: seq<Tree>)
    ensures |ts| == |ex| && forall i :: 0 <= i < |ts| ==> ts[i] == ex[i].tree
  {
    seq(|ex|, i requires 0 <= i < |ex| => ex[i].tree)
  }

  /** A list is evaluated by the meaning of its operators; if the shell is to exit, only its first pipeline is run. */
  ghost function RunList(e: Executed, outcome: nat -> Status, before: Status): Run
    requires IsExecuted(e)
  {
    AndOrMeaning(e.tree);
    if before.exit then Run([e.ids[0]], After(before, outcome(e.ids[0]))) else Evaluate(e.tree, e.ids, outcome)
  }

  /** The lists run one after the other. */
  ghost function RunAll(ex: seq<Executed>, outcomes: nat -> nat -> Status, before: Status): Run
    requires AreExecuted(ex)
  {
    if ex == [] then Run([], before)
    else
      var n := |ex| - 1;
      var run := RunAll(ex[..n], outcomes, before);
      Prepend(run.trace, RunList(ex[n], outcomes(n), run.status))
  }

  // ---- Exiting between lists -------------------------------------------------------------

  /** The lists evaluated one after the other until the shell is to exit. */
  ghost function RunUntilExit(ex: seq<Executed>, outcomes: nat -> nat -> Status, before: Status): Run
    requires AreExecuted(ex)
  {
    if ex == [] then Run([], before)
    else
      var n := |ex| - 1;
      var run := RunUntilExit(ex[..n], outcomes, before);
      if run.status.exit then run else Prepend(run.trace, Evaluate(ex[n].tree, ex[n].ids, outcomes(n)))
  }

  /** As long as the shell is not to exit, both agree; and both find that it is. */
  lemma {:induction false} AgreeUntilExit(ex: seq<Executed>, outcomes: nat -> nat -> Status, before: Status)
    requires AreExecuted(ex)
    ensures !RunAll(ex, outcomes, before).status.exit ==>
      RunUntilExit(ex, outcomes, before) == RunAll(ex, outcomes, before)
    ensures RunAll(ex, outcomes, before).status.exit <==> RunUntilExit(ex, outcomes, before).status.exit
    ensures |RunUntilExit(ex, outcomes, before).trace| <= |RunAll(ex, outcomes, before).trace|
  {
    hide Evaluate, IsExecuted;
    if ex != [] {
      AgreeUntilExit(ex[..|ex| - 1], outcomes, before);
    }
  }

  /**
   * Nothing is run that was not to be run, if and only if no list before the last one leaves the
   * shell to exit: each list behind such a one still starts its first pipeline.
   */
  lemma ExitStopsListsIff(ex: seq<Executed>, outcomes: nat -> nat -> Status, before: Status)
    requires AreExecuted(ex) && ex != []
    ensures RunAll(ex, outcomes, before) == RunUntilExit(ex, outcomes, before)
            <==> !RunAll(ex[..|ex| - 1], outcomes, before).status.exit
  {
    hide Evaluate, IsExecuted;
    AgreeUntilExit(ex[..|ex| - 1], outcomes, before);
  }

  /** Environment and status behind each of the lists. */
  ghost function MomentsOf(ex: seq<Executed>, outcomes: nat -> nat -> Status, before: Status, env: map<string, string>,
                           envs: nat -> map<string, string>): seq<Moment>
    requires AreExecuted(ex)
  {
    if ex == [] then [Moment(env, before.code)]
    else
      var n := |ex| - 1;
      MomentsOf(ex[..n], outcomes, before, env, envs) + [Moment(envs(n), RunAll(ex, outcomes, before).status.code)]
  }

  /** What was run is what the executed lists mean. */
  ghost predicate ExecutedOk(c: Ctx, outcomes: nat -> nat -> Status, before: Status)
    reads c`executed, c`rounds, c`ran, c`returnStatus, c`shouldExit, c`moments, c`startEnv, c`env, c`envs
  {
    c.rounds == |c.executed| && IsNow(c)
    && RanAs(c.executed, Run(c.ran, Status(c.returnStatus, c.shouldExit)), c.moments, outcomes, before, c.startEnv,
      c.envs)
  }

  ghost predicate RanAs(ex: seq<Executed>, run: Run, moments: seq<Moment>, outcomes: nat -> nat -> Status,
                        before: Status,
                        env: map<string, string>, envs: nat -> map<string, string>)
  {
    && AreExecuted(ex) && RunAll(ex, outcomes, before) == run
    && moments == MomentsOf(ex, outcomes, before, env, envs)
  }

  lemma {:induction false} MoreExecuted(ex: seq<Executed>, e: Executed, outcomes: nat -> nat -> Status, before: Status)
    requires AreExecuted(ex) && IsExecuted(e)
    ensures AreExecuted(ex + [e]) && TreesOf(ex + [e]) == TreesOf(ex) + [e.tree]
    ensures var run := RunAll(ex, outcomes, before);
      RunAll(ex + [e], outcomes, before) == Prepend(run.trace, RunList(e, outcomes(|ex|), run.status))
  {
    hide RunList, IsExecuted;
    assert (ex + [e])[..|ex|] == ex;
  }

  lemma {:induction false} OneMoreMoment(ex: seq<Executed>, e: Executed, outcomes: nat -> nat -> Status, before: Status,
                                         env: map<string, string>, envs: nat -> map<string, string>)
    requires AreExecuted(ex) && AreExecuted(ex + [e])
    ensures MomentsOf(ex + [e], outcomes, before, env, envs) ==
            MomentsOf(ex, outcomes, before, env, envs)
              + [Moment(envs(|ex|), RunAll(ex + [e], outcomes, before).status.code)]
  {
    hide RunAll, IsExecuted;
    assert (ex + [e])[..|ex|] == ex;
  }

  /** One more list was run. */
  lemma {:induction false} RunOneMore(ex: seq<Executed>, e: Executed, run: Run, moments: seq<Moment>,
                                      outcomes: nat -> nat -> Status, before: Status,
                                      env: map<string, string>, envs: nat -> map<string, string>)
    requires RanAs(ex, run, moments, outcomes, before, env, envs) && IsExecuted(e)
    ensures var last := RunList(e, outcomes(|ex|), run.status);
      RanAs(ex + [e], Run(run.trace + last.trace, last.status), moments + [Moment(envs(|ex|), last.status.code)],
            outcomes, before, env, envs)
    ensures TreesOf(ex + [e]) == TreesOf(ex) + [e.tree]
  {
    hide RunList, IsExecuted, RunAll, MomentsOf, AreExecuted;
    MoreExecuted(ex, e, outcomes, before);
    OneMoreMoment(ex, e, outcomes, before, env, envs);
  }

  // ---- The list that is about to run -----------------------------------------------------

  /** The list that reducing complete commands leaves to be run. */
  ghost function LastList(t: Tree): Tree {
    if t.Branch? && t.kids != [] then t.kids[|t.kids| - 1] else t
  }

  lemma ListOfCommands(t: Tree)
    requires IsDerivation(t) && Root(t) == SYM_COMPLETE_COMMANDS
    ensures IsDerivation(LastList(t)) && Root(LastList(t)) == SYM_AND_OR && Meaning(t) == Meaning(LastList(t))
  {
    hide Combine, ShapesFit;
    assert t.Branch? && (t.rule == 4 || t.rule == 5);
    MeaningOfBranch(t);
    if t.rule == 4 {
      assert Root(t.kids[2]) == RhsAt(4, 0 + 2);
      CombineList(4, KidMeaning(t.rule, t.kids, 0), KidMeaning(t.rule, t.kids, 1), KidMeaning(t.rule, t.kids, 2),
        KidMeaning(t.rule, t.kids, 3), LastToken(YieldAll(t.kids)));
    } else {
      assert Root(t.kids[0]) == RhsAt(5, 0 + 0);
      CombineList(5, KidMeaning(t.rule, t.kids, 0), KidMeaning(t.rule, t.kids, 1), KidMeaning(t.rule, t.kids, 2),
        KidMeaning(t.rule, t.kids, 3), LastToken(YieldAll(t.kids)));
    }
  }

  lemma CombineList(r: int, a: seq<Ast>, b: seq<Ast>, c: seq<Ast>, d: seq<Ast>, word: Token)
    requires (r == 4 || r == 5) && ShapesFit(r, a, b, c, d)
    ensures Combine(r, a, b, c, d, word) == if r == 4 then c else a
  {
  }

  /** A chain that denotes an AND-OR list has only pipelines, each with at most one operator. */
  lemma {:induction false} ChainOfList(c: Cell, m: seq<Ast>)
    requires Denote(c) == m && WellTagged(c)
    requires forall i :: 0 <= i < |m| ==> m[i].APipeline? && !(AndIf in m[i].flags && OrIf in m[i].flags)
    requires forall i :: 0 <= i < |m| ==> m[i].APipeline?
    ensures ArePipelines(c) && AllOneFlag(c)
  {
    if c.Cell? {
      assert m[0] == AstOf(c) && m[1..] == Denote(c.rest);
      assert c.data.Pipeline?;
      if c.rest.Cell? { assert m[1] == AstOf(c.rest); }
      ChainOfList(c.rest, m[1..]);
    }
  }

  /** At a pending run: the stack is a linebreak and complete commands, whose list is in the arena. */
  lemma PendingList(c: Ctx, parse: ParserState)
    requires ParserOk(c, parse) && parse.execRootIdx != 0
    ensures |c.shadow| == 2 && |c.stack| == 3 && parse.stackIdx == 2 && c.stack[1].node == 0
    ensures var t := c.shadow[1].tree; var chain := c.shadow[1].chain;
      && IsDerivation(t) && IsDerivation(LastList(t)) && Root(LastList(t)) == SYM_AND_OR
      && Denote(chain) == Meaning(LastList(t)) && IsList(c.nodes, chain) && AllOneFlag(chain)
        && parse.execRootIdx == Head(chain)
  {
    hide IsPath, IsDerivation, Owns, Ascending, Meaning, Words, Denote, StackOk;
    PendingStack(c.stack, c.nodes, c.tokens, c.shadow);
    StackBottom(c.stack, c.nodes, c.tokens, c.shadow, true);
    RunClearsStack(c.stack, c.nodes, c.tokens, c.shadow);
    StackEntry(c.stack, c.nodes, c.tokens, c.shadow, true, 1);
    var t, chain := c.shadow[1].tree, c.shadow[1].chain;
    ListOfCommands(t);
    ListIsAndOr(LastList(t));
    HeldIsTagged(c.nodes, chain);
    ChainOfList(chain, Meaning(t));
  }

  lemma ListIsAndOr(t: Tree)
    requires IsDerivation(t) && Root(t) == SYM_AND_OR
    ensures IsAndOr(Meaning(t))
    ensures forall i ::
      0 <= i < |Meaning(t)| ==>
        Meaning(t)[i].APipeline? && !(AndIf in Meaning(t)[i].flags && OrIf in Meaning(t)[i].flags)
  {
  }

  lemma HeldIsTagged(nodes: seq<Node>, c: Cell)
    requires Holds(nodes, c)
    ensures WellTagged(c)
  {
  }

  // ---- The run ---------------------------------------------------------------------------

  predicate IsHereNode(n: Node) {
    n.data.Redir? && RedirHere in n.flags
  }

  /** The here-document descriptors among the first `n` records that are still open. */
  function OpenFds(nodes: seq<Node>, n: nat): seq<int>
    requires n <= |nodes|
  {
    if n == 0 then []
    else OpenFds(nodes, n - 1) + (if IsHereNode(nodes[n - 1])
      && nodes[n - 1].data.fd != -1 then [nodes[n - 1].data.fd] else [])
  }

  /** Closes the descriptors that no command took, each once, in the order of their records. */
  method CloseHeredocFds(c: Ctx)
    requires c.nodes != [] && c.nodes[0] == SENTINEL
    modifies c`nodes, c`closed
    ensures c.closed == old(c.closed) + OpenFds(old(c.nodes), |old(c.nodes)|)
    ensures |c.nodes| == |old(c.nodes)| && forall i :: 0 <= i < |c.nodes| ==>
              c.nodes[i] == if IsHereNode(old(c.nodes)[i])
                then old(c.nodes)[i].(data := old(c.nodes)[i].data.(fd := -1)) else old(c.nodes)[i]
  {
    var count := |c.nodes|;
    var i := 1;
    while i < count
      invariant 1 <= i <= count == |c.nodes| == |old(c.nodes)|
      invariant c.closed == old(c.closed) + OpenFds(old(c.nodes), i)
      invariant forall k :: i <= k < count ==> c.nodes[k] == old(c.nodes)[k]
      invariant forall k :: 0 <= k < i ==>
                  c.nodes[k] == if IsHereNode(old(c.nodes)[k])
                    then old(c.nodes)[k].(data := old(c.nodes)[k].data.(fd := -1)) else old(c.nodes)[k]
    {
      var node := c.nodes[i];
      if IsHereNode(node) {
        if node.data.fd != -1 {
          c.closed := c.closed + [node.data.fd];
        }
        c.nodes := c.nodes[i := node.(data := node.data.(fd := -1))];
      }
      i := i + 1;
    }
  }

  /** Runs one list. */
  method RunPending(c: Ctx, rootIdx: nat, outcomes: nat -> nat -> Status, ghost before: Status, ghost e: Executed)
    requires ExecutedOk(c, outcomes, before) && IsList(c.nodes, e.chain) && AllOneFlag(e.chain)
    requires rootIdx == Head(e.chain)
    requires IsDerivation(e.tree) && Root(e.tree) == SYM_AND_OR && Denote(e.chain) == Meaning(e.tree)
    requires Indices(e.chain) == e.ids
    modifies c`returnStatus, c`shouldExit, c`env, c`ran, c`rounds, c`executed, c`moments
    ensures ExecutedOk(c, outcomes, before) && c.executed == old(c.executed) + [e] && old(c.moments) <= c.moments
    ensures TreesOf(c.executed) == TreesOf(old(c.executed)) + [e.tree]
  {
    hide IsDerivation, Meaning, Denote, IsList, RunList, RanAs, AreExecuted, AllOneFlag, Walk, ChainLinks, Indices;
    ListMeaning(c, e, outcomes(c.rounds), Status(c.returnStatus, c.shouldExit));
    RunOneMore(c.executed, e, Run(c.ran, Status(c.returnStatus, c.shouldExit)), c.moments, outcomes, before, c.startEnv,
      c.envs);
    ExecuteList.ExecuteList(c, rootIdx, outcomes(c.rounds), e.chain);
    c.env := c.envs(c.rounds);
    c.moments := c.moments + [Moment(c.env, c.returnStatus)];
    c.rounds := c.rounds + 1;
    c.executed := c.executed + [e];
  }

  /**
   * Runs the list that was just completed, and clears the node arena. No symbol on the stack
   * refers to a record any more.
   */
  method CheckAndRunPendingExec(c: Ctx, parse: ParserState, outcomes: nat -> nat -> Status, ghost before: Status)
    requires ParserOk(c, parse) && ExecutedOk(c, outcomes, before)
    modifies c`stack, c`nodes, c`shadow, c`returnStatus, c`shouldExit, c`env, c`ran, c`rounds, c`closed, c`executed
    modifies c`moments, parse`execRootIdx
    ensures ParserOk(c, parse) && parse.execRootIdx == 0 && Machine(c) == old(Machine(c))
    ensures ExecutedOk(c, outcomes, before)
    ensures old(parse.execRootIdx) == 0 ==>
              c.executed == old(c.executed) && c.shadow == old(c.shadow) && c.nodes == old(c.nodes)
                && c.stack == old(c.stack)
    ensures old(parse.execRootIdx) != 0 ==>
              && |c.shadow| == |old(c.shadow)| == 2 && c.shadow[0] == old(c.shadow[0])
                && c.shadow[1] == old(c.shadow[1]).(chain := Nil, lo := 1, hi := 1)
              && c.nodes == [SENTINEL] && (forall i :: 0 <= i < |c.stack| ==> c.stack[i].node == 0)
              && TreesOf(c.executed) == TreesOf(old(c.executed)) + [LastList(c.shadow[1].tree)]
              && |c.executed| == |old(c.executed)| + 1 && c.executed[|old(c.executed)|].chain == old(c.shadow[1].chain)
              && old(c.executed) <= c.executed
    ensures old(parse.execRootIdx) == 0 ==> c.closed == old(c.closed)
    ensures old(c.moments) <= c.moments
    ensures old(parse.execRootIdx) != 0 ==> c.closed == old(c.closed) + OpenFds(old(c.nodes), |old(c.nodes)|)
  {
    hide StackOk, IsDerivation, Meaning, Denote, IsList, ExecutedOk, Machine, LastList, AllOneFlag, OpenFds;
    if parse.execRootIdx == 0 {
      return;
    }
    PendingList(c, parse);
    ghost var chain, t := c.shadow[1].chain, LastList(c.shadow[1].tree);
    RunPending(c, parse.execRootIdx, outcomes, before, Executed(t, Indices(chain), chain));
    parse.execRootIdx := 0;
    ClearCommands(c, parse);
  }

  /** Closes what no command took, and starts the node arena over. */
  method ClearCommands(c: Ctx, parse: ParserState)
    requires StackOk(c.stack, c.nodes, c.tokens, c.shadow, true) && c.shadow != []
    requires Root(c.shadow[|c.shadow| - 1].tree) == SYM_COMPLETE_COMMANDS
    requires |c.stack| == |c.shadow| + 1 && parse.stackIdx == |c.shadow| && parse.state == c.stack[parse.stackIdx].state
    requires parse.execRootIdx == 0 && forall i :: 0 <= i < |c.tokens| ==> c.tokens[i].offset < |c.strings|
    modifies c`stack, c`nodes, c`shadow, c`closed
    ensures ParserOk(c, parse) && Machine(c) == old(Machine(c))
    ensures |c.shadow| == |old(c.shadow)| == 2 && c.shadow[0] == old(c.shadow[0])
    ensures c.shadow[1] == old(c.shadow[1]).(chain := Nil, lo := 1, hi := 1)
    ensures c.nodes == [SENTINEL] && forall i :: 0 <= i < |c.stack| ==> c.stack[i].node == 0
    ensures c.closed == old(c.closed) + OpenFds(old(c.nodes), |old(c.nodes)|)
  {
    hide StackOk, IsDerivation, Frames, OpenFds;
    ghost var stack, shadow := c.stack, c.shadow;
    Cleared(c.stack, c.nodes, c.tokens, c.shadow);
    CloseHeredocFds(c);
    c.nodes := [SENTINEL];
    c.stack := c.stack[parse.stackIdx := c.stack[parse.stackIdx].(node := 0)];
    c.shadow := [c.shadow[0], c.shadow[1].(chain := Nil, lo := 1, hi := 1)];
  }

  /** What clearing leaves of stack and arena. */
  lemma Cleared(stack: seq<Entry>, nodes: seq<Node>, tokens: seq<TokenRecord>, shadow: seq<Shadow>)
    requires StackOk(stack, nodes, tokens, shadow, true) && shadow != [] && |stack| == |shadow| + 1
    requires Root(shadow[|shadow| - 1].tree) == SYM_COMPLETE_COMMANDS
    ensures |shadow| == 2 && |stack| == 3 && nodes != [] && nodes[0] == SENTINEL && stack[0].node == 0
    ensures stack[1].node == 0
    ensures var stack', shadow' := stack[2 := stack[2].(node := 0)],
      [shadow[0], shadow[1].(chain := Nil, lo := 1, hi := 1)];
      StackOk(stack', [SENTINEL], tokens, shadow', false) && Frames(stack', shadow') == Frames(stack, shadow)
  {
    hide StackOk, IsDerivation, Frames;
    StackBottom(stack, nodes, tokens, shadow, true);
    RunClearsStack(stack, nodes, tokens, shadow);
    ClearedMachine(stack, shadow);
    assert stack[2 := stack[2].(node := 0)] == [stack[0], stack[1], stack[2].(node := 0)];
  }

  /** The walk over the list's chain runs the list. */
  lemma ListMeaning(c: Ctx, e: Executed, outcome: nat -> Status, status: Status)
    requires IsList(c.nodes, e.chain) && IsDerivation(e.tree) && Root(e.tree) == SYM_AND_OR
    requires Denote(e.chain) == Meaning(e.tree) && Indices(e.chain) == e.ids
    ensures IsExecuted(e)
    ensures Walk(ChainLinks(e.chain), e.ids, outcome, 0, status) == RunList(e, outcome, status)
  {
    hide Meaning, IsDerivation, Evaluate, Walk;
    LinksOfChain(e.chain);
    AndOrMeaning(e.tree);
    if status.exit {
      WalkAfterExit(ChainLinks(e.chain), e.ids, outcome, status);
    } else {
      WalkIsMeaning(e.tree, e.ids, outcome, status);
    }
  }

  lemma ClearedMachine(stack: seq<Entry>, shadow: seq<Shadow>)
    requires |stack| == 3 && |shadow| == 2
    ensures Frames([stack[0], stack[1], stack[2].(node := 0)], [shadow[0], shadow[1].(chain := Nil, lo := 1, hi := 1)])
      == Frames(stack, shadow)
  {
  }
}
