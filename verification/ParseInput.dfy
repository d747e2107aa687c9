// The driver: reads the lookahead, steps the automaton, runs what was completed, until the input
// is accepted or rejected.

module ParseInput {
  import opened CStrings
  import opened Grammar
  import opened ParseTables
  import opened Automaton
  import opened Derivations
  import opened LrMachine
  import opened LrParser
  import opened NodeArena
  import opened Syntax
  import opened QuoteRemoval
  import opened Context
  import opened Handlers
  import opened AndOr
  import opened ParserInvariant
  import opened ShiftReduce
  import opened CompleteCommands
  import opened HereDescriptors
  import opened LexerRules
  import opened HereDocument
  import opened TokenHistory
  import opened Agreement
  import opened HereOrder
  import opened RunInvariant
  import opened TokenFlow
  import opened Execution

  // ---- One step --------------------------------------------------------------------------

  /** The invariant right after a step, when a completed list may be waiting to be run. */
  ghost predicate Stepped(c: Ctx, parse: ParserState)
    reads c`stack, c`nodes, c`tokens, c`strings, c`shadow, c`lexed, c`shifted, parse`stackIdx, parse`state
    reads parse`execRootIdx
    reads c`texts, c`delims, c`bodies, c`pieces, parse`saveTokens, parse`hereBody
  {
    && ParserOk(c, parse) && Agrees(c.lexed, Machine(c), c.shifted)
    && TokensOk(c.tokens, c.strings, c.lexed, c.texts, c.delims)
    && BodiesOk(c.bodies, c.pieces, c.delims, c.lexed, c.texts)
    && DelimitersOk(c, Waits(parse))
  }

  /** What a reduction does to the values the invariant speaks of. */
  lemma ReduceKeepsRun(before: Arenas, after: Arenas, r: int, tokens: seq<TokenRecord>, delims: seq<nat>,
                       bodies: seq<string>,
                       pieces: seq<Piece>, lexed: seq<Token>, texts: seq<string>, n: nat)
    requires DidReduce(before, after, r) && IsPath(Frames(after.stack, after.shadow))
    requires |before.stack| == |before.shadow| + 1
    requires IsPath(Frames(before.stack, before.shadow)) && n <= |lexed|
    requires YieldAll(Trees(Frames(before.stack, before.shadow))) == lexed[..n]
    requires TokensOk(tokens, before.strings, lexed, texts, delims) && BodiesOk(bodies, pieces, delims, lexed, texts)
    requires HereOk(before.shadow, delims, |bodies|, lexed, n, false)
    ensures var delims' := if r == 40 then delims + [n] else delims;
      && TokensOk(tokens, after.strings, lexed, texts, delims') && BodiesOk(bodies, pieces, delims', lexed, texts)
      && HereOk(after.shadow, delims', |bodies|, lexed, n, r == 40)
      && (r == 40 ==>
        0 < n && RhsLen(40) <= |before.shadow| && KidsOf(before.shadow, 40).word == lexed[n - 1]
          && lexed[n - 1].offset == n)
  {
    hide TokensOk, BodiesOk, IsPath, DidReduce, StackServed, IsHereCell, TopRoot, Frames, QuoteRemove;
    if r == 40 {
      OffsetsOfLexed(tokens, before.strings, lexed, texts, delims);
      ReducedFrames(before, after, r);
      HereOpens(before, after, delims, lexed, n);
      WordString(before, after, lexed, n);
      DelimiterTaken(tokens, before.strings, lexed, texts, delims, n);
      BodiesGrow(bodies, pieces, delims, lexed, texts, pieces, delims + [n], lexed, texts);
    } else {
      HereReduces(before, after, r, delims, lexed, n);
      OtherStrings(before, after, r);
    }
  }

  lemma OffsetsOfLexed(tokens: seq<TokenRecord>, strings: seq<string>, lexed: seq<Token>, texts: seq<string>,
                       delims: seq<nat>)
    requires TokensOk(tokens, strings, lexed, texts, delims)
    ensures forall i :: 0 <= i < |lexed| ==> lexed[i].offset == i + 1
  {
    hide TokensOk;
    forall i | 0 <= i < |lexed| ensures lexed[i].offset == i + 1 {
      TokenIn(tokens, strings, lexed, texts, delims, i + 1);
    }
  }

  lemma WordString(before: Arenas, after: Arenas, lexed: seq<Token>, n: nat)
    requires DidReduce(before, after, 40) && 0 < n <= |lexed| && KidsOf(before.shadow, 40).word == lexed[n - 1]
    requires lexed[n - 1].offset == n
    ensures n < |before.strings| && after.strings == before.strings[n := QuoteRemove(before.strings[n])]
  {
    hide QuoteRemove, KidsOf, Frames;
  }

  lemma OtherStrings(before: Arenas, after: Arenas, r: int)
    requires DidReduce(before, after, r) && r != 40
    ensures after.strings == before.strings
  {
    hide QuoteRemove, KidsOf, Frames;
  }

  /** The here-documents of every list that was run had their own bodies. */
  ghost predicate RanServed(ex: seq<Executed>, delims: seq<nat>) {
    forall i :: 0 <= i < |ex| ==> Served(ex[i].chain, delims)
  }

  lemma RanServedGrows(ex: seq<Executed>, delims: seq<nat>, d: nat)
    requires RanServed(ex, delims)
    ensures RanServed(ex, delims + [d])
  {
    forall i | 0 <= i < |ex| ensures Served(ex[i].chain, delims + [d]) {
      ServedGrows(ex[i].chain, delims, d);
    }
  }

  /** The lists that are complete are those that were run, and the delimiters those of the derivations so far. */
  ghost predicate RanComplete(c: Ctx, parse: ParserState)
    reads c`stack, c`shadow, c`executed, c`delims, parse`execRootIdx
  {
    && CompletedOn(Machine(c)) == TreesOf(c.executed)
      + (if parse.execRootIdx != 0 && c.shadow != [] then [LastList(c.shadow[|c.shadow| - 1].tree)] else [])
    && c.delims == HereDocsAll(Trees(Machine(c)))
    && RanServed(c.executed, c.delims)
  }

  lemma LastListOfReduced(stack: seq<Frame>, r: int)
    requires IsRule(r) && RhsLen(r) <= |stack|
    ensures 0 < RhsLen(r) ==> LastList(Reduced(stack, r)) == stack[|stack| - 1].tree
    ensures Lhs(r) == SYM_COMPLETE_COMMANDS ==> 0 < RhsLen(r)
  {
  }

  /** The automaton's decision on the lookahead, in the terms of the machine. */
  lemma DecisionOf(c: Ctx, parse: ParserState)
    requires Consistent(c, parse) && c.shifted < |c.lexed|
    ensures IsState(parse.state) && parse.state == Top(Machine(c)) && IsPath(Machine(c)) && |c.stack| == |c.shadow| + 1
    ensures IsTokenKind(c.lexed[c.shifted].kind) && IsTerminal(c.lexed[c.shifted].kind)
    ensures c.lexed[c.shifted].kind != SYM_EOF
    ensures IsToken(c.tokens, c.shifted + 1, c.lexed[c.shifted]) && c.lexed[c.shifted].index == c.shifted + 1
  {
    hide StackOk, TokensOk, BodiesOk, AgreesOn, IsEdge, IsDerivation;
    MachineOk(c, parse);
    TokenIn(c.tokens, c.strings, c.lexed, c.texts, c.delims, c.shifted + 1);
    StackBottom(c.stack, c.nodes, c.tokens, c.shadow, false);
  }

  lemma ReduceRan(stack: seq<Frame>, a: Symbol, stack': seq<Frame>, r: int)
    requires IsPath(stack) && IsTerminal(a) && IsState(Top(stack)) && Decide(Top(stack), a) == Automaton.Reduce(r)
    requires IsRule(r) && RhsLen(r) <= |stack| && IsState(Top(Base(stack, r))) && stack' == ReduceStack(stack, r)
    ensures stack' != []
    ensures CompletedOn(stack') == CompletedOn(stack)
      + (if Lhs(r) == SYM_COMPLETE_COMMANDS then [LastList(stack'[|stack'| - 1].tree)] else [])
  {
    hide Decide, IsPath, Goto, RhsLen, Lhs, IsState, CompletedOn, LastList;
    ReduceCompletes(stack, a);
    LastListOfReduced(stack, r);
  }

  lemma ShiftRan(lexed: seq<Token>, stack: seq<Frame>, n: nat, f: Frame)
    requires IsPath(stack) && Agrees(lexed, stack + [f], n + 1) && f.tree.Leaf?
    ensures CompletedOn(stack + [f]) == CompletedOn(stack)
  {
    hide IsPath, AgreesOn, CompletedOn;
    ShiftCompletes(stack, f);
  }

  lemma NoneWaits(c: Ctx)
    requires DelimitersOk(c, false)
    ensures AllServed(c)
  {
    hide StackServed, IsHereCell;
  }

  lemma AgreedParts(lexed: seq<Token>, stack: seq<Frame>, n: nat)
    requires Agrees(lexed, stack, n)
    ensures IsPath(stack) && n <= |lexed| && YieldAll(Trees(stack)) == lexed[..n]
  {
    hide AgreesOn, IsPath;
  }

  /** One step of the automaton on the next token. */
  method StepOnToken(c: Ctx, parse: ParserState) returns (action: LalrAction)
    requires Consistent(c, parse) && DelimitersOk(c, false) && !Waits(parse) && RanComplete(c, parse)
    requires c.shifted < |c.lexed| && parse.tokenIdx == c.shifted + 1 && parse.lookaheadType == c.lexed[c.shifted].kind
    modifies c`stack, c`nodes, c`strings, c`shadow, c`delims, c`shifted
    modifies parse`stackIdx, parse`state, parse`execRootIdx, parse`saveTokens
    ensures Stepped(c, parse) && RanComplete(c, parse) && action != LalrAccept && old(c.delims) <= c.delims
    ensures action == LalrError ==>
      NoProgramStartsWith(c.lexed) && c.shifted == old(c.shifted) && parse.execRootIdx == 0 && AllServed(c)
    ensures action == LalrShift ==> c.shifted == old(c.shifted) + 1 && !parse.saveTokens && parse.execRootIdx == 0
    ensures action == LalrReduce ==>
              c.shifted == old(c.shifted) && Measure(Machine(c)) < old(Measure(Machine(c)))
                && (parse.execRootIdx != 0 ==> !parse.saveTokens)
  {
    hide StackOk, TokensOk, BodiesOk, HereOk, Agrees, IsPath, Decide, DidReduce, CompletedOn, LastList, Measure, Frames,
      IsState, IsToken, IsTerminal,
      RanServed, HereDocsAll, Trees;
    ghost var before, machine, n := ArenasOf(c), Machine(c), c.shifted;
    ghost var token := c.lexed[n];
    DecisionOf(c, parse);
    NoneWaits(c);
    ghost var decision := Decide(parse.state, parse.lookaheadType);
    action := Step(c, parse, token);
    if decision.Error? {
      AgreesRejects(c.lexed, machine, n);
    } else if decision.Shift? {
      AgreesShifts(c.lexed, machine, n);
      HereShifts(before.shadow, c.delims, |c.bodies|, c.lexed, n, c.shadow[|c.shadow| - 1]);
      ShiftRan(c.lexed, machine, n, Frame(decision.state, Leaf(token)));
      ShiftHereDocs(machine, Frame(decision.state, Leaf(token)));
      c.shifted := c.shifted + 1;
    } else {
      ReduceStepped(c, before, machine, decision.rule);
      if decision.rule == 40 {
        RanServedGrows(c.executed, c.delims, n);
        c.delims := c.delims + [n];
      }
    }
  }

  /** The invariant's parts behind a reduction, with the delimiters before it; the lookahead does not matter. */
  ghost predicate LeftBy(c: Ctx, r: int, n: nat, before: seq<nat>)
    requires |c.stack| == |c.shadow| + 1 && c.shadow != []
    reads c`stack, c`shadow, c`tokens, c`strings, c`lexed, c`texts, c`bodies, c`pieces, c`executed
  {
    var delims := if r == 40 then before + [n] else before;
    && TokensOk(c.tokens, c.strings, c.lexed, c.texts, delims)
    && BodiesOk(c.bodies, c.pieces, delims, c.lexed, c.texts)
    && HereOk(c.shadow, delims, |c.bodies|, c.lexed, n, r == 40)
    && delims == HereDocsAll(Trees(Machine(c)))
    && IsRule(r) && (r == 40 ==> Lhs(r) != SYM_COMPLETE_COMMANDS)
    && CompletedOn(Machine(c)) == TreesOf(c.executed)
      + (if Lhs(r) == SYM_COMPLETE_COMMANDS then [LastList(c.shadow[|c.shadow| - 1].tree)] else [])
  }

  /** What a reduction leaves of tokens, bodies and here-documents behind the `n` shifted tokens. */
  lemma ReduceLeaves(c: Ctx, before: Arenas, machine: seq<Frame>, r: int, a: Symbol, n: nat)
    requires |before.stack| == |before.shadow| + 1 && machine == Frames(before.stack, before.shadow)
    requires |c.stack| == |c.shadow| + 1 && c.shadow != [] && IsTerminal(a) && IsState(Top(machine))
    requires DidReduce(before, ArenasOf(c), r) && Decide(Top(machine), a) == Automaton.Reduce(r)
    requires IsPath(machine) && IsPath(Machine(c)) && n <= |c.lexed| && YieldAll(Trees(machine)) == c.lexed[..n]
    requires CompletedOn(machine) == TreesOf(c.executed) && c.delims == HereDocsAll(Trees(machine))
    requires TokensOk(c.tokens, before.strings, c.lexed, c.texts, c.delims)
    requires BodiesOk(c.bodies, c.pieces, c.delims, c.lexed, c.texts)
    requires HereOk(before.shadow, c.delims, |c.bodies|, c.lexed, n, false)
    ensures LeftBy(c, r, n, c.delims)
  {
    hide TokensOk, BodiesOk, HereOk, DidReduce, IsPath, Decide, CompletedOn, LastList, RhsLen, Lhs, IsState,
      IsTerminal, ReduceStack, Base;
    ReducedFrames(before, ArenasOf(c), r);
    ReduceRan(machine, a, Machine(c), r);
    ReduceKeepsRun(before, ArenasOf(c), r, c.tokens, c.delims, c.bodies, c.pieces, c.lexed, c.texts, n);
    HereIsNoCommand();
    ReduceHereDocs(machine, r);
    if r == 40 {
      ReducedWord(before, c.lexed, n);
    }
  }

  /** What a reduction on the next token leaves; the stack still agrees with the tokens. */
  lemma ReduceStepped(c: Ctx, before: Arenas, machine: seq<Frame>, r: int)
    requires |before.stack| == |before.shadow| + 1 && machine == Frames(before.stack, before.shadow)
    requires DidReduce(before, ArenasOf(c), r) && c.shifted < |c.lexed| && IsState(Top(machine))
    requires Agrees(c.lexed, machine, c.shifted) && IsTerminal(c.lexed[c.shifted].kind)
    requires Decide(Top(machine), c.lexed[c.shifted].kind) == Automaton.Reduce(r)
    requires CompletedOn(machine) == TreesOf(c.executed) && c.delims == HereDocsAll(Trees(machine))
    requires TokensOk(c.tokens, before.strings, c.lexed, c.texts, c.delims)
    requires BodiesOk(c.bodies, c.pieces, c.delims, c.lexed, c.texts)
    requires HereOk(before.shadow, c.delims, |c.bodies|, c.lexed, c.shifted, false)
    ensures |c.stack| == |c.shadow| + 1 && c.shadow != [] && Agrees(c.lexed, Machine(c), c.shifted)
    ensures Measure(Machine(c)) < Measure(machine) && LeftBy(c, r, c.shifted, c.delims)
  {
    hide DidReduce, IsPath, Decide, Measure, RhsLen, IsState, IsTerminal, Agrees, ReduceStack, Base, TokensOk, BodiesOk,
      HereOk, CompletedOn, LeftBy, HereDocsAll;
    ReducedFrames(before, ArenasOf(c), r);
    AgreesReduces(c.lexed, machine, c.shifted);
    AgreedParts(c.lexed, machine, c.shifted);
    AgreedParts(c.lexed, Machine(c), c.shifted);
    ReduceLeaves(c, before, machine, r, c.lexed[c.shifted].kind, c.shifted);
  }

  /** The last token of the derivation that is reduced to a here-document is the delimiter. */
  lemma ReducedWord(before: Arenas, lexed: seq<Token>, n: nat)
    requires |before.stack| == |before.shadow| + 1 && RhsLen(40) <= |before.shadow| && 0 < n <= |lexed|
    requires KidsOf(before.shadow, 40).word == lexed[n - 1]
    ensures LastToken(YieldAll(Reduced(Frames(before.stack, before.shadow), 40).kids)) == lexed[n - 1]
  {
    hide RhsLen, YieldAll, LastToken;
    assert Reduced(Frames(before.stack, before.shadow), 40).kids == KidTrees(before.shadow, 40);
  }

  lemma HereIsNoCommand()
    ensures Lhs(40) != SYM_COMPLETE_COMMANDS
  {
  }

  lemma ReducedFrames(before: Arenas, after: Arenas, r: int)
    requires DidReduce(before, after, r)
    ensures |before.stack| == |before.shadow| + 1 && |after.stack| == |after.shadow| + 1 && after.shadow != []
    ensures var machine := Frames(before.stack, before.shadow);
      && IsRule(r) && RhsLen(r) <= |machine| && IsState(Top(Base(machine, r)))
      && Frames(after.stack, after.shadow) == ReduceStack(machine, r)
  {
    hide QuoteRemove, KidsOf, Frames, RhsLen, Goto, Lhs;
  }

  // ---- The driver ------------------------------------------------------------------------

  method ReportParseError(parse: ParserState)
    modifies parse`error
    ensures parse.error
  {
    parse.error := true;
  }

  /** Whether the run goes on after a step. */
  method ParseAdvance(parse: ParserState, action: LalrAction) returns (more: bool)
    modifies parse`hasLookahead, parse`done, parse`error
    ensures more == (action == LalrReduce || action == LalrShift)
    ensures parse.hasLookahead == (action == LalrReduce && old(parse.hasLookahead))
    ensures parse.done == (old(parse.done) || action == LalrAccept)
    ensures parse.error == (old(parse.error) || action == LalrError)
  {
    if action == LalrReduce {
      return true;
    }
    parse.hasLookahead := false;
    if action == LalrShift {
      return true;
    }
    if action == LalrAccept {
      parse.done := true;
      return false;
    }
    ReportParseError(parse);
    more := false;
  }

  /** The invariant between two iterations. */
  ghost predicate Running(c: Ctx, parse: ParserState, lex: LexerState, input: Input, outcomes: nat -> nat -> Status,
                          before: Status)
    reads c, parse, lex
  {
    && RunOk(c, parse, lex, input) && RanComplete(c, parse) && ExecutedOk(c, outcomes, before)
    && !c.fault && !c.adrift && !parse.done && !parse.error
  }

  /** A list was run, and its records are gone: the here-documents below are still served. */
  lemma HereClears(shadow: seq<Shadow>, shadow': seq<Shadow>, delims: seq<nat>, served: nat, lexed: seq<Token>, n: nat)
    requires HereOk(shadow, delims, served, lexed, n, false) && |shadow| == |shadow'| == 2
    requires shadow'[0] == shadow[0] && shadow'[1] == shadow[1].(chain := Nil, lo := 1, hi := 1)
    ensures HereOk(shadow', delims, served, lexed, n, false)
  {
  }

  /** The list on top of the stack, whose records are run, is served. */
  lemma RunIsServed(shadow: seq<Shadow>, ran: seq<Executed>, ran': seq<Executed>, delims: seq<nat>, served: nat,
                    lexed: seq<Token>, n: nat)
    requires HereOk(shadow, delims, served, lexed, n, false) && |shadow| == 2 && RanServed(ran, delims)
    requires ran <= ran' && |ran'| == |ran| + 1 && ran'[|ran|].chain == shadow[1].chain
    ensures RanServed(ran', delims)
  {
    assert delims[..served] == delims;
  }

  /** Runs what the step completed; the invariant between two steps holds again. */
  method RunCompleted(c: Ctx, parse: ParserState, outcomes: nat -> nat -> Status, ghost before: Status)
    requires Stepped(c, parse) && RanComplete(c, parse) && ExecutedOk(c, outcomes, before)
    requires parse.execRootIdx != 0 ==> !Waits(parse)
    modifies c`stack, c`nodes, c`shadow, c`returnStatus, c`shouldExit, c`env, c`ran, c`rounds, c`closed, c`executed
    modifies c`moments, parse`execRootIdx
    ensures Consistent(c, parse) && DelimitersOk(c, Waits(parse)) && RanComplete(c, parse)
    ensures ExecutedOk(c, outcomes, before)
    ensures Machine(c) == old(Machine(c)) && old(c.moments) <= c.moments
  {
    hide TokensOk, BodiesOk, HereOk, Agrees, ParserOk, Machine, CompletedOn, LastList, ExecutedOk, HereDocsAll,
      RanServed;
    ghost var shadow, ran := c.shadow, c.executed;
    CheckAndRunPendingExec(c, parse, outcomes, before);
    if old(parse.execRootIdx) != 0 {
      RunIsServed(shadow, ran, c.executed, c.delims, |c.bodies|, c.lexed, c.shifted);
      HereClears(shadow, c.shadow, c.delims, |c.bodies|, c.lexed, c.shifted);
    }
  }

  lemma FlowSteps(lexed: seq<Token>, n: nat, f: Flow)
    requires FlowOk(lexed, n, f) && f.hasLookahead
    ensures !f.hereBody && n < |lexed| && f.tokenIdx == n + 1 && f.lookahead == lexed[n].kind
    ensures !f.save ==> FlowOk(lexed, n + 1, f.(hasLookahead := false)) && FlowOk(lexed, n, f.(save := true))
  {
  }

  lemma ReadyToStep(c: Ctx, parse: ParserState, lex: LexerState, input: Input, outcomes: nat -> nat -> Status,
                    before: Status)
    requires Running(c, parse, lex, input, outcomes, before) && parse.hasLookahead && !parse.saveTokens
    ensures Consistent(c, parse) && DelimitersOk(c, false) && !Waits(parse) && RanComplete(c, parse)
    ensures ExecutedOk(c, outcomes, before)
    ensures ReadOk(c, lex, input) && !lex.building && !c.fault && !c.adrift && !parse.done && !parse.error
    ensures c.shifted < |c.lexed| && parse.tokenIdx == c.shifted + 1 && parse.lookaheadType == c.lexed[c.shifted].kind
    ensures FlowOk(c.lexed, c.shifted, FlowOf(parse))
    ensures FlowOk(c.lexed, c.shifted + 1, FlowOf(parse).(hasLookahead := false))
    ensures FlowOk(c.lexed, c.shifted, FlowOf(parse).(save := true))
  {
    hide Consistent, DelimitersOk, RanComplete, ExecutedOk, ReadOk, FlowOk;
    FlowSteps(c.lexed, c.shifted, FlowOf(parse));
  }

  lemma ExecutedNow(c: Ctx, outcomes: nat -> nat -> Status, before: Status)
    requires ExecutedOk(c, outcomes, before)
    ensures IsNow(c)
  {
    hide RanAs;
  }

  lemma HistoryOf(c: Ctx, lex: LexerState, input: Input)
    requires ReadOk(c, lex, input)
    ensures HistoryOk(c.readLine, lex.Value(), c.unread, c.lexed, c.pieces, c.texts, |c.bodies|, c.delims, c.moments,
      input)
  {
    hide HistoryOk;
  }

  lemma ReadAgain(c: Ctx, lex: LexerState, input: Input, delims: seq<nat>, moments: seq<Moment>)
    requires HistoryOk(c.readLine, lex.Value(), c.unread, c.lexed, c.pieces, c.texts, |c.bodies|, delims, moments,
      input)
    requires delims <= c.delims && moments <= c.moments && IsNow(c)
    ensures ReadOk(c, lex, input) && SoFar(c, input)
  {
    hide HistoryOk, LineTokens, SoFar;
    HistoryGrows(c.readLine, lex.Value(), c.unread, c.lexed, c.pieces, c.texts, |c.bodies|, delims, moments, input,
      c.delims, c.moments);
    ReadSoFar(c, lex, input);
  }

  lemma RunsOn(c: Ctx, parse: ParserState, lex: LexerState, input: Input, outcomes: nat -> nat -> Status,
               before: Status)
    requires Consistent(c, parse) && DelimitersOk(c, Waits(parse)) && RanComplete(c, parse)
    requires ExecutedOk(c, outcomes, before)
    requires ReadOk(c, lex, input) && !lex.building && !c.fault && !c.adrift && !parse.done && !parse.error
    requires FlowOk(c.lexed, c.shifted, FlowOf(parse))
    ensures Running(c, parse, lex, input, outcomes, before)
  {
    hide Consistent, DelimitersOk, RanComplete, ExecutedOk, ReadOk, FlowOk;
  }

  /** Runs what the step completed; what was read stays as it was. */
  method RunAndRead(c: Ctx, parse: ParserState, lex: LexerState, ghost input: Input, outcomes: nat -> nat -> Status,
                    ghost before: Status,
                    ghost delims: seq<nat>, ghost moments: seq<Moment>)
    requires Stepped(c, parse) && RanComplete(c, parse) && ExecutedOk(c, outcomes, before)
    requires parse.execRootIdx != 0 ==> !Waits(parse)
    requires HistoryOk(c.readLine, lex.Value(), c.unread, c.lexed, c.pieces, c.texts, |c.bodies|, delims, moments,
      input)
    requires delims <= c.delims && moments == c.moments
    modifies c`stack, c`nodes, c`shadow, c`returnStatus, c`shouldExit, c`env, c`ran, c`rounds, c`closed, c`executed
    modifies c`moments
    modifies parse`execRootIdx
    ensures Consistent(c, parse) && DelimitersOk(c, Waits(parse)) && RanComplete(c, parse)
    ensures ExecutedOk(c, outcomes, before)
    ensures Machine(c) == old(Machine(c)) && ReadOk(c, lex, input) && SoFar(c, input)
  {
    hide Consistent, Stepped, DelimitersOk, RanComplete, Machine, ExecutedOk, SoFar, HistoryOk, ReadOk, IsNow;
    RunCompleted(c, parse, outcomes, before);
    ExecutedNow(c, outcomes, before);
    ReadAgain(c, lex, input, delims, moments);
  }

  /** One step on the lookahead, and what it completes; the flags are still those of the step. */
  method TakeStep(c: Ctx, parse: ParserState, lex: LexerState, ghost input: Input, outcomes: nat -> nat -> Status,
                  ghost before: Status) returns (action: LalrAction)
    requires Running(c, parse, lex, input, outcomes, before) && parse.hasLookahead && !parse.saveTokens
    modifies c`stack, c`nodes, c`strings, c`shadow, c`delims, c`shifted, c`returnStatus, c`shouldExit, c`env, c`ran
    modifies c`rounds, c`closed, c`executed, c`moments
    modifies parse`stackIdx, parse`state, parse`execRootIdx, parse`saveTokens
    ensures Consistent(c, parse) && DelimitersOk(c, Waits(parse)) && RanComplete(c, parse)
    ensures ExecutedOk(c, outcomes, before) && ReadOk(c, lex, input) && SoFar(c, input)
    ensures action != LalrAccept
    ensures action == LalrError ==> NoProgramStartsWith(c.lexed) && AllServed(c)
    ensures action == LalrShift ==> c.shifted == old(c.shifted) + 1 <= |c.lexed| && !parse.saveTokens
    ensures action == LalrReduce ==> c.shifted == old(c.shifted) && Measure(Machine(c)) < old(Measure(Machine(c)))
  {
    hide Consistent, Stepped, DelimitersOk, RanComplete, Machine, ExecutedOk, SoFar, FlowOk, Measure,
      NoProgramStartsWith, HistoryOk, LineTokens, Running, ReadOk, IsNow, LexerState.Value;
    ReadyToStep(c, parse, lex, input, outcomes, before);
    ghost var delims, moments := c.delims, c.moments;
    HistoryOf(c, lex, input);
    action := StepOnToken(c, parse);
    RunAndRead(c, parse, lex, input, outcomes, before, delims, moments);
  }

  /** One step on the lookahead, and whether the run goes on. */
  method StepAndRun(c: Ctx, parse: ParserState, lex: LexerState, ghost input: Input, outcomes: nat -> nat -> Status,
                    ghost before: Status) returns (more: bool)
    requires Running(c, parse, lex, input, outcomes, before) && parse.hasLookahead && !parse.saveTokens
    modifies c`stack, c`nodes, c`strings, c`shadow, c`delims, c`shifted, c`returnStatus, c`shouldExit, c`env, c`ran
    modifies c`rounds, c`closed, c`executed, c`moments, parse
    ensures Consistent(c, parse) && RanComplete(c, parse) && ExecutedOk(c, outcomes, before) && !parse.done && !c.fault
    ensures more ==> Running(c, parse, lex, input, outcomes, before) && parse.tokenIdx == old(parse.tokenIdx)
    ensures more ==> c.shifted == old(c.shifted) + 1 <= |c.lexed|
                     || (c.shifted == old(c.shifted) && Measure(Machine(c)) < old(Measure(Machine(c))))
    ensures !more ==> parse.error && NoProgramStartsWith(c.lexed) && SoFar(c, input) && AllServed(c)
    ensures parse.interrupted == old(parse.interrupted)
  {
    hide Consistent, DelimitersOk, RanComplete, Machine, ExecutedOk, SoFar, FlowOk, Measure, NoProgramStartsWith,
      Running, ReadOk, AllServed;
    ReadyToStep(c, parse, lex, input, outcomes, before);
    var action := TakeStep(c, parse, lex, input, outcomes, before);
    more := ParseAdvance(parse, action);
    if more { RunsOn(c, parse, lex, input, outcomes, before); }
  }

  /** How many saved tokens can still be taken before the body is read. */
  function Phase(lexed: seq<Token>, f: Flow): nat {
    if f.hereBody || !f.save || f.tokenIdx > |lexed| then 0
      else |lexed| - f.tokenIdx + (if f.hasLookahead then 2 else 1)
  }

  /** What bounds the rest of the run: input, tokens, reductions, saved tokens. */
  datatype Bound = Bound(left: nat, unshifted: nat, reductions: nat, phase: nat)

  ghost function BoundOf(c: Ctx, parse: ParserState, lex: LexerState): Bound
    reads c, parse, lex
  {
    Bound(Left(c, lex), if c.shifted <= |c.lexed| then |c.lexed| - c.shifted
      else 0, Measure(Machine(c)), Phase(c.lexed, FlowOf(parse)))
  }

  predicate Shrinks(a: Bound, b: Bound) {
    || a.left < b.left
    || (a.left == b.left && a.unshifted < b.unshifted)
    || (a.left == b.left && a.unshifted == b.unshifted && a.reductions < b.reductions)
    || (a.left == b.left && a.unshifted == b.unshifted && a.reductions == b.reductions && a.phase < b.phase)
  }

  lemma FlowDiverts(lexed: seq<Token>, n: nat, f: Flow)
    requires Fetched(lexed, n, f)
    ensures f.tokenIdx <= |lexed| && forall h: bool, a: Symbol ::
      Fetched(lexed, n, f.(hasLookahead := h, lookahead := a))
    ensures !f.save && f.hasLookahead && f.lookahead == lexed[f.tokenIdx - 1].kind ==> FlowOk(lexed, n, f)
  {
  }

  lemma FlowFetched(lexed: seq<Token>, n: nat, f: Flow)
    requires FlowOk(lexed, n, f) && f.hasLookahead
    ensures Fetched(lexed, n, f)
  {
  }

  /** Saves the lookahead behind the waiting here-document, or starts reading its body. */
  method DivertLookahead(c: Ctx, parse: ParserState, lex: LexerState, ghost input: Input) returns (more: bool)
    requires Core(c, parse, lex, input) && !lex.building && Fetched(c.lexed, c.shifted, FlowOf(parse))
    requires parse.saveTokens
    modifies parse`hasLookahead, parse`saveTokens, parse`hasSavedTokens, parse`hereBody
    ensures more && RunOk(c, parse, lex, input)
    ensures Phase(c.lexed, FlowOf(parse)) <= old(|c.lexed| - parse.tokenIdx + 1)
    ensures parse.tokenIdx == old(parse.tokenIdx) && parse.tokenIdx <= |c.lexed|
  {
    hide Consistent, HereOk, ReadOk, FlowOk, Fetched;
    CoreParts(c, parse, lex, input);
    FlowDiverts(c.lexed, c.shifted, FlowOf(parse));
    parse.hasLookahead := false;
    HandleHereDoc(c, parse);
    more := true;
  }

  lemma NothingPending(c: Ctx, parse: ParserState)
    requires Consistent(c, parse)
    ensures parse.execRootIdx == 0
  {
    hide ParserOk, Agrees, TokensOk, BodiesOk;
  }

  /** How the iterations end. */
  ghost predicate Stopped(c: Ctx, parse: ParserState, lex: LexerState, input: Input)
    reads c, parse, lex
  {
    if parse.error then
      NoProgramStartsWith(c.lexed) && SoFar(c, input) && AllServed(c) && !c.fault && !c.adrift && !lex.interrupted
    else if c.fault then NoLineForBody(c) && SoFar(c, input) && !c.adrift && !lex.interrupted
    else if c.adrift then EndedOpen(c, parse, input) && !lex.interrupted
    else if lex.interrupted then AllServed(c) && c.sigint
    else Ended(c, parse, input)
  }

  lemma CoreOfRun(c: Ctx, parse: ParserState, lex: LexerState, input: Input)
    requires RunOk(c, parse, lex, input)
    ensures Core(c, parse, lex, input) && !lex.building && FlowOk(c.lexed, c.shifted, FlowOf(parse))
  {
    hide Core, FlowOk;
  }

  lemma RunOfCore(c: Ctx, parse: ParserState, lex: LexerState, input: Input)
    requires Core(c, parse, lex, input) && !lex.building && FlowOk(c.lexed, c.shifted, FlowOf(parse))
    ensures RunOk(c, parse, lex, input)
  {
    hide Core, FlowOk;
  }

  lemma StopsAtError(c: Ctx, parse: ParserState, lex: LexerState, input: Input)
    requires parse.error && NoProgramStartsWith(c.lexed) && SoFar(c, input) && AllServed(c) && !c.fault && !c.adrift
    requires !lex.interrupted
    ensures Stopped(c, parse, lex, input)
  {
  }

  lemma NoLookahead(c: Ctx, parse: ParserState, lex: LexerState, input: Input)
    requires !parse.error && (c.fault || lex.interrupted || c.adrift || Ended(c, parse, input))
    requires c.fault ==> !lex.interrupted && NoLineForBody(c) && SoFar(c, input)
    requires c.adrift ==> !c.fault && !lex.interrupted && EndedOpen(c, parse, input)
    requires lex.interrupted ==> AllServed(c) && c.sigint
    ensures Stopped(c, parse, lex, input)
  {
    hide Ended, SoFar, EndedInBody;
  }

  /** Saves the lookahead, or steps on it. */
  method DivertOrStep(c: Ctx, parse: ParserState, lex: LexerState, ghost input: Input, outcomes: nat -> nat -> Status,
                      ghost before: Status)
    returns (more: bool)
    requires Core(c, parse, lex, input) && !lex.building && RanComplete(c, parse) && ExecutedOk(c, outcomes, before)
    requires Fetched(c.lexed, c.shifted, FlowOf(parse)) && parse.hasLookahead && !c.fault && !c.adrift
    requires !parse.done && !parse.error
    requires !parse.saveTokens ==> FlowOk(c.lexed, c.shifted, FlowOf(parse))
    modifies c`stack, c`nodes, c`strings, c`shadow, c`delims, c`shifted, c`returnStatus, c`shouldExit, c`env, c`ran
    modifies c`rounds, c`closed, c`executed, c`moments, parse
    ensures Consistent(c, parse) && RanComplete(c, parse) && ExecutedOk(c, outcomes, before) && !parse.done && !c.fault
    ensures if more then Running(c, parse, lex, input, outcomes, before)
            else parse.error && Stopped(c, parse, lex, input)
    ensures more && old(parse.saveTokens) ==>
              c.shifted == old(c.shifted) && Machine(c) == old(Machine(c))
                && Phase(c.lexed, FlowOf(parse)) <= old(|c.lexed| - parse.tokenIdx + 1)
    ensures more && !old(parse.saveTokens) ==>
              || c.shifted == old(c.shifted) + 1 <= |c.lexed|
              || (c.shifted == old(c.shifted) && Measure(Machine(c)) < old(Measure(Machine(c))))
    ensures parse.interrupted == old(parse.interrupted)
  {
    hide Consistent, DelimitersOk, RanComplete, ExecutedOk, ReadOk, FlowOk, Fetched, Measure, NoProgramStartsWith,
      Machine, SoFar,
      Stopped, AllServed, Core, RunOk;
    CoreParts(c, parse, lex, input);
    if parse.saveTokens {
      more := DivertLookahead(c, parse, lex, input);
    } else {
      RunOfCore(c, parse, lex, input);
      more := StepAndRun(c, parse, lex, input, outcomes, before);
      if !more { StopsAtError(c, parse, lex, input); }
    }
  }

  /** The lookahead: the one that is there, or the next token. Without one the iterations end. */
  method TakeLookahead(c: Ctx, parse: ParserState, lex: LexerState, ghost input: Input) returns (ok: bool)
    requires RunOk(c, parse, lex, input) && RanComplete(c, parse) && !c.fault && !c.adrift && !parse.error
    modifies lex, c`tokens, c`strings, c`lexed, c`texts, c`pieces
    modifies c`nodes, c`shadow, c`bodies, c`readLine, c`unread, c`fault, c`adrift
    modifies parse`hereBody, parse`tokenIdx, parse`hasSavedTokens, parse`lookaheadType, parse`hasLookahead
    ensures Consistent(c, parse) && RanComplete(c, parse) && Machine(c) == old(Machine(c))
    ensures !ok ==> Stopped(c, parse, lex, input)
    ensures ok ==> Core(c, parse, lex, input) && !lex.building && !c.fault && !c.adrift && parse.hasLookahead
    ensures ok ==> Fetched(c.lexed, c.shifted, FlowOf(parse))
    ensures ok && !parse.saveTokens ==> FlowOk(c.lexed, c.shifted, FlowOf(parse))
    ensures ok ==> Left(c, lex) < old(Left(c, lex))
                   || (Left(c, lex) == old(Left(c, lex)) && !old(parse.hereBody) && |c.lexed| == |old(c.lexed)|
                     && parse.tokenIdx == old(parse.tokenIdx) + (if old(parse.hasLookahead) then 0 else 1))
  {
    hide Consistent, FlowOk, Fetched, Ended, EndedOpen, Machine, InputLeft, SoFar, EndedInBody, Stopped, AllServed,
      RunOk, Core, Left, CompletedOn, LastList, TreesOf, RanServed, HereDocsAll, Trees;
    CoreOfRun(c, parse, lex, input);
    CoreParts(c, parse, lex, input);
    NothingPending(c, parse);
    if parse.hasLookahead {
      FlowFetched(c.lexed, c.shifted, FlowOf(parse));
      return true;
    }
    ok := GetLookahead(c, parse, lex, input);
    if ok {
      FlowDiverts(c.lexed, c.shifted, FlowOf(parse));
    } else {
      NoLookahead(c, parse, lex, input);
    }
  }

  /** One iteration: the next token if none is there, then a saved token or a step. */
  method RunParseIteration(c: Ctx, parse: ParserState, lex: LexerState, ghost input: Input,
                           outcomes: nat -> nat -> Status, ghost before: Status)
    returns (more: bool)
    requires Running(c, parse, lex, input, outcomes, before)
    modifies c`stack, c`nodes, c`tokens, c`strings, c`readLine, c`unread, c`bodies, c`returnStatus, c`shouldExit, c`env
    modifies c`fault, c`adrift, c`ran, c`rounds
    modifies c`closed, c`shadow, c`lexed, c`texts, c`shifted, c`delims, c`pieces, c`executed, c`moments, parse, lex
    ensures Consistent(c, parse) && RanComplete(c, parse) && ExecutedOk(c, outcomes, before) && !parse.done
    ensures more ==>
      Running(c, parse, lex, input, outcomes, before) && Shrinks(BoundOf(c, parse, lex), old(BoundOf(c, parse, lex)))
    ensures !more ==> Stopped(c, parse, lex, input)
    ensures c.fault || c.adrift ==> !more
    ensures parse.interrupted == old(parse.interrupted)
  {
    hide Consistent, RanComplete, ExecutedOk, FlowOk, Fetched, Measure, Machine, InputLeft, Stopped, Running, RunOk,
      Core;
    RunningParts(c, parse, lex, input, outcomes, before);
    more := TakeLookahead(c, parse, lex, input);
    if more {
      FetchedBounds(c.lexed, c.shifted, FlowOf(parse));
      more := DivertOrStep(c, parse, lex, input, outcomes, before);
    }
  }

  lemma RunningParts(c: Ctx, parse: ParserState, lex: LexerState, input: Input, outcomes: nat -> nat -> Status,
                     before: Status)
    requires Running(c, parse, lex, input, outcomes, before)
    ensures RunOk(c, parse, lex, input) && RanComplete(c, parse) && ExecutedOk(c, outcomes, before)
    ensures !c.fault && !c.adrift && !parse.done && !parse.error
    ensures c.shifted <= |c.lexed| && parse.tokenIdx <= |c.lexed|
  {
    hide Core, RanComplete, ExecutedOk;
  }

  // ---- The end of the input --------------------------------------------------------------

  /** The invariant of the final pass: all tokens are shifted, only EOF is left. */
  ghost predicate AtEnd(c: Ctx, parse: ParserState, input: Input)
    reads c`stack, c`nodes, c`tokens, c`strings, c`shadow, c`lexed, parse`stackIdx, parse`state, parse`execRootIdx
    reads c`texts, c`delims, c`bodies, c`pieces, c`unread, c`readLine, c`moments, parse`saveTokens
  {
    && ParserOk(c, parse) && AgreesAtEnd(c.lexed, Machine(c)) && (LineEnds(c.lexed) || '\n' !in input.line)
    && !parse.saveTokens
    && Read(c, input) && HereOk(c.shadow, c.delims, |c.bodies|, c.lexed, |c.lexed|, false)
  }

  /** Every token and every body is accounted for, and with the gaps they are the whole input. */
  ghost predicate Read(c: Ctx, input: Input)
    reads c`tokens, c`strings, c`lexed, c`texts, c`delims, c`bodies, c`pieces, c`unread, c`readLine, c`moments
  {
    && TokensOk(c.tokens, c.strings, c.lexed, c.texts, c.delims)
    && BodiesOk(c.bodies, c.pieces, c.delims, c.lexed, c.texts)
    && PiecesOk(c.pieces, c.texts, Joined(c.unread), Whole(input))
    && SoFar(c, input) && AllServed(c) && (c.bodies == [] ==> c.lexed == LineTokens(input.line))
  }

  /** Everything of it but when the bodies were read. */
  ghost predicate ReadButTime(c: Ctx, input: Input)
    reads c`tokens, c`strings, c`lexed, c`texts, c`delims, c`bodies, c`pieces, c`unread, c`readLine
  {
    && TokensOk(c.tokens, c.strings, c.lexed, c.texts, c.delims)
    && BodiesOk(c.bodies, c.pieces, c.delims, c.lexed, c.texts)
    && PiecesOk(c.pieces, c.texts, Joined(c.unread), Whole(input))
    && FirstTokens(input, |c.bodies|, c.readLine, c.unread, c.lexed, c.texts, c.pieces)
    && EndOk(c.readLine.None?, c.pieces, c.delims, c.lexed)
    && AllServed(c) && (c.bodies == [] ==> c.lexed == LineTokens(input.line))
  }

  lemma ReadParts(c: Ctx, input: Input)
    requires Read(c, input)
    ensures ReadButTime(c, input) && Timed(c.pieces, c.moments)
  {
    hide TokensOk, BodiesOk, PiecesOk, FirstTokens, EndOk, LineTokens, Timed;
  }

  lemma ReadLater(c: Ctx, input: Input, moments: seq<Moment>)
    requires ReadButTime(c, input) && Timed(c.pieces, moments) && moments <= c.moments
    ensures Read(c, input)
  {
    hide TokensOk, BodiesOk, PiecesOk, FirstTokens, EndOk, LineTokens, Timed;
    TimedGrows(c.pieces, moments, c.pieces, c.moments);
  }

  lemma EndedAtEnd(c: Ctx, parse: ParserState, input: Input)
    requires Ended(c, parse, input)
    ensures AtEnd(c, parse, input) && parse.execRootIdx == 0
  {
    hide ParserOk, TokensOk, BodiesOk, PiecesOk, HereOk, Agrees, AgreesAtEnd, Machine, SoFar, LineTokens, LineEnds;
    NoneWaits(c);
    AgreesEnds(c.lexed, Machine(c));
  }

  /**
   * On a line that does not end in a newline a here-document is left without its body. It is not
   * said of the run how it goes on from there.
   */
  ghost predicate LeftOpen(c: Ctx, input: Input)
    reads c`tokens, c`strings, c`lexed, c`texts, c`delims, c`bodies, c`pieces, c`unread, c`readLine, c`moments
  {
    && TokensOk(c.tokens, c.strings, c.lexed, c.texts, c.delims)
    && BodiesOk(c.bodies, c.pieces, c.delims, c.lexed, c.texts)
    && SoFar(c, input) && '\n' !in input.line && c.bodies == [] && c.delims != [] && !NoLineForBody(c)
    && c.lexed == LineTokens(input.line)
    && |c.delims| <= CountHere(c.lexed) && DelimitersFirst(c.lexed, c.delims)
  }

  /** A here-document is reduced directly behind its delimiter, which is a word. */
  lemma DelimiterBefore(before: Arenas, after: Arenas, lexed: seq<Token>)
    requires DidReduce(before, after, 40) && IsPath(Frames(after.stack, after.shadow))
    requires IsPath(Frames(before.stack, before.shadow))
    requires YieldAll(Trees(Frames(before.stack, before.shadow))) == lexed
      == YieldAll(Trees(Frames(after.stack, after.shadow)))
    ensures !LineEnds(lexed)
  {
    hide QuoteRemove, KidsOf, Goto, IsEdge, ResultShadow, IsDerivation, Lhs, RhsLen, RhsAt, Yield, YieldAll,
      NoHereTokens;
    TopsOfReduce(before, after, 40);
    LastKinds(40);
    var fs := Frames(before.stack, before.shadow);
    assert lexed[..|lexed|] == lexed;
    TopToken(fs, lexed, |lexed|);
    var top := fs[|fs| - 1].tree;
    LastIsDerivation(fs);
    NotATerminal(top);
    DelimiterIsWord(top);
    TopIsHere(after);
    HereIsLexed(Frames(after.stack, after.shadow), lexed, |lexed|);
  }

  lemma TopIsHere(after: Arenas)
    requires |after.stack| == |after.shadow| + 1 && TopRoot(after.shadow) == SYM_IO_HERE
    ensures var fs := Frames(after.stack, after.shadow); fs != [] && Root(fs[|fs| - 1].tree) == SYM_IO_HERE
  {
  }

  lemma NotATerminal(t: Tree)
    requires IsDerivation(t) && Root(t) == SYM_HERE_END
    ensures t.Branch?
  {
  }

  /** What a reduction at the end leaves; one to a here-document has no newline behind it. */
  lemma ReduceAtEnd(c: Ctx, before: Arenas, machine: seq<Frame>, r: int)
    requires |before.stack| == |before.shadow| + 1 && machine == Frames(before.stack, before.shadow)
    requires DidReduce(before, ArenasOf(c), r) && IsState(Top(machine))
    requires Decide(Top(machine), SYM_EOF) == Automaton.Reduce(r) && AgreesAtEnd(c.lexed, machine)
    requires CompletedOn(machine) == TreesOf(c.executed) && c.delims == HereDocsAll(Trees(machine))
    requires TokensOk(c.tokens, before.strings, c.lexed, c.texts, c.delims)
    requires BodiesOk(c.bodies, c.pieces, c.delims, c.lexed, c.texts)
    requires HereOk(before.shadow, c.delims, |c.bodies|, c.lexed, |c.lexed|, false)
    ensures |c.stack| == |c.shadow| + 1 && c.shadow != [] && AgreesAtEnd(c.lexed, Machine(c))
    ensures Measure(Machine(c)) < Measure(machine) && LeftBy(c, r, |c.lexed|, c.delims)
    ensures (r == 40 ==> !LineEnds(c.lexed))
  {
    hide DidReduce, IsPath, Decide, Measure, RhsLen, IsState, ReduceStack, Base, Parse, LineEnds, TokensOk, BodiesOk,
      HereOk, CompletedOn, LeftBy, HereDocsAll, AgreesAtEnd;
    ReducedFrames(before, ArenasOf(c), r);
    EndReduces(c.lexed, machine);
    EndYield(c.lexed, machine);
    EndYield(c.lexed, Machine(c));
    ReduceLeaves(c, before, machine, r, SYM_EOF, |c.lexed|);
    if r == 40 {
      DelimiterBefore(before, ArenasOf(c), c.lexed);
    }
  }

  lemma EndYield(lexed: seq<Token>, stack: seq<Frame>)
    requires AgreesAtEnd(lexed, stack)
    ensures IsPath(stack) && YieldAll(Trees(stack)) == lexed == lexed[..|lexed|]
  {
    hide Parse, IsPath;
    assert lexed[..|lexed|] == lexed;
  }

  /** A here-document that is reduced at the end has no body, and none is read for it. */
  lemma OpensAtEnd(c: Ctx, parse: ParserState, input: Input, delims: seq<nat>)
    requires |c.stack| == |c.shadow| + 1 && c.shadow != [] && AgreesAtEnd(c.lexed, Machine(c))
    requires LeftBy(c, 40, |c.lexed|, delims) && SoFarOf(c, input, delims)
    requires c.delims == delims + [|c.lexed|] && '\n' !in input.line
    requires c.bodies == [] ==> c.lexed == LineTokens(input.line)
    ensures LeftOpen(c, input)
  {
    hide TokensOk, BodyAt, Parse, IsPath, LineTokens, Timed, DelimitersFirst, HereOk, CompletedOn, LastList;
    EndGrows(c.readLine.None?, c.pieces, delims, c.lexed, c.delims);
    EndDelimitersFirst(c.lexed, Machine(c));
    assert c.lexed[..|c.lexed|] == c.lexed;
    StackHereDocs(Machine(c), c.lexed, |c.lexed|);
  }

  ghost predicate SoFarOf(c: Ctx, input: Input, delims: seq<nat>)
    reads c`readLine, c`unread, c`lexed, c`texts, c`pieces, c`bodies, c`moments
  {
    && Timed(c.pieces, c.moments)
    && FirstTokens(input, |c.bodies|, c.readLine, c.unread, c.lexed, c.texts, c.pieces)
    && EndOk(c.readLine.None?, c.pieces, delims, c.lexed)
  }

  /**
   * The program that was accepted: it derives the lexed tokens, its top-level lists were run in
   * order, and its here-documents were read in order, each into the body its record then had.
   */
  ghost predicate Accepted(c: Ctx, t: Tree)
    reads c`lexed, c`executed, c`delims, c`bodies
  {
    && Derives(t, c.lexed)
    && TreesOf(c.executed) == TopLevel(t)
    && c.delims == HereDocs(t) && |c.bodies| == |c.delims| && RanServed(c.executed, c.delims)
  }

  lemma AcceptedIs(c: Ctx, parse: ParserState, input: Input, machine: seq<Frame>)
    requires AtEnd(c, parse, input) && RanComplete(c, parse) && parse.execRootIdx == 0
    requires machine == Machine(c) && IsState(Top(machine)) && Decide(Top(machine), SYM_EOF).Shift?
    ensures |c.shadow| == 1 && Accepted(c, c.shadow[0].tree)
  {
    hide StackOk, TokensOk, BodiesOk, PiecesOk, Agrees, AgreesAtEnd, IsPath, Decide, CompletedOn, LastList, IsState,
      Derives, TreesOf, RanServed, HereDocs;
    StackBottom(c.stack, c.nodes, c.tokens, c.shadow, false);
    EndAccepts(c.lexed, machine);
    OneFrame(c.stack, c.shadow);
    assert Trees(machine) == [c.shadow[0].tree];
    HereDocsSingle(c.shadow[0].tree);
  }

  /** A reduction other than a here-document's keeps the invariant of the final pass. */
  lemma EndStepped(c: Ctx, parse: ParserState, input: Input, r: int)
    requires |c.stack| == |c.shadow| + 1 && c.shadow != [] && LeftBy(c, r, |c.lexed|, c.delims) && r != 40
    requires !parse.saveTokens
    requires ParserOk(c, parse) && AgreesAtEnd(c.lexed, Machine(c)) && (LineEnds(c.lexed) || '\n' !in input.line)
    requires PiecesOk(c.pieces, c.texts, Joined(c.unread), Whole(input)) && SoFar(c, input) && AllServed(c)
    requires c.bodies == [] ==> c.lexed == LineTokens(input.line)
    requires (parse.execRootIdx != 0 <==> Lhs(r) == SYM_COMPLETE_COMMANDS) && RanServed(c.executed, c.delims)
    ensures AtEnd(c, parse, input) && RanComplete(c, parse) && Read(c, input)
  {
    hide ParserOk, AgreesAtEnd, LineEnds, TokensOk, BodiesOk, PiecesOk, HereOk, SoFar, LineTokens, Lhs, HereDocsAll,
      CompletedOn, LastList, RanServed, Machine;
  }

  lemma EndParts(c: Ctx, parse: ParserState, input: Input)
    requires AtEnd(c, parse, input)
    ensures ParserOk(c, parse) && AgreesAtEnd(c.lexed, Machine(c)) && (LineEnds(c.lexed) || '\n' !in input.line)
    ensures !parse.saveTokens && Read(c, input) && SoFarOf(c, input, c.delims)
    ensures HereOk(c.shadow, c.delims, |c.bodies|, c.lexed, |c.lexed|, false)
  {
    hide ParserOk, AgreesAtEnd, Machine, LineEnds, TokensOk, BodiesOk, PiecesOk, LineTokens, HereOk, Timed, FirstTokens,
      EndOk;
  }

  /**
   * One step on EOF. If it reduces a here-document, whose delimiter is then the last token of all,
   * no body is read for it; the model does not go on there.
   */
  method StepAtEnd(c: Ctx, parse: ParserState, ghost input: Input) returns (action: LalrAction)
    requires AtEnd(c, parse, input) && RanComplete(c, parse) && parse.execRootIdx == 0 && parse.lookaheadType == SYM_EOF
    modifies c`stack, c`nodes, c`strings, c`shadow, c`delims
    modifies parse`stackIdx, parse`state, parse`execRootIdx, parse`saveTokens
    ensures action != LalrShift && c.nodes != [] && c.nodes[0] == SENTINEL
    ensures if parse.saveTokens then action == LalrReduce && parse.execRootIdx == 0 && LeftOpen(c, input)
            else RanComplete(c, parse) && Read(c, input)
    ensures action == LalrReduce && !parse.saveTokens ==>
              AtEnd(c, parse, input) && Measure(Machine(c)) < old(Measure(Machine(c)))
    ensures action == LalrError ==> parse.execRootIdx == 0 && forall t: Tree :: !Derives(t, c.lexed)
    ensures action == LalrAccept ==> parse.execRootIdx == 0 && |c.shadow| == 1 && Accepted(c, c.shadow[0].tree)
  {
    hide StackOk, TokensOk, BodiesOk, PiecesOk, HereOk, AgreesAtEnd, IsPath, Decide, DidReduce, CompletedOn, LastList,
      Measure, Frames, IsState, Derives, Accepted, RanServed, HereDocsAll, Trees, TreesOf, LineTokens,
      AllServed, LineEnds, Lhs, IsRule, LeftOpen, SoFar, LeftBy, AtEnd, SoFarOf;
    EndParts(c, parse, input);
    MachineOk(c, parse);
    StackBottom(c.stack, c.nodes, c.tokens, c.shadow, false);
    ghost var before, machine, delims := ArenasOf(c), Machine(c), c.delims;
    ghost var decision := Decide(parse.state, SYM_EOF);
    if decision.Shift? { AcceptedIs(c, parse, input, machine); }
    action := Step(c, parse, LastToken([]));
    if decision.Error? {
      EndRejects(c.lexed, machine);
    } else if decision.Shift? {
    } else {
      ReduceAtEnd(c, before, machine, decision.rule);
      NodesStart(c, parse);
      if decision.rule == 40 {
        c.delims := c.delims + [|c.lexed|];
        HereIsNoCommand();
        OpensAtEnd(c, parse, input, delims);
      } else {
        EndStepped(c, parse, input, decision.rule);
      }
    }
  }

  lemma OneFrame(stack: seq<Entry>, shadow: seq<Shadow>)
    requires |stack| == |shadow| + 1 && |Frames(stack, shadow)| == 1
    ensures |shadow| == 1 && CompletedOn(Frames(stack, shadow)) == TopLevel(shadow[0].tree)
    ensures Frames(stack, shadow)[0].tree == shadow[0].tree
  {
    hide TopLevel;
  }

  lemma NodesStart(c: Ctx, parse: ParserState)
    requires ParserOk(c, parse)
    ensures c.nodes != [] && c.nodes[0] == SENTINEL
  {
    StackBottom(c.stack, c.nodes, c.tokens, c.shadow, parse.execRootIdx != 0);
  }

  /**
   * Reduces what is left, running what it completes, until EOF is accepted or is an error, or a
   * here-document is left without its body.
   */
  method FinalPass(c: Ctx, parse: ParserState, ghost input: Input, outcomes: nat -> nat -> Status, ghost before: Status)
    requires AtEnd(c, parse, input) && RanComplete(c, parse) && ExecutedOk(c, outcomes, before) && !c.adrift
    requires parse.execRootIdx == 0 && parse.lookaheadType == SYM_EOF && !parse.done && !parse.error
    modifies c`stack, c`nodes, c`strings, c`shadow, c`returnStatus, c`shouldExit, c`env, c`ran, c`rounds, c`closed
    modifies c`executed, c`moments, c`delims, c`adrift
    modifies parse`stackIdx, parse`state, parse`execRootIdx, parse`saveTokens, parse`done, parse`error
    ensures ExecutedOk(c, outcomes, before) && c.nodes != [] && c.nodes[0] == SENTINEL
    ensures if c.adrift then LeftOpen(c, input) && !parse.done && !parse.error
            else Read(c, input) && parse.error == !parse.done
    ensures parse.error ==> forall t: Tree :: !Derives(t, c.lexed)
    ensures parse.done ==> |c.shadow| == 1 && Accepted(c, c.shadow[0].tree)
  {
    hide AtEnd, Read, RanComplete, Machine, ExecutedOk, Measure, Derives, Accepted, LeftOpen;
    while true
      invariant AtEnd(c, parse, input) && RanComplete(c, parse) && ExecutedOk(c, outcomes, before) && !c.adrift
      invariant parse.execRootIdx == 0 && parse.lookaheadType == SYM_EOF && !parse.done && !parse.error
      decreases Measure(Machine(c))
    {
      var action := StepAtEnd(c, parse, input);
      if parse.saveTokens {
        c.adrift := true;
        return;
      }
      if action == LalrReduce {
        RunAtEnd(c, parse, input, outcomes, before);
      }
      if action == LalrAccept {
        parse.done := true;
        return;
      }
      if action == LalrError {
        ReportParseError(parse);
        return;
      }
    }
  }

  /** Runs what a step at the end completed. */
  method RunAtEnd(c: Ctx, parse: ParserState, ghost input: Input, outcomes: nat -> nat -> Status, ghost before: Status)
    requires AtEnd(c, parse, input) && RanComplete(c, parse) && ExecutedOk(c, outcomes, before)
    modifies c`stack, c`nodes, c`shadow, c`returnStatus, c`shouldExit, c`env, c`ran, c`rounds, c`closed, c`executed
    modifies c`moments, parse`execRootIdx
    ensures AtEnd(c, parse, input) && RanComplete(c, parse) && ExecutedOk(c, outcomes, before) && parse.execRootIdx == 0
    ensures Machine(c) == old(Machine(c))
  {
    hide Read, ReadButTime, Timed, HereOk, AgreesAtEnd, ParserOk, Machine, CompletedOn, LastList, ExecutedOk,
      HereDocsAll, RanServed;
    ghost var shadow, ran := c.shadow, c.executed;
    ghost var moments := c.moments;
    ReadParts(c, input);
    CheckAndRunPendingExec(c, parse, outcomes, before);
    ReadLater(c, input, moments);
    if old(parse.execRootIdx) != 0 {
      RunIsServed(shadow, ran, c.executed, c.delims, |c.bodies|, c.lexed, |c.lexed|);
      HereClears(shadow, c.shadow, c.delims, |c.bodies|, c.lexed, |c.lexed|);
    }
  }

  // ---- The whole run ---------------------------------------------------------------------

  method ClearArenas(c: Ctx)
    modifies c`stack, c`nodes, c`tokens, c`strings, c`shadow
    ensures c.stack == [BOTTOM] && c.nodes == [SENTINEL] && c.tokens == [NO_TOKEN_RECORD] && c.strings == [""]
    ensures c.shadow == []
  {
    c.stack, c.nodes, c.tokens, c.strings, c.shadow := [BOTTOM], [SENTINEL], [NO_TOKEN_RECORD], [""], [];
  }

  /** The logs of a run start empty. */
  method ClearLogs(c: Ctx)
    modifies c`bodies, c`fault, c`adrift, c`ran, c`rounds, c`closed, c`lexed, c`texts, c`shifted, c`delims, c`pieces
    modifies c`executed, c`moments, c`startEnv
    ensures c.moments == [Moment(c.env, c.returnStatus)] && c.startEnv == c.env
    ensures c.bodies == [] && !c.fault && !c.adrift && c.ran == [] && c.rounds == 0 && c.closed == []
    ensures c.lexed == [] && c.texts == [] && c.shifted == 0 && c.delims == [] && c.pieces == [] && c.executed == []
  {
    c.bodies, c.fault, c.adrift, c.ran, c.rounds, c.closed := [], false, false, [], 0, [];
    c.lexed, c.texts, c.shifted, c.delims, c.pieces, c.executed := [], [], 0, [], [], [];
    c.moments, c.startEnv := [Moment(c.env, c.returnStatus)], c.env;
  }

  /** The invariant holds at the start. */
  lemma Starts(c: Ctx, parse: ParserState, lex: LexerState, input: Input, outcomes: nat -> nat -> Status)
    requires c.stack == [BOTTOM] && c.nodes == [SENTINEL] && c.tokens == [NO_TOKEN_RECORD] && c.strings == [""]
    requires c.bodies == [] && !c.fault && !c.adrift && c.ran == [] && c.rounds == 0
    requires c.moments == [Moment(c.env, c.returnStatus)] && c.startEnv == c.env
    requires c.shadow == [] && c.lexed == [] && c.texts == [] && c.shifted == 0 && c.delims == [] && c.pieces == []
    requires c.executed == []
    requires c.readLine == Some(input.line) && c.unread == input.unread && IsComplete(input.line)
    requires AreLines(input.unread)
    requires parse.stackIdx == parse.tokenIdx == parse.execRootIdx == 0 && parse.state == 0 && !parse.done
    requires !parse.error
    requires !parse.saveTokens && !parse.hereBody && !parse.hasSavedTokens && !parse.hasLookahead
    requires lex.Value() == Lexer.ZEROED
    ensures Running(c, parse, lex, input, outcomes, Status(c.returnStatus, c.shouldExit))
  {
    hide Parse, AgreesOn, LineTokens, LineTexts, FirstLineOk;
    AgreesAtStart();
    HereStarts();
    assert Machine(c) == [];
    assert Unpieced(c.readLine, lex.Value(), c.unread) == Whole(input);
    FirstLineStarts(input);
    assert TreesOf([]) == [] && Trees([]) == [];
    assert BodyPieces([]) == [];
  }

  /**
   * The iterations end: the input left, the tokens to shift, the reductions and the tokens to
   * save bound them.
   */
  method RunLoop(c: Ctx, parse: ParserState, lex: LexerState, ghost input: Input, outcomes: nat -> nat -> Status,
                 ghost before: Status)
    requires Running(c, parse, lex, input, outcomes, before)
    modifies c`stack, c`nodes, c`tokens, c`strings, c`readLine, c`unread, c`bodies, c`returnStatus, c`shouldExit, c`env
    modifies c`fault, c`adrift, c`ran, c`rounds
    modifies c`closed, c`shadow, c`lexed, c`texts, c`shifted, c`delims, c`pieces, c`executed, c`moments, parse, lex
    ensures Consistent(c, parse) && RanComplete(c, parse) && ExecutedOk(c, outcomes, before) && !parse.done
    ensures Stopped(c, parse, lex, input) && parse.interrupted == old(parse.interrupted)
  {
    hide Running, Consistent, ExecutedOk, RanComplete, NoProgramStartsWith, Ended, Left, Measure, Machine, Phase;
    var more := true;
    while more
      invariant more ==> Running(c, parse, lex, input, outcomes, before)
      invariant !more ==>
        Consistent(c, parse) && RanComplete(c, parse) && ExecutedOk(c, outcomes, before) && !parse.done
          && Stopped(c, parse, lex, input)
      invariant parse.interrupted == old(parse.interrupted)
      decreases more, BoundOf(c, parse, lex).left, BoundOf(c, parse, lex).unshifted, BoundOf(c, parse, lex).reductions,
        BoundOf(c, parse, lex).phase
    {
      more := RunParseIteration(c, parse, lex, input, outcomes, before);
    }
  }

  /** The input was read to its end, and all of it is tokens, gaps and bodies. */
  ghost predicate ReadToEnd(c: Ctx, input: Input)
    reads c`lexed, c`texts, c`bodies, c`pieces, c`unread
  {
    PiecesOk(c.pieces, c.texts, Joined(c.unread), Whole(input))
      && (c.bodies == [] ==> c.lexed == LineTokens(input.line))
  }

  /**
   * The result of a run. An accepted program was read to the end of its input; a rejected input
   * was read to its end and is no program, or already starts like none. A null line is read from
   * if and only if the input ended in a body while another one was to be read for the same line.
   * A here-document is left without its body if and only if its line does not end in a newline.
   * In both cases the delimiters so far are the first ones of the program that was lexed, if it is one.
   */
  ghost predicate Result(c: Ctx, parse: ParserState, input: Input, outcomes: nat -> nat -> Status, before: Status)
    reads c`tokens, c`strings, c`lexed, c`texts, c`delims, c`bodies, c`pieces, c`readLine, c`unread, c`sigint
    reads c`executed, c`rounds, c`ran, c`returnStatus, c`shouldExit, c`moments, c`startEnv, c`env, c`envs
    reads c`fault, c`adrift, parse`done, parse`error, parse`interrupted
  {
    && TokensOk(c.tokens, c.strings, c.lexed, c.texts, c.delims)
    && BodiesOk(c.bodies, c.pieces, c.delims, c.lexed, c.texts)
    && ExecutedOk(c, outcomes, before)
    && (!c.fault && !c.adrift && !parse.interrupted ==> parse.error == !parse.done)
    && (c.fault <==> NoLineForBody(c))
    && (c.adrift <==> !parse.interrupted && !EndsInNewline(input.line) && c.delims != [])
    && (c.fault || c.adrift ==>
          && !parse.error && !parse.done && !parse.interrupted
          && |c.delims| <= CountHere(c.lexed) && DelimitersFirst(c.lexed, c.delims))
    && (c.adrift ==> c.lexed == LineTokens(input.line))
    && (if parse.interrupted then c.sigint else SoFar(c, input))
    && (parse.error ==>
          NoProgramStartsWith(c.lexed) || (ReadToEnd(c, input) && forall t: Tree :: !Derives(t, c.lexed)))
    && (parse.done ==> ReadToEnd(c, input) && exists t: Tree :: Accepted(c, t))
  }

  lemma ConsistentParts(c: Ctx, parse: ParserState)
    requires Consistent(c, parse)
    ensures TokensOk(c.tokens, c.strings, c.lexed, c.texts, c.delims)
    ensures BodiesOk(c.bodies, c.pieces, c.delims, c.lexed, c.texts)
    ensures c.nodes != [] && c.nodes[0] == SENTINEL
  {
    hide TokensOk, BodiesOk, Agrees, ParserOk;
    NodesStart(c, parse);
  }

  /** Where every delimiter has its body, none waits for one, and its line ended in a newline. */
  lemma NoneLeft(c: Ctx, input: Input)
    requires BodiesOk(c.bodies, c.pieces, c.delims, c.lexed, c.texts) && AllServed(c)
    ensures !NoLineForBody(c)
    ensures SoFar(c, input) && !EndsInNewline(input.line) ==> c.delims == []
  {
    hide BodyAt, LineTokens;
  }

  /** The run has stopped in one of its ways, and no null line was read from. */
  lemma Finishes(c: Ctx, parse: ParserState, input: Input, outcomes: nat -> nat -> Status, before: Status)
    requires TokensOk(c.tokens, c.strings, c.lexed, c.texts, c.delims) && ExecutedOk(c, outcomes, before)
    requires BodiesOk(c.bodies, c.pieces, c.delims, c.lexed, c.texts) && !c.fault
    requires if c.adrift then LeftOpen(c, input) && !parse.done && !parse.error && !parse.interrupted
             else if parse.interrupted then AllServed(c) && c.sigint && !parse.done && !parse.error
             else if parse.done then !parse.error && Read(c, input) && exists t: Tree :: Accepted(c, t)
             else parse.error
    requires parse.error ==>
               || (Read(c, input) && forall t: Tree :: !Derives(t, c.lexed))
               || (NoProgramStartsWith(c.lexed) && SoFar(c, input) && AllServed(c))
    ensures Result(c, parse, input, outcomes, before)
  {
    hide TokensOk, BodiesOk, PiecesOk, ExecutedOk, Derives, Accepted, NoProgramStartsWith, SoFar, DelimitersFirst,
      LineTokens, EndedInBody;
    if !c.adrift { NoneLeft(c, input); }
  }

  /** After the iterations: the final pass on EOF, unless the run has already stopped. */
  method FinishRun(c: Ctx, parse: ParserState, lex: LexerState, ghost input: Input, outcomes: nat -> nat -> Status,
                   ghost before: Status)
    requires Consistent(c, parse) && RanComplete(c, parse) && ExecutedOk(c, outcomes, before) && !parse.done
    requires !parse.interrupted
    requires Stopped(c, parse, lex, input) && !c.fault && !c.adrift
    modifies c`stack, c`nodes, c`strings, c`shadow, c`returnStatus, c`shouldExit, c`env, c`ran, c`rounds, c`closed
    modifies c`executed, c`moments, c`delims, c`adrift, parse
    ensures Result(c, parse, input, outcomes, before) && parse.interrupted == lex.interrupted
  {
    hide Consistent, TokensOk, BodiesOk, ExecutedOk, Ended, AtEnd, RanComplete, Derives, Accepted, LeftOpen,
      NoProgramStartsWith, SoFar, Read, Result, AllServed;
    ConsistentParts(c, parse);
    parse.interrupted := lex.interrupted;
    if !parse.error && !parse.done && !parse.interrupted {
      EndedAtEnd(c, parse, input);
      parse.lookaheadType := SYM_EOF;
      FinalPass(c, parse, input, outcomes, before);
      PassParts(c, input);
    }
    Finishes(c, parse, input, outcomes, before);
    if parse.error || parse.interrupted {
      CloseHeredocFds(c);
    }
  }

  lemma PassParts(c: Ctx, input: Input)
    requires if c.adrift then LeftOpen(c, input) else Read(c, input)
    ensures TokensOk(c.tokens, c.strings, c.lexed, c.texts, c.delims)
    ensures BodiesOk(c.bodies, c.pieces, c.delims, c.lexed, c.texts)
  {
    hide TokensOk, BodiesOk, PiecesOk, SoFar, LineTokens, DelimitersFirst;
  }

  /** Clears the arenas for a run. */
  method StartRun(c: Ctx, parse: ParserState, lex: LexerState, ghost input: Input, outcomes: nat -> nat -> Status)
    requires c.readLine == Some(input.line) && c.unread == input.unread && IsComplete(input.line)
    requires AreLines(input.unread)
    requires parse.stackIdx == parse.tokenIdx == parse.execRootIdx == 0 && parse.state == 0 && !parse.done
    requires !parse.error
    requires !parse.saveTokens && !parse.hereBody && !parse.hasSavedTokens && !parse.hasLookahead
    requires lex.Value() == Lexer.ZEROED
    modifies c`stack, c`nodes, c`tokens, c`strings, c`shadow, c`bodies, c`fault, c`adrift, c`ran, c`rounds, c`closed
    modifies c`lexed, c`texts
    modifies c`shifted, c`delims, c`pieces, c`executed, c`moments, c`startEnv
    ensures Running(c, parse, lex, input, outcomes, Status(c.returnStatus, c.shouldExit)) && c.startEnv == c.env
  {
    hide Running, IsComplete, AreLines;
    ClearArenas(c);
    ClearLogs(c);
    Starts(c, parse, lex, input, outcomes);
  }

  /** Parses one line and the here-documents it asks for, running each of its lists on the way. */
  method ParseInput(c: Ctx, outcomes: nat -> nat -> Status) returns (parse: ParserState)
    requires c.readLine.Some? && IsComplete(c.readLine.value) && AreLines(c.unread)
    modifies c
    ensures Result(c, parse, old(Input(c.readLine.value, c.unread)), outcomes,
      old(Status(c.returnStatus, c.shouldExit)))
    ensures c.sigint == old(c.sigint) && c.startEnv == old(c.env) && c.envs == old(c.envs)
  {
    hide Running, Result, Consistent, ExecutedOk, RanComplete, Stopped, IsComplete, AreLines;
    ghost var input := Input(c.readLine.value, c.unread);
    ghost var before := Status(c.returnStatus, c.shouldExit);
    parse := new ParserState();
    var lex := new LexerState();
    StartRun(c, parse, lex, input, outcomes);
    RunLoop(c, parse, lex, input, outcomes, before);
    if c.fault || c.adrift {
      StoppedShort(c, parse, lex, input, outcomes, before);
      return;
    }
    FinishRun(c, parse, lex, input, outcomes, before);
  }

  /** Where the C program would read through a null line, or past the end of one, nothing more is done. */
  lemma StoppedShort(c: Ctx, parse: ParserState, lex: LexerState, input: Input, outcomes: nat -> nat -> Status,
                     before: Status)
    requires Consistent(c, parse) && RanComplete(c, parse) && ExecutedOk(c, outcomes, before) && !parse.done
    requires (c.fault || c.adrift) && Stopped(c, parse, lex, input) && !parse.interrupted
    ensures Result(c, parse, input, outcomes, before)
  {
    hide ExecutedOk, NoProgramStartsWith, TokensOk, BodyAt, PiecesOk, Derives, Accepted, LineTokens, LineTexts, Timed,
      CompletedOn, StackOk, AgreesOn, DelimitersFirst, StackServed, IsHereCell;
    ConsistentParts(c, parse);
    MachineOk(c, parse);
    StackHereDocs(Machine(c), c.lexed, c.shifted);
    StackDelimitersFirst(c.lexed, Machine(c), c.shifted);
  }
}
