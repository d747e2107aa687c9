// The automaton step on the arenas: stack operations, handler dispatch, reduce and shift. Each
// step keeps the parser's invariant and does on the arenas what the machine does on values.

module ShiftReduce {
  import opened Grammar
  import opened ParseTables
  import opened Automaton
  import opened Derivations
  import opened LrMachine
  import LrParser
  import opened NodeArena
  import opened Syntax
  import opened Reductions
  import opened QuoteRemoval
  import opened Context
  import opened NodeOps
  import opened Handlers
  import opened ParserInvariant

  datatype LalrAction = LalrShift | LalrReduce | LalrAccept | LalrError

  /** The parser's invariant between two steps, and between a step and the run it triggers. */
  ghost predicate ParserOk(c: Ctx, parse: ParserState)
    reads c`stack, c`nodes, c`tokens, c`strings, c`shadow, parse`stackIdx, parse`state, parse`execRootIdx
  {
    && StackOk(c.stack, c.nodes, c.tokens, c.shadow, parse.execRootIdx != 0)
    && |c.stack| == |c.shadow| + 1 && parse.stackIdx == |c.shadow|
    && parse.state == c.stack[parse.stackIdx].state
    && (parse.execRootIdx != 0 ==>
      && c.shadow != [] && Root(c.shadow[|c.shadow| - 1].tree) == SYM_COMPLETE_COMMANDS
      && parse.execRootIdx == c.stack[parse.stackIdx].node)
    && forall i :: 0 <= i < |c.tokens| ==> c.tokens[i].offset < |c.strings|
  }

  /** The machine's stack. */
  ghost function Machine(c: Ctx): seq<Frame>
    reads c`stack, c`shadow
  {
    if |c.stack| == |c.shadow| + 1 then Frames(c.stack, c.shadow) else []
  }

  lemma MachineOk(c: Ctx, parse: ParserState)
    requires ParserOk(c, parse)
    ensures IsPath(Machine(c)) && Top(Machine(c)) == parse.state && IsState(parse.state)
  {
    hide IsPath, EntryOk, StackOk;
    StackBottom(c.stack, c.nodes, c.tokens, c.shadow, parse.execRootIdx != 0);
    PathTop(Machine(c));
  }

  // ---- Stack operations ------------------------------------------------------------------

  method PushSymbol(c: Ctx, parse: ParserState, src: Entry, ghost s: Shadow)
    modifies c`stack, c`shadow, parse`stackIdx
    ensures c.stack == old(c.stack) + [src.(state := parse.state)] && c.shadow == old(c.shadow) + [s]
    ensures parse.stackIdx == |old(c.stack)|
  {
    parse.stackIdx := |c.stack|;
    c.stack := c.stack + [src.(state := parse.state)];
    c.shadow := c.shadow + [s];
  }

  /** Pops never pass the sentinel. */
  method PopSymbols(c: Ctx, parse: ParserState, len: nat)
    requires |c.stack| == |c.shadow| + 1 && parse.stackIdx == |c.shadow| && len <= |c.shadow|
    modifies c`stack, c`shadow, parse`stackIdx, parse`state
    ensures c.stack == old(c.stack)[..|old(c.stack)| - len] && c.shadow == old(c.shadow)[..|old(c.shadow)| - len]
    ensures parse.stackIdx == |c.shadow| && parse.state == c.stack[parse.stackIdx].state
  {
    parse.stackIdx := parse.stackIdx - len;
    c.stack := c.stack[..|c.stack| - len];
    c.shadow := c.shadow[..|c.shadow| - len];
    parse.state := c.stack[parse.stackIdx].state;
  }

  method ReduceApplyGoto(parse: ParserState, rule: Rule)
    requires IsState(parse.state) && IsNonterminal(rule.lhsType)
    modifies parse`state
    ensures parse.state == Goto(old(parse.state), rule.lhsType)
  {
    var lhs := rule.lhsType - NTERM_OFFSET;
    var index := YyPgoto(lhs) + parse.state;
    if 0 <= index && index <= YYLAST && YyCheck(index) == parse.state {
      parse.state := YyTable(index);
    } else {
      parse.state := YyDefgoto(lhs);
    }
  }

  // ---- Reduce ----------------------------------------------------------------------------

  /** Runs the rule's handler, or passes on the first symbol's node. */
  method ReduceComputeResult(c: Ctx, parse: ParserState, rule: Rule, ghost r: int, ghost k: Kids)
    returns (nodeIdx: nat, tokenIdx: nat)
    requires IsRule(r) && r != 1 && rule == GetRule(r) && RhsReady(c.stack, c.nodes, c.tokens, r, k)
    requires TakesWord(r) ==> k.word.offset < |c.strings|
    modifies c`nodes, c`strings, parse`saveTokens
    ensures HandlerDone(old(c.nodes), c.nodes, r, k, nodeIdx)
    ensures tokenIdx == if rule.rhsLen == 0 then parse.tokenIdx else c.stack[|c.stack| - 1].token
    ensures parse.saveTokens == (old(parse.saveTokens) || r == 40)
    ensures c.strings == if r == 40 then old(c.strings)[k.word.offset := QuoteRemove(old(c.strings)[k.word.offset])]
      else old(c.strings)
  {
    hide RhsReady, HandlerDone, CellsFit;
    HandlerRules(r);
    if rule.rhsLen == 0 {
      nodeIdx := 0;
      tokenIdx := parse.tokenIdx;
      PassedOn(c.stack, c.nodes, c.tokens, r, k);
      return;
    }
    StackReaches(c.stack, c.nodes, c.tokens, r, k);
    match rule.handler {
      case NoHandler =>
        nodeIdx := RhsEntry(c.stack, rule.rhsLen, 0).node;
        PassedOn(c.stack, c.nodes, c.tokens, r, k);
      case HandleProgram => nodeIdx := ReduceProgram(c, rule, r, k);
      case HandleListAppend => nodeIdx := ReduceListAppend(c, rule, r, k);
      case HandleAndOrConditional => nodeIdx := ReduceAndOrConditional(c, rule, r, k);
      case HandlePipelineCreate => nodeIdx := ReducePipelineCreate(c, rule, r, k);
      case HandlePipelineAppend => nodeIdx := ReducePipelineAppend(c, rule, r, k);
      case HandleSubshellRedirects => nodeIdx := ReduceSubshellRedirects(c, rule, r, k);
      case HandleSubshell => nodeIdx := ReduceSubshell(c, rule, r, k);
      case HandleCompoundList => nodeIdx := ReduceCompoundList(c, rule, r, k);
      case HandleSimpleCommandFromSuffix => nodeIdx := ReduceSimpleCommandFromSuffix(c, rule, r, k);
      case HandleSimpleCommand => nodeIdx := ReduceSimpleCommand(c, rule, r, k);
      case HandleFromTerm =>
        FromTermDone(c.stack, c.nodes, c.tokens, r, k);
        WordOnTop(c.stack, c.nodes, c.tokens, r, k);
        nodeIdx := ReduceFromTerm(c, rule, k.word);
      case HandleRedirAppend => nodeIdx := ReduceRedirAppend(c, rule, r, k);
      case HandleCmdSuffix => nodeIdx := ReduceCmdSuffix(c, rule, r, k);
      case HandleIoFile => nodeIdx := ReduceIoFile(c, rule, r, k);
      case HandleIoHere => nodeIdx := ReduceIoHere(c, parse, rule, r, k);
    }
    tokenIdx := RhsEntry(c.stack, rule.rhsLen, rule.rhsLen - 1).token;
  }

  lemma HandlerRules(r: int)
    requires IsRule(r) && r != 1
    ensures GetRule(r).rhsLen == RhsLen(r) && GetRule(r).lhsType == Lhs(r)
    ensures match GetRule(r).handler
      case NoHandler => r == 3 || r == 5 || r == 6 || r == 11 || r == 12 || r == 18 || r == 26 || r == 32 || r == 34
        || r == 35 || 41 <= r
      case HandleProgram => r == 2
      case HandleListAppend => r == 4 || r == 17
      case HandleAndOrConditional => r == 7 || r == 8
      case HandlePipelineCreate => r == 9
      case HandlePipelineAppend => r == 10
      case HandleSubshellRedirects => r == 13
      case HandleSubshell => r == 14
      case HandleCompoundList => r == 15 || r == 16
      case HandleSimpleCommandFromSuffix => r == 19 || r == 22
      case HandleSimpleCommand => r == 20 || r == 21 || r == 23
      case HandleFromTerm => r == 24 || r == 25 || r == 39
      case HandleRedirAppend => r == 27 || r == 33
      case HandleCmdSuffix => 28 <= r <= 31
      case HandleIoFile => 36 <= r <= 38
      case HandleIoHere => r == 40
  {
  }

  /** Without a handler the first symbol's chain is the result. */
  lemma PassedOn(stack: seq<Entry>, nodes: seq<Node>, tokens: seq<TokenRecord>, r: int, k: Kids)
    requires RhsReady(stack, nodes, tokens, r, k) && GetRule(r).handler.NoHandler? && r != 1
    ensures RhsLen(r) == 0 ==> HandlerDone(nodes, nodes, r, k, 0)
    ensures RhsLen(r) > 0 ==>
      RhsLen(r) <= |stack| && HandlerDone(nodes, nodes, r, k, RhsEntry(stack, RhsLen(r), 0).node)
  {
    HandlerRules(r);
  }

  lemma StackReaches(stack: seq<Entry>, nodes: seq<Node>, tokens: seq<TokenRecord>, r: int, k: Kids)
    requires RhsReady(stack, nodes, tokens, r, k)
    ensures RhsLen(r) < |stack| && nodes != []
  {
  }

  lemma WordOnTop(stack: seq<Entry>, nodes: seq<Node>, tokens: seq<TokenRecord>, r: int, k: Kids)
    requires RhsReady(stack, nodes, tokens, r, k) && TakesWord(r)
    ensures 0 < RhsLen(r) < |stack| && IsToken(tokens, RhsEntry(stack, RhsLen(r), RhsLen(r) - 1).token, k.word)
  {
  }

  /** Only complete commands leave something to run. */
  method GetExecRoot(c: Ctx, rule: Rule) returns (idx: nat)
    requires rule.lhsType == SYM_COMPLETE_COMMANDS ==> 0 < rule.rhsLen <= |c.stack|
    ensures idx == if rule.lhsType != SYM_COMPLETE_COMMANDS then 0
      else RhsEntry(c.stack, rule.rhsLen, rule.rhsLen - 1).node
  {
    if rule.lhsType != SYM_COMPLETE_COMMANDS {
      return 0;
    }
    idx := RhsEntry(c.stack, rule.rhsLen, rule.rhsLen - 1).node;
  }

  /** What the invariant and the tables give a chosen reduction to start from. */
  lemma ChosenReduction(c: Ctx, parse: ParserState, a: Symbol)
    requires ParserOk(c, parse) && parse.execRootIdx == 0 && IsTerminal(a)
    requires IsState(parse.state) && Decide(parse.state, a).Reduce?
    ensures var r := Decide(parse.state, a).rule;
      && IsRule(r) && r != 1 && RhsLen(r) <= |c.shadow| && |c.stack| == |c.shadow| + 1
      && CanReduce(c.stack, c.nodes, c.tokens, c.shadow, r)
      && KidTrees(c.shadow, r) == Reduced(Machine(c), r).kids
      && c.stack[|c.shadow| - RhsLen(r)].state == Top(Base(Machine(c), r))
  {
    hide EntryOk, StackOk, IsPath, IsDerivation, Goto, Before, Next, Decide, Lhs, RhsLen;
    MachineOk(c, parse);
    var r := Decide(parse.state, a).rule;
    ReduceFindsRhs(Machine(c), a);
    StackBottom(c.stack, c.nodes, c.tokens, c.shadow, false);
    assert KidTrees(c.shadow, r) == Trees(Machine(c)[|Machine(c)| - RhsLen(r)..]);
  }

  /** The goto of a chosen reduction is the automaton's. */
  lemma ChosenGoto(c: Ctx, parse: ParserState, a: Symbol)
    requires ParserOk(c, parse) && parse.execRootIdx == 0 && IsTerminal(a)
    requires IsState(parse.state) && Decide(parse.state, a).Reduce?
    ensures var r := Decide(parse.state, a).rule;
      && IsRule(r) && SYM_PROGRAM <= Lhs(r) <= SYM_LINEBREAK
      && RhsLen(r) <= |Machine(c)| && IsState(Top(Base(Machine(c), r)))
      && IsPath(ReduceStack(Machine(c), r))
      && Goto(Top(Base(Machine(c), r)), Lhs(r)) != YYFINAL
  {
    hide EntryOk, StackOk, IsPath, IsDerivation, Goto, Before, Next, Decide, Lhs, RhsLen;
    MachineOk(c, parse);
    var r := Decide(parse.state, a).rule;
    ReduceFindsRhs(Machine(c), a);
    ReduceKeepsPath(Machine(c), a);
    TablesGoto(Top(Base(Machine(c), r)), Lhs(r));
    NextIsState(Top(Base(Machine(c), r)), Lhs(r));
  }

  /** The values of the arenas a step works on. */
  datatype Arenas = Arenas(stack: seq<Entry>, nodes: seq<Node>, strings: seq<string>, shadow: seq<Shadow>)

  ghost function ArenasOf(c: Ctx): Arenas
    reads c`stack, c`nodes, c`strings, c`shadow
  {
    Arenas(c.stack, c.nodes, c.strings, c.shadow)
  }

  /** What reducing by `r` does: the machine's reduction, on chains the handler built. */
  ghost predicate DidReduce(before: Arenas, after: Arenas, r: int) {
    && |before.stack| == |before.shadow| + 1 && |after.stack| == |after.shadow| + 1
    && IsRule(r) && RhsLen(r) <= |before.shadow|
    && var machine := Frames(before.stack, before.shadow);
    && var k := KidsOf(before.shadow, r);
    && IsState(Top(Base(machine, r))) && Frames(after.stack, after.shadow) == ReduceStack(machine, r)
    && CellsFit(r, k.a, k.b, k.c, k.d)
    && after.shadow == before.shadow[..|before.shadow| - RhsLen(r)]
      + [ResultShadow(before.shadow, r, |before.nodes|, |after.nodes|)]
    && (r != 40 ==> after.strings == before.strings)
    && (r == 40 ==>
      k.word.offset < |before.strings| && after.strings
        == before.strings[k.word.offset := QuoteRemove(before.strings[k.word.offset])])
  }

  method Reduce(c: Ctx, parse: ParserState, action: int) returns (result: LalrAction)
    requires ParserOk(c, parse) && parse.execRootIdx == 0 && IsTerminal(parse.lookaheadType)
    requires IsState(parse.state) && Decide(parse.state, parse.lookaheadType) == Automaton.Reduce(action)
    modifies c`stack, c`nodes, c`strings, c`shadow, parse`stackIdx, parse`state, parse`execRootIdx, parse`saveTokens
    ensures ParserOk(c, parse) && result == LalrReduce
    ensures DidReduce(old(ArenasOf(c)), ArenasOf(c), action)
    ensures parse.execRootIdx != 0 <==> Lhs(action) == SYM_COMPLETE_COMMANDS
    ensures parse.saveTokens == (old(parse.saveTokens) || action == 40)
  {
    hide Decide, Lhs, RhsLen, StackOk, RhsReady, HandlerDone, CellsFit, KidsOf, Built, IsTerminal, DidReduce, GetRule,
      Frames, Chosen;
    ghost var k := ReduceReady(c, parse, parse.lookaheadType);
    ghost var before := ArenasOf(c);
    ChosenForHandler(before, c.tokens, action, k);
    var rule := GetRule(action);
    var nodeIdx, tokenIdx := ReduceComputeResult(c, parse, rule, action, k);
    parse.execRootIdx := GetExecRoot(c, rule);
    PushResult(c, parse, rule, Entry(nodeIdx, tokenIdx, 0, rule.lhsType), action, k, before);
    if parse.state == YYFINAL {
      return LalrAccept;
    }
    result := LalrReduce;
  }

  /** What the tables and the invariant give a reduction by `r` to start from. */
  ghost predicate Chosen(a: Arenas, tokens: seq<TokenRecord>, r: int, k: Kids) {
    && IsRule(r) && r != 1 && RhsLen(r) <= |a.shadow| && |a.stack| == |a.shadow| + 1 && k == KidsOf(a.shadow, r)
    && CanReduce(a.stack, a.nodes, tokens, a.shadow, r) && RhsReady(a.stack, a.nodes, tokens, r, k)
    && CellsFit(r, k.a, k.b, k.c, k.d)
    && (TakesWord(r) ==> k.word.offset < |a.strings|)
    && var machine := Frames(a.stack, a.shadow);
    && IsState(Top(Base(machine, r))) && IsPath(ReduceStack(machine, r))
    && a.stack[|a.shadow| - RhsLen(r)].state == Top(Base(machine, r))
    && IsNonterminal(Lhs(r)) && Goto(Top(Base(machine, r)), Lhs(r)) != YYFINAL
    && GetRule(r).rhsLen == RhsLen(r) && GetRule(r).lhsType == Lhs(r)
    && (Lhs(r) == SYM_COMPLETE_COMMANDS ==>
          && 0 < RhsLen(r) <= |a.stack|
          && RhsEntry(a.stack, RhsLen(r), RhsLen(r) - 1).node == Head(Built(r, k, |a.nodes|)) != 0)
  }

  lemma ReduceReady(c: Ctx, parse: ParserState, a: Symbol) returns (k: Kids)
    requires ParserOk(c, parse) && parse.execRootIdx == 0 && IsTerminal(a)
    requires IsState(parse.state) && Decide(parse.state, a).Reduce?
    ensures Chosen(ArenasOf(c), c.tokens, Decide(parse.state, a).rule, k)
  {
    hide Decide, Goto, Lhs, RhsLen, StackOk, RhsReady, CellsFit, IsPath, KidsOf, Built, CanReduce, IsTerminal,
      ReduceStack, Base, Frames, Top, KidTrees;
    var r := Decide(parse.state, a).rule;
    ChosenReduction(c, parse, a);
    ChosenGoto(c, parse, a);
    RhsIsReady(c.stack, c.nodes, c.tokens, c.shadow, r);
    KidShapes(c.stack, c.nodes, c.tokens, c.shadow, r);
    HandlerRules(r);
    k := KidsOf(c.shadow, r);
    ExecRootIsResult(c.stack, c.nodes, c.tokens, r, k);
    WordHasString(c.stack, c.nodes, c.tokens, r, k, |c.strings|);
  }

  /** The part of it that the handler needs. */
  lemma ChosenForHandler(a: Arenas, tokens: seq<TokenRecord>, r: int, k: Kids)
    requires Chosen(a, tokens, r, k)
    ensures IsRule(r) && r != 1 && RhsReady(a.stack, a.nodes, tokens, r, k) && CellsFit(r, k.a, k.b, k.c, k.d)
    ensures TakesWord(r) ==> k.word.offset < |a.strings|
    ensures GetRule(r).lhsType == Lhs(r) && RhsLen(r) == GetRule(r).rhsLen < |a.stack| == |a.shadow| + 1
    ensures Lhs(r) == SYM_COMPLETE_COMMANDS ==>
              && 0 < RhsLen(r) <= |a.stack|
              && RhsEntry(a.stack, RhsLen(r), RhsLen(r) - 1).node == Head(Built(r, k, |a.nodes|)) != 0
  {
    hide Goto, Lhs, RhsLen, StackOk, RhsReady, CellsFit, IsPath, KidsOf, Built, CanReduce, ReduceStack, Base, Frames,
      Top, KidTrees, GetRule;
  }

  /** Replaces the right-hand side by the handler's result. */
  method PushResult(c: Ctx, parse: ParserState, rule: Rule, symbol: Entry, ghost r: int, ghost k: Kids,
                    ghost before: Arenas)
    requires Chosen(before, c.tokens, r, k) && rule == GetRule(r) && symbol.kind == rule.lhsType
    requires c.stack == before.stack && c.shadow == before.shadow && parse.stackIdx == |c.shadow|
    requires IsRule(r) && CellsFit(r, k.a, k.b, k.c, k.d) && HandlerDone(before.nodes, c.nodes, r, k, symbol.node)
    requires symbol.token == if rule.rhsLen == 0 then parse.tokenIdx else c.stack[|c.stack| - 1].token
    requires Lhs(r) == SYM_COMPLETE_COMMANDS ==> parse.execRootIdx == Head(Built(r, k, |before.nodes|)) != 0
    requires Lhs(r) != SYM_COMPLETE_COMMANDS ==> parse.execRootIdx == 0
    requires forall i :: 0 <= i < |c.tokens| ==> c.tokens[i].offset < |c.strings|
    requires r != 40 ==> c.strings == before.strings
    requires r == 40 ==>
               && k.word.offset < |before.strings|
               && c.strings == before.strings[k.word.offset := QuoteRemove(before.strings[k.word.offset])]
    modifies c`stack, c`shadow, parse`stackIdx, parse`state
    ensures ParserOk(c, parse) && parse.state != YYFINAL && DidReduce(before, ArenasOf(c), r)
  {
    hide Goto, Lhs, RhsLen, StackOk, HandlerDone, CellsFit, IsPath, KidsOf, Built, CanReduce, GetRule, Chosen,
      DidReduce, Frames, QuoteRemove;
    ghost var stack, shadow := c.stack, c.shadow;
    ChosenForPush(before, c.tokens, r, k);
    ghost var s := ResultShadow(c.shadow, r, |before.nodes|, |c.nodes|);
    ReplaceTop(c, parse, rule, symbol, s);
    FinishReduction(before, c.tokens, r, k, c.nodes, symbol, ArenasOf(c), parse.state);
  }

  /** The part that the push needs. */
  lemma ChosenForPush(a: Arenas, tokens: seq<TokenRecord>, r: int, k: Kids)
    requires Chosen(a, tokens, r, k)
    ensures IsRule(r) && k == KidsOf(a.shadow, r) && CellsFit(r, k.a, k.b, k.c, k.d)
    ensures GetRule(r).rhsLen == RhsLen(r) <= |a.shadow| && GetRule(r).lhsType == Lhs(r) && IsNonterminal(Lhs(r))
    ensures |a.stack| == |a.shadow| + 1 && IsState(a.stack[|a.shadow| - RhsLen(r)].state)
  {
    hide Goto, Lhs, RhsLen, StackOk, RhsReady, CellsFit, IsPath, KidsOf, Built, CanReduce, ReduceStack, Base, Frames,
      Top, KidTrees, GetRule;
  }

  /** After the push the invariant holds again, and the machine has reduced. */
  lemma FinishReduction(before: Arenas, tokens: seq<TokenRecord>, r: int, k: Kids, nodes: seq<Node>, symbol: Entry,
                        after: Arenas, state: int)
    requires Chosen(before, tokens, r, k) && IsRule(r) && RhsLen(r) <= |before.shadow| && k == KidsOf(before.shadow, r)
    requires CellsFit(r, k.a, k.b, k.c, k.d) && HandlerDone(before.nodes, nodes, r, k, symbol.node)
    requires after.nodes == nodes
    requires symbol.kind == Lhs(r)
    requires (0 < RhsLen(r) ==> |before.stack| > 0 && symbol.token == before.stack[|before.stack| - 1].token)
    requires IsNonterminal(Lhs(r)) && |before.stack| == |before.shadow| + 1
    requires IsState(before.stack[|before.shadow| - RhsLen(r)].state)
    requires state == Goto(before.stack[|before.shadow| - RhsLen(r)].state, Lhs(r))
    requires after.stack == Replaced(before.stack, RhsLen(r), symbol.(state := state))
    requires after.shadow == before.shadow[..|before.shadow| - RhsLen(r)]
      + [ResultShadow(before.shadow, r, |before.nodes|, |nodes|)]
    requires r != 40 ==> after.strings == before.strings
    requires r == 40 ==>
               && k.word.offset < |before.strings|
               && after.strings == before.strings[k.word.offset := QuoteRemove(before.strings[k.word.offset])]
    ensures StackOk(after.stack, after.nodes, tokens, after.shadow, Lhs(r) == SYM_COMPLETE_COMMANDS)
    ensures |after.stack| == |after.shadow| + 1 && after.stack[|after.shadow|] == symbol.(state := state)
    ensures state != YYFINAL
    ensures after.shadow != [] && Root(after.shadow[|after.shadow| - 1].tree) == Lhs(r)
    ensures symbol.node == Head(Built(r, k, |before.nodes|))
    ensures DidReduce(before, after, r)
  {
    hide Goto, Lhs, RhsLen, StackOk, HandlerDone, RhsReady, CellsFit, IsPath, KidsOf, Built, CanReduce, GetRule,
      QuoteRemove, TakesWord;
    var e := symbol.(state := state);
    var s := ResultShadow(before.shadow, r, |before.nodes|, |nodes|);
    ReplacedMachine(before.stack, before.shadow, r, e, s);
    ReduceKeepsStack(before.stack, before.nodes, tokens, before.shadow, r, nodes, e);
    ResultIndex(before.nodes, nodes, r, k, symbol.node);
    assert Root(s.tree) == Lhs(r);
    assert DidReduce(before, after, r);
  }

  /** Pops the right-hand side, moves over the left-hand side, and pushes the result. */
  method ReplaceTop(c: Ctx, parse: ParserState, rule: Rule, symbol: Entry, ghost s: Shadow)
    requires |c.stack| == |c.shadow| + 1 && parse.stackIdx == |c.shadow| && rule.rhsLen <= |c.shadow|
    requires IsState(c.stack[|c.shadow| - rule.rhsLen].state) && IsNonterminal(rule.lhsType)
    modifies c`stack, c`shadow, parse`stackIdx, parse`state
    ensures parse.state == Goto(old(c.stack[|c.shadow| - rule.rhsLen].state), rule.lhsType)
    ensures c.stack == Replaced(old(c.stack), rule.rhsLen, symbol.(state := parse.state))
    ensures c.shadow == old(c.shadow)[..|old(c.shadow)| - rule.rhsLen] + [s] && parse.stackIdx == |c.shadow|
  {
    hide Goto;
    PopSymbols(c, parse, rule.rhsLen);
    ReduceApplyGoto(parse, rule);
    PushSymbol(c, parse, symbol, s);
  }

  lemma ReplacedMachine(stack: seq<Entry>, shadow: seq<Shadow>, r: int, e: Entry, s: Shadow)
    requires |stack| == |shadow| + 1 && IsRule(r) && RhsLen(r) <= |shadow|
    requires IsState(Top(Base(Frames(stack, shadow), r)))
    requires e.state == Goto(Top(Base(Frames(stack, shadow), r)), Lhs(r)) && s.tree == Reduced(Frames(stack, shadow), r)
    ensures Frames(Replaced(stack, RhsLen(r), e), shadow[..|shadow| - RhsLen(r)] + [s])
      == ReduceStack(Frames(stack, shadow), r)
  {
    hide Goto, Lhs, RhsLen;
  }

  /** The list that is run is what complete commands stand for at that moment. */
  lemma ExecRootIsResult(stack: seq<Entry>, nodes: seq<Node>, tokens: seq<TokenRecord>, r: int, k: Kids)
    requires RhsReady(stack, nodes, tokens, r, k)
    ensures Lhs(r) == SYM_COMPLETE_COMMANDS ==>
              && 0 < RhsLen(r) <= |stack| && CellsFit(r, k.a, k.b, k.c, k.d)
              && RhsEntry(stack, RhsLen(r), RhsLen(r) - 1).node == Head(Built(r, k, |nodes|)) != 0
  {
  }

  lemma WordHasString(stack: seq<Entry>, nodes: seq<Node>, tokens: seq<TokenRecord>, r: int, k: Kids, bound: nat)
    requires RhsReady(stack, nodes, tokens, r, k)
    requires forall i :: 0 <= i < |tokens| ==> tokens[i].offset < bound
    ensures TakesWord(r) ==> k.word.offset < bound
  {
    hide CellsFit, Holds, Owns;
  }

  lemma ResultIndex(before: seq<Node>, after: seq<Node>, r: int, k: Kids, nodeIdx: nat)
    requires IsRule(r) && CellsFit(r, k.a, k.b, k.c, k.d) && HandlerDone(before, after, r, k, nodeIdx)
    ensures nodeIdx == Head(Built(r, k, |before|))
  {
    hide CellsFit, Holds, Built, Owners;
  }

  /** A token whose record is in the arena, as the automaton sees it. */
  ghost predicate IsLookahead(c: Ctx, parse: ParserState, token: Token)
    reads c`tokens, parse`lookaheadType, parse`tokenIdx
  {
    token.kind == parse.lookaheadType && token.index == parse.tokenIdx && IsToken(c.tokens, token.index, token)
  }

  method Shift(c: Ctx, parse: ParserState, action: int, ghost token: Token) returns (result: LalrAction)
    requires ParserOk(c, parse) && parse.execRootIdx == 0 && IsTerminal(parse.lookaheadType)
    requires IsState(parse.state) && Decide(parse.state, parse.lookaheadType) == Automaton.Shift(action)
    requires parse.lookaheadType != SYM_EOF ==> IsLookahead(c, parse, token)
    modifies c`stack, c`shadow, parse`stackIdx, parse`state
    ensures parse.lookaheadType == SYM_EOF ==>
              result == LalrAccept && c.stack == old(c.stack) && c.shadow == old(c.shadow) && |c.shadow| == 1
    ensures parse.lookaheadType != SYM_EOF ==>
              && result == LalrShift && ParserOk(c, parse)
              && Machine(c) == old(Machine(c)) + [Frame(action, Leaf(token))]
              && c.shadow == old(c.shadow) + [Shadow(Leaf(token), Nil, |c.nodes|, |c.nodes|)]
  {
    hide Decide, StackOk, EntryOk, IsPath, Before, IsToken;
    MachineOk(c, parse);
    ghost var machine, stack, shadow := Machine(c), c.stack, c.shadow;
    StackBottom(stack, c.nodes, c.tokens, shadow, false);
    if parse.lookaheadType == SYM_EOF {
      ShiftOfEof(machine);
    } else {
      LookaheadIsToken(parse.lookaheadType);
      ShiftKeepsPath(machine, token);
    }
    parse.state := action;
    if parse.state == YYFINAL {
      return LalrAccept;
    }
    ghost var s := Shadow(Leaf(token), Nil, |c.nodes|, |c.nodes|);
    PushSymbol(c, parse, Entry(0, parse.tokenIdx, 0, parse.lookaheadType), s);
    assert Machine(c) == machine + [Frame(action, Leaf(token))];
    ShiftKeepsStack(stack, c.nodes, c.tokens, shadow, token,
      Entry(0, parse.tokenIdx, parse.state, parse.lookaheadType));
    result := LalrShift;
  }

  lemma LookaheadIsToken(a: Symbol)
    requires IsTerminal(a) && a != SYM_EOF
    ensures IsTokenKind(a)
  {
  }

  /** The action's rule or state, looked up in the packed tables. */
  method Step(c: Ctx, parse: ParserState, ghost token: Token) returns (result: LalrAction)
    requires ParserOk(c, parse) && parse.execRootIdx == 0 && IsTerminal(parse.lookaheadType)
    requires IsState(parse.state)
    requires parse.lookaheadType != SYM_EOF ==> IsLookahead(c, parse, token)
    modifies c`stack, c`nodes, c`strings, c`shadow, parse`stackIdx, parse`state, parse`execRootIdx, parse`saveTokens
    ensures match old(Decide(parse.state, parse.lookaheadType))
      case Error =>
        && result == LalrError && c.nodes == old(c.nodes) && c.strings == old(c.strings) && c.stack == old(c.stack)
        && c.shadow == old(c.shadow) && parse.execRootIdx == 0 && parse.saveTokens == old(parse.saveTokens)
          && ParserOk(c, parse)
      case Reduce(r) =>
        && result == LalrReduce && ParserOk(c, parse)
        && DidReduce(old(ArenasOf(c)), ArenasOf(c), r)
        && (parse.execRootIdx != 0 <==> Lhs(r) == SYM_COMPLETE_COMMANDS)
        && parse.saveTokens == (old(parse.saveTokens) || r == 40)
      case Shift(s) =>
        && c.nodes == old(c.nodes) && c.strings == old(c.strings) && parse.saveTokens == old(parse.saveTokens)
        && parse.execRootIdx == 0
        && (parse.lookaheadType == SYM_EOF ==>
          result == LalrAccept && c.stack == old(c.stack) && c.shadow == old(c.shadow))
        && (parse.lookaheadType != SYM_EOF ==>
              && result == LalrShift && ParserOk(c, parse) && Machine(c) == old(Machine(c)) + [Frame(s, Leaf(token))]
              && c.shadow == old(c.shadow) + [Shadow(Leaf(token), Nil, |c.nodes|, |c.nodes|)])
  {
    hide StackOk, EntryOk, IsPath, IsToken, DidReduce, YyPact, YyCheck, YyTable, YyDefact, RhsLen, Lhs, Goto;
    var index := YyPact(parse.state);
    if index == YYPACT_NINF {
      result := ReduceOrStop(c, parse, YyDefact(parse.state));
      return;
    }
    index := index + parse.lookaheadType;
    if index < 0 || index > YYLAST || YyCheck(index) != parse.lookaheadType {
      result := ReduceOrStop(c, parse, YyDefact(parse.state));
      return;
    }
    var action := YyTable(index);
    if action <= 0 {
      result := ReduceOrStop(c, parse, -action);
      return;
    }
    result := Shift(c, parse, action, token);
  }

  /** Zero stands for an error, any other number for a rule. */
  method ReduceOrStop(c: Ctx, parse: ParserState, action: int) returns (result: LalrAction)
    requires ParserOk(c, parse) && parse.execRootIdx == 0 && IsTerminal(parse.lookaheadType)
    requires IsState(parse.state) && Decide(parse.state, parse.lookaheadType) == ReduceOrError(action)
    modifies c`stack, c`nodes, c`strings, c`shadow, parse`stackIdx, parse`state, parse`execRootIdx, parse`saveTokens
    ensures action == 0 ==>
              && result == LalrError && c.nodes == old(c.nodes) && c.strings == old(c.strings)
                && c.stack == old(c.stack)
              && c.shadow == old(c.shadow) && parse.execRootIdx == 0 && parse.saveTokens == old(parse.saveTokens)
                && ParserOk(c, parse)
    ensures action != 0 ==>
              && result == LalrReduce && ParserOk(c, parse)
              && DidReduce(old(ArenasOf(c)), ArenasOf(c), action)
              && (parse.execRootIdx != 0 <==> Lhs(action) == SYM_COMPLETE_COMMANDS)
              && parse.saveTokens == (old(parse.saveTokens) || action == 40)
  {
    hide StackOk, EntryOk, IsPath, Decide, Goto, RhsLen, Lhs, DidReduce;
    if action == 0 {
      return LalrError;
    }
    result := Reduce(c, parse, action);
  }
}
