// Completeness: the machine rebuilds every derivation tree of a program from its yield. The
// proof follows the tree; what it needs from the tables is that each state acts right on every
// terminal that can follow there.

module LrCompleteness {
  import opened Grammar
  import opened ParseTables
  import opened Automaton
  import opened Derivations
  import opened LrMachine
  import opened LrParser
  import LrSoundness

  predicate IsRedirectOperator(a: Symbol) {
    SYM_LESS <= a <= SYM_DGREAT
  }

  predicate StartsCommand(a: Symbol) {
    a == SYM_WORD || a == SYM_OPAR || IsRedirectOperator(a)
  }

  predicate EndsCommand(a: Symbol) {
    a == SYM_EOF || a == SYM_NEWLINE || a == SYM_PIPE || a == SYM_AND_IF || a == SYM_OR_IF || a == SYM_CPAR
  }

  /** Terminal `a` can start what symbol `x` derives. */
  predicate InFirst(x: Symbol, a: Symbol) {
    if x < SYM_ACCEPT then a == x
    else if x == SYM_PROGRAM || x == SYM_COMPOUND_LIST then StartsCommand(a) || a == SYM_NEWLINE
    else if x == SYM_SUBSHELL then a == SYM_OPAR
    else if x <= SYM_TERM then StartsCommand(a)
    else if x == SYM_SIMPLE_COMMAND || x == SYM_CMD_SUFFIX then a == SYM_WORD || IsRedirectOperator(a)
    else if x == SYM_CMD_NAME || x == SYM_CMD_WORD || x == SYM_FILENAME || x == SYM_HERE_END then a == SYM_WORD
    else if x == SYM_IO_FILE then IsRedirectOperator(a) && a != SYM_DLESS
    else if x == SYM_IO_HERE then a == SYM_DLESS
    else if x == SYM_NEWLINE_LIST || x == SYM_LINEBREAK then a == SYM_NEWLINE
    else IsRedirectOperator(a)
  }

  predicate IsNullable(x: Symbol) {
    x == SYM_LINEBREAK || x == SYM_PROGRAM
  }

  /**
   * Terminal `a` can follow nonterminal `x` where `x` starts or is in progress in state `s`.
   * Only a linebreak depends on the state: the one that ends a program is followed by EOF.
   */
  predicate InFollow(s: int, x: Symbol, a: Symbol) {
    if x == SYM_LINEBREAK then a == SYM_EOF || (s != 13 && s != 32 && StartsCommand(a))
    else if x == SYM_PROGRAM then a == SYM_EOF
    else if x == SYM_COMPLETE_COMMANDS then a == SYM_EOF || a == SYM_NEWLINE
    else if x == SYM_AND_OR then EndsCommand(a) && a != SYM_PIPE
    else if x == SYM_COMPOUND_LIST then a == SYM_CPAR
    else if x == SYM_TERM then a == SYM_NEWLINE || a == SYM_CPAR
    else if x == SYM_PIPELINE || x == SYM_COMMAND || x == SYM_SIMPLE_COMMAND then EndsCommand(a)
    else if x == SYM_SUBSHELL || x == SYM_REDIRECT_LIST then EndsCommand(a) || IsRedirectOperator(a)
    else if x == SYM_NEWLINE_LIST then a == SYM_EOF || a == SYM_NEWLINE || a == SYM_CPAR || StartsCommand(a)
    else EndsCommand(a) || IsRedirectOperator(a) || a == SYM_WORD
  }

  /** Terminal `a` can start what production `r` derives from position `d` on. */
  predicate CanStart(r: int, d: nat, a: Symbol)
    requires IsRule(r) && d <= RhsLen(r)
    decreases RhsLen(r) - d
  {
    d < RhsLen(r) && (InFirst(RhsAt(r, d), a) || (IsNullable(RhsAt(r, d)) && CanStart(r, d + 1, a)))
  }

  /** Production `r` can derive nothing from position `d` on. */
  predicate CanVanish(r: int, d: nat)
    requires IsRule(r) && d <= RhsLen(r)
    decreases RhsLen(r) - d
  {
    d < RhsLen(r) ==> IsNullable(RhsAt(r, d)) && CanVanish(r, d + 1)
  }

  /** Terminal `a` can come next when production `r` is at position `d` in state `s`. */
  predicate CanComeNext(s: int, r: int, d: nat, a: Symbol)
    requires IsRule(r) && d <= RhsLen(r)
  {
    CanStart(r, d, a) || (CanVanish(r, d) && InFollow(s, Lhs(r), a))
  }

  // ---- First terminals of derivations ----------------------------------------------------

  lemma FirstOfProduction(r: int, a: Symbol)
    requires IsRule(r) && r != 1 && CanStart(r, 0, a)
    ensures InFirst(Lhs(r), a)
  {
  }

  lemma VanishingProduction(r: int)
    requires IsRule(r) && r != 1 && CanVanish(r, 0)
    ensures IsNullable(Lhs(r))
  {
  }

  /** A derivation yields nothing only if its symbol is nullable, and else starts in its first set. */
  lemma {:induction false} FirstOfYield(t: Tree)
    requires IsDerivation(t)
    ensures Yield(t) == [] ==> IsNullable(Root(t))
    ensures Yield(t) != [] ==> InFirst(Root(t), Yield(t)[0].kind)
    decreases t, 0
  {
    hide InFirst, IsNullable, CanStart, CanVanish, Lhs, RhsAt, RhsLen;
    if t.Branch? {
      FirstOfYields(t.rule, 0, t.kids);
      if YieldAll(t.kids) == [] {
        VanishingProduction(t.rule);
      } else {
        FirstOfProduction(t.rule, YieldAll(t.kids)[0].kind);
      }
    } else {
      FirstOfToken(t.token.kind);
    }
  }

  lemma FirstOfToken(a: Symbol)
    requires IsTokenKind(a)
    ensures InFirst(a, a)
  {
  }

  lemma {:induction false} FirstOfYields(r: int, d: nat, kids: seq<Tree>)
    requires IsRule(r) && IsRhs(r, d, kids)
    requires forall i :: 0 <= i < |kids| ==> IsDerivation(kids[i])
    ensures YieldAll(kids) == [] ==> CanVanish(r, d)
    ensures YieldAll(kids) != [] ==> CanStart(r, d, YieldAll(kids)[0].kind)
    decreases kids, 1
  {
    hide InFirst, IsNullable, RhsAt, RhsLen, IsDerivation;
    if kids != [] {
      FirstOfYield(kids[0]);
      FirstOfYields(r, d + 1, kids[1..]);
    }
  }

  /** What follows the remaining symbols of a production, seen through their yield. */
  lemma LookaheadComesNext(s: int, r: int, d: nat, kids: seq<Tree>, rest: seq<Token>)
    requires IsRule(r) && IsRhs(r, d, kids)
    requires forall i :: 0 <= i < |kids| ==> IsDerivation(kids[i])
    requires InFollow(s, Lhs(r), Lookahead(rest))
    ensures CanComeNext(s, r, d, Lookahead(YieldAll(kids) + rest))
  {
    hide InFollow, CanStart, CanVanish, Lhs, RhsAt, RhsLen, IsDerivation;
    FirstOfYields(r, d, kids);
    if YieldAll(kids) == [] {
      assert YieldAll(kids) + rest == rest;
    }
  }

  // ---- What the tables guarantee ---------------------------------------------------------

  /** What can come after a nonterminal inside a production can follow it. */
  lemma NextIsFollow(s: int, r: int, d: nat, a: Symbol)
    requires IsState(s) && IsRule(r) && r != 1 && d < RhsLen(r) && HasItem(s, r, d)
    requires IsNonterminal(RhsAt(r, d)) && IsTerminal(a) && CanComeNext(s, r, d + 1, a)
    ensures InFollow(s, RhsAt(r, d), a)
  {
    hide HasItem, InFollow;
    if RhsAt(r, d) == SYM_LINEBREAK {
      NextAfterLinebreak(s, r, d, a);
    } else {
      NextAfterOther(s, r, d, a);
    }
  }

  lemma NextAfterOther(s: int, r: int, d: nat, a: Symbol)
    requires IsRule(r) && r != 1 && d < RhsLen(r)
    requires IsNonterminal(RhsAt(r, d)) && RhsAt(r, d) != SYM_LINEBREAK
    requires IsTerminal(a) && CanComeNext(s, r, d + 1, a)
    ensures InFollow(s, RhsAt(r, d), a)
  {
    hide RhsAt, RhsLen, CanComeNext, InFollow;
    if r <= 18 { NextInList(s, r, d, a); } else { NextInCommand(s, r, d, a); }
  }

  lemma NextInList(s: int, r: int, d: nat, a: Symbol)
    requires 1 < r <= 18 && d < RhsLen(r)
    requires IsNonterminal(RhsAt(r, d)) && RhsAt(r, d) != SYM_LINEBREAK
    requires IsTerminal(a) && CanComeNext(s, r, d + 1, a)
    ensures InFollow(s, RhsAt(r, d), a)
  {
  }

  lemma NextInCommand(s: int, r: int, d: nat, a: Symbol)
    requires IsRule(r) && 18 < r && d < RhsLen(r)
    requires IsNonterminal(RhsAt(r, d)) && RhsAt(r, d) != SYM_LINEBREAK
    requires IsTerminal(a) && CanComeNext(s, r, d + 1, a)
    ensures InFollow(s, RhsAt(r, d), a)
  {
  }

  lemma NextAfterLinebreak(s: int, r: int, d: nat, a: Symbol)
    requires IsState(s) && IsRule(r) && d < RhsLen(r) && HasItem(s, r, d)
    requires RhsAt(r, d) == SYM_LINEBREAK && CanComeNext(s, r, d + 1, a)
    ensures InFollow(s, SYM_LINEBREAK, a)
  {
  }

  /** What can follow a production does not change while it is being recognised. */
  lemma FollowIsStable(s: int, r: int, d: nat, a: Symbol)
    requires IsState(s) && IsRule(r) && r != 1 && d < RhsLen(r) && HasItem(s, r, d)
    ensures InFollow(Next(s, RhsAt(r, d)), Lhs(r), a) == InFollow(s, Lhs(r), a)
  {
  }

  /** A finished production is reduced on every terminal that can follow it. */
  lemma FinishedIsReduced(s: int, r: int, a: Symbol)
    requires IsState(s) && IsRule(r) && r != 1 && HasItem(s, r, RhsLen(r))
    requires IsTerminal(a) && InFollow(s, Lhs(r), a)
    ensures Decide(s, a) == Reduce(r)
  {
    hide HasItem, InFollow, Decide, Before, YyDefact, Lhs, RhsLen;
    FinishedIsDefault(s, r);
    if Before(s, a) { ShiftedIsNoFollow(s, r, a); }
    TablesShift(s, a);
    TablesDefault(s, a);
  }

  lemma FinishedIsDefault(s: int, r: int)
    requires IsState(s) && IsRule(r) && r != 1 && HasItem(s, r, RhsLen(r))
    ensures YyDefact(s) == r
  {
  }

  /** What a state can shift cannot follow the production the state reduces by default. */
  lemma ShiftedIsNoFollow(s: int, r: int, a: Symbol)
    requires IsState(s) && IsRule(r) && r != 1 && YyDefact(s) == r
    requires IsTerminal(a) && Before(s, a)
    ensures !InFollow(s, Lhs(r), a)
  {
  }

  // ---- The machine follows a derivation --------------------------------------------------

  /** The stack after the machine has worked through the yields of `ts`. */
  function PushAll(stack: seq<Frame>, ts: seq<Tree>): seq<Frame>
    decreases ts
  {
    if ts == [] then stack
    else PushAll(stack + [Frame(Next(Top(stack), Root(ts[0])), ts[0])], ts[1..])
  }

  lemma {:induction false} PushAllIsStack(stack: seq<Frame>, ts: seq<Tree>)
    ensures |PushAll(stack, ts)| == |stack| + |ts|
    ensures PushAll(stack, ts)[..|stack|] == stack
    ensures Trees(PushAll(stack, ts)[|stack|..]) == ts
    decreases ts
  {
    hide Next;
    if ts != [] {
      var pushed := stack + [Frame(Next(Top(stack), Root(ts[0])), ts[0])];
      var all := PushAll(stack, ts);
      PushAllIsStack(pushed, ts[1..]);
      assert all[|stack|] == all[..|pushed|][|stack|];
      assert all[|stack|..] == [all[|stack|]] + all[|pushed|..];
      assert all[..|stack|] == all[..|pushed|][..|stack|];
    }
  }

  /** The machine reads a derivation's yield and ends with the derivation on its stack. */
  lemma {:induction false} ParseTree(stack: seq<Frame>, t: Tree, rest: seq<Token>)
    requires IsPath(stack) && IsDerivation(t) && IsState(Top(stack)) && Before(Top(stack), Root(t))
    requires AreTokens(rest) && AreTokens(Yield(t))
    requires t.Branch? ==> InFollow(Top(stack), Root(t), Lookahead(rest))
    ensures IsPath(PushAll(stack, [t]))
    ensures Parse(stack, Yield(t) + rest) == Parse(PushAll(stack, [t]), rest)
    decreases t, 0
  {
    hide Decide, Before, Next, IsPath, InFollow, HasItem, Lhs, RhsLen, RhsAt, Measure, Parse, ReduceStack;
    DerivationRoot(t);
    PathPush(stack, t);
    match t
    case Leaf(token) =>
      TablesShift(Top(stack), token.kind);
      NextIsState(Top(stack), token.kind);
      assert (Yield(t) + rest)[1..] == rest;
      ParseShift(stack, Yield(t) + rest);
    case Branch(r, kids) =>
      StartOf(Top(stack), r);
      YieldAllAreTokens(kids);
      ParseTrees(stack, r, 0, kids, rest);
      var all := PushAll(stack, kids);
      PushAllIsStack(stack, kids);
      PathTop(all);
      FinishedIsReduced(Top(all), r, Lookahead(rest));
      TablesGoto(Top(stack), Lhs(r));
      ParseReduce(all, rest);
      ReducedIsPushed(stack, r, kids);
  }

  lemma StartOf(s: int, r: int)
    requires IsRule(r) && r != 1 && Before(s, Lhs(r))
    ensures HasItem(s, r, 0) && IsNonterminal(Lhs(r))
  {
  }

  lemma RootOfNode(t: Tree)
    requires IsDerivation(t) && t.Branch?
    ensures IsNonterminal(Root(t))
  {
  }

  lemma ReducedIsPushed(stack: seq<Frame>, r: int, kids: seq<Tree>)
    requires IsRule(r) && |kids| == RhsLen(r) && IsState(Top(stack))
    requires Goto(Top(stack), Lhs(r)) == Next(Top(stack), Lhs(r))
    requires |PushAll(stack, kids)| == |stack| + |kids| && PushAll(stack, kids)[..|stack|] == stack
    requires Trees(PushAll(stack, kids)[|stack|..]) == kids
    ensures ReduceStack(PushAll(stack, kids), r) == PushAll(stack, [Branch(r, kids)])
  {
  }

  lemma {:induction false} ParseTrees(stack: seq<Frame>, r: int, d: nat, kids: seq<Tree>, rest: seq<Token>)
    requires IsPath(stack) && IsState(Top(stack))
    requires IsRule(r) && r != 1 && IsRhs(r, d, kids) && HasItem(Top(stack), r, d)
    requires forall i :: 0 <= i < |kids| ==> IsDerivation(kids[i])
    requires AreTokens(rest) && AreTokens(YieldAll(kids))
    requires InFollow(Top(stack), Lhs(r), Lookahead(rest))
    ensures IsPath(PushAll(stack, kids))
    ensures HasItem(Top(PushAll(stack, kids)), r, RhsLen(r))
    ensures InFollow(Top(PushAll(stack, kids)), Lhs(r), Lookahead(rest))
    ensures Parse(stack, YieldAll(kids) + rest) == Parse(PushAll(stack, kids), rest)
    decreases kids, 1
  {
    hide Decide, Before, Next, IsPath, InFollow, HasItem, Lhs, RhsLen, RhsAt, Measure, Parse, CanComeNext, PushAll,
      YieldAll, IsDerivation, IsRhs;
    if kids == [] {
      NoKids(stack, r, d);
      assert YieldAll(kids) + rest == rest;
    } else {
      var t, later := kids[0], YieldAll(kids[1..]) + rest;
      FirstKid(stack, r, d, kids);
      YieldAreTokens(t);
      YieldAllAreTokens(kids[1..]);
      MoveForward(Top(stack), r, d);
      LookaheadComesNext(Top(stack), r, d + 1, kids[1..], rest);
      if t.Branch? {
        RootOfNode(t);
        NextIsFollow(Top(stack), r, d, Lookahead(later));
      }
      ParseTree(stack, t, later);
      var pushed := PushAll(stack, [t]);
      FollowIsStable(Top(stack), r, d, Lookahead(rest));
      PathTop(pushed);
      ParseTrees(pushed, r, d + 1, kids[1..], rest);
      assert YieldAll(kids) + rest == Yield(t) + later;
    }
  }

  lemma NoKids(stack: seq<Frame>, r: int, d: nat)
    requires IsRule(r) && IsRhs(r, d, [])
    ensures PushAll(stack, []) == stack && YieldAll([]) == [] && d == RhsLen(r)
  {
  }

  lemma FirstKid(stack: seq<Frame>, r: int, d: nat, kids: seq<Tree>)
    requires IsRule(r) && IsRhs(r, d, kids) && kids != []
    ensures d < RhsLen(r) && Root(kids[0]) == RhsAt(r, d) && IsRhs(r, d + 1, kids[1..])
    ensures YieldAll(kids) == Yield(kids[0]) + YieldAll(kids[1..])
    ensures PushAll(stack, [kids[0]]) == stack + [Frame(Next(Top(stack), Root(kids[0])), kids[0])]
    ensures PushAll(stack, kids) == PushAll(PushAll(stack, [kids[0]]), kids[1..])
  {
    hide Next, RhsAt, RhsLen, Root;
    assert Root(kids[0]) == RhsAt(r, d + 0);
  }

  /** The machine accepts the yield of every program derivation, with that derivation. */
  lemma Completeness(t: Tree)
    requires IsDerivation(t) && Root(t) == SYM_PROGRAM
    ensures AreTokens(Yield(t)) && Parse([], Yield(t)) == Accept(t)
  {
    hide Decide;
    YieldAreTokens(t);
    assert Yield(t) + [] == Yield(t);
    ParseTree([], t, []);
    var stack := PushAll([], [t]);
    assert stack == [Frame(2, t)];
    EofAfterProgram();
  }

  lemma EofAfterProgram()
    ensures Decide(2, SYM_EOF) == Shift(YYFINAL)
  {
  }

  /** The machine accepts exactly the derivable inputs, and tells their derivation. */
  lemma AcceptsExactlyDerivable(t: Tree, input: seq<Token>)
    requires AreTokens(input)
    ensures Parse([], input) == Accept(t) <==> Derives(t, input)
  {
    hide Parse;
    LrSoundness.Soundness(input);
    if Derives(t, input) {
      Completeness(t);
    }
  }

  /** The grammar is unambiguous. */
  lemma Unambiguous(t: Tree, u: Tree, input: seq<Token>)
    requires Derives(t, input) && Derives(u, input)
    ensures t == u
  {
    hide Parse, Derives;
    YieldOfProgram(t, input);
    AcceptsExactlyDerivable(t, input);
    AcceptsExactlyDerivable(u, input);
  }

  lemma YieldOfProgram(t: Tree, input: seq<Token>)
    requires Derives(t, input)
    ensures AreTokens(input)
  {
    YieldAreTokens(t);
  }
}
