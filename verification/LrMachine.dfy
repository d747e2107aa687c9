// The shift-reduce machine on values: a stack of states and trees, its step, and the run of
// steps to acceptance or rejection. The stack invariant is that the stack spells a path of the
// automaton from its start state.

module LrMachine {
  import opened Grammar
  import opened ParseTables
  import opened Automaton
  import opened Derivations

  /** One stack entry: the state entered over the entry's symbol, and the symbol's derivation. */
  datatype Frame = Frame(state: int, tree: Tree)

  /** The state on top; the bottom entry is the zeroed sentinel. */
  function Top(stack: seq<Frame>): int {
    if stack == [] then 0 else stack[|stack| - 1].state
  }

  /** The next terminal; the end of the input reads as EOF. */
  function Lookahead(input: seq<Token>): Symbol {
    if input == [] then SYM_EOF else input[0].kind
  }

  function Trees(stack: seq<Frame>): (ts: seq<Tree>)
    ensures |ts| == |stack|
    ensures forall i :: 0 <= i < |stack| ==> ts[i] == stack[i].tree
  {
    seq(|stack|, i requires 0 <= i < |stack| => stack[i].tree)
  }

  /** Entry `i` was entered over its own symbol from the entry below. */
  ghost predicate IsEdge(stack: seq<Frame>, i: int)
    requires 0 <= i < |stack|
  {
    && IsState(Top(stack[..i]))
    && Root(stack[i].tree) != SYM_EOF
    && Before(Top(stack[..i]), Root(stack[i].tree))
    && stack[i].state == Next(Top(stack[..i]), Root(stack[i].tree))
  }

  /** The stack spells an automaton path, and every entry holds a derivation of its symbol. */
  ghost predicate IsPath(stack: seq<Frame>) {
    forall i :: 0 <= i < |stack| ==> IsEdge(stack, i) && IsDerivation(stack[i].tree)
  }

  lemma {:induction false} PathTop(stack: seq<Frame>)
    requires IsPath(stack)
    ensures IsState(Top(stack)) && Top(stack) != YYFINAL
    ensures Top(stack) == 0 <==> stack == []
  {
    if stack != [] {
      var i := |stack| - 1;
      assert IsEdge(stack, i);
      NextIsState(Top(stack[..i]), Root(stack[i].tree));
    }
  }

  lemma PathPrefix(stack: seq<Frame>, n: nat)
    requires IsPath(stack) && n <= |stack|
    ensures IsPath(stack[..n])
  {
    forall i | 0 <= i < n ensures IsEdge(stack[..n], i) && IsDerivation(stack[..n][i].tree) {
      assert IsEdge(stack, i);
      assert stack[..n][..i] == stack[..i];
    }
  }

  lemma PathPush(stack: seq<Frame>, t: Tree)
    requires IsPath(stack) && IsDerivation(t) && Before(Top(stack), Root(t)) && Root(t) != SYM_EOF
    ensures IsPath(stack + [Frame(Next(Top(stack), Root(t)), t)])
  {
    PathTop(stack);
    var pushed := stack + [Frame(Next(Top(stack), Root(t)), t)];
    forall i | 0 <= i < |pushed| ensures IsEdge(pushed, i) && IsDerivation(pushed[i].tree) {
      assert pushed[..i] == if i == |stack| then stack else stack[..i];
      assert i < |stack| ==> IsEdge(stack, i);
    }
  }

  /**
   * A state with an item sits on top of exactly the symbols in front of the item's dot, and
   * the state below them has the item with the dot at the start.
   */
  lemma {:induction false} ItemOnStack(stack: seq<Frame>, r: int, d: nat)
    requires IsPath(stack) && IsRule(r) && d <= RhsLen(r)
    requires IsState(Top(stack)) && HasItem(Top(stack), r, d)
    ensures d <= |stack|
    ensures HasItem(Top(stack[..|stack| - d]), r, 0)
    ensures forall i :: 0 <= i < d ==> Root(stack[|stack| - d + i].tree) == RhsAt(r, i)
    decreases d
  {
    hide Decide, Before, After, HasItem, Next, Goto, RhsAt, RhsLen, IsDerivation, Lhs, IsEdge;
    if d == 0 {
      assert stack[..|stack|] == stack;
    } else {
      ItemStep(stack, r, d);
      var n := |stack| - 1;
      ItemOnStack(stack[..n], r, d - 1);
      assert stack[..n][..n - (d - 1)] == stack[..|stack| - d];
      forall i | 0 <= i < d ensures Root(stack[|stack| - d + i].tree) == RhsAt(r, i) {
        assert i < d - 1 ==> stack[|stack| - d + i] == stack[..n][n - (d - 1) + i];
      }
    }
  }

  /** The frame under the dot is the symbol in front of it, and below it the dot is one back. */
  lemma ItemStep(stack: seq<Frame>, r: int, d: nat)
    requires IsPath(stack) && IsRule(r) && 0 < d <= RhsLen(r)
    requires IsState(Top(stack)) && HasItem(Top(stack), r, d)
    ensures |stack| > 0
    ensures var n := |stack| - 1;
      && IsPath(stack[..n]) && IsState(Top(stack[..n])) && HasItem(Top(stack[..n]), r, d - 1)
      && Root(stack[n].tree) == RhsAt(r, d - 1)
  {
    hide Decide, Before, After, HasItem, Next, Goto, RhsAt, RhsLen, IsDerivation, Lhs;
    NothingBehindStart(r, d);
    var n := |stack| - 1;
    assert IsEdge(stack, n);
    PathTop(stack);
    DerivationRoot(stack[n].tree);
    MoveBackward(Top(stack[..n]), Root(stack[n].tree), r, d - 1);
    PathPrefix(stack, n);
    PathTop(stack[..n]);
  }

  lemma NothingBehindStart(r: int, d: nat)
    requires IsRule(r) && d > 0
    ensures !HasItem(0, r, d)
  {
  }

  lemma DerivationRoot(t: Tree)
    requires IsDerivation(t)
    ensures IsTokenKind(Root(t)) || SYM_PROGRAM <= Root(t) <= SYM_LINEBREAK
  {
  }

  /** The stack below the top right-hand side of `r`. */
  function Base(stack: seq<Frame>, r: int): seq<Frame>
    requires IsRule(r) && RhsLen(r) <= |stack|
  {
    stack[..|stack| - RhsLen(r)]
  }

  /** The node built over the top right-hand side of `r`. */
  function Reduced(stack: seq<Frame>, r: int): Tree
    requires IsRule(r) && RhsLen(r) <= |stack|
  {
    Branch(r, Trees(stack[|stack| - RhsLen(r)..]))
  }

  /** The stack after reducing by `r`. */
  function ReduceStack(stack: seq<Frame>, r: int): seq<Frame>
    requires IsRule(r) && RhsLen(r) <= |stack| && IsState(Top(Base(stack, r)))
  {
    Base(stack, r) + [Frame(Goto(Top(Base(stack, r)), Lhs(r)), Reduced(stack, r))]
  }

  /** A chosen reduction finds exactly its right-hand side on top of the stack. */
  lemma ReduceFindsRhs(stack: seq<Frame>, a: Symbol)
    requires IsPath(stack) && IsTerminal(a) && IsState(Top(stack)) && Decide(Top(stack), a).Reduce?
    ensures var r := Decide(Top(stack), a).rule;
      && IsRule(r) && r != 1 && RhsLen(r) <= |stack|
      && IsPath(Base(stack, r)) && IsState(Top(Base(stack, r)))
      && Before(Top(Base(stack, r)), Lhs(r)) && SYM_PROGRAM <= Lhs(r) <= SYM_LINEBREAK
      && IsDerivation(Reduced(stack, r))
  {
    hide Decide, Before, After, HasItem, Next, Goto, RhsAt, RhsLen, Lhs, IsEdge;
    PathTop(stack);
    var r := Decide(Top(stack), a).rule;
    TablesReduce(Top(stack), a);
    ItemOnStack(stack, r, RhsLen(r));
    PathPrefix(stack, |stack| - RhsLen(r));
    PathTop(Base(stack, r));
    StartItem(Top(Base(stack, r)), r);
  }

  /** A chosen reduction keeps the path and the yield. */
  lemma ReduceKeepsPath(stack: seq<Frame>, a: Symbol)
    requires IsPath(stack) && IsTerminal(a) && IsState(Top(stack)) && Decide(Top(stack), a).Reduce?
    ensures var r := Decide(Top(stack), a).rule;
      && IsRule(r) && r != 1 && RhsLen(r) <= |stack| && IsState(Top(Base(stack, r)))
      && IsPath(ReduceStack(stack, r))
      && YieldAll(Trees(ReduceStack(stack, r))) == YieldAll(Trees(stack))
  {
    hide Decide, Before, After, HasItem, Next, Goto, RhsAt, RhsLen, Lhs, IsEdge, IsDerivation;
    ReduceFindsRhs(stack, a);
    var r := Decide(Top(stack), a).rule;
    TablesGoto(Top(Base(stack, r)), Lhs(r));
    PathPush(Base(stack, r), Reduced(stack, r));
    ReduceKeepsYield(stack, r);
  }

  lemma ReduceKeepsYield(stack: seq<Frame>, r: int)
    requires IsRule(r) && RhsLen(r) <= |stack| && IsState(Top(Base(stack, r)))
    ensures YieldAll(Trees(ReduceStack(stack, r))) == YieldAll(Trees(stack))
  {
    hide Goto, RhsLen, Lhs;
    var base, popped := Base(stack, r), stack[|stack| - RhsLen(r)..];
    assert Trees(stack) == Trees(base) + Trees(popped);
    YieldAllConcat(Trees(base), Trees(popped));
    assert Trees(ReduceStack(stack, r)) == Trees(base) + [Reduced(stack, r)];
    YieldAllConcat(Trees(base), [Reduced(stack, r)]);
    YieldAllSingle(Reduced(stack, r));
  }

  /** A shift of a token keeps the path; only EOF, on a complete program, leads to acceptance. */
  lemma ShiftKeepsPath(stack: seq<Frame>, token: Token)
    requires IsPath(stack) && IsState(Top(stack)) && IsTokenKind(token.kind) && Decide(Top(stack), token.kind).Shift?
    ensures Decide(Top(stack), token.kind).state != YYFINAL
    ensures IsPath(stack + [Frame(Decide(Top(stack), token.kind).state, Leaf(token))])
    ensures YieldAll(Trees(stack + [Frame(Decide(Top(stack), token.kind).state, Leaf(token))]))
      == YieldAll(Trees(stack)) + [token]
  {
    TablesShift(Top(stack), token.kind);
    NextIsState(Top(stack), token.kind);
    PathPush(stack, Leaf(token));
    var pushed := stack + [Frame(Decide(Top(stack), token.kind).state, Leaf(token))];
    assert Trees(pushed) == Trees(stack) + [Leaf(token)];
    YieldAllConcat(Trees(stack), [Leaf(token)]);
    YieldAllSingle(Leaf(token));
  }

  /** EOF is shifted only on a stack that holds one finished program. */
  lemma ShiftOfEof(stack: seq<Frame>)
    requires IsPath(stack) && IsState(Top(stack)) && Decide(Top(stack), SYM_EOF).Shift?
    ensures Decide(Top(stack), SYM_EOF).state == YYFINAL
    ensures |stack| == 1 && Root(stack[0].tree) == SYM_PROGRAM
  {
    TablesShift(Top(stack), SYM_EOF);
    NextIsState(Top(stack), SYM_EOF);
    ItemOnStack(stack, 1, 1);
    PathPrefix(stack, |stack| - 1);
    PathTop(stack[..|stack| - 1]);
  }
}
