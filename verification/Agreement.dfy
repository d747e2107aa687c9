// The parser consumes its tokens one by one, long before all of them are known. What ties its
// stack to the tokens read so far: for every continuation of the input, parsing it all from the
// start is parsing what is not shifted yet from the current stack.

module Agreement {
  import opened Grammar
  import opened ParseTables
  import opened Automaton
  import opened Derivations
  import opened LrMachine
  import opened LrParser
  import opened LrCompleteness

  // ---- Agreement -------------------------------------------------------------------------

  ghost predicate AgreesOn(lexed: seq<Token>, stack: seq<Frame>, n: nat, more: seq<Token>) {
    && IsPath(stack) && n <= |lexed| && AreTokens(lexed) && AreTokens(more)
    && AreTokens(lexed + more) && AreTokens(lexed[n..] + more) && IsPath([])
    && Parse([], lexed + more) == Parse(stack, lexed[n..] + more)
  }

  /** The stack spells the first `n` tokens, and decides every continuation as a run from the start does. */
  ghost predicate Agrees(lexed: seq<Token>, stack: seq<Frame>, n: nat) {
    && IsPath(stack) && AreTokens(lexed) && n <= |lexed|
    && YieldAll(Trees(stack)) == lexed[..n]
    && forall more: seq<Token> :: AreTokens(more) ==> AgreesOn(lexed, stack, n, more)
  }

  lemma AgreesAtStart()
    ensures Agrees([], [], 0)
  {
    hide Parse;
    var none: seq<Token> := [];
    assert Trees([]) == [];
    forall more: seq<Token> | AreTokens(more) ensures AgreesOn([], [], 0, more) {
      assert none + more == more && none[0..] + more == more;
    }
  }

  lemma OneMore(lexed: seq<Token>, n: nat, token: Token, more: seq<Token>)
    requires n <= |lexed|
    ensures (lexed + [token]) + more == lexed + ([token] + more)
    ensures (lexed + [token])[n..] + more == lexed[n..] + ([token] + more)
    ensures (lexed + [token])[..n] == lexed[..n]
  {
  }

  /** One more token is lexed. */
  lemma AgreesGrows(lexed: seq<Token>, stack: seq<Frame>, n: nat, token: Token)
    requires Agrees(lexed, stack, n) && IsTokenKind(token.kind)
    ensures Agrees(lexed + [token], stack, n)
  {
    hide Parse, IsPath, AgreesOn;
    OneMore(lexed, n, token, []);
    forall more: seq<Token> | AreTokens(more) ensures AgreesOn(lexed + [token], stack, n, more) {
      assert AreTokens([token] + more);
      AgreesOnGrown(lexed, stack, n, token, more);
    }
  }

  lemma AgreesOnGrown(lexed: seq<Token>, stack: seq<Frame>, n: nat, token: Token, more: seq<Token>)
    requires AgreesOn(lexed, stack, n, [token] + more) && IsTokenKind(token.kind)
    ensures AgreesOn(lexed + [token], stack, n, more)
  {
    hide Parse, IsPath, AreTokens;
    OneMore(lexed, n, token, more);
    TokensApart(lexed, token, more);
  }

  lemma TokensApart(lexed: seq<Token>, token: Token, more: seq<Token>)
    requires AreTokens(lexed) && AreTokens([token] + more)
    ensures AreTokens(lexed + [token]) && AreTokens(more)
  {
    assert ([token] + more)[0] == token && forall i :: 0 <= i < |more| ==> more[i] == ([token] + more)[i + 1];
  }

  lemma LookaheadOf(lexed: seq<Token>, n: nat, more: seq<Token>)
    requires n < |lexed|
    ensures Lookahead(lexed[n..] + more) == lexed[n].kind && (lexed[n..] + more)[0] == lexed[n]
    ensures (lexed[n..] + more)[1..] == lexed[n + 1..] + more
  {
  }

  lemma AgreesReduces(lexed: seq<Token>, stack: seq<Frame>, n: nat)
    requires Agrees(lexed, stack, n) && n < |lexed| && IsState(Top(stack)) && IsTerminal(lexed[n].kind)
    requires Decide(Top(stack), lexed[n].kind).Reduce?
    ensures var r := Decide(Top(stack), lexed[n].kind).rule;
      && IsRule(r) && RhsLen(r) <= |stack| && IsState(Top(Base(stack, r)))
      && Agrees(lexed, ReduceStack(stack, r), n) && Measure(ReduceStack(stack, r)) < Measure(stack)
  {
    hide Parse, IsPath, Decide, ReduceStack, Measure, IsRule, RhsLen, Base, AreTokens;
    ParseOne(lexed, n);
    ParseReduce(stack, lexed[n..]);
    var r := Decide(Top(stack), lexed[n].kind).rule;
    forall more: seq<Token> | AreTokens(more) ensures AgreesOn(lexed, ReduceStack(stack, r), n, more) {
      assert AgreesOn(lexed, stack, n, more);
      LookaheadOf(lexed, n, more);
      ParseReduce(stack, lexed[n..] + more);
    }
  }

  lemma ParseOne(lexed: seq<Token>, n: nat)
    requires AreTokens(lexed) && n < |lexed|
    ensures AreTokens(lexed[n..]) && Lookahead(lexed[n..]) == lexed[n].kind
  {
  }

  lemma AgreesShifts(lexed: seq<Token>, stack: seq<Frame>, n: nat)
    requires Agrees(lexed, stack, n) && n < |lexed| && IsState(Top(stack))
    requires Decide(Top(stack), lexed[n].kind).Shift?
    ensures Agrees(lexed, stack + [Frame(Decide(Top(stack), lexed[n].kind).state, Leaf(lexed[n]))], n + 1)
  {
    hide Parse, IsPath, Decide, AreTokens;
    ParseOne(lexed, n);
    ParseShift(stack, lexed[n..]);
    var pushed := stack + [Frame(Decide(Top(stack), lexed[n].kind).state, Leaf(lexed[n]))];
    assert lexed[..n] + [lexed[n]] == lexed[..n + 1];
    forall more: seq<Token> | AreTokens(more) ensures AgreesOn(lexed, pushed, n + 1, more) {
      assert AgreesOn(lexed, stack, n, more);
      LookaheadOf(lexed, n, more);
      ParseShift(stack, lexed[n..] + more);
    }
  }

  /** No continuation of what was read is a program. */
  ghost predicate NoProgramStartsWith(lexed: seq<Token>) {
    forall t: Tree, more: seq<Token> :: !Derives(t, lexed + more)
  }

  lemma AgreesRejects(lexed: seq<Token>, stack: seq<Frame>, n: nat)
    requires Agrees(lexed, stack, n) && n < |lexed| && IsState(Top(stack))
    requires Decide(Top(stack), lexed[n].kind).Error?
    ensures NoProgramStartsWith(lexed)
  {
    hide Parse, IsPath, Decide;
    forall t: Tree, more: seq<Token> ensures !Derives(t, lexed + more) {
      if Derives(t, lexed + more) {
        YieldOfProgram(t, lexed + more);
        assert more == (lexed + more)[|lexed|..];
        assert AgreesOn(lexed, stack, n, more);
        LookaheadOf(lexed, n, more);
        ParseReject(stack, lexed[n..] + more);
        AcceptsExactlyDerivable(t, lexed + more);
        assert false;
      }
    }
  }

  // ---- The end of the input --------------------------------------------------------------

  /** Everything was shifted: what is left is the run on EOF. */
  ghost predicate AgreesAtEnd(lexed: seq<Token>, stack: seq<Frame>) {
    IsPath(stack) && IsPath([]) && AreTokens(lexed) && AreTokens([]) && YieldAll(Trees(stack)) == lexed
      && Parse([], lexed) == Parse(stack, [])
  }

  lemma AgreesEnds(lexed: seq<Token>, stack: seq<Frame>)
    requires Agrees(lexed, stack, |lexed|)
    ensures AgreesAtEnd(lexed, stack)
  {
    hide Parse, IsPath;
    assert AgreesOn(lexed, stack, |lexed|, []);
    assert lexed + [] == lexed && lexed[|lexed|..] + [] == [] && lexed[..|lexed|] == lexed;
  }

  lemma EndReduces(lexed: seq<Token>, stack: seq<Frame>)
    requires AgreesAtEnd(lexed, stack) && IsState(Top(stack)) && Decide(Top(stack), SYM_EOF).Reduce?
    ensures var r := Decide(Top(stack), SYM_EOF).rule;
      && IsRule(r) && RhsLen(r) <= |stack| && IsState(Top(Base(stack, r)))
      && AgreesAtEnd(lexed, ReduceStack(stack, r)) && Measure(ReduceStack(stack, r)) < Measure(stack)
  {
    hide Parse, IsPath, Decide, ReduceStack, Measure, IsRule, RhsLen, Base;
    ParseReduce(stack, []);
  }

  lemma EndRejects(lexed: seq<Token>, stack: seq<Frame>)
    requires AgreesAtEnd(lexed, stack) && IsState(Top(stack)) && Decide(Top(stack), SYM_EOF).Error?
    ensures forall t: Tree :: !Derives(t, lexed)
  {
    hide Parse, IsPath, Decide;
    ParseReject(stack, []);
    forall t: Tree ensures !Derives(t, lexed) {
      AcceptsExactlyDerivable(t, lexed);
    }
  }

  lemma EndAccepts(lexed: seq<Token>, stack: seq<Frame>)
    requires AgreesAtEnd(lexed, stack) && IsState(Top(stack)) && Decide(Top(stack), SYM_EOF).Shift?
    ensures |stack| == 1 && Derives(stack[0].tree, lexed)
  {
    hide Parse, IsPath, Decide;
    ParseAccept(stack);
    AcceptsExactlyDerivable(stack[0].tree, lexed);
  }
}
