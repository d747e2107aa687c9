// Tokens, and the derivation trees of the grammar over them.

module Derivations {
  import opened Grammar

  /** A token as the parser sees it: its terminal, its arena index, and what its record holds. */
  datatype Token = Token(kind: Symbol, index: nat, offset: nat, flags: nat)

  datatype Tree = Leaf(token: Token) | Branch(rule: int, kids: seq<Tree>)

  predicate IsTokenKind(x: Symbol) {
    SYM_WORD <= x <= SYM_CPAR
  }

  /** The symbol a tree derives. */
  function Root(t: Tree): Symbol {
    match t
    case Leaf(token) => token.kind
    case Branch(rule, _) => if IsRule(rule) then Lhs(rule) else SYM_EOF
  }

  /** Every inner node applies a production other than the accepting one. */
  ghost predicate IsDerivation(t: Tree) {
    match t
    case Leaf(token) => IsTokenKind(token.kind)
    case Branch(rule, kids) =>
      && IsRule(rule) && rule != 1
      && IsRhs(rule, 0, kids)
      && forall i :: 0 <= i < |kids| ==> IsDerivation(kids[i])
  }

  /** The trees derive the right-hand side of `r` from position `d` on. */
  ghost predicate IsRhs(r: int, d: nat, kids: seq<Tree>)
    requires IsRule(r)
  {
    && d + |kids| == RhsLen(r)
    && forall i :: 0 <= i < |kids| ==> Root(kids[i]) == RhsAt(r, d + i)
  }

  ghost predicate AreTokens(tokens: seq<Token>) {
    forall i :: 0 <= i < |tokens| ==> IsTokenKind(tokens[i].kind)
  }

  /** The tokens a tree derives, in source order. */
  function Yield(t: Tree): seq<Token>
    decreases t, 0
  {
    match t
    case Leaf(token) => [token]
    case Branch(_, kids) => YieldAll(kids)
  }

  function YieldAll(ts: seq<Tree>): seq<Token>
    decreases ts, 1
  {
    if ts == [] then [] else Yield(ts[0]) + YieldAll(ts[1..])
  }

  /** A program derives the token sequence. */
  ghost predicate Derives(t: Tree, tokens: seq<Token>) {
    IsDerivation(t) && Root(t) == SYM_PROGRAM && Yield(t) == tokens
  }

  lemma {:induction false} YieldAllConcat(a: seq<Tree>, b: seq<Tree>)
    ensures YieldAll(a + b) == YieldAll(a) + YieldAll(b)
  {
    if a == [] {
      assert a + b == b;
    } else {
      assert (a + b)[1..] == a[1..] + b;
      YieldAllConcat(a[1..], b);
    }
  }

  lemma YieldAllSingle(t: Tree)
    ensures YieldAll([t]) == Yield(t)
  {
  }

  lemma {:induction false} YieldAreTokens(t: Tree)
    requires IsDerivation(t)
    ensures AreTokens(Yield(t))
    decreases t, 0
  {
    if t.Branch? {
      YieldAllAreTokens(t.kids);
    }
  }

  lemma {:induction false} YieldAllAreTokens(ts: seq<Tree>)
    requires forall i :: 0 <= i < |ts| ==> IsDerivation(ts[i])
    ensures AreTokens(YieldAll(ts))
    decreases ts, 1
  {
    if ts != [] {
      YieldAreTokens(ts[0]);
      YieldAllAreTokens(ts[1..]);
    }
  }
}
