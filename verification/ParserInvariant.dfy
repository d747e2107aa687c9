// What ties the arenas to the derivations on the stack: every entry's chain denotes the meaning
// of its derivation, the chains own consecutive intervals of the node arena, and every WORD
// that was consumed has exactly one owner there, in source order.

module ParserInvariant {
  import opened Grammar
  import opened ParseTables
  import opened Automaton
  import opened Derivations
  import opened LrMachine
  import opened NodeArena
  import opened Syntax
  import opened Reductions
  import opened Context
  import opened NodeOps
  import opened Handlers
  import LrCompleteness

  /** The stack of the machine, seen in the arenas. */
  function Frames(stack: seq<Entry>, shadow: seq<Shadow>): (fs: seq<Frame>)
    requires |stack| == |shadow| + 1
    ensures |fs| == |shadow|
    ensures forall i :: 0 <= i < |fs| ==> fs[i] == Frame(stack[i + 1].state, shadow[i].tree)
  {
    seq(|shadow|, i requires 0 <= i < |shadow| => Frame(stack[i + 1].state, shadow[i].tree))
  }

  /** Where the records above the first `i` entries start. */
  function Mark(shadow: seq<Shadow>, i: nat): nat
    requires i <= |shadow|
  {
    if i == 0 then 1 else shadow[i - 1].hi
  }

  function WordOffsets(tokens: seq<Token>): seq<nat> {
    if tokens == [] then []
    else (if tokens[0].kind == SYM_WORD then [tokens[0].offset] else []) + WordOffsets(tokens[1..])
  }

  /** The words of a derivation that have an owner in the arena. */
  function Words(t: Tree): seq<nat>
    requires IsDerivation(t)
  {
    if t.Leaf? || Root(t) == SYM_HERE_END || Root(t) == SYM_PROGRAM then []
    else if Root(t) == SYM_COMPLETE_COMMANDS then WordOffsets(Yield(t.kids[|t.kids| - 1]))
    else WordOffsets(Yield(t))
  }

  function LiveWords(t: Tree): seq<nat>
    requires IsDerivation(t)
  {
    if Root(t) == SYM_COMPLETE_COMMANDS then [] else Words(t)
  }

  /** The entry's chain is in place, owns its interval, and denotes the given meaning. */
  ghost predicate ChainOk(nodes: seq<Node>, s: Shadow, node: nat, meaning: seq<Ast>, words: seq<nat>) {
    && node == Head(s.chain) && s.hi <= |nodes|
    && Holds(nodes, s.chain) && Owns(s.chain, s.lo, s.hi) && Ascending(s.chain)
    && Denote(s.chain) == meaning
    && Owners(nodes, s.lo, s.hi) == words
  }

  /** A symbol that derives tokens carries the arena index of the last one. */
  ghost predicate TokenOk(tokens: seq<TokenRecord>, e: Entry, t: Tree) {
    Root(t) != SYM_PROGRAM && Yield(t) != [] ==>
      && e.token == LastToken(Yield(t)).index
      && IsToken(tokens, e.token, LastToken(Yield(t)))
  }

  ghost predicate EntryOk(nodes: seq<Node>, tokens: seq<TokenRecord>, e: Entry, s: Shadow, pending: bool) {
    && IsDerivation(s.tree) && e.kind == Root(s.tree)
    && ChainOk(nodes, s, e.node, if pending then Meaning(s.tree) else Live(s.tree), if pending then Words(s.tree)
      else LiveWords(s.tree))
    && TokenOk(tokens, e, s.tree)
  }

  /**
   * The invariant of the parser's stack. `pending` says that the top entry is a list of
   * complete commands whose last element is about to be run.
   */
  ghost predicate StackOk(stack: seq<Entry>, nodes: seq<Node>, tokens: seq<TokenRecord>, shadow: seq<Shadow>,
                          pending: bool) {
    && |stack| == |shadow| + 1 && stack[0] == BOTTOM
    && nodes != [] && nodes[0] == SENTINEL && |nodes| == Mark(shadow, |shadow|)
    && IsPath(Frames(stack, shadow))
    && (forall i :: 0 <= i < |shadow| ==> shadow[i].lo == Mark(shadow, i))
    && forall i :: 0 <= i < |shadow| ==> EntryOk(nodes, tokens, stack[i + 1], shadow[i], pending && i == |shadow| - 1)
  }

  // ---- Words -----------------------------------------------------------------------------

  lemma WordOffsetsFirst(t: Token, rest: seq<Token>)
    ensures WordOffsets([t] + rest) == (if t.kind == SYM_WORD then [t.offset] else []) + WordOffsets(rest)
  {
    assert ([t] + rest)[1..] == rest;
  }

  lemma {:induction false} WordOffsetsConcat(a: seq<Token>, b: seq<Token>)
    ensures WordOffsets(a + b) == WordOffsets(a) + WordOffsets(b)
  {
    if a == [] {
      assert a + b == b;
    } else {
      assert a + b == [a[0]] + (a[1..] + b);
      assert a == [a[0]] + a[1..];
      WordOffsetsFirst(a[0], a[1..] + b);
      WordOffsetsFirst(a[0], a[1..]);
      WordOffsetsConcat(a[1..], b);
    }
  }

  function KidWords(kids: seq<Tree>): seq<nat>
    requires forall i :: 0 <= i < |kids| ==> IsDerivation(kids[i])
  {
    if kids == [] then [] else LiveWords(kids[0]) + KidWords(kids[1..])
  }

  /** A WORD that is not owned yet stands last, in front of a handler that gives it an owner. */
  lemma WordPositions(r: int, i: nat)
    requires IsRule(r) && r > 5 && r != 41 && i < RhsLen(r)
    ensures RhsAt(r, i) != SYM_COMPLETE_COMMANDS && RhsAt(r, i) != SYM_PROGRAM
    ensures RhsAt(r, i) == SYM_WORD || RhsAt(r, i) == SYM_HERE_END <==> TakesWord(r) && i == RhsLen(r) - 1
  {
  }

  /** A symbol owns its words, unless it is a WORD or a here-document's delimiter. */
  lemma WordsOfSymbol(t: Tree)
    requires IsDerivation(t) && Root(t) != SYM_COMPLETE_COMMANDS && Root(t) != SYM_PROGRAM
    ensures Root(t) != SYM_WORD && Root(t) != SYM_HERE_END ==> WordOffsets(Yield(t)) == LiveWords(t)
    ensures Root(t) == SYM_WORD || Root(t) == SYM_HERE_END ==>
              LiveWords(t) == [] && |Yield(t)| == 1 && WordOffsets(Yield(t)) == [Yield(t)[0].offset]
  {
    hide RhsAt, RhsLen, Lhs;
    if t.Leaf? {
      assert Yield(t)[1..] == [];
    } else {
      LrCompleteness.RootOfNode(t);
      if Root(t) == SYM_HERE_END { DelimiterIsWord(t); }
    }
  }

  lemma DelimiterIsWord(t: Tree)
    requires IsDerivation(t) && t.Branch? && Root(t) == SYM_HERE_END
    ensures |Yield(t)| == 1 && Yield(t)[0].kind == SYM_WORD
    ensures WordOffsets(Yield(t)) == [Yield(t)[0].offset]
  {
    assert t.rule == 41 && Root(t.kids[0]) == SYM_WORD;
    assert t.kids[0].Leaf?;
    assert t.kids == [t.kids[0]];
    YieldAllSingle(t.kids[0]);
    assert Yield(t)[1..] == [];
  }

  /** The words that have an owner below a right-hand side, and the new one, are all its words. */
  lemma {:induction false} WordsOfRhs(r: int, d: nat, kids: seq<Tree>)
    requires IsRule(r) && r > 5 && r != 41 && IsRhs(r, d, kids)
    requires forall i :: 0 <= i < |kids| ==> IsDerivation(kids[i])
    ensures WordOffsets(YieldAll(kids)) == KidWords(kids)
      + (if kids == [] then [] else NewWord(r, LastToken(YieldAll(kids))))
    ensures kids != [] && TakesWord(r) ==> YieldAll(kids) != []
    decreases kids
  {
    hide RhsAt, RhsLen, LiveWords, IsDerivation, Yield, TakesWord;
    if kids == [] {
    } else {
      var first, rest := kids[0], YieldAll(kids[1..]);
      WordOffsetsConcat(Yield(first), rest);
      assert Root(first) == RhsAt(r, d + 0);
      WordPositions(r, d);
      WordsOfSymbol(first);
      if |kids| == 1 {
        assert kids[1..] == [];
        assert Yield(first) + [] == Yield(first);
      } else {
        WordsOfRhs(r, d + 1, kids[1..]);
        assert rest != [] ==> LastToken(Yield(first) + rest) == LastToken(rest);
      }
    }
  }

  // ---- Reductions ------------------------------------------------------------------------

  function Min(a: nat, b: nat): nat {
    if a <= b then a else b
  }

  function KidChain(shadow: seq<Shadow>, r: int, i: nat): Cell
    requires IsRule(r) && RhsLen(r) <= |shadow|
  {
    if i < RhsLen(r) then shadow[|shadow| - RhsLen(r) + i].chain else Nil
  }

  /** Where the chains of the first `i` symbols of the right-hand side end. */
  function KidMark(shadow: seq<Shadow>, r: int, i: nat): nat
    requires IsRule(r) && RhsLen(r) <= |shadow|
  {
    Mark(shadow, |shadow| - RhsLen(r) + Min(i, RhsLen(r)))
  }

  function KidTrees(shadow: seq<Shadow>, r: int): (ts: seq<Tree>)
    requires IsRule(r) && RhsLen(r) <= |shadow|
    ensures |ts| == RhsLen(r)
    ensures forall i :: 0 <= i < |ts| ==> ts[i] == shadow[|shadow| - RhsLen(r) + i].tree
  {
    seq(RhsLen(r), i requires 0 <= i < RhsLen(r) => shadow[|shadow| - RhsLen(r) + i].tree)
  }

  /** The chains, words and intervals of the right-hand side on top of the stack. */
  function KidsOf(shadow: seq<Shadow>, r: int): Kids
    requires IsRule(r) && RhsLen(r) <= |shadow|
  {
    Kids(KidChain(shadow, r, 0), KidChain(shadow, r, 1), KidChain(shadow, r, 2), KidChain(shadow, r, 3),
         LastToken(YieldAll(KidTrees(shadow, r))),
         KidMark(shadow, r, 0), KidMark(shadow, r, 1), KidMark(shadow, r, 2), KidMark(shadow, r, 3))
  }

  /** The facts a reduction by `r` starts from. */
  ghost predicate CanReduce(stack: seq<Entry>, nodes: seq<Node>, tokens: seq<TokenRecord>, shadow: seq<Shadow>,
                            r: int) {
    && StackOk(stack, nodes, tokens, shadow, false)
    && IsRule(r) && r != 1 && RhsLen(r) <= |shadow|
    && IsDerivation(Branch(r, KidTrees(shadow, r)))
  }

  lemma RhsIsShort(r: int)
    requires IsRule(r)
    ensures RhsLen(r) <= 4
  {
  }

  lemma NilIsEmpty(nodes: seq<Node>, i: nat)
    ensures Holds(nodes, Nil) && Owns(Nil, i, i) && Ascending(Nil) && Denote(Nil) == []
  {
  }

  /** What the invariant says of one entry. */
  lemma StackEntry(stack: seq<Entry>, nodes: seq<Node>, tokens: seq<TokenRecord>, shadow: seq<Shadow>, pending: bool,
                   i: nat)
    requires StackOk(stack, nodes, tokens, shadow, pending) && i < |shadow|
    ensures |stack| == |shadow| + 1
    ensures EntryOk(nodes, tokens, stack[i + 1], shadow[i], pending && i == |shadow| - 1)
    ensures shadow[i].lo == Mark(shadow, i) && shadow[i].hi == Mark(shadow, i + 1)
    ensures Mark(shadow, i) <= Mark(shadow, i + 1) <= |nodes|
  {
    hide IsPath, Holds, Meaning, Live, Denote, Owners, Words, LiveWords, IsDerivation, TokenOk;
  }

  lemma {:induction false} MarksArePositive(stack: seq<Entry>, nodes: seq<Node>, tokens: seq<TokenRecord>,
                                            shadow: seq<Shadow>, pending: bool, i: nat)
    requires StackOk(stack, nodes, tokens, shadow, pending) && i <= |shadow|
    ensures 0 < Mark(shadow, i) <= |nodes|
    decreases i
  {
    hide StackOk, EntryOk;
    if 0 < i {
      MarksArePositive(stack, nodes, tokens, shadow, pending, i - 1);
      StackEntry(stack, nodes, tokens, shadow, pending, i - 1);
    } else {
      NodesNotEmpty(stack, nodes, tokens, shadow, pending);
    }
  }

  lemma NodesNotEmpty(stack: seq<Entry>, nodes: seq<Node>, tokens: seq<TokenRecord>, shadow: seq<Shadow>, pending: bool)
    requires StackOk(stack, nodes, tokens, shadow, pending)
    ensures nodes != [] && |nodes| == Mark(shadow, |shadow|)
  {
    hide IsPath, EntryOk;
  }

  lemma DerivedRhs(r: int, kids: seq<Tree>, i: nat)
    requires IsDerivation(Branch(r, kids)) && i < |kids|
    ensures IsRule(r) && i < RhsLen(r) == |kids| && Root(kids[i]) == RhsAt(r, i) && IsDerivation(kids[i])
  {
    assert Root(kids[i]) == RhsAt(r, 0 + i);
  }

  lemma KidChainOk(stack: seq<Entry>, nodes: seq<Node>, tokens: seq<TokenRecord>, shadow: seq<Shadow>, r: int, i: nat)
    requires CanReduce(stack, nodes, tokens, shadow, r) && |stack| == |shadow| + 1
    ensures Holds(nodes, KidChain(shadow, r, i))
    ensures Owns(KidChain(shadow, r, i), KidMark(shadow, r, i), KidMark(shadow, r, i + 1))
    ensures Ascending(KidChain(shadow, r, i)) && WellTagged(KidChain(shadow, r, i))
    ensures Denote(KidChain(shadow, r, i)) == KidMeaning(r, KidTrees(shadow, r), i)
    ensures EntryAt(stack, r, i, KidChain(shadow, r, i))
    ensures 0 < KidMark(shadow, r, i) <= KidMark(shadow, r, i + 1) <= |nodes|
  {
    hide RhsLen, RhsAt, IsPath, IsDerivation, Owns, Live, Meaning, Owners, Ascending, Denote, StackOk, IsToken;
    var n := |shadow| - RhsLen(r);
    MarksArePositive(stack, nodes, tokens, shadow, false, n + Min(i, RhsLen(r)));
    if i < RhsLen(r) {
      StackEntry(stack, nodes, tokens, shadow, false, n + i);
      DerivedRhs(r, KidTrees(shadow, r), i);
    } else {
      NilIsEmpty(nodes, KidMark(shadow, r, i));
    }
  }

  lemma LastOfConcat(a: seq<Token>, b: seq<Token>)
    requires b != []
    ensures a + b != [] && LastToken(a + b) == LastToken(b)
  {
  }

  /** The last token of a right-hand side is the last token of its last symbol. */
  lemma LastTokenOfRhs(ts: seq<Tree>)
    requires ts != [] && Yield(ts[|ts| - 1]) != []
    ensures YieldAll(ts) != [] && LastToken(YieldAll(ts)) == LastToken(Yield(ts[|ts| - 1]))
  {
    hide Yield, YieldAll, LastToken;
    var init, last := ts[..|ts| - 1], ts[|ts| - 1];
    assert ts == init + [last];
    YieldAllConcat(init, [last]);
    YieldAllSingle(last);
    LastOfConcat(YieldAll(init), Yield(last));
  }

  /** A symbol other than a linebreak or a program derives at least one token. */
  lemma DerivesToken(t: Tree)
    requires IsDerivation(t) && Root(t) != SYM_LINEBREAK && Root(t) != SYM_PROGRAM
    ensures Yield(t) != []
  {
    LrCompleteness.FirstOfYield(t);
  }

  /** The WORD a handler gives an owner is the last token of the right-hand side. */
  lemma WordIsLast(stack: seq<Entry>, nodes: seq<Node>, tokens: seq<TokenRecord>, shadow: seq<Shadow>, r: int)
    requires CanReduce(stack, nodes, tokens, shadow, r) && |stack| == |shadow| + 1 && TakesWord(r)
    ensures IsToken(tokens, stack[|stack| - 1].token, KidsOf(shadow, r).word)
  {
    hide RhsLen, RhsAt, IsPath, IsDerivation, StackOk, IsToken, ChainOk, Yield, YieldAll;
    WordRuleHasRhs(r);
    var kids := KidTrees(shadow, r);
    var last := kids[|kids| - 1];
    DerivedRhs(r, kids, |kids| - 1);
    StackEntry(stack, nodes, tokens, shadow, false, |shadow| - 1);
    DerivesToken(last);
    LastTokenOfRhs(kids);
  }

  lemma WordRuleHasRhs(r: int)
    requires IsRule(r) && TakesWord(r)
    ensures RhsLen(r) > 0
    ensures RhsAt(r, RhsLen(r) - 1) == SYM_WORD || RhsAt(r, RhsLen(r) - 1) == SYM_HERE_END
  {
  }

  /** Every reduction finds its right-hand side on the stack the way its handler needs it. */
  lemma RhsIsReady(stack: seq<Entry>, nodes: seq<Node>, tokens: seq<TokenRecord>, shadow: seq<Shadow>, r: int)
    requires CanReduce(stack, nodes, tokens, shadow, r)
    ensures RhsReady(stack, nodes, tokens, r, KidsOf(shadow, r))
  {
    hide RhsLen, RhsAt, IsPath, IsDerivation, Owns, Owners, Ascending, Denote, StackOk, IsToken, Holds, CellsFit,
      KidTrees, EntryAt, KidMeaning, ShapeAt;
    StackIsLonger(stack, nodes, tokens, shadow, r);
    RhsIsShort(r);
    KidChainOk(stack, nodes, tokens, shadow, r, 0);
    KidChainOk(stack, nodes, tokens, shadow, r, 1);
    KidChainOk(stack, nodes, tokens, shadow, r, 2);
    KidChainOk(stack, nodes, tokens, shadow, r, 3);
    KidShapes(stack, nodes, tokens, shadow, r);
    if TakesWord(r) { WordIsLast(stack, nodes, tokens, shadow, r); }
  }

  lemma StackIsLonger(stack: seq<Entry>, nodes: seq<Node>, tokens: seq<TokenRecord>, shadow: seq<Shadow>, r: int)
    requires CanReduce(stack, nodes, tokens, shadow, r)
    ensures |stack| == |shadow| + 1 && nodes != [] && |nodes| == Mark(shadow, |shadow|)
  {
    hide EntryOk, IsPath;
  }

  /** The chains on the stack have the shapes their symbols have. */
  lemma KidShapes(stack: seq<Entry>, nodes: seq<Node>, tokens: seq<TokenRecord>, shadow: seq<Shadow>, r: int)
    requires CanReduce(stack, nodes, tokens, shadow, r)
    ensures var k := KidsOf(shadow, r);
      && ShapesFit(r, Denote(k.a), Denote(k.b), Denote(k.c), Denote(k.d))
      && CellsFit(r, k.a, k.b, k.c, k.d)
  {
    hide RhsLen, RhsAt, IsPath, Owns, Owners, Ascending, Denote, StackOk, IsToken, Holds, CellsFit, KidTrees, EntryAt,
      ShapeAt, WellTagged;
    StackIsLonger(stack, nodes, tokens, shadow, r);
    KidChainOk(stack, nodes, tokens, shadow, r, 0);
    KidChainOk(stack, nodes, tokens, shadow, r, 1);
    KidChainOk(stack, nodes, tokens, shadow, r, 2);
    KidChainOk(stack, nodes, tokens, shadow, r, 3);
    var k := KidsOf(shadow, r);
    ShapesOfCells(r, k.a, k.b, k.c, k.d);
  }

  // ---- The stack after a reduction -------------------------------------------------------

  /** The words owned above entry `i` are those of the entries from there on. */
  lemma {:induction false} OwnersAbove(stack: seq<Entry>, nodes: seq<Node>, tokens: seq<TokenRecord>,
                                       shadow: seq<Shadow>, i: nat, ts: seq<Tree>)
    requires StackOk(stack, nodes, tokens, shadow, false) && i + |ts| == |shadow|
    requires forall k :: 0 <= k < |ts| ==> IsDerivation(ts[k]) && ts[k] == shadow[i + k].tree
    ensures Mark(shadow, i) <= |nodes| && Owners(nodes, Mark(shadow, i), |nodes|) == KidWords(ts)
    decreases ts
  {
    hide StackOk, IsDerivation, Holds, Owns, Ascending, Denote, TokenOk, LiveWords, Words, Live;
    NodesNotEmpty(stack, nodes, tokens, shadow, false);
    if ts != [] {
      StackEntry(stack, nodes, tokens, shadow, false, i);
      OwnersAbove(stack, nodes, tokens, shadow, i + 1, ts[1..]);
      OwnersSplit(nodes, Mark(shadow, i), Mark(shadow, i + 1), |nodes|);
    }
  }

  /** The owned words of a right-hand side and the new one are the owned words of the result. */
  lemma WordsOfResult(r: int, kids: seq<Tree>)
    requires IsDerivation(Branch(r, kids)) && r > 5
    ensures forall i :: 0 <= i < |kids| ==> IsDerivation(kids[i])
    ensures KidWords(kids) + NewWord(r, LastToken(YieldAll(kids))) == Words(Branch(r, kids))
  {
    hide RhsLen, RhsAt, LiveWords;
    if r == 41 {
      DelimiterKid(kids);
    } else {
      WordsOfRhs(r, 0, kids);
      LhsIsPlain(r);
      EmptyTakesNoWord(r);
    }
  }

  lemma LhsIsPlain(r: int)
    requires IsRule(r) && r > 5 && r != 41
    ensures Lhs(r) != SYM_HERE_END && Lhs(r) != SYM_COMPLETE_COMMANDS && Lhs(r) != SYM_PROGRAM
  {
  }

  lemma EmptyTakesNoWord(r: int)
    requires IsRule(r)
    ensures RhsLen(r) == 0 ==> !TakesWord(r)
  {
  }

  lemma DelimiterKid(kids: seq<Tree>)
    requires IsDerivation(Branch(41, kids))
    ensures |kids| == 1 && IsDerivation(kids[0]) && KidWords(kids) == []
  {
    assert Root(kids[0]) == SYM_WORD;
    assert kids[0].Leaf?;
    assert kids[1..] == [];
  }

  /** The owners in a result's interval are the result's words. */
  lemma OwnersOfResult(stack: seq<Entry>, nodes: seq<Node>, tokens: seq<TokenRecord>, shadow: seq<Shadow>, r: int,
                       after: seq<Node>, nodeIdx: nat)
    requires CanReduce(stack, nodes, tokens, shadow, r)
    requires var k := KidsOf(shadow, r); CellsFit(r, k.a, k.b, k.c, k.d) && HandlerDone(nodes, after, r, k, nodeIdx)
    ensures KidsOf(shadow, r).lo <= |after|
    ensures Owners(after, KidsOf(shadow, r).lo, |after|) == Words(Branch(r, KidTrees(shadow, r)))
  {
    hide RhsLen, RhsAt, IsPath, StackOk, Holds, Owns, IsToken, Build, CellsFit, LiveWords, Words, Owners, Yield,
      YieldAll, IsDerivation;
    var n, kids := |shadow| - RhsLen(r), KidTrees(shadow, r);
    KidsAreDerivations(r, kids);
    OwnersAbove(stack, nodes, tokens, shadow, n, kids);
    MarksArePositive(stack, nodes, tokens, shadow, false, n);
    OwnersFrame(nodes, after, Mark(shadow, n), |nodes|);
    OwnersSplit(after, Mark(shadow, n), |nodes|, |after|);
    assert Owners(after, Mark(shadow, n), |after|) == KidWords(kids) + NewWord(r, LastToken(YieldAll(kids)));
    if r > 5 {
      WordsOfResult(r, kids);
    } else {
      WordsAfterRun(stack, nodes, tokens, shadow, r);
    }
  }

  lemma KidsAreDerivations(r: int, kids: seq<Tree>)
    requires IsDerivation(Branch(r, kids))
    ensures IsRule(r) && r != 1 && |kids| == RhsLen(r)
    ensures forall i :: 0 <= i < |kids| ==> IsDerivation(kids[i])
  {
  }

  /** Around complete commands only the command list that is about to be run owns words. */
  lemma WordsAfterRun(stack: seq<Entry>, nodes: seq<Node>, tokens: seq<TokenRecord>, shadow: seq<Shadow>, r: int)
    requires CanReduce(stack, nodes, tokens, shadow, r) && r <= 5
    ensures forall i :: 0 <= i < |KidTrees(shadow, r)| ==> IsDerivation(KidTrees(shadow, r)[i])
    ensures KidWords(KidTrees(shadow, r)) == Words(Branch(r, KidTrees(shadow, r)))
    ensures !TakesWord(r)
  {
    hide IsPath, StackOk, Holds, Ascending, IsToken, Owns, RhsAt, RhsLen, Lhs, LiveWords, Words, KidWords, IsDerivation;
    var n, kids := |shadow| - RhsLen(r), KidTrees(shadow, r);
    KidsAreDerivations(r, kids);
    StackIsLonger(stack, nodes, tokens, shadow, r);
    forall i | 0 <= i < RhsLen(r) ensures KidChain(shadow, r, i) == Nil ==> LiveWords(kids[i]) == [] {
      StackEntry(stack, nodes, tokens, shadow, false, n + i);
      if KidChain(shadow, r, i) == Nil {
        NilOwnsNothing(shadow[n + i].lo, shadow[n + i].hi);
      }
    }
    KidShapes(stack, nodes, tokens, shadow, r);
    RunRuleLengths(r);
    WordsOfRun(r, kids);
  }

  lemma RunRuleLengths(r: int)
    requires 2 <= r <= 5
    ensures RhsLen(r) == if r == 2 || r == 4 then 3 else 1
  {
  }

  lemma WordsOfRun(r: int, kids: seq<Tree>)
    requires IsDerivation(Branch(r, kids)) && 2 <= r <= 5
    requires forall i :: 0 <= i < |kids| ==> IsDerivation(kids[i])
    requires forall i :: 0 <= i < |kids| && (r <= 3 || i < |kids| - 1) ==> LiveWords(kids[i]) == []
    ensures KidWords(kids) == Words(Branch(r, kids))
  {
    hide IsDerivation, LiveWords, RhsLen, RhsAt, Lhs, Words, KidWords, WordOffsets, Yield, Root;
    RunRuleLengths(r);
    KidsAreDerivations(r, kids);
    KidWordsOfLast(kids);
    DerivedRhs(r, kids, |kids| - 1);
    WordsOfRunResult(r, kids);
    if r >= 4 {
      RunRuleLast(r);
      WordsOfSymbol(kids[|kids| - 1]);
    }
  }

  lemma {:induction false} KidWordsOfLast(kids: seq<Tree>)
    requires kids != [] && forall i :: 0 <= i < |kids| ==> IsDerivation(kids[i])
    requires forall i :: 0 <= i < |kids| - 1 ==> LiveWords(kids[i]) == []
    ensures KidWords(kids) == LiveWords(kids[|kids| - 1])
    decreases kids
  {
    hide IsDerivation, LiveWords;
    if |kids| == 1 {
      assert kids[1..] == [];
    } else {
      KidWordsOfLast(kids[1..]);
    }
  }

  lemma WordsOfRunResult(r: int, kids: seq<Tree>)
    requires IsDerivation(Branch(r, kids)) && 2 <= r <= 5 && kids != []
    ensures Words(Branch(r, kids)) == if r <= 3 then [] else WordOffsets(Yield(kids[|kids| - 1]))
  {
  }

  lemma RunRuleLast(r: int)
    requires 4 <= r <= 5
    ensures RhsAt(r, RhsLen(r) - 1) == SYM_AND_OR
  {
  }

  lemma NilOwnsNothing(lo: nat, hi: nat)
    requires Owns(Nil, lo, hi)
    ensures lo == hi
  {
    assert Uses(Nil, lo) == 0;
  }

  /** The shadow of a reduction's result. */
  function ResultShadow(shadow: seq<Shadow>, r: int, from: nat, to: nat): Shadow
    requires IsRule(r) && RhsLen(r) <= |shadow|
    requires var k := KidsOf(shadow, r); CellsFit(r, k.a, k.b, k.c, k.d)
  {
    Shadow(Branch(r, KidTrees(shadow, r)), Built(r, KidsOf(shadow, r), from), KidsOf(shadow, r).lo, to)
  }

  /** The result's chain is in place, owns what its symbols owned, and denotes its meaning. */
  lemma ResultChainOk(stack: seq<Entry>, nodes: seq<Node>, tokens: seq<TokenRecord>, shadow: seq<Shadow>, r: int,
                      after: seq<Node>, nodeIdx: nat)
    requires CanReduce(stack, nodes, tokens, shadow, r)
    requires var k := KidsOf(shadow, r); CellsFit(r, k.a, k.b, k.c, k.d) && HandlerDone(nodes, after, r, k, nodeIdx)
    ensures var t := Branch(r, KidTrees(shadow, r));
      ChainOk(after, ResultShadow(shadow, r, |nodes|, |after|), nodeIdx, Meaning(t), Words(t))
  {
    hide RhsLen, RhsAt, IsPath, StackOk, Holds, Owns, IsToken, Build, CellsFit, LiveWords, Words, Owners, Yield,
      YieldAll,
      KidTrees, KidChain, KidMark, Ascending, Denote, ShapeAt, Allocates, EntryAt, Relinked, NewWord, Combine;
    var k := KidsOf(shadow, r);
    RhsIsShort(r);
    StackIsLonger(stack, nodes, tokens, shadow, r);
    KidChainOk(stack, nodes, tokens, shadow, r, 0);
    KidChainOk(stack, nodes, tokens, shadow, r, 1);
    KidChainOk(stack, nodes, tokens, shadow, r, 2);
    KidChainOk(stack, nodes, tokens, shadow, r, 3);
    KidMarkEnd(shadow, r);
    KidShapes(stack, nodes, tokens, shadow, r);
    BuildDenotes(r, k.a, k.b, k.c, k.d, k.word, |nodes|);
    BuildOwns(r, k.a, k.b, k.c, k.d, k.word, k.lo, k.l1, k.l2, k.l3, |nodes|);
    BuildAscends(r, k.a, k.b, k.c, k.d, k.word, k.lo, k.l1, k.l2, k.l3, |nodes|);
    OwnersOfResult(stack, nodes, tokens, shadow, r, after, nodeIdx);
  }

  lemma KidMarkEnd(shadow: seq<Shadow>, r: int)
    requires IsRule(r) && RhsLen(r) <= |shadow|
    ensures KidMark(shadow, r, 4) == Mark(shadow, |shadow|)
  {
    RhsIsShort(r);
  }

  /** The result takes over the last symbol's token index, which is its own last token's. */
  lemma ResultTokenOk(stack: seq<Entry>, nodes: seq<Node>, tokens: seq<TokenRecord>, shadow: seq<Shadow>, r: int,
                      e: Entry)
    requires CanReduce(stack, nodes, tokens, shadow, r) && |stack| == |shadow| + 1
    requires 0 < RhsLen(r) ==> e.token == stack[|stack| - 1].token
    ensures TokenOk(tokens, e, Branch(r, KidTrees(shadow, r)))
  {
    hide RhsLen, RhsAt, Lhs, IsPath, StackOk, IsToken, ChainOk, IsDerivation;
    var kids := KidTrees(shadow, r);
    if Lhs(r) != SYM_PROGRAM && 0 < RhsLen(r) {
      var last := kids[|kids| - 1];
      DerivedRhs(r, kids, |kids| - 1);
      StackEntry(stack, nodes, tokens, shadow, false, |shadow| - 1);
      LastIsNotEmpty(r);
      DerivesToken(last);
      LastTokenOfRhs(kids);
    } else if RhsLen(r) == 0 {
      assert kids == [] && YieldAll(kids) == [];
    }
  }

  lemma LastIsNotEmpty(r: int)
    requires IsRule(r) && r != 1 && 0 < RhsLen(r) && Lhs(r) != SYM_PROGRAM
    ensures RhsAt(r, RhsLen(r) - 1) != SYM_LINEBREAK && RhsAt(r, RhsLen(r) - 1) != SYM_PROGRAM
  {
  }

  /** An entry below the reduction is not touched by it. */
  lemma EntryBelow(stack: seq<Entry>, nodes: seq<Node>, tokens: seq<TokenRecord>, shadow: seq<Shadow>, i: nat,
                   after: seq<Node>, lo: nat)
    requires StackOk(stack, nodes, tokens, shadow, false) && i < |shadow| && |stack| == |shadow| + 1
    requires Relinked(nodes, after, lo) && Mark(shadow, i + 1) <= lo
    ensures EntryOk(after, tokens, stack[i + 1], shadow[i], false)
  {
    hide IsPath, StackOk, Holds, IsToken, Denote, Ascending, Live, LiveWords, IsDerivation, TokenOk;
    StackEntry(stack, nodes, tokens, shadow, false, i);
    FrameBelow(nodes, after, shadow[i].chain, shadow[i].lo, shadow[i].hi);
    OwnersFrame(nodes, after, shadow[i].lo, shadow[i].hi);
  }

  lemma {:induction false} MarksUpTo(stack: seq<Entry>, nodes: seq<Node>, tokens: seq<TokenRecord>, shadow: seq<Shadow>,
                                     i: nat, n: nat)
    requires StackOk(stack, nodes, tokens, shadow, false) && i <= n <= |shadow|
    ensures Mark(shadow, i) <= Mark(shadow, n)
    decreases n - i
  {
    hide StackOk, EntryOk;
    if i < n {
      StackEntry(stack, nodes, tokens, shadow, false, i);
      MarksUpTo(stack, nodes, tokens, shadow, i + 1, n);
    }
  }

  lemma LiveIsMeaning(t: Tree)
    requires IsDerivation(t) && Root(t) != SYM_COMPLETE_COMMANDS
    ensures Live(t) == Meaning(t) && LiveWords(t) == Words(t)
  {
  }

  lemma StackBottom(stack: seq<Entry>, nodes: seq<Node>, tokens: seq<TokenRecord>, shadow: seq<Shadow>, pending: bool)
    requires StackOk(stack, nodes, tokens, shadow, pending)
    ensures |stack| == |shadow| + 1 && stack[0] == BOTTOM && nodes != [] && nodes[0] == SENTINEL
    ensures |nodes| == Mark(shadow, |shadow|)
    ensures IsPath(Frames(stack, shadow))
  {
    hide IsPath, EntryOk;
  }

  /** The stack after replacing a right-hand side by its result. */
  function Replaced(stack: seq<Entry>, len: nat, e: Entry): seq<Entry>
    requires len <= |stack|
  {
    stack[..|stack| - len] + [e]
  }

  /** The invariant, put together from its parts. */
  lemma NewStackOk(stack: seq<Entry>, nodes: seq<Node>, tokens: seq<TokenRecord>, shadow: seq<Shadow>, pending: bool)
    requires |stack| == |shadow| + 1 && stack[0] == BOTTOM
    requires nodes != [] && nodes[0] == SENTINEL && |nodes| == Mark(shadow, |shadow|)
    requires IsPath(Frames(stack, shadow))
    requires forall i :: 0 <= i < |shadow| ==> shadow[i].lo == Mark(shadow, i)
    requires forall i ::
      0 <= i < |shadow| ==> EntryOk(nodes, tokens, stack[i + 1], shadow[i], pending && i == |shadow| - 1)
    ensures StackOk(stack, nodes, tokens, shadow, pending)
  {
    hide IsPath, EntryOk;
  }

  /** A reduction keeps the invariant of the stack. */
  lemma ReduceKeepsStack(stack: seq<Entry>, nodes: seq<Node>, tokens: seq<TokenRecord>, shadow: seq<Shadow>, r: int,
                         after: seq<Node>, e: Entry)
    requires CanReduce(stack, nodes, tokens, shadow, r)
    requires var k := KidsOf(shadow, r); CellsFit(r, k.a, k.b, k.c, k.d) && HandlerDone(nodes, after, r, k, e.node)
    requires e.kind == Lhs(r) && |stack| == |shadow| + 1
    requires 0 < RhsLen(r) ==> e.token == stack[|stack| - 1].token
    requires IsPath(Frames(Replaced(stack, RhsLen(r), e), shadow[..|shadow| - RhsLen(r)]
      + [ResultShadow(shadow, r, |nodes|, |after|)]))
    ensures StackOk(Replaced(stack, RhsLen(r), e), after, tokens,
                    shadow[..|shadow| - RhsLen(r)] + [ResultShadow(shadow, r, |nodes|, |after|)], e.kind
                      == SYM_COMPLETE_COMMANDS)
  {
    hide RhsLen, Lhs, IsPath, StackOk, EntryOk, CellsFit, HandlerDone, CanReduce, KidsOf, ResultShadow, Mark;
    BottomStays(stack, nodes, tokens, shadow, r, after, e.node);
    var n := |shadow| - RhsLen(r);
    var s := ResultShadow(shadow, r, |nodes|, |after|);
    var stack', shadow' := Replaced(stack, RhsLen(r), e), shadow[..n] + [s];
    ResultEntryOk(stack, nodes, tokens, shadow, r, after, e);
    ResultMarks(shadow, r, |nodes|, |after|);
    forall i | 0 <= i < |shadow'|
      ensures EntryOk(after, tokens, stack'[i + 1], shadow'[i], e.kind == SYM_COMPLETE_COMMANDS && i == |shadow'| - 1)
      ensures shadow'[i].lo == Mark(shadow', i)
    {
      SameMark(shadow, s, n, i);
      if i < n {
        EntryStays(stack, nodes, tokens, shadow, r, i, after, e.node);
      }
    }
    SameMark(shadow, s, n, n + 1);
    NewStackOk(stack', after, tokens, shadow', e.kind == SYM_COMPLETE_COMMANDS);
  }

  lemma SameMark(shadow: seq<Shadow>, s: Shadow, n: nat, i: nat)
    requires n <= |shadow| && i <= n + 1
    ensures i <= n ==> Mark(shadow[..n] + [s], i) == Mark(shadow, i)
    ensures i == n + 1 ==> Mark(shadow[..n] + [s], i) == s.hi
  {
  }

  /** The result's entry is in order. */
  lemma ResultEntryOk(stack: seq<Entry>, nodes: seq<Node>, tokens: seq<TokenRecord>, shadow: seq<Shadow>, r: int,
                      after: seq<Node>, e: Entry)
    requires CanReduce(stack, nodes, tokens, shadow, r)
    requires var k := KidsOf(shadow, r); CellsFit(r, k.a, k.b, k.c, k.d) && HandlerDone(nodes, after, r, k, e.node)
    requires e.kind == Lhs(r) && |stack| == |shadow| + 1
    requires 0 < RhsLen(r) ==> e.token == stack[|stack| - 1].token
    ensures EntryOk(after, tokens, e, ResultShadow(shadow, r, |nodes|, |after|), e.kind == SYM_COMPLETE_COMMANDS)
  {
    hide RhsLen, Lhs, StackOk, ChainOk, CellsFit, HandlerDone, KidsOf, Built, Meaning, Words, Live, LiveWords, TokenOk,
      IsDerivation;
    ResultChainOk(stack, nodes, tokens, shadow, r, after, e.node);
    ResultTokenOk(stack, nodes, tokens, shadow, r, e);
    if Lhs(r) != SYM_COMPLETE_COMMANDS { LiveIsMeaning(Branch(r, KidTrees(shadow, r))); }
  }

  /** The result's records lie where those of its symbols started, up to the arena's end. */
  lemma ResultMarks(shadow: seq<Shadow>, r: int, from: nat, to: nat)
    requires IsRule(r) && RhsLen(r) <= |shadow| && var k := KidsOf(shadow, r); CellsFit(r, k.a, k.b, k.c, k.d)
    ensures ResultShadow(shadow, r, from, to).lo == KidsOf(shadow, r).lo == Mark(shadow, |shadow| - RhsLen(r))
    ensures ResultShadow(shadow, r, from, to).hi == to
  {
    hide CellsFit, Built, KidTrees, RhsLen, YieldAll;
  }

  /** The bottom of stack and arena after a reduction. */
  lemma BottomStays(stack: seq<Entry>, nodes: seq<Node>, tokens: seq<TokenRecord>, shadow: seq<Shadow>, r: int,
                    after: seq<Node>, nodeIdx: nat)
    requires CanReduce(stack, nodes, tokens, shadow, r) && |stack| == |shadow| + 1
    requires var k := KidsOf(shadow, r); CellsFit(r, k.a, k.b, k.c, k.d) && HandlerDone(nodes, after, r, k, nodeIdx)
    ensures IsRule(r) && r != 1 && RhsLen(r) <= |shadow| && stack[0] == BOTTOM && after != [] && after[0] == SENTINEL
  {
    hide StackOk, CellsFit, KidTrees, RhsLen, IsDerivation, KidsOf, HandlerDone, ResultShadow;
    StackBottom(stack, nodes, tokens, shadow, false);
    MarksArePositive(stack, nodes, tokens, shadow, false, |shadow| - RhsLen(r));
    ResultMarks(shadow, r, |nodes|, |after|);
    KeepsBelow(nodes, after, r, KidsOf(shadow, r), nodeIdx);
  }

  lemma KeepsBelow(nodes: seq<Node>, after: seq<Node>, r: int, k: Kids, nodeIdx: nat)
    requires IsRule(r) && CellsFit(r, k.a, k.b, k.c, k.d) && HandlerDone(nodes, after, r, k, nodeIdx)
    ensures |nodes| <= |after| && forall i :: 0 <= i < k.lo && i < |nodes| ==> after[i] == nodes[i]
  {
    hide CellsFit, Built, Holds, Owners, NewWord, Allocates;
  }

  /** An entry below the right-hand side stays as it is. */
  lemma EntryStays(stack: seq<Entry>, nodes: seq<Node>, tokens: seq<TokenRecord>, shadow: seq<Shadow>, r: int, i: nat,
                   after: seq<Node>, nodeIdx: nat)
    requires CanReduce(stack, nodes, tokens, shadow, r) && |stack| == |shadow| + 1 && IsRule(r) && RhsLen(r) <= |shadow|
    requires i < |shadow| - RhsLen(r)
    requires var k := KidsOf(shadow, r); CellsFit(r, k.a, k.b, k.c, k.d) && HandlerDone(nodes, after, r, k, nodeIdx)
    ensures EntryOk(after, tokens, stack[i + 1], shadow[i], false) && shadow[i].lo == Mark(shadow, i)
  {
    hide StackOk, EntryOk, CellsFit, Built, KidTrees, RhsLen, IsDerivation, Holds, Owners, NewWord, Allocates;
    MarksUpTo(stack, nodes, tokens, shadow, i + 1, |shadow| - RhsLen(r));
    EntryBelow(stack, nodes, tokens, shadow, i, after, KidsOf(shadow, r).lo);
    StackEntry(stack, nodes, tokens, shadow, false, i);
  }

  // ---- Shifts and runs -------------------------------------------------------------------

  /** A shifted token has no records. */
  lemma ShiftKeepsStack(stack: seq<Entry>, nodes: seq<Node>, tokens: seq<TokenRecord>, shadow: seq<Shadow>,
                        token: Token, e: Entry)
    requires StackOk(stack, nodes, tokens, shadow, false) && |stack| == |shadow| + 1
    requires e.kind == token.kind && IsTokenKind(token.kind) && e.node == 0 && e.token == token.index
    requires IsToken(tokens, token.index, token)
    requires IsPath(Frames(stack + [e], shadow + [Shadow(Leaf(token), Nil, |nodes|, |nodes|)]))
    ensures StackOk(stack + [e], nodes, tokens, shadow + [Shadow(Leaf(token), Nil, |nodes|, |nodes|)], false)
  {
    hide StackOk, IsPath, EntryOk, IsToken;
    var s := Shadow(Leaf(token), Nil, |nodes|, |nodes|);
    var stack', shadow' := stack + [e], shadow + [s];
    StackBottom(stack, nodes, tokens, shadow, false);
    LeafOk(nodes, tokens, token, e, s);
    forall i | 0 <= i < |shadow'| ensures EntryOk(nodes, tokens, stack'[i + 1], shadow'[i], false)
      && shadow'[i].lo == Mark(shadow', i) {
      if i < |shadow| {
        StackEntry(stack, nodes, tokens, shadow, false, i);
        assert stack'[i + 1] == stack[i + 1] && shadow'[i] == shadow[i];
      }
    }
    NewStackOk(stack', nodes, tokens, shadow', false);
  }

  lemma LeafOk(nodes: seq<Node>, tokens: seq<TokenRecord>, token: Token, e: Entry, s: Shadow)
    requires e.kind == token.kind && IsTokenKind(token.kind) && e.node == 0 && e.token == token.index
    requires IsToken(tokens, token.index, token)
    requires s == Shadow(Leaf(token), Nil, |nodes|, |nodes|)
    ensures EntryOk(nodes, tokens, e, s, false)
  {
    NilIsEmpty(nodes, |nodes|);
  }

  /** At a pending run the stack is exactly a linebreak and the complete commands. */
  lemma PendingStack(stack: seq<Entry>, nodes: seq<Node>, tokens: seq<TokenRecord>, shadow: seq<Shadow>)
    requires StackOk(stack, nodes, tokens, shadow, true) && shadow != []
    requires Root(shadow[|shadow| - 1].tree) == SYM_COMPLETE_COMMANDS
    ensures |shadow| == 2 && Root(shadow[0].tree) == SYM_LINEBREAK
  {
    hide EntryOk, IsDerivation;
    StackBottom(stack, nodes, tokens, shadow, true);
    CommandsOnLinebreak(Frames(stack, shadow));
  }

  lemma CommandsOnLinebreak(fs: seq<Frame>)
    requires IsPath(fs) && fs != [] && Root(fs[|fs| - 1].tree) == SYM_COMPLETE_COMMANDS
    ensures |fs| == 2 && Root(fs[0].tree) == SYM_LINEBREAK
  {
    hide IsDerivation, After;
    var below := fs[..|fs| - 1];
    assert IsEdge(fs, |fs| - 1) && Before(Top(below), SYM_COMPLETE_COMMANDS);
    PathPrefix(fs, |fs| - 1);
    ProgramItems();
    ItemOnStack(below, 2, 1);
    assert below[..|below| - 1] == fs[..|fs| - 2];
    PathPrefix(below, |below| - 1);
    PathTop(below[..|below| - 1]);
    ProgramStart(Top(below[..|below| - 1]));
  }

  lemma ProgramItems()
    ensures HasItem(4, 2, 1) && RhsLen(2) == 3 && RhsAt(2, 0) == SYM_LINEBREAK
  {
  }

  lemma ProgramStart(s: int)
    requires HasItem(s, 2, 0)
    ensures s == 0
  {
  }

  /** After a run the arena is empty and no symbol on the stack has a record any more. */
  lemma RunClearsStack(stack: seq<Entry>, nodes: seq<Node>, tokens: seq<TokenRecord>, shadow: seq<Shadow>)
    requires StackOk(stack, nodes, tokens, shadow, true) && shadow != [] && |stack| == |shadow| + 1
    requires Root(shadow[|shadow| - 1].tree) == SYM_COMPLETE_COMMANDS
    ensures |shadow| == 2 && stack[1].node == 0
    ensures StackOk([stack[0], stack[1], stack[2].(node := 0)], [SENTINEL], tokens,
                    [shadow[0], shadow[1].(chain := Nil, lo := 1, hi := 1)], false)
  {
    hide IsPath, IsDerivation, StackOk, Holds, Owns, Ascending, Live, Meaning, Words, IsToken;
    PendingStack(stack, nodes, tokens, shadow);
    StackBottom(stack, nodes, tokens, shadow, true);
    StackEntry(stack, nodes, tokens, shadow, true, 0);
    StackEntry(stack, nodes, tokens, shadow, true, 1);
    LinebreakHasNoChain(shadow[0]);
    var stack' := [stack[0], stack[1], stack[2].(node := 0)];
    var shadow' := [shadow[0], shadow[1].(chain := Nil, lo := 1, hi := 1)];
    assert Frames(stack', shadow') == Frames(stack, shadow);
    NilIsEmpty([SENTINEL], 1);
    assert EntryOk([SENTINEL], tokens, stack'[1], shadow'[0], false);
    assert Owners([SENTINEL], 1, 1) == [];
    assert EntryOk([SENTINEL], tokens, stack'[2], shadow'[1], false);
    NewStackOk(stack', [SENTINEL], tokens, shadow', false);
  }

  lemma LinebreakHasNoChain(s: Shadow)
    requires IsDerivation(s.tree) && Root(s.tree) == SYM_LINEBREAK && Denote(s.chain) == Live(s.tree)
    requires Owns(s.chain, s.lo, s.hi)
    ensures s.chain == Nil && s.lo == s.hi && Live(s.tree) == []
  {
    NilOwnsNothing(s.lo, s.hi);
  }
}
