// The parser's run on the input: which saved tokens are still to be replayed, which delimiter
// waits for its body, and what holds of the stack, the tokens and the bodies between two steps.

module RunInvariant {
  import opened CStrings
  import opened Grammar
  import opened ParseTables
  import opened Automaton
  import opened Derivations
  import opened LrMachine
  import opened NodeArena
  import opened Syntax
  import opened Reductions
  import opened QuoteRemoval
  import opened Context
  import opened Handlers
  import opened ParserInvariant
  import opened ShiftReduce
  import opened HereDescriptors
  import opened HereDocument
  import opened LexerFacts
  import opened TokenHistory

  // ---- Replay ----------------------------------------------------------------------------

  /** The parser's token index and flags. */
  datatype Flow = Flow(tokenIdx: nat, lookahead: Symbol, save: bool, hereBody: bool, hasSaved: bool, hasLookahead: bool)

  function FlowOf(parse: ParserState): Flow
    reads parse
  {
    Flow(parse.tokenIdx, parse.lookaheadType, parse.saveTokens, parse.hereBody, parse.hasSavedTokens,
      parse.hasLookahead)
  }

  /** The tokens after the first `k` are the rest of one line. */
  predicate RestOfLine(lexed: seq<Token>, k: nat) {
    k < |lexed| && LastIsNewline(lexed) && forall i: nat :: k <= i < |lexed| - 1 ==> lexed[i].kind != SYM_NEWLINE
  }

  /** Saved tokens are the rest of one line; without any, every token was taken. */
  predicate SavedOk(lexed: seq<Token>, k: nat, hasSaved: bool) {
    if hasSaved then RestOfLine(lexed, k) else k == |lexed|
  }

  /** The current token was just taken: it is the next to be shifted, or is being saved with those before it. */
  predicate Fetched(lexed: seq<Token>, n: nat, f: Flow) {
    && n < f.tokenIdx <= |lexed| && !f.hereBody && SavedOk(lexed, f.tokenIdx, f.hasSaved)
    && (!f.save ==> f.tokenIdx == n + 1) && (f.hasSaved ==> lexed[f.tokenIdx - 1].kind != SYM_NEWLINE)
    && forall i: nat :: n <= i < f.tokenIdx - 1 ==> lexed[i].kind != SYM_NEWLINE
  }

  /**
   * How far the tokens are: `n` are shifted. A body is read when the rest of its line is saved;
   * while tokens are being saved, none of them ends the line.
   */
  predicate FlowOk(lexed: seq<Token>, n: nat, f: Flow) {
    if f.hereBody then !f.save && f.hasSaved && !f.hasLookahead && f.tokenIdx == |lexed| && RestOfLine(lexed, n)
    else if f.hasLookahead then Fetched(lexed, n, f) && f.tokenIdx == n + 1 && f.lookahead == lexed[n].kind
    else if f.save then Fetched(lexed, n, f) && lexed[f.tokenIdx - 1].kind != SYM_NEWLINE
    else f.tokenIdx == n && SavedOk(lexed, n, f.hasSaved)
  }

  // ---- Here-documents --------------------------------------------------------------------

  function TopRoot(shadow: seq<Shadow>): Symbol {
    if shadow == [] then SYM_EOF else Root(shadow[|shadow| - 1].tree)
  }

  /**
   * The delimiters so far, in source order. All but a waiting one have their body; the waiting
   * one is the last token shifted, and its here-document is on top of the stack.
   */
  ghost predicate HereOk(shadow: seq<Shadow>, delims: seq<nat>, served: nat, lexed: seq<Token>, n: nat, waiting: bool) {
    && |delims| == served + (if waiting then 1 else 0) && n <= |lexed|
    && (forall i :: 0 <= i < |delims| ==> 0 < delims[i] <= n)
    && (forall i, j :: 0 <= i < j < |delims| ==> delims[i] < delims[j])
    && StackServed(shadow, |shadow| - (if waiting then 1 else 0), delims[..served])
    && (waiting ==>
          && 0 < n && shadow != [] && TopRoot(shadow) == SYM_IO_HERE
          && delims[served] == n == lexed[n - 1].offset && IsHereCell(shadow[|shadow| - 1].chain, lexed[n - 1]))
    && (!waiting && (TopRoot(shadow) == SYM_WORD || TopRoot(shadow) == SYM_HERE_END) ==> n !in delims)
  }

  lemma HereStarts()
    ensures HereOk([], [], 0, [], 0, false)
  {
  }

  lemma HereGrows(shadow: seq<Shadow>, delims: seq<nat>, served: nat, lexed: seq<Token>, n: nat, waiting: bool,
                  token: Token)
    requires HereOk(shadow, delims, served, lexed, n, waiting)
    ensures HereOk(shadow, delims, served, lexed + [token], n, waiting)
  {
    hide StackServed, IsHereCell;
  }

  lemma HereShifts(shadow: seq<Shadow>, delims: seq<nat>, served: nat, lexed: seq<Token>, n: nat, s: Shadow)
    requires HereOk(shadow, delims, served, lexed, n, false) && n < |lexed| && s.chain.Nil?
    ensures HereOk(shadow + [s], delims, served, lexed, n + 1, false)
  {
    assert delims[..|delims|] == delims;
  }

  /** The last token of the stack is the last one shifted. */
  lemma TopToken(stack: seq<Frame>, lexed: seq<Token>, n: nat)
    requires IsPath(stack) && n <= |lexed| && YieldAll(Trees(stack)) == lexed[..n] && stack != []
    requires Root(stack[|stack| - 1].tree) != SYM_LINEBREAK && Root(stack[|stack| - 1].tree) != SYM_PROGRAM
    ensures 0 < n && Yield(stack[|stack| - 1].tree) != [] && LastToken(Yield(stack[|stack| - 1].tree)) == lexed[n - 1]
  {
    hide IsDerivation, IsEdge, Root;
    var ts := Trees(stack);
    DerivesToken(ts[|ts| - 1]);
    LastTokenOfRhs(ts);
  }

  /** The last token of a right-hand side that ends in a token is the last one shifted. */
  lemma WordIsShifted(shadow: seq<Shadow>, stack: seq<Entry>, r: int, lexed: seq<Token>, n: nat)
    requires |stack| == |shadow| + 1 && IsRule(r) && 0 < RhsLen(r) <= |shadow|
    requires IsPath(Frames(stack, shadow)) && n <= |lexed| && YieldAll(Trees(Frames(stack, shadow))) == lexed[..n]
    requires TopRoot(shadow) != SYM_LINEBREAK && TopRoot(shadow) != SYM_PROGRAM
    ensures 0 < n && KidsOf(shadow, r).word == lexed[n - 1]
  {
    hide IsPath, IsDerivation, RhsLen, Root;
    var fs := Frames(stack, shadow);
    TopToken(fs, lexed, n);
    var kids := KidTrees(shadow, r);
    assert kids[|kids| - 1] == fs[|fs| - 1].tree;
    LastTokenOfRhs(kids);
  }

  /** A step's facts about the tops before and after a reduction. */
  lemma TopsOfReduce(before: Arenas, after: Arenas, r: int)
    requires DidReduce(before, after, r) && IsPath(Frames(after.stack, after.shadow))
    ensures TopRoot(after.shadow) == Lhs(r)
    ensures 0 < RhsLen(r) ==> TopRoot(before.shadow) == RhsAt(r, RhsLen(r) - 1)
  {
    hide IsPath, RhsLen, RhsAt, Lhs, CellsFit, Build, KidChain, KidMark, Goto, QuoteRemove;
    var fs := Frames(after.stack, after.shadow);
    var t := fs[|fs| - 1].tree;
    LastIsDerivation(fs);
    assert t == Branch(r, KidTrees(before.shadow, r));
    if 0 < RhsLen(r) {
      DerivedRhs(r, t.kids, RhsLen(r) - 1);
    }
  }

  lemma LastIsDerivation(fs: seq<Frame>)
    requires IsPath(fs) && fs != []
    ensures IsDerivation(fs[|fs| - 1].tree)
  {
    hide IsEdge;
  }

  lemma LastKinds(r: int)
    requires IsRule(r)
    ensures Lhs(r) == SYM_HERE_END <==> r == 41
    ensures Lhs(r) != SYM_WORD
    ensures 0 < RhsLen(41) && RhsAt(41, RhsLen(41) - 1) == SYM_WORD
    ensures 0 < RhsLen(40) && RhsAt(40, RhsLen(40) - 1) == SYM_HERE_END && Lhs(40) == SYM_IO_HERE
  {
  }

  lemma HereReduces(before: Arenas, after: Arenas, r: int, delims: seq<nat>, lexed: seq<Token>, n: nat)
    requires HereOk(before.shadow, delims, |delims|, lexed, n, false) && r != 40
    requires DidReduce(before, after, r) && IsPath(Frames(after.stack, after.shadow))
    ensures HereOk(after.shadow, delims, |delims|, lexed, n, false)
  {
    hide IsPath, RhsLen, RhsAt, Lhs, CellsFit, Build, Goto, QuoteRemove, StackServed, TopRoot, ResultShadow, Frames;
    assert delims[..|delims|] == delims;
    TopsOfReduce(before, after, r);
    LastKinds(r);
    ReduceServed(before.shadow, r, |before.nodes|, |after.nodes|, delims);
  }

  /** Reducing a here-document leaves its record waiting on top of the stack. */
  lemma HereOpens(before: Arenas, after: Arenas, delims: seq<nat>, lexed: seq<Token>, n: nat)
    requires HereOk(before.shadow, delims, |delims|, lexed, n, false)
    requires DidReduce(before, after, 40) && IsPath(Frames(after.stack, after.shadow))
    requires IsPath(Frames(before.stack, before.shadow))
    requires YieldAll(Trees(Frames(before.stack, before.shadow))) == lexed[..n]
    requires forall i :: 0 <= i < |lexed| ==> lexed[i].offset == i + 1
    ensures 0 < n && n !in delims && KidsOf(before.shadow, 40).word == lexed[n - 1]
    ensures HereOk(after.shadow, delims + [n], |delims|, lexed, n, true)
  {
    hide IsPath, RhsLen, RhsAt, Lhs, CellsFit, Goto, QuoteRemove, TopRoot, Frames, KidTrees, StackServed, DidReduce,
      IsHereCell;
    TopsOfReduce(before, after, 40);
    LastKinds(40);
    assert delims[..|delims|] == delims;
    ReducedHere(before, after, delims, lexed, n);
    assert (delims + [n])[..|delims|] == delims;
  }

  lemma ReducedHere(before: Arenas, after: Arenas, delims: seq<nat>, lexed: seq<Token>, n: nat)
    requires StackServed(before.shadow, |before.shadow|, delims) && n <= |lexed|
    requires DidReduce(before, after, 40) && TopRoot(before.shadow) == SYM_HERE_END
    requires IsPath(Frames(before.stack, before.shadow))
    requires YieldAll(Trees(Frames(before.stack, before.shadow))) == lexed[..n]
    ensures 0 < n && KidsOf(before.shadow, 40).word == lexed[n - 1]
    ensures after.shadow != [] && IsHereCell(after.shadow[|after.shadow| - 1].chain, lexed[n - 1])
    ensures StackServed(after.shadow, |after.shadow| - 1, delims)
  {
    hide IsPath, RhsLen, RhsAt, Lhs, CellsFit, Goto, QuoteRemove, TopRoot, Frames, KidsOf, Served, Built, IsHereCell,
      KidTrees;
    LastKinds(40);
    WordIsShifted(before.shadow, before.stack, 40, lexed, n);
    BuiltHere(KidsOf(before.shadow, 40), |before.nodes|);
  }

  lemma BuiltHere(k: Kids, next: nat)
    requires CellsFit(40, k.a, k.b, k.c, k.d)
    ensures IsHereCell(Built(40, k, next), k.word)
  {
  }

  /** Once its body is read, the here-document is served. */
  lemma HereServes(shadow: seq<Shadow>, delims: seq<nat>, served: nat, lexed: seq<Token>, n: nat)
    requires HereOk(shadow, delims, served, lexed, n, true)
    ensures shadow != [] && IsHereCell(shadow[|shadow| - 1].chain, lexed[n - 1])
    ensures var top := shadow[|shadow| - 1];
      HereOk(shadow[|shadow| - 1 := top.(chain := WithFd(top.chain, served))], delims, served + 1, lexed, n, false)
  {
    var top := shadow[|shadow| - 1];
    var shadow' := shadow[|shadow| - 1 := top.(chain := WithFd(top.chain, served))];
    var old_ := delims[..served];
    assert delims == old_ + [n] && delims[..served + 1] == delims;
    FdServes(top.chain, lexed[n - 1], old_);
    StackServedGrows(shadow, |shadow| - 1, old_, n);
  }

  // ---- Bodies ----------------------------------------------------------------------------

  /** None of the body's lines is its delimiter's. */
  predicate NoDelimLine(p: Piece)
    requires p.BodyPiece?
  {
    forall i :: 0 <= i < |p.lines| ==> p.lines[i] != p.delim + "\n"
  }

  /** Body `k` is what the lines read for the `k`th delimiter write, none of them the delimiter's. */
  ghost predicate BodyAt(bodies: seq<string>, pieces: seq<Piece>, delims: seq<nat>, lexed: seq<Token>,
                         texts: seq<string>, k: nat)
    requires k < |bodies| && k < |pieces| && k < |delims|
  {
    && pieces[k].BodyPiece? && 0 < delims[k] <= |texts| && delims[k] <= |lexed|
    && pieces[k].delim == QuoteRemove(texts[delims[k] - 1]) && NoDelimLine(pieces[k])
    && pieces[k].quoted == (lexed[delims[k] - 1].flags % 2 == TKN_HAS_QUOTES)
    && bodies[k] == BodyText(pieces[k].now.env, pieces[k].now.status, pieces[k].quoted, pieces[k].lines)
  }

  /** The bodies were read in the order of their delimiters, each once. */
  ghost predicate BodiesOk(bodies: seq<string>, pieces: seq<Piece>, delims: seq<nat>, lexed: seq<Token>,
                           texts: seq<string>) {
    && |BodyPieces(pieces)| == |bodies| <= |delims|
    && forall k: nat :: k < |bodies| ==> BodyAt(bodies, BodyPieces(pieces), delims, lexed, texts, k)
  }

  lemma BodiesGrow(bodies: seq<string>, pieces: seq<Piece>, delims: seq<nat>, lexed: seq<Token>, texts: seq<string>,
                   pieces': seq<Piece>, delims': seq<nat>, lexed': seq<Token>, texts': seq<string>)
    requires BodiesOk(bodies, pieces, delims, lexed, texts)
    requires BodyPieces(pieces') == BodyPieces(pieces) && delims <= delims' && lexed <= lexed' && texts <= texts'
    ensures BodiesOk(bodies, pieces', delims', lexed', texts')
  {
    hide BodyText, QuoteRemove, BodyPieces;
    forall k: nat | k < |bodies| ensures BodyAt(bodies, BodyPieces(pieces'), delims', lexed', texts', k) {
      assert BodyAt(bodies, BodyPieces(pieces), delims, lexed, texts, k);
    }
  }

  lemma BodyRead(bodies: seq<string>, pieces: seq<Piece>, delims: seq<nat>, lexed: seq<Token>, texts: seq<string>,
                 text: string, p: Piece)
    requires BodiesOk(bodies, pieces, delims, lexed, texts) && |delims| == |bodies| + 1
    requires p.BodyPiece? && 0 < delims[|bodies|] <= |texts| && delims[|bodies|] <= |lexed|
    requires p.delim == QuoteRemove(texts[delims[|bodies|] - 1]) && NoDelimLine(p)
    requires p.quoted == (lexed[delims[|bodies|] - 1].flags % 2 == TKN_HAS_QUOTES)
    requires text == BodyText(p.now.env, p.now.status, p.quoted, p.lines)
    ensures BodiesOk(bodies + [text], pieces + [p], delims, lexed, texts)
  {
    hide BodyText, QuoteRemove, BodyPieces, TextOf, TokenTexts;
    PiecesSnoc(pieces, p);
    var bodies' := bodies + [text];
    forall k: nat | k < |bodies'| ensures BodyAt(bodies', BodyPieces(pieces + [p]), delims, lexed, texts, k) {
      if k < |bodies| {
        assert BodyAt(bodies, BodyPieces(pieces), delims, lexed, texts, k);
      }
    }
  }

  /** Each body was read at one of the moments. */
  ghost predicate Timed(pieces: seq<Piece>, moments: seq<Moment>) {
    var bs := BodyPieces(pieces);
    forall k :: 0 <= k < |bs| ==> bs[k].BodyPiece? && bs[k].at < |moments| && moments[bs[k].at] == bs[k].now
  }

  lemma TimedGrows(pieces: seq<Piece>, moments: seq<Moment>, pieces': seq<Piece>, moments': seq<Moment>)
    requires Timed(pieces, moments) && moments <= moments' && BodyPieces(pieces') == BodyPieces(pieces)
    ensures Timed(pieces', moments')
  {
    hide BodyPieces;
  }

  lemma TimedReads(pieces: seq<Piece>, moments: seq<Moment>, p: Piece)
    requires Timed(pieces, moments) && p.BodyPiece? && p.at < |moments| && moments[p.at] == p.now
    ensures Timed(pieces + [p], moments)
  {
    hide TextOf, TokenTexts;
    PiecesSnoc(pieces, p);
  }

  // ---- The end of the input --------------------------------------------------------------

  /** Every body was read up to its delimiter, but for the last one if the input ended in it. */
  predicate BodiesClosed(bs: seq<Piece>, ended: bool) {
    && (ended ==> bs != [] && bs[|bs| - 1].BodyPiece? && !bs[|bs| - 1].closed)
    && forall k :: 0 <= k < |bs| - (if ended then 1 else 0) ==> bs[k].BodyPiece? && bs[k].closed
  }

  /** From token `a` up to token `b` there is no newline. */
  predicate OnOneLine(lexed: seq<Token>, a: nat, b: nat) {
    b <= |lexed| && forall i: nat :: a <= i < b ==> lexed[i].kind != SYM_NEWLINE
  }

  /** If the input ended, it ended in the last body, and all of its delimiter's line was lexed before. */
  ghost predicate EndOk(ended: bool, pieces: seq<Piece>, delims: seq<nat>, lexed: seq<Token>) {
    var bs := BodyPieces(pieces);
    && BodiesClosed(bs, ended)
    && (ended ==> 0 < |bs| <= |delims| && RestOfLine(lexed, delims[|bs| - 1]))
  }

  /** The input ended in a body, and on its delimiter's line another delimiter waits for one. */
  ghost predicate EndedInBody(pieces: seq<Piece>, delims: seq<nat>, lexed: seq<Token>) {
    var bs := BodyPieces(pieces);
    BodiesClosed(bs, true) && |delims| == |bs| + 1 && OnOneLine(lexed, delims[|bs| - 1], delims[|bs|])
  }

  lemma EndGrows(ended: bool, pieces: seq<Piece>, delims: seq<nat>, lexed: seq<Token>, delims': seq<nat>)
    requires EndOk(ended, pieces, delims, lexed) && delims <= delims'
    ensures EndOk(ended, pieces, delims', lexed)
  {
  }

  lemma EndLexes(pieces: seq<Piece>, delims: seq<nat>, lexed: seq<Token>, pieces': seq<Piece>, lexed': seq<Token>)
    requires EndOk(false, pieces, delims, lexed) && BodyPieces(pieces') == BodyPieces(pieces)
    ensures EndOk(false, pieces', delims, lexed')
  {
  }

  /** One more body, in which the input may have ended. */
  lemma EndReads(pieces: seq<Piece>, delims: seq<nat>, lexed: seq<Token>, p: Piece)
    requires EndOk(false, pieces, delims, lexed) && p.BodyPiece? && |delims| == |BodyPieces(pieces)| + 1
    requires RestOfLine(lexed, delims[|delims| - 1])
    ensures EndOk(!p.closed, pieces + [p], delims, lexed)
  {
    hide TextOf, TokenTexts, RestOfLine;
    PiecesSnoc(pieces, p);
  }

  /** A body is to be read when there is no line left. */
  lemma NoLineLeft(pieces: seq<Piece>, delims: seq<nat>, lexed: seq<Token>, n: nat)
    requires EndOk(true, pieces, delims, lexed) && |delims| == |BodyPieces(pieces)| + 1
    requires delims[|delims| - 1] == n && RestOfLine(lexed, n)
    ensures EndedInBody(pieces, delims, lexed)
  {
    hide BodyPieces;
    var a := delims[|delims| - 2];
    forall i: nat | a <= i < n ensures lexed[i].kind != SYM_NEWLINE {
      assert i < |lexed| - 1;
    }
  }

  lemma FirstOfHere(t: Tree)
    requires IsDerivation(t) && Root(t) == SYM_IO_HERE
    ensures Yield(t) != [] && Yield(t)[0].kind == SYM_DLESS
  {
    assert Root(t.kids[0]) == RhsAt(40, 0);
    assert t.kids[0].Leaf?;
    assert Yield(t) == Yield(t.kids[0]) + YieldAll(t.kids[1..]);
  }

  /** Where a here-document is on top of the stack, one was lexed. */
  lemma HereIsLexed(stack: seq<Frame>, lexed: seq<Token>, n: nat)
    requires IsPath(stack) && n <= |lexed| && YieldAll(Trees(stack)) == lexed[..n]
    requires stack != [] && Root(stack[|stack| - 1].tree) == SYM_IO_HERE
    ensures !NoHereTokens(lexed)
  {
    hide IsDerivation, IsEdge, Root, Yield;
    var ts := Trees(stack);
    var t := ts[|ts| - 1];
    LastIsDerivation(stack);
    FirstOfHere(t);
    YieldAllConcat(ts[..|ts| - 1], [t]);
    assert ts == ts[..|ts| - 1] + [t];
    YieldAllSingle(t);
    var k := |YieldAll(ts[..|ts| - 1])|;
    assert YieldAll(ts)[k] == Yield(t)[0] == lexed[..n][k];
    assert lexed[k].kind == SYM_DLESS;
  }

  // ---- How many here-documents -----------------------------------------------------------

  function CountHere(tokens: seq<Token>): nat {
    if tokens == [] then 0 else (if tokens[0].kind == SYM_DLESS then 1 else 0) + CountHere(tokens[1..])
  }

  lemma {:induction false} CountConcat(a: seq<Token>, b: seq<Token>)
    ensures CountHere(a + b) == CountHere(a) + CountHere(b)
  {
    if a == [] {
      assert a + b == b;
    } else {
      assert (a + b)[1..] == a[1..] + b;
      CountConcat(a[1..], b);
    }
  }

  /** Only the here-document's production has the operator. */
  lemma RuleOfHere(r: int, i: nat)
    requires IsRule(r) && i < RhsLen(r)
    ensures RhsAt(r, i) == SYM_DLESS <==> r == 40 && i == 0
  {
  }

  /** How many of the trees are the operator itself. */
  function BareHere(ts: seq<Tree>): nat {
    if ts == [] then 0 else (if ts[0].Leaf? && ts[0].token.kind == SYM_DLESS then 1 else 0) + BareHere(ts[1..])
  }

  /** A derivation has as many here-documents as operators. */
  lemma {:induction false} HereDocsCount(t: Tree)
    requires IsDerivation(t)
    ensures |HereDocs(t)| + (if t.Leaf? && t.token.kind == SYM_DLESS then 1 else 0) == CountHere(Yield(t))
    decreases t, 0
  {
    match t
    case Leaf(token) =>
      assert Yield(t) == [token] && CountHere([token][1..]) == 0;
    case Branch(r, kids) =>
      HereDocsAllCount(kids);
      BareInRhs(r, kids);
  }

  lemma {:induction false} HereDocsAllCount(ts: seq<Tree>)
    requires forall i :: 0 <= i < |ts| ==> IsDerivation(ts[i])
    ensures |HereDocsAll(ts)| + BareHere(ts) == CountHere(YieldAll(ts))
    decreases ts, 1
  {
    if ts != [] {
      HereDocsCount(ts[0]);
      HereDocsAllCount(ts[1..]);
      CountConcat(Yield(ts[0]), YieldAll(ts[1..]));
    }
  }

  lemma BareInRhs(r: int, kids: seq<Tree>)
    requires IsDerivation(Branch(r, kids))
    ensures BareHere(kids) == if r == 40 then 1 else 0
  {
    hide RhsAt, RhsLen;
    forall i | 0 <= i < |kids| ensures kids[i].Leaf? && kids[i].token.kind == SYM_DLESS <==> r == 40 && i == 0 {
      assert Root(kids[i]) == RhsAt(r, 0 + i);
      RuleOfHere(r, i);
      RootIsNoOperator(kids[i]);
    }
    if r == 40 {
      LengthOfHere();
      NoBare(kids[1..]);
    } else {
      NoBare(kids);
    }
  }

  lemma LengthOfHere()
    ensures RhsLen(40) == 2
  {
  }

  lemma RootIsNoOperator(t: Tree)
    requires IsDerivation(t)
    ensures t.Branch? ==> Root(t) != SYM_DLESS
  {
  }

  lemma {:induction false} NoBare(ts: seq<Tree>)
    requires forall i :: 0 <= i < |ts| ==> !(ts[i].Leaf? && ts[i].token.kind == SYM_DLESS)
    ensures BareHere(ts) == 0
  {
    if ts != [] { NoBare(ts[1..]); }
  }

  /** The here-documents on the stack are no more than the operators among the tokens. */
  lemma StackHereDocs(stack: seq<Frame>, lexed: seq<Token>, n: nat)
    requires IsPath(stack) && n <= |lexed| && YieldAll(Trees(stack)) == lexed[..n]
    ensures |HereDocsAll(Trees(stack))| <= CountHere(lexed)
  {
    hide IsDerivation, IsEdge;
    HereDocsAllCount(Trees(stack));
    CountConcat(lexed[..n], lexed[n..]);
    assert lexed == lexed[..n] + lexed[n..];
  }
}
