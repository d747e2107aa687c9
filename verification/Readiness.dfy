// The list that is about to run is ready to run: its pipelines can be wired, with every
// here-document on a descriptor of its own, and the words of its commands expanded.

module Readiness {
  import opened CStrings
  import opened Grammar
  import opened Derivations
  import opened LrMachine
  import opened NodeArena
  import opened Syntax
  import opened Reductions
  import opened Context
  import opened NodeOps
  import opened Classification
  import opened QuoteRemoval
  import opened LexerFacts
  import opened ParserInvariant
  import opened ShiftReduce
  import opened HereDescriptors
  import opened TokenHistory
  import opened Agreement
  import opened TokenFlow
  import opened Execution
  import opened WellFormed
  import opened WordOrigins
  import opened Pipelines
  import PipelineWiring
  import ListWiring
  import AndOr
  import ExecuteList
  import Expansion
  import ParseInput

  // ---- Records below the list ------------------------------------------------------------

  /** The cell is one of the chain's, at any depth. */
  predicate Within(p: Cell, c: Cell) {
    c.Cell? && (p == c || Within(p, c.first) || Within(p, c.second) || Within(p, c.rest))
  }

  lemma {:induction false} CommandsOf(nodes: seq<Node>, c: Cell)
    requires Holds(nodes, c) && AllSound(Denote(c)) && forall i :: 0 <= i < |Denote(c)| ==> Denote(c)[i].ACommand?
    ensures AreCommands(c)
  {
    if c.Cell? {
      var m := Denote(c);
      assert m[0] == AstOf(c) && m[1..] == Denote(c.rest);
      assert SoundAst(m[0]);
      RedirsOf(nodes, c.second);
      CommandsOf(nodes, c.rest);
    }
  }

  lemma {:induction false} RedirsOf(nodes: seq<Node>, c: Cell)
    requires Holds(nodes, c) && forall i :: 0 <= i < |Denote(c)| ==> Directed(Denote(c)[i])
    ensures AreRedirs(c)
  {
    if c.Cell? {
      var m := Denote(c);
      assert m[0] == AstOf(c) && m[1..] == Denote(c.rest);
      assert Directed(m[0]);
      RedirsOf(nodes, c.rest);
    }
  }

  lemma {:induction false} ArgsOf(nodes: seq<Node>, c: Cell)
    requires Holds(nodes, c) && forall i :: 0 <= i < |Denote(c)| ==> Denote(c)[i].AWord?
    ensures Expansion.AreArgs(c)
  {
    if c.Cell? {
      var m := Denote(c);
      assert m[0] == AstOf(c) && m[1..] == Denote(c.rest);
      assert m[0].AWord?;
      ArgsOf(nodes, c.rest);
    }
  }

  /** A word's string can be scanned, and is plain if it is not flagged. */
  predicate WordOk(strings: seq<string>, w: (nat, nat)) {
    && w.0 < |strings| && IsCString(strings[w.0]) && strings[w.0] != []
    && (w.1 % WORD_FLAGS == 0 ==> IsPlainWord(strings[w.0]))
  }

  predicate WordsOk(strings: seq<string>, words: set<(nat, nat)>) {
    forall w :: w in words ==> WordOk(strings, w)
  }

  lemma {:induction false} ArgWordsOk(strings: seq<string>, c: Cell)
    requires Expansion.AreArgs(c) && WordsOk(strings, WordsIn(Denote(c)))
    ensures Expansion.WordsOk(c, strings)
  {
    hide IsPlainWord, IsCString;
    if c.Cell? {
      var m := Denote(c);
      assert m[0] == AstOf(c) && m[1..] == Denote(c.rest);
      assert (c.data.offset, c.data.wordFlags) in WordsIn(m);
      ArgWordsOk(strings, c.rest);
    }
  }

  /** What holds of the whole list holds of each record below it. */
  lemma {:induction false} WithinList(nodes: seq<Node>, strings: seq<string>, p: Cell, c: Cell)
    requires Within(p, c) && Holds(nodes, c) && AllSound(Denote(c)) && PipelineWiring.UsedOnce(c)
    requires WordsOk(strings, WordsIn(Denote(c)))
    ensures Holds(nodes, p) && p.Cell? && SoundAst(AstOf(p)) && PipelineWiring.UsedOnce(p)
    ensures WordsOk(strings, WordsOf(AstOf(p)))
  {
    hide WordOk, PipelineWiring.UsedOnce, Uses;
    var m := Denote(c);
    assert m[0] == AstOf(c) && m[1..] == Denote(c.rest);
    assert SoundAst(m[0]);
    assert forall i :: 0 <= i < |m| - 1 ==> m[1..][i] == m[i + 1];
    PipelineWiring.FirstUsedOnce(c);
    if Within(p, c.first) {
      BelowIsSound(c);
      WithinList(nodes, strings, p, c.first);
    } else if Within(p, c.second) {
      BelowIsSound(c);
      WithinList(nodes, strings, p, c.second);
    } else if Within(p, c.rest) {
      WithinList(nodes, strings, p, c.rest);
    }
  }

  lemma BelowIsSound(c: Cell)
    requires c.Cell? && LinksFit(c) && SoundAst(AstOf(c))
    ensures AllSound(Denote(c.first)) && AllSound(Denote(c.second))
    ensures WordsIn(Denote(c.first)) <= WordsOf(AstOf(c)) && WordsIn(Denote(c.second)) <= WordsOf(AstOf(c))
  {
  }

  // ---- Descriptors -----------------------------------------------------------------------

  /** Every record of a here-document holds a descriptor of its own, below `next`. */
  predicate Apart(nodes: seq<Node>, next: nat) {
    && (forall i, j :: 0 <= i < j < |nodes| && IsHereNode(nodes[i]) && IsHereNode(nodes[j]) ==>
          nodes[i].data.fd != nodes[j].data.fd)
    && forall i :: 0 <= i < |nodes| && IsHereNode(nodes[i]) ==> 0 <= nodes[i].data.fd < next
  }

  /** What the descriptors of the first `n` records refer to. */
  function BodyFds(nodes: seq<Node>, n: nat): map<int, Desc>
    requires n <= |nodes|
  {
    if n == 0 then map[]
    else if IsHereNode(nodes[n - 1]) then BodyFds(nodes, n - 1)[nodes[n - 1].data.fd := HereBody(n - 1)]
    else BodyFds(nodes, n - 1)
  }

  lemma {:induction false} BodyFdOf(nodes: seq<Node>, next: nat, n: nat, i: nat)
    requires Apart(nodes, next) && i < n <= |nodes| && IsHereNode(nodes[i])
    ensures nodes[i].data.fd in BodyFds(nodes, n) && BodyFds(nodes, n)[nodes[i].data.fd] == HereBody(i)
  {
    if i < n - 1 { BodyFdOf(nodes, next, n - 1, i); }
  }

  lemma {:induction false} BodyFdsBelow(nodes: seq<Node>, next: nat, n: nat)
    requires Apart(nodes, next) && n <= |nodes|
    ensures forall f :: f in BodyFds(nodes, n) ==> 0 <= f < next
  {
    if n > 0 { BodyFdsBelow(nodes, next, n - 1); }
  }

  lemma {:induction false} HereIsReady(nodes: seq<Node>, next: nat, c: Cell)
    requires Holds(nodes, c) && Apart(nodes, next)
    ensures PipelineWiring.HereReady(BodyFds(nodes, |nodes|), c)
  {
    hide BodyFds, Apart;
    if c.Cell? {
      if IsHere(c) { BodyFdOf(nodes, next, |nodes|, c.index); }
      HereIsReady(nodes, next, c.rest);
    }
  }

  lemma {:induction false} PipeIsReady(nodes: seq<Node>, next: nat, c: Cell)
    requires Holds(nodes, c) && Apart(nodes, next)
    ensures PipelineWiring.PipeReady(BodyFds(nodes, |nodes|), c)
  {
    if c.Cell? {
      HereIsReady(nodes, next, c.second);
      PipeIsReady(nodes, next, c.rest);
    }
  }

  /** In a process that has just these descriptors open, those of the pipeline are told from the rest. */
  lemma BodiesAreTidy(nodes: seq<Node>, next: nat, c: Cell)
    requires Holds(nodes, c) && Apart(nodes, next)
    ensures StartsTidy(BodyFds(nodes, |nodes|), next, PipelineWiring.PipeHereFds(c))
  {
    hide BodyFds, Apart;
    PipeIsReady(nodes, next, c);
    BodyFdsBelow(nodes, next, |nodes|);
    var fds := BodyFds(nodes, |nodes|);
    forall f | f in PipelineWiring.PipeHereFds(c) ensures f in fds {
      PipelineWiring.PipeFdIsOther(fds, c, f);
    }
  }

  ghost predicate StartsTidy(fds: map<int, Desc>, next: nat, others: set<int>) {
    PipelineWiring.TidyFds(fds, next, -1, -1, fds - others, others)
  }

  // ---- Descriptors of their own ----------------------------------------------------------

  predicate Increasing(s: seq<nat>) {
    forall i, j :: 0 <= i < j < |s| ==> s[i] < s[j]
  }

  lemma {:induction false} OffsetsIncrease(tokens: seq<Token>)
    requires Ascend(tokens)
    ensures Increasing(WordOffsets(tokens))
    ensures forall x :: x in WordOffsets(tokens) ==> x in Offsets(tokens)
  {
    hide Ascend, Offsets, Increasing;
    if tokens == [] {
      NoneIncrease();
    } else {
      RestAscends(tokens);
      OffsetsIncrease(tokens[1..]);
      FirstIncreases(tokens[0].offset, WordOffsets(tokens[1..]));
      assert [] + WordOffsets(tokens[1..]) == WordOffsets(tokens[1..]);
    }
  }

  lemma NoneIncrease()
    ensures Increasing([])
  {
  }

  lemma RestAscends(tokens: seq<Token>)
    requires Ascend(tokens) && tokens != []
    ensures Ascend(tokens[1..]) && tokens[0].offset in Offsets(tokens)
    ensures forall x :: x in Offsets(tokens[1..]) ==> tokens[0].offset < x && x in Offsets(tokens)
  {
    var rest := tokens[1..];
    forall x | x in Offsets(rest) ensures tokens[0].offset < x && x in Offsets(tokens) {
      var k :| 0 <= k < |rest| && rest[k].offset == x;
      assert tokens[k + 1] == rest[k];
    }
  }

  lemma FirstIncreases(x: nat, s: seq<nat>)
    requires Increasing(s) && forall y :: y in s ==> x < y
    ensures Increasing([x] + s)
  {
    forall i, j | 0 <= i < j < |[x] + s| ensures ([x] + s)[i] < ([x] + s)[j] {
      assert ([x] + s)[j] == s[j - 1] && s[j - 1] in s;
    }
  }

  lemma OwnersApart(nodes: seq<Node>, lo: nat, i: nat, j: nat)
    requires lo <= i < j < |nodes| && Increasing(Owners(nodes, lo, |nodes|))
    requires nodes[i].data.Redir? && nodes[j].data.Redir?
    ensures nodes[i].data.offset < nodes[j].data.offset
  {
    var x, y := nodes[i].data.offset, nodes[j].data.offset;
    var a, b, rest := Owners(nodes, lo, i), Owners(nodes, i + 1, j), Owners(nodes, j + 1, |nodes|);
    OwnersAround(nodes, lo, i, |nodes|);
    OwnersAround(nodes, i + 1, j, |nodes|);
    var all := Owners(nodes, lo, |nodes|);
    assert all == a + [x] + (b + [y] + rest);
    assert all[|a|] == x && all[|a| + 1 + |b|] == y;
  }

  lemma OwnersAround(nodes: seq<Node>, lo: nat, i: nat, hi: nat)
    requires lo <= i < hi <= |nodes|
    ensures Owners(nodes, lo, hi) == Owners(nodes, lo, i) + OwnerAt(nodes[i]) + Owners(nodes, i + 1, hi)
  {
    OwnersSplit(nodes, lo, i + 1, hi);
    assert Owners(nodes, lo, i + 1) == Owners(nodes, lo, i) + OwnerAt(nodes[i]);
  }

  lemma {:induction false} ServedRecord(nodes: seq<Node>, c: Cell, delims: seq<nat>, i: nat)
    requires Holds(nodes, c) && Served(c, delims) && Uses(c, i) > 0 && i < |nodes| && IsHereNode(nodes[i])
    ensures 0 <= nodes[i].data.fd < |delims| && delims[nodes[i].data.fd] == nodes[i].data.offset
  {
    if c.Cell? && c.index != i {
      if Uses(c.first, i) > 0 { ServedRecord(nodes, c.first, delims, i); }
      else if Uses(c.second, i) > 0 { ServedRecord(nodes, c.second, delims, i); }
      else { ServedRecord(nodes, c.rest, delims, i); }
    }
  }

  /** No two here-documents of the list share a descriptor: each holds that of its own delimiter. */
  lemma FdsApart(nodes: seq<Node>, c: Cell, delims: seq<nat>)
    requires nodes != [] && nodes[0] == SENTINEL && Holds(nodes, c) && Owns(c, 1, |nodes|) && Served(c, delims)
    requires Increasing(Owners(nodes, 1, |nodes|))
    ensures Apart(nodes, |delims|)
  {
    hide Owners, Holds, Served, Increasing;
    forall i, j | 0 <= i < j < |nodes| && IsHereNode(nodes[i]) && IsHereNode(nodes[j])
      ensures nodes[i].data.fd != nodes[j].data.fd {
      assert Uses(c, i) == 1 && Uses(c, j) == 1;
      ServedRecord(nodes, c, delims, i);
      ServedRecord(nodes, c, delims, j);
      OwnersApart(nodes, 1, i, j);
    }
    forall i | 0 <= i < |nodes| && IsHereNode(nodes[i]) ensures 0 <= nodes[i].data.fd < |delims| {
      assert Uses(c, i) == 1;
      ServedRecord(nodes, c, delims, i);
    }
  }

  // ---- What was lexed --------------------------------------------------------------------

  predicate AreTexts(texts: seq<string>) {
    forall i :: 0 <= i < |texts| ==> texts[i] != [] && IsCString(texts[i])
  }

  lemma {:induction false} TextsOfPieces(ps: seq<Piece>)
    requires IsCString(TextOf(ps)) && forall i :: 0 <= i < |ps| ==> PieceOk(ps[i])
    ensures AreTexts(TokenTexts(ps))
  {
    hide TextOf, TokenTexts;
    if ps == [] {
      NoTexts();
    } else {
      var init, last := ps[..|ps| - 1], ps[|ps| - 1];
      PiecesSnoc(init, last);
      assert ps == init + [last];
      assert PieceOk(last);
      TextsOfPieces(init);
    }
  }

  lemma NoTexts()
    ensures TokenTexts([]) == []
  {
  }

  /** Words that were shifted, and are no delimiters, have their own text in the string arena. */
  lemma ShiftedWordsOk(tokens: seq<TokenRecord>, strings: seq<string>, lexed: seq<Token>, texts: seq<string>,
                       delims: seq<nat>, words: set<(nat, nat)>)
    requires TokensOk(tokens, strings, lexed, texts, delims) && AreTexts(texts) && Shifted(words, lexed, delims)
    ensures WordsOk(strings, words)
  {
    hide IsPlainWord, IsCString, ClassifyToken;
    forall w | w in words ensures WordOk(strings, w) {
      var k :| 0 <= k < |lexed| && lexed[k].kind == SYM_WORD && w == (lexed[k].offset, lexed[k].flags % WORD_FLAGS);
      assert TokenAt(tokens, strings, delims, lexed, texts, k + 1);
    }
  }

  lemma LexedAscend(tokens: seq<TokenRecord>, strings: seq<string>, lexed: seq<Token>, texts: seq<string>,
                    delims: seq<nat>)
    requires TokensOk(tokens, strings, lexed, texts, delims)
    ensures Ascend(lexed)
  {
    hide IsPlainWord, ClassifyToken, QuoteRemove;
    forall i | 0 <= i < |lexed| ensures lexed[i].offset == i + 1 {
      assert TokenAt(tokens, strings, delims, lexed, texts, i + 1);
    }
  }

  // ---- The list that is about to run -----------------------------------------------------

  /** The words of the last list were shifted, and are no delimiters, also not of the lists before. */
  lemma LastListShifted(t0: Tree, t1: Tree, lexed: seq<Token>, n: nat)
    requires IsDerivation(t0) && IsDerivation(t1) && t1.Branch? && (t1.rule == 4 || t1.rule == 5) && n <= |lexed|
    requires IsDerivation(LastList(t1)) && Yield(t0) + Yield(t1) == lexed[..n] && Ascend(lexed)
    ensures Shifted(WordsIn(Meaning(LastList(t1))), lexed, HereDocs(t0) + HereDocs(t1))
    ensures Ascend(Yield(LastList(t1)))
  {
    hide IsDerivation, Meaning, Ascend, Offsets, WordTokens;
    var kids := t1.kids;
    KidsDerive(t1);
    var before, last := kids[..|kids| - 1], kids[|kids| - 1];
    assert kids == before + [last];
    YieldAllConcat(before, [last]);
    YieldAllSingle(last);
    HereDocsConcat(before, [last]);
    HereDocsSingle(last);
    assert lexed == lexed[..n] + lexed[n..];
    OffsetsOfBoth(lexed[..n], lexed[n..]);
    OffsetsOfBoth(Yield(t0), Yield(t1));
    OffsetsOfBoth(YieldAll(before), Yield(last));
    WordsAreShifted(last);
    DelimitersInYield(t0);
    DelimitersInYields(before);
  }

  lemma KidsDerive(t: Tree)
    requires IsDerivation(t) && t.Branch? && (t.rule == 4 || t.rule == 5)
    ensures t.kids != [] && LastList(t) == t.kids[|t.kids| - 1]
    ensures forall k :: 0 <= k < |t.kids| ==> IsDerivation(t.kids[k])
  {
  }

  /** The list's chain and what ties it to the derivation. */
  lemma PendingChain(c: Ctx, parse: ParserState)
    requires ParserOk(c, parse) && parse.execRootIdx != 0
    ensures |c.shadow| == 2 && |c.stack| == 3 && c.nodes != [] && c.nodes[0] == SENTINEL
    ensures var chain, t := c.shadow[1].chain, c.shadow[1].tree;
      && Holds(c.nodes, chain) && Owns(chain, 1, |c.nodes|) && IsDerivation(t) && IsDerivation(c.shadow[0].tree)
      && t.Branch? && (t.rule == 4 || t.rule == 5) && IsDerivation(LastList(t)) && Denote(chain) == Meaning(LastList(t))
      && Owners(c.nodes, 1, |c.nodes|) == WordOffsets(Yield(LastList(t)))
  {
    hide IsPath, IsDerivation, Owns, Ascending, Meaning, Words, Denote, StackOk, Holds, Owners;
    PendingStack(c.stack, c.nodes, c.tokens, c.shadow);
    StackBottom(c.stack, c.nodes, c.tokens, c.shadow, true);
    StackEntry(c.stack, c.nodes, c.tokens, c.shadow, true, 0);
    StackEntry(c.stack, c.nodes, c.tokens, c.shadow, true, 1);
    LinebreakIsEmpty(c.shadow[0], c.nodes, c.stack[1].node);
    ListOfCommands(c.shadow[1].tree);
    WordsOfCommands(c.shadow[1].tree);
  }

  lemma LinebreakIsEmpty(s: Shadow, nodes: seq<Node>, node: nat)
    requires IsDerivation(s.tree) && Root(s.tree) == SYM_LINEBREAK && s.lo == 1
    requires ChainOk(nodes, s, node, Live(s.tree), LiveWords(s.tree))
    ensures s.hi == 1
  {
    hide Holds, Ascending, Owners;
    assert Denote(s.chain) == [];
    assert Uses(s.chain, 1) == 0;
  }

  lemma WordsOfCommands(t: Tree)
    requires IsDerivation(t) && Root(t) == SYM_COMPLETE_COMMANDS
    ensures t.Branch? && (t.rule == 4 || t.rule == 5) && Words(t) == WordOffsets(Yield(LastList(t)))
  {
  }

  /** A record of the list can be run: its commands wired, or its words expanded. */
  ghost predicate Ready(p: Cell, nodes: seq<Node>, next: nat, strings: seq<string>) {
    && p.Cell? && Holds(nodes, p) && PipelineWiring.UsedOnce(p)
    && (p.data.Pipeline? ==>
          && p.first.Cell? && Holds(nodes, p.first) && AreCommands(p.first) && PipelineWiring.UsedOnce(p.first)
          && PipelineWiring.PipeReady(BodyFds(nodes, |nodes|), p.first)
          && StartsTidy(BodyFds(nodes, |nodes|), next, PipelineWiring.PipeHereFds(p.first)))
    && (p.data.Command? && InSubshell !in p.flags ==>
          Holds(nodes, p.first) && Expansion.AreArgs(p.first) && Expansion.WordsOk(p.first, strings))
  }

  lemma RecordIsReady(nodes: seq<Node>, next: nat, strings: seq<string>, p: Cell, chain: Cell)
    requires Within(p, chain) && Holds(nodes, chain) && PipelineWiring.UsedOnce(chain) && Apart(nodes, next)
    requires AllSound(Denote(chain)) && WordsOk(strings, WordsIn(Denote(chain)))
    ensures Ready(p, nodes, next, strings)
  {
    hide Apart, WordOk, StartsTidy;
    WithinList(nodes, strings, p, chain);
    BelowIsSound(p);
    PipelineWiring.FirstUsedOnce(p);
    if p.data.Pipeline? {
      CommandsOf(nodes, p.first);
      BodiesAreTidy(nodes, next, p.first);
      PipeIsReady(nodes, next, p.first);
    } else if p.data.Command? && InSubshell !in p.flags {
      ArgsOf(nodes, p.first);
      ArgWordsOk(strings, p.first);
    }
  }

  /**
   * Whenever the driver is about to run a list, each of its pipelines, at any depth, meets what
   * wiring it needs, in a process that has the descriptors of the bodies open, and each command
   * what expanding it needs.
   */
  lemma ListIsReady(c: Ctx, parse: ParserState, left: string, input: Input, p: Cell)
    requires ParseInput.Stepped(c, parse) && ParseInput.RanComplete(c, parse)
    requires parse.execRootIdx != 0 && !Waits(parse) && IsCString(Whole(input))
    requires PiecesOk(c.pieces, c.texts, left, Whole(input))
    requires |c.shadow| == 2 ==> Within(p, c.shadow[1].chain)
    ensures Ready(p, c.nodes, |c.bodies|, c.strings)
  {
    hide ParserOk, TokensOk, IsPath, IsDerivation, Meaning, Holds, Owns, Owners, Denote, AgreesOn, Machine,
      Within, Ready, Apart, AllSound, WordsOk, PipelineWiring.UsedOnce, TextOf, Served, LastList, Ascend;
    PendingChain(c, parse);
    var chain, t0, t1 := c.shadow[1].chain, c.shadow[0].tree, c.shadow[1].tree;
    MachineOfTwo(c);
    LexedAscend(c.tokens, c.strings, c.lexed, c.texts, c.delims);
    LastListShifted(t0, t1, c.lexed, c.shifted);
    PendingApart(c, parse);
    OwnedOnce(chain, 1, |c.nodes|);
    MeaningSound(LastList(t1));
    TextsOfPieces(c.pieces);
    ShiftedWordsOk(c.tokens, c.strings, c.lexed, c.texts, c.delims, WordsIn(Denote(chain)));
    RecordIsReady(c.nodes, |c.bodies|, c.strings, p, chain);
  }

  // ---- Running it ------------------------------------------------------------------------

  lemma {:induction false} ListRuns(nodes: seq<Node>, c: Cell)
    requires Holds(nodes, c) && AllSound(Denote(c)) && forall i :: 0 <= i < |Denote(c)| ==> Denote(c)[i].APipeline?
    ensures ListWiring.Runnable(c)
  {
    if c.Cell? {
      var m := Denote(c);
      assert m[0] == AstOf(c) && m[1..] == Denote(c.rest);
      assert SoundAst(m[0]);
      assert Denote(c.first) != [];
      CommandsOf(nodes, c.first);
      ListRuns(nodes, c.rest);
    }
  }

  lemma {:induction false} PipelinesAreReady(nodes: seq<Node>, next: nat, c: Cell)
    requires Holds(nodes, c) && Apart(nodes, next)
    ensures ListWiring.ListReady(BodyFds(nodes, |nodes|), c)
  {
    hide Apart, BodyFds;
    if c.Cell? {
      PipeIsReady(nodes, next, c.first);
      PipelinesAreReady(nodes, next, c.rest);
    }
  }

  /** In a process that has just these descriptors open, the list's are told from the rest. */
  lemma ListIsTidy(nodes: seq<Node>, next: nat, c: Cell)
    requires Holds(nodes, c) && Apart(nodes, next)
    ensures StartsTidy(BodyFds(nodes, |nodes|), next, ListWiring.ListHereFds(c))
  {
    hide BodyFds, Apart;
    PipelinesAreReady(nodes, next, c);
    BodyFdsBelow(nodes, next, |nodes|);
    var fds := BodyFds(nodes, |nodes|);
    forall f | f in ListWiring.ListHereFds(c) ensures f in fds {
      ListWiring.ListFdIsOther(fds, c, f);
    }
  }

  lemma {:induction false} IndicesApart(c: Cell)
    requires PipelineWiring.UsedOnce(c)
    ensures ListWiring.Distinct(ExecuteList.Indices(c))
    ensures forall i :: i in ExecuteList.Indices(c) ==> Uses(c, i) > 0
  {
    if c.Cell? {
      PipelineWiring.FirstUsedOnce(c);
      IndicesApart(c.rest);
    }
  }

  /** What running the pending list needs. */
  lemma PendingIsReady(c: Ctx, parse: ParserState)
    requires ParseInput.Stepped(c, parse) && ParseInput.RanComplete(c, parse)
    requires parse.execRootIdx != 0 && !Waits(parse)
    ensures |c.shadow| == 2 && c.nodes != [] && c.nodes[0] == SENTINEL
    ensures var chain := c.shadow[1].chain; var fds := BodyFds(c.nodes, |c.nodes|);
      && parse.execRootIdx == Head(chain) && Holds(c.nodes, chain) && ListWiring.Runnable(chain)
      && ExecuteList.AllOneFlag(chain) && PipelineWiring.UsedOnce(chain) && ListWiring.ListReady(fds, chain)
      && StartsTidy(fds, |c.bodies|, ListWiring.ListHereFds(chain))
      && ListWiring.Distinct(ExecuteList.Indices(chain))
  {
    hide TokensOk, IsPath, IsDerivation, Meaning, Holds, Owns, Owners, AgreesOn, Machine, Apart,
      PipelineWiring.UsedOnce,
      Served, LastList, Ascend, StartsTidy, BodyFds, ListWiring.Runnable, ListWiring.ListReady, StackOk;
    PendingChain(c, parse);
    PendingList(c, parse);
    var chain := c.shadow[1].chain;
    PendingApart(c, parse);
    ListShape(c.nodes, chain, LastList(c.shadow[1].tree));
    PipelinesAreReady(c.nodes, |c.bodies|, chain);
    ListIsTidy(c.nodes, |c.bodies|, chain);
    OwnedOnce(chain, 1, |c.nodes|);
    IndicesApart(chain);
  }

  lemma ListShape(nodes: seq<Node>, chain: Cell, t: Tree)
    requires Holds(nodes, chain) && IsDerivation(t) && Root(t) == SYM_AND_OR && Denote(chain) == Meaning(t)
    ensures ListWiring.Runnable(chain)
  {
    MeaningSound(t);
    ListRuns(nodes, chain);
  }

  /** The here-documents of the pending list hold descriptors of their own. */
  lemma PendingApart(c: Ctx, parse: ParserState)
    requires ParseInput.Stepped(c, parse) && ParseInput.RanComplete(c, parse)
    requires parse.execRootIdx != 0 && !Waits(parse)
    ensures Apart(c.nodes, |c.bodies|)
  {
    hide ParserOk, TokensOk, IsPath, IsDerivation, Meaning, Holds, Owns, Owners, Denote, AgreesOn, Machine, Apart,
      Served, LastList, Ascend;
    PendingChain(c, parse);
    var t0, t1 := c.shadow[0].tree, c.shadow[1].tree;
    MachineOfTwo(c);
    LexedAscend(c.tokens, c.strings, c.lexed, c.texts, c.delims);
    LastListShifted(t0, t1, c.lexed, c.shifted);
    OffsetsIncrease(Yield(LastList(t1)));
    ChainServed(c);
    FdsApart(c.nodes, c.shadow[1].chain, c.delims);
  }

  /**
   * Runs the list that the driver is about to run, with its pipelines wired. Whatever its commands
   * do, it is one of the runs the driver provides for: a walk over the list, for some outcome of
   * each of its pipelines.
   */
  method RunReadyList(c: Ctx, parse: ParserState, w: World)
    returns (p: PipelineWiring.Process, status: int, ghost outcome: nat -> AndOr.Status)
    requires ParseInput.Stepped(c, parse) && ParseInput.RanComplete(c, parse)
    requires parse.execRootIdx != 0 && !Waits(parse)
    ensures |c.shadow| == 2
    ensures var chain := c.shadow[1].chain; var start := Ran([], CLOSED, c.returnStatus, None, c.shouldExit, false, 0);
      && ListWiring.Runnable(chain) && ExecuteList.ArePipelines(chain)
      && p.State(status) == ListWiring.RunPipelines(chain, w, 0, start)
      && AndOr.Walk(ExecuteList.ChainLinks(chain), ExecuteList.Indices(chain), outcome, 0,
                    AndOr.Status(c.returnStatus, c.shouldExit))
         == AndOr.Run(ListWiring.TraceOf(chain, w, 0, start), AndOr.Status(status, p.shouldExit))
  {
    hide ParseInput.Stepped, ParseInput.RanComplete, ListWiring.Runnable, ListWiring.RunPipelines, ListWiring.TraceOf,
      BodyFds, Holds, PipelineWiring.UsedOnce, ListWiring.ListReady, ListWiring.Distinct, ExecuteList.Indices,
      ListWiring.ListHereFds, ExecuteList.AllOneFlag, PipelineWiring.TidyFds;
    PendingIsReady(c, parse);
    ghost var chain, fds := c.shadow[1].chain, BodyFds(c.nodes, |c.nodes|);
    ListWiring.RunnableAre(chain);
    p := new PipelineWiring.Process(c.nodes, BodyFds(c.nodes, |c.nodes|), |c.bodies|);
    p.shouldExit := c.shouldExit;
    ghost var base := fds - ListWiring.ListHereFds(chain);
    FreshIsBetween(p, chain, base);
    ghost var s := p.State(c.returnStatus);
    outcome := ListWiring.RunIsAWalk(chain, w, 0, s);
    ghost var lost, left;
    status, lost, left := ListWiring.RunList(p, w, parse.execRootIdx, c.returnStatus, chain, base);
  }

  lemma FreshIsBetween(p: PipelineWiring.Process, c: Cell, base: map<int, Desc>)
    requires p.nodes != [] && p.nodes[0] == SENTINEL && Holds(p.nodes, c) && ListWiring.Runnable(c)
    requires ExecuteList.AllOneFlag(c) && PipelineWiring.UsedOnce(c) && ListWiring.ListReady(p.fds, c)
    requires p.io0 == p.io1 == p.pipe0 == p.pipe1 == -1 && base == p.fds - ListWiring.ListHereFds(c)
    requires StartsTidy(p.fds, p.next, ListWiring.ListHereFds(c))
    ensures ListWiring.BetweenPipelines(p, c, base, [], {})
    ensures p.Found() == CLOSED
  {
    assert ListWiring.ListHereFds(c) + {} == ListWiring.ListHereFds(c);
  }

  lemma ChainServed(c: Ctx)
    requires DelimitersOk(c, false) && |c.shadow| == 2
    ensures Served(c.shadow[1].chain, c.delims)
  {
    assert c.delims[..|c.delims|] == c.delims;
  }

  lemma OwnedOnce(c: Cell, lo: nat, hi: nat)
    requires Owns(c, lo, hi)
    ensures PipelineWiring.UsedOnce(c)
  {
  }

  lemma MachineOfTwo(c: Ctx)
    requires |c.shadow| == 2 && |c.stack| == 3
    ensures Trees(Machine(c)) == [c.shadow[0].tree, c.shadow[1].tree]
    ensures YieldAll(Trees(Machine(c))) == Yield(c.shadow[0].tree) + Yield(c.shadow[1].tree)
    ensures HereDocsAll(Trees(Machine(c))) == HereDocs(c.shadow[0].tree) + HereDocs(c.shadow[1].tree)
  {
    var a, b := c.shadow[0].tree, c.shadow[1].tree;
    YieldAllSingle(b);
    HereDocsSingle(b);
    assert [a, b][1..] == [b];
  }
}
