// Where the words of a list come from: each is a WORD that was shifted, and none of them is the
// delimiter of a here-document.

module WordOrigins {
  import opened Grammar
  import opened Derivations
  import opened NodeArena
  import opened Syntax
  import opened WellFormed
  import opened HereDescriptors


  function Offsets(tokens: seq<Token>): set<nat> {
    set k | 0 <= k < |tokens| :: tokens[k].offset
  }

  /** The words among the tokens, with the flags a node keeps. */
  function WordTokens(tokens: seq<Token>): set<(nat, nat)> {
    set k | 0 <= k < |tokens| && tokens[k].kind == SYM_WORD :: (tokens[k].offset, tokens[k].flags % WORD_FLAGS)
  }

  predicate Ascend(tokens: seq<Token>) {
    forall i, j :: 0 <= i < j < |tokens| ==> tokens[i].offset < tokens[j].offset
  }

  lemma OffsetsOfBoth(a: seq<Token>, b: seq<Token>)
    ensures forall x :: x in Offsets(a) ==> x in Offsets(a + b)
    ensures forall x :: x in Offsets(b) ==> x in Offsets(a + b)
    ensures forall x :: x in WordTokens(a) ==> x in WordTokens(a + b) && x.0 in Offsets(a)
    ensures forall x :: x in WordTokens(b) ==> x in WordTokens(a + b) && x.0 in Offsets(b)
    ensures Ascend(a + b) ==> Ascend(a) && Ascend(b) && Offsets(a) !! Offsets(b)
  {
    assert forall k :: 0 <= k < |a| ==> (a + b)[k] == a[k];
    assert forall k :: 0 <= k < |b| ==> (a + b)[|a| + k] == b[k];
    if Ascend(a + b) {
      forall x | x in Offsets(a) ensures x !in Offsets(b) {
        var i :| 0 <= i < |a| && a[i].offset == x;
        forall k | 0 <= k < |b| ensures b[k].offset != x {
          assert (a + b)[i].offset < (a + b)[|a| + k].offset;
        }
      }
    }
  }

  // ---- Delimiters ------------------------------------------------------------------------

  lemma HereHasTokens(t: Tree)
    requires IsDerivation(t) && t.Branch? && t.rule == 40
    ensures YieldAll(t.kids) != []
  {
    assert Root(t.kids[0]) == RhsAt(40, 0 + 0);
    assert t.kids[0].Leaf?;
    assert YieldAll(t.kids) == Yield(t.kids[0]) + YieldAll(t.kids[1..]);
  }

  /** Delimiters are tokens of the derivation. */
  lemma {:induction false} DelimitersInYield(t: Tree)
    requires IsDerivation(t)
    ensures forall d :: d in HereDocs(t) ==> d in Offsets(Yield(t))
    decreases t, 0
  {
    hide Lhs;
    if t.Branch? {
      DelimitersInYields(t.kids);
      var tokens := YieldAll(t.kids);
      if t.rule == 40 {
        HereHasTokens(t);
        assert tokens[|tokens| - 1].offset in Offsets(tokens);
      }
    }
  }

  lemma {:induction false} DelimitersInYields(ts: seq<Tree>)
    requires forall k :: 0 <= k < |ts| ==> IsDerivation(ts[k])
    ensures forall d :: d in HereDocsAll(ts) ==> d in Offsets(YieldAll(ts))
    decreases ts, 1
  {
    hide IsDerivation, Offsets, WordTokens, Ascend;
    if ts != [] {
      DelimitersInYield(ts[0]);
      DelimitersInYields(ts[1..]);
      OffsetsOfBoth(Yield(ts[0]), YieldAll(ts[1..]));
    }
  }

  // ---- Words -----------------------------------------------------------------------------

  /** The words were shifted, and are no delimiters. */
  predicate Shifted(words: set<(nat, nat)>, tokens: seq<Token>, delims: seq<nat>) {
    forall w :: w in words ==> w in WordTokens(tokens) && w.0 !in delims
  }

  function LiveWordsIn(ts: seq<Tree>): set<(nat, nat)>
    requires forall k :: 0 <= k < |ts| ==> IsDerivation(ts[k])
  {
    if ts == [] then {} else WordsIn(Live(ts[0])) + LiveWordsIn(ts[1..])
  }

  lemma {:induction false} LiveWordsOfKid(ts: seq<Tree>, i: nat)
    requires forall k :: 0 <= k < |ts| ==> IsDerivation(ts[k])
    requires i < |ts|
    ensures WordsIn(Live(ts[i])) <= LiveWordsIn(ts)
  {
    hide IsDerivation, Live, WordsIn;
    if i > 0 { LiveWordsOfKid(ts[1..], i - 1); }
  }

  lemma KidWords(r: int, kids: seq<Tree>, i: nat)
    requires IsRule(r) && IsRhs(r, 0, kids)
    requires forall k :: 0 <= k < |kids| ==> IsDerivation(kids[k])
    ensures WordsIn(KidMeaning(r, kids, i)) <= LiveWordsIn(kids)
  {
    hide IsDerivation, Live;
    if i < |kids| { LiveWordsOfKid(kids, i); }
  }

  /** The word a production makes is its last token. */
  lemma NewWordShifted(t: Tree)
    requires IsDerivation(t) && t.Branch? && MakesWord(t.rule) && Ascend(Yield(t))
    ensures var word := LastToken(YieldAll(t.kids));
      && (word.offset, word.flags % WORD_FLAGS) in WordTokens(Yield(t)) && word.offset !in HereDocs(t)
  {
    hide IsDerivation, Ascend, Offsets, WordTokens, MakesWord, HereDocsAll, YieldAll;
    LastIsWord(t);
    var init, word := t.kids[..|t.kids| - 1], Yield(t.kids[|t.kids| - 1])[0];
    LastApart(t.kids, word);
    DelimitersInYields(init);
    OffsetsOfBoth(YieldAll(init), [word]);
    OneWordToken(word);
  }

  /** A last token adds itself to the tokens, and no delimiter. */
  lemma LastApart(kids: seq<Tree>, word: Token)
    requires kids != [] && kids[|kids| - 1].Leaf? && Yield(kids[|kids| - 1]) == [word]
    ensures YieldAll(kids) == YieldAll(kids[..|kids| - 1]) + [word]
    ensures HereDocsAll(kids) == HereDocsAll(kids[..|kids| - 1])
  {
    hide HereDocsAll, YieldAll;
    var init, last := kids[..|kids| - 1], kids[|kids| - 1];
    assert kids == init + [last];
    YieldAllConcat(init, [last]);
    YieldAllSingle(last);
    HereDocsConcat(init, [last]);
    HereDocsSingle(last);
  }

  lemma LastIsWord(t: Tree)
    requires IsDerivation(t) && t.Branch? && MakesWord(t.rule)
    ensures t.rule != 40 && t.kids != [] && forall k :: 0 <= k < |t.kids| ==> IsDerivation(t.kids[k])
    ensures var last := t.kids[|t.kids| - 1]; last.Leaf? && |Yield(last)| == 1 && Yield(last)[0].kind == SYM_WORD
  {
    var last := t.kids[|t.kids| - 1];
    assert Root(last) == RhsAt(t.rule, 0 + |t.kids| - 1) == SYM_WORD;
  }

  lemma OneWordToken(word: Token)
    requires word.kind == SYM_WORD
    ensures word.offset in Offsets([word]) && (word.offset, word.flags % WORD_FLAGS) in WordTokens([word])
  {
    assert [word][0] == word;
  }

  lemma {:induction false} WordsAreShifted(t: Tree)
    requires IsDerivation(t) && Ascend(Yield(t))
    ensures Shifted(WordsIn(Meaning(t)), Yield(t), HereDocs(t))
    decreases t, 0
  {
    hide Combine, ShapesFit, HasShape, WordTokens, Ascend, Lhs, RhsAt, RhsLen;
    if t.Branch? {
      MeaningOfBranch(t);
      var a, b := KidMeaning(t.rule, t.kids, 0), KidMeaning(t.rule, t.kids, 1);
      var c, d := KidMeaning(t.rule, t.kids, 2), KidMeaning(t.rule, t.kids, 3);
      CombineWords(t.rule, a, b, c, d, LastToken(YieldAll(t.kids)));
      KidWords(t.rule, t.kids, 0);
      KidWords(t.rule, t.kids, 1);
      KidWords(t.rule, t.kids, 2);
      KidWords(t.rule, t.kids, 3);
      if MakesWord(t.rule) { NewWordShifted(t); }
      LiveWordsShifted(t.kids);
      if t.rule == 40 { NoWordsOfHere(a, b, c, d, LastToken(YieldAll(t.kids))); }
    }
  }

  lemma NoWordsOfHere(a: seq<Ast>, b: seq<Ast>, c: seq<Ast>, d: seq<Ast>, word: Token)
    requires ShapesFit(40, a, b, c, d)
    ensures WordsIn(Combine(40, a, b, c, d, word)) == {}
  {
    WordsInOne(ARedir(HereFlags(word), word.offset, 0));
  }

  lemma {:induction false} LiveWordsShifted(ts: seq<Tree>)
    requires forall k :: 0 <= k < |ts| ==> IsDerivation(ts[k])
    requires Ascend(YieldAll(ts))
    ensures Shifted(LiveWordsIn(ts), YieldAll(ts), HereDocsAll(ts))
    decreases ts, 1
  {
    hide IsDerivation, Meaning, Offsets, WordTokens, Ascend, HasShape;
    if ts != [] {
      OffsetsOfBoth(Yield(ts[0]), YieldAll(ts[1..]));
      if Root(ts[0]) != SYM_COMPLETE_COMMANDS { WordsAreShifted(ts[0]); }
      LiveWordsShifted(ts[1..]);
      DelimitersInYield(ts[0]);
      DelimitersInYields(ts[1..]);
    }
  }
}
