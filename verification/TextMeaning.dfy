// From the text of a line to its meaning: which redirection, which link, which grouping an operator
// makes is decided by how it is written.

module TextMeaning {
  import opened CStrings
  import opened Grammar
  import opened Derivations
  import opened NodeArena
  import opened Syntax
  import opened Context
  import opened ShellText
  import opened SimpleCommands
  import opened AndOr
  import opened QuoteRemoval
  import opened Lexer
  import opened Classification
  import opened TokenHistory
  import opened WordUnits
  import opened Tokenization

  // ---- Tokens as they are written --------------------------------------------------------

  /** The token's text, of which its kind and its flag of quotes are taken. */
  ghost predicate IsWritten(token: Token, texts: seq<string>) {
    && 0 < token.offset <= |texts| && token.kind == ClassifyToken(texts[token.offset - 1])
    && (token.kind == SYM_WORD ==> (token.flags % 2 == TKN_HAS_QUOTES <==> HoldsQuotes(texts[token.offset - 1])))
  }

  ghost predicate AreWritten(tokens: seq<Token>, texts: seq<string>) {
    forall i :: 0 <= i < |tokens| ==> IsWritten(tokens[i], texts)
  }

  function Body(token: Token, texts: seq<string>): string {
    if 0 < token.offset <= |texts| then texts[token.offset - 1] else []
  }

  /** The tokens of a run are written as their texts. */
  lemma LexedAreWritten(tokens: seq<TokenRecord>, strings: seq<string>, lexed: seq<Token>, texts: seq<string>,
                        delims: seq<nat>)
    requires TokensOk(tokens, strings, lexed, texts, delims)
    ensures AreWritten(lexed, texts)
  {
    hide HoldsQuotes, IsPlainWord, QuoteRemove, ClassifyToken;
    forall i | 0 <= i < |lexed| ensures IsWritten(lexed[i], texts) {
      assert TokenAt(tokens, strings, delims, lexed, texts, i + 1);
      QuotedAsWritten(tokens, strings, lexed, texts, delims, i + 1);
    }
  }

  lemma {:induction false} LexemesAreFlagged(text: string, i: nat, xs: seq<Lexeme>, k: nat)
    requires Tokenizes(text, i, xs) && k < |xs|
    ensures ClassifyToken(xs[k].text) == SYM_WORD ==> (xs[k].flags % 2 == TKN_HAS_QUOTES <==> HoldsQuotes(xs[k].text))
    decreases |text| - i
  {
    hide AreUnits, EndsWord, SomeClosed, SomeExpands, OperatorStarts, Spelled, Spelling, ClassifyToken, HoldsQuotes;
    if BlankAt(text, i) {
      LexemesAreFlagged(text, i + 1, xs, k);
    } else if text[i] == '#' {
      var j: nat :| IsComment(text, i, j) && Tokenizes(text, j, xs);
      LexemesAreFlagged(text, j, xs, k);
    } else if OperatorStarts(text, i) {
      var kind: Symbol :| OperatorIs(text, i, kind) && xs[0] == Lexeme(Spelling(kind), OperatorToken, 0)
        && Tokenizes(text, i + |Spelling(kind)|, xs[1..]);
      IsStarted(text, i, kind);
      ClassifiedAsSpelled(Spelling(kind));
      if k > 0 { LexemesAreFlagged(text, i + |Spelling(kind)|, xs[1..], k - 1); }
    } else {
      var cuts: seq<nat> :| IsWord(text, i, cuts) && xs[0] == LexemeOf(text, cuts)
        && Tokenizes(text, Last(cuts), xs[1..]);
      QuotesAreFlagged(text, i, cuts);
      if k > 0 { LexemesAreFlagged(text, Last(cuts), xs[1..], k - 1); }
    }
  }

  lemma {:induction false} TokensOfAt(index: nat, xs: seq<Lexeme>, k: nat)
    requires k < |xs|
    ensures TokensOf(index, xs)[k] == TokenOf(index + k, xs[k].text, xs[k].flags)
    decreases k
  {
    hide ClassifyToken;
    if k > 0 { TokensOfAt(index + 1, xs[1..], k - 1); }
  }

  /** The tokens of a line are written as their texts. */
  lemma LineIsWritten(line: string)
    ensures AreWritten(LineTokens(line), LineTexts(line))
  {
    hide Lexemes, Tokenizes, TokensOf, HoldsQuotes, ClassifyToken;
    var xs := Lexemes(line, ZEROED);
    LineIsTokenized(line);
    forall k | 0 <= k < |LineTokens(line)| ensures IsWritten(LineTokens(line)[k], LineTexts(line)) {
      TokensOfAt(1, xs, k);
      LexemesAreFlagged(line, 0, xs, k);
    }
  }

  // ---- Simple commands -------------------------------------------------------------------

  predicate IsRedirection(text: string) {
    text == "<" || text == ">" || text == ">>" || text == "<<"
  }

  /** `<` reads from the file that the word names, `>` writes to it and `>>` behind it, `<<` reads a here-document. */
  ghost function RedirectionOf(text: string, word: Token, texts: seq<string>): Ast {
    if text == "<" then ARedir({RedirIn}, word.offset, word.flags % WORD_FLAGS)
    else if text == ">" then ARedir({RedirOut}, word.offset, word.flags % WORD_FLAGS)
    else if text == ">>" then ARedir({RedirAppend}, word.offset, word.flags % WORD_FLAGS)
    else if HoldsQuotes(Body(word, texts)) then ARedir({RedirHere, RedirHasQuotes}, word.offset, 0)
    else ARedir({RedirHere}, word.offset, 0)
  }

  /** The words and redirections of a simple command, by their texts. */
  ghost function TextItems(tokens: seq<Token>, texts: seq<string>): seq<Ast> {
    if tokens == [] then []
    else if !IsRedirection(Body(tokens[0], texts)) then
      [AWord(tokens[0].offset, tokens[0].flags % WORD_FLAGS)] + TextItems(tokens[1..], texts)
    else if |tokens| >= 2 then
      [RedirectionOf(Body(tokens[0], texts), tokens[1], texts)] + TextItems(tokens[2..], texts)
    else []
  }

  /** An operator's text is how its kind is spelled. */
  lemma TextOfToken(token: Token, texts: seq<string>)
    requires IsWritten(token, texts)
    ensures IsOperator(token.kind) && token.kind != SYM_NEWLINE ==> Body(token, texts) == Spelling(token.kind)
    ensures token.kind == SYM_WORD ==> !IsRedirection(Body(token, texts))
    ensures IsRedirOp(token.kind) <==> IsRedirection(Body(token, texts))
  {
    hide HoldsQuotes;
    ClassifiedAsSpelled(Body(token, texts));
    var text := Body(token, texts);
    assert text == "<" ==> text == Spelling(SYM_LESS);
    assert text == ">" ==> text == Spelling(SYM_GREAT);
    assert text == ">>" ==> text == Spelling(SYM_DGREAT);
    assert text == "<<" ==> text == Spelling(SYM_DLESS);
  }

  lemma WrittenRedir(op: Token, word: Token, texts: seq<string>)
    requires IsWritten(op, texts) && IsWritten(word, texts) && IsRedirOp(op.kind) && word.kind == SYM_WORD
    ensures RedirOf(op.kind, word) == RedirectionOf(Body(op, texts), word, texts)
  {
    hide HoldsQuotes, ClassifyToken;
    TextOfToken(op, texts);
  }

  lemma {:induction false} ItemsAreWritten(tokens: seq<Token>, texts: seq<string>)
    requires AreWritten(tokens, texts) && IsClosed(tokens)
    ensures Items(tokens) == TextItems(tokens, texts)
    decreases |tokens|
  {
    hide IsWritten, RedirOf, RedirectionOf, IsRedirection;
    if tokens != [] {
      assert IsWritten(tokens[0], texts);
      TextOfToken(tokens[0], texts);
      if tokens[0].kind == SYM_WORD {
        ItemsAreWritten(tokens[1..], texts);
      } else {
        assert IsWritten(tokens[1], texts);
        WrittenRedir(tokens[0], tokens[1], texts);
        ItemsAreWritten(tokens[2..], texts);
      }
    }
  }

  // ---- Parts of a program ----------------------------------------------------------------

  predicate PartOf(sub: Tree, t: Tree) {
    sub == t || (t.Branch? && exists i :: 0 <= i < |t.kids| && PartOf(sub, t.kids[i]))
  }

  lemma {:induction false} PartIsWritten(sub: Tree, t: Tree, texts: seq<string>)
    requires PartOf(sub, t) && IsDerivation(t) && AreWritten(Yield(t), texts)
    ensures IsDerivation(sub) && AreWritten(Yield(sub), texts)
    decreases t
  {
    hide IsWritten;
    if sub != t {
      var i :| 0 <= i < |t.kids| && PartOf(sub, t.kids[i]);
      KidIsWritten(t.kids, i, texts);
      KidDerives(t, i);
      PartIsWritten(sub, t.kids[i], texts);
    }
  }

  lemma KidDerives(t: Tree, i: nat)
    requires IsDerivation(t) && t.Branch? && i < |t.kids|
    ensures IsDerivation(t.kids[i])
  {
  }

  lemma {:induction false} KidIsWritten(kids: seq<Tree>, i: nat, texts: seq<string>)
    requires i < |kids| && AreWritten(YieldAll(kids), texts)
    ensures AreWritten(Yield(kids[i]), texts)
    decreases |kids|
  {
    hide IsWritten;
    var a, b := Yield(kids[0]), YieldAll(kids[1..]);
    assert YieldAll(kids) == a + b;
    if i == 0 {
      forall k | 0 <= k < |a| ensures IsWritten(a[k], texts) { assert a[k] == (a + b)[k]; }
    } else {
      forall k | 0 <= k < |b| ensures IsWritten(b[k], texts) { assert b[k] == (a + b)[|a| + k]; }
      KidIsWritten(kids[1..], i - 1, texts);
    }
  }

  lemma OperatorKid(t: Tree, i: nat, texts: seq<string>)
    requires IsDerivation(t) && t.Branch? && i < |t.kids| && AreWritten(Yield(t), texts)
    requires IsOperator(RhsAt(t.rule, i)) && RhsAt(t.rule, i) != SYM_NEWLINE
    ensures t.kids[i].Leaf? && Body(t.kids[i].token, texts) == Spelling(RhsAt(t.rule, i))
  {
    hide IsWritten, Spelling;
    assert Root(t.kids[i]) == RhsAt(t.rule, 0 + i);
    KidDerives(t, i);
    WordLeaf(t.kids[i]);
    KidIsWritten(t.kids, i, texts);
    assert IsWritten(Yield(t.kids[i])[0], texts);
    TextOfToken(t.kids[i].token, texts);
  }

  // ---- What the text of an operator means ------------------------------------------------

  /** `a && b` and `a OR b`: the pipeline behind the operator carries its flag, those before stay as they are. */
  ghost predicate LinksAsWritten(t: Tree, texts: seq<string>)
    requires IsDerivation(t) && Root(t) == SYM_AND_OR
  {
    AndOrMeaning(t);
    t.rule != 6 ==>
      && t.kids[1].Leaf?
      && var text, m := Body(t.kids[1].token, texts), Meaning(t);
      && (text == "&&" || text == "||") && m[..|m| - 1] == Meaning(t.kids[0])
      && m[|m| - 1].flags == if text == "&&" then {AndIf} else {OrIf}
  }

  /** The commands of a pipeline, from the left. */
  function CommandTrees(t: Tree): seq<Tree> {
    if t.Branch? && t.rule == 10 && |t.kids| == 4 then CommandTrees(t.kids[0]) + [t.kids[3]]
    else if t.Branch? && t.kids != [] then [t.kids[0]]
    else []
  }

  /** Between the commands of a pipeline there is `|`. */
  predicate PipesAsWritten(t: Tree, texts: seq<string>) {
    t.Branch? && t.rule == 10 && |t.kids| == 4 ==>
      t.kids[1].Leaf? && Body(t.kids[1].token, texts) == "|" && PipesAsWritten(t.kids[0], texts)
  }

  /** One meaning behind the other. */
  ghost function Meanings(ts: seq<Tree>): seq<Ast>
    requires forall i :: 0 <= i < |ts| ==> IsDerivation(ts[i])
  {
    if ts == [] then [] else Meanings(ts[..|ts| - 1]) + Meaning(ts[|ts| - 1])
  }

  lemma {:induction false} PipelineIsListed(t: Tree, texts: seq<string>)
    requires IsDerivation(t) && Root(t) == SYM_PIPELINE && AreWritten(Yield(t), texts)
    ensures forall i :: 0 <= i < |CommandTrees(t)| ==>
              IsDerivation(CommandTrees(t)[i]) && Root(CommandTrees(t)[i]) == SYM_COMMAND
    ensures Meaning(t) == [APipeline({}, Meanings(CommandTrees(t)))] && PipesAsWritten(t, texts)
    decreases t
  {
    hide Meaning, IsDerivation, IsWritten, Combine, ShapesFit, RhsAt, RhsLen;
    PipelineRule(t);
    MeaningOfBranch(t);
    if t.rule == 10 {
      KidIsWritten(t.kids, 0, texts);
      PipelineIsListed(t.kids[0], texts);
      PipeKid(t, texts);
      CombinePipeline(10, KidMeaning(10, t.kids, 0), KidMeaning(10, t.kids, 1), KidMeaning(10, t.kids, 2),
        KidMeaning(10, t.kids, 3), LastToken(YieldAll(t.kids)));
      var init := CommandTrees(t.kids[0]);
      assert (init + [t.kids[3]])[..|init|] == init;
    } else {
      CombinePipeline(9, KidMeaning(9, t.kids, 0), KidMeaning(9, t.kids, 1), KidMeaning(9, t.kids, 2),
        KidMeaning(9, t.kids, 3), LastToken(YieldAll(t.kids)));
      OneMeaning(t.kids[0]);
    }
  }

  lemma OneMeaning(t: Tree)
    requires IsDerivation(t)
    ensures Meanings([t]) == Meaning(t)
  {
    hide Meaning, IsDerivation;
    assert [t][..0] == [];
  }

  lemma PipeKid(t: Tree, texts: seq<string>)
    requires IsDerivation(t) && t.Branch? && t.rule == 10 && AreWritten(Yield(t), texts)
    ensures |t.kids| == 4 && t.kids[1].Leaf? && Body(t.kids[1].token, texts) == "|"
  {
    hide IsWritten;
    OperatorKid(t, 1, texts);
  }

  lemma PipelineRule(t: Tree)
    requires IsDerivation(t) && Root(t) == SYM_PIPELINE
    ensures t.Branch? && (t.rule == 9 || t.rule == 10) && |t.kids| == (if t.rule == 9 then 1 else 4)
    ensures IsRule(9) && IsRule(10)
    ensures forall i :: 0 <= i < |t.kids| ==> IsDerivation(t.kids[i])
    ensures t.rule == 9 ==> Root(t.kids[0]) == SYM_COMMAND && KidMeaning(9, t.kids, 0) == Meaning(t.kids[0])
    ensures t.rule == 10 ==> Root(t.kids[0]) == SYM_PIPELINE && Root(t.kids[3]) == SYM_COMMAND
    ensures t.rule == 10 ==>
              KidMeaning(10, t.kids, 0) == Meaning(t.kids[0]) && KidMeaning(10, t.kids, 3) == Meaning(t.kids[3])
  {
    hide Meaning;
    assert Root(t.kids[0]) == RhsAt(t.rule, 0 + 0);
    if t.rule == 10 { assert Root(t.kids[3]) == RhsAt(t.rule, 0 + 3); }
  }

  lemma CombinePipeline(r: int, a: seq<Ast>, b: seq<Ast>, c: seq<Ast>, d: seq<Ast>, word: Token)
    requires (r == 9 || r == 10) && ShapesFit(r, a, b, c, d)
    ensures r == 9 ==> Combine(r, a, b, c, d, word) == [APipeline({}, a)]
    ensures r == 10 ==>
      |a| == 1 && a[0].APipeline? && Combine(r, a, b, c, d, word) == [APipeline({}, a[0].commands + d)]
  {
  }

  /** Parentheses make a command of the list in them. */
  ghost predicate GroupsAsWritten(t: Tree, texts: seq<string>)
    requires IsDerivation(t) && Root(t) == SYM_SUBSHELL
  {
    && t.Branch? && |t.kids| == 3 && t.kids[0].Leaf? && t.kids[2].Leaf? && IsDerivation(t.kids[1])
    && Body(t.kids[0].token, texts) == "(" && Body(t.kids[2].token, texts) == ")"
    && Meaning(t) == [ACommand({InSubshell}, Meaning(t.kids[1]), [])]
  }

  lemma SubshellGroups(t: Tree, texts: seq<string>)
    requires IsDerivation(t) && Root(t) == SYM_SUBSHELL && AreWritten(Yield(t), texts)
    ensures GroupsAsWritten(t, texts)
  {
    hide Meaning, IsWritten;
    assert t.Branch? && t.rule == 14 && |t.kids| == 3;
    assert Root(t.kids[1]) == RhsAt(14, 0 + 1);
    OperatorKid(t, 0, texts);
    OperatorKid(t, 2, texts);
    KidDerives(t, 1);
    MeaningOfBranch(t);
  }

  lemma OperatorLinks(t: Tree, texts: seq<string>)
    requires IsDerivation(t) && Root(t) == SYM_AND_OR && AreWritten(Yield(t), texts)
    ensures LinksAsWritten(t, texts)
  {
    hide Meaning, IsWritten, IsDerivation;
    AndOrRule(t);
    AndOrMeaning(t);
    if t.rule != 6 {
      AndOrOperators();
      OperatorKid(t, 1, texts);
    }
  }

  lemma AndOrOperators()
    ensures RhsLen(7) == 4 == RhsLen(8) && RhsAt(7, 1) == SYM_AND_IF && RhsAt(8, 1) == SYM_OR_IF
    ensures Spelling(SYM_AND_IF) == "&&" && Spelling(SYM_OR_IF) == "||"
  {
  }

  /** What the parts of a program mean is decided by the text of their tokens. */
  ghost predicate MeansAsWritten(t: Tree, texts: seq<string>)
    requires IsDerivation(t)
  {
    && (Root(t) == SYM_SIMPLE_COMMAND ==>
          Meaning(t) == [ACommand({}, Words(TextItems(Yield(t), texts)), Redirs(TextItems(Yield(t), texts)))])
    && (Root(t) == SYM_AND_OR ==> LinksAsWritten(t, texts))
    && (Root(t) == SYM_PIPELINE ==>
          && PipesAsWritten(t, texts) && (forall i :: 0 <= i < |CommandTrees(t)| ==> IsDerivation(CommandTrees(t)[i]))
          && Meaning(t) == [APipeline({}, Meanings(CommandTrees(t)))])
    && (Root(t) == SYM_SUBSHELL ==> GroupsAsWritten(t, texts))
  }

  lemma WrittenMeans(t: Tree, texts: seq<string>)
    requires IsDerivation(t) && AreWritten(Yield(t), texts)
    ensures MeansAsWritten(t, texts)
  {
    hide Meaning, IsDerivation, IsWritten, LinksAsWritten, GroupsAsWritten, PipesAsWritten, TextItems, Items, IsClosed;
    if Root(t) == SYM_SIMPLE_COMMAND {
      SimpleCommandIsListed(t);
      PartIsListed(t);
      ItemsAreWritten(Yield(t), texts);
    }
    if Root(t) == SYM_AND_OR { OperatorLinks(t, texts); }
    if Root(t) == SYM_PIPELINE { PipelineIsListed(t, texts); }
    if Root(t) == SYM_SUBSHELL { SubshellGroups(t, texts); }
  }

  /** Every part of a program that is a line's means what the line says. */
  lemma LineMeansAsWritten(line: string, t: Tree, sub: Tree)
    requires Derives(t, LineTokens(line)) && PartOf(sub, t)
    ensures IsDerivation(sub) && MeansAsWritten(sub, LineTexts(line))
  {
    hide MeansAsWritten, LineTokens, LineTexts, IsDerivation, IsWritten;
    LineIsWritten(line);
    PartIsWritten(sub, t, LineTexts(line));
    WrittenMeans(sub, LineTexts(line));
  }

  /** So does every part of a program that a run reads from more lines. */
  lemma RunMeansAsWritten(tokens: seq<TokenRecord>, strings: seq<string>, lexed: seq<Token>, texts: seq<string>,
                          delims: seq<nat>, t: Tree, sub: Tree)
    requires TokensOk(tokens, strings, lexed, texts, delims) && Derives(t, lexed) && PartOf(sub, t)
    ensures IsDerivation(sub) && MeansAsWritten(sub, texts)
  {
    hide MeansAsWritten, TokensOk, IsDerivation, IsWritten;
    LexedAreWritten(tokens, strings, lexed, texts, delims);
    PartIsWritten(sub, t, texts);
    WrittenMeans(sub, texts);
  }
}
