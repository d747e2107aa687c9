// What the abstract syntax of every derivation looks like all the way down, and which tokens its
// words come from.

module WellFormed {
  import opened Grammar
  import opened Derivations
  import opened NodeArena
  import opened Syntax

  // ---- Shapes ----------------------------------------------------------------------------

  predicate Directed(a: Ast) {
    && a.ARedir?
    && (RedirIn in a.flags || RedirOut in a.flags || RedirHere in a.flags || RedirAppend in a.flags)
  }

  /** Pipelines hold commands, commands words or, in parentheses, pipelines, and redirections a direction. */
  predicate SoundAst(a: Ast) {
    match a
    case APipeline(_, commands) =>
      commands != [] && forall i :: 0 <= i < |commands| ==> commands[i].ACommand? && SoundAst(commands[i])
    case ACommand(flags, body, redirs) =>
      && (forall i :: 0 <= i < |redirs| ==> Directed(redirs[i]))
      && (forall i :: 0 <= i < |body| ==>
            SoundAst(body[i]) && if InSubshell in flags then body[i].APipeline? else body[i].AWord?)
    case _ => true
  }

  predicate AllSound(m: seq<Ast>) {
    forall i :: 0 <= i < |m| ==> SoundAst(m[i])
  }

  predicate Sound(x: Symbol, m: seq<Ast>) {
    && AllSound(m)
    && (IsRedirection(x) ==> forall i :: 0 <= i < |m| ==> Directed(m[i]))
  }

  predicate IsRedirection(x: Symbol) {
    || x == SYM_CMD_PREFIX || x == SYM_REDIRECT_LIST
    || x == SYM_IO_REDIRECT || x == SYM_IO_FILE || x == SYM_IO_HERE
  }

  predicate SoundAt(r: int, i: nat, m: seq<Ast>)
    requires IsRule(r)
  {
    i < RhsLen(r) ==> Sound(RhsAt(r, i), m)
  }

  lemma ListSound(r: int, a: seq<Ast>, b: seq<Ast>, c: seq<Ast>, d: seq<Ast>, word: Token)
    requires 0 < r <= 18 && ShapesFit(r, a, b, c, d)
    requires SoundAt(r, 0, a) && SoundAt(r, 1, b) && SoundAt(r, 2, c) && SoundAt(r, 3, d)
    ensures Sound(Lhs(r), Combine(r, a, b, c, d, word))
  {
  }

  lemma CommandSound(r: int, a: seq<Ast>, b: seq<Ast>, c: seq<Ast>, d: seq<Ast>, word: Token)
    requires 18 < r <= 29 && ShapesFit(r, a, b, c, d)
    requires SoundAt(r, 0, a) && SoundAt(r, 1, b) && SoundAt(r, 2, c) && SoundAt(r, 3, d)
    ensures Sound(Lhs(r), Combine(r, a, b, c, d, word))
  {
  }

  lemma RedirectSound(r: int, a: seq<Ast>, b: seq<Ast>, c: seq<Ast>, d: seq<Ast>, word: Token)
    requires IsRule(r) && 29 < r && ShapesFit(r, a, b, c, d)
    requires SoundAt(r, 0, a) && SoundAt(r, 1, b) && SoundAt(r, 2, c) && SoundAt(r, 3, d)
    ensures Sound(Lhs(r), Combine(r, a, b, c, d, word))
  {
  }

  lemma CombineSound(r: int, a: seq<Ast>, b: seq<Ast>, c: seq<Ast>, d: seq<Ast>, word: Token)
    requires IsRule(r) && ShapesFit(r, a, b, c, d)
    requires SoundAt(r, 0, a) && SoundAt(r, 1, b) && SoundAt(r, 2, c) && SoundAt(r, 3, d)
    ensures Sound(Lhs(r), Combine(r, a, b, c, d, word))
  {
    hide ShapesFit, SoundAt, Sound, Combine, Lhs;
    if r <= 18 {
      ListSound(r, a, b, c, d, word);
    } else if r <= 29 {
      CommandSound(r, a, b, c, d, word);
    } else {
      RedirectSound(r, a, b, c, d, word);
    }
  }

  /** The abstract syntax of every derivation is sound. */
  lemma {:induction false} MeaningSound(t: Tree)
    requires IsDerivation(t)
    ensures Sound(Root(t), Meaning(t))
    decreases t, 0
  {
    hide Combine, ShapesFit, HasShape, Sound, SoundAt, Lhs;
    if t.Branch? {
      MeaningOfBranch(t);
      forall i: nat | i < 4 ensures SoundAt(t.rule, i, KidMeaning(t.rule, t.kids, i)) {
        KidSound(t, i);
      }
      CombineSound(t.rule, KidMeaning(t.rule, t.kids, 0), KidMeaning(t.rule, t.kids, 1),
        KidMeaning(t.rule, t.kids, 2), KidMeaning(t.rule, t.kids, 3), LastToken(YieldAll(t.kids)));
    } else {
      NothingIsSound(Root(t));
    }
  }

  lemma KidSound(t: Tree, i: nat)
    requires IsDerivation(t) && t.Branch? && IsRule(t.rule) && IsRhs(t.rule, 0, t.kids)
    requires forall k :: 0 <= k < |t.kids| ==> IsDerivation(t.kids[k])
    ensures SoundAt(t.rule, i, KidMeaning(t.rule, t.kids, i))
    decreases t.kids, 1
  {
    hide Meaning, HasShape, Lhs, Sound;
    if i < |t.kids| {
      assert Root(t.kids[i]) == RhsAt(t.rule, 0 + i);
      MeaningSound(t.kids[i]);
      NothingIsSound(Root(t.kids[i]));
    }
  }

  lemma NothingIsSound(x: Symbol)
    ensures Sound(x, [])
  {
  }

  // ---- Words -----------------------------------------------------------------------------

  /** The words of the abstract syntax, with their flags. */
  function WordsIn(m: seq<Ast>): set<(nat, nat)> {
    if m == [] then {} else WordsOf(m[0]) + WordsIn(m[1..])
  }

  function WordsOf(a: Ast): set<(nat, nat)> {
    match a
    case AWord(offset, wordFlags) => {(offset, wordFlags)}
    case ARedir(_, _, _) => {}
    case ACommand(_, body, redirs) => WordsIn(body) + WordsIn(redirs)
    case APipeline(_, commands) => WordsIn(commands)
  }

  lemma {:induction false} WordsInBoth(a: seq<Ast>, b: seq<Ast>)
    ensures WordsIn(a + b) == WordsIn(a) + WordsIn(b)
  {
    if a == [] {
      assert a + b == b;
    } else {
      assert (a + b)[0] == a[0] && (a + b)[1..] == a[1..] + b;
      WordsInBoth(a[1..], b);
    }
  }

  lemma {:induction false} WordsInSome(m: seq<Ast>, i: nat)
    requires i < |m|
    ensures WordsOf(m[i]) <= WordsIn(m)
  {
    if i > 0 { WordsInSome(m[1..], i - 1); }
  }

  lemma WordsInOne(a: Ast)
    ensures WordsIn([a]) == WordsOf(a)
  {
    assert [a][1..] == [];
  }

  /** The words of the symbols, and the new one if the production makes a word. */
  predicate FromKids(words: set<(nat, nat)>, r: int, a: seq<Ast>, b: seq<Ast>, c: seq<Ast>, d: seq<Ast>, word: Token) {
    forall w :: w in words ==> w in WordsIn(a) || w in WordsIn(b) || w in WordsIn(c) || w in WordsIn(d)
                               || (MakesWord(r) && w == (word.offset, word.flags % WORD_FLAGS))
  }

  predicate MakesWord(r: int) {
    r == 24 || r == 25 || r == 30 || r == 31
  }

  lemma CombineWords(r: int, a: seq<Ast>, b: seq<Ast>, c: seq<Ast>, d: seq<Ast>, word: Token)
    requires IsRule(r) && ShapesFit(r, a, b, c, d)
    ensures FromKids(WordsIn(Combine(r, a, b, c, d, word)), r, a, b, c, d, word)
  {
    hide Combine, ShapesFit, WordsIn, FromKids;
    if r <= 17 { ListWords(r, a, b, c, d, word); }
    else if r <= 25 { CommandWords(r, a, b, c, d, word); }
    else if r <= 31 { SuffixWords(r, a, b, c, d, word); }
    else { RedirectWords(r, a, b, c, d, word); }
  }

  lemma ListWords(r: int, a: seq<Ast>, b: seq<Ast>, c: seq<Ast>, d: seq<Ast>, word: Token)
    requires 0 < r <= 17 && ShapesFit(r, a, b, c, d)
    ensures FromKids(WordsIn(Combine(r, a, b, c, d, word)), r, a, b, c, d, word)
  {
    var m := Combine(r, a, b, c, d, word);
    if |m| == 1 { WordsInOne(m[0]); }
    if |a| == 1 { WordsInOne(a[0]); }
    if |d| == 1 { WordsInOne(d[0]); }
    match r
    case 7 => WordsInBoth(a, [APipeline({AndIf}, d[0].commands)]); WordsInOne(APipeline({AndIf}, d[0].commands));
    case 8 => WordsInBoth(a, [APipeline({OrIf}, d[0].commands)]); WordsInOne(APipeline({OrIf}, d[0].commands));
    case 10 => WordsInBoth(a[0].commands, d);
    case 17 => WordsInBoth(a, c);
    case _ =>
  }

  lemma CommandWords(r: int, a: seq<Ast>, b: seq<Ast>, c: seq<Ast>, d: seq<Ast>, word: Token)
    requires 17 < r <= 25 && ShapesFit(r, a, b, c, d)
    ensures FromKids(WordsIn(Combine(r, a, b, c, d, word)), r, a, b, c, d, word)
  {
    var m := Combine(r, a, b, c, d, word);
    if |m| == 1 { WordsInOne(m[0]); }
    if |b| == 1 { WordsInOne(b[0]); }
    if |c| == 1 { WordsInOne(c[0]); }
    match r
    case 19 => WordsInBoth(b, c[0].body); WordsInBoth(a, c[0].redirs);
    case 22 => WordsInBoth(a, b[0].body);
    case _ =>
  }

  lemma SuffixWords(r: int, a: seq<Ast>, b: seq<Ast>, c: seq<Ast>, d: seq<Ast>, word: Token)
    requires 25 < r <= 31 && ShapesFit(r, a, b, c, d)
    ensures FromKids(WordsIn(Combine(r, a, b, c, d, word)), r, a, b, c, d, word)
  {
    var m := Combine(r, a, b, c, d, word);
    if |m| == 1 { WordsInOne(m[0]); }
    if |a| == 1 { WordsInOne(a[0]); }
    WordsInOne(WordOf(word));
    match r
    case 27 => WordsInBoth(a, b);
    case 29 => WordsInBoth(a[0].redirs, b);
    case 31 => WordsInBoth(a[0].body, [WordOf(word)]);
    case _ =>
  }

  lemma RedirectWords(r: int, a: seq<Ast>, b: seq<Ast>, c: seq<Ast>, d: seq<Ast>, word: Token)
    requires IsRule(r) && 31 < r && ShapesFit(r, a, b, c, d)
    ensures FromKids(WordsIn(Combine(r, a, b, c, d, word)), r, a, b, c, d, word)
  {
    var m := Combine(r, a, b, c, d, word);
    if |m| == 1 { WordsInOne(m[0]); }
    if |a| == 1 { WordsInOne(a[0]); }
    if r == 33 { WordsInBoth(a, b); }
  }
}
