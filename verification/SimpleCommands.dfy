// What a simple command stands for, read off its tokens from left to right: words are arguments,
// an operator and the word behind it are a redirection.

module SimpleCommands {
  import opened Grammar
  import opened Derivations
  import opened NodeArena
  import opened Syntax

  predicate IsRedirOp(x: Symbol) {
    SYM_LESS <= x <= SYM_DGREAT
  }

  /** The redirection an operator and its word make. */
  function RedirOf(op: Symbol, word: Token): Ast {
    if op == SYM_LESS then ARedir({RedirIn}, word.offset, word.flags % WORD_FLAGS)
    else if op == SYM_GREAT then ARedir({RedirOut}, word.offset, word.flags % WORD_FLAGS)
    else if op == SYM_DGREAT then ARedir({RedirAppend}, word.offset, word.flags % WORD_FLAGS)
    else ARedir(HereFlags(word), word.offset, 0)
  }

  /** The words and redirections of a token sequence, in source order. */
  function Items(tokens: seq<Token>): seq<Ast> {
    if tokens == [] then []
    else if tokens[0].kind == SYM_WORD then [WordOf(tokens[0])] + Items(tokens[1..])
    else if |tokens| >= 2 then [RedirOf(tokens[0].kind, tokens[1])] + Items(tokens[2..])
    else []
  }

  /** Every operator has its word. */
  predicate IsClosed(tokens: seq<Token>) {
    tokens == []
    || (tokens[0].kind == SYM_WORD && IsClosed(tokens[1..]))
    || (|tokens| >= 2 && IsRedirOp(tokens[0].kind) && tokens[1].kind == SYM_WORD && IsClosed(tokens[2..]))
  }

  function Words(items: seq<Ast>): seq<Ast> {
    if items == [] then [] else (if items[0].AWord? then [items[0]] else []) + Words(items[1..])
  }

  function Redirs(items: seq<Ast>): seq<Ast> {
    if items == [] then [] else (if items[0].ARedir? then [items[0]] else []) + Redirs(items[1..])
  }

  lemma ItemsOfWord(w: Token, rest: seq<Token>)
    requires w.kind == SYM_WORD
    ensures Items([w] + rest) == [WordOf(w)] + Items(rest) && (IsClosed([w] + rest) <==> IsClosed(rest))
  {
    assert ([w] + rest)[1..] == rest;
  }

  lemma ItemsOfRedir(op: Token, w: Token, rest: seq<Token>)
    requires IsRedirOp(op.kind) && w.kind == SYM_WORD
    ensures Items([op, w] + rest) == [RedirOf(op.kind, w)] + Items(rest)
    ensures (IsClosed([op, w] + rest) <==> IsClosed(rest))
  {
    assert ([op, w] + rest)[2..] == rest;
  }

  /** How a sequence without a dangling operator starts. */
  lemma ClosedStarts(a: seq<Token>)
    requires IsClosed(a) && a != []
    ensures a[0].kind == SYM_WORD ==> a == [a[0]] + a[1..]
    ensures a[0].kind != SYM_WORD ==>
      |a| >= 2 && IsRedirOp(a[0].kind) && a[1].kind == SYM_WORD && a == [a[0], a[1]] + a[2..]
  {
  }

  lemma {:induction false} ItemsConcat(a: seq<Token>, b: seq<Token>)
    requires IsClosed(a) && IsClosed(b)
    ensures Items(a + b) == Items(a) + Items(b) && IsClosed(a + b)
    decreases |a|
  {
    hide Items, IsClosed;
    if a == [] {
      assert a + b == b;
      NothingListed();
    } else if a[0].kind == SYM_WORD {
      ClosedStarts(a);
      ItemsOfWord(a[0], a[1..]);
      ItemsConcat(a[1..], b);
      ItemsOfWord(a[0], a[1..] + b);
      assert a + b == [a[0]] + (a[1..] + b);
    } else {
      ClosedStarts(a);
      ItemsOfRedir(a[0], a[1], a[2..]);
      ItemsConcat(a[2..], b);
      ItemsOfRedir(a[0], a[1], a[2..] + b);
      assert a + b == [a[0], a[1]] + (a[2..] + b);
    }
  }

  lemma SortsFirst(a: Ast, rest: seq<Ast>)
    ensures Words([a] + rest) == (if a.AWord? then [a] else []) + Words(rest)
    ensures Redirs([a] + rest) == (if a.ARedir? then [a] else []) + Redirs(rest)
  {
    assert ([a] + rest)[1..] == rest;
  }

  lemma {:induction false} SortsConcat(a: seq<Ast>, b: seq<Ast>)
    ensures Words(a + b) == Words(a) + Words(b) && Redirs(a + b) == Redirs(a) + Redirs(b)
  {
    hide Words, Redirs;
    if a == [] {
      NothingSorted();
      assert a + b == b;
    } else {
      SortsConcat(a[1..], b);
      SortsFirst(a[0], a[1..]);
      SortsFirst(a[0], a[1..] + b);
      assert a == [a[0]] + a[1..];
      assert a + b == [a[0]] + (a[1..] + b);
    }
  }

  lemma {:induction false} AllRedirs(a: seq<Ast>)
    requires forall i :: 0 <= i < |a| ==> a[i].ARedir?
    ensures Words(a) == [] && Redirs(a) == a
  {
    if a != [] { AllRedirs(a[1..]); }
  }

  lemma OneWord(a: seq<Ast>)
    requires |a| == 1 && a[0].AWord?
    ensures Words(a) == a && Redirs(a) == []
  {
    assert a[1..] == [];
  }

  /** The symbols whose tokens are words and redirections only. */
  predicate IsSimplePart(x: Symbol) {
    SYM_SIMPLE_COMMAND <= x <= SYM_IO_FILE || x == SYM_IO_HERE
  }

  /** What a part of a simple command stands for is what its tokens list. */
  predicate Listed(x: Symbol, m: seq<Ast>, items: seq<Ast>) {
    if x == SYM_SIMPLE_COMMAND || x == SYM_CMD_SUFFIX then m == [ACommand({}, Words(items), Redirs(items))]
    else m == items
  }

  /** The productions whose symbols are all parts of simple commands. */
  predicate AllParts(r: int) {
    19 <= r <= 23 || 26 <= r <= 29 || 32 <= r <= 35
  }

  lemma SimpleRules(r: int)
    requires IsRule(r) && IsSimplePart(Lhs(r))
    ensures AllParts(r) || r == 24 || r == 25 || r == 30 || r == 31 || 36 <= r <= 38 || r == 40
    ensures AllParts(r) ==> 1 <= RhsLen(r) <= 3 && forall i :: 0 <= i < RhsLen(r) ==> IsSimplePart(RhsAt(r, i))
  {
  }

  lemma PartIsBranch(t: Tree)
    requires IsDerivation(t) && IsSimplePart(Root(t))
    ensures t.Branch? && IsRule(t.rule) && IsSimplePart(Lhs(t.rule)) && |t.kids| == RhsLen(t.rule)
    ensures forall i :: 0 <= i < |t.kids| ==> IsDerivation(t.kids[i]) && Root(t.kids[i]) == RhsAt(t.rule, i)
  {
    if t.Branch? {
      forall i | 0 <= i < |t.kids| ensures Root(t.kids[i]) == RhsAt(t.rule, i) {
        assert Root(t.kids[i]) == RhsAt(t.rule, 0 + i);
      }
    }
  }

  lemma WordLeaf(t: Tree)
    requires IsDerivation(t) && IsTokenKind(Root(t))
    ensures t.Leaf? && Yield(t) == [t.token]
  {
  }

  /** A file name or a here-document's delimiter is one word. */
  lemma WordBelow(t: Tree)
    requires IsDerivation(t) && (Root(t) == SYM_FILENAME || Root(t) == SYM_HERE_END)
    ensures |Yield(t)| == 1 && Yield(t)[0].kind == SYM_WORD
    ensures Root(t) == SYM_FILENAME ==> Meaning(t) == [ARedir({}, Yield(t)[0].offset, Yield(t)[0].flags % WORD_FLAGS)]
  {
    hide Meaning;
    assert t.Branch? && (t.rule == 39 || t.rule == 41);
    assert Root(t.kids[0]) == RhsAt(t.rule, 0 + 0);
    WordLeaf(t.kids[0]);
    assert t.kids == [t.kids[0]];
    YieldAllSingle(t.kids[0]);
    assert Yield(t) == [t.kids[0].token];
    assert t.kids[0].token.kind == SYM_WORD;
    if t.rule == 39 {
      MeaningOfBranch(t);
      assert LastToken(YieldAll(t.kids)) == t.kids[0].token;
      NameCombine(KidMeaning(39, t.kids, 0), KidMeaning(39, t.kids, 1), KidMeaning(39, t.kids, 2),
        KidMeaning(39, t.kids, 3), t.kids[0].token);
    }
  }

  lemma NameCombine(a: seq<Ast>, b: seq<Ast>, c: seq<Ast>, d: seq<Ast>, word: Token)
    requires ShapesFit(39, a, b, c, d)
    ensures Combine(39, a, b, c, d, word) == [ARedir({}, word.offset, word.flags % WORD_FLAGS)]
  {
  }

  /** Productions put what their parts list one behind the other. */
  lemma CombineListed(r: int, a: seq<Ast>, b: seq<Ast>, c: seq<Ast>, d: seq<Ast>, word: Token, ia: seq<Ast>,
                      ib: seq<Ast>, ic: seq<Ast>)
    requires IsRule(r) && AllParts(r) && ShapesFit(r, a, b, c, d)
    requires Listed(RhsAt(r, 0), a, ia) && (1 < RhsLen(r) ==> Listed(RhsAt(r, 1), b, ib))
    requires (2 < RhsLen(r) ==> Listed(RhsAt(r, 2), c, ic))
    requires (RhsLen(r) <= 1 ==> ib == []) && (RhsLen(r) <= 2 ==> ic == [])
    ensures Listed(Lhs(r), Combine(r, a, b, c, d, word), ia + ib + ic)
  {
    hide Words, Redirs, ShapesFit, HasShape, Listed, Combine;
    PartShapes(r, a, b, c, d);
    SortsConcat(ia + ib, ic);
    SortsConcat(ia, ib);
    Sorted(RhsAt(r, 0), a, ia);
    NothingSorted();
    if 1 < RhsLen(r) { Sorted(RhsAt(r, 1), b, ib); }
    if 2 < RhsLen(r) { Sorted(RhsAt(r, 2), c, ic); }
    var none: seq<Ast> := [];
    assert none + Words(ib) == Words(ib) && none + Redirs(ib) == Redirs(ib) && Words(ia) + none == Words(ia)
      && Redirs(ia) + none == Redirs(ia);
    assert Words(ia) + Words(ib) + none == Words(ia) + Words(ib)
      && Redirs(ia) + Redirs(ib) + none == Redirs(ia) + Redirs(ib);
    assert ia + ib + ic == if RhsLen(r) == 1 then ia else if RhsLen(r) == 2 then ia + ib else ia + ib + ic;
    if 19 <= r <= 23 {
      CommandListed(r, a, b, c, d, word, ia, ib, ic);
    } else {
      ChainListed(r, a, b, c, d, word, ia, ib);
    }
  }

  lemma PartShapes(r: int, a: seq<Ast>, b: seq<Ast>, c: seq<Ast>, d: seq<Ast>)
    requires IsRule(r) && AllParts(r) && ShapesFit(r, a, b, c, d)
    ensures HasShape(RhsAt(r, 0), a) && (1 < RhsLen(r) ==> HasShape(RhsAt(r, 1), b))
    ensures (2 < RhsLen(r) ==> HasShape(RhsAt(r, 2), c))
  {
    hide HasShape;
  }

  /** Prefix, name and suffix make a command. */
  lemma CommandListed(r: int, a: seq<Ast>, b: seq<Ast>, c: seq<Ast>, d: seq<Ast>, word: Token, ia: seq<Ast>,
                      ib: seq<Ast>, ic: seq<Ast>)
    requires 19 <= r <= 23 && ShapesFit(r, a, b, c, d)
    requires Listed(RhsAt(r, 0), a, ia) && (1 < RhsLen(r) ==> Listed(RhsAt(r, 1), b, ib))
    requires (2 < RhsLen(r) ==> Listed(RhsAt(r, 2), c, ic))
    requires r <= 21 ==> Words(ia) == [] && Redirs(ia) == ia
    requires r >= 22 ==> Words(ia) == ia && Redirs(ia) == []
    requires r <= 20 ==> Words(ib) == ib && Redirs(ib) == []
    requires Words(ia + ib + ic) == Words(ia) + Words(ib) + Words(ic)
    requires Redirs(ia + ib + ic) == Redirs(ia) + Redirs(ib) + Redirs(ic)
    requires (r == 21 || r == 23 ==> ib == []) && (r != 19 ==> ic == []) && Words([]) == [] == Redirs([])
    ensures Listed(Lhs(r), Combine(r, a, b, c, d, word), ia + ib + ic)
  {
    hide Words, Redirs, HasShape;
    var w, x := Words(ia + ib + ic), Redirs(ia + ib + ic);
    Empty(ia);
    Empty(ib);
    if r == 19 {
      assert w == ib + Words(ic) && x == ia + Redirs(ic);
    } else if r == 20 {
      assert w == ib && x == ia;
    } else if r == 22 {
      Empty(ia + Words(ib));
      Empty(Redirs(ib));
      assert w == ia + Words(ib) && x == Redirs(ib);
    } else {
      assert w == (if r == 21 then [] else ia) && x == if r == 21 then ia else [];
    }
  }

  lemma Empty(a: seq<Ast>)
    ensures a + [] == a == [] + a
  {
  }

  /** The parts of prefixes, suffixes and redirection lists. */
  lemma ChainListed(r: int, a: seq<Ast>, b: seq<Ast>, c: seq<Ast>, d: seq<Ast>, word: Token, ia: seq<Ast>, ib: seq<Ast>)
    requires (26 <= r <= 29 || 32 <= r <= 35) && ShapesFit(r, a, b, c, d)
    requires Listed(RhsAt(r, 0), a, ia) && (1 < RhsLen(r) ==> Listed(RhsAt(r, 1), b, ib))
    requires r == 28 ==> Words(ia) == [] && Redirs(ia) == ia
    requires r == 29 ==> Words(ib) == [] && Redirs(ib) == ib
    requires Words(ia + ib) == Words(ia) + Words(ib) && Redirs(ia + ib) == Redirs(ia) + Redirs(ib)
    requires RhsLen(r) <= 1 ==> ib == []
    ensures Listed(Lhs(r), Combine(r, a, b, c, d, word), ia + ib)
  {
    hide Words, Redirs, HasShape;
    assert ia + [] == ia;
    assert r == 28 ==> Words(ia + ib) == [] && Redirs(ia + ib) == ia;
    assert r == 29 ==> Words(ia + ib) == Words(ia) && Redirs(ia + ib) == Redirs(ia) + ib;
  }

  lemma NothingSorted()
    ensures Words([]) == [] && Redirs([]) == []
  {
  }

  lemma Sorted(x: Symbol, m: seq<Ast>, items: seq<Ast>)
    requires HasShape(x, m) && Listed(x, m, items)
    ensures x == SYM_CMD_NAME || x == SYM_CMD_WORD ==> Words(items) == items && Redirs(items) == []
    ensures x == SYM_CMD_PREFIX || x == SYM_REDIRECT_LIST || SYM_IO_REDIRECT <= x <= SYM_IO_FILE || x == SYM_IO_HERE ==>
              Words(items) == [] && Redirs(items) == items
  {
    if x == SYM_CMD_NAME || x == SYM_CMD_WORD {
      OneWord(items);
    } else if x == SYM_CMD_PREFIX || x == SYM_REDIRECT_LIST || SYM_IO_REDIRECT <= x <= SYM_IO_FILE || x == SYM_IO_HERE {
      AllRedirs(items);
    }
  }

  lemma YieldOfThree(kids: seq<Tree>)
    requires 1 <= |kids| <= 3
    ensures YieldAll(kids) == Yield(kids[0]) + (if |kids| > 1 then Yield(kids[1]) else [])
      + (if |kids| > 2 then Yield(kids[2]) else [])
  {
    if |kids| > 1 {
      assert kids[1..][1..] == kids[2..];
      if |kids| > 2 { assert kids[2..][1..] == [] && kids[2..][0] == kids[2]; }
    }
  }

  /** A word alone, or behind arguments. */
  lemma WordListed(t: Tree)
    requires IsDerivation(t) && (t.Branch? && (t.rule == 24 || t.rule == 25 || t.rule == 30))
    ensures IsClosed(Yield(t)) && Listed(Root(t), Meaning(t), Items(Yield(t)))
  {
    hide Meaning;
    assert Root(t.kids[0]) == RhsAt(t.rule, 0 + 0);
    WordLeaf(t.kids[0]);
    assert t.kids == [t.kids[0]];
    YieldAllSingle(t.kids[0]);
    MeaningOfBranch(t);
    var w := t.kids[0].token;
    assert [w][1..] == [];
    assert Items([w]) == [WordOf(w)];
    OneWord([WordOf(w)]);
  }

  lemma RedirListed(t: Tree)
    requires IsDerivation(t) && t.Branch? && (36 <= t.rule <= 38 || t.rule == 40)
    ensures IsClosed(Yield(t)) && Listed(Root(t), Meaning(t), Items(Yield(t)))
  {
    hide Meaning;
    assert Root(t.kids[0]) == RhsAt(t.rule, 0 + 0) && Root(t.kids[1]) == RhsAt(t.rule, 0 + 1);
    WordLeaf(t.kids[0]);
    WordBelow(t.kids[1]);
    YieldOfThree(t.kids);
    MeaningOfBranch(t);
    var op, w := t.kids[0].token, Yield(t.kids[1])[0];
    assert Yield(t) == [op, w] && [op, w][2..] == [];
    assert Items([op, w]) == [RedirOf(op.kind, w)] + Items([]);
  }

  lemma SuffixWordListed(t: Tree)
    requires IsDerivation(t) && t.Branch? && t.rule == 31
    requires |t.kids| == 2 && IsDerivation(t.kids[0]) && Root(t.kids[0]) == SYM_CMD_SUFFIX
    requires IsClosed(Yield(t.kids[0])) && Listed(SYM_CMD_SUFFIX, Meaning(t.kids[0]), Items(Yield(t.kids[0])))
    ensures IsClosed(Yield(t)) && Listed(Root(t), Meaning(t), Items(Yield(t)))
  {
    hide Meaning, ShapesFit, IsClosed, Items, Words, Redirs;
    SuffixWord(t);
    MeaningOfBranch(t);
    KidIsMeaning(t, 0);
    var y, w := Yield(t.kids[0]), t.kids[1].token;
    OneItem(w);
    ItemsConcat(y, [w]);
    SortsConcat(Items(y), [WordOf(w)]);
    OneWord([WordOf(w)]);
    assert Redirs(Items(y)) + [] == Redirs(Items(y));
    SuffixCombine(KidMeaning(31, t.kids, 0), KidMeaning(31, t.kids, 1), KidMeaning(31, t.kids, 2),
      KidMeaning(31, t.kids, 3), w);
  }

  lemma SuffixWord(t: Tree)
    requires IsDerivation(t) && t.Branch? && t.rule == 31 && |t.kids| == 2
    ensures t.kids[1].Leaf? && t.kids[1].token.kind == SYM_WORD
    ensures Yield(t) == YieldAll(t.kids) == Yield(t.kids[0]) + [t.kids[1].token]
    ensures LastToken(YieldAll(t.kids)) == t.kids[1].token
    ensures Root(t) == SYM_CMD_SUFFIX
  {
    assert Root(t.kids[1]) == RhsAt(t.rule, 0 + 1);
    WordLeaf(t.kids[1]);
    YieldOfThree(t.kids);
  }

  lemma OneItem(w: Token)
    requires w.kind == SYM_WORD
    ensures Items([w]) == [WordOf(w)] && IsClosed([w])
  {
    assert [w][1..] == [];
  }

  lemma SuffixCombine(a: seq<Ast>, b: seq<Ast>, c: seq<Ast>, d: seq<Ast>, word: Token)
    requires ShapesFit(31, a, b, c, d)
    ensures |a| == 1 && a[0].ACommand?
    ensures Combine(31, a, b, c, d, word) == [ACommand({}, a[0].body + [WordOf(word)], a[0].redirs)]
  {
  }

  lemma PartsListed(t: Tree)
    requires IsDerivation(t) && t.Branch? && AllParts(t.rule) && |t.kids| == RhsLen(t.rule)
    requires forall i :: 0 <= i < |t.kids| ==>
               && IsDerivation(t.kids[i]) && Root(t.kids[i]) == RhsAt(t.rule, i) && IsSimplePart(Root(t.kids[i]))
               && IsClosed(Yield(t.kids[i])) && Listed(Root(t.kids[i]), Meaning(t.kids[i]), Items(Yield(t.kids[i])))
    ensures IsClosed(Yield(t)) && Listed(Root(t), Meaning(t), Items(Yield(t)))
  {
    hide Meaning, Listed, IsClosed, Items, Combine, ShapesFit, IsDerivation;
    PartLengths(t.rule);
    MeaningOfBranch(t);
    YieldOfThree(t.kids);
    var y0 := Yield(t.kids[0]);
    var y1 := if |t.kids| > 1 then Yield(t.kids[1]) else [];
    var y2 := if |t.kids| > 2 then Yield(t.kids[2]) else [];
    NothingListed();
    ItemsConcat(y0, y1);
    ItemsConcat(y0 + y1, y2);
    KidIsMeaning(t, 0);
    if |t.kids| > 1 { KidIsMeaning(t, 1); }
    if |t.kids| > 2 { KidIsMeaning(t, 2); }
    CombineListed(t.rule, KidMeaning(t.rule, t.kids, 0), KidMeaning(t.rule, t.kids, 1), KidMeaning(t.rule, t.kids, 2),
      KidMeaning(t.rule, t.kids, 3),
                  LastToken(YieldAll(t.kids)), Items(y0), Items(y1), Items(y2));
  }

  lemma PartLengths(r: int)
    requires AllParts(r)
    ensures IsRule(r) && 1 <= RhsLen(r) <= 3
  {
  }

  lemma NothingListed()
    ensures IsClosed([]) && Items([]) == []
  {
  }

  lemma KidIsMeaning(t: Tree, i: nat)
    requires t.Branch? && IsRule(t.rule) && IsRhs(t.rule, 0, t.kids) && i < |t.kids|
      && forall k :: 0 <= k < |t.kids| ==> IsDerivation(t.kids[k])
    requires IsSimplePart(Root(t.kids[i]))
    ensures KidMeaning(t.rule, t.kids, i) == Meaning(t.kids[i])
  {
  }

  lemma {:induction false} PartIsListed(t: Tree)
    requires IsDerivation(t) && IsSimplePart(Root(t))
    ensures IsClosed(Yield(t)) && Listed(Root(t), Meaning(t), Items(Yield(t)))
    decreases t
  {
    hide Meaning, Listed, IsClosed, Items, IsDerivation, RhsAt, RhsLen, Lhs;
    PartIsBranch(t);
    SimpleRules(t.rule);
    if AllParts(t.rule) {
      forall i | 0 <= i < |t.kids|
        ensures IsClosed(Yield(t.kids[i])) && Listed(Root(t.kids[i]), Meaning(t.kids[i]), Items(Yield(t.kids[i])))
      {
        PartIsListed(t.kids[i]);
      }
      PartsListed(t);
    } else if t.rule == 31 {
      SuffixFirst(t);
      PartIsListed(t.kids[0]);
      SuffixWordListed(t);
    } else if t.rule == 24 || t.rule == 25 || t.rule == 30 {
      WordListed(t);
    } else {
      RedirListed(t);
    }
  }

  lemma SuffixFirst(t: Tree)
    requires IsDerivation(t) && t.Branch? && t.rule == 31
    ensures |t.kids| == 2 && IsDerivation(t.kids[0]) && Root(t.kids[0]) == SYM_CMD_SUFFIX
  {
    assert Root(t.kids[0]) == RhsAt(31, 0 + 0);
  }

  /**
   * A simple command's arguments are its words in source order, the name first, and its
   * redirections are those its operators make, in source order, before and behind the name.
   */
  lemma SimpleCommandIsListed(t: Tree)
    requires IsDerivation(t) && Root(t) == SYM_SIMPLE_COMMAND
    ensures Meaning(t) == [ACommand({}, Words(Items(Yield(t))), Redirs(Items(Yield(t))))]
  {
    hide Meaning, Items, IsDerivation;
    PartIsListed(t);
  }
}
