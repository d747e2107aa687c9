// A program's here-documents are those of its tokens, each delimited by the word behind the operator;
// and those the parser has met are the first ones of the program it is reading.

module HereOrder {
  import opened Grammar
  import opened ParseTables
  import opened Automaton
  import opened Derivations
  import opened LrMachine
  import opened LrParser
  import opened LrCompleteness
  import opened Agreement
  import opened HereDescriptors
  import opened RunInvariant

  // ---- The delimiters among the tokens ---------------------------------------------------

  /** The offsets of the tokens behind a here-document's operator. */
  function DelimsIn(tokens: seq<Token>): seq<nat> {
    if |tokens| < 2 then []
    else (if tokens[0].kind == SYM_DLESS then [tokens[1].offset] else []) + DelimsIn(tokens[1..])
  }

  predicate EndsInHere(tokens: seq<Token>) {
    tokens != [] && tokens[|tokens| - 1].kind == SYM_DLESS
  }

  lemma {:induction false} DelimsConcat(a: seq<Token>, b: seq<Token>)
    requires !EndsInHere(a)
    ensures DelimsIn(a + b) == DelimsIn(a) + DelimsIn(b)
  {
    if a == [] {
      assert a + b == b;
    } else {
      assert (a + b)[1..] == a[1..] + b;
      DelimsConcat(a[1..], b);
      if |a| == 1 { assert a[1..] == []; }
    }
  }

  predicate IsHereOperator(t: Tree) {
    t.Leaf? && t.token.kind == SYM_DLESS
  }

  /** A derivation's here-documents are those of its tokens, in their order. */
  lemma {:induction false} HereDocsAreDelims(t: Tree)
    requires IsDerivation(t) && !IsHereOperator(t)
    ensures HereDocs(t) == DelimsIn(Yield(t)) && !EndsInHere(Yield(t))
    decreases t, 0
  {
    match t
    case Leaf(token) =>
      assert Yield(t) == [token];
    case Branch(r, kids) =>
      if r == 40 {
        HereDelim(kids);
      } else {
        OperatorsInRhs(r, kids);
        HereDocsAllAreDelims(kids);
      }
  }

  lemma {:induction false} HereDocsAllAreDelims(ts: seq<Tree>)
    requires forall i :: 0 <= i < |ts| ==> IsDerivation(ts[i]) && !IsHereOperator(ts[i])
    ensures HereDocsAll(ts) == DelimsIn(YieldAll(ts)) && !EndsInHere(YieldAll(ts))
    decreases ts, 1
  {
    if ts != [] {
      HereDocsAreDelims(ts[0]);
      HereDocsAllAreDelims(ts[1..]);
      DelimsConcat(Yield(ts[0]), YieldAll(ts[1..]));
    }
  }

  /** Only the here-document's production has the operator. */
  lemma OperatorsInRhs(r: int, kids: seq<Tree>)
    requires IsDerivation(Branch(r, kids)) && r != 40
    ensures forall i :: 0 <= i < |kids| ==> IsDerivation(kids[i]) && !IsHereOperator(kids[i])
  {
    hide RhsAt, RhsLen;
    forall i | 0 <= i < |kids| ensures !IsHereOperator(kids[i]) {
      assert Root(kids[i]) == RhsAt(r, 0 + i);
      RuleOfHere(r, i);
    }
  }

  lemma HereDelim(kids: seq<Tree>)
    requires IsDerivation(Branch(40, kids))
    ensures var t := Branch(40, kids); HereDocs(t) == DelimsIn(Yield(t)) && !EndsInHere(Yield(t))
  {
    assert |kids| == 2 && Root(kids[0]) == SYM_DLESS && Root(kids[1]) == SYM_HERE_END;
    var end := kids[1];
    assert kids[0].Leaf?;
    HereEnd(end);
    var op, word := kids[0].token, end.kids[0].token;
    assert kids == [kids[0]] + [end];
    YieldAllConcat([kids[0]], [end]);
    YieldAllSingle(kids[0]);
    YieldAllSingle(end);
    assert Yield(Branch(40, kids)) == YieldAll(kids) == [op, word];
    assert [op, word][1..] == [word];
    HereDocsConcat([kids[0]], [end]);
    HereDocsSingle(kids[0]);
    HereDocsSingle(end);
  }

  /** A here-document's delimiter is one word. */
  lemma HereEnd(t: Tree)
    requires IsDerivation(t) && Root(t) == SYM_HERE_END
    ensures t.Branch? && |t.kids| == 1 && t.kids[0].Leaf? && t.kids[0].token.kind == SYM_WORD
    ensures Yield(t) == [t.kids[0].token] && HereDocs(t) == []
  {
    assert t.Branch? && t.rule == 41;
    assert |t.kids| == 1 && Root(t.kids[0]) == SYM_WORD;
    assert t.kids[0].Leaf?;
    assert t.kids == [t.kids[0]];
    YieldAllSingle(t.kids[0]);
    HereDocsSingle(t.kids[0]);
  }

  // ---- The delimiters so far -------------------------------------------------------------

  /** Parsing on adds here-documents behind those that are on the stack. */
  lemma {:induction false} ParseAddsHereDocs(stack: seq<Frame>, input: seq<Token>)
    requires IsPath(stack) && AreTokens(input) && Parse(stack, input).Accept?
    ensures HereDocsAll(Trees(stack)) <= HereDocs(Parse(stack, input).tree)
    decreases |input|, Measure(stack)
  {
    hide Decide, IsPath, ReduceStack, Measure, IsRule, RhsLen, Base, Parse, HereDocs, HereDocsAll, Trees, Goto;
    PathTop(stack);
    match Decide(Top(stack), Lookahead(input)) {
      case Error => ParseReject(stack, input);
      case Reduce(r) =>
        ParseReduce(stack, input);
        ReduceHereDocs(stack, r);
        ParseAddsHereDocs(ReduceStack(stack, r), input);
      case Shift(s) =>
        if input == [] {
          ParseAccept(stack);
          OneTree(stack);
          HereDocsSingle(stack[0].tree);
        } else {
          ParseShift(stack, input);
          ShiftHereDocs(stack, Frame(s, Leaf(input[0])));
          ParseAddsHereDocs(stack + [Frame(s, Leaf(input[0]))], input[1..]);
        }
    }
  }

  lemma OneTree(stack: seq<Frame>)
    requires |stack| == 1
    ensures Trees(stack) == [stack[0].tree]
  {
  }

  /** Whichever program has these tokens, its first here-documents are those of the delimiters so far. */
  ghost predicate DelimitersFirst(lexed: seq<Token>, delims: seq<nat>) {
    forall t: Tree :: Derives(t, lexed) ==> delims <= HereDocs(t)
  }

  lemma StackDelimitersFirst(lexed: seq<Token>, stack: seq<Frame>, n: nat)
    requires Agrees(lexed, stack, n)
    ensures DelimitersFirst(lexed, HereDocsAll(Trees(stack)))
  {
    hide Parse, IsPath, HereDocs, HereDocsAll, Trees, Derives;
    assert AgreesOn(lexed, stack, n, []);
    assert lexed + [] == lexed;
    forall t: Tree | Derives(t, lexed) ensures HereDocsAll(Trees(stack)) <= HereDocs(t) {
      AcceptsExactlyDerivable(t, lexed);
      ParseAddsHereDocs(stack, lexed[n..] + []);
    }
  }

  lemma EndDelimitersFirst(lexed: seq<Token>, stack: seq<Frame>)
    requires AgreesAtEnd(lexed, stack)
    ensures DelimitersFirst(lexed, HereDocsAll(Trees(stack)))
  {
    hide Parse, IsPath, HereDocs, HereDocsAll, Trees, Derives;
    forall t: Tree | Derives(t, lexed) ensures HereDocsAll(Trees(stack)) <= HereDocs(t) {
      AcceptsExactlyDerivable(t, lexed);
      ParseAddsHereDocs(stack, []);
    }
  }
}
